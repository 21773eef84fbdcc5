/** The kernel objects that own pages: the hash page table, the ASID bitmap and the address space. */
module AddressSpaces {
  import opened Options
  import opened Frames
  import opened PageTables
  import opened Bytes
  import opened PageFrames
  import opened Tlb

  const BRK_DEFAULT: nat := 0x1000_8000
  const HEAP_LIMIT: nat := 0x1010_8000
  const ASIDS: nat := 255

  ghost predicate Enumerates(order: seq<nat>, t: Table) {
    && (forall v :: v in order <==> v in t)
    && (forall i, j :: 0 <= i < j < |order| ==> order[i] != order[j])
  }

  /** The boundary, in pages above the default break, that a brk request asks for. */
  function BrkPages(vaddr: nat): nat
    requires BRK_DEFAULT <= vaddr
  {
    (vaddr - BRK_DEFAULT) / 4096 + 1
  }

  lemma BoundaryIs(vaddr: nat)
    requires BRK_DEFAULT <= vaddr
    ensures BrkPages(vaddr) == vaddr / 4096 - DYNAMIC_VPN + 1 && DYNAMIC_VPN <= vaddr / 4096
  {}

  function BrkWants(brk: nat, pages: nat): seq<Want>
    requires brk <= pages
  {
    seq(pages - brk, i requires 0 <= i < pages - brk => Want(DYNAMIC_VPN + brk + i, Pte(0, false, true, true, true)))
  }

  /** The pages from one boundary to the next, and the entries the missing ones get: user, present, writable, not global. */
  lemma BrkPagesMapped(p: Pool, t: Table, brk: nat, pages: nat)
    requires brk <= pages && MapAll(p, t, BrkWants(brk, pages)).Some?
    ensures HeapGrown(t, MapAll(p, t, BrkWants(brk, pages)).value.1, brk, pages)
  {
    var wants := BrkWants(brk, pages);
    var t' := MapAll(p, t, wants).value.1;
    MapEntries(p, t, wants);
    forall v | DYNAMIC_VPN + brk <= v < DYNAMIC_VPN + pages ensures v in t' {
      assert wants[v - DYNAMIC_VPN - brk].vpn == v;
    }
    forall v | v in t' && v !in t
      ensures DYNAMIC_VPN + brk <= v < DYNAMIC_VPN + pages && t'[v] == Pte(t'[v].pfn, false, true, true, true)
    {
      assert WantedAs(wants, v, t'[v]);
    }
  }

  /** The table has kept its entries and got exactly the missing pages from the brk-th page of the heap to the last one. */
  ghost predicate HeapGrown(t: Table, t': Table, brk: nat, pages: nat) {
    && (forall v :: v in t' <==> v in t || DYNAMIC_VPN + brk <= v < DYNAMIC_VPN + pages)
    && (forall v :: v in t ==> t'[v] == t[v])
    && (forall v :: v in t' && v !in t ==>
          var e := t'[v]; e.user && e.present && e.writable && !e.global)
  }

  /** The next page of the parent is new to the child. */
  lemma NewPage(p: Pool, order: seq<nat>, parent: Table, i: nat)
    requires Enumerates(order, parent) && i < |order| && MapAll(p, map[], Copies(order, parent)[..i]).Some?
    ensures order[i] !in MapAll(p, map[], Copies(order, parent)[..i]).value.1
    ensures forall v :: v in order[..i] ==> v in MapAll(p, map[], Copies(order, parent)[..i]).value.1
  {
    var wants := Copies(order, parent)[..i];
    MapEntries(p, map[], wants);
    forall v | v in order[..i] ensures v in MapAll(p, map[], wants).value.1 {
      var k :| 0 <= k < i && order[k] == v;
      assert wants[k].vpn == v;
    }
  }

  /** The next copy of a fork goes to the frame the pool gives next. */
  lemma NextCopy(p0: Pool, order: seq<nat>, parent: Table, i: nat)
    requires Enumerates(order, parent) && i < |order| && MapAll(p0, map[], Copies(order, parent)[..i]).Some?
    ensures var p := MapAll(p0, map[], Copies(order, parent)[..i]).value.0;
      && FirstClear(p.bits, p.boundary) == CopyList(p0, order, parent)[i].dst
      && CopyList(p0, order, parent)[i].src == parent[order[i]].pfn
  {
    NextFrame(p0, map[], Copies(order, parent)[..i]);
  }

  /** One more copy. */
  lemma CopyOn(m: seq<Byte>, copies: seq<Copy>, i: nat)
    requires |m| == PHYS_MEM_SIZE && i < |copies| && AllFit(copies[..i])
    ensures InMemory(copies[i].src, copies[i].dst) <==> AllFit(copies[..i + 1])
    ensures AllFit(copies[..i + 1]) ==>
      CopyPages(m, copies[..i + 1]) == CopyInts(CopyPages(m, copies[..i]), copies[i].src, copies[i].dst)
    ensures AllFit(copies) ==> AllFit(copies[..i + 1])
  {
    assert copies[..i + 1] == copies[..i] + [copies[i]];
    assert copies[..i + 1][..i] == copies[..i];
  }

  /** The child's i-th page is where the i-th copy goes. */
  lemma ChildFrame(p: Pool, order: seq<nat>, parent: Table, i: nat)
    requires Enumerates(order, parent) && MapAll(p, map[], Copies(order, parent)).Some? && i < |order|
    ensures var t := MapAll(p, map[], Copies(order, parent)).value.1;
      order[i] in t && t[order[i]] == parent[order[i]].(pfn := CopyList(p, order, parent)[i].dst)
  {
    var wants := Copies(order, parent);
    FirstWantIs(wants, order[i], i);
    MapFrame(p, map[], wants, order[i]);
  }

  /** The clear frames go up, and so do the targets of the copies. */
  lemma CopiesAscend(p: Pool, order: seq<nat>, parent: Table)
    requires Enumerates(order, parent)
    ensures Ascending(CopyList(p, order, parent))
  {
    var copies := CopyList(p, order, parent);
    forall i, j | 0 <= i < j < |copies| ensures copies[i].dst < copies[j].dst { NthGrows(p.bits, p.boundary, i, j); }
  }

  class HashPageTable {
    var table: Table

    constructor ()
      ensures table == map[]
    {
      table := map[];
    }

    /** Reserves a frame and emplaces an entry for it; false when no frame is left. */
    method AddPage(mm: MemoryManager, w: Want) returns (ok: bool)
      modifies this, mm
      ensures match Reserve(old(mm.View()))
              case None => !ok && mm.View() == old(mm.View()) && table == old(table)
              case Some((f, p)) => ok && mm.View() == p && table == Place(old(table), w, f)
    {
      var frame := mm.ReserveFrame();
      if frame.None? { return false; }
      if w.vpn !in table { table := table[w.vpn := w.shape.(pfn := frame.value)]; }
      return true;
    }

    /** One of the constructor's loops: adds the pages of one region in turn. */
    method AddRegion(mm: MemoryManager, wants: seq<Want>) returns (ok: bool)
      modifies this, mm
      ensures match MapAll(old(mm.View()), old(table), wants)
              case None => !ok
              case Some((p, t)) => ok && mm.View() == p && table == t
    {
      ghost var p0, t0 := mm.View(), table;
      var i := 0;
      while i < |wants|
        invariant 0 <= i <= |wants|
        invariant MapAll(p0, t0, wants[..i]) == Some((mm.View(), table))
      {
        MapSnoc(p0, t0, wants, i);
        ok := AddPage(mm, wants[i]);
        if !ok { return; }
        i := i + 1;
      }
      assert wants[..i] == wants;
      ok := true;
    }

    /** A fresh table: text, static, stack and dynamic pages; None when the frames run out. */
    static method Create(mm: MemoryManager, text: nat, data: nat, stack: nat, dynamic: nat) returns (pt: HashPageTable?)
      requires stack <= STACK_VPN
      modifies mm
      ensures match MapAll(old(mm.View()), map[], Layout(text, data, stack, dynamic))
              case None => pt == null
              case Some((p, t)) => pt != null && fresh(pt) && mm.View() == p && pt.table == t
    {
      ghost var p0 := mm.View();
      ghost var a, b, c, d :=
        Region(TEXT_VPN, text, false), Region(STATIC_VPN, data, true), StackRegion(stack), Region(DYNAMIC_VPN, dynamic, true);
      MapAppend(p0, map[], a + b + c, d);
      MapAppend(p0, map[], a + b, c);
      MapAppend(p0, map[], a, b);
      pt := new HashPageTable();
      var ok := pt.AddRegion(mm, Region(TEXT_VPN, text, false));
      if !ok { return null; }
      ok := pt.AddRegion(mm, Region(STATIC_VPN, data, true));
      if !ok { return null; }
      ok := pt.AddRegion(mm, StackRegion(stack));
      if !ok { return null; }
      ok := pt.AddRegion(mm, Region(DYNAMIC_VPN, dynamic, true));
      if !ok { return null; }
    }

    /** dst[i] = src[i] for one int. */
    static method CopyInt(physMem: array<Byte>, src: nat, dst: nat)
      requires src + 4 <= physMem.Length && dst + 4 <= physMem.Length
      modifies physMem
      ensures physMem[..] == CopyBytes(old(physMem[..]), src, dst, 4)
    {
      var b0, b1, b2, b3 := physMem[src], physMem[src + 1], physMem[src + 2], physMem[src + 3];
      physMem[dst], physMem[dst + 1] := b0, b1;
      physMem[dst + 2], physMem[dst + 3] := b2, b3;
    }

    /** The copying loop: 4096 ints, one at a time, from one frame on to another. */
    static method CopyFrame(physMem: array<Byte>, f: nat, g: nat)
      requires physMem.Length == PHYS_MEM_SIZE && InMemory(f, g)
      modifies physMem
      ensures physMem[..] == CopyInts(old(physMem[..]), f, g)
    {
      var src, dst := f * PAGE, g * PAGE;
      ghost var m := physMem[..];
      var i := 0;
      while i < COPIED_INTS
        invariant 0 <= i <= COPIED_INTS
        invariant src + 4 * COPIED_INTS <= |m| && dst + 4 * COPIED_INTS <= |m|
        invariant physMem[..] == CopyWords(m, src, dst, i)
      {
        CopyInt(physMem, src + 4 * i, dst + 4 * i);
        i := i + 1;
      }
    }

    /** A page of the child: its frame, its entry and the copy; false when either is impossible. */
    method AddCopy(mm: MemoryManager, physMem: array<Byte>, w: Want, f: nat) returns (ok: bool)
      requires physMem.Length == PHYS_MEM_SIZE && w.vpn !in table
      modifies this, mm, physMem
      ensures match Reserve(old(mm.View()))
              case None => !ok
              case Some((g, p)) =>
                && mm.View() == p && table == old(table)[w.vpn := w.shape.(pfn := g)] && (ok <==> InMemory(f, g))
                && (ok ==> physMem[..] == CopyInts(old(physMem[..]), f, g))
    {
      ok := AddPage(mm, w);
      if !ok { return; }
      var g := table[w.vpn].pfn;
      if f + COPIED_FRAMES > NUM_PAGES || g + COPIED_FRAMES > NUM_PAGES { return false; }
      CopyFrame(physMem, f, g);
    }

    /**
     * Fork's constructor: for every page of the parent, in its iteration order, a fresh frame and a copy. Null stands
     * for the kernel's assertion when the frames run out, and for a copy that runs past the end of memory.
     */
    static method CreateFrom(mm: MemoryManager, physMem: array<Byte>, order: seq<nat>, parent: Table) returns (pt: HashPageTable?)
      requires Enumerates(order, parent) && physMem.Length == PHYS_MEM_SIZE
      modifies mm, physMem
      ensures var copies := CopyList(old(mm.View()), order, parent);
        match MapAll(old(mm.View()), map[], Copies(order, parent))
        case None => pt == null
        case Some((p, t)) =>
          if AllFit(copies)
          then pt != null && fresh(pt) && mm.View() == p && pt.table == t && physMem[..] == CopyPages(old(physMem[..]), copies)
          else pt == null
    {
      ghost var p0, m0, wants, copies := mm.View(), physMem[..], Copies(order, parent), CopyList(mm.View(), order, parent);
      pt := new HashPageTable();
      var i := 0;
      while i < |order|
        invariant 0 <= i <= |order| && fresh(pt)
        invariant MapAll(p0, map[], wants[..i]) == Some((mm.View(), pt.table))
        invariant AllFit(copies[..i]) && physMem[..] == CopyPages(m0, copies[..i])
      {
        NewPage(p0, order, parent, i);
        NextCopy(p0, order, parent, i);
        CopyOn(m0, copies, i);
        MapSnoc(p0, map[], wants, i);
        var ok := pt.AddCopy(mm, physMem, Want(order[i], parent[order[i]]), parent[order[i]].pfn);
        if !ok { return null; }
        i := i + 1;
      }
      assert wants[..i] == wants && copies[..i] == copies;
    }

    function WalkTable(vaddr: nat): (r: Option<Pte>)
      reads this
      ensures r.Some? <==> vaddr / 4096 in table
    {
      if vaddr / 4096 in table then Some(table[vaddr / 4096]) else None
    }

    /** Maps a page of user space that is not mapped yet; anything else changes nothing. */
    method MapPte(pte: Pte, vpn: nat) returns (success: bool)
      modifies this
      ensures success <==> TEXT_VPN <= vpn < STACK_VPN && vpn !in old(table)
      ensures table == if success then old(table)[vpn := pte] else old(table)
    {
      if vpn < TEXT_VPN || vpn >= STACK_VPN { return false; }
      if vpn in table { return false; }
      table := table[vpn := pte];
      return true;
    }

    /** The destructor clears exactly the frames of its entries. */
    method Destroy(mm: MemoryManager, order: seq<nat>)
      requires Enumerates(order, table)
      requires forall v :: v in table ==> table[v].pfn < |mm.reservedPages|
      modifies mm
      ensures mm.View() == old(mm.View()).(bits := Clear(old(mm.View()).bits, FramesOf(table)))
    {
      ghost var bits := mm.reservedPages;
      var i := 0;
      while i < |order|
        invariant 0 <= i <= |order|
        invariant |mm.reservedPages| == |bits|
        invariant forall k :: 0 <= k < |bits| ==>
          mm.reservedPages[k] == (bits[k] && forall j :: 0 <= j < i ==> table[order[j]].pfn != k)
      {
        mm.FreeFrame(table[order[i]].pfn);
        i := i + 1;
      }
      forall k | 0 <= k < |bits| ensures mm.reservedPages[k] == (bits[k] && k !in FramesOf(table)) {
        if k in FramesOf(table) {
          var v :| v in table && table[v].pfn == k;
          assert v in order;
        }
      }
      assert mm.reservedPages == Clear(bits, FramesOf(table));
    }
  }

  class AsidPool {
    var reserved: seq<bool>

    constructor ()
      ensures reserved == seq(ASIDS, _ => false)
    {
      reserved := seq(ASIDS, _ => false);
    }

    /** The lowest ASID not in use; None is the kernel's assertion failing. */
    method Take() returns (r: Option<nat>)
      modifies this
      ensures var i := FirstClear(old(reserved), 0);
        if i < |old(reserved)| then r == Some(i) && reserved == old(reserved)[i := true]
        else r.None? && reserved == old(reserved)
    {
      var i := 0;
      while i < |reserved|
        invariant 0 <= i
        invariant FirstClear(reserved, 0) == FirstClear(reserved, i)
      {
        if !reserved[i] {
          reserved := reserved[i := true];
          return Some(i);
        }
        i := i + 1;
      }
      return None;
    }
  }

  class AddressSpace {
    const pageTable: HashPageTable
    const asid: nat
    var brk: nat

    /** `brk` is not initialised, so it starts with any value. */
    constructor (pageTable: HashPageTable, asid: nat, brk: nat)
      ensures this.pageTable == pageTable && this.asid == asid && this.brk == brk
    {
      this.pageTable, this.asid, this.brk := pageTable, asid, brk;
    }

    /** The TLB words for a mapped address; None is the kernel's "not implemented" assertion. */
    method Translate(vaddr: nat) returns (words: Option<(nat, nat)>)
      ensures var e := pageTable.WalkTable(vaddr);
        words == if e.Some? && e.value.present then Some(RefillWords(e.value, vaddr / 4096, asid)) else None
    {
      var e := pageTable.WalkTable(vaddr);
      if e.Some? && e.value.present { return Some(RefillWords(e.value, vaddr / 4096, asid)); }
      return None;
    }

    /** Grows the heap page by page. None is out of frames; Some(false) a request outside the heap. */
    method UpdateBrk(mm: MemoryManager, vaddr: nat) returns (r: Option<bool>)
      modifies this, pageTable, mm
      ensures !(BRK_DEFAULT <= vaddr < HEAP_LIMIT) ==> r == Some(false)
      ensures r == Some(false) ==> !(BRK_DEFAULT <= vaddr < HEAP_LIMIT)
      ensures r == Some(false) || BrkPages(vaddr) <= old(brk) ==>
        mm.View() == old(mm.View()) && pageTable.table == old(pageTable.table) && brk == old(brk)
      ensures BRK_DEFAULT <= vaddr < HEAP_LIMIT && old(brk) < BrkPages(vaddr) ==>
        match MapAll(old(mm.View()), old(pageTable.table), BrkWants(old(brk), BrkPages(vaddr)))
        case None => r.None?
        case Some((p, t)) => r == Some(true) && mm.View() == p && pageTable.table == t && brk == BrkPages(vaddr)
      ensures r == Some(true) ==>
        && brk == (if vaddr / 4096 - DYNAMIC_VPN + 1 > old(brk) then vaddr / 4096 - DYNAMIC_VPN + 1 else old(brk))
        && HeapGrown(old(pageTable.table), pageTable.table, old(brk), brk)
    {
      if vaddr < BRK_DEFAULT || vaddr >= HEAP_LIMIT { return Some(false); }
      var pages := BrkPages(vaddr);
      BoundaryIs(vaddr);
      if pages <= brk { return Some(true); }
      ghost var p0, t0, wants := mm.View(), pageTable.table, BrkWants(brk, pages);
      var i := brk;
      while i < pages
        invariant brk == old(brk) <= i <= pages
        invariant MapAll(p0, t0, wants[..i - brk]) == Some((mm.View(), pageTable.table))
      {
        MapSnoc(p0, t0, wants, i - brk);
        var frame := mm.ReserveFrame();
        if frame.None? { return None; }
        var mapped := pageTable.MapPte(Pte(frame.value, false, true, true, true), DYNAMIC_VPN + i);
        i := i + 1;
      }
      assert wants[..i - brk] == wants;
      BrkPagesMapped(p0, t0, brk, pages);
      brk := pages;
      return Some(true);
    }
  }

  /** The words a refill writes: valid, global as the entry says, never dirty. */
  function RefillWords(e: Pte, vpn: nat, asid: nat): (nat, nat) {
    (EntryHi(vpn, e.global, asid), EntryLo(e.pfn, 0, false, true))
  }

  function RefillEntry(e: Pte, vpn: nat, asid: nat): TlbEntry {
    TlbEntry(vpn, e.pfn, e.global, false, true, asid, 0)
  }

  lemma RefillDecodes(e: Pte, vpn: nat, asid: nat)
    requires vpn < 0x10_0000 && e.pfn < 0x400_0000 && asid < 256
    ensures DecodeWords(RefillWords(e, vpn, asid).0, RefillWords(e, vpn, asid).1) == RefillEntry(e, vpn, asid)
  {
    DecodeEncode(vpn, e.pfn, e.global, false, true, asid);
  }
}
