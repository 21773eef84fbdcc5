/** All address spaces, the frame pool and the TLB together: frame ownership and TLB isolation over every run. */
module Isolation {
  import opened Options
  import opened Frames
  import opened PageTables
  import opened AddressSpaces
  import opened Tlb

  datatype Space = Space(asid: nat, brk: nat, table: Table)

  /** `spaces` is indexed by process; `kernel` is the set of frames of the kernel heap. */
  datatype Sys = Sys(pool: Pool, asids: seq<bool>, spaces: map<nat, Space>, kernel: set<nat>,
                     tlb: seq<TlbEntry>, random: nat)

  const KERNEL_VPN: nat := 0xC_0000
  const KERNEL_ASID: nat := 255

  ghost predicate Mapped(s: Sys, p: nat, v: nat) { p in s.spaces && v in s.spaces[p].table }

  ghost function Frame(s: Sys, p: nat, v: nat): nat
    requires Mapped(s, p, v)
  {
    s.spaces[p].table[v].pfn
  }

  // ---- Invariants ----

  ghost predicate UserPages(t: Table) {
    forall v :: v in t ==> TEXT_VPN <= v < STACK_VPN && t[v].present && !t[v].global
  }

  ghost predicate Sized(s: Sys) {
    ValidPool(s.pool) && |s.asids| == ASIDS && |s.tlb| == TLB_ENTRIES && s.random < TLB_ENTRIES
  }

  const KERNEL_HEAP_PAGES: nat := 64

  /** The kernel heap was the first to reserve frames, and keeps them. */
  ghost predicate KernelFirst(boundary: nat, kernel: set<nat>) {
    forall f: nat :: f in kernel <==> boundary <= f < boundary + KERNEL_HEAP_PAGES
  }

  /** Every mapped page has its own frame: reserved, above the kernel image, and not one of the kernel heap. */
  ghost predicate Owned(s: Sys) {
    && Sized(s)
    && KernelFirst(s.pool.boundary, s.kernel)
    && (forall f :: f in s.kernel ==> s.pool.boundary <= f < NUM_PAGES && s.pool.bits[f])
    && (forall p, v :: Mapped(s, p, v) ==>
          && s.pool.boundary <= Frame(s, p, v) < NUM_PAGES && s.pool.bits[Frame(s, p, v)]
          && Frame(s, p, v) !in s.kernel)
    && (forall p, v, q, u :: Mapped(s, p, v) && Mapped(s, q, u) && Frame(s, p, v) == Frame(s, q, u) ==> p == q && v == u)
    && (forall p :: p in s.spaces ==> UserPages(s.spaces[p].table))
    && (forall p :: p in s.spaces ==> s.spaces[p].asid < ASIDS && s.asids[s.spaces[p].asid])
    && (forall p, q :: p in s.spaces && q in s.spaces && s.spaces[p].asid == s.spaces[q].asid ==> p == q)
  }

  /** A valid TLB entry is a kernel one, or agrees with the table of the live process that holds its ASID. */
  ghost predicate Agrees(s: Sys, e: TlbEntry) {
    if e.global then e.vpn >= KERNEL_VPN
    else forall p :: p in s.spaces && s.spaces[p].asid == e.asid ==>
           e.vpn in s.spaces[p].table && s.spaces[p].table[e.vpn].pfn == e.pfn
  }

  ghost predicate Consistent(s: Sys) {
    forall i :: 0 <= i < |s.tlb| && s.tlb[i].valid ==> Agrees(s, s.tlb[i])
  }

  /** Some valid entry carries this ASID: what a probe for the ASID would have to look for. */
  ghost predicate Tagged(tlb: seq<TlbEntry>, asid: nat) {
    exists i :: 0 <= i < |tlb| && tlb[i].valid && !tlb[i].global && tlb[i].asid == asid
  }

  /** Stronger: the ASID of every valid user entry is in use. */
  ghost predicate NoStale(s: Sys) {
    Consistent(s) && forall i :: 0 <= i < |s.tlb| && s.tlb[i].valid && !s.tlb[i].global ==>
      exists p :: p in s.spaces && s.spaces[p].asid == s.tlb[i].asid
  }

  // ---- Operations; None means the kernel's assertion fails and the machine halts ----

  function Open(s: Sys, p: nat, wants: seq<Want>, brk: nat): (r: Option<Sys>)
    requires p !in s.spaces
    ensures r.Some? ==> p in r.value.spaces
  {
    match MapAll(s.pool, map[], wants)
    case None => None
    case Some((pool, t)) =>
      var a := FirstClear(s.asids, 0);
      if a >= |s.asids| then None
      else Some(s.(pool := pool, asids := s.asids[a := true], spaces := s.spaces[p := Space(a, brk, t)]))
  }

  function Grow(s: Sys, p: nat, wants: seq<Want>, brk: nat): Option<Sys>
    requires p in s.spaces
  {
    match MapAll(s.pool, s.spaces[p].table, wants)
    case None => None
    case Some((pool, t)) => Some(s.(pool := pool, spaces := s.spaces[p := s.spaces[p].(brk := brk, table := t)]))
  }

  function Brk(s: Sys, p: nat, vaddr: nat): Option<Sys>
    requires p in s.spaces
  {
    if vaddr < BRK_DEFAULT || vaddr >= HEAP_LIMIT || BrkPages(vaddr) <= s.spaces[p].brk then Some(s)
    else Grow(s, p, BrkWants(s.spaces[p].brk, BrkPages(vaddr)), BrkPages(vaddr))
  }

  function Close(s: Sys, p: nat): Sys
    requires p in s.spaces && s.spaces[p].asid < |s.asids|
  {
    s.(pool := s.pool.(bits := Clear(s.pool.bits, FramesOf(s.spaces[p].table))),
       asids := s.asids[s.spaces[p].asid := false],
       spaces := s.spaces - {p})
  }

  /** exec builds a whole new process q, takes its table (which drops p's old one) and lets q die. */
  function Exec(s: Sys, p: nat, q: nat, wants: seq<Want>, brk: nat): Option<Sys>
    requires p in s.spaces && q !in s.spaces
  {
    match Open(s, q, wants, brk)
    case None => None
    case Some(s1) => Some(TakeTable(s1, p, q))
  }

  function TakeTable(s: Sys, p: nat, q: nat): Sys
    requires p in s.spaces && q in s.spaces
  {
    var a := s.spaces[q].asid;
    s.(pool := s.pool.(bits := Clear(s.pool.bits, FramesOf(s.spaces[p].table))),
       asids := if a < |s.asids| then s.asids[a := false] else s.asids,
       spaces := s.spaces[p := s.spaces[p].(table := s.spaces[q].table)] - {q})
  }

  function WriteTlb(s: Sys, e: TlbEntry): Sys
    requires s.random < |s.tlb|
  {
    s.(tlb := s.tlb[s.random := e], random := NextRandom(s.random))
  }

  function Refill(s: Sys, p: nat, vaddr: nat): Option<Sys>
    requires p in s.spaces && s.random < |s.tlb|
  {
    var t := s.spaces[p].table;
    if vaddr / PAGE in t && t[vaddr / PAGE].present
    then Some(WriteTlb(s, RefillEntry(t[vaddr / PAGE], vaddr / PAGE, s.spaces[p].asid)))
    else None
  }

  function KernelRefill(s: Sys, vpn: nat, pfn: nat): Sys
    requires s.random < |s.tlb|
  {
    WriteTlb(s, RefillEntry(Pte(pfn, true, true, false, true), vpn, KERNEL_ASID))
  }

  // ---- Frame ownership ----

  ghost predicate UserWants(wants: seq<Want>) {
    forall w :: w in wants ==> TEXT_VPN <= w.vpn < STACK_VPN && w.shape.present && !w.shape.global
  }

  ghost function Held(s: Sys, p: nat): set<nat> {
    s.kernel + set q, v | q in s.spaces && q != p && v in s.spaces[q].table :: s.spaces[q].table[v].pfn
  }

  lemma HeldReserved(s: Sys, p: nat)
    requires Owned(s)
    ensures Reserved(s.pool, Held(s, p))
    ensures p in s.spaces ==> Holds(s.pool, s.spaces[p].table, Held(s, p))
  {
    forall f | f in Held(s, p) ensures f < |s.pool.bits| && s.pool.bits[f] {
      if f !in s.kernel {
        var q, v :| q in s.spaces && q != p && v in s.spaces[q].table && s.spaces[q].table[v].pfn == f;
        assert Mapped(s, q, v);
      }
    }
    if p in s.spaces {
      var t := s.spaces[p].table;
      forall v | v in t ensures s.pool.boundary <= t[v].pfn < |s.pool.bits| && s.pool.bits[t[v].pfn] && t[v].pfn !in Held(s, p) {
        assert Mapped(s, p, v);
        if t[v].pfn in Held(s, p) {
          var q, u :| q in s.spaces && q != p && u in s.spaces[q].table && s.spaces[q].table[u].pfn == t[v].pfn;
          assert Mapped(s, q, u);
        }
      }
      forall v, u | v in t && u in t && t[v].pfn == t[u].pfn ensures v == u {
        assert Mapped(s, p, v) && Mapped(s, p, u);
      }
    }
  }

  /** Giving one process a table of frames nobody else holds keeps ownership, whatever its other fields become. */
  lemma SetSpaceOwned(s: Sys, s': Sys, p: nat, a: nat)
    requires Owned(s) && p in s'.spaces && a < ASIDS
    requires s' == s.(pool := s'.pool, asids := s.asids[a := true], spaces := s.spaces[p := s'.spaces[p]])
      || s' == s.(pool := s'.pool, spaces := s.spaces[p := s'.spaces[p]])
    requires s'.pool.boundary == s.pool.boundary && |s'.pool.bits| == |s.pool.bits| && s'.asids[a]
    requires Holds(s'.pool, s'.spaces[p].table, Held(s, p)) && Reserved(s'.pool, Held(s, p))
    requires UserPages(s'.spaces[p].table) && s'.spaces[p].asid == a
    requires forall q :: q in s.spaces && q != p ==> s.spaces[q].asid != a
    ensures Owned(s')
  {
    forall q, v | Mapped(s', q, v)
      ensures s'.pool.boundary <= Frame(s', q, v) < NUM_PAGES && s'.pool.bits[Frame(s', q, v)]
      ensures Frame(s', q, v) !in s'.kernel
      ensures q != p ==> Frame(s', q, v) in Held(s, p)
    {
      if q != p {
        assert Mapped(s, q, v);
        assert s.spaces[q].table[v].pfn in Held(s, p);
      }
    }
    forall q, v, q', u | Mapped(s', q, v) && Mapped(s', q', u) && Frame(s', q, v) == Frame(s', q', u)
      ensures q == q' && v == u
    {
      if q != p && q' != p { assert Mapped(s, q, v) && Mapped(s, q', u); }
    }
    forall f | f in s'.kernel ensures s'.pool.bits[f] { assert f in Held(s, p); }
  }

  lemma MapUser(p: Pool, t: Table, wants: seq<Want>)
    requires UserPages(t) && UserWants(wants) && MapAll(p, t, wants).Some?
    ensures UserPages(MapAll(p, t, wants).value.1)
  {
    MapEntries(p, t, wants);
    var t' := MapAll(p, t, wants).value.1;
    forall v | v in t' ensures TEXT_VPN <= v < STACK_VPN && t'[v].present && !t'[v].global {
      if v !in t {
        var k :| 0 <= k < |wants| && wants[k].vpn == v && t'[v] == wants[k].shape.(pfn := t'[v].pfn);
        assert wants[k] in wants;
      }
    }
  }

  lemma OpenOwned(s: Sys, p: nat, wants: seq<Want>, brk: nat)
    requires Owned(s) && p !in s.spaces && UserWants(wants) && Open(s, p, wants, brk).Some?
    ensures Owned(Open(s, p, wants, brk).value)
  {
    HeldReserved(s, p);
    MapHolds(s.pool, map[], wants, Held(s, p));
    MapUser(s.pool, map[], wants);
    SetSpaceOwned(s, Open(s, p, wants, brk).value, p, FirstClear(s.asids, 0));
  }

  lemma GrowOwned(s: Sys, p: nat, wants: seq<Want>, brk: nat)
    requires Owned(s) && p in s.spaces && UserWants(wants) && Grow(s, p, wants, brk).Some?
    ensures Owned(Grow(s, p, wants, brk).value)
  {
    HeldReserved(s, p);
    MapHolds(s.pool, s.spaces[p].table, wants, Held(s, p));
    MapUser(s.pool, s.spaces[p].table, wants);
    SetSpaceOwned(s, Grow(s, p, wants, brk).value, p, s.spaces[p].asid);
  }

  /** Closing a process releases its own frames and no one else's: every other holder's frame stays reserved. */
  lemma CloseOwned(s: Sys, p: nat)
    requires Owned(s) && p in s.spaces
    ensures Owned(Close(s, p))
    ensures forall v :: Mapped(s, p, v) ==> Frame(s, p, v) < NUM_PAGES && !Close(s, p).pool.bits[Frame(s, p, v)]
  {
    var s' := Close(s, p);
    forall q, v | Mapped(s', q, v)
      ensures s.pool.boundary <= Frame(s', q, v) < NUM_PAGES && s'.pool.bits[Frame(s', q, v)]
      ensures Frame(s', q, v) !in s.kernel
    {
      assert Mapped(s, q, v);
      if Frame(s, q, v) in FramesOf(s.spaces[p].table) {
        var u :| u in s.spaces[p].table && s.spaces[p].table[u].pfn == Frame(s, q, v);
        assert Mapped(s, p, u);
      }
    }
    forall f | f in s.kernel ensures s'.pool.bits[f] {
      if f in FramesOf(s.spaces[p].table) {
        var u :| u in s.spaces[p].table && s.spaces[p].table[u].pfn == f;
        assert Mapped(s, p, u);
      }
    }
    forall q, v, q', u | Mapped(s', q, v) && Mapped(s', q', u) && Frame(s', q, v) == Frame(s', q', u)
      ensures q == q' && v == u
    {
      assert Mapped(s, q, v) && Mapped(s, q', u);
    }
    forall v | Mapped(s, p, v) ensures Frame(s, p, v) < NUM_PAGES && !s'.pool.bits[Frame(s, p, v)] {
      assert s.spaces[p].table[v].pfn in FramesOf(s.spaces[p].table);
    }
  }

  lemma TakeTableOwned(s: Sys, p: nat, q: nat)
    requires Owned(s) && p in s.spaces && q in s.spaces && p != q
    ensures Owned(TakeTable(s, p, q))
  {
    var s' := TakeTable(s, p, q);
    CloseOwned(s, p);
    forall x, v | Mapped(s', x, v)
      ensures Mapped(s, if x == p then q else x, v) && Frame(s', x, v) == Frame(s, if x == p then q else x, v)
      ensures s.pool.boundary <= Frame(s', x, v) < NUM_PAGES && s'.pool.bits[Frame(s', x, v)]
      ensures Frame(s', x, v) !in s.kernel
    {
      var y := if x == p then q else x;
      assert Mapped(s, y, v);
      assert Mapped(Close(s, p), y, v);
    }
    forall x, v, y, u | Mapped(s', x, v) && Mapped(s', y, u) && Frame(s', x, v) == Frame(s', y, u)
      ensures x == y && v == u
    {
      assert Mapped(s, if x == p then q else x, v) && Mapped(s, if y == p then q else y, u);
    }
    forall f | f in s.kernel ensures s'.pool.bits[f] {
      assert f in Close(s, p).kernel;
    }
  }

  lemma ExecOwned(s: Sys, p: nat, q: nat, wants: seq<Want>, brk: nat)
    requires Owned(s) && p in s.spaces && q !in s.spaces && UserWants(wants) && Exec(s, p, q, wants, brk).Some?
    ensures Owned(Exec(s, p, q, wants, brk).value)
  {
    OpenOwned(s, q, wants, brk);
    TakeTableOwned(Open(s, q, wants, brk).value, p, q);
  }

  // ---- TLB consistency ----

  /** The new table gives this entry's page the very frame the entry has: the one next in line for the first want of it. */
  predicate Fits(pool: Pool, wants: seq<Want>, e: TlbEntry) {
    var k := FirstWant(wants, e.vpn);
    k < |wants| && e.pfn == NthClear(pool.bits, pool.boundary, k)
  }

  /** Every entry left over for the ASID a new process gets fits its table by chance. */
  predicate LeftoversFit(s: Sys, wants: seq<Want>) {
    forall i :: 0 <= i < |s.tlb| && s.tlb[i].valid && !s.tlb[i].global && s.tlb[i].asid == FirstClear(s.asids, 0) ==>
      Fits(s.pool, wants, s.tlb[i])
  }

  /** Adding a process keeps the TLB right if and only if the entries left over for its ASID fit: known before the call. */
  lemma OpenConsistent(s: Sys, p: nat, wants: seq<Want>, brk: nat)
    requires Owned(s) && Consistent(s) && p !in s.spaces && Open(s, p, wants, brk).Some?
    ensures Consistent(Open(s, p, wants, brk).value) <==> LeftoversFit(s, wants)
  {
    var s', a := Open(s, p, wants, brk).value, FirstClear(s.asids, 0);
    forall i | 0 <= i < |s.tlb| && s.tlb[i].valid
      ensures Agrees(s', s.tlb[i]) <==> s.tlb[i].global || s.tlb[i].asid != a || Fits(s.pool, wants, s.tlb[i])
    {
      var e := s.tlb[i];
      assert Agrees(s, e);
      MapFrame(s.pool, map[], wants, e.vpn);
      if !e.global && e.asid == a {
        assert p in s'.spaces && s'.spaces[p].asid == e.asid;
        forall q | q in s'.spaces && s'.spaces[q].asid == a ensures q == p {}
      }
    }
  }

  /** Growing a table keeps every entry it had, so no TLB entry can become wrong. */
  lemma GrowConsistent(s: Sys, p: nat, wants: seq<Want>, brk: nat)
    requires Consistent(s) && p in s.spaces && Grow(s, p, wants, brk).Some?
    ensures Consistent(Grow(s, p, wants, brk).value)
  {
    MapEntries(s.pool, s.spaces[p].table, wants);
    var s' := Grow(s, p, wants, brk).value;
    forall i | 0 <= i < |s'.tlb| && s'.tlb[i].valid ensures Agrees(s', s'.tlb[i]) {
      assert Agrees(s, s.tlb[i]);
    }
  }

  lemma WriteConsistent(s: Sys, e: TlbEntry)
    requires Sized(s) && Consistent(s) && Agrees(s, e)
    ensures Consistent(WriteTlb(s, e)) && Sized(WriteTlb(s, e))
  {
    var s' := WriteTlb(s, e);
    forall i | 0 <= i < |s'.tlb| && s'.tlb[i].valid ensures Agrees(s', s'.tlb[i]) {
      assert i != s.random ==> Agrees(s, s.tlb[i]);
    }
  }

  lemma RefillConsistent(s: Sys, p: nat, vaddr: nat)
    requires Owned(s) && Consistent(s) && p in s.spaces && Refill(s, p, vaddr).Some?
    ensures Owned(Refill(s, p, vaddr).value) && Consistent(Refill(s, p, vaddr).value)
  {
    var t := s.spaces[p].table;
    WriteConsistent(s, RefillEntry(t[vaddr / PAGE], vaddr / PAGE, s.spaces[p].asid));
    SameSpacesOwned(s, Refill(s, p, vaddr).value);
  }

  /** After a refill the address translates to the frame of its own page, under the ASID of its process. */
  lemma RefillServes(s: Sys, p: nat, vaddr: nat)
    requires Owned(s) && p in s.spaces && vaddr < DIRECT_START && Refill(s, p, vaddr).Some?
    requires Translate(s.tlb, vaddr, s.spaces[p].asid).None?
    ensures var s' := Refill(s, p, vaddr).value;
      && Mapped(s, p, vaddr / PAGE) && s'.spaces == s.spaces
      && Translate(s'.tlb, vaddr, s.spaces[p].asid) == Some(Frame(s, p, vaddr / PAGE) * PAGE + vaddr % PAGE)
  {
    assert Mapped(s, p, vaddr / PAGE);
    RefillHits(s.tlb, s.random, RefillEntry(s.spaces[p].table[vaddr / PAGE], vaddr / PAGE, s.spaces[p].asid), vaddr, s.spaces[p].asid);
  }

  /** A page of the kernel heap, once refilled, is there for every ASID. */
  lemma KernelRefillServes(s: Sys, vpn: nat, pfn: nat, offset: nat, asid: nat)
    requires Sized(s) && KERNEL_VPN <= vpn && pfn < NUM_PAGES && offset < PAGE
    requires Translate(s.tlb, vpn * PAGE + offset, asid).None?
    ensures Translate(KernelRefill(s, vpn, pfn).tlb, vpn * PAGE + offset, asid) == Some(pfn * PAGE + offset)
  {
    var vaddr, tlb := vpn * PAGE + offset, KernelRefill(s, vpn, pfn).tlb;
    assert vaddr / PAGE == vpn && vaddr % PAGE == offset;
    assert Matches(tlb[s.random], vpn, asid);
    assert forall k :: 0 <= k < |tlb| && k != s.random ==> tlb[k] == s.tlb[k];
  }

  lemma SameSpacesOwned(s: Sys, s': Sys)
    requires Owned(s) && Sized(s') && s' == s.(tlb := s'.tlb, random := s'.random)
    ensures Owned(s')
  {
    forall p, v ensures Mapped(s', p, v) <==> Mapped(s, p, v) {}
    forall p, v | Mapped(s', p, v)
      ensures s.pool.boundary <= Frame(s', p, v) < NUM_PAGES && s.pool.bits[Frame(s', p, v)] && Frame(s', p, v) !in s.kernel
    {
      assert Mapped(s, p, v);
    }
    forall p, v, q, u | Mapped(s', p, v) && Mapped(s', q, u) && Frame(s', p, v) == Frame(s', q, u)
      ensures p == q && v == u
    {
      assert Mapped(s, p, v) && Mapped(s, q, u);
    }
  }

  lemma CloseConsistent(s: Sys, p: nat)
    requires Owned(s) && Consistent(s) && p in s.spaces
    ensures Consistent(Close(s, p))
  {
    var s' := Close(s, p);
    forall i | 0 <= i < |s'.tlb| && s'.tlb[i].valid ensures Agrees(s', s'.tlb[i]) {
      assert Agrees(s, s.tlb[i]);
    }
  }

  /** Exit never invalidates entries: stale ones are left behind exactly when the TLB held any for the process. */
  lemma CloseLeavesStale(s: Sys, p: nat)
    requires Owned(s) && NoStale(s) && p in s.spaces
    ensures NoStale(Close(s, p)) <==> !Tagged(s.tlb, s.spaces[p].asid)
  {
    CloseConsistent(s, p);
    var s', a := Close(s, p), s.spaces[p].asid;
    forall i | 0 <= i < |s.tlb| && s.tlb[i].valid && !s.tlb[i].global
      ensures s.tlb[i].asid != a <==> exists q :: q in s'.spaces && s'.spaces[q].asid == s.tlb[i].asid
    {
      var q :| q in s.spaces && s.spaces[q].asid == s.tlb[i].asid;
      if s.tlb[i].asid != a { assert q in s'.spaces; }
    }
  }

  /** exec keeps the ASID but swaps the table: TLB and tables still agree exactly when no entry carries that ASID. */
  lemma ExecConsistent(s: Sys, p: nat, q: nat, wants: seq<Want>, brk: nat)
    requires Owned(s) && Consistent(s) && p in s.spaces && q !in s.spaces && UserWants(wants)
    requires Exec(s, p, q, wants, brk).Some?
    ensures Consistent(Exec(s, p, q, wants, brk).value) <==> !Tagged(s.tlb, s.spaces[p].asid)
  {
    var s1 := Open(s, q, wants, brk).value;
    var s', a := Exec(s, p, q, wants, brk).value, s.spaces[p].asid;
    OpenOwned(s, q, wants, brk);
    forall i | 0 <= i < |s.tlb| && s.tlb[i].valid
      ensures Agrees(s', s.tlb[i]) <==> s.tlb[i].global || s.tlb[i].asid != a
    {
      var e := s.tlb[i];
      assert Agrees(s, e);
      if !e.global && e.asid == a {
        assert Mapped(s1, p, e.vpn);
        if e.vpn in s'.spaces[p].table {
          assert Mapped(s1, q, e.vpn);
          assert Frame(s1, p, e.vpn) != Frame(s1, q, e.vpn);
        }
        assert p in s'.spaces && s'.spaces[p].asid == e.asid;
      }
    }
  }

  /** Reissuing the ASID of a process that has exited is harmless if and only if the entries it left behind fit the new table. */
  lemma ReissueConsistent(s: Sys, p: nat, q: nat, wants: seq<Want>, brk: nat)
    requires Owned(s) && Consistent(s) && p in s.spaces && FirstClear(Close(s, p).asids, 0) == s.spaces[p].asid
    requires q !in Close(s, p).spaces && Open(Close(s, p), q, wants, brk).Some?
    ensures Consistent(Open(Close(s, p), q, wants, brk).value) <==>
            forall i :: 0 <= i < |s.tlb| && s.tlb[i].valid && !s.tlb[i].global && s.tlb[i].asid == s.spaces[p].asid ==>
              Fits(Close(s, p).pool, wants, s.tlb[i])
  {
    CloseOwned(s, p);
    CloseConsistent(s, p);
    OpenConsistent(Close(s, p), q, wants, brk);
  }

  // ---- Runs ----

  datatype Step =
    | Create(p: nat, text: nat, data: nat, stack: nat, dynamic: nat, brk: nat)
    | Fork(parent: nat, p: nat, order: seq<nat>, brk: nat)
    | BrkTo(p: nat, vaddr: nat)
    | Miss(p: nat, vaddr: nat)
    | KernelMiss(vpn: nat, pfn: nat)
    | Replace(p: nat, q: nat, text: nat, data: nat, stack: nat, dynamic: nat, brk: nat)
    | Exit(p: nat)

  ghost predicate Enabled(s: Sys, step: Step) {
    match step
    case Create(p, _, _, stack, _, _) => p !in s.spaces && stack <= STACK_VPN
    case Fork(parent, p, order, _) => parent in s.spaces && p !in s.spaces && Enumerates(order, s.spaces[parent].table)
    case BrkTo(p, _) => p in s.spaces
    case Miss(p, _) => p in s.spaces && s.random < |s.tlb|
    case KernelMiss(vpn, pfn) => s.random < |s.tlb| && vpn >= KERNEL_VPN && pfn in s.kernel
    case Replace(p, q, _, _, stack, _, _) => p in s.spaces && q !in s.spaces && stack <= STACK_VPN
    case Exit(p) => p in s.spaces && s.spaces[p].asid < |s.asids|
  }

  ghost function Next(s: Sys, step: Step): Option<Sys>
    requires Enabled(s, step)
  {
    match step
    case Create(p, text, data, stack, dynamic, brk) => Open(s, p, Layout(text, data, stack, dynamic), brk)
    case Fork(parent, p, order, brk) => Open(s, p, Copies(order, s.spaces[parent].table), brk)
    case BrkTo(p, vaddr) => Brk(s, p, vaddr)
    case Miss(p, vaddr) => Refill(s, p, vaddr)
    case KernelMiss(vpn, pfn) => Some(KernelRefill(s, vpn, pfn))
    case Replace(p, q, text, data, stack, dynamic, brk) => Exec(s, p, q, Layout(text, data, stack, dynamic), brk)
    case Exit(p) => Some(Close(s, p))
  }

  /** What a step must be able to count on: leftover entries fit the table their ASID gets. */
  ghost predicate CleanTags(s: Sys, step: Step)
    requires Enabled(s, step)
  {
    match step
    case Create(_, text, data, stack, dynamic, _) => LeftoversFit(s, Layout(text, data, stack, dynamic))
    case Fork(parent, _, order, _) => LeftoversFit(s, Copies(order, s.spaces[parent].table))
    case Replace(p, _, _, _, _, _, _) => p in s.spaces && !Tagged(s.tlb, s.spaces[p].asid)
    case _ => true
  }

  /** A layout that found its frames is small, hence lies in user space. */
  lemma LayoutUser(pool: Pool, text: nat, data: nat, stack: nat, dynamic: nat)
    requires ValidPool(pool) && stack <= STACK_VPN && MapAll(pool, map[], Layout(text, data, stack, dynamic)).Some?
    ensures UserWants(Layout(text, data, stack, dynamic))
  {
    MapConsumes(pool, map[], Layout(text, data, stack, dynamic));
    assert |Layout(text, data, stack, dynamic)| == text + data + stack + dynamic;
    RegionUser(TEXT_VPN, text, false);
    RegionUser(STATIC_VPN, data, true);
    RegionUser(DYNAMIC_VPN, dynamic, true);
    assert UserWants(StackRegion(stack)) by {
      forall w | w in StackRegion(stack) ensures TEXT_VPN <= w.vpn < STACK_VPN && w.shape == FromFlags(0, false, true, true) {
        var i :| 0 <= i < stack && w == StackRegion(stack)[i];
      }
    }
  }

  lemma RegionUser(start: nat, n: nat, writable: bool)
    requires TEXT_VPN <= start && start + n <= STACK_VPN
    ensures UserWants(Region(start, n, writable))
  {
    forall w | w in Region(start, n, writable)
      ensures start <= w.vpn < start + n && w.shape == FromFlags(0, false, writable, true)
    {
      var i :| 0 <= i < n && w == Region(start, n, writable)[i];
    }
  }

  /** Frame ownership survives every step: any page counts, any brk value, exec and exit included. */
  lemma StepOwned(s: Sys, step: Step)
    requires Owned(s) && Enabled(s, step) && Next(s, step).Some?
    ensures Owned(Next(s, step).value)
  {
    match step
    case Create(p, text, data, stack, dynamic, brk) =>
      LayoutUser(s.pool, text, data, stack, dynamic);
      OpenOwned(s, p, Layout(text, data, stack, dynamic), brk);
    case Fork(parent, p, order, brk) =>
      OpenOwned(s, p, Copies(order, s.spaces[parent].table), brk);
    case BrkTo(p, vaddr) =>
      if Brk(s, p, vaddr) != Some(s) {
        GrowOwned(s, p, BrkWants(s.spaces[p].brk, BrkPages(vaddr)), BrkPages(vaddr));
      }
    case Miss(p, vaddr) =>
      SameSpacesOwned(s, Refill(s, p, vaddr).value);
    case KernelMiss(vpn, pfn) =>
      SameSpacesOwned(s, KernelRefill(s, vpn, pfn));
    case Replace(p, q, text, data, stack, dynamic, brk) =>
      LayoutUser(s.pool, text, data, stack, dynamic);
      ExecOwned(s, p, q, Layout(text, data, stack, dynamic), brk);
    case Exit(p) =>
      CloseOwned(s, p);
  }

  /** A step keeps the TLB right if and only if its leftovers fit. */
  lemma StepConsistent(s: Sys, step: Step)
    requires Owned(s) && Consistent(s) && Enabled(s, step) && Next(s, step).Some?
    ensures Consistent(Next(s, step).value) <==> CleanTags(s, step)
  {
    match step
    case Create(p, text, data, stack, dynamic, brk) =>
      OpenConsistent(s, p, Layout(text, data, stack, dynamic), brk);
    case Fork(parent, p, order, brk) =>
      OpenConsistent(s, p, Copies(order, s.spaces[parent].table), brk);
    case BrkTo(p, vaddr) =>
      if Brk(s, p, vaddr) != Some(s) {
        GrowConsistent(s, p, BrkWants(s.spaces[p].brk, BrkPages(vaddr)), BrkPages(vaddr));
      }
    case Miss(p, vaddr) =>
      RefillConsistent(s, p, vaddr);
    case KernelMiss(vpn, pfn) =>
      WriteConsistent(s, RefillEntry(Pte(pfn, true, true, false, true), vpn, KERNEL_ASID));
    case Replace(p, q, text, data, stack, dynamic, brk) =>
      LayoutUser(s.pool, text, data, stack, dynamic);
      ExecConsistent(s, p, q, Layout(text, data, stack, dynamic), brk);
    case Exit(p) =>
      CloseConsistent(s, p);
  }

  ghost predicate Run(s: Sys, steps: seq<Step>, s': Sys)
    decreases |steps|
  {
    if steps == [] then s == s'
    else Enabled(s, steps[0]) && Next(s, steps[0]).Some? && Run(Next(s, steps[0]).value, steps[1..], s')
  }

  ghost predicate CleanRun(s: Sys, steps: seq<Step>)
    decreases |steps|
  {
    steps != [] ==>
      && Enabled(s, steps[0]) && CleanTags(s, steps[0])
      && (Next(s, steps[0]).Some? ==> CleanRun(Next(s, steps[0]).value, steps[1..]))
  }

  lemma {:induction false} RunOwned(s: Sys, steps: seq<Step>, s': Sys)
    requires Owned(s) && Run(s, steps, s')
    ensures Owned(s')
    decreases |steps|
  {
    if steps != [] {
      StepOwned(s, steps[0]);
      RunOwned(Next(s, steps[0]).value, steps[1..], s');
    }
  }

  /** The TLB agrees with all live tables before, between and after all steps. */
  ghost predicate AllConsistent(s: Sys, steps: seq<Step>)
    decreases |steps|
  {
    Consistent(s) && (steps != [] && Enabled(s, steps[0]) && Next(s, steps[0]).Some? ==>
                        AllConsistent(Next(s, steps[0]).value, steps[1..]))
  }

  /** Over whole runs: the TLB is right throughout if and only if every step's leftovers fit. */
  lemma {:induction false} RunConsistent(s: Sys, steps: seq<Step>, s': Sys)
    requires Owned(s) && Consistent(s) && Run(s, steps, s')
    ensures Owned(s') && (AllConsistent(s, steps) <==> CleanRun(s, steps)) && (CleanRun(s, steps) ==> Consistent(s'))
    decreases |steps|
  {
    if steps != [] {
      StepOwned(s, steps[0]);
      StepConsistent(s, steps[0]);
      RunOwned(s, steps, s');
      if CleanTags(s, steps[0]) { RunConsistent(Next(s, steps[0]).value, steps[1..], s'); }
    }
  }

  /** A user address translates through the process's own table, to a frame no other process and no kernel page has. */
  lemma UserTranslation(s: Sys, p: nat, vaddr: nat)
    requires Owned(s) && Consistent(s) && p in s.spaces && vaddr < DIRECT_START
    requires Translate(s.tlb, vaddr, s.spaces[p].asid).Some?
    ensures
      var pa := Translate(s.tlb, vaddr, s.spaces[p].asid).value;
      && Mapped(s, p, vaddr / PAGE) && pa == Frame(s, p, vaddr / PAGE) * PAGE + vaddr % PAGE
      && pa / PAGE !in s.kernel
      && forall q, v :: q != p && Mapped(s, q, v) ==> Frame(s, q, v) != pa / PAGE
  {
    var i := FirstMatch(s.tlb, vaddr / PAGE, s.spaces[p].asid, 0);
    assert Agrees(s, s.tlb[i]);
    assert Mapped(s, p, vaddr / PAGE);
  }

  /** Isolation over whole runs: wherever a run leads, a user store of p cannot reach a byte another process maps. */
  lemma RunIsolates(s: Sys, steps: seq<Step>, s': Sys, p: nat, vaddr: nat)
    requires Owned(s) && Consistent(s) && Run(s, steps, s') && CleanRun(s, steps)
    requires p in s'.spaces && vaddr < DIRECT_START && Translate(s'.tlb, vaddr, s'.spaces[p].asid).Some?
    ensures
      var frame := Translate(s'.tlb, vaddr, s'.spaces[p].asid).value / PAGE;
      frame !in s'.kernel && forall q, v :: q != p && Mapped(s', q, v) ==> Frame(s', q, v) != frame
  {
    RunConsistent(s, steps, s');
    UserTranslation(s', p, vaddr);
  }

  // ---- Boot ----

  function KernelWants(): seq<Want> {
    seq(KERNEL_HEAP_PAGES, i requires 0 <= i < KERNEL_HEAP_PAGES => Want(i, Pte(0, true, true, false, true)))
  }

  function Boot(boundary: nat): Option<Sys> {
    match MapAll(Pool(seq(NUM_PAGES, _ => false), boundary), map[], KernelWants())
    case None => None
    case Some((pool, t)) =>
      Some(Sys(pool, seq(ASIDS, _ => false), map[], FramesOf(t), seq(TLB_ENTRIES, _ => EMPTY), 0))
  }

  /** The frames in use are exactly those from the boundary up to `hi`. */
  ghost predicate Filled(p: Pool, hi: nat) {
    ValidPool(p) && p.boundary <= hi <= NUM_PAGES && forall i :: 0 <= i < NUM_PAGES ==> (p.bits[i] <==> p.boundary <= i < hi)
  }

  lemma {:induction false} FilledNth(p: Pool, hi: nat, from: nat, k: nat)
    requires Filled(p, hi) && p.boundary <= from <= NUM_PAGES
    ensures var at := (if from < hi then hi else from) + k; at <= NUM_PAGES ==> NthClear(p.bits, from, k) == at
    decreases k
  {
    if from < hi { SkipSet(p.bits, from, hi); }
    if k > 0 && (if from < hi then hi else from) + k <= NUM_PAGES {
      FilledNth(p, hi, FirstClear(p.bits, from) + 1, k - 1);
    }
  }

  lemma KernelMapped(p: Pool, v: nat)
    requires ValidPool(p) && Filled(p, p.boundary) && MapAll(p, map[], KernelWants()).Some?
    ensures var t := MapAll(p, map[], KernelWants()).value.1;
      (v in t <==> v < KERNEL_HEAP_PAGES) && (v < KERNEL_HEAP_PAGES ==> t[v].pfn == p.boundary + v)
  {
    var w := KernelWants();
    MapFrame(p, map[], w, v);
    if v < KERNEL_HEAP_PAGES {
      FirstWantIs(w, v, v);
      MapConsumes(p, map[], w);
      FilledNth(p, p.boundary, p.boundary, 0);
      FilledNth(p, p.boundary, p.boundary, v);
    }
  }

  lemma HeapFrames(t: Table, boundary: nat)
    requires forall v: nat :: (v in t <==> v < KERNEL_HEAP_PAGES) && (v in t ==> t[v].pfn == boundary + v)
    ensures KernelFirst(boundary, FramesOf(t))
  {
    forall f: nat ensures f in FramesOf(t) <==> boundary <= f < boundary + KERNEL_HEAP_PAGES {
      if boundary <= f < boundary + KERNEL_HEAP_PAGES { assert f - boundary in t; }
    }
  }

  lemma BootKernel(p: Pool)
    requires ValidPool(p) && Filled(p, p.boundary) && MapAll(p, map[], KernelWants()).Some?
    ensures KernelFirst(p.boundary, FramesOf(MapAll(p, map[], KernelWants()).value.1))
  {
    var t := MapAll(p, map[], KernelWants()).value.1;
    forall v: nat ensures (v in t <==> v < KERNEL_HEAP_PAGES) && (v in t ==> t[v].pfn == p.boundary + v) {
      KernelMapped(p, v);
    }
    HeapFrames(t, p.boundary);
  }

  lemma BootOwned(boundary: nat)
    requires boundary <= NUM_PAGES && Boot(boundary).Some?
    ensures Owned(Boot(boundary).value) && NoStale(Boot(boundary).value)
  {
    var p := Pool(seq(NUM_PAGES, _ => false), boundary);
    BootKernel(p);
    MapHolds(p, map[], KernelWants(), {});
  }

  lemma {:induction false} MapFilled(p: Pool, t: Table, wants: seq<Want>, hi: nat)
    requires Filled(p, hi) && hi + |wants| <= NUM_PAGES
    ensures MapAll(p, t, wants).Some? && Filled(MapAll(p, t, wants).value.0, hi + |wants|)
    decreases |wants|
  {
    if wants != [] {
      FilledNth(p, hi, p.boundary, 0);
      var (f, p') := Reserve(p).value;
      MapFilled(p', Place(t, wants[0], f), wants[1..], hi + 1);
    }
  }

  /** A program of `text` text pages, one data page and four stack pages, as createProcess lays it out. */
  function Program(text: nat): seq<Want> { Layout(text, 1, 4, 0) }

  const DEEP_VPN: nat := STACK_VPN - 4

  lemma ProgramWants(text: nat)
    requires 0 < text < 16
    ensures |Program(text)| == text + 5
    ensures FirstWant(Program(text), TEXT_VPN) == 0 && UserWants(Program(text))
    ensures forall j, k :: 0 <= j < k < |Program(text)| ==> Program(text)[j].vpn != Program(text)[k].vpn
  {
    var w := Program(text);
    assert forall i :: 0 <= i < text ==> w[i] == Want(TEXT_VPN + i, FromFlags(0, false, false, true));
    assert w[text] == Want(STATIC_VPN, FromFlags(0, false, true, true));
    assert forall j :: text < j < text + 5 ==> w[j] == Want(STACK_VPN - (j - text), FromFlags(0, false, true, true));
    FirstWantIs(w, TEXT_VPN, 0);
  }

  /** Starting a program takes the next frames in line and the lowest ASID not in use. */
  lemma Started(s: Sys, p: nat, text: nat, hi: nat)
    requires Filled(s.pool, hi) && hi + text + 5 <= NUM_PAGES && 0 < text < 16 && p !in s.spaces
    requires |s.asids| == ASIDS && FirstClear(s.asids, 0) < ASIDS
    ensures var r := Open(s, p, Program(text), 0);
      && r.Some? && Filled(r.value.pool, hi + text + 5) && r.value.tlb == s.tlb && r.value.random == s.random
      && r.value.asids == s.asids[FirstClear(s.asids, 0) := true]
      && r.value.spaces == s.spaces[p := r.value.spaces[p]] && r.value.spaces[p].asid == FirstClear(s.asids, 0)
      && UserPages(r.value.spaces[p].table)
      && Mapped(r.value, p, TEXT_VPN) && Frame(r.value, p, TEXT_VPN) == hi
  {
    var w := Program(text);
    ProgramWants(text);
    MapFilled(s.pool, map[], w, hi);
    MapFrame(s.pool, map[], w, TEXT_VPN);
    FilledNth(s.pool, hi, s.pool.boundary, 0);
    MapUser(s.pool, map[], w);
  }

  lemma BootFilled(boundary: nat)
    requires boundary + KERNEL_HEAP_PAGES <= NUM_PAGES
    ensures Boot(boundary).Some? && Filled(Boot(boundary).value.pool, boundary + KERNEL_HEAP_PAGES)
    ensures var s := Boot(boundary).value;
      s.spaces == map[] && s.asids == seq(ASIDS, _ => false) && s.tlb == seq(TLB_ENTRIES, _ => EMPTY) && s.random == 0
  {
    MapFilled(Pool(seq(NUM_PAGES, _ => false), boundary), map[], KernelWants(), boundary);
  }

  ghost predicate Does(s: Sys, step: Step, s': Sys) { Enabled(s, step) && Next(s, step) == Some(s') }

  lemma RunDoes(s: Sys, step: Step, s1: Sys, rest: seq<Step>, s': Sys)
    requires Does(s, step, s1) && Run(s1, rest, s')
    ensures Run(s, [step] + rest, s')
  {
    assert ([step] + rest)[1..] == rest;
  }
}
