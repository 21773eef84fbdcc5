/** The heap and the page table: which pages a granted break leaves mapped, over every run of kernel steps. */
module HeapPages {
  import opened Options
  import opened Frames
  import opened PageTables
  import opened AddressSpaces
  import opened Isolation

  // ---- What a new table holds ----

  predicate Within(v: nat, start: nat, n: nat) { start <= v < start + n }

  predicate Wanted(wants: seq<Want>, v: nat) { FirstWant(wants, v) < |wants| }

  lemma WantedSome(wants: seq<Want>, v: nat)
    ensures Wanted(wants, v) <==> exists k :: 0 <= k < |wants| && wants[k].vpn == v
  {}

  lemma WantedAppend(a: seq<Want>, b: seq<Want>, v: nat)
    ensures Wanted(a + b, v) <==> Wanted(a, v) || Wanted(b, v)
  {
    WantedSome(a, v);
    WantedSome(b, v);
    WantedSome(a + b, v);
    var c := a + b;
    if Wanted(b, v) { assert c[|a| + FirstWant(b, v)].vpn == v; }
    if Wanted(a, v) { assert c[FirstWant(a, v)].vpn == v; }
  }

  lemma RegionPages(start: nat, n: nat, writable: bool, v: nat)
    ensures Wanted(Region(start, n, writable), v) <==> Within(v, start, n)
  {
    var r := Region(start, n, writable);
    if Within(v, start, n) { assert r[v - start].vpn == v; }
  }

  lemma StackPages(n: nat, v: nat)
    requires n <= STACK_VPN
    ensures Wanted(StackRegion(n), v) <==> Within(v, STACK_VPN - n, n)
  {
    var r := StackRegion(n);
    if Within(v, STACK_VPN - n, n) { assert r[STACK_VPN - 1 - v].vpn == v; }
  }

  lemma LayoutPages(text: nat, data: nat, stack: nat, dynamic: nat, v: nat)
    requires stack <= STACK_VPN
    ensures Wanted(Layout(text, data, stack, dynamic), v) <==>
      || Within(v, 0x400, text) || Within(v, 0x1_0000, data)
      || Within(v, 0x8_0000 - stack, stack) || Within(v, 0x1_0008, dynamic)
  {
    var a, b, c, d :=
      Region(TEXT_VPN, text, false), Region(STATIC_VPN, data, true), StackRegion(stack), Region(DYNAMIC_VPN, dynamic, true);
    WantedAppend(a + b + c, d, v);
    WantedAppend(a + b, c, v);
    WantedAppend(a, b, v);
    RegionPages(TEXT_VPN, text, false, v);
    RegionPages(STATIC_VPN, data, true, v);
    StackPages(stack, v);
    RegionPages(DYNAMIC_VPN, dynamic, true, v);
  }

  /**
   * The table of a new process: read-only text pages from 0x400000 on, writable static ones from 0x10000000, stack pages
   * down from 0x80000000 and dynamic ones from 0x10008000, all of them user pages, present and not global.
   */
  lemma NewTable(pool: Pool, text: nat, data: nat, stack: nat, dynamic: nat)
    requires ValidPool(pool) && stack <= STACK_VPN && MapAll(pool, map[], Layout(text, data, stack, dynamic)).Some?
    ensures var t := MapAll(pool, map[], Layout(text, data, stack, dynamic)).value.1;
      && (forall v: nat ::
            v in t <==>
            || Within(v, 0x400, text) || Within(v, 0x1_0000, data)
            || Within(v, 0x8_0000 - stack, stack) || Within(v, 0x1_0008, dynamic))
      && (forall v: nat :: v in t ==>
            t[v].user && t[v].present && !t[v].global && (t[v].writable <==> !Within(v, 0x400, text)))
  {
    var wants := Layout(text, data, stack, dynamic);
    var t := MapAll(pool, map[], wants).value.1;
    forall v: nat ensures v in t <==> Wanted(wants, v) { MapFrame(pool, map[], wants, v); }
    forall v: nat
      ensures Wanted(wants, v) <==>
        || Within(v, 0x400, text) || Within(v, 0x1_0000, data)
        || Within(v, 0x8_0000 - stack, stack) || Within(v, 0x1_0008, dynamic)
    {
      LayoutPages(text, data, stack, dynamic, v);
    }
    MapEntries(pool, map[], wants);
    MapConsumes(pool, map[], wants);
    forall v: nat | v in t
      ensures t[v].user && t[v].present && !t[v].global && (t[v].writable <==> !Within(v, 0x400, text))
    {
      assert WantedAs(wants, v, t[v]);
      var k :| 0 <= k < |wants| && wants[k].vpn == v && t[v] == wants[k].shape.(pfn := t[v].pfn);
      LayoutShape(text, data, stack, dynamic, k);
    }
  }

  /** The pages of a layout that fits into memory, by position. */
  lemma LayoutShape(text: nat, data: nat, stack: nat, dynamic: nat, k: nat)
    requires stack <= STACK_VPN && k < |Layout(text, data, stack, dynamic)| <= NUM_PAGES
    ensures var w := Layout(text, data, stack, dynamic)[k];
      w.shape == Pte(0, false, !Within(w.vpn, 0x400, text), true, true)
  {
    assert |Layout(text, data, stack, dynamic)| == text + data + stack + dynamic;
    var w := Layout(text, data, stack, dynamic)[k];
    if k < text {
      assert w == Region(TEXT_VPN, text, false)[k] == Want(TEXT_VPN + k, FromFlags(0, false, false, true));
    } else if k < text + data {
      assert w == Region(STATIC_VPN, data, true)[k - text] == Want(STATIC_VPN + (k - text), FromFlags(0, false, true, true));
    } else if k < text + data + stack {
      var i := k - text - data;
      assert w == StackRegion(stack)[i] == Want(STACK_VPN - 1 - i, FromFlags(0, false, true, true));
    } else {
      var i := k - text - data - stack;
      assert w == Region(DYNAMIC_VPN, dynamic, true)[i] == Want(DYNAMIC_VPN + i, FromFlags(0, false, true, true));
    }
  }

  // ---- The heap ----

  /** Every page of the first `brk` ones of the heap is in the table. */
  ghost predicate HeapIn(t: Table, brk: nat) {
    forall v :: DYNAMIC_VPN <= v < DYNAMIC_VPN + brk ==> v in t
  }

  /** Whatever break a process has been granted, its pages are there. */
  ghost predicate HeapsMapped(s: Sys) {
    forall p :: p in s.spaces ==> HeapIn(s.spaces[p].table, s.spaces[p].brk)
  }

  ghost predicate HeapWanted(wants: seq<Want>, brk: nat) {
    forall v :: DYNAMIC_VPN <= v < DYNAMIC_VPN + brk ==> Wanted(wants, v)
  }

  /**
   * What a step must be able to count on: the break a new process happens to start with, or the one that exec keeps, lies
   * within the pages its table gets.
   */
  ghost predicate BreakFits(s: Sys, step: Step)
    requires Enabled(s, step)
  {
    match step
    case Create(_, text, data, stack, dynamic, brk) => HeapWanted(Layout(text, data, stack, dynamic), brk)
    case Fork(parent, _, _, brk) => HeapIn(s.spaces[parent].table, brk)
    case Replace(p, _, text, data, stack, dynamic, _) => HeapWanted(Layout(text, data, stack, dynamic), s.spaces[p].brk)
    case _ => true
  }

  lemma OpenHeap(s: Sys, p: nat, wants: seq<Want>, brk: nat)
    requires p !in s.spaces && Open(s, p, wants, brk).Some?
    ensures var s' := Open(s, p, wants, brk).value;
      && s'.spaces.Keys == s.spaces.Keys + {p} && s'.spaces[p].brk == brk
      && (forall q :: q in s.spaces ==> s'.spaces[q] == s.spaces[q])
      && (forall v: nat :: v in s'.spaces[p].table <==> Wanted(wants, v))
  {
    var t := Open(s, p, wants, brk).value.spaces[p].table;
    forall v: nat ensures v in t <==> Wanted(wants, v) { MapFrame(s.pool, map[], wants, v); }
  }

  /** The pages of a forked process are its parent's. */
  lemma CopiesWanted(order: seq<nat>, parent: Table)
    requires Enumerates(order, parent)
    ensures forall v: nat :: Wanted(Copies(order, parent), v) <==> v in parent
  {
    var wants := Copies(order, parent);
    forall v: nat ensures Wanted(wants, v) <==> v in parent {
      WantedSome(wants, v);
      if v in parent {
        var k :| 0 <= k < |order| && order[k] == v;
        assert wants[k].vpn == v;
      }
    }
  }

  /** A break that is granted: nothing but the missing pages up to it is added, and it never goes back. */
  lemma BrkGrants(s: Sys, p: nat, vaddr: nat)
    requires p in s.spaces && Brk(s, p, vaddr).Some?
    ensures var s', was := Brk(s, p, vaddr).value, s.spaces[p].brk;
      && s'.spaces.Keys == s.spaces.Keys && (forall q :: q in s.spaces && q != p ==> s'.spaces[q] == s.spaces[q])
      && s'.spaces[p].asid == s.spaces[p].asid
      && s'.spaces[p].brk ==
         (if BRK_DEFAULT <= vaddr < HEAP_LIMIT && vaddr / 4096 - DYNAMIC_VPN + 1 > was then vaddr / 4096 - DYNAMIC_VPN + 1 else was)
      && HeapGrown(s.spaces[p].table, s'.spaces[p].table, was, s'.spaces[p].brk)
  {
    if BRK_DEFAULT <= vaddr < HEAP_LIMIT {
      BoundaryIs(vaddr);
      if BrkPages(vaddr) > s.spaces[p].brk { BrkPagesMapped(s.pool, s.spaces[p].table, s.spaces[p].brk, BrkPages(vaddr)); }
    }
  }

  lemma BrkHeaps(s: Sys, p: nat, vaddr: nat)
    requires HeapsMapped(s) && p in s.spaces && Brk(s, p, vaddr).Some?
    ensures HeapsMapped(Brk(s, p, vaddr).value)
  {
    BrkGrants(s, p, vaddr);
  }

  lemma OpenHeaps(s: Sys, p: nat, wants: seq<Want>, brk: nat)
    requires HeapsMapped(s) && p !in s.spaces && Open(s, p, wants, brk).Some?
    ensures HeapsMapped(Open(s, p, wants, brk).value) <==> HeapWanted(wants, brk)
  {
    OpenHeap(s, p, wants, brk);
    var s' := Open(s, p, wants, brk).value;
    assert HeapIn(s'.spaces[p].table, brk) <==> HeapWanted(wants, brk);
    forall q | q in s'.spaces && q != p ensures HeapIn(s'.spaces[q].table, s'.spaces[q].brk) {
      assert s'.spaces[q] == s.spaces[q];
    }
  }

  /** exec takes the new program's pages, and keeps ASID and break; the temporary process and its ASID are gone. */
  lemma ExecTakes(s: Sys, p: nat, q: nat, wants: seq<Want>, brk: nat)
    requires p in s.spaces && q !in s.spaces && Exec(s, p, q, wants, brk).Some?
    ensures var s' := Exec(s, p, q, wants, brk).value;
      && s'.spaces.Keys == s.spaces.Keys && (forall r :: r in s.spaces && r != p ==> s'.spaces[r] == s.spaces[r])
      && s'.spaces[p].asid == s.spaces[p].asid && s'.spaces[p].brk == s.spaces[p].brk
      && (forall v: nat :: v in s'.spaces[p].table <==> Wanted(wants, v))
      && s'.asids == s.asids
  {
    OpenHeap(s, q, wants, brk);
    var s1 := Open(s, q, wants, brk).value;
    var a := FirstClear(s.asids, 0);
    assert s.asids[a := true][a := false] == s.asids;
  }

  /** exec gives back every frame of the old table. */
  lemma ExecFrees(s: Sys, p: nat, q: nat, wants: seq<Want>, brk: nat, v: nat)
    requires Owned(s) && Mapped(s, p, v) && q !in s.spaces && Exec(s, p, q, wants, brk).Some?
    ensures Frame(s, p, v) < NUM_PAGES && !Exec(s, p, q, wants, brk).value.pool.bits[Frame(s, p, v)]
  {
    assert s.spaces[p].table[v].pfn in FramesOf(s.spaces[p].table);
  }

  lemma ExecHeaps(s: Sys, p: nat, q: nat, wants: seq<Want>, brk: nat)
    requires HeapsMapped(s) && p in s.spaces && q !in s.spaces && Exec(s, p, q, wants, brk).Some?
    ensures HeapsMapped(Exec(s, p, q, wants, brk).value) <==> HeapWanted(wants, s.spaces[p].brk)
  {
    ExecTakes(s, p, q, wants, brk);
    var s' := Exec(s, p, q, wants, brk).value;
    assert HeapIn(s'.spaces[p].table, s'.spaces[p].brk) <==> HeapWanted(wants, s.spaces[p].brk);
    forall r | r in s'.spaces && r != p ensures HeapIn(s'.spaces[r].table, s'.spaces[r].brk) {
      assert s'.spaces[r] == s.spaces[r];
    }
  }

  /** A step keeps every granted page mapped if and only if the break it starts or goes on with fits. */
  lemma StepHeaps(s: Sys, step: Step)
    requires HeapsMapped(s) && Enabled(s, step) && Next(s, step).Some?
    ensures HeapsMapped(Next(s, step).value) <==> BreakFits(s, step)
  {
    match step
    case Create(p, text, data, stack, dynamic, brk) => OpenHeaps(s, p, Layout(text, data, stack, dynamic), brk);
    case Fork(parent, p, order, brk) =>
      OpenHeaps(s, p, Copies(order, s.spaces[parent].table), brk);
      CopiesWanted(order, s.spaces[parent].table);
    case BrkTo(p, vaddr) => BrkHeaps(s, p, vaddr);
    case Replace(p, q, text, data, stack, dynamic, brk) => ExecHeaps(s, p, q, Layout(text, data, stack, dynamic), brk);
    case _ => SpacesKept(s, step);
  }

  lemma SpacesKept(s: Sys, step: Step)
    requires Enabled(s, step) && Next(s, step).Some? && (step.Miss? || step.KernelMiss? || step.Exit?)
    ensures forall p :: p in Next(s, step).value.spaces ==> p in s.spaces && Next(s, step).value.spaces[p] == s.spaces[p]
  {}

  // ---- Frames that nobody holds ----

  /** Some frame has been reserved that the table does not hold. */
  ghost predicate Loses(p: Pool, p': Pool, t': Table) {
    exists i :: 0 <= i < |p.bits| && |p'.bits| == |p.bits| && p'.bits[i] && !p.bits[i] && i !in FramesOf(t')
  }

  /** Some page wanted is mapped already, or wanted twice. */
  predicate Again(t: Table, wants: seq<Want>)
    decreases |wants|
  {
    wants != [] && (wants[0].vpn in t || Again(t[wants[0].vpn := wants[0].shape], wants[1..]))
  }

  lemma AgainKeys(t: Table, u: Table, wants: seq<Want>)
    requires t.Keys == u.Keys
    ensures Again(t, wants) <==> Again(u, wants)
    decreases |wants|
  {
    if wants != [] && wants[0].vpn !in t {
      AgainKeys(t[wants[0].vpn := wants[0].shape], u[wants[0].vpn := wants[0].shape], wants[1..]);
    }
  }

  /** Mapping pages reserves a frame that nobody holds if and only if one of the pages is there already. */
  lemma {:induction false} MapLoses(p: Pool, t: Table, wants: seq<Want>)
    requires Holds(p, t, {}) && MapAll(p, t, wants).Some?
    ensures var (p', t') := MapAll(p, t, wants).value; Loses(p, p', t') <==> Again(t, wants)
    decreases |wants|
  {
    if wants != [] {
      var (f, p1) := Reserve(p).value;
      var t1 := Place(t, wants[0], f);
      PlaceHolds(p, t, wants[0], {});
      MapHolds(p1, t1, wants[1..], {});
      if wants[0].vpn in t {
        MapHolds(p1, t1, wants[1..], {f});
        FrameLost(p, wants, t, f);
      } else {
        MapLoses(p1, t1, wants[1..]);
        MapEntries(p1, t1, wants[1..]);
        AgainKeys(t1, t[wants[0].vpn := wants[0].shape], wants[1..]);
        FrameKept(p, p1, MapAll(p, t, wants).value.0, MapAll(p, t, wants).value.1, f, wants[0].vpn);
      }
    }
  }

  lemma FrameLost(p: Pool, wants: seq<Want>, t: Table, f: nat)
    requires MapAll(p, t, wants).Some? && f < |p.bits| && !p.bits[f]
    requires var (p', t') := MapAll(p, t, wants).value; p'.bits[f] && Holds(p', t', {f})
    ensures var (p', t') := MapAll(p, t, wants).value; Loses(p, p', t')
  {
    var (p', t') := MapAll(p, t, wants).value;
    assert f !in FramesOf(t');
  }

  lemma FrameKept(p: Pool, p1: Pool, p': Pool, t': Table, f: nat, v: nat)
    requires f < |p.bits| == |p'.bits| && p1 == p.(bits := p.bits[f := true]) && v in t' && t'[v].pfn == f
    ensures Loses(p, p', t') <==> Loses(p1, p', t')
  {
    assert f in FramesOf(t');
    if Loses(p, p', t') {
      var i :| 0 <= i < |p.bits| && p'.bits[i] && !p.bits[i] && i !in FramesOf(t');
      assert !p1.bits[i];
    }
  }

  /** A granted break loses a frame if and only if a page it adds was mapped before, as a forked heap is. */
  lemma BrkLoses(s: Sys, p: nat, vaddr: nat)
    requires Owned(s) && p in s.spaces && Brk(s, p, vaddr).Some?
    ensures var s' := Brk(s, p, vaddr).value;
      Loses(s.pool, s'.pool, s'.spaces[p].table) <==>
      exists v :: DYNAMIC_VPN + s.spaces[p].brk <= v < DYNAMIC_VPN + s'.spaces[p].brk && v in s.spaces[p].table
  {
    HeldReserved(s, p);
    BrkGrants(s, p, vaddr);
    var t, brk, pages := s.spaces[p].table, s.spaces[p].brk, Brk(s, p, vaddr).value.spaces[p].brk;
    if BRK_DEFAULT <= vaddr < HEAP_LIMIT && BrkPages(vaddr) > brk {
      BoundaryIs(vaddr);
      MapLoses(s.pool, t, BrkWants(brk, pages));
      HeapAgain(t, brk, pages);
    }
  }

  lemma {:induction false} HeapAgain(t: Table, brk: nat, pages: nat)
    requires brk <= pages
    ensures Again(t, BrkWants(brk, pages)) <==> exists v :: DYNAMIC_VPN + brk <= v < DYNAMIC_VPN + pages && v in t
    decreases pages - brk
  {
    if brk < pages {
      var wants, v := BrkWants(brk, pages), DYNAMIC_VPN + brk;
      assert wants[0].vpn == v && wants[1..] == BrkWants(brk + 1, pages);
      var t1 := t[v := wants[0].shape];
      HeapAgain(t1, brk + 1, pages);
      assert forall u :: u != v ==> (u in t1 <==> u in t);
    }
  }

  // ---- Runs ----

  ghost predicate AllHeapsMapped(s: Sys, steps: seq<Step>)
    decreases |steps|
  {
    HeapsMapped(s) && (steps != [] && Enabled(s, steps[0]) && Next(s, steps[0]).Some? ==>
                         AllHeapsMapped(Next(s, steps[0]).value, steps[1..]))
  }

  ghost predicate BreaksFit(s: Sys, steps: seq<Step>)
    decreases |steps|
  {
    steps != [] ==>
      && Enabled(s, steps[0]) && BreakFits(s, steps[0])
      && (Next(s, steps[0]).Some? ==> BreaksFit(Next(s, steps[0]).value, steps[1..]))
  }

  /** Over whole runs: every page of every granted break is mapped all through if and only if every break fits. */
  lemma {:induction false} RunHeaps(s: Sys, steps: seq<Step>, s': Sys)
    requires HeapsMapped(s) && Run(s, steps, s')
    ensures (AllHeapsMapped(s, steps) <==> BreaksFit(s, steps)) && (BreaksFit(s, steps) ==> HeapsMapped(s'))
    decreases |steps|
  {
    if steps != [] {
      StepHeaps(s, steps[0]);
      if BreakFits(s, steps[0]) { RunHeaps(Next(s, steps[0]).value, steps[1..], s'); }
    }
  }

  /** Breaks that start at 0 fit as long as nobody execs. */
  lemma {:induction false} ZeroBreaksFit(s: Sys, steps: seq<Step>, s': Sys)
    requires Run(s, steps, s')
    requires forall step :: step in steps ==> !step.Replace? && (step.Create? || step.Fork? ==> step.brk == 0)
    ensures BreaksFit(s, steps)
    decreases |steps|
  {
    if steps != [] {
      assert steps[0] in steps;
      ZeroBreaksFit(Next(s, steps[0]).value, steps[1..], s');
    }
  }

  /** No step but its exit takes a break back from a process. */
  lemma StepBreak(s: Sys, step: Step, p: nat)
    requires Enabled(s, step) && Next(s, step).Some? && p in s.spaces && step != Step.Exit(p)
    ensures p in Next(s, step).value.spaces && Next(s, step).value.spaces[p].brk >= s.spaces[p].brk
  {
    match step
    case Create(q, text, data, stack, dynamic, brk) => OpenHeap(s, q, Layout(text, data, stack, dynamic), brk);
    case Fork(parent, q, order, brk) => OpenHeap(s, q, Copies(order, s.spaces[parent].table), brk);
    case BrkTo(q, vaddr) => BrkGrants(s, q, vaddr);
    case Replace(q, r, text, data, stack, dynamic, brk) => ExecTakes(s, q, r, Layout(text, data, stack, dynamic), brk);
    case Exit(q) =>
    case _ =>
  }

  lemma {:induction false} RunBreak(s: Sys, steps: seq<Step>, s': Sys, p: nat)
    requires Run(s, steps, s') && p in s.spaces && Step.Exit(p) !in steps
    ensures p in s'.spaces && s'.spaces[p].brk >= s.spaces[p].brk
    decreases |steps|
  {
    if steps != [] {
      assert steps[0] in steps;
      StepBreak(s, steps[0], p);
      RunBreak(Next(s, steps[0]).value, steps[1..], s', p);
    }
  }

  /**
   * Along a run of breaks that fit, a process that has been granted a break and has not exited since has every page from
   * the start of the heap to that break.
   */
  lemma GrantStays(s: Sys, p: nat, vaddr: nat, steps: seq<Step>, s': Sys, v: nat)
    requires HeapsMapped(s) && Run(s, [BrkTo(p, vaddr)] + steps, s') && BreaksFit(s, [BrkTo(p, vaddr)] + steps)
    requires BRK_DEFAULT <= vaddr < HEAP_LIMIT && Step.Exit(p) !in steps
    requires BRK_DEFAULT / 4096 <= v <= vaddr / 4096
    ensures Mapped(s', p, v)
  {
    var all := [BrkTo(p, vaddr)] + steps;
    assert all[0] == BrkTo(p, vaddr) && all[1..] == steps;
    BrkGrants(s, p, vaddr);
    RunHeaps(s, all, s');
    RunBreak(Brk(s, p, vaddr).value, steps, s', p);
    assert HeapIn(s'.spaces[p].table, s'.spaces[p].brk);
  }

  /**
   * A program that has been granted a break and execs one without that many pages: asking for the same break again
   * succeeds and maps nothing, and the kernel stops as soon as the page is touched.
   */
  lemma ExecForgetsHeap(s: Sys, p: nat, q: nat, text: nat, data: nat, brk: nat, vaddr: nat)
    requires Owned(s) && p in s.spaces && q !in s.spaces && BRK_DEFAULT <= vaddr < HEAP_LIMIT
    requires vaddr / 4096 - DYNAMIC_VPN < s.spaces[p].brk && data <= 8
    requires Exec(s, p, q, Layout(text, data, 4, 0), brk).Some?
    ensures var s' := Exec(s, p, q, Layout(text, data, 4, 0), brk).value;
      && !BreakFits(s, Replace(p, q, text, data, 4, 0, brk))
      && Brk(s', p, vaddr) == Some(s') && !Mapped(s', p, vaddr / 4096)
      && s'.random < |s'.tlb| && Refill(s', p, vaddr).None?
  {
    var wants := Layout(text, data, 4, 0);
    ExecTakes(s, p, q, wants, brk);
    MapConsumes(s.pool, map[], wants);
    assert |wants| == text + data + 4;
    LayoutPages(text, data, 4, 0, vaddr / 4096);
    BoundaryIs(vaddr);
  }
}
