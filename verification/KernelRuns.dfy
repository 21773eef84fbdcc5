/** The order in which a fork copies the pages of a small program: that of its page table's buckets. */
module CopyOrder {
  import opened IntegerHash
  import opened HashBags
  import opened IterationOrder
  import opened PageTables
  import opened Isolation

  /** The pages of a program with one page of text, as its constructor adds them to 12 buckets. */
  const PAGES: seq<Word> := [0x400, 0x1_0000, 0x7_ffff, 0x7_fffe, 0x7_fffd, 0x7_fffc]

  const ORDER: seq<nat> := [TEXT_VPN, STACK_VPN - 2, STATIC_VPN, STACK_VPN - 1, STACK_VPN - 4, STACK_VPN - 3]

  lemma KeyHashes()
    ensures HashOf(0x400) % 12 == 1 && HashOf(0x1_0000) % 12 == 2 && HashOf(0x7_ffff) % 12 == 8
    ensures HashOf(0x7_fffe) % 12 == 1 && HashOf(0x7_fffd) % 12 == 9 && HashOf(0x7_fffc) % 12 == 8
  {}

  lemma BuiltNext<K>(hash: K -> nat, keys: seq<K>, n: nat, i: nat)
    requires n < |keys| && hash(keys[n]) % 12 == i
    ensures var b := Built(hash, keys[..n], 12); Built(hash, keys[..n + 1], 12) == b[i := b[i] + [(keys[n], ())]]
  {
    assert keys[..n + 1][..n] == keys[..n];
  }

  lemma FlattenNext<T>(buckets: seq<seq<T>>, i: nat)
    requires i < |buckets|
    ensures Flatten(buckets[..i + 1]) == Flatten(buckets[..i]) + buckets[i]
  {
    assert buckets[..i + 1][..i] == buckets[..i];
  }

  lemma {:induction false} FlattenSkip<T>(buckets: seq<seq<T>>, i: nat, j: nat)
    requires i <= j <= |buckets| && forall k :: i <= k < j ==> buckets[k] == []
    ensures Flatten(buckets[..j]) == Flatten(buckets[..i])
    decreases j
  {
    if i < j { FlattenNext(buckets, j - 1); FlattenSkip(buckets, i, j - 1); }
  }

  lemma SixBuckets<K>(hash: K -> nat, k: seq<K>)
    requires |k| == 6 && hash(k[0]) % 12 == 1 && hash(k[1]) % 12 == 2 && hash(k[2]) % 12 == 8
    requires hash(k[3]) % 12 == 1 && hash(k[4]) % 12 == 9 && hash(k[5]) % 12 == 8
    ensures var b := Built(hash, k, 12);
      && b[1] == [(k[0], ()), (k[3], ())] && b[2] == [(k[1], ())] && b[8] == [(k[2], ()), (k[5], ())] && b[9] == [(k[4], ())]
      && forall i :: i == 0 || 3 <= i < 8 || 10 <= i < 12 ==> b[i] == []
  {
    BuiltNext(hash, k, 0, 1);
    BuiltNext(hash, k, 1, 2);
    BuiltNext(hash, k, 2, 8);
    BuiltNext(hash, k, 3, 1);
    BuiltNext(hash, k, 4, 9);
    BuiltNext(hash, k, 5, 8);
    assert k[..6] == k;
  }

  lemma FlattenSix<T>(b: seq<seq<T>>)
    requires |b| == 12 && forall i :: i == 0 || 3 <= i < 8 || 10 <= i < 12 ==> b[i] == []
    ensures Flatten(b) == b[1] + b[2] + b[8] + b[9]
  {
    FlattenSkip(b, 0, 1);
    FlattenNext(b, 1);
    FlattenNext(b, 2);
    FlattenSkip(b, 3, 8);
    FlattenNext(b, 8);
    FlattenNext(b, 9);
    FlattenSkip(b, 10, 12);
    assert b[..12] == b;
  }

  lemma SixKeys<K>(hash: K -> nat, k: seq<K>)
    requires |k| == 6 && hash(k[0]) % 12 == 1 && hash(k[1]) % 12 == 2 && hash(k[2]) % 12 == 8
    requires hash(k[3]) % 12 == 1 && hash(k[4]) % 12 == 9 && hash(k[5]) % 12 == 8
    ensures KeyOrder(hash, k, 12) == [k[0], k[3], k[1], k[2], k[5], k[4]]
  {
    SixBuckets(hash, k);
    FlattenSix(Built(hash, k, 12));
  }

  /** Where the k-th page of the order stands in the layout. */
  function LayoutPlace(k: nat): nat {
    if k == 1 then 3 else if k == 2 then 1 else if k == 3 then 2 else if k == 4 then 5 else if k == 5 then 4 else 0
  }

  lemma ProgramPages()
    ensures |Program(1)| == |PAGES| == 6 && forall j :: 0 <= j < 6 ==> Program(1)[j].vpn == PAGES[j] as nat
  {
    var w := Program(1);
    assert w[0] == Want(TEXT_VPN, FromFlags(0, false, false, true));
    assert w[1] == Want(STATIC_VPN, FromFlags(0, false, true, true));
    assert forall j :: 2 <= j < 6 ==> w[j] == Want(STACK_VPN - (j - 1), FromFlags(0, false, true, true));
  }

  /** The order lists the pages of the layout, each in its place. */
  lemma ProgramOrder()
    ensures |Program(1)| == 6 && forall k :: 0 <= k < 6 ==> Program(1)[LayoutPlace(k)].vpn == ORDER[k]
    ensures forall j :: 0 <= j < 6 ==> Program(1)[j].vpn in ORDER
  {
    var w := Program(1);
    ProgramPages();
    assert w[0].vpn == ORDER[0] && w[3].vpn == ORDER[1] && w[1].vpn == ORDER[2];
    assert w[2].vpn == ORDER[3] && w[5].vpn == ORDER[4] && w[4].vpn == ORDER[5];
  }

  /** The iteration order of the page table, hash and bucket count included. */
  lemma HashOrder()
    ensures |PAGES| == |Program(1)| && forall j :: 0 <= j < |PAGES| ==> PAGES[j] as nat == Program(1)[j].vpn
    ensures var keys := KeyOrder(HashOf, PAGES, 2 * |PAGES|);
      |keys| == |ORDER| && forall i :: 0 <= i < |ORDER| ==> keys[i] as nat == ORDER[i]
  {
    ProgramPages();
    KeyHashes();
    SixKeys(HashOf, PAGES);
  }
}

/** Runs of traps from boot that go wrong, in the copy order of the page table, under the kernel's own PIDs and queue. */
module KernelRuns {
  import opened Options
  import opened Tlb
  import opened Frames
  import opened PageTables
  import opened PageFrames
  import opened AddressSpaces
  import opened Machine
  import opened Isolation
  import opened PagedMachine
  import opened CopyOrder
  import opened KernelSteps
  import opened HeapPages
  import TrapSpec

  const SPAWN: Step := Step.Fork(0, 1, ORDER, 0)
  const HEAP_VPN: nat := DYNAMIC_VPN

  function Touch(p: nat, vpn: nat): Step { Step.Miss(p, vpn * PAGE) }

  /** A table of the program's pages, in the order of the copies in these frames. */
  ghost predicate Laid(t: Table, frames: seq<nat>) {
    && |frames| == 6 && (forall v :: v in t ==> v in ORDER)
    && forall k :: 0 <= k < 6 ==> MapsTo(t, ORDER[k], frames[k])
  }

  ghost predicate MapsTo(t: Table, v: nat, f: nat) { v in t && t[v].pfn == f && t[v].present && !t[v].global }

  /** The first program's frames are in the order of its layout, a child's in the order of the copies. */
  function Spread(hi: nat): seq<nat> { seq(6, k requires 0 <= k < 6 => hi + LayoutPlace(k)) }

  function Line(to: nat): seq<nat> { seq(6, k requires 0 <= k < 6 => to + k) }

  // ---- One step at a time ----

  lemma {:induction false} MapFits(p: Pool, t: Table, wants: seq<Want>)
    requires wants != [] ==> NthClear(p.bits, p.boundary, |wants| - 1) < |p.bits|
    ensures MapAll(p, t, wants).Some?
    decreases |wants|
  {
    if wants != [] {
      if |wants| > 1 { NthGrows(p.bits, p.boundary, 0, |wants| - 1); }
      var (f, p') := Reserve(p).value;
      if |wants| > 1 { NthAfterTake(p.bits, p.boundary, |wants| - 2); }
      MapFits(p', Place(t, wants[0], f), wants[1..]);
    }
  }

  lemma InLayout(k: nat)
    requires k < 6
    ensures |Program(1)| == 6 && FirstWant(Program(1), ORDER[k]) == LayoutPlace(k) < 6
    ensures Program(1)[LayoutPlace(k)].shape.present && !Program(1)[LayoutPlace(k)].shape.global
  {
    ProgramOrder();
    ProgramWants(1);
    FirstWantIs(Program(1), ORDER[k], LayoutPlace(k));
    assert Program(1)[LayoutPlace(k)] in Program(1);
  }

  lemma LayoutOnly(v: nat)
    requires FirstWant(Program(1), v) < |Program(1)|
    ensures v in ORDER
  {
    ProgramOrder();
    assert Program(1)[FirstWant(Program(1), v)].vpn == v;
  }

  lemma StartPage(p: Pool, hi: nat, v: nat, j: nat)
    requires Filled(p, hi) && hi + 6 <= NUM_PAGES && MapAll(p, map[], Program(1)).Some?
    requires j < |Program(1)| == 6 && FirstWant(Program(1), v) == j
    requires Program(1)[j].shape.present && !Program(1)[j].shape.global
    ensures MapsTo(MapAll(p, map[], Program(1)).value.1, v, hi + j)
  {
    MapFrame(p, map[], Program(1), v);
    FilledNth(p, hi, p.boundary, j);
  }

  lemma StartLaid(p: Pool, hi: nat)
    requires Filled(p, hi) && hi + 6 <= NUM_PAGES && MapAll(p, map[], Program(1)).Some?
    ensures Laid(MapAll(p, map[], Program(1)).value.1, Spread(hi))
  {
    var t := MapAll(p, map[], Program(1)).value.1;
    forall v | v in t ensures v in ORDER {
      MapFrame(p, map[], Program(1), v);
      LayoutOnly(v);
    }
    forall k | 0 <= k < 6 ensures MapsTo(t, ORDER[k], Spread(hi)[k]) {
      InLayout(k);
      StartPage(p, hi, ORDER[k], LayoutPlace(k));
    }
  }

  /** The next six clear frames are those from `to` on. */
  ghost predicate Ready(p: Pool, to: nat) {
    ValidPool(p) && to + 6 <= NUM_PAGES && forall k :: 0 <= k < 6 ==> NthClear(p.bits, p.boundary, k) == to + k
  }

  lemma FilledReady(p: Pool, to: nat)
    requires Filled(p, to) && to + 6 <= NUM_PAGES
    ensures Ready(p, to)
  {
    forall k | 0 <= k < 6 ensures NthClear(p.bits, p.boundary, k) == to + k { FilledNth(p, to, p.boundary, k); }
  }

  ghost predicate Forkable(s: Sys, q: nat, a: nat, frames: seq<nat>, to: nat) {
    && 0 in s.spaces && q !in s.spaces && Laid(s.spaces[0].table, frames) && Ready(s.pool, to)
    && FirstClear(s.asids, 0) == a < |s.asids|
  }

  lemma OrderEnumerates(t: Table, frames: seq<nat>)
    requires Laid(t, frames)
    ensures Enumerates(ORDER, t)
  {
    forall v | v in ORDER ensures v in t {
      var k :| 0 <= k < 6 && ORDER[k] == v;
      assert MapsTo(t, ORDER[k], frames[k]);
    }
  }

  /** A child's pages go to the next clear frames, in the order of the copies. */
  lemma Spawned(s: Sys, q: nat, a: nat, frames: seq<nat>, to: nat) returns (s': Sys)
    requires Forkable(s, q, a, frames, to)
    ensures Does(s, Step.Fork(0, q, ORDER, 0), s')
    ensures s' == s.(pool := s'.pool, asids := s.asids[a := true], spaces := s.spaces[q := s'.spaces[q]])
    ensures q in s'.spaces && s'.spaces[q].asid == a && s'.spaces[q].brk == 0 && Laid(s'.spaces[q].table, Line(to))
    ensures s'.pool.boundary == s.pool.boundary && (Filled(s.pool, to) ==> Filled(s'.pool, to + 6))
  {
    var parent := s.spaces[0].table;
    OrderEnumerates(parent, frames);
    var wants := Copies(ORDER, parent);
    MapFits(s.pool, map[], wants);
    if Filled(s.pool, to) { MapFilled(s.pool, map[], wants, to); }
    s' := Open(s, q, wants, 0).value;
    ChildLaid(s.pool, parent, frames, to);
  }

  lemma ChildPage(p: Pool, parent: Table, f: nat, to: nat, k: nat)
    requires k < 6 && MapsTo(parent, ORDER[k], f) && NthClear(p.bits, p.boundary, k) == to + k
    requires Enumerates(ORDER, parent) && MapAll(p, map[], Copies(ORDER, parent)).Some?
    ensures MapsTo(MapAll(p, map[], Copies(ORDER, parent)).value.1, ORDER[k], to + k)
  {
    ChildFrame(p, ORDER, parent, k);
  }

  lemma ChildLaid(p: Pool, parent: Table, frames: seq<nat>, to: nat)
    requires Laid(parent, frames) && Ready(p, to) && Enumerates(ORDER, parent) && MapAll(p, map[], Copies(ORDER, parent)).Some?
    ensures Laid(MapAll(p, map[], Copies(ORDER, parent)).value.1, Line(to))
  {
    var t := MapAll(p, map[], Copies(ORDER, parent)).value.1;
    forall v | v in t ensures v in ORDER { MapFrame(p, map[], Copies(ORDER, parent), v); }
    forall k | 0 <= k < 6 ensures MapsTo(t, ORDER[k], Line(to)[k]) { ChildPage(p, parent, frames[k], to, k); }
  }

  /** The entry of a page once it has been touched. */
  function EntryOf(v: nat, f: nat, a: nat): TlbEntry { TlbEntry(v, f, false, false, true, a, 0) }

  /** The TLB holds these entries, in the order in which the pages were touched. */
  ghost predicate Entries(s: Sys, es: seq<TlbEntry>) {
    && |s.tlb| == TLB_ENTRIES && s.random == |es| < TLB_ENTRIES - 1
    && (forall i :: 0 <= i < |es| ==> s.tlb[i] == es[i]) && forall i :: |es| <= i < TLB_ENTRIES ==> !s.tlb[i].valid
  }

  lemma TouchNext(s: Sys, es: seq<TlbEntry>, p: nat, v: nat, f: nat) returns (s': Sys)
    requires p in s.spaces && MapsTo(s.spaces[p].table, v, f) && Entries(s, es) && |es| < 8
    ensures Does(s, Touch(p, v), s') && Entries(s', es + [EntryOf(v, f, s.spaces[p].asid)])
    ensures s' == s.(tlb := s'.tlb, random := s'.random)
  {
    assert v * PAGE / PAGE == v;
    s' := Refill(s, p, v * PAGE).value;
  }

  lemma LineFrames(t: Table, to: nat, i: nat)
    requires Laid(t, Line(to))
    ensures i in FramesOf(t) <==> to <= i < to + 6
  {
    if to <= i < to + 6 { assert MapsTo(t, ORDER[i - to], Line(to)[i - to]); }
    if i in FramesOf(t) {
      var v :| v in t && t[v].pfn == i;
      var k :| 0 <= k < 6 && ORDER[k] == v;
      assert MapsTo(t, ORDER[k], Line(to)[k]);
    }
  }

  /** The ASIDs in use are the first n. */
  ghost predicate Taken(asids: seq<bool>, n: nat) { |asids| == ASIDS && forall i :: 0 <= i < ASIDS ==> (asids[i] <==> i < n) }

  lemma TakenNext(asids: seq<bool>, n: nat)
    requires Taken(asids, n) && n < ASIDS
    ensures FirstClear(asids, 0) == n && Taken(asids[n := true], n + 1)
  {
    SkipSet(asids, 0, n);
  }

  // ---- The first program and its children ----

  /** Processes 0 to n - 1: the first program and children of it, in the frames from `hi` on. */
  ghost predicate Family(s: Sys, hi: nat, n: nat) {
    && 1 <= n < ASIDS && (forall p: nat :: p in s.spaces <==> p < n) && (forall p :: 0 <= p < n ==> Member(s, hi, p))
    && s.pool.boundary <= hi && Filled(s.pool, hi + 6 * n) && Taken(s.asids, n)
  }

  ghost predicate Member(s: Sys, hi: nat, p: nat) {
    p in s.spaces && s.spaces[p].asid == p && s.spaces[p].brk == 0 && Laid(s.spaces[p].table, FramesFrom(hi, p))
  }

  function FramesFrom(hi: nat, p: nat): seq<nat> { if p == 0 then Spread(hi) else Line(hi + 6 * p) }

  lemma StartDoes(s: Sys, hi: nat) returns (s': Sys)
    requires Filled(s.pool, hi) && hi + 6 <= NUM_PAGES && s.spaces == map[] && Taken(s.asids, 0)
    ensures Open(s, 0, Program(1), 0) == Some(s') && Filled(s'.pool, hi + 6) && s'.tlb == s.tlb && s'.random == s.random
    ensures s'.pool.boundary == s.pool.boundary && Taken(s'.asids, 1) && s'.spaces == map[0 := s'.spaces[0]]
    ensures s'.spaces[0].asid == 0 && s'.spaces[0].brk == 0 && Laid(s'.spaces[0].table, Spread(hi))
  {
    TakenNext(s.asids, 0);
    ProgramWants(1);
    MapFilled(s.pool, map[], Program(1), hi);
    StartLaid(s.pool, hi);
    s' := Open(s, 0, Program(1), 0).value;
  }

  lemma FirstFamily(s: Sys, hi: nat)
    requires 0 in s.spaces && s.spaces == map[0 := s.spaces[0]] && s.spaces[0].asid == 0 && s.spaces[0].brk == 0
    requires Filled(s.pool, hi + 6) && s.pool.boundary <= hi && Taken(s.asids, 1) && Laid(s.spaces[0].table, Spread(hi))
    ensures Family(s, hi, 1)
  {
    assert Member(s, hi, 0);
  }

  lemma SameMember(s: Sys, hi: nat, p: nat, s': Sys)
    requires Member(s, hi, p) && p in s'.spaces && s'.spaces[p] == s.spaces[p]
    ensures Member(s', hi, p)
  {}

  lemma MembersStay(s: Sys, hi: nat, n: nat, s': Sys)
    requires forall p :: 0 <= p < n ==> Member(s, hi, p)
    requires forall p :: 0 <= p < n ==> p in s'.spaces && p in s.spaces && s'.spaces[p] == s.spaces[p]
    ensures forall p :: 0 <= p < n ==> Member(s', hi, p)
  {
    forall p | 0 <= p < n ensures Member(s', hi, p) { SameMember(s, hi, p, s'); }
  }

  lemma FamilyGrown(s: Sys, hi: nat, n: nat, s': Sys)
    requires Family(s, hi, n) && n + 1 < ASIDS && Member(s', hi, n) && s'.spaces == s.spaces[n := s'.spaces[n]]
    requires s'.pool.boundary == s.pool.boundary && Filled(s'.pool, hi + 6 * n + 6) && s'.asids == s.asids[n := true]
    ensures Family(s', hi, n + 1)
  {
    MembersStay(s, hi, n, s');
  }

  lemma FamilyNext(s: Sys, hi: nat, n: nat) returns (s': Sys)
    requires Family(s, hi, n) && hi + 6 * n + 6 <= NUM_PAGES && n + 1 < ASIDS
    ensures Does(s, Step.Fork(0, n, ORDER, 0), s') && Family(s', hi, n + 1) && s'.tlb == s.tlb && s'.random == s.random
  {
    TakenNext(s.asids, n);
    FilledReady(s.pool, hi + 6 * n);
    assert Member(s, hi, 0);
    s' := Spawned(s, n, n, Spread(hi), hi + 6 * n);
    FamilyGrown(s, hi, n, s');
  }

  /** A process of the family fetches its first instruction. */
  lemma FetchNext(s: Sys, hi: nat, n: nat, es: seq<TlbEntry>, p: nat) returns (s': Sys)
    requires Family(s, hi, n) && p < n && Entries(s, es) && |es| < 8
    ensures Does(s, Touch(p, TEXT_VPN), s') && Family(s', hi, n) && Entries(s', es + [EntryOf(TEXT_VPN, hi + 6 * p, p)])
  {
    assert Member(s, hi, p);
    assert MapsTo(s.spaces[p].table, ORDER[0], FramesFrom(hi, p)[0]);
    s' := TouchNext(s, es, p, TEXT_VPN, hi + 6 * p);
    MembersStay(s, hi, n, s');
  }

  // ---- Traps ----

  const FETCH: Event := Touches(TEXT_VPN * PAGE)
  const TOUCH_HEAP: Event := Touches(HEAP_VPN * PAGE)
  const SPLIT: Event := Forks(ORDER, 0)

  // Processes: parent and first child, each of them running; a second child; and the first one gone.
  const CHILD_RUNS := TrapSpec.Procs([true, true], [], [0], 1)
  const PARENT_RUNS := TrapSpec.Procs([true, true], [], [1], 0)
  const TWO_CHILDREN := TrapSpec.Procs([true, true, true], [], [2, 0], 1)
  const SECOND_RUNS := TrapSpec.Procs([true, false, true], [1], [0], 2)
  const PARENT_AGAIN := TrapSpec.Procs([true, false, true], [1], [2], 0)

  lemma Switched()
    ensures TrapSpec.Handle(CHILD_RUNS, TrapSpec.Interrupt) == Some(PARENT_RUNS)
    ensures TrapSpec.Handle(PARENT_RUNS, TrapSpec.Interrupt) == Some(CHILD_RUNS)
    ensures TrapSpec.Handle(SECOND_RUNS, TrapSpec.Interrupt) == Some(PARENT_AGAIN)
    ensures TrapSpec.Handle(CHILD_RUNS, TrapSpec.Brk(Some(true))) == Some(PARENT_RUNS)
  {
    assert ([0] + [1])[1..] == [1] && ([1] + [0])[1..] == [0] && ([0] + [2])[1..] == [2];
  }

  lemma Forked()
    ensures TrapSpec.Handle(FIRST, TrapSpec.Fork(true)) == Some(CHILD_RUNS)
    ensures TrapSpec.Handle(PARENT_RUNS, TrapSpec.Fork(true)) == Some(TWO_CHILDREN)
  {
    assert [true] + [true] == [true, true] && [true, true] + [true] == [true, true, true];
    assert ([] + [1] + [0])[1..] == [0] && ([1] + [2] + [0])[1..] == [2, 0];
  }

  lemma Exited()
    ensures TrapSpec.Handle(CHILD_RUNS, TrapSpec.Exit) == Some(FIRST)
    ensures TrapSpec.Handle(TWO_CHILDREN, TrapSpec.Exit) == Some(SECOND_RUNS)
  {
    assert [true, true][..1] == [true] && [0][1..] == [] && [2, 0][1..] == [0];
    assert [true, true, true][1 := false] == [true, false, true] && [] + [1] == [1];
  }

  lemma Replaced()
    ensures TrapSpec.Handle(FIRST, TrapSpec.Exec(Some(true))) == Some(FIRST)
  {
    assert ([true] + [true])[..1] == [true] && ([] + [0])[1..] == [];
  }

  /** One more trap, and what it does to the address spaces. */
  lemma On(s0: Sys, es: seq<Event>, p: TrapSpec.Procs, s: Sys, e: Event, step: Step, p': TrapSpec.Procs, s': Sys)
    requires TrapAll(FIRST, s0, es) == Some((p, s)) && Admits(s, p, e)
    requires StepOf(p, e) == Some(step) && Does(s, step, s') && TrapSpec.Handle(p, CauseOf(e, true)) == Some(p')
    ensures TrapAll(FIRST, s0, es + [e]) == Some((p', s'))
  {
    TrapDoes(p, s, e, step, p', s');
    TrapsOn(FIRST, s0, es, p, s, e, p', s');
  }

  /** An interrupt. */
  lemma OnSwitch(s0: Sys, es: seq<Event>, p: TrapSpec.Procs, s: Sys, p': TrapSpec.Procs)
    requires TrapAll(FIRST, s0, es) == Some((p, s)) && p.cur in s.spaces && TrapSpec.Handle(p, TrapSpec.Interrupt) == Some(p')
    ensures TrapAll(FIRST, s0, es + [Nothing]) == Some((p', s))
  {
    TrapsOn(FIRST, s0, es, p, s, Nothing, p', s);
  }

  lemma OnFetch(s0: Sys, es: seq<Event>, p: TrapSpec.Procs, s: Sys, s': Sys)
    requires TrapAll(FIRST, s0, es) == Some((p, s)) && p.cur in s.spaces && Does(s, Touch(p.cur, TEXT_VPN), s')
    ensures TrapAll(FIRST, s0, es + [FETCH]) == Some((p, s'))
  {
    On(s0, es, p, s, FETCH, Touch(p.cur, TEXT_VPN), p, s');
  }

  /** A fork of the first program, in its first process. */
  lemma OnSplit(s0: Sys, es: seq<Event>, p: TrapSpec.Procs, s: Sys, p': TrapSpec.Procs, s': Sys)
    requires TrapAll(FIRST, s0, es) == Some((p, s)) && Admits(s, p, SPLIT) && p.cur == 0
    requires Does(s, Step.Fork(0, TrapSpec.NewPid(p), ORDER, 0), s') && TrapSpec.Handle(p, TrapSpec.Fork(true)) == Some(p')
    ensures TrapAll(FIRST, s0, es + [SPLIT]) == Some((p', s'))
  {
    On(s0, es, p, s, SPLIT, Step.Fork(0, TrapSpec.NewPid(p), ORDER, 0), p', s');
  }

  lemma OnExit(s0: Sys, es: seq<Event>, p: TrapSpec.Procs, s: Sys, p': TrapSpec.Procs, s': Sys)
    requires TrapAll(FIRST, s0, es) == Some((p, s)) && p.cur == 1 && Does(s, Step.Exit(1), s')
    requires TrapSpec.Handle(p, TrapSpec.Exit) == Some(p')
    ensures TrapAll(FIRST, s0, es + [Exits]) == Some((p', s'))
  {
    On(s0, es, p, s, Exits, Step.Exit(1), p', s');
  }

  /** The first child grows its heap, and after its parent has had a turn it runs again. */
  lemma OnGrow(s0: Sys, es: seq<Event>, s: Sys, s': Sys)
    requires TrapAll(FIRST, s0, es) == Some((CHILD_RUNS, s)) && 1 in s.spaces && 0 in s'.spaces
    requires Does(s, BrkTo(1, BRK_DEFAULT), s')
    ensures TrapAll(FIRST, s0, es + [Grows(BRK_DEFAULT)] + [Nothing]) == Some((CHILD_RUNS, s'))
  {
    Switched();
    On(s0, es, CHILD_RUNS, s, Grows(BRK_DEFAULT), BrkTo(1, BRK_DEFAULT), PARENT_RUNS, s');
    OnSwitch(s0, es + [Grows(BRK_DEFAULT)], PARENT_RUNS, s', CHILD_RUNS);
  }

  lemma OnTouchHeap(s0: Sys, es: seq<Event>, s: Sys, s': Sys)
    requires TrapAll(FIRST, s0, es) == Some((CHILD_RUNS, s)) && 1 in s.spaces && Does(s, Touch(1, HEAP_VPN), s')
    ensures TrapAll(FIRST, s0, es + [TOUCH_HEAP]) == Some((CHILD_RUNS, s'))
  {
    On(s0, es, CHILD_RUNS, s, TOUCH_HEAP, Touch(1, HEAP_VPN), CHILD_RUNS, s');
  }

  lemma OnExec(s0: Sys, es: seq<Event>, s: Sys, text: nat, s': Sys)
    requires TrapAll(FIRST, s0, es) == Some((FIRST, s)) && 0 in s.spaces && Does(s, Replace(0, 1, text, 1, 4, 0, 0), s')
    ensures TrapAll(FIRST, s0, es + [Execs(text, 1, 0)]) == Some((FIRST, s'))
  {
    Replaced();
    On(s0, es, FIRST, s, Execs(text, 1, 0), Replace(0, 1, text, 1, 4, 0, 0), FIRST, s');
  }

  lemma FamilyAdmits(s: Sys, hi: nat, n: nat, p: TrapSpec.Procs)
    requires Family(s, hi, n) && p.cur == 0
    ensures Admits(s, p, SPLIT)
  {
    assert Member(s, hi, 0);
    OrderEnumerates(s.spaces[0].table, FramesFrom(hi, 0));
  }

  lemma InFamily(s: Sys, hi: nat, n: nat, p: nat)
    requires Family(s, hi, n) && p < n
    ensures p in s.spaces
  {}

  // ---- Boot, the first program, and its first child ----

  /** The first program has been created and has not run yet. */
  ghost predicate Fresh(s: Sys, hi: nat) {
    Family(s, hi, 1) && Entries(s, []) && hi + 64 <= NUM_PAGES && Coupled(FIRST, s)
  }

  lemma FreshFrom(boundary: nat) returns (s: Sys)
    requires boundary + 128 <= NUM_PAGES
    ensures Boot(boundary).Some? && Open(Boot(boundary).value, 0, Program(1), 0) == Some(s)
    ensures Fresh(s, boundary + KERNEL_HEAP_PAGES)
  {
    BootFilled(boundary);
    s := StartDoes(Boot(boundary).value, boundary + KERNEL_HEAP_PAGES);
    FirstFamily(s, boundary + KERNEL_HEAP_PAGES);
    FirstCoupled(boundary, 1, 1, 0, s);
  }

  lemma AloneFrom(s0: Sys, hi: nat) returns (s: Sys)
    requires Fresh(s0, hi)
    ensures TrapAll(FIRST, s0, [FETCH]) == Some((FIRST, s)) && Family(s, hi, 1) && Entries(s, [EntryOf(TEXT_VPN, hi, 0)])
  {
    InFamily(s0, hi, 1, 0);
    s := FetchNext(s0, hi, 1, [], 0);
    OnFetch(s0, [], FIRST, s0, s);
    assert [] + [FETCH] == [FETCH] && [] + [EntryOf(TEXT_VPN, hi, 0)] == [EntryOf(TEXT_VPN, hi, 0)];
  }

  lemma PairFrom(s0: Sys, hi: nat) returns (s: Sys)
    requires Fresh(s0, hi)
    ensures TrapAll(FIRST, s0, [FETCH] + [SPLIT]) == Some((CHILD_RUNS, s)) && Family(s, hi, 2)
    ensures Entries(s, [EntryOf(TEXT_VPN, hi, 0)])
  {
    var s1 := AloneFrom(s0, hi);
    FamilyAdmits(s1, hi, 1, FIRST);
    s := FamilyNext(s1, hi, 1);
    Forked();
    OnSplit(s0, [FETCH], FIRST, s1, CHILD_RUNS, s);
  }

  /** A program that has forked, and whose child has begun to run. */
  const TWINS: seq<Event> := [FETCH] + [SPLIT] + [FETCH]

  function TwinEntries(hi: nat): seq<TlbEntry> { [EntryOf(TEXT_VPN, hi, 0)] + [EntryOf(TEXT_VPN, hi + 6, 1)] }

  lemma TwinsFrom(s0: Sys, hi: nat) returns (s: Sys)
    requires Fresh(s0, hi)
    ensures TrapAll(FIRST, s0, TWINS) == Some((CHILD_RUNS, s)) && Family(s, hi, 2) && Entries(s, TwinEntries(hi))
  {
    var s1 := PairFrom(s0, hi);
    InFamily(s1, hi, 2, 1);
    s := FetchNext(s1, hi, 2, [EntryOf(TEXT_VPN, hi, 0)], 1);
    OnFetch(s0, [FETCH] + [SPLIT], CHILD_RUNS, s1, s);
  }

  // ---- A fork that overwrites a bystander ----

  const OVERRUN: seq<Event> := TWINS + [Nothing] + [SPLIT] + [Exits] + [FETCH] + [Nothing]

  lemma {:induction false} NthIs(bits: seq<bool>, from: nat, a: nat, k: nat)
    requires from <= a && a + k < |bits|
    requires (forall i :: from <= i < a ==> bits[i]) && (forall i :: a <= i <= a + k ==> !bits[i])
    ensures NthClear(bits, from, k) == a + k
    decreases k
  {
    SkipSet(bits, from, a);
    if k > 0 { NthIs(bits, a + 1, a + 1, k - 1); }
  }

  /** The first child's frames are free again, between the parent's and the second child's. */
  lemma GapReady(p: Pool, t: Table, hi: nat)
    requires Filled(p, hi + 18) && p.boundary <= hi && Laid(t, Line(hi + 6))
    ensures Ready(p.(bits := Clear(p.bits, FramesOf(t))), hi + 6)
  {
    var bits := Clear(p.bits, FramesOf(t));
    forall i: nat | i < NUM_PAGES ensures bits[i] <==> p.boundary <= i < hi + 6 || hi + 12 <= i < hi + 18 {
      LineFrames(t, hi + 6, i);
    }
    forall k | 0 <= k < 6 ensures NthClear(bits, p.boundary, k) == hi + 6 + k { NthIs(bits, p.boundary, hi + 6, k); }
  }

  /** The first child has exited, the second one runs. */
  ghost predicate BeforeSpawn(s: Sys, hi: nat) {
    && s.spaces.Keys == {0, 2} && Member(s, hi, 0) && Member(s, hi, 2)
    && Ready(s.pool, hi + 6) && FirstClear(s.asids, 0) == 1 < |s.asids|
    && Entries(s, TwinEntries(hi) + [EntryOf(TEXT_VPN, hi + 12, 2)])
  }

  lemma ExitReady(s: Sys, hi: nat)
    requires Family(s, hi, 3)
    ensures 1 in s.spaces && s.spaces[1].asid == 1 && Ready(Close(s, 1).pool, hi + 6)
    ensures FirstClear(Close(s, 1).asids, 0) == 1 < |Close(s, 1).asids|
  {
    assert Member(s, hi, 1);
    GapReady(s.pool, s.spaces[1].table, hi);
    SkipSet(Close(s, 1).asids, 0, 1);
  }

  lemma ExitNext(s: Sys, hi: nat) returns (s': Sys)
    requires Family(s, hi, 3)
    ensures Does(s, Step.Exit(1), s') && s'.spaces.Keys == {0, 2} && Member(s', hi, 0) && Member(s', hi, 2)
    ensures Ready(s'.pool, hi + 6) && FirstClear(s'.asids, 0) == 1 < |s'.asids| && s'.tlb == s.tlb && s'.random == s.random
  {
    ExitReady(s, hi);
    s' := Close(s, 1);
    SameMember(s, hi, 0, s');
    SameMember(s, hi, 2, s');
  }

  lemma LastFetch(s: Sys, hi: nat) returns (s': Sys)
    requires s.spaces.Keys == {0, 2} && Member(s, hi, 0) && Member(s, hi, 2) && Entries(s, TwinEntries(hi))
    requires Ready(s.pool, hi + 6) && FirstClear(s.asids, 0) == 1 < |s.asids|
    ensures Does(s, Touch(2, TEXT_VPN), s') && BeforeSpawn(s', hi)
  {
    assert MapsTo(s.spaces[2].table, ORDER[0], FramesFrom(hi, 2)[0]);
    s' := TouchNext(s, TwinEntries(hi), 2, TEXT_VPN, hi + 12);
  }

  lemma TripletsFrom(s0: Sys, hi: nat) returns (s: Sys)
    requires Fresh(s0, hi)
    ensures TrapAll(FIRST, s0, TWINS + [Nothing] + [SPLIT]) == Some((TWO_CHILDREN, s))
    ensures Family(s, hi, 3) && Entries(s, TwinEntries(hi))
  {
    var s1 := TwinsFrom(s0, hi);
    InFamily(s1, hi, 2, 1);
    Switched();
    OnSwitch(s0, TWINS, CHILD_RUNS, s1, PARENT_RUNS);
    FamilyAdmits(s1, hi, 2, PARENT_RUNS);
    s := FamilyNext(s1, hi, 2);
    Forked();
    OnSplit(s0, TWINS + [Nothing], PARENT_RUNS, s1, TWO_CHILDREN, s);
  }

  lemma SpawnFrom(s0: Sys, hi: nat) returns (s: Sys)
    requires Fresh(s0, hi)
    ensures TrapAll(FIRST, s0, OVERRUN) == Some((PARENT_AGAIN, s)) && BeforeSpawn(s, hi)
  {
    var before := TWINS + [Nothing] + [SPLIT];
    var s2 := TripletsFrom(s0, hi);
    var s3 := ExitNext(s2, hi);
    Exited();
    OnExit(s0, before, TWO_CHILDREN, s2, SECOND_RUNS, s3);
    s := LastFetch(s3, hi);
    OnFetch(s0, before + [Exits], SECOND_RUNS, s3, s);
    Switched();
    OnSwitch(s0, before + [Exits] + [FETCH], SECOND_RUNS, s, PARENT_AGAIN);
  }

  /** The copies of the last fork. */
  lemma SpawnCopies(p: Pool, parent: Table, hi: nat, k: nat)
    requires Laid(parent, Spread(hi)) && Ready(p, hi + 6) && Enumerates(ORDER, parent) && k < 6
    ensures CopyList(p, ORDER, parent)[k] == Copy(hi + LayoutPlace(k), hi + 6 + k)
  {
    assert MapsTo(parent, ORDER[k], Spread(hi)[k]);
  }

  lemma SpawnFits(p: Pool, parent: Table, hi: nat)
    requires Laid(parent, Spread(hi)) && Ready(p, hi + 6) && Enumerates(ORDER, parent) && hi + 24 <= NUM_PAGES
    ensures AllFit(CopyList(p, ORDER, parent))
  {
    var copies := CopyList(p, ORDER, parent);
    forall c | c in copies ensures InMemory(c.src, c.dst) {
      var k :| 0 <= k < |copies| && copies[k] == c;
      SpawnCopies(p, parent, hi, k);
    }
  }

  lemma SpawnBefore(p: Pool, parent: Table, hi: nat)
    requires Laid(parent, Spread(hi)) && Ready(p, hi + 6) && Enumerates(ORDER, parent)
    ensures !CopiedTo(CopyList(p, ORDER, parent)[..5], hi + 5)
  {
    var copies := CopyList(p, ORDER, parent);
    forall c | c in copies[..5] ensures c.dst >= hi + 6 {
      var k :| 0 <= k < 5 && copies[..5][k] == c;
      SpawnCopies(p, parent, hi, k);
    }
  }

  /** The last copy starts in front of the frame at hi + 12 and runs on into it, with the page behind its source. */
  lemma SpawnOrigin(p: Pool, parent: Table, hi: nat)
    requires Laid(parent, Spread(hi)) && Ready(p, hi + 6) && Enumerates(ORDER, parent)
    ensures Origin(CopyList(p, ORDER, parent), hi + 12) == hi + 5
  {
    var copies := CopyList(p, ORDER, parent);
    SpawnCopies(p, parent, hi, 5);
    assert Source(hi + 4, hi + 11, COPIED_FRAMES, hi + 12) == hi + 5;
    SpawnBefore(p, parent, hi);
    OutOfReach(copies[..5], hi + 5);
  }

  /** The entry the first child left behind is right for the next child, whose frames are the same. */
  lemma SpawnClean(s: Sys, hi: nat)
    requires BeforeSpawn(s, hi) && Enabled(s, SPAWN)
    ensures CleanTags(s, SPAWN)
  {
    var wants := Copies(ORDER, s.spaces[0].table);
    FirstWantIs(wants, ORDER[0], 0);
    forall i | 0 <= i < |s.tlb| && s.tlb[i].valid && !s.tlb[i].global && s.tlb[i].asid == 1
      ensures Fits(s.pool, wants, s.tlb[i])
    {
      assert i == 1;
    }
  }

  lemma SpawnActs(s: Sys, phys: Memory, hi: nat) returns (s': Mid)
    requires BeforeSpawn(s, hi) && |phys| == PHYS_MEM_SIZE && hi + 24 <= NUM_PAGES
    ensures Acts(Mid(s, phys), Do(SPAWN), 0, {2}, s')
    ensures PageAt(s'.phys, hi + 12) == PageAt(CopyPages(phys, CopiesOf(s, SPAWN)), hi + 12)
  {
    var sys := Spawned(s, 1, 1, Spread(hi), hi + 6);
    SpawnFits(s.pool, s.spaces[0].table, hi);
    SpawnClean(s, hi);
    CopyPagesEffect(phys, CopiesOf(s, SPAWN), KernelFrames(s));
    s' := Mid(sys, CopyPages(phys, CopiesOf(s, SPAWN)));
  }

  lemma SpawnFrames(s: Sys, hi: nat)
    requires BeforeSpawn(s, hi)
    ensures Mapped(s, 0, DEEP_VPN) && Frame(s, 0, DEEP_VPN) == hi + 5
    ensures Mapped(s, 2, TEXT_VPN) && Frame(s, 2, TEXT_VPN) == hi + 12
  {
    assert MapsTo(s.spaces[0].table, ORDER[4], Spread(hi)[4]) && MapsTo(s.spaces[2].table, ORDER[0], FramesFrom(hi, 2)[0]);
  }

  lemma SpawnPage(s: Sys, phys: Memory, hi: nat)
    requires 0 in s.spaces && Laid(s.spaces[0].table, Spread(hi)) && Ready(s.pool, hi + 6) && Owned(s)
    requires |phys| == PHYS_MEM_SIZE && hi + 12 !in KernelFrames(s)
    requires Enabled(s, SPAWN) && Next(s, SPAWN).Some? && CopiesFit(s, SPAWN)
    ensures PageAt(CopyPages(phys, CopiesOf(s, SPAWN)), hi + 12) == PageAt(phys, hi + 5)
  {
    var copies := CopiesOf(s, SPAWN);
    SpawnOrigin(s.pool, s.spaces[0].table, hi);
    ForkCopies(s, SPAWN);
    CopyPagesEffect(phys, copies, KernelFrames(s));
    ForkPage(phys, copies, KernelFrames(s), CopyPages(phys, copies), hi + 12);
  }

  lemma OverrunOwned(s0: Sys, hi: nat, s: Sys)
    requires Fresh(s0, hi) && TrapAll(FIRST, s0, OVERRUN) == Some((PARENT_AGAIN, s))
    ensures Owned(s) && StepOf(PARENT_AGAIN, SPLIT) == Some(SPAWN)
  {
    TrapsRun(FIRST, s0, OVERRUN);
  }

  lemma SpawnHarm(s: Sys, hi: nat, phys: Memory) returns (s': Mid)
    requires BeforeSpawn(s, hi) && Owned(s) && hi + 24 <= NUM_PAGES && |phys| == PHYS_MEM_SIZE
    ensures Acts(Mid(s, phys), Do(SPAWN), 0, {2}, s') && Mapped(s, 0, DEEP_VPN) && Mapped(s, 2, TEXT_VPN)
    ensures PageAt(s'.phys, Frame(s, 2, TEXT_VPN)) == PageAt(phys, Frame(s, 0, DEEP_VPN))
  {
    s' := SpawnActs(s, phys, hi);
    SpawnFrames(s, hi);
    FrameApart(s, 2, TEXT_VPN, 2);
    SpawnPage(s, phys, hi);
  }

  /**
   * From boot, whatever memory holds: a program forks twice, the first child exits, and the program forks again. The new
   * child gets the frames in front of the other child's, whose text page is then the program's deepest stack page.
   */
  lemma ForkOverwrites(boundary: nat, phys: Memory) returns (s0: Sys, p: TrapSpec.Procs, s: Sys, s': Mid)
    requires boundary + 128 <= NUM_PAGES && |phys| == PHYS_MEM_SIZE
    ensures Boot(boundary).Some? && Open(Boot(boundary).value, 0, Program(1), 0) == Some(s0)
    ensures TrapAll(FIRST, s0, OVERRUN) == Some((p, s)) && StepOf(p, SPLIT) == Some(SPAWN)
    ensures Acts(Mid(s, phys), Do(SPAWN), 0, {2}, s') && Mapped(s, 0, DEEP_VPN) && Mapped(s, 2, TEXT_VPN)
    ensures PageAt(s'.phys, Frame(s, 2, TEXT_VPN)) == PageAt(phys, Frame(s, 0, DEEP_VPN))
  {
    var hi := boundary + KERNEL_HEAP_PAGES;
    s0 := FreshFrom(boundary);
    p := PARENT_AGAIN;
    s := SpawnFrom(s0, hi);
    OverrunOwned(s0, hi, s);
    s' := SpawnHarm(s, hi, phys);
  }

  // ---- An ASID issued again ----

  const REISSUE: seq<Event> := TWINS + [Grows(BRK_DEFAULT)] + [Nothing] + [TOUCH_HEAP] + [Exits] + [SPLIT] + [Nothing] + [SPLIT]

  /** Growing a heap of no pages by one takes the next frame. */
  lemma BrkNext(s: Sys, hi: nat) returns (s': Sys)
    requires Family(s, hi, 2) && hi + 24 <= NUM_PAGES
    ensures Does(s, BrkTo(1, BRK_DEFAULT), s') && Grown(s, s', hi) && s'.tlb == s.tlb && s'.random == s.random
  {
    assert Member(s, hi, 1);
    var t := s.spaces[1].table;
    var w := Want(HEAP_VPN, Pte(0, false, true, true, true));
    assert BrkPages(BRK_DEFAULT) == 1 && BrkWants(0, 1) == [w];
    MapFilled(s.pool, t, [w], hi + 12);
    assert HEAP_VPN !in t;
    FirstWantIs([w], HEAP_VPN, 0);
    FilledNth(s.pool, hi + 12, s.pool.boundary, 0);
    assert [w][1..] == [];
    s' := Brk(s, 1, BRK_DEFAULT).value;
  }

  /** When the process that has grown exits, its frames and its ASID are free again. */
  lemma GrownExit(s: Sys, hi: nat, t: Table) returns (s': Sys)
    requires s.spaces.Keys == {0, 1} && Member(s, hi, 0) && s.spaces[1].asid == 1 && s.pool.boundary <= hi
    requires Laid(t, Line(hi + 6)) && HEAP_VPN !in t && Taken(s.asids, 2) && Filled(s.pool, hi + 13)
    requires s.spaces[1].table == t[HEAP_VPN := Pte(hi + 12, false, true, true, true)]
    ensures Does(s, Step.Exit(1), s') && Family(s', hi, 1) && s'.tlb == s.tlb && s'.random == s.random
  {
    s' := Close(s, 1);
    var t' := s.spaces[1].table;
    forall i: nat | i < NUM_PAGES ensures i in FramesOf(t') <==> hi + 6 <= i < hi + 13 {
      LineFrames(t, hi + 6, i);
      GrownFrames(t, t', hi + 12, i);
    }
    assert Member(s', hi, 0);
  }

  lemma GrownFrames(t: Table, t': Table, f: nat, i: nat)
    requires HEAP_VPN !in t && t' == t[HEAP_VPN := Pte(f, false, true, true, true)]
    ensures i in FramesOf(t') <==> i in FramesOf(t) || i == f
  {
    assert t'[HEAP_VPN].pfn == f;
    if i in FramesOf(t) {
      var v :| v in t && t[v].pfn == i;
      assert t'[v].pfn == i;
    }
  }

  /** The first child grows its heap and touches the page. */
  lemma GrowAndTouch(s: Sys, hi: nat) returns (s1: Sys, s2: Sys)
    requires Family(s, hi, 2) && hi + 24 <= NUM_PAGES && Entries(s, TwinEntries(hi))
    ensures Does(s, BrkTo(1, BRK_DEFAULT), s1) && Does(s1, Touch(1, HEAP_VPN), s2) && Grown(s, s2, hi) && s1.spaces == s2.spaces
    ensures Entries(s2, TwinEntries(hi) + [EntryOf(HEAP_VPN, hi + 12, 1)])
  {
    s1 := BrkNext(s, hi);
    assert MapsTo(s1.spaces[1].table, HEAP_VPN, hi + 12);
    s2 := TouchNext(s1, TwinEntries(hi), 1, HEAP_VPN, hi + 12);
  }

  ghost predicate Grown(s: Sys, s': Sys, hi: nat) {
    && 1 in s.spaces && 1 in s'.spaces && s'.spaces == s.spaces[1 := s'.spaces[1]] && s'.spaces[1].asid == 1
    && s'.spaces[1].table == s.spaces[1].table[HEAP_VPN := Pte(hi + 12, false, true, true, true)]
    && s'.asids == s.asids && Filled(s'.pool, hi + 13) && s'.pool.boundary == s.pool.boundary
  }

  lemma GrownMembers(s: Sys, s': Sys, hi: nat)
    requires Family(s, hi, 2) && Grown(s, s', hi)
    ensures s'.spaces.Keys == {0, 1} && Member(s', hi, 0)
    ensures Laid(s.spaces[1].table, Line(hi + 6)) && HEAP_VPN !in s.spaces[1].table
  {
    assert Member(s, hi, 0) && Member(s, hi, 1);
    SameMember(s, hi, 0, s');
    assert HEAP_VPN !in ORDER;
  }

  const GROWN: seq<Event> := TWINS + [Grows(BRK_DEFAULT)] + [Nothing] + [TOUCH_HEAP]

  lemma GrownFrom(s0: Sys, hi: nat) returns (s1: Sys, s: Sys)
    requires Fresh(s0, hi)
    ensures TrapAll(FIRST, s0, GROWN) == Some((CHILD_RUNS, s)) && Family(s1, hi, 2) && Grown(s1, s, hi)
    ensures Entries(s, TwinEntries(hi) + [EntryOf(HEAP_VPN, hi + 12, 1)])
  {
    s1 := TwinsFrom(s0, hi);
    InFamily(s1, hi, 2, 0);
    InFamily(s1, hi, 2, 1);
    var s2: Sys;
    s2, s := GrowAndTouch(s1, hi);
    OnGrow(s0, TWINS, s1, s2);
    OnTouchHeap(s0, TWINS + [Grows(BRK_DEFAULT)] + [Nothing], s2, s);
  }

  lemma GoneFrom(s0: Sys, hi: nat) returns (s: Sys)
    requires Fresh(s0, hi)
    ensures TrapAll(FIRST, s0, GROWN + [Exits]) == Some((FIRST, s))
    ensures Family(s, hi, 1) && Entries(s, TwinEntries(hi) + [EntryOf(HEAP_VPN, hi + 12, 1)])
  {
    var s1, s2 := GrownFrom(s0, hi);
    GrownMembers(s1, s2, hi);
    s := GrownExit(s2, hi, s1.spaces[1].table);
    Exited();
    OnExit(s0, GROWN, CHILD_RUNS, s2, FIRST, s);
  }

  lemma AgainFrom(s0: Sys, hi: nat) returns (s: Sys)
    requires Fresh(s0, hi)
    ensures TrapAll(FIRST, s0, GROWN + [Exits] + [SPLIT] + [Nothing]) == Some((PARENT_RUNS, s))
    ensures Family(s, hi, 2) && Entries(s, TwinEntries(hi) + [EntryOf(HEAP_VPN, hi + 12, 1)])
  {
    var s1 := GoneFrom(s0, hi);
    FamilyAdmits(s1, hi, 1, FIRST);
    s := FamilyNext(s1, hi, 1);
    Forked();
    OnSplit(s0, GROWN + [Exits], FIRST, s1, CHILD_RUNS, s);
    InFamily(s, hi, 2, 1);
    Switched();
    OnSwitch(s0, GROWN + [Exits] + [SPLIT], CHILD_RUNS, s, PARENT_RUNS);
  }

  lemma ReissueFrom(s0: Sys, hi: nat) returns (s: Sys)
    requires Fresh(s0, hi)
    ensures TrapAll(FIRST, s0, REISSUE) == Some((TWO_CHILDREN, s))
    ensures Family(s, hi, 3) && Entries(s, TwinEntries(hi) + [EntryOf(HEAP_VPN, hi + 12, 1)])
  {
    var s1 := AgainFrom(s0, hi);
    FamilyAdmits(s1, hi, 2, PARENT_RUNS);
    s := FamilyNext(s1, hi, 2);
    Forked();
    OnSplit(s0, GROWN + [Exits] + [SPLIT] + [Nothing], PARENT_RUNS, s1, TWO_CHILDREN, s);
  }

  lemma HeapEntry(tlb: seq<TlbEntry>, f: nat)
    requires |tlb| >= 3 && tlb[0].vpn == tlb[1].vpn == TEXT_VPN && tlb[2] == EntryOf(HEAP_VPN, f, 1) && f < NUM_PAGES
    ensures Translate(tlb, HEAP_VPN * PAGE, 1) == Some(f * PAGE)
  {
    assert HEAP_VPN * PAGE / PAGE == HEAP_VPN && HEAP_VPN * PAGE % PAGE == 0;
    assert !Matches(tlb[0], HEAP_VPN, 1) && !Matches(tlb[1], HEAP_VPN, 1) && Matches(tlb[2], HEAP_VPN, 1);
    assert FirstMatch(tlb, HEAP_VPN, 1, 2) == 2 && FirstMatch(tlb, HEAP_VPN, 1, 1) == 2 && FirstMatch(tlb, HEAP_VPN, 1, 0) == 2;
  }

  lemma HeapStale(s: Sys, hi: nat)
    requires Family(s, hi, 3) && Entries(s, TwinEntries(hi) + [EntryOf(HEAP_VPN, hi + 12, 1)])
    ensures 1 in s.spaces && !Mapped(s, 1, HEAP_VPN) && s.spaces[1].asid == 1 && !Consistent(s)
    ensures Translate(s.tlb, HEAP_VPN * PAGE, 1) == Some((hi + 12) * PAGE)
  {
    assert Member(s, hi, 1);
    assert HEAP_VPN !in ORDER;
    assert s.tlb[2] == EntryOf(HEAP_VPN, hi + 12, 1);
    HeapEntry(s.tlb, hi + 12);
    assert !Isolation.Agrees(s, s.tlb[2]);
  }

  lemma TextFrame(s: Sys, hi: nat, n: nat, p: nat)
    requires Family(s, hi, n) && p < n
    ensures Mapped(s, p, TEXT_VPN) && Frame(s, p, TEXT_VPN) == hi + 6 * p
  {
    assert Member(s, hi, p);
    assert MapsTo(s.spaces[p].table, ORDER[0], FramesFrom(hi, p)[0]);
  }

  /**
   * From boot: a child grows its heap by a page, touches it and exits; its parent forks twice more. The first new child has
   * the ASID again and no heap, yet the entry left behind takes its heap accesses to the text page of the second.
   */
  lemma ReissueRun(boundary: nat) returns (s0: Sys, p: TrapSpec.Procs, s: Sys)
    requires boundary + 128 <= NUM_PAGES
    ensures Boot(boundary).Some? && Open(Boot(boundary).value, 0, Program(1), 0) == Some(s0)
    ensures TrapAll(FIRST, s0, REISSUE) == Some((p, s)) && p.cur == 1 && !Consistent(s)
    ensures 1 in s.spaces && !Mapped(s, 1, HEAP_VPN) && Mapped(s, 2, TEXT_VPN)
    ensures Translate(s.tlb, HEAP_VPN * PAGE, s.spaces[1].asid) == Some(Frame(s, 2, TEXT_VPN) * PAGE)
  {
    s0 := FreshFrom(boundary);
    p := TWO_CHILDREN;
    s := ReissueFrom(s0, boundary + KERNEL_HEAP_PAGES);
    HeapStale(s, boundary + KERNEL_HEAP_PAGES);
    TextFrame(s, boundary + KERNEL_HEAP_PAGES, 3, 2);
  }

  // ---- Exec ----

  lemma AloneConsistent(s: Sys, hi: nat)
    requires Family(s, hi, 1) && Entries(s, [EntryOf(TEXT_VPN, hi, 0)])
    ensures Consistent(s) && Tagged(s.tlb, 0)
  {
    TextFrame(s, hi, 1, 0);
    assert s.tlb[0] == EntryOf(TEXT_VPN, hi, 0);
    forall i | 0 <= i < |s.tlb| && s.tlb[i].valid ensures Isolation.Agrees(s, s.tlb[i]) { assert i == 0; }
  }

  lemma ExecNext(s: Sys, hi: nat, text: nat) returns (s': Sys)
    requires Family(s, hi, 1) && Owned(s) && Entries(s, [EntryOf(TEXT_VPN, hi, 0)])
    requires hi + 32 <= NUM_PAGES && 0 < text < 16
    ensures Does(s, Replace(0, 1, text, 1, 4, 0, 0), s') && !Consistent(s') && s'.tlb == s.tlb
    ensures Mapped(s', 0, TEXT_VPN) && Frame(s', 0, TEXT_VPN) == hi + 6 && s'.spaces[0].asid == 0 && !s'.pool.bits[hi]
  {
    assert Member(s, hi, 0);
    TakenNext(s.asids, 1);
    Started(s, 1, text, hi + 6);
    AloneConsistent(s, hi);
    ProgramWants(text);
    ExecConsistent(s, 0, 1, Program(text), 0);
    TextFrame(s, hi, 1, 0);
    assert hi in FramesOf(s.spaces[0].table);
    s' := Exec(s, 0, 1, Program(text), 0).value;
  }

  lemma FirstEntry(tlb: seq<TlbEntry>, f: nat)
    requires |tlb| > 0 && tlb[0] == EntryOf(TEXT_VPN, f, 0) && f < NUM_PAGES
    ensures Translate(tlb, TEXT_VPN * PAGE, 0) == Some(f * PAGE)
  {
    assert TEXT_VPN * PAGE / PAGE == TEXT_VPN && TEXT_VPN * PAGE % PAGE == 0;
    assert Matches(tlb[0], TEXT_VPN, 0);
    assert FirstMatch(tlb, TEXT_VPN, 0, 0) == 0;
  }

  lemma ExecFrom(s0: Sys, hi: nat, text: nat) returns (s: Sys)
    requires Fresh(s0, hi) && 0 < text < 16
    ensures TrapAll(FIRST, s0, [FETCH] + [Execs(text, 1, 0)]) == Some((FIRST, s)) && !Consistent(s)
    ensures Mapped(s, 0, TEXT_VPN) && Frame(s, 0, TEXT_VPN) != hi < |s.pool.bits| && !s.pool.bits[hi]
    ensures Translate(s.tlb, TEXT_VPN * PAGE, s.spaces[0].asid) == Some(hi * PAGE)
  {
    var s1 := AloneFrom(s0, hi);
    TrapsRun(FIRST, s0, [FETCH]);
    InFamily(s1, hi, 1, 0);
    s := ExecNext(s1, hi, text);
    OnExec(s0, [FETCH], s1, text, s);
    FirstEntry(s1.tlb, hi);
  }

  /**
   * From boot: a program fetches its first instruction and execs. Whatever the new program is, its text page still
   * translates to the old frame, which is free by then.
   */
  lemma ExecRun(boundary: nat, text: nat) returns (s0: Sys, s: Sys)
    requires boundary + 128 <= NUM_PAGES && 0 < text < 16
    ensures Boot(boundary).Some? && Open(Boot(boundary).value, 0, Program(1), 0) == Some(s0)
    ensures TrapAll(FIRST, s0, [FETCH] + [Execs(text, 1, 0)]) == Some((FIRST, s)) && !Consistent(s)
    ensures var f := boundary + KERNEL_HEAP_PAGES;
      && Mapped(s, 0, TEXT_VPN) && Frame(s, 0, TEXT_VPN) != f < |s.pool.bits| && !s.pool.bits[f]
      && Translate(s.tlb, TEXT_VPN * PAGE, s.spaces[0].asid) == Some(f * PAGE)
  {
    s0 := FreshFrom(boundary);
    s := ExecFrom(s0, boundary + KERNEL_HEAP_PAGES, text);
  }

  // ---- A heap that exec forgets ----

  const GROW: Event := Grows(BRK_DEFAULT)

  lemma Unmoved()
    ensures TrapSpec.Handle(FIRST, TrapSpec.Brk(Some(true))) == Some(FIRST)
  {
    assert ([] + [0])[1..] == [];
  }

  lemma OnGrowAlone(s0: Sys, es: seq<Event>, s: Sys, s': Sys)
    requires TrapAll(FIRST, s0, es) == Some((FIRST, s)) && 0 in s.spaces && Does(s, BrkTo(0, BRK_DEFAULT), s')
    ensures TrapAll(FIRST, s0, es + [GROW]) == Some((FIRST, s'))
  {
    Unmoved();
    On(s0, es, FIRST, s, GROW, BrkTo(0, BRK_DEFAULT), FIRST, s');
  }

  /** The first process has grown its heap by a page. */
  ghost predicate Bigger(s: Sys, hi: nat) {
    && s.spaces.Keys == {0} && s.spaces[0].asid == 0 && s.spaces[0].brk == 1 && Taken(s.asids, 1)
    && Filled(s.pool, hi) && hi + 16 <= NUM_PAGES
  }

  lemma GrowAlone(s: Sys, hi: nat) returns (s': Sys)
    requires Fresh(s, hi)
    ensures Does(s, BrkTo(0, BRK_DEFAULT), s') && Bigger(s', hi + 7)
  {
    assert Member(s, hi, 0);
    assert BrkPages(BRK_DEFAULT) == 1;
    MapFilled(s.pool, s.spaces[0].table, BrkWants(0, 1), hi + 6);
    s' := Brk(s, 0, BRK_DEFAULT).value;
  }

  lemma ExecBigger(s: Sys, hi: nat, text: nat) returns (s': Sys)
    requires Bigger(s, hi) && Owned(s) && 0 < text < 10
    ensures Does(s, Replace(0, 1, text, 1, 4, 0, 0), s') && 0 in s'.spaces
    ensures Brk(s', 0, BRK_DEFAULT) == Some(s') && s'.random < |s'.tlb| && Refill(s', 0, BRK_DEFAULT).None?
  {
    TakenNext(s.asids, 1);
    Started(s, 1, text, hi);
    ExecForgetsHeap(s, 0, 1, text, 1, 0, BRK_DEFAULT);
    s' := Exec(s, 0, 1, Program(text), 0).value;
  }

  /**
   * From boot: a program asks for a page of heap, execs, and the new program asks for the same page. It is granted, and
   * the kernel stops when the program touches it.
   */
  lemma ForgottenRun(boundary: nat, text: nat) returns (s0: Sys, s: Sys)
    requires boundary + 128 <= NUM_PAGES && 0 < text < 10
    ensures Boot(boundary).Some? && Open(Boot(boundary).value, 0, Program(1), 0) == Some(s0)
    ensures TrapAll(FIRST, s0, [GROW] + [Execs(text, 1, 0)] + [GROW]) == Some((FIRST, s))
    ensures TrapNext(FIRST, s, Touches(BRK_DEFAULT)).None?
  {
    s0 := FreshFrom(boundary);
    s := ForgottenFrom(s0, boundary + KERNEL_HEAP_PAGES, text);
  }

  lemma ForgottenFrom(s0: Sys, hi: nat, text: nat) returns (s: Sys)
    requires Fresh(s0, hi) && 0 < text < 10
    ensures TrapAll(FIRST, s0, [GROW] + [Execs(text, 1, 0)] + [GROW]) == Some((FIRST, s))
    ensures TrapNext(FIRST, s, Touches(BRK_DEFAULT)).None?
  {
    InFamily(s0, hi, 1, 0);
    var s1 := GrowAlone(s0, hi);
    OnGrowAlone(s0, [], s0, s1);
    assert [] + [GROW] == [GROW];
    TrapsRun(FIRST, s0, [GROW]);
    s := ExecBigger(s1, hi + 7, text);
    OnExec(s0, [GROW], s1, text, s);
    OnGrowAlone(s0, [GROW] + [Execs(text, 1, 0)], s, s);
  }
}
