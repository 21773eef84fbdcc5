/** Whole runs of the kernel heap with callers that write into what they were given. */
module HeapRuns {
  import opened HeapBlocks
  import opened HeapMemory
  import opened HeapStates

  /** `Write` is a store by a caller into a word of its own. */
  datatype Op = Take(size: nat) | Give(p: nat) | Write(a: nat, v: nat)

  function Step(h: Heap, op: Op): Heap {
    match op
    case Take(size) => TakeHeap(h, Align4(size)).0
    case Give(p) => GiveHeap(h, p)
    case Write(a, v) => h.(mem := h.mem[a := v])
  }

  function Empty(m: Memory): Heap { Heap(m, 0, 0, BASE, []) }

  function Run(h: Heap, ops: seq<Op>): Heap
    decreases |ops|
  {
    if ops == [] then h else Run(Step(h, ops[0]), ops[1..])
  }

  /** A word inside a live payload. */
  ghost predicate Own(bs: seq<Block>, a: nat) {
    exists i :: 0 <= i < |bs| && !bs[i].free && bs[i].Payload() <= a && a + 4 <= bs[i].End()
  }

  /** Callers return pointers they hold and write words they hold. */
  ghost predicate Legal(h: Heap, op: Op) {
    match op
    case Take(size) => size < WORD_LIMIT
    case Give(p) => exists i :: 0 <= i < |h.blocks| && !h.blocks[i].free && h.blocks[i].Payload() == p
    case Write(a, _) => a % 4 == 0 && Own(h.blocks, a)
  }

  ghost predicate LegalRun(h: Heap, ops: seq<Op>)
    decreases |ops|
  {
    ops != [] ==> Legal(h, ops[0]) && LegalRun(Step(h, ops[0]), ops[1..])
  }

  /** The heap is valid before, between and after all steps. */
  ghost predicate AllValid(h: Heap, ops: seq<Op>)
    decreases |ops|
  {
    Valid(h) && (ops != [] ==> AllValid(Step(h, ops[0]), ops[1..]))
  }

  predicate BreaksAt(h: Heap, op: Op) { op.Take? && Breaks(h, Align4(op.size)) }

  /** No request of the run comes upon an empty list with a stale `last_visited`, nor extends the heap past 32 bits. */
  predicate Unbroken(h: Heap, ops: seq<Op>)
    decreases |ops|
  {
    ops != [] ==> !BreaksAt(h, ops[0]) && Unbroken(Step(h, ops[0]), ops[1..])
  }

  // ---- Writes of callers ----

  lemma OwnSpared(bs: seq<Block>, a: nat)
    requires Own(bs, a)
    ensures Spared(bs, a)
  {
    var i :| 0 <= i < |bs| && !bs[i].free && bs[i].Payload() <= a && a + 4 <= bs[i].End();
    var r := (bs[i].Payload(), bs[i].size);
    assert r in Live(bs);
  }

  lemma OwnOutside(bs: seq<Block>, brk: nat, a: nat, k: nat)
    requires Tiled(bs, brk) && Own(bs, a) && k < |bs|
    ensures a < bs[k].addr || a >= bs[k].Payload()
  {
    var i :| 0 <= i < |bs| && !bs[i].free && bs[i].Payload() <= a && a + 4 <= bs[i].End();
    if i < k { Ordered(bs, brk, i, k); } else if k < i { Ordered(bs, brk, k, i); }
  }

  lemma WriteValid(h: Heap, a: nat, v: nat)
    requires Valid(h) && Own(h.blocks, a)
    ensures Valid(Step(h, Write(a, v)))
  {
    var h' := Step(h, Write(a, v));
    forall k | 0 <= k < |h.blocks| ensures HeaderAt(h'.mem, h.blocks, k) {
      assert HeaderAt(h.mem, h.blocks, k);
      OwnOutside(h.blocks, h.brk, a, k);
    }
  }

  // ---- The shape over whole runs ----

  lemma StepValid(h: Heap, op: Op)
    requires Valid(h) && Legal(h, op)
    ensures Valid(Step(h, op)) <==> !BreaksAt(h, op)
  {
    match op
    case Take(size) => TakeValid(h, Align4(size));
    case Give(p) =>
      var i :| 0 <= i < |h.blocks| && !h.blocks[i].free && h.blocks[i].Payload() == p;
      AcceptedIs(h, i);
      GiveValid(h, p);
    case Write(a, v) => WriteValid(h, a, v);
  }

  /** The list and its header words stay right all through a run if and only if no request breaks them. */
  lemma {:induction false} RunValid(h: Heap, ops: seq<Op>)
    requires Valid(h) && LegalRun(h, ops)
    ensures AllValid(h, ops) <==> Unbroken(h, ops)
    decreases |ops|
  {
    if ops != [] {
      StepValid(h, ops[0]);
      if !BreaksAt(h, ops[0]) { RunValid(Step(h, ops[0]), ops[1..]); }
    }
  }

  lemma EmptyValid(m: Memory)
    ensures Valid(Empty(m))
  {}

  // ---- What each step does for its caller ----

  /** A request adds one new aligned range at the pointer returned, apart from all others. */
  ghost predicate Added(live: set<(nat, nat)>, p: nat, s: nat, live': set<(nat, nat)>) {
    exists n :: n >= s && (p, n) !in live && live' == live + {(p, n)} && p % 4 == 0 && AllApart(live')
  }

  ghost predicate Served(h: Heap, op: Op, h': Heap) {
    match op
    case Take(size) => Added(Live(h.blocks), TakeHeap(h, Align4(size)).1, Align4(size), Live(h'.blocks))
    case Give(p) =>
      if ValidAddr(h, p) then forall r :: r in Live(h'.blocks) <==> r in Live(h.blocks) && r.0 != p else h' == h
    case Write(a, v) => h' == h.(mem := h'.mem)
  }

  /** Words callers hold before and after keep their values, except the one a caller writes; so do the `ptr` words. */
  ghost predicate Undisturbed(h: Heap, op: Op, h': Heap) {
    && (forall a :: Own(h.blocks, a) && Own(h'.blocks, a) && a % 4 == 0 ==>
          Word(h'.mem, a) == if op.Write? && op.a == a then op.v else Word(h.mem, a))
    && (forall r :: r in Live(h.blocks) && r in Live(h'.blocks) && r.0 >= 4 ==> Word(h'.mem, r.0 - 4) == Word(h.mem, r.0 - 4))
  }

  lemma TakeServed(h: Heap, size: nat)
    requires Valid(h) && !Breaks(h, Align4(size))
    ensures Served(h, Take(size), Step(h, Take(size)))
  {
    var s := Align4(size);
    var (h', p) := TakeHeap(h, s);
    TakeValid(h, s);
    TakeBlocks(h, s);
    MallocLive(h.blocks, h.brk, s);
    LiveApart(h'.blocks, h'.brk);
    var n := h'.blocks[MallocIndex(h.blocks, s)].size;
    assert (p, n) !in Live(h.blocks) && Live(h'.blocks) == Live(h.blocks) + {(p, n)};
  }

  lemma GiveServed(h: Heap, p: nat)
    requires Valid(h) && Legal(h, Give(p))
    ensures Served(h, Give(p), Step(h, Give(p)))
  {
    var i :| 0 <= i < |h.blocks| && !h.blocks[i].free && h.blocks[i].Payload() == p;
    GiveReleases(h, i);
    AcceptedIs(h, i);
    AddressUnique(h.blocks, h.brk, i);
    forall r | r in Live(h.blocks) && r.0 == p ensures r == (h.blocks[i].Payload(), h.blocks[i].size) {
      var k :| 0 <= k < |h.blocks| && !h.blocks[k].free && r == (h.blocks[k].Payload(), h.blocks[k].size);
    }
  }

  lemma SpareKept(h: Heap, h': Heap)
    requires SameOn(h.mem, h'.mem, h.blocks) || SameOn(h.mem, h'.mem, h'.blocks)
    ensures forall a :: Own(h.blocks, a) && Own(h'.blocks, a) ==> Word(h'.mem, a) == Word(h.mem, a)
    ensures forall r :: r in Live(h.blocks) && r in Live(h'.blocks) && r.0 >= 4 ==> Word(h'.mem, r.0 - 4) == Word(h.mem, r.0 - 4)
  {
    forall a | Own(h.blocks, a) && Own(h'.blocks, a) ensures Word(h'.mem, a) == Word(h.mem, a) {
      OwnSpared(h.blocks, a);
      OwnSpared(h'.blocks, a);
    }
    forall r | r in Live(h.blocks) && r in Live(h'.blocks) && r.0 >= 4 ensures Word(h'.mem, r.0 - 4) == Word(h.mem, r.0 - 4) {
      assert Spared(h.blocks, r.0 - 4) && Spared(h'.blocks, r.0 - 4);
    }
  }

  lemma WriteUndisturbed(h: Heap, a: nat, v: nat)
    requires Valid(h) && Own(h.blocks, a)
    ensures Undisturbed(h, Write(a, v), Step(h, Write(a, v)))
  {
    forall r | r in Live(h.blocks) && r.0 >= 4 ensures r.0 - 4 != a {
      var k :| 0 <= k < |h.blocks| && !h.blocks[k].free && r == (h.blocks[k].Payload(), h.blocks[k].size);
      OwnOutside(h.blocks, h.brk, a, k);
    }
  }

  /** Every step serves exactly its caller and disturbs nobody's words. */
  lemma StepServes(h: Heap, op: Op)
    requires Valid(h) && Legal(h, op) && !BreaksAt(h, op)
    ensures Served(h, op, Step(h, op)) && Undisturbed(h, op, Step(h, op))
  {
    match op
    case Take(size) =>
      TakeServed(h, size);
      TakeSame(h, Align4(size));
      SpareKept(h, Step(h, op));
    case Give(p) =>
      GiveServed(h, p);
      var i :| 0 <= i < |h.blocks| && !h.blocks[i].free && h.blocks[i].Payload() == p;
      AcceptedIs(h, i);
      GiveValid(h, p);
      SpareKept(h, Step(h, op));
    case Write(a, v) => WriteUndisturbed(h, a, v);
  }

  ghost predicate AllServed(h: Heap, ops: seq<Op>)
    decreases |ops|
  {
    ops != [] ==>
      && Served(h, ops[0], Step(h, ops[0])) && Undisturbed(h, ops[0], Step(h, ops[0]))
      && AllApart(Live(Step(h, ops[0]).blocks)) && AllServed(Step(h, ops[0]), ops[1..])
  }

  /** Along every run that never breaks the heap, every step serves exactly its caller and live ranges stay apart. */
  lemma {:induction false} RunServes(h: Heap, ops: seq<Op>)
    requires Valid(h) && LegalRun(h, ops) && Unbroken(h, ops)
    ensures AllValid(h, ops) && AllServed(h, ops)
    decreases |ops|
  {
    if ops != [] {
      var h' := Step(h, ops[0]);
      StepValid(h, ops[0]);
      StepServes(h, ops[0]);
      LiveApart(h'.blocks, h'.brk);
      RunServes(h', ops[1..]);
    }
  }

  /** A caller holds word a all through the run and does not write it. */
  ghost predicate Holds(h: Heap, ops: seq<Op>, a: nat)
    decreases |ops|
  {
    Own(h.blocks, a) && (ops != [] ==> !(ops[0].Write? && ops[0].a == a) && Holds(Step(h, ops[0]), ops[1..], a))
  }

  lemma WordKept(h: Heap, op: Op, a: nat)
    requires Valid(h) && Legal(h, op) && !BreaksAt(h, op) && a % 4 == 0 && !(op.Write? && op.a == a)
    requires Own(h.blocks, a) && Own(Step(h, op).blocks, a)
    ensures Word(Step(h, op).mem, a) == Word(h.mem, a)
  {
    StepServes(h, op);
  }

  /** What a caller wrote is there as long as it holds the word and does not write it again, whatever others do. */
  lemma {:induction false} WrittenStays(h: Heap, ops: seq<Op>, a: nat)
    requires Valid(h) && LegalRun(h, ops) && Unbroken(h, ops) && Holds(h, ops, a) && a % 4 == 0
    ensures Word(Run(h, ops).mem, a) == Word(h.mem, a)
    decreases |ops|
  {
    if ops != [] {
      StepValid(h, ops[0]);
      assert Own(Step(h, ops[0]).blocks, a);
      WordKept(h, ops[0], a);
      WrittenStays(Step(h, ops[0]), ops[1..], a);
    }
  }

  // ---- Runs that go wrong ----

  const FOUR := Block(BASE, 4, false)
  const ONE := [FOUR]
  const TWO := [FOUR, Block(BASE + 24, 4, false)]

  lemma SmallBlocks()
    ensures MallocBlocks([], BASE, 4) == ONE && FirstFit([], 4, 0) == 0
    ensures MallocBlocks(ONE, BASE + 24, 4) == TWO && FirstFit(ONE, 4, 0) == 1
    ensures FreeBlocks(TWO, 1) == ONE && FreeBlocks(ONE, 0) == []
  {
    assert FirstFit(ONE, 4, 0) == FirstFit(ONE, 4, 1);
  }

  /** The first request of all: never stale. */
  lemma FirstTake(m: Memory, s: nat)
    requires s % 4 == 0 && 0 < s < 0x1000_0000
    ensures var h := TakeHeap(Empty(m), s).0;
      Valid(h) && h.blocks == [Block(BASE, s, false)] && h.brk == BASE + HEADER + s && h.lastVisited == 0 && Accepted(h, 0)
  {
    assert FirstFit([], s, 0) == 0;
    TakeValid(Empty(m), s);
  }

  function Taken(h: Heap): Heap { TakeHeap(h, 4).0 }

  lemma SecondTake(m: Memory)
    ensures var h := Taken(Taken(Empty(m)));
      Valid(h) && h.blocks == TWO && h.brk == BASE + 48 && h.lastVisited == BASE && Accepted(h, 0) && Accepted(h, 1)
  {
    var h1 := Taken(Empty(m));
    FirstTake(m, 4);
    SmallBlocks();
    TakeValid(h1, 4);
    TakeSame(h1, 4);
    assert (BASE + HEADER, 4) in Live(ONE) by { assert FOUR in ONE; }
    assert Spared(ONE, BASE + PTR);
  }

  lemma BothGiven(m: Memory)
    ensures var h2 := Taken(Taken(Empty(m)));
      var h3 := GiveHeap(h2, BASE + 44);
      var h4 := GiveHeap(h3, BASE + 20);
      && Valid(h3) && h3.blocks == ONE
      && Valid(h4) && h4.blocks == [] && h4.lastVisited == BASE && h4.brk == BASE
  {
    var h2 := Taken(Taken(Empty(m)));
    SecondTake(m);
    SmallBlocks();
    GiveReleases(h2, 1);
    AcceptedIs(h2, 1);
    GiveValid(h2, BASE + 44);
    var h3 := GiveHeap(h2, BASE + 44);
    assert (BASE + HEADER, 4) in Live(ONE) by { assert FOUR in ONE; }
    assert Spared(ONE, BASE + PTR);
    GiveReleases(h3, 0);
    AcceptedIs(h3, 0);
    GiveValid(h3, BASE + 20);
  }

  const STALE := [Take(4), Take(4), Give(BASE + 44), Give(BASE + 20), Take(4)]

  lemma RunCons(h: Heap, op: Op, rest: seq<Op>)
    ensures Run(h, [op] + rest) == Run(Step(h, op), rest)
    ensures LegalRun(h, [op] + rest) <==> Legal(h, op) && LegalRun(Step(h, op), rest)
  {
    assert ([op] + rest)[1..] == rest;
  }

  /** A legal step. */
  ghost predicate Goes(h: Heap, op: Op, h': Heap) { Legal(h, op) && h' == Step(h, op) }

  /** A run of five legal steps. */
  lemma RunFive(h0: Heap, a: Op, h1: Heap, b: Op, h2: Heap, c: Op, h3: Heap, d: Op, h4: Heap, e: Op, h5: Heap)
    requires Goes(h0, a, h1) && Goes(h1, b, h2) && Goes(h2, c, h3) && Goes(h3, d, h4) && Goes(h4, e, h5)
    ensures Run(h0, [a, b, c, d, e]) == h5 && LegalRun(h0, [a, b, c, d, e])
  {
    GoesFirst(h4, e, h5, []);
    GoesFirst(h3, d, h4, [e] + []);
    GoesFirst(h2, c, h3, [d] + ([e] + []));
    GoesFirst(h1, b, h2, [c] + ([d] + ([e] + [])));
    GoesFirst(h0, a, h1, [b] + ([c] + ([d] + ([e] + []))));
    assert [a, b, c, d, e] == [a] + ([b] + ([c] + ([d] + ([e] + []))));
  }

  lemma GoesFirst(h: Heap, op: Op, h': Heap, rest: seq<Op>)
    requires Goes(h, op, h')
    ensures Run(h, [op] + rest) == Run(h', rest) && (LegalRun(h, [op] + rest) <==> LegalRun(h', rest))
  {
    RunCons(h, op, rest);
  }

  /** Up to both blocks given back. */
  lemma StaleStarts(m: Memory) returns (h1: Heap, h2: Heap, h3: Heap, h4: Heap)
    ensures Goes(Empty(m), STALE[0], h1) && Goes(h1, STALE[1], h2) && Goes(h2, STALE[2], h3) && Goes(h3, STALE[3], h4)
    ensures Valid(h1) && Valid(h2) && Valid(h3) && Valid(h4) && h4.blocks == [] && h4.lastVisited == BASE && h4.brk == BASE
  {
    h1, h2 := StaleTakes(m);
    h3, h4 := StaleGives(m, h2);
  }

  lemma StaleTakes(m: Memory) returns (h1: Heap, h2: Heap)
    ensures Goes(Empty(m), STALE[0], h1) && Goes(h1, STALE[1], h2) && Valid(h1) && Valid(h2)
    ensures h2 == Taken(Taken(Empty(m))) && h2.blocks == TWO
  {
    assert Align4(4) == 4;
    FirstTake(m, 4);
    SecondTake(m);
    h1 := Taken(Empty(m));
    h2 := Taken(h1);
  }

  lemma StaleGives(m: Memory, h2: Heap) returns (h3: Heap, h4: Heap)
    requires h2 == Taken(Taken(Empty(m))) && h2.blocks == TWO
    ensures Goes(h2, STALE[2], h3) && Goes(h3, STALE[3], h4)
    ensures Valid(h3) && Valid(h4) && h4.blocks == [] && h4.lastVisited == BASE && h4.brk == BASE
  {
    BothGiven(m);
    h3 := GiveHeap(h2, BASE + 44);
    h4 := GiveHeap(h3, BASE + 20);
    assert TWO[1].Payload() == BASE + 44 && ONE[0].Payload() == BASE + 20;
  }

  /** The last one meets an empty list with a stale `lastVisited`. */
  lemma StaleEnds(h4: Heap) returns (h5: Heap)
    requires Valid(h4) && h4.blocks == [] && h4.lastVisited == BASE && h4.brk == BASE
    ensures Goes(h4, STALE[4], h5)
    ensures !Valid(h5) && h5.head == BASE && Word(h5.mem, BASE + NEXT) == BASE
  {
    assert Align4(4) == 4;
    assert FirstFit([], 4, 0) == 0;
    TakeValid(h4, 4);
    h5 := Taken(h4);
  }

  /** Two blocks taken, returned in reverse order, and one more taken: a legal run after which the block links to itself. */
  lemma StaleRun(m: Memory)
    ensures LegalRun(Empty(m), STALE) && !Unbroken(Empty(m), STALE)
    ensures !Valid(Run(Empty(m), STALE)) && Word(Run(Empty(m), STALE).mem, BASE + NEXT) == BASE
  {
    var h1, h2, h3, h4 := StaleStarts(m);
    var h5 := StaleEnds(h4);
    RunFive(Empty(m), STALE[0], h1, STALE[1], h2, STALE[2], h3, STALE[3], h4, STALE[4], h5);
    assert STALE == [STALE[0], STALE[1], STALE[2], STALE[3], STALE[4]];
    EmptyValid(m);
    RunValid(Empty(m), STALE);
    if AllValid(Empty(m), STALE) { AtEnd(Empty(m), STALE); }
  }

  lemma {:induction false} AtEnd(h: Heap, ops: seq<Op>)
    requires AllValid(h, ops)
    ensures Valid(Run(h, ops))
    decreases |ops|
  {
    if ops != [] { AtEnd(Step(h, ops[0]), ops[1..]); }
  }

  // Reusing a remainder: 64 bytes and 4, the first given back, then 4 and 40 taken from it.

  const WIDE := [Block(BASE, 64, false), Block(BASE + 84, 4, false)]
  const GAP := [Block(BASE, 64, true), Block(BASE + 84, 4, false)]
  const CUT := [FOUR, Block(BASE + 24, 40, true), Block(BASE + 84, 4, false)]
  const FULL := [FOUR, Block(BASE + 24, 40, false), Block(BASE + 84, 4, false)]

  /** Where the `ptr` word of the remainder will be. */
  const MARK: nat := BASE + 24 + PTR

  lemma WideBlocks()
    ensures FirstFit([], 64, 0) == 0 && MallocBlocks([], BASE, 64) == [Block(BASE, 64, false)]
    ensures FirstFit([Block(BASE, 64, false)], 4, 0) == 1 && MallocBlocks([Block(BASE, 64, false)], BASE + 84, 4) == WIDE
    ensures FreeBlocks(WIDE, 0) == GAP
    ensures FirstFit(GAP, 4, 0) == 0 && MallocBlocks(GAP, BASE + 108, 4) == CUT
    ensures FirstFit(CUT, 40, 0) == 1 && MallocBlocks(CUT, BASE + 108, 40) == FULL
  {
    var one := [Block(BASE, 64, false)];
    assert FirstFit(one, 4, 0) == FirstFit(one, 4, 1);
    assert Split(GAP, 0, 4) == [Block(BASE, 4, true), Block(BASE + 24, 40, true), Block(BASE + 84, 4, false)];
    assert FirstFit(CUT, 40, 0) == FirstFit(CUT, 40, 1);
    assert Mark(WIDE, 0) == GAP;
  }

  /** What is carried from one heap of that run to the next. */
  ghost predicate Stage(h: Heap, bs: seq<Block>, brk: nat) {
    Valid(h) && h.blocks == bs && h.brk == brk && Word(h.mem, MARK) == 0
  }

  lemma WideTaken(h: Heap)
    requires Stage(h, [], BASE) && h.lastVisited == 0
    ensures Stage(TakeHeap(h, 64).0, [Block(BASE, 64, false)], BASE + 84)
  {
    WideBlocks();
    TakeValid(h, 64);
  }

  lemma SmallTaken(h: Heap)
    requires Stage(h, [Block(BASE, 64, false)], BASE + 84)
    ensures Stage(Taken(h), WIDE, BASE + 108)
  {
    WideBlocks();
    TakeValid(h, 4);
  }

  lemma WideGiven(h: Heap)
    requires Stage(h, WIDE, BASE + 108) && Accepted(h, 0)
    ensures Stage(GiveHeap(h, BASE + 20), GAP, BASE + 108)
  {
    WideBlocks();
    GiveReleases(h, 0);
    AcceptedIs(h, 0);
    GiveValid(h, BASE + 20);
    var marked := h.mem[BASE + FREE := 1];
    FlagLinked(h.mem, WIDE, BASE + 108, 0, true);
    assert WIDE[0 := WIDE[0].(free := true)] == GAP;
    AtEnds(marked, GAP, BASE + 108, 0);
    assert FreeMem(h.mem, BASE) == marked;
  }

  lemma GapTaken(h: Heap)
    requires Stage(h, GAP, BASE + 108)
    ensures Stage(Taken(h), CUT, BASE + 108)
  {
    WideBlocks();
    TakeValid(h, 4);
    AtEnds(h.mem, GAP, BASE + 108, 0);
    SplitWords(h.mem, BASE, 4);
  }

  lemma CutTaken(h: Heap)
    requires Stage(h, CUT, BASE + 108)
    ensures Stage(TakeHeap(h, 40).0, FULL, BASE + 108) && TakeHeap(h, 40).1 == BASE + 44
  {
    WideBlocks();
    TakeValid(h, 40);
    AtEnds(h.mem, CUT, BASE + 108, 1);
  }

  const REUSE := [Take(64), Take(4), Give(BASE + 20), Take(4), Take(40)]

  /** Up to the block given back. */
  lemma ReuseStarts(m: Memory) returns (h1: Heap, h2: Heap, h3: Heap)
    requires Word(m, MARK) == 0
    ensures Goes(Empty(m), REUSE[0], h1) && Goes(h1, REUSE[1], h2) && Goes(h2, REUSE[2], h3) && Stage(h3, GAP, BASE + 108)
  {
    assert Align4(4) == 4 && Align4(64) == 64;
    FirstAccepted(m);
    h1 := TakeHeap(Empty(m), 64).0;
    h2 := Taken(h1);
    WideGiven(h2);
    assert WIDE[0].Payload() == BASE + 20;
    h3 := GiveHeap(h2, BASE + 20);
  }

  lemma ReuseEnds(h3: Heap) returns (h4: Heap, h5: Heap)
    requires Stage(h3, GAP, BASE + 108)
    ensures Goes(h3, REUSE[3], h4) && Goes(h4, REUSE[4], h5) && Stage(h5, FULL, BASE + 108)
  {
    assert Align4(4) == 4 && Align4(40) == 40;
    GapTaken(h3);
    h4 := Taken(h3);
    CutTaken(h4);
    h5 := TakeHeap(h4, 40).0;
  }

  lemma FirstAccepted(m: Memory)
    requires Word(m, MARK) == 0
    ensures var h2 := Taken(TakeHeap(Empty(m), 64).0);
      Stage(h2, WIDE, BASE + 108) && Accepted(h2, 0)
  {
    EmptyValid(m);
    FirstTake(m, 64);
    WideTaken(Empty(m));
    var h1 := TakeHeap(Empty(m), 64).0;
    SmallTaken(h1);
    TakeSame(h1, 4);
    assert (BASE + HEADER, 64) in Live(h1.blocks) by { assert h1.blocks[0] in h1.blocks; }
    assert Spared(h1.blocks, BASE + PTR);
  }

  /**
   * A legal run that breaks nothing and yet ends with a pointer malloc returned and free ignores: it sits on the
   * remainder of a split, whose `ptr` word nobody wrote.
   */
  lemma ReuseRun(m: Memory)
    requires Word(m, MARK) == 0
    ensures var h := Run(Empty(m), REUSE);
      && LegalRun(Empty(m), REUSE) && Valid(h) && h.blocks == FULL
      && Legal(h, Give(BASE + 44)) && Step(h, Give(BASE + 44)) == h
  {
    var h1, h2, h3 := ReuseStarts(m);
    var h4, h5 := ReuseEnds(h3);
    RunFive(Empty(m), REUSE[0], h1, REUSE[1], h2, REUSE[2], h3, REUSE[3], h4, REUSE[4], h5);
    assert REUSE == [REUSE[0], REUSE[1], REUSE[2], REUSE[3], REUSE[4]];
    RemainderIgnored(h5);
  }

  lemma RemainderIgnored(h: Heap)
    requires Stage(h, FULL, BASE + 108)
    ensures Legal(h, Give(BASE + 44)) && Step(h, Give(BASE + 44)) == h
  {
    AcceptedIs(h, 1);
    assert FULL[1].Payload() == BASE + 44 && !FULL[1].free;
  }

  /** A request for no bytes at the end of the heap cannot be given back either. */
  lemma NothingRun(m: Memory)
    ensures var h := Run(Empty(m), [Take(0)]);
      && LegalRun(Empty(m), [Take(0)]) && Valid(h) && h.blocks == [Block(BASE, 0, false)]
      && Legal(h, Give(BASE + HEADER)) && Step(h, Give(BASE + HEADER)) == h
  {
    var h := TakeHeap(Empty(m), 0).0;
    assert Align4(0) == 0 && FirstFit([], 0, 0) == 0;
    TakeValid(Empty(m), 0);
    RunCons(Empty(m), Take(0), []);
    assert [Take(0)] + [] == [Take(0)];
    assert h.blocks[0].Payload() == BASE + HEADER;
    AcceptedIs(h, 0);
  }
}
