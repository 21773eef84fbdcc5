/** The allocator as it runs: headers kept in the managed memory itself, and a class that rewrites them in place. */
module HeapMemory {
  import opened HeapBlocks

  /** Memory as the words at 4-aligned byte addresses; what was never written is arbitrary, here 0. */
  type Memory = map<nat, nat>

  function Word(m: Memory, a: nat): nat { if a in m then m[a] else 0 }

  // Byte offsets of the fields of a header; the payload starts at HEADER.
  const NEXT: nat := 4
  const PREV: nat := 8
  const FREE: nat := 12
  const PTR: nat := 16

  function NextAddr(bs: seq<Block>, i: nat): nat { if i + 1 < |bs| then bs[i + 1].addr else 0 }
  function PrevAddr(bs: seq<Block>, i: nat): nat { if 0 < i <= |bs| then bs[i - 1].addr else 0 }

  /** The header stored at block i's address says what block i is. */
  ghost predicate HeaderAt(m: Memory, bs: seq<Block>, i: nat)
    requires i < |bs|
  {
    var b := bs[i];
    && Word(m, b.addr) == b.size
    && Word(m, b.addr + NEXT) == NextAddr(bs, i)
    && Word(m, b.addr + PREV) == PrevAddr(bs, i)
    && Word(m, b.addr + FREE) == (if b.free then 1 else 0)
  }

  ghost predicate Linked(m: Memory, bs: seq<Block>) {
    forall i :: 0 <= i < |bs| ==> HeaderAt(m, bs, i)
  }

  /** Words the allocator must leave alone: each live payload, and the `ptr` word just below it. */
  ghost predicate Spared(bs: seq<Block>, a: nat) {
    exists r :: r in Live(bs) && r.0 <= a + 4 && a < r.0 + r.1
  }

  ghost predicate SameOn(m: Memory, m': Memory, bs: seq<Block>) {
    forall a :: Spared(bs, a) ==> Word(m', a) == Word(m, a)
  }

  lemma SpareOutside(bs: seq<Block>, brk: nat, a: nat, i: nat)
    requires Tiled(bs, brk) && i < |bs| && Spared(bs, a)
    ensures a < bs[i].addr || bs[i].addr + PTR <= a
    ensures bs[i].free ==> a < bs[i].addr || bs[i].End() <= a
    ensures a < brk
  {
    var r :| r in Live(bs) && r.0 <= a + 4 && a < r.0 + r.1;
    var k :| 0 <= k < |bs| && !bs[k].free && r == (bs[k].Payload(), bs[k].size);
    InRange(bs, brk, k);
    if k < i { Ordered(bs, brk, k, i); } else if i < k { Ordered(bs, brk, i, k); }
  }

  lemma SpareBelow(bs: seq<Block>, brk: nat, a: nat)
    requires Tiled(bs, brk) && Spared(bs, a)
    ensures BASE <= a < brk
  {
    var r :| r in Live(bs) && r.0 <= a + 4 && a < r.0 + r.1;
    var k :| 0 <= k < |bs| && !bs[k].free && r == (bs[k].Payload(), bs[k].size);
    InRange(bs, brk, k);
  }

  lemma Spaced(bs: seq<Block>, brk: nat)
    requires Tiled(bs, brk)
    ensures forall i, j :: 0 <= i < j < |bs| ==> bs[i].End() <= bs[j].addr
    ensures forall i :: 0 <= i < |bs| ==> BASE <= bs[i].addr && bs[i].End() <= brk
  {
    forall i, j | 0 <= i < j < |bs| ensures bs[i].End() <= bs[j].addr { Ordered(bs, brk, i, j); }
    forall i | 0 <= i < |bs| ensures BASE <= bs[i].addr && bs[i].End() <= brk { InRange(bs, brk, i); }
  }

  // ---- The memory after each primitive, write by write ----

  function ExtendMem(m: Memory, it: nat, s: nat, last: nat): Memory {
    var m1 := m[it := s][it + NEXT := 0][it + PREV := last][it + PTR := it + HEADER];
    var m2 := if last != 0 then m1[last + NEXT := it] else m1;
    m2[it + FREE := 0]
  }

  function SplitMem(m: Memory, block: nat, s: nat): Memory
    requires s + HEADER <= Word(m, block)
  {
    var add := block + HEADER + s;
    var m1 := m[add := Word(m, block) - s - HEADER];
    var m2 := m1[add + NEXT := Word(m1, block + NEXT)][add + PREV := block][add + FREE := 1];
    var m3 := m2[block := s][block + NEXT := add];
    var next := Word(m3, add + NEXT);
    if next != 0 then m3[next + PREV := add] else m3
  }

  function FuseMem(m: Memory, block: nat): Memory {
    var next := Word(m, block + NEXT);
    var m1 := m[block := Word(m, block) + HEADER + Word(m, next)];
    var m2 := m1[block + NEXT := Word(m1, next + NEXT)];
    var after := Word(m2, block + NEXT);
    if after != 0 then m2[after + PREV := block] else m2
  }

  /** Joining to the right neighbour, when there is one and it is free. */
  function FusionMem(m: Memory, block: nat): Memory {
    var next := Word(m, block + NEXT);
    if next != 0 && Word(m, next + FREE) != 0 then FuseMem(m, block) else m
  }

  function LeftAddr(m: Memory, block: nat): nat {
    var prev := Word(m, block + PREV);
    if prev != 0 && Word(m, prev + FREE) != 0 then prev else block
  }

  function LeftMem(m: Memory, block: nat): Memory {
    var prev := Word(m, block + PREV);
    if prev != 0 && Word(m, prev + FREE) != 0 then FusionMem(m, prev) else m
  }

  function ReleaseMem(m: Memory, block: nat): Memory {
    var prev := Word(m, block + PREV);
    if Word(m, block + NEXT) != 0 then FusionMem(m, block)
    else if prev != 0 then m[prev + NEXT := 0] else m
  }

  lemma ExtendHeader(m: Memory, bs: seq<Block>, brk: nat, s: nat, k: nat)
    requires Linked(m, bs) && Tiled(bs, brk) && k < |bs|
    ensures HeaderAt(ExtendMem(m, brk, s, PrevAddr(bs, |bs|)), bs + [Block(brk, s, false)], k)
  {
    assert HeaderAt(m, bs, k);
    InRange(bs, brk, k);
    InRange(bs, brk, |bs| - 1);
    if k < |bs| - 1 { Ordered(bs, brk, k, |bs| - 1); }
  }

  lemma ExtendLinked(m: Memory, bs: seq<Block>, brk: nat, s: nat)
    requires Linked(m, bs) && Tiled(bs, brk)
    ensures Linked(ExtendMem(m, brk, s, PrevAddr(bs, |bs|)), bs + [Block(brk, s, false)])
  {
    var m', r := ExtendMem(m, brk, s, PrevAddr(bs, |bs|)), bs + [Block(brk, s, false)];
    forall k | 0 <= k < |bs| ensures HeaderAt(m', r, k) { ExtendHeader(m, bs, brk, s, k); }
    if bs != [] { InRange(bs, brk, |bs| - 1); }
    assert HeaderAt(m', r, |bs|);
  }

  lemma ExtendSpares(m: Memory, bs: seq<Block>, brk: nat, s: nat)
    requires Tiled(bs, brk)
    ensures SameOn(m, ExtendMem(m, brk, s, PrevAddr(bs, |bs|)), bs)
  {
    forall a | Spared(bs, a) ensures Word(ExtendMem(m, brk, s, PrevAddr(bs, |bs|)), a) == Word(m, a) {
      SpareBelow(bs, brk, a);
      if bs != [] { SpareOutside(bs, brk, a, |bs| - 1); }
    }
  }

  /** What a split leaves at a word: the two headers it writes, the back link of the next block, the rest. */
  function SplitWord(m: Memory, block: nat, s: nat, a: nat): nat
    requires s + HEADER <= Word(m, block)
  {
    var add, next := block + HEADER + s, Word(m, block + NEXT);
    if a == block then s
    else if a == block + NEXT then add
    else if a == add then Word(m, block) - s - HEADER
    else if a == add + NEXT then next
    else if a == add + PREV then block
    else if a == add + FREE then 1
    else if next != 0 && a == next + PREV then add
    else Word(m, a)
  }

  lemma SplitWords(m: Memory, block: nat, s: nat)
    requires s + HEADER <= Word(m, block)
    requires var next := Word(m, block + NEXT); next == 0 || block + s + 2 * HEADER <= next
    ensures forall a :: Word(SplitMem(m, block, s), a) == SplitWord(m, block, s, a)
  {}

  lemma RemainderPtr(m: Memory, block: nat, s: nat)
    requires s + HEADER <= Word(m, block)
    requires var next := Word(m, block + NEXT); next == 0 || block + s + 2 * HEADER <= next
    ensures var add := block + HEADER + s; Word(SplitMem(m, block, s), add + PTR) == Word(m, add + PTR)
  {
    SplitWords(m, block, s);
  }

  lemma SplitBefore(m: Memory, m': Memory, bs: seq<Block>, brk: nat, i: nat, s: nat, k: nat)
    requires Linked(m, bs) && Tiled(bs, brk) && i < |bs| && s + HEADER <= bs[i].size == Word(m, bs[i].addr)
    requires forall a :: Word(m', a) == SplitWord(m, bs[i].addr, s, a)
    requires k < i
    ensures HeaderAt(m', Split(bs, i, s), k)
  {
    assert HeaderAt(m, bs, k) && HeaderAt(m, bs, i);
    Ordered(bs, brk, k, i);
    if i + 1 < |bs| { Ordered(bs, brk, k, i + 1); }
  }

  lemma SplitCut(m: Memory, m': Memory, bs: seq<Block>, brk: nat, i: nat, s: nat)
    requires Linked(m, bs) && Tiled(bs, brk) && i < |bs| && s + HEADER <= bs[i].size == Word(m, bs[i].addr)
    requires forall a :: Word(m', a) == SplitWord(m, bs[i].addr, s, a)
    ensures HeaderAt(m', Split(bs, i, s), i) && HeaderAt(m', Split(bs, i, s), i + 1)
  {
    assert HeaderAt(m, bs, i);
    InRange(bs, brk, i);
    if i > 0 { Ordered(bs, brk, i - 1, i); }
    if i + 1 < |bs| { Ordered(bs, brk, i, i + 1); }
  }

  lemma SplitBehind(m: Memory, m': Memory, bs: seq<Block>, brk: nat, i: nat, s: nat, k: nat)
    requires Linked(m, bs) && Tiled(bs, brk) && i < |bs| && s + HEADER <= bs[i].size == Word(m, bs[i].addr)
    requires forall a :: Word(m', a) == SplitWord(m, bs[i].addr, s, a)
    requires i + 1 < k <= |bs|
    ensures HeaderAt(m', Split(bs, i, s), k)
  {
    assert HeaderAt(m, bs, k - 1) && HeaderAt(m, bs, i);
    Ordered(bs, brk, i, i + 1);
    Ordered(bs, brk, i, k - 1);
    if i + 1 < k - 1 { Ordered(bs, brk, i + 1, k - 1); }
    assert Split(bs, i, s)[k] == bs[k - 1];
  }

  lemma SplitHeaders(m: Memory, m': Memory, bs: seq<Block>, brk: nat, i: nat, s: nat)
    requires Linked(m, bs) && Tiled(bs, brk) && i < |bs| && s + HEADER <= bs[i].size == Word(m, bs[i].addr)
    requires forall a :: Word(m', a) == SplitWord(m, bs[i].addr, s, a)
    ensures Linked(m', Split(bs, i, s))
  {
    forall k | 0 <= k <= |bs| ensures HeaderAt(m', Split(bs, i, s), k) {
      if k < i { SplitBefore(m, m', bs, brk, i, s, k); }
      if i <= k <= i + 1 { SplitCut(m, m', bs, brk, i, s); }
      if i + 1 < k { SplitBehind(m, m', bs, brk, i, s, k); }
    }
  }

  lemma SplitLinked(m: Memory, bs: seq<Block>, brk: nat, i: nat, s: nat)
    requires Linked(m, bs) && Tiled(bs, brk) && i < |bs| && s % 4 == 0 && s + HEADER <= bs[i].size
    ensures Word(m, bs[i].addr) == bs[i].size
    ensures Linked(SplitMem(m, bs[i].addr, s), Split(bs, i, s))
  {
    assert HeaderAt(m, bs, i);
    if i + 1 < |bs| { Ordered(bs, brk, i, i + 1); }
    SplitWords(m, bs[i].addr, s);
    SplitHeaders(m, SplitMem(m, bs[i].addr, s), bs, brk, i, s);
  }

  lemma SplitSpares(m: Memory, bs: seq<Block>, brk: nat, i: nat, s: nat)
    requires Linked(m, bs) && Tiled(bs, brk) && i < |bs| && bs[i].free && s + HEADER <= bs[i].size
    requires bs[i].size - s >= HEADER + 4 && Word(m, bs[i].addr) == bs[i].size
    ensures SameOn(m, SplitMem(m, bs[i].addr, s), bs)
  {
    assert HeaderAt(m, bs, i);
    forall a | Spared(bs, a) ensures Word(SplitMem(m, bs[i].addr, s), a) == Word(m, a) {
      SpareOutside(bs, brk, a, i);
      if i + 1 < |bs| { SpareOutside(bs, brk, a, i + 1); Ordered(bs, brk, i, i + 1); }
    }
  }

  /** What fusing leaves at a word: the grown size, the two links around the joined block, the rest. */
  function FuseWord(m: Memory, block: nat, a: nat): nat {
    var next := Word(m, block + NEXT);
    var after := Word(m, next + NEXT);
    if after != 0 && a == after + PREV then block
    else if a == block + NEXT then after
    else if a == block then Word(m, block) + HEADER + Word(m, next)
    else Word(m, a)
  }

  lemma FuseWords(m: Memory, block: nat)
    requires block + HEADER <= Word(m, block + NEXT)
    ensures forall a :: Word(FuseMem(m, block), a) == FuseWord(m, block, a)
  {}

  lemma FuseHeader(m: Memory, m': Memory, bs: seq<Block>, brk: nat, i: nat, k: nat)
    requires Linked(m, bs) && Tiled(bs, brk) && i + 1 < |bs| && k + 1 < |bs|
    requires forall a :: Word(m', a) == FuseWord(m, bs[i].addr, a)
    ensures HeaderAt(m', Fuse(bs, i), k)
  {
    var at := if k <= i then k else k + 1;
    assert HeaderAt(m, bs, i) && HeaderAt(m, bs, i + 1) && HeaderAt(m, bs, at);
    Ordered(bs, brk, i, i + 1);
    if at < i { Ordered(bs, brk, at, i); }
    if i < at { Ordered(bs, brk, i, at); }
    if i + 2 < |bs| {
      Ordered(bs, brk, i + 1, i + 2);
      if at < i + 2 { Ordered(bs, brk, at, i + 2); }
      if i + 2 < at { Ordered(bs, brk, i + 2, at); }
    }
  }

  lemma FuseLinked(m: Memory, bs: seq<Block>, brk: nat, i: nat)
    requires Linked(m, bs) && Tiled(bs, brk) && i + 1 < |bs|
    ensures Linked(FuseMem(m, bs[i].addr), Fuse(bs, i))
  {
    assert HeaderAt(m, bs, i);
    Ordered(bs, brk, i, i + 1);
    FuseWords(m, bs[i].addr);
    var m' := FuseMem(m, bs[i].addr);
    forall k | 0 <= k < |bs| - 1 ensures HeaderAt(m', Fuse(bs, i), k) {
      FuseHeader(m, m', bs, brk, i, k);
    }
  }

  lemma FuseSpares(m: Memory, bs: seq<Block>, brk: nat, i: nat)
    requires Linked(m, bs) && Tiled(bs, brk) && i + 1 < |bs|
    ensures SameOn(m, FuseMem(m, bs[i].addr), bs)
  {
    assert HeaderAt(m, bs, i) && HeaderAt(m, bs, i + 1);
    Ordered(bs, brk, i, i + 1);
    forall a | Spared(bs, a) ensures Word(FuseMem(m, bs[i].addr), a) == Word(m, a) {
      SpareOutside(bs, brk, a, i);
      if i + 2 < |bs| { SpareOutside(bs, brk, a, i + 2); Ordered(bs, brk, i + 1, i + 2); }
    }
  }

  lemma FlagLinked(m: Memory, bs: seq<Block>, brk: nat, i: nat, free: bool)
    requires Linked(m, bs) && Tiled(bs, brk) && i < |bs|
    ensures Linked(m[bs[i].addr + FREE := if free then 1 else 0], bs[i := bs[i].(free := free)])
    ensures SameOn(m, m[bs[i].addr + FREE := if free then 1 else 0], bs)
  {
    Spaced(bs, brk);
    var m', r := m[bs[i].addr + FREE := if free then 1 else 0], bs[i := bs[i].(free := free)];
    forall k | 0 <= k < |r| ensures HeaderAt(m', r, k) { assert HeaderAt(m, bs, k); }
    forall a | Spared(bs, a) ensures Word(m', a) == Word(m, a) { SpareOutside(bs, brk, a, i); }
  }

  lemma DropHeader(m: Memory, bs: seq<Block>, brk: nat, k: nat)
    requires Linked(m, bs) && Tiled(bs, brk) && k + 1 < |bs|
    ensures HeaderAt(m[bs[|bs| - 2].addr + NEXT := 0], bs[..|bs| - 1], k)
  {
    assert HeaderAt(m, bs, k);
    if k < |bs| - 2 { Ordered(bs, brk, k, |bs| - 2); }
  }

  lemma DropLinked(m: Memory, bs: seq<Block>, brk: nat)
    requires Linked(m, bs) && Tiled(bs, brk) && bs != []
    ensures
      var j := |bs| - 1;
      var m' := if j > 0 then m[bs[j - 1].addr + NEXT := 0] else m;
      Linked(m', bs[..j]) && SameOn(m, m', bs)
  {
    var j := |bs| - 1;
    if j > 0 {
      var m' := m[bs[j - 1].addr + NEXT := 0];
      forall k | 0 <= k < j ensures HeaderAt(m', bs[..j], k) { DropHeader(m, bs, brk, k); }
      forall a | Spared(bs, a) ensures Word(m', a) == Word(m, a) { SpareOutside(bs, brk, a, j - 1); }
    }
  }

  lemma AtEnds(m: Memory, bs: seq<Block>, brk: nat, j: nat)
    requires Linked(m, bs) && Tiled(bs, brk) && j < |bs|
    ensures Word(m, bs[j].addr + NEXT) == NextAddr(bs, j) && (NextAddr(bs, j) == 0 <==> j + 1 == |bs|)
    ensures Word(m, bs[j].addr + PREV) == PrevAddr(bs, j) && (PrevAddr(bs, j) == 0 <==> j == 0)
    ensures j + 1 < |bs| ==> Word(m, NextAddr(bs, j) + FREE) == if bs[j + 1].free then 1 else 0
    ensures Word(m, bs[j].addr) == bs[j].size && Word(m, bs[j].addr + FREE) == if bs[j].free then 1 else 0
    ensures BASE <= bs[j].addr
  {
    assert HeaderAt(m, bs, j);
    InRange(bs, brk, j);
    if j > 0 { InRange(bs, brk, j - 1); }
    if j + 1 < |bs| {
      assert HeaderAt(m, bs, j + 1);
      InRange(bs, brk, j + 1);
    }
  }

  lemma ReleaseLinked(m: Memory, bs: seq<Block>, brk: nat, j: nat)
    requires Linked(m, bs) && Tiled(bs, brk) && j < |bs|
    ensures Linked(ReleaseMem(m, bs[j].addr), JoinRight(bs, j))
  {
    AtEnds(m, bs, brk, j);
    if j + 1 == |bs| { DropLinked(m, bs, brk); } else if bs[j + 1].free { FuseLinked(m, bs, brk, j); }
  }

  lemma ReleaseSpares(m: Memory, bs: seq<Block>, brk: nat, j: nat)
    requires Linked(m, bs) && Tiled(bs, brk) && j < |bs|
    ensures SameOn(m, ReleaseMem(m, bs[j].addr), bs)
  {
    AtEnds(m, bs, brk, j);
    if j + 1 == |bs| { DropLinked(m, bs, brk); } else if bs[j + 1].free { FuseSpares(m, bs, brk, j); }
  }

  lemma LeftLinked(m: Memory, bs: seq<Block>, brk: nat, i: nat)
    requires Linked(m, bs) && Tiled(bs, brk) && i < |bs| && bs[i].free
    ensures Linked(LeftMem(m, bs[i].addr), JoinLeft(bs, i).0)
    ensures LeftAddr(m, bs[i].addr) == JoinLeft(bs, i).0[JoinLeft(bs, i).1].addr
  {
    AtEnds(m, bs, brk, i);
    if i > 0 {
      AtEnds(m, bs, brk, i - 1);
      assert HeaderAt(m, bs, i - 1);
      if bs[i - 1].free { FuseLinked(m, bs, brk, i - 1); }
    }
  }

  lemma LeftFuses(m: Memory, bs: seq<Block>, brk: nat, i: nat)
    requires Linked(m, bs) && Tiled(bs, brk) && i < |bs| && bs[i].free
    ensures LeftMem(m, bs[i].addr) == if i > 0 && bs[i - 1].free then FuseMem(m, bs[i - 1].addr) else m
  {
    AtEnds(m, bs, brk, i);
    if i > 0 { AtEnds(m, bs, brk, i - 1); }
  }

  lemma JoinedSpares(m: Memory, m': Memory, bs: seq<Block>, brk: nat, i: nat)
    requires Linked(m, bs) && Tiled(bs, brk) && i < |bs|
    requires m' == if i > 0 && bs[i - 1].free then FuseMem(m, bs[i - 1].addr) else m
    ensures SameOn(m, m', bs)
  {
    if i > 0 && bs[i - 1].free { FuseSpares(m, bs, brk, i - 1); }
  }

  lemma LeftSpares(m: Memory, bs: seq<Block>, brk: nat, i: nat)
    requires Linked(m, bs) && Tiled(bs, brk) && i < |bs| && bs[i].free
    ensures SameOn(m, LeftMem(m, bs[i].addr), bs)
  {
    LeftFuses(m, bs, brk, i);
    JoinedSpares(m, LeftMem(m, bs[i].addr), bs, brk, i);
  }

  lemma MarkSpares(m: Memory, bs: seq<Block>, brk: nat, i: nat)
    requires Tiled(bs, brk) && i < |bs|
    ensures SameOn(m, m[bs[i].addr + FREE := 1], Mark(bs, i))
  {
    forall k | 0 <= k < |bs| ensures Placed(Mark(bs, i), k) { assert Placed(bs, k); }
    forall a | Spared(Mark(bs, i), a) ensures Word(m[bs[i].addr + FREE := 1], a) == Word(m, a) {
      SpareOutside(Mark(bs, i), brk, a, i);
    }
  }
}

/** The kernel heap as a whole: memory words, the allocator's pointers, and the blocks they stand for. */
module HeapStates {
  import opened HeapBlocks
  import opened HeapMemory

  const WORD_LIMIT: nat := 0x1_0000_0000

  /** Rounding up to whole words, in 32-bit arithmetic. */
  function Align4(size: nat): nat { (size + 3) % WORD_LIMIT / 4 * 4 }

  /** The rounding keeps the request unless it wraps, which is exactly for the last three sizes. */
  lemma AlignKeepsRequest(size: nat)
    requires size < WORD_LIMIT
    ensures Align4(size) % 4 == 0
    ensures size <= Align4(size) <==> size <= WORD_LIMIT - 4
    ensures size <= WORD_LIMIT - 4 ==> Align4(size) < size + 4
    ensures size > WORD_LIMIT - 4 ==> Align4(size) == 0
  {
    if size > WORD_LIMIT - 4 {
      assert (size + 3) % WORD_LIMIT == size + 3 - WORD_LIMIT;
    }
  }

  /** The memory after the reuse branch of malloc. */
  function TakeMem(m: Memory, it: nat, s: nat): Memory {
    (if Word(m, it) - s >= HEADER + 4 then SplitMem(m, it, s) else m)[it + FREE := 0]
  }

  lemma SpareTwice(m: Memory, m': Memory, bs: seq<Block>, brk: nat, i: nat)
    requires Tiled(bs, brk) && i < |bs| && bs[i].free && SameOn(m, m', bs)
    ensures SameOn(m, m'[bs[i].addr + FREE := 0], bs)
  {
    forall a | Spared(bs, a) ensures Word(m'[bs[i].addr + FREE := 0], a) == Word(m, a) {
      SpareOutside(bs, brk, a, i);
    }
  }

  lemma TakeSplit(m: Memory, bs: seq<Block>, brk: nat, i: nat, s: nat)
    requires Linked(m, bs) && Tiled(bs, brk) && s % 4 == 0 && i < |bs| && bs[i].free && bs[i].size >= s + HEADER + 4
    requires Word(m, bs[i].addr) == bs[i].size
    ensures var cut := Split(bs, i, s);
      Linked(SplitMem(m, bs[i].addr, s)[bs[i].addr + FREE := 0], cut[i := cut[i].(free := false)])
  {
    SplitLinked(m, bs, brk, i, s);
    SplitTiled(bs, brk, i, s);
    FlagLinked(SplitMem(m, bs[i].addr, s), Split(bs, i, s), brk, i, false);
  }

  lemma TakeLinked(m: Memory, bs: seq<Block>, brk: nat, i: nat, s: nat)
    requires Linked(m, bs) && Tiled(bs, brk) && s % 4 == 0 && i < |bs| && i == FirstFit(bs, s, 0)
    requires Word(m, bs[i].addr) == bs[i].size
    ensures Linked(TakeMem(m, bs[i].addr, s), MallocBlocks(bs, brk, s))
  {
    if bs[i].size - s >= HEADER + 4 { TakeSplit(m, bs, brk, i, s); } else { FlagLinked(m, bs, brk, i, false); }
  }

  lemma TakeSpares(m: Memory, bs: seq<Block>, brk: nat, i: nat, s: nat)
    requires Linked(m, bs) && Tiled(bs, brk) && s % 4 == 0 && i < |bs| && bs[i].free && s <= bs[i].size
    requires Word(m, bs[i].addr) == bs[i].size
    ensures SameOn(m, TakeMem(m, bs[i].addr, s), bs)
  {
    if bs[i].size - s >= HEADER + 4 {
      SplitSpares(m, bs, brk, i, s);
      SpareTwice(m, SplitMem(m, bs[i].addr, s), bs, brk, i);
    } else {
      SpareTwice(m, m, bs, brk, i);
    }
  }

  lemma TakeOk(m: Memory, bs: seq<Block>, brk: nat, i: nat, s: nat)
    requires Linked(m, bs) && Shape(bs, brk) && s % 4 == 0 && i < |bs| && i == FirstFit(bs, s, 0)
    ensures s <= Word(m, bs[i].addr) && Shape(MallocBlocks(bs, brk, s), brk) && MallocBlocks(bs, brk, s) != []
    ensures Linked(TakeMem(m, bs[i].addr, s), MallocBlocks(bs, brk, s)) && SameOn(m, TakeMem(m, bs[i].addr, s), bs)
  {
    assert HeaderAt(m, bs, i);
    MallocShape(bs, brk, s);
    TakeLinked(m, bs, brk, i, s);
    TakeSpares(m, bs, brk, i, s);
  }

  /** What free makes of the memory, from the word it marks to the words it may release. */
  function FreeMem(m: Memory, block: nat): Memory {
    var marked := m[block + FREE := 1];
    ReleaseMem(LeftMem(marked, block), LeftAddr(marked, block))
  }

  function FreeBrk(m: Memory, block: nat, brk: nat): nat {
    var marked := m[block + FREE := 1];
    var it := LeftAddr(marked, block);
    if Word(LeftMem(marked, block), it + NEXT) == 0 then it else brk
  }

  function FreeHead(m: Memory, block: nat, head: nat): nat {
    var marked := m[block + FREE := 1];
    var m2, it := LeftMem(marked, block), LeftAddr(marked, block);
    if Word(m2, it + NEXT) == 0 && Word(m2, it + PREV) == 0 then 0 else head
  }

  lemma MarkTiled(bs: seq<Block>, brk: nat, i: nat)
    requires Tiled(bs, brk) && i < |bs|
    ensures Tiled(Mark(bs, i), brk)
  {
    forall k | 0 <= k < |bs| ensures Placed(Mark(bs, i), k) { assert Placed(bs, k); }
  }

  /** After marking and joining to the left: still linked and tiled, with the walk at the joined block. */
  lemma FreeJoined(m: Memory, bs: seq<Block>, brk: nat, i: nat)
    requires Linked(m, bs) && Shape(bs, brk) && i < |bs|
    ensures
      var m1, a := m[bs[i].addr + FREE := 1], bs[i].addr;
      var (joined, j) := JoinLeft(Mark(bs, i), i);
      Tiled(joined, brk) && Linked(LeftMem(m1, a), joined) && LeftAddr(m1, a) == joined[j].addr
  {
    MarkTiled(bs, brk, i);
    MarkJoinLeft(bs, brk, i);
    FlagLinked(m, bs, brk, i, true);
    LeftLinked(m[bs[i].addr + FREE := 1], Mark(bs, i), brk, i);
  }

  lemma FreeLinked(m: Memory, bs: seq<Block>, brk: nat, i: nat)
    requires Linked(m, bs) && Shape(bs, brk) && i < |bs|
    ensures Linked(FreeMem(m, bs[i].addr), FreeBlocks(bs, i))
  {
    var (joined, j) := JoinLeft(Mark(bs, i), i);
    FreeJoined(m, bs, brk, i);
    ReleaseLinked(LeftMem(m[bs[i].addr + FREE := 1], bs[i].addr), joined, brk, j);
  }

  lemma FreeSpares(m: Memory, bs: seq<Block>, brk: nat, i: nat)
    requires Linked(m, bs) && Shape(bs, brk) && i < |bs|
    ensures SameOn(m, FreeMem(m, bs[i].addr), FreeBlocks(bs, i))
  {
    var marked := Mark(bs, i);
    var (joined, j) := JoinLeft(marked, i);
    var m1 := m[bs[i].addr + FREE := 1];
    var m2 := LeftMem(m1, bs[i].addr);
    MarkTiled(bs, brk, i);
    FlagLinked(m, bs, brk, i, true);
    MarkSpares(m, bs, brk, i);
    FreeJoined(m, bs, brk, i);
    LeftSpares(m1, marked, brk, i);
    ReleaseSpares(m2, joined, brk, j);
    JoinLive(marked, i);
    JoinLive(joined, j);
    assert forall a :: Spared(FreeBlocks(bs, i), a) ==> Spared(joined, a) && Spared(marked, a);
  }

  /** The break and the head after free, as the words it reads at the end tell them. */
  lemma FreeEnds(m: Memory, bs: seq<Block>, brk: nat, i: nat)
    requires Linked(m, bs) && Shape(bs, brk) && i < |bs|
    ensures BrkOf(FreeBlocks(bs, i)) == FreeBrk(m, bs[i].addr, brk) <= brk
    ensures FreeHead(m, bs[i].addr, BASE) == if FreeBlocks(bs, i) == [] then 0 else BASE
  {
    var (joined, j) := JoinLeft(Mark(bs, i), i);
    FreeJoined(m, bs, brk, i);
    AtEnds(LeftMem(m[bs[i].addr + FREE := 1], bs[i].addr), joined, brk, j);
    JoinRightEnds(joined, brk, j);
  }

  lemma FreeWhole(m: Memory, bs: seq<Block>, brk: nat, i: nat, m': Memory, brk': nat, head': nat)
    requires Linked(m, bs) && Shape(bs, brk) && i < |bs| && m' == FreeMem(m, bs[i].addr)
    requires brk' == FreeBrk(m, bs[i].addr, brk) && head' == FreeHead(m, bs[i].addr, BASE)
    ensures Linked(m', FreeBlocks(bs, i)) && Shape(FreeBlocks(bs, i), brk') && brk' <= brk
    ensures head' == if FreeBlocks(bs, i) == [] then 0 else BASE
    ensures SameOn(m, m', FreeBlocks(bs, i))
  {
    FreeShape(bs, brk, i);
    FreeLinked(m, bs, brk, i);
    FreeSpares(m, bs, brk, i);
    FreeEnds(m, bs, brk, i);
  }

  // ---- The heap and its two operations ----

  datatype Heap = Heap(mem: Memory, head: nat, lastVisited: nat, brk: nat, blocks: seq<Block>)

  ghost predicate Valid(h: Heap) {
    && Shape(h.blocks, h.brk) && Linked(h.mem, h.blocks) && h.brk < WORD_LIMIT
    && h.head == if h.blocks == [] then 0 else BASE
  }

  /** The address check of free. */
  predicate ValidAddr(h: Heap, p: nat) {
    h.head != 0 && h.head < p < h.brk && p >= HEADER && p == Word(h.mem, p - HEADER + PTR)
  }

  /** Where a walk that stops at block i leaves `last_visited`. */
  function WalkEnd(bs: seq<Block>, i: nat): nat { if 0 < i <= |bs| then bs[i - 1].addr else BASE }

  /** The break moves in 32 bits. */
  function Extend(h: Heap, s: nat, last: nat): Heap {
    Heap(ExtendMem(h.mem, h.brk, s, last), if h.head == 0 then h.brk else h.head, last,
         (h.brk + HEADER + s) % WORD_LIMIT, h.blocks + [Block(h.brk, s, false)])
  }

  function TakeHeap(h: Heap, s: nat): (Heap, nat) {
    var i := FirstFit(h.blocks, s, 0);
    if h.head == 0 then (Extend(h, s, h.lastVisited), h.brk + HEADER)
    else if i == |h.blocks| then (Extend(h, s, WalkEnd(h.blocks, i)), h.brk + HEADER)
    else (h.(mem := TakeMem(h.mem, h.blocks[i].addr, s), lastVisited := WalkEnd(h.blocks, i),
             blocks := MallocBlocks(h.blocks, h.brk, s)), h.blocks[i].Payload())
  }

  /** The block whose payload is at p, busy or free; |bs| when there is none. */
  function BlockAt(bs: seq<Block>, p: nat): (i: nat)
    ensures i <= |bs| && (i < |bs| ==> bs[i].Payload() == p)
    ensures forall k :: 0 <= k < i ==> bs[k].Payload() != p
  {
    if bs == [] || bs[0].Payload() == p then 0 else 1 + BlockAt(bs[1..], p)
  }

  /** The blocks after free: a pointer that names none leaves the list as it is. */
  function Given(bs: seq<Block>, p: nat): seq<Block> {
    var i := BlockAt(bs, p);
    if i < |bs| then FreeBlocks(bs, i) else bs
  }

  function GiveHeap(h: Heap, p: nat): Heap {
    if !ValidAddr(h, p) then h
    else
      var block := p - HEADER;
      Heap(FreeMem(h.mem, block), FreeHead(h.mem, block, h.head), h.lastVisited, FreeBrk(h.mem, block, h.brk), Given(h.blocks, p))
  }

  // ---- What they keep ----

  /** No block fits. */
  predicate Extends(h: Heap, s: nat) { FirstFit(h.blocks, s, 0) == |h.blocks| }

  /** An allocation breaks the heap when it extends it past 32 bits, or empties out onto a stale `last_visited`. */
  predicate Breaks(h: Heap, s: nat) {
    Extends(h, s) && (h.brk + HEADER + s >= WORD_LIMIT || (h.head == 0 && h.lastVisited != 0))
  }

  lemma WalkIsPrev(h: Heap)
    requires Valid(h) && h.head != 0
    ensures WalkEnd(h.blocks, |h.blocks|) == PrevAddr(h.blocks, |h.blocks|)
  {}

  lemma ExtendValid(h: Heap, s: nat)
    requires Valid(h) && s % 4 == 0 && Extends(h, s)
    ensures Valid(TakeHeap(h, s).0) <==> !Breaks(h, s)
  {
    var last := if h.head == 0 then h.lastVisited else WalkEnd(h.blocks, |h.blocks|);
    var h' := TakeHeap(h, s).0;
    assert h' == Extend(h, s, last);
    MallocShape(h.blocks, h.brk, s);
    if h.head == 0 && h.lastVisited != 0 {
      assert !HeaderAt(h'.mem, h'.blocks, 0);
    } else {
      ExtendLinked(h.mem, h.blocks, h.brk, s);
    }
  }

  /** malloc keeps the heap valid exactly when it does not break it: both causes can be told beforehand. */
  lemma TakeValid(h: Heap, s: nat)
    requires Valid(h) && s % 4 == 0
    ensures Valid(TakeHeap(h, s).0) <==> !Breaks(h, s)
  {
    var i := FirstFit(h.blocks, s, 0);
    if i == |h.blocks| { ExtendValid(h, s); } else { TakeOk(h.mem, h.blocks, h.brk, i, s); }
  }

  lemma TakeBlocks(h: Heap, s: nat)
    requires Valid(h)
    ensures var (h', p) := TakeHeap(h, s);
      h'.blocks == MallocBlocks(h.blocks, h.brk, s) && p == h'.blocks[MallocIndex(h.blocks, s)].Payload()
  {}

  /** malloc writes no word of a live payload, nor the `ptr` word below it. */
  lemma TakeSame(h: Heap, s: nat)
    requires Valid(h) && s % 4 == 0
    ensures SameOn(h.mem, TakeHeap(h, s).0.mem, h.blocks)
  {
    var i := FirstFit(h.blocks, s, 0);
    if h.head != 0 {
      if i == |h.blocks| {
        WalkIsPrev(h);
        ExtendSpares(h.mem, h.blocks, h.brk, s);
      } else {
        TakeOk(h.mem, h.blocks, h.brk, i, s);
      }
    }
  }

  lemma TakeMemWord(m: Memory, bs: seq<Block>, brk: nat, i: nat, s: nat, a: nat)
    requires Linked(m, bs) && Tiled(bs, brk) && i < |bs| && s <= bs[i].size && a == bs[i].addr + PTR
    ensures Word(TakeMem(m, bs[i].addr, s), a) == Word(m, a)
  {
    AtEnds(m, bs, brk, i);
    if i + 1 < |bs| { Ordered(bs, brk, i, i + 1); }
    if Word(m, bs[i].addr) - s >= HEADER + 4 { SplitWords(m, bs[i].addr, s); }
  }

  /** Told beforehand: a new block that is not empty, or a free one whose `ptr` word is right already. */
  predicate WillAccept(h: Heap, s: nat) {
    var i := FirstFit(h.blocks, s, 0);
    if i == |h.blocks| then s > 0 else Word(h.mem, h.blocks[i].addr + PTR) == h.blocks[i].Payload()
  }

  /** Whether free will take the pointer malloc returns. */
  lemma TakeAccepts(h: Heap, s: nat)
    requires Valid(h) && s % 4 == 0 && !Breaks(h, s)
    ensures var (h', p) := TakeHeap(h, s); ValidAddr(h', p) <==> WillAccept(h, s)
  {
    var i := FirstFit(h.blocks, s, 0);
    if i < |h.blocks| {
      Ordered(h.blocks, h.brk, i, |h.blocks| - 1);
      TakeMemWord(h.mem, h.blocks, h.brk, i, s, h.blocks[i].addr + PTR);
    } else {
      AboveBrk(h);
    }
  }

  /** A split writes no `ptr` for the remainder: free will take its pointer only if the old payload held it there by chance. */
  lemma RemainderAccepted(h: Heap, s: nat)
    requires Valid(h) && s % 4 == 0 && !Extends(h, s)
    requires h.blocks[FirstFit(h.blocks, s, 0)].size >= s + HEADER + 4
    ensures var i, h' := FirstFit(h.blocks, s, 0), TakeHeap(h, s).0;
      && i + 1 < |h'.blocks| && h'.blocks[i + 1].addr == h.blocks[i].addr + HEADER + s && h'.blocks[i + 1].free
      && (Accepted(h', i + 1) <==>
            Word(h.mem, h'.blocks[i + 1].addr + PTR) == h'.blocks[i + 1].Payload()
            && !(i + 2 == |h'.blocks| && h'.blocks[i + 1].size == 0))
  {
    var i := FirstFit(h.blocks, s, 0);
    AtEnds(h.mem, h.blocks, h.brk, i);
    if i + 1 < |h.blocks| { Ordered(h.blocks, h.brk, i, i + 1); }
    RemainderCut(h, s, i);
    RemainderWord(h.mem, h.blocks[i].addr, s, h.blocks[i].size);
  }

  lemma RemainderCut(h: Heap, s: nat, i: nat)
    requires h.head != 0 && i == FirstFit(h.blocks, s, 0) < |h.blocks| && h.blocks[i].size >= s + HEADER + 4
    ensures var blocks := TakeHeap(h, s).0.blocks;
      |blocks| == |h.blocks| + 1
      && blocks[i + 1] == Block(h.blocks[i].addr + HEADER + s, h.blocks[i].size - s - HEADER, true)
  {
    var cut := Split(h.blocks, i, s);
    assert cut[i + 1] == Block(h.blocks[i].addr + HEADER + s, h.blocks[i].size - s - HEADER, true);
  }

  lemma RemainderWord(m: Memory, block: nat, s: nat, size: nat)
    requires Word(m, block) == size && s + HEADER + 4 <= size
    requires var next := Word(m, block + NEXT); next == 0 || block + s + 2 * HEADER <= next
    ensures Word(TakeMem(m, block, s), block + HEADER + s + PTR) == Word(m, block + HEADER + s + PTR)
  {
    RemainderPtr(m, block, s);
  }

  lemma AboveBrk(h: Heap)
    requires Valid(h)
    ensures h.brk >= BASE && (h.head != 0 ==> WalkEnd(h.blocks, |h.blocks|) < h.brk)
  {
    if h.blocks != [] { InRange(h.blocks, h.brk, |h.blocks| - 1); }
  }

  lemma GiveValid(h: Heap, p: nat)
    requires Valid(h) && (ValidAddr(h, p) ==> BlockAt(h.blocks, p) < |h.blocks|)
    ensures var h' := GiveHeap(h, p);
      Valid(h') && h'.brk <= h.brk && SameOn(h.mem, h'.mem, h'.blocks)
  {
    if ValidAddr(h, p) {
      var i, h' := BlockAt(h.blocks, p), GiveHeap(h, p);
      FreeWhole(h.mem, h.blocks, h.brk, i, h'.mem, h'.brk, h'.head);
    }
  }

  /** What free asks of the pointer to block i: its `ptr` word names it, and it is not an empty block at the very end. */
  predicate Accepted(h: Heap, i: nat)
    requires i < |h.blocks|
  {
    var b := h.blocks[i];
    Word(h.mem, b.addr + PTR) == b.Payload() && !(i == |h.blocks| - 1 && b.size == 0)
  }

  lemma AcceptedIs(h: Heap, i: nat)
    requires Valid(h) && i < |h.blocks|
    ensures BlockAt(h.blocks, h.blocks[i].Payload()) == i
    ensures ValidAddr(h, h.blocks[i].Payload()) <==> Accepted(h, i)
  {
    AddressUnique(h.blocks, h.brk, i);
    InRange(h.blocks, h.brk, i);
    if i < |h.blocks| - 1 { Ordered(h.blocks, h.brk, i, |h.blocks| - 1); }
  }

  /** A live pointer is given back exactly when its `ptr` word still names it; else free does nothing at all. */
  lemma GiveReleases(h: Heap, i: nat)
    requires Valid(h) && i < |h.blocks| && !h.blocks[i].free
    ensures var b, h' := h.blocks[i], GiveHeap(h, h.blocks[i].Payload());
      if Accepted(h, i) then h'.blocks == FreeBlocks(h.blocks, i) && Live(h'.blocks) == Live(h.blocks) - {(b.Payload(), b.size)}
      else h' == h
  {
    AcceptedIs(h, i);
    FreeLive(h.blocks, h.brk, i);
  }

  /** Freeing what malloc just returned restores the block list if and only if the returned pointer is accepted. */
  lemma TakeGive(h: Heap, s: nat)
    requires Valid(h) && s % 4 == 0 && !Breaks(h, s)
    ensures var (h', p) := TakeHeap(h, s);
      && (GiveHeap(h', p).blocks == h.blocks <==> ValidAddr(h', p))
      && (!ValidAddr(h', p) ==> GiveHeap(h', p) == h')
  {
    var (h', p) := TakeHeap(h, s);
    var i := MallocIndex(h.blocks, s);
    TakeValid(h, s);
    TakeBlocks(h, s);
    MallocLive(h.blocks, h.brk, s);
    FreeUndoesMalloc(h.blocks, h.brk, s);
    AcceptedIs(h', i);
  }
}

/** The allocator as an object, its methods proved to do what the two operations on heaps say. */
module KernelHeap {
  import opened HeapBlocks
  import opened HeapMemory
  import opened HeapStates
  import HeapRuns

  class FreeList {
    var mem: Memory
    var head: nat
    var lastVisited: nat
    var heapPtr: nat
    ghost var blocks: seq<Block>

    ghost function H(): Heap
      reads this
    {
      Heap(mem, head, lastVisited, heapPtr, blocks)
    }

    ghost predicate Valid()
      reads this
    {
      HeapStates.Valid(H())
    }

    /** The heap starts empty at BASE over memory of any content. */
    constructor (mem: Memory)
      ensures H() == Heap(mem, 0, 0, BASE, []) && Valid()
    {
      this.mem := mem;
      head, lastVisited, heapPtr := 0, 0, BASE;
      blocks := [];
    }

    method FindBlock(s: nat) returns (it: nat)
      requires Valid() && head != 0 && lastVisited == head
      modifies `lastVisited
      ensures var i := FirstFit(blocks, s, 0); it == if i == |blocks| then 0 else blocks[i].addr
      ensures it != 0 <==> FirstFit(blocks, s, 0) < |blocks|
      ensures lastVisited == WalkEnd(blocks, FirstFit(blocks, s, 0))
    {
      it := head;
      ghost var i := 0;
      assert Placed(blocks, 0);
      AtEnds(mem, blocks, heapPtr, 0);
      while it != 0 && !(Word(mem, it + FREE) != 0 && Word(mem, it) >= s)
        invariant 0 <= i <= |blocks|
        invariant it == if i == |blocks| then 0 else blocks[i].addr
        invariant FirstFit(blocks, s, 0) == FirstFit(blocks, s, i)
        invariant lastVisited == WalkEnd(blocks, i)
        decreases |blocks| - i
      {
        AtEnds(mem, blocks, heapPtr, i);
        lastVisited := it;
        it := Word(mem, it + NEXT);
        i := i + 1;
      }
      if i < |blocks| { AtEnds(mem, blocks, heapPtr, i); }
    }

    method ExtendHeap(s: nat) returns (it: nat)
      modifies `mem, `heapPtr
      ensures it == old(heapPtr) && heapPtr == (it + HEADER + s) % WORD_LIMIT
      ensures mem == ExtendMem(old(mem), it, s, lastVisited)
    {
      it := heapPtr;
      heapPtr := (heapPtr + HEADER + s) % WORD_LIMIT;
      mem := mem[it := s];
      mem := mem[it + NEXT := 0];
      mem := mem[it + PREV := lastVisited];
      mem := mem[it + PTR := it + HEADER];
      if lastVisited != 0 { mem := mem[lastVisited + NEXT := it]; }
      mem := mem[it + FREE := 0];
    }

    method SplitBlock(block: nat, s: nat)
      requires s + HEADER <= Word(mem, block)
      modifies `mem
      ensures mem == SplitMem(old(mem), block, s)
    {
      var add := block + HEADER + s;
      mem := mem[add := Word(mem, block) - s - HEADER];
      mem := mem[add + NEXT := Word(mem, block + NEXT)];
      mem := mem[add + PREV := block];
      mem := mem[add + FREE := 1];
      mem := mem[block := s];
      mem := mem[block + NEXT := add];
      var next := Word(mem, add + NEXT);
      if next != 0 { mem := mem[next + PREV := add]; }
    }

    /** Joins a block to its right neighbour when there is one and it is free. */
    method Fusion(block: nat)
      modifies `mem
      ensures mem == FusionMem(old(mem), block)
    {
      var next := Word(mem, block + NEXT);
      if next != 0 && Word(mem, next + FREE) != 0 {
        mem := mem[block := Word(mem, block) + HEADER + Word(mem, next)];
        mem := mem[block + NEXT := Word(mem, next + NEXT)];
        var after := Word(mem, block + NEXT);
        if after != 0 { mem := mem[after + PREV := block]; }
      }
    }

    /** First-fit allocation. Whether the heap survives, and whether free will take the pointer, can be told beforehand. */
    method Malloc(size: nat) returns (p: nat)
      requires Valid() && size < WORD_LIMIT
      modifies this
      ensures (H(), p) == TakeHeap(old(H()), Align4(size))
      ensures Valid() <==> !Breaks(old(H()), Align4(size))
      ensures Valid() ==> (ValidAddr(H(), p) <==> WillAccept(old(H()), Align4(size)))
      ensures SameOn(old(mem), mem, old(blocks))
    {
      var s := Align4(size);
      TakeValid(H(), s);
      TakeSame(H(), s);
      if !Breaks(H(), s) { TakeAccepts(H(), s); }
      if head != 0 { p := MallocIn(s); } else { p := MallocFirst(s); }
    }

    method MallocIn(s: nat) returns (p: nat)
      requires Valid() && head != 0 && s % 4 == 0
      modifies this
      ensures (H(), p) == TakeHeap(old(H()), s)
    {
      ghost var i := FirstFit(blocks, s, 0);
      lastVisited := head;
      var it := FindBlock(s);
      if it != 0 {
        TakeOk(mem, blocks, heapPtr, i, s);
        CutAndMark(it, s);
        blocks := MallocBlocks(blocks, heapPtr, s);
      } else {
        it := ExtendHeap(s);
        blocks := blocks + [Block(it, s, false)];
      }
      p := it + HEADER;
    }

    method MallocFirst(s: nat) returns (p: nat)
      requires head == 0
      modifies this
      ensures (H(), p) == TakeHeap(old(H()), s)
    {
      var it := ExtendHeap(s);
      blocks := blocks + [Block(it, s, false)];
      head := it;
      p := it + HEADER;
    }

    method CutAndMark(it: nat, s: nat)
      requires s <= Word(mem, it)
      modifies `mem
      ensures mem == TakeMem(old(mem), it, s)
    {
      if Word(mem, it) - s >= HEADER + 4 { SplitBlock(it, s); }
      mem := mem[it + FREE := 0];
    }

    /** free, for every pointer: turned away untouched, or given back; a pointer to a block keeps the heap valid. */
    method Free(p: nat)
      requires Valid()
      modifies this
      ensures H() == GiveHeap(old(H()), p)
      ensures !ValidAddr(old(H()), p) || BlockAt(old(blocks), p) < |old(blocks)| ==> Valid() && SameOn(old(mem), mem, blocks)
    {
      if !ValidAddr(H(), p) || BlockAt(blocks, p) < |blocks| { GiveValid(H(), p); }
      Give(p);
    }

    method Give(p: nat)
      requires head == 0 || head >= HEADER
      modifies this
      ensures H() == GiveHeap(old(H()), p)
    {
      if head != 0 && p > head && p < heapPtr && p == Word(mem, p - HEADER + PTR) {
        Unlink(p - HEADER);
        blocks := Given(blocks, p);
      }
    }

    method Unlink(block: nat)
      modifies `mem, `head, `heapPtr
      ensures mem == FreeMem(old(mem), block)
      ensures heapPtr == FreeBrk(old(mem), block, old(heapPtr)) && head == FreeHead(old(mem), block, old(head))
    {
      mem := mem[block + FREE := 1];
      var it := FuseLeft(block);
      Release(it);
    }

    method FuseLeft(block: nat) returns (it: nat)
      modifies `mem
      ensures mem == LeftMem(old(mem), block) && it == LeftAddr(old(mem), block)
    {
      it := block;
      var prev := Word(mem, block + PREV);
      if prev != 0 && Word(mem, prev + FREE) != 0 {
        Fusion(prev);
        it := prev;
      }
    }

    method Release(it: nat)
      modifies `mem, `head, `heapPtr
      ensures mem == ReleaseMem(old(mem), it)
      ensures
        var last := Word(old(mem), it + NEXT) == 0;
        && heapPtr == (if last then it else old(heapPtr))
        && head == (if last && Word(old(mem), it + PREV) == 0 then 0 else old(head))
    {
      if Word(mem, it + NEXT) != 0 {
        Fusion(it);
      } else {
        var prev := Word(mem, it + PREV);
        if prev != 0 { mem := mem[prev + NEXT := 0]; } else { head := 0; }
        heapPtr := it;
      }
    }
  }

  /** The run of the two blocks on the object itself: the next block links to itself. */
  method StaleLastVisited(m: Memory) returns (heap: FreeList)
    ensures heap.head == BASE && Word(heap.mem, BASE + NEXT) == BASE && !heap.Valid()
  {
    heap := new FreeList(m);
    ghost var h1, h2, h3, h4 := HeapRuns.StaleStarts(m);
    ghost var h5 := HeapRuns.StaleEnds(h4);
    assert Align4(4) == 4;
    var a := heap.Malloc(4);
    assert heap.H() == h1;
    var b := heap.Malloc(4);
    assert heap.H() == h2;
    heap.Free(BASE + 44);
    assert heap.H() == h3;
    heap.Free(BASE + 20);
    assert heap.H() == h4;
    var c := heap.Malloc(4);
    assert heap.H() == h5;
  }
}
