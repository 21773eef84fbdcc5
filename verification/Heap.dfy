/** The block list of the kernel heap: what malloc and free do to it, and why its shape survives. */
module HeapBlocks {

  const HEADER: nat := 20
  const BASE: nat := 0xC000_0000

  datatype Block = Block(addr: nat, size: nat, free: bool) {
    function Payload(): nat { addr + HEADER }
    function End(): nat { addr + HEADER + size }
  }

  // ---- Shape ----

  function BrkOf(bs: seq<Block>): nat {
    if bs == [] then BASE else bs[|bs| - 1].End()
  }

  /** Block i is a whole number of words and begins where the one before it ends. */
  ghost predicate Placed(bs: seq<Block>, i: nat)
    requires i < |bs|
  {
    bs[i].size % 4 == 0 && bs[i].addr == if i == 0 then BASE else bs[i - 1].End()
  }

  /** The blocks cover [BASE, brk) without gaps, each a header and a payload of whole words. */
  ghost predicate Tiled(bs: seq<Block>, brk: nat) {
    (forall i :: 0 <= i < |bs| ==> Placed(bs, i)) && brk == BrkOf(bs)
  }

  ghost predicate NoFreePair(bs: seq<Block>) {
    forall i :: 0 < i < |bs| ==> !bs[i - 1].free || !bs[i].free
  }

  ghost predicate LastBusy(bs: seq<Block>) {
    bs != [] ==> !bs[|bs| - 1].free
  }

  ghost predicate Shape(bs: seq<Block>, brk: nat) {
    Tiled(bs, brk) && NoFreePair(bs) && LastBusy(bs)
  }

  /** The address ranges handed out and not yet taken back. */
  function Live(bs: seq<Block>): set<(nat, nat)> {
    set b <- bs | !b.free :: (b.Payload(), b.size)
  }

  lemma {:induction false} Ordered(bs: seq<Block>, brk: nat, i: nat, j: nat)
    requires Tiled(bs, brk) && i < j < |bs|
    ensures bs[i].End() <= bs[j].addr
    ensures BASE <= bs[i].addr && bs[j].End() <= brk
    decreases j - i, |bs| - j
  {
    InRange(bs, brk, i);
    InRange(bs, brk, j);
    assert Placed(bs, j);
    if i + 1 < j {
      Ordered(bs, brk, i, j - 1);
    }
  }

  lemma {:induction false} InRange(bs: seq<Block>, brk: nat, i: nat)
    requires Tiled(bs, brk) && i < |bs|
    ensures BASE <= bs[i].addr && bs[i].addr % 4 == 0 && bs[i].End() <= brk
    ensures bs[i].End() % 4 == 0
  {
    assert Placed(bs, i);
    AboveBase(bs, brk, i);
    BelowBrk(bs, brk, i);
  }

  lemma {:induction false} AboveBase(bs: seq<Block>, brk: nat, i: nat)
    requires Tiled(bs, brk) && i < |bs|
    ensures BASE <= bs[i].addr && bs[i].addr % 4 == 0
  {
    assert Placed(bs, i);
    if i > 0 { AboveBase(bs, brk, i - 1); assert Placed(bs, i - 1); }
  }

  lemma {:induction false} BelowBrk(bs: seq<Block>, brk: nat, i: nat)
    requires Tiled(bs, brk) && i < |bs|
    ensures bs[i].End() <= brk
    decreases |bs| - i
  {
    if i + 1 < |bs| {
      BelowBrk(bs, brk, i + 1);
      assert Placed(bs, i + 1);
    }
  }

  /** No byte belongs to two blocks: headers and payloads are pairwise disjoint. */
  lemma PayloadsDisjoint(bs: seq<Block>, brk: nat, i: nat, j: nat)
    requires Tiled(bs, brk) && i < |bs| && j < |bs| && i != j
    ensures bs[i].End() <= bs[j].addr || bs[j].End() <= bs[i].addr
    ensures bs[i].Payload() % 4 == 0
  {
    InRange(bs, brk, i);
    if i < j { Ordered(bs, brk, i, j); } else { Ordered(bs, brk, j, i); }
  }

  // ---- malloc ----

  /** First fit: the first free block, from index `from`, that holds s bytes; |bs| when there is none. */
  function FirstFit(bs: seq<Block>, s: nat, from: nat): (i: nat)
    requires from <= |bs|
    ensures from <= i <= |bs|
    ensures i < |bs| ==> bs[i].free && s <= bs[i].size
    ensures forall k :: from <= k < i ==> !(bs[k].free && s <= bs[k].size)
    decreases |bs| - from
  {
    if from == |bs| || (bs[from].free && s <= bs[from].size) then from else FirstFit(bs, s, from + 1)
  }

  function Split(bs: seq<Block>, i: nat, s: nat): seq<Block>
    requires i < |bs| && s + HEADER <= bs[i].size
  {
    var b := bs[i];
    bs[..i] + [Block(b.addr, s, b.free), Block(b.addr + HEADER + s, b.size - s - HEADER, true)] + bs[i + 1..]
  }

  function MallocBlocks(bs: seq<Block>, brk: nat, s: nat): seq<Block> {
    var i := FirstFit(bs, s, 0);
    if i == |bs| then bs + [Block(brk, s, false)]
    else
      var cut := if bs[i].size - s >= HEADER + 4 then Split(bs, i, s) else bs;
      cut[i := cut[i].(free := false)]
  }

  function MallocIndex(bs: seq<Block>, s: nat): nat { FirstFit(bs, s, 0) }

  function MallocBrk(bs: seq<Block>, brk: nat, s: nat): nat {
    if FirstFit(bs, s, 0) == |bs| then brk + HEADER + s else brk
  }

  lemma MallocShape(bs: seq<Block>, brk: nat, s: nat)
    requires Shape(bs, brk) && s % 4 == 0
    ensures Shape(MallocBlocks(bs, brk, s), MallocBrk(bs, brk, s))
  {
    var i := FirstFit(bs, s, 0);
    var r := MallocBlocks(bs, brk, s);
    if i < |bs| && bs[i].size - s >= HEADER + 4 {
      SplitTiled(bs, brk, i, s);
      var cut := Split(bs, i, s);
      forall k | 0 <= k < |r| ensures Placed(r, k) { assert Placed(cut, k); }
      forall k | 0 < k < |r| ensures !r[k - 1].free || !r[k].free {
        if k > i + 1 { assert r[k] == bs[k - 1]; }
      }
    } else {
      forall k | 0 <= k < |r| ensures Placed(r, k) { if k < |bs| { assert Placed(bs, k); } }
    }
  }

  lemma SplitTiled(bs: seq<Block>, brk: nat, i: nat, s: nat)
    requires Tiled(bs, brk) && s % 4 == 0 && i < |bs| && s + HEADER <= bs[i].size
    ensures Tiled(Split(bs, i, s), brk)
  {
    var r := Split(bs, i, s);
    assert Placed(bs, i);
    forall k | 0 <= k < |r| ensures Placed(r, k) { assert Placed(bs, if k <= i then k else k - 1); }
    if i + 1 < |bs| { assert r[|r| - 1] == bs[|bs| - 1]; } else { assert r[|r| - 1] == r[i + 1]; }
  }

  lemma LiveConcat(a: seq<Block>, b: seq<Block>)
    ensures Live(a + b) == Live(a) + Live(b)
  {
    assert forall x :: x in a + b <==> x in a || x in b;
  }

  /** Replacing block i by `mid` replaces its share of the live ranges. */
  lemma LiveAround(pre: seq<Block>, mid: seq<Block>, post: seq<Block>)
    ensures Live(pre + mid + post) == Live(pre) + Live(mid) + Live(post)
  {
    LiveConcat(pre + mid, post);
    LiveConcat(pre, mid);
  }

  lemma NotLive(bs: seq<Block>, brk: nat, i: nat)
    requires Tiled(bs, brk) && i < |bs|
    ensures forall n :: (bs[i].Payload(), n) !in Live(bs[..i]) && (bs[i].Payload(), n) !in Live(bs[i + 1..])
  {
    AddressUnique(bs, brk, i);
  }

  lemma AddressUnique(bs: seq<Block>, brk: nat, i: nat)
    requires Tiled(bs, brk) && i < |bs|
    ensures forall k :: 0 <= k < |bs| && k != i ==> bs[k].addr != bs[i].addr
  {
    forall k | 0 <= k < |bs| && k != i ensures bs[k].addr != bs[i].addr {
      PayloadsDisjoint(bs, brk, i, k);
    }
  }

  lemma ReuseLive(bs: seq<Block>, i: nat, got: Block, rest: seq<Block>)
    requires i < |bs| && bs[i].free && !got.free && (forall b :: b in rest ==> b.free)
    ensures Live(bs[..i] + ([got] + rest) + bs[i + 1..]) == Live(bs) + {(got.Payload(), got.size)}
  {
    assert bs == bs[..i] + [bs[i]] + bs[i + 1..];
    LiveAround(bs[..i], [bs[i]], bs[i + 1..]);
    LiveAround(bs[..i], [got] + rest, bs[i + 1..]);
    LiveConcat([got], rest);
    assert Live([bs[i]]) == {} == Live(rest);
    assert Live([got]) == {(got.Payload(), got.size)};
  }

  lemma MallocGot(bs: seq<Block>, brk: nat, s: nat)
    requires Shape(bs, brk) && s % 4 == 0
    ensures
      var got := MallocBlocks(bs, brk, s)[MallocIndex(bs, s)];
      && !got.free && s <= got.size < s + HEADER + 4 && got.Payload() % 4 == 0
      && (got.Payload(), got.size) !in Live(bs)
  {
    var i := FirstFit(bs, s, 0);
    var r := MallocBlocks(bs, brk, s);
    MallocShape(bs, brk, s);
    InRange(r, MallocBrk(bs, brk, s), i);
    if i == |bs| {
      NotLive(r, MallocBrk(bs, brk, s), i);
      assert bs == r[..i];
    } else {
      AddressUnique(bs, brk, i);
      assert Placed(bs, i);
    }
  }

  lemma GrowLive(bs: seq<Block>, brk: nat, s: nat)
    requires FirstFit(bs, s, 0) == |bs|
    ensures var r := MallocBlocks(bs, brk, s);
      Live(r) == Live(bs) + {(r[|bs|].Payload(), r[|bs|].size)}
  {
    var got := Block(brk, s, false);
    LiveConcat(bs, [got]);
    assert Live([got]) == {(got.Payload(), got.size)};
  }

  lemma ReuseGot(bs: seq<Block>, brk: nat, s: nat)
    requires FirstFit(bs, s, 0) < |bs|
    ensures var r, i := MallocBlocks(bs, brk, s), FirstFit(bs, s, 0);
      Live(r) == Live(bs) + {(r[i].Payload(), r[i].size)}
  {
    var r, i := MallocBlocks(bs, brk, s), FirstFit(bs, s, 0);
    ReuseShape(bs, brk, s);
    ReuseLive(bs, i, r[i], if bs[i].size - s >= HEADER + 4 then [r[i + 1]] else []);
  }

  /** The list after reusing a block: the block, and the remainder when it was cut. */
  lemma ReuseShape(bs: seq<Block>, brk: nat, s: nat)
    requires FirstFit(bs, s, 0) < |bs|
    ensures var r, i := MallocBlocks(bs, brk, s), FirstFit(bs, s, 0);
      && !r[i].free && (bs[i].size - s >= HEADER + 4 ==> i + 1 < |r| && r[i + 1].free)
      && r == bs[..i] + ([r[i]] + if bs[i].size - s >= HEADER + 4 then [r[i + 1]] else []) + bs[i + 1..]
  {}

  /** malloc hands out one range that was not live: aligned, at least s bytes, and nothing else changes hands. */
  lemma MallocLive(bs: seq<Block>, brk: nat, s: nat)
    requires Shape(bs, brk) && s % 4 == 0
    ensures
      var r := MallocBlocks(bs, brk, s);
      var got := r[MallocIndex(bs, s)];
      && !got.free && s <= got.size < s + HEADER + 4 && got.Payload() % 4 == 0
      && (got.Payload(), got.size) !in Live(bs)
      && Live(r) == Live(bs) + {(got.Payload(), got.size)}
  {
    MallocGot(bs, brk, s);
    if FirstFit(bs, s, 0) == |bs| { GrowLive(bs, brk, s); } else { ReuseGot(bs, brk, s); }
  }

  // ---- free ----

  function Fuse(bs: seq<Block>, i: nat): seq<Block>
    requires i + 1 < |bs|
  {
    bs[..i] + [Block(bs[i].addr, bs[i].size + HEADER + bs[i + 1].size, bs[i].free)] + bs[i + 2..]
  }

  function Mark(bs: seq<Block>, i: nat): seq<Block>
    requires i < |bs|
  {
    bs[i := bs[i].(free := true)]
  }

  function JoinLeft(bs: seq<Block>, i: nat): (r: (seq<Block>, nat))
    requires i < |bs|
    ensures r.1 < |r.0|
  {
    if i > 0 && bs[i - 1].free then (Fuse(bs, i - 1), i - 1) else (bs, i)
  }

  /** Join block j to a free right neighbour or, when it is the last one, give it back. */
  function JoinRight(bs: seq<Block>, j: nat): seq<Block>
    requires j < |bs|
  {
    if j + 1 == |bs| then bs[..j] else if bs[j + 1].free then Fuse(bs, j) else bs
  }

  function FreeBlocks(bs: seq<Block>, i: nat): seq<Block>
    requires i < |bs|
  {
    var (joined, j) := JoinLeft(Mark(bs, i), i);
    JoinRight(joined, j)
  }

  lemma FuseTiled(bs: seq<Block>, i: nat, brk: nat)
    requires Tiled(bs, brk) && i + 1 < |bs|
    ensures Tiled(Fuse(bs, i), brk)
  {
    var r := Fuse(bs, i);
    assert Placed(bs, i) && Placed(bs, i + 1);
    forall k | 0 <= k < |r| ensures Placed(r, k) { assert Placed(bs, if k <= i then k else k + 1); }
    if i + 2 < |bs| { assert r[|r| - 1] == bs[|bs| - 1]; } else { assert r[|r| - 1] == r[i]; }
  }

  /** Between marking and the last join, a free pair can only be block j with its right neighbour. */
  ghost predicate AlmostShape(bs: seq<Block>, brk: nat, j: nat) {
    && Tiled(bs, brk) && j < |bs| && bs[j].free
    && (j + 1 < |bs| ==> !bs[|bs| - 1].free)
    && forall k :: 0 < k < |bs| && k != j + 1 ==> !bs[k - 1].free || !bs[k].free
  }

  lemma MarkJoinLeft(bs: seq<Block>, brk: nat, i: nat)
    requires Shape(bs, brk) && i < |bs|
    ensures AlmostShape(JoinLeft(Mark(bs, i), i).0, brk, JoinLeft(Mark(bs, i), i).1)
  {
    var marked := Mark(bs, i);
    forall k | 0 <= k < |bs| ensures Placed(marked, k) { assert Placed(bs, k); }
    if i > 0 && bs[i - 1].free {
      FuseTiled(marked, i - 1, brk);
      var r := Fuse(marked, i - 1);
      forall k | 0 < k < |r| && k != i ensures !r[k - 1].free || !r[k].free {
        if k > i { assert r[k] == bs[k + 1] && r[k - 1] == bs[k]; }
      }
    }
  }

  lemma JoinRightShape(bs: seq<Block>, brk: nat, j: nat)
    requires AlmostShape(bs, brk, j)
    ensures Shape(JoinRight(bs, j), BrkOf(JoinRight(bs, j))) && BrkOf(JoinRight(bs, j)) <= brk
  {
    var r := JoinRight(bs, j);
    if j + 1 == |bs| {
      assert Placed(bs, j);
      InRange(bs, brk, j);
      forall k | 0 <= k < j ensures Placed(r, k) { assert Placed(bs, k); }
    } else if bs[j + 1].free {
      FuseTiled(bs, j, brk);
      assert r[|r| - 1] == bs[|bs| - 1];
      forall k | 0 < k < |r| ensures !r[k - 1].free || !r[k].free {
        if k > j { assert r[k] == bs[k + 1]; }
      }
    }
  }

  lemma JoinRightEnds(bs: seq<Block>, brk: nat, j: nat)
    requires Tiled(bs, brk) && j < |bs|
    ensures BrkOf(JoinRight(bs, j)) == (if j + 1 == |bs| then bs[j].addr else brk) <= brk
    ensures JoinRight(bs, j) == [] <==> |bs| == 1
  {
    assert Placed(bs, j);
    InRange(bs, brk, j);
    if j + 1 < |bs| && bs[j + 1].free { FuseTiled(bs, j, brk); }
  }

  lemma FreeShape(bs: seq<Block>, brk: nat, i: nat)
    requires Shape(bs, brk) && i < |bs|
    ensures Shape(FreeBlocks(bs, i), BrkOf(FreeBlocks(bs, i)))
    ensures BrkOf(FreeBlocks(bs, i)) <= brk
  {
    MarkJoinLeft(bs, brk, i);
    var (joined, j) := JoinLeft(Mark(bs, i), i);
    JoinRightShape(joined, brk, j);
  }

  lemma FuseLive(bs: seq<Block>, i: nat)
    requires i + 1 < |bs| && bs[i].free && bs[i + 1].free
    ensures Live(Fuse(bs, i)) == Live(bs)
  {
    var both, joined := [bs[i], bs[i + 1]], [Fuse(bs, i)[i]];
    assert bs == bs[..i] + both + bs[i + 2..];
    LiveAround(bs[..i], both, bs[i + 2..]);
    LiveAround(bs[..i], joined, bs[i + 2..]);
    assert Live(both) == {} == Live(joined);
  }

  lemma MarkLive(bs: seq<Block>, brk: nat, i: nat)
    requires Tiled(bs, brk) && i < |bs| && !bs[i].free
    ensures Live(Mark(bs, i)) == Live(bs) - {(bs[i].Payload(), bs[i].size)}
  {
    var marked := Mark(bs, i);
    assert bs == bs[..i] + [bs[i]] + bs[i + 1..];
    assert marked == bs[..i] + [marked[i]] + bs[i + 1..];
    LiveAround(bs[..i], [bs[i]], bs[i + 1..]);
    LiveAround(bs[..i], [marked[i]], bs[i + 1..]);
    NotLive(bs, brk, i);
    assert Live([bs[i]]) == {(bs[i].Payload(), bs[i].size)};
    assert Live([marked[i]]) == {};
  }

  /** Joining free blocks, or giving the last one back, changes nobody's range. */
  lemma JoinLive(bs: seq<Block>, j: nat)
    requires j < |bs| && bs[j].free
    ensures Live(JoinLeft(bs, j).0) == Live(bs) == Live(JoinRight(bs, j))
  {
    if j > 0 && bs[j - 1].free { FuseLive(bs, j - 1); }
    if j + 1 == |bs| {
      assert bs == bs[..j] + [bs[j]];
      LiveConcat(bs[..j], [bs[j]]);
    } else if bs[j + 1].free {
      FuseLive(bs, j);
    }
  }

  /** free takes back exactly the range of block i and no other. */
  lemma FreeLive(bs: seq<Block>, brk: nat, i: nat)
    requires Shape(bs, brk) && i < |bs| && !bs[i].free
    ensures Live(FreeBlocks(bs, i)) == Live(bs) - {(bs[i].Payload(), bs[i].size)}
  {
    MarkLive(bs, brk, i);
    JoinLive(Mark(bs, i), i);
    var (joined, j) := JoinLeft(Mark(bs, i), i);
    JoinLive(joined, j);
  }

  /** Freeing a block that is already free leaves the list as it is. */
  lemma FreeTwice(bs: seq<Block>, brk: nat, i: nat)
    requires Shape(bs, brk) && i < |bs| && bs[i].free
    ensures FreeBlocks(bs, i) == bs
  {
    assert Mark(bs, i) == bs;
    assert i + 1 < |bs|;
    assert !bs[i + 1 - 1].free || !bs[i + 1].free;
  }

  /** Freeing what malloc just returned restores the block list, whichever way malloc found the room. */
  lemma FreeUndoesMalloc(bs: seq<Block>, brk: nat, s: nat)
    requires Shape(bs, brk) && s % 4 == 0
    ensures FreeBlocks(MallocBlocks(bs, brk, s), MallocIndex(bs, s)) == bs
  {
    var i := FirstFit(bs, s, 0);
    var r := MallocBlocks(bs, brk, s);
    var marked := Mark(r, i);
    assert i > 0 ==> r[i - 1] == bs[i - 1];
    if i == |bs| {
      assert marked[..i] == bs;
    } else {
      assert i + 1 < |bs|;
      if bs[i].size - s >= HEADER + 4 {
        assert marked == Split(bs, i, s);
        assert Fuse(marked, i)[i] == bs[i];
        assert Fuse(marked, i) == bs;
      } else {
        assert marked == bs;
        FreeTwice(bs, brk, i);
      }
    }
  }

  // ---- Live ranges ----

  ghost predicate Apart(a: (nat, nat), b: (nat, nat)) { a.0 + a.1 + HEADER <= b.0 || b.0 + b.1 + HEADER <= a.0 }

  /** Live ranges do not overlap, and leave room for a header between them. */
  ghost predicate AllApart(live: set<(nat, nat)>) {
    forall a, b :: a in live && b in live && a != b ==> Apart(a, b)
  }

  lemma LiveApart(bs: seq<Block>, brk: nat)
    requires Shape(bs, brk)
    ensures AllApart(Live(bs))
  {
    forall a, b | a in Live(bs) && b in Live(bs) && a != b ensures Apart(a, b) {
      var i :| 0 <= i < |bs| && a == (bs[i].Payload(), bs[i].size);
      var j :| 0 <= j < |bs| && b == (bs[j].Payload(), bs[j].size);
      assert a.0 == bs[i].Payload() && a.1 == bs[i].size && b.0 == bs[j].Payload() && b.1 == bs[j].size;
      PayloadsDisjoint(bs, brk, i, j);
      assert bs[i].End() <= bs[j].addr || bs[j].End() <= bs[i].addr;
    }
  }
}
