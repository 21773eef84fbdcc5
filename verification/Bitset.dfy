/** The kernel's fixed-size bitset: 32-bit blocks standing for a set of numbers below N. */
module BitSpec {
  import opened Bits

  const BITS: nat := 32

  /** Position p of a block sequence; false past the end. */
  predicate Has(blocks: seq<nat>, p: nat) { p / BITS < |blocks| && Bit(blocks[p / BITS], p % BITS) }

  function NumBlocks(n: nat): nat { (n + BITS - 1) / BITS }

  /** No block has a bit beyond its 32, nor a bit at or past position n. */
  ghost predicate CleanBlock(b: nat, i: nat, n: nat) { forall k: nat :: Bit(b, k) ==> k < BITS && i * BITS + k < n }

  ghost predicate Narrow(b: nat) { forall k: nat :: Bit(b, k) ==> k < BITS }

  ghost predicate Clean(blocks: seq<nat>, n: nat) {
    |blocks| == NumBlocks(n) && forall i :: 0 <= i < |blocks| ==> CleanBlock(blocks[i], i, n)
  }

  ghost function ToSet(blocks: seq<nat>, n: nat): set<nat> { set p: nat | p < n && Has(blocks, p) }

  lemma Place(i: nat, k: nat)
    requires k < BITS
    ensures (i * BITS + k) / BITS == i && (i * BITS + k) % BITS == k
  {}

  lemma Within(p: nat, n: nat)
    requires p < n
    ensures p / BITS < NumBlocks(n)
  {}

  /** A clean position set lies below n. */
  lemma HasBelow(blocks: seq<nat>, n: nat, p: nat)
    requires Clean(blocks, n) && Has(blocks, p)
    ensures p < n
  {
    assert CleanBlock(blocks[p / BITS], p / BITS, n);
  }

  // ---- One position ----

  function SetBlock(b: nat, off: nat, value: bool): nat {
    if value then Or(b, Shl(1, off)) else And(b, Flip(Shl(1, off), BITS))
  }

  lemma OneBit(off: nat, k: nat)
    ensures Bit(Shl(1, off), k) <==> k == off
  {
    ShlBit(1, off, k);
    if k > off { ZeroBits(k - off - 1); }
  }

  lemma SetBlockBit(b: nat, off: nat, value: bool, k: nat)
    requires Bit(b, k) ==> k < BITS
    ensures Bit(SetBlock(b, off, value), k) <==> if k == off then value else Bit(b, k)
  {
    OneBit(off, k);
    OrBit(b, Shl(1, off), k);
    FlipBit(Shl(1, off), BITS, k);
    AndBit(b, Flip(Shl(1, off), BITS), k);
  }

  function SetAt(blocks: seq<nat>, p: nat, value: bool): seq<nat>
    requires p / BITS < |blocks|
  {
    blocks[p / BITS := SetBlock(blocks[p / BITS], p % BITS, value)]
  }

  lemma SetAtHas(blocks: seq<nat>, n: nat, p: nat, value: bool, q: nat)
    requires Clean(blocks, n) && p < n && p / BITS < |blocks|
    ensures Has(SetAt(blocks, p, value), q) <==> if q == p then value else Has(blocks, q)
  {
    var i := p / BITS;
    if q / BITS == i {
      assert CleanBlock(blocks[i], i, n);
      SetBlockBit(blocks[i], p % BITS, value, q % BITS);
      assert p == i * BITS + p % BITS && q == i * BITS + q % BITS;
    }
  }

  lemma SetAtClean(blocks: seq<nat>, n: nat, p: nat, value: bool)
    requires Clean(blocks, n) && p < n && p / BITS < |blocks|
    ensures Clean(SetAt(blocks, p, value), n)
  {
    var i := p / BITS;
    var b := SetBlock(blocks[i], p % BITS, value);
    assert CleanBlock(blocks[i], i, n);
    forall k: nat | Bit(b, k) ensures k < BITS && i * BITS + k < n {
      SetBlockBit(blocks[i], p % BITS, value, k);
    }
    assert CleanBlock(b, i, n);
  }

  lemma SetAtSet(blocks: seq<nat>, n: nat, p: nat, value: bool)
    requires Clean(blocks, n) && p < n
    ensures p / BITS < |blocks| && Clean(SetAt(blocks, p, value), n)
    ensures ToSet(SetAt(blocks, p, value), n) == if value then ToSet(blocks, n) + {p} else ToSet(blocks, n) - {p}
  {
    Within(p, n);
    SetAtClean(blocks, n, p, value);
    forall q: nat ensures Has(SetAt(blocks, p, value), q) <==> if q == p then value else Has(blocks, q) {
      SetAtHas(blocks, n, p, value, q);
    }
  }

  /** Flipping one position is setting it to what it was not. */
  lemma FlipBlock(b: nat, off: nat)
    requires Narrow(b) && off < BITS
    ensures Xor(b, Shl(1, off)) == SetBlock(b, off, !Bit(b, off))
  {
    var flipped, put := Xor(b, Shl(1, off)), SetBlock(b, off, !Bit(b, off));
    forall k: nat ensures Bit(flipped, k) == Bit(put, k) {
      OneBit(off, k);
      XorBit(b, Shl(1, off), k);
      SetBlockBit(b, off, !Bit(b, off), k);
    }
    SameBits(flipped, put);
  }

  // ---- Shifts ----

  /** The block a left shift stores at i. */
  function ShlAt(src: seq<nat>, pos: nat, i: nat): nat
    requires i < |src|
  {
    var blk, bit := pos / BITS, pos % BITS;
    if i < blk then 0
    else
      var val := Low(Shl(src[i - blk], bit), BITS);
      if bit != 0 && i > blk then Or(val, Shr(src[i - blk - 1], BITS - bit)) else val
  }

  /** The block a right shift stores at i. */
  function ShrAt(src: seq<nat>, pos: nat, i: nat): nat
    requires i < |src|
  {
    var blk, bit := pos / BITS, pos % BITS;
    if i + blk >= |src| then 0
    else
      var val := Shr(src[i + blk], bit);
      if bit != 0 && i + blk + 1 < |src| then Or(val, Low(Shl(src[i + blk + 1], BITS - bit), BITS)) else val
  }

  lemma ShlAtBit(src: seq<nat>, n: nat, pos: nat, i: nat, k: nat)
    requires Clean(src, n) && i < |src|
    ensures Bit(ShlAt(src, pos, i), k) <==> k < BITS && i * BITS + k >= pos && Has(src, i * BITS + k - pos)
  {
    var blk, bit := pos / BITS, pos % BITS;
    ZeroBits(k);
    if i >= blk {
      var hi := src[i - blk];
      LowBit(Shl(hi, bit), BITS, k);
      ShlBit(hi, bit, k);
      if k < BITS && k >= bit {
        assert i * BITS + k - pos == (i - blk) * BITS + (k - bit);
        Place(i - blk, k - bit);
      }
      if i > blk {
        var lo := src[i - blk - 1];
        assert CleanBlock(lo, i - blk - 1, n);
        ShrBit(lo, BITS - bit, k);
        OrBit(Low(Shl(hi, bit), BITS), Shr(lo, BITS - bit), k);
        if k < bit {
          assert i * BITS + k - pos == (i - blk - 1) * BITS + (k + BITS - bit);
          Place(i - blk - 1, k + BITS - bit);
        }
      }
    }
  }

  lemma ShrAtBit(src: seq<nat>, n: nat, pos: nat, i: nat, k: nat)
    requires Clean(src, n) && i < |src|
    ensures Bit(ShrAt(src, pos, i), k) <==> k < BITS && Has(src, i * BITS + k + pos)
  {
    var blk, bit := pos / BITS, pos % BITS;
    ZeroBits(k);
    if k + bit < BITS {
      assert i * BITS + k + pos == (i + blk) * BITS + (k + bit);
      Place(i + blk, k + bit);
    } else if k < BITS {
      assert i * BITS + k + pos == (i + blk + 1) * BITS + (k + bit - BITS);
      Place(i + blk + 1, k + bit - BITS);
    }
    if i + blk < |src| {
      var lo := src[i + blk];
      assert CleanBlock(lo, i + blk, n);
      ShrBit(lo, bit, k);
      if i + blk + 1 < |src| {
        var hi := src[i + blk + 1];
        LowBit(Shl(hi, BITS - bit), BITS, k);
        ShlBit(hi, BITS - bit, k);
        OrBit(Shr(lo, bit), Low(Shl(hi, BITS - bit), BITS), k);
      }
    }
  }

  // ---- Trimming the last block ----

  function HighMask(n: nat): nat {
    if n % BITS == 0 then Flip(0, BITS) else Shl(1, n % BITS) - 1
  }

  lemma HighMaskBit(n: nat, k: nat)
    ensures Bit(HighMask(n), k) <==> if n % BITS == 0 then k < BITS else k < n % BITS
  {
    ZeroBits(k);
    FlipBit(0, BITS, k);
    MaskBit(n % BITS, k);
  }

  function Trim(blocks: seq<nat>, n: nat): seq<nat> {
    if blocks == [] then [] else blocks[|blocks| - 1 := And(blocks[|blocks| - 1], HighMask(n))]
  }

  lemma TrimBit(blocks: seq<nat>, n: nat, i: nat, k: nat)
    requires |blocks| == NumBlocks(n) && i < |blocks| && Narrow(blocks[i])
    ensures |Trim(blocks, n)| == |blocks|
    ensures Bit(Trim(blocks, n)[i], k) <==> Bit(blocks[i], k) && i * BITS + k < n
  {
    AndBit(blocks[|blocks| - 1], HighMask(n), k);
    HighMaskBit(n, k);
    if i == |blocks| - 1 && n % BITS != 0 { assert n == i * BITS + n % BITS; }
  }

  lemma TrimClean(blocks: seq<nat>, n: nat)
    requires |blocks| == NumBlocks(n) && forall i :: 0 <= i < |blocks| ==> Narrow(blocks[i])
    ensures Clean(Trim(blocks, n), n)
    ensures forall p :: 0 <= p < n ==> (Has(Trim(blocks, n), p) <==> Has(blocks, p))
  {
    var t := Trim(blocks, n);
    forall i | 0 <= i < |t| ensures CleanBlock(t[i], i, n) {
      forall k: nat | Bit(t[i], k) ensures k < BITS && i * BITS + k < n { TrimBit(blocks, n, i, k); }
    }
    forall p | 0 <= p < n ensures Has(t, p) <==> Has(blocks, p) {
      Within(p, n);
      TrimBit(blocks, n, p / BITS, p % BITS);
    }
  }

  ghost predicate ShlOf(src: seq<nat>, pos: nat, dst: seq<nat>) {
    |dst| == |src| && forall i :: 0 <= i < |src| ==> dst[i] == ShlAt(src, pos, i)
  }

  lemma ShlNarrow(src: seq<nat>, n: nat, pos: nat, dst: seq<nat>)
    requires Clean(src, n) && ShlOf(src, pos, dst)
    ensures forall i :: 0 <= i < |dst| ==> Narrow(dst[i])
  {
    forall i | 0 <= i < |dst| ensures Narrow(dst[i]) {
      forall k: nat | Bit(dst[i], k) ensures k < BITS { ShlAtBit(src, n, pos, i, k); }
    }
  }

  lemma ShlHas(src: seq<nat>, n: nat, pos: nat, dst: seq<nat>, q: nat)
    requires Clean(src, n) && ShlOf(src, pos, dst) && q < n
    ensures Has(dst, q) <==> q >= pos && Has(src, q - pos)
  {
    Within(q, n);
    ShlAtBit(src, n, pos, q / BITS, q % BITS);
  }

  /** The set of a left-shifted bitset: every member moved up, those that leave the range dropped. */
  lemma ShlSet(src: seq<nat>, n: nat, pos: nat, dst: seq<nat>)
    requires Clean(src, n) && ShlOf(src, pos, dst)
    ensures Clean(Trim(dst, n), n)
    ensures ToSet(Trim(dst, n), n) == set p | p in ToSet(src, n) && p + pos < n :: p + pos
  {
    ShlNarrow(src, n, pos, dst);
    TrimClean(dst, n);
    var a, b := ToSet(src, n), ToSet(Trim(dst, n), n);
    forall q: nat ensures q in b <==> q < n && q >= pos && q - pos in a {
      if q < n { ShlHas(src, n, pos, dst, q); }
    }
    MovedUp(a, b, n, pos);
  }

  lemma MovedUp(a: set<nat>, b: set<nat>, n: nat, pos: nat)
    requires forall q: nat :: q in b <==> q < n && q >= pos && q - pos in a
    ensures b == set p | p in a && p + pos < n :: p + pos
  {
    forall q: nat | q in b ensures q in set p | p in a && p + pos < n :: p + pos {
      assert q - pos in a;
    }
  }

  lemma MovedDown(a: set<nat>, b: set<nat>, pos: nat)
    requires forall q: nat :: q in b <==> q + pos in a
    ensures b == set p | p in a && p >= pos :: p - pos
  {
    forall q: nat | q in b ensures q in set p | p in a && p >= pos :: p - pos {
      assert q + pos in a;
    }
  }

  lemma ShrSet(src: seq<nat>, n: nat, pos: nat, dst: seq<nat>)
    requires Clean(src, n) && |dst| == |src| && forall i :: 0 <= i < |src| ==> dst[i] == ShrAt(src, pos, i)
    ensures Clean(dst, n)
    ensures ToSet(dst, n) == set p | p in ToSet(src, n) && p >= pos :: p - pos
  {
    forall i | 0 <= i < |dst| ensures CleanBlock(dst[i], i, n) {
      forall k: nat | Bit(dst[i], k) ensures k < BITS && i * BITS + k < n {
        ShrAtBit(src, n, pos, i, k);
        HasBelow(src, n, i * BITS + k + pos);
      }
    }
    forall q: nat | q < n ensures Has(dst, q) <==> Has(src, q + pos) {
      Within(q, n);
      ShrAtBit(src, n, pos, q / BITS, q % BITS);
    }
    forall q: nat ensures q in ToSet(dst, n) <==> q + pos in ToSet(src, n) {
      if Has(src, q + pos) { HasBelow(src, n, q + pos); }
    }
    MovedDown(ToSet(src, n), ToSet(dst, n), pos);
  }

  lemma FlipSet(blocks: seq<nat>, n: nat, flipped: seq<nat>)
    requires Clean(blocks, n) && |flipped| == |blocks| && forall i :: 0 <= i < |blocks| ==> flipped[i] == Flip(blocks[i], BITS)
    ensures Clean(Trim(flipped, n), n)
    ensures forall p: nat :: p in ToSet(Trim(flipped, n), n) <==> p < n && p !in ToSet(blocks, n)
  {
    forall i | 0 <= i < |flipped| ensures Narrow(flipped[i]) {
      forall k: nat | Bit(flipped[i], k) ensures k < BITS { FlipBit(blocks[i], BITS, k); }
    }
    TrimClean(flipped, n);
    forall q: nat | q < n ensures Has(flipped, q) <==> !Has(blocks, q) {
      Within(q, n);
      FlipBit(blocks[q / BITS], BITS, q % BITS);
    }
  }

  // ---- Counting ----

  function Count(blocks: seq<nat>): nat {
    if blocks == [] then 0 else Count(blocks[..|blocks| - 1]) + Pop(blocks[|blocks| - 1])
  }

  /** The positions of a number's set bits, from position base. */
  ghost function BitsOf(b: nat, base: nat): set<nat> {
    if b == 0 then {} else (if b % 2 == 1 then {base} else {}) + BitsOf(b / 2, base + 1)
  }

  lemma {:induction false} BitsOfHas(b: nat, base: nat, p: nat)
    ensures p in BitsOf(b, base) <==> p >= base && Bit(b, p - base)
    decreases b
  {
    if p >= base { ZeroBits(p - base); }
    if b > 0 { BitsOfHas(b / 2, base + 1, p); }
  }

  lemma {:induction false} BitsOfSize(b: nat, base: nat)
    ensures |BitsOf(b, base)| == Pop(b)
    decreases b
  {
    if b > 0 {
      BitsOfSize(b / 2, base + 1);
      BitsOfHas(b / 2, base + 1, base);
    }
  }

  ghost function AllBits(blocks: seq<nat>): set<nat> {
    if blocks == [] then {} else AllBits(blocks[..|blocks| - 1]) + BitsOf(blocks[|blocks| - 1], (|blocks| - 1) * BITS)
  }

  lemma {:induction false} AllBitsHas(blocks: seq<nat>, p: nat)
    requires forall i :: 0 <= i < |blocks| ==> Narrow(blocks[i])
    ensures p in AllBits(blocks) <==> Has(blocks, p)
    decreases |blocks|
  {
    if blocks != [] {
      var last := |blocks| - 1;
      AllBitsHas(blocks[..last], p);
      BitsOfHas(blocks[last], last * BITS, p);
      assert Narrow(blocks[last]);
      if last * BITS <= p < last * BITS + BITS { Place(last, p - last * BITS); }
    }
  }

  lemma {:induction false} AllBitsSize(blocks: seq<nat>)
    requires forall i :: 0 <= i < |blocks| ==> Narrow(blocks[i])
    ensures |AllBits(blocks)| == Count(blocks)
    decreases |blocks|
  {
    if blocks != [] {
      var last := |blocks| - 1;
      var most, top := AllBits(blocks[..last]), BitsOf(blocks[last], last * BITS);
      AllBitsSize(blocks[..last]);
      BitsOfSize(blocks[last], last * BITS);
      forall p: nat | p in most ensures p !in top {
        AllBitsHas(blocks[..last], p);
        BitsOfHas(blocks[last], last * BITS, p);
      }
      assert most !! top;
    }
  }

  /** The population counts of the blocks add up to the size of the set. */
  lemma CountIsSize(blocks: seq<nat>, n: nat)
    requires Clean(blocks, n)
    ensures Count(blocks) == |ToSet(blocks, n)|
  {
    forall i | 0 <= i < |blocks| ensures Narrow(blocks[i]) { assert CleanBlock(blocks[i], i, n); }
    AllBitsSize(blocks);
    forall p: nat ensures p in AllBits(blocks) <==> p in ToSet(blocks, n) {
      AllBitsHas(blocks, p);
      if Has(blocks, p) { HasBelow(blocks, n, p); }
    }
    assert AllBits(blocks) == ToSet(blocks, n);
  }

  /** Clean bitsets with the same set are the same blocks. */
  lemma SameSet(a: seq<nat>, b: seq<nat>, n: nat)
    requires Clean(a, n) && Clean(b, n)
    ensures a == b <==> ToSet(a, n) == ToSet(b, n)
  {
    if ToSet(a, n) == ToSet(b, n) {
      forall i | 0 <= i < |a| ensures a[i] == b[i] {
        forall k: nat ensures Bit(a[i], k) == Bit(b[i], k) { SameBlockBit(a, b, n, i, k); }
        SameBits(a[i], b[i]);
      }
    }
  }

  lemma SameBlockBit(a: seq<nat>, b: seq<nat>, n: nat, i: nat, k: nat)
    requires Clean(a, n) && Clean(b, n) && ToSet(a, n) == ToSet(b, n) && i < |a|
    ensures Bit(a[i], k) == Bit(b[i], k)
  {
    assert CleanBlock(a[i], i, n) && CleanBlock(b[i], i, n);
    if k < BITS && i * BITS + k < n {
      Place(i, k);
      var p := i * BITS + k;
      assert p in ToSet(a, n) <==> Has(a, p);
      assert p in ToSet(b, n) <==> Has(b, p);
    }
  }

  lemma OneOrZero(x: nat)
    ensures And(x, 1) != 0 <==> Bit(x, 0)
  {
    AndZero(x / 2);
  }

  // ---- Two bitsets ----

  datatype Op = Both | Either | OnlyOne

  function Combine(op: Op, a: nat, b: nat): nat {
    match op
    case Both => And(a, b)
    case Either => Or(a, b)
    case OnlyOne => Xor(a, b)
  }

  function Joined(op: Op, a: set<nat>, b: set<nat>): set<nat> {
    match op
    case Both => a * b
    case Either => a + b
    case OnlyOne => (a - b) + (b - a)
  }

  lemma CombineBit(op: Op, a: nat, b: nat, k: nat)
    ensures Bit(Combine(op, a, b), k) <==> match op
      case Both => Bit(a, k) && Bit(b, k)
      case Either => Bit(a, k) || Bit(b, k)
      case OnlyOne => Bit(a, k) != Bit(b, k)
  {
    AndBit(a, b, k);
    OrBit(a, b, k);
    XorBit(a, b, k);
  }

  /** Blockwise and, or and exclusive or are intersection, union and symmetric difference. */
  lemma CombineSet(op: Op, a: seq<nat>, b: seq<nat>, n: nat, c: seq<nat>)
    requires Clean(a, n) && Clean(b, n) && |c| == |a| && forall i :: 0 <= i < |a| ==> c[i] == Combine(op, a[i], b[i])
    ensures Clean(c, n) && ToSet(c, n) == Joined(op, ToSet(a, n), ToSet(b, n))
  {
    forall i | 0 <= i < |c| ensures CleanBlock(c[i], i, n) {
      assert CleanBlock(a[i], i, n) && CleanBlock(b[i], i, n);
      forall k: nat | Bit(c[i], k) ensures k < BITS && i * BITS + k < n { CombineBit(op, a[i], b[i], k); }
    }
    forall p: nat | p < n ensures p in ToSet(c, n) <==> p in Joined(op, ToSet(a, n), ToSet(b, n)) {
      Within(p, n);
      CombineBit(op, a[p / BITS], b[p / BITS], p % BITS);
    }
  }
}

module Bitsets {
  import opened Bits
  import opened BitSpec

  class Bitset {
    const n: nat
    const blocks: array<nat>

    ghost predicate Valid() reads blocks { Clean(blocks[..], n) }

    ghost function Members(): set<nat> reads blocks { ToSet(blocks[..], n) }

    constructor (n: nat)
      ensures Valid() && Members() == {} && this.n == n && fresh(blocks)
    {
      this.n := n;
      blocks := new nat[NumBlocks(n)](_ => 0);
      new;
      forall i, k: nat | 0 <= i < blocks.Length ensures !Bit(blocks[i], k) { ZeroBits(k); }
      forall i | 0 <= i < blocks.Length ensures CleanBlock(blocks[..][i], i, n) {}
    }

    method Test(pos: nat) returns (r: bool)
      requires Valid() && pos < n
      ensures r == (pos in Members())
    {
      Within(pos, n);
      var b := blocks[pos / BITS];
      ShrBit(b, pos % BITS, 0);
      AndBit(Shr(b, pos % BITS), 1, 0);
      r := And(Shr(b, pos % BITS), 1) != 0;
      OneOrZero(Shr(b, pos % BITS));
    }

    method Set(pos: nat, value: bool)
      requires Valid() && pos < n
      modifies blocks
      ensures Valid() && Members() == if value then old(Members()) + {pos} else old(Members()) - {pos}
    {
      SetAtSet(blocks[..], n, pos, value);
      var idx, off := pos / BITS, pos % BITS;
      ghost var after := SetAt(blocks[..], pos, value);
      if value {
        blocks[idx] := Or(blocks[idx], Shl(1, off));
      } else {
        blocks[idx] := And(blocks[idx], Flip(Shl(1, off), BITS));
      }
      assert blocks[..] == after;
    }

    method FlipAt(pos: nat)
      requires Valid() && pos < n
      modifies blocks
      ensures Valid()
      ensures Members() == if pos in old(Members()) then old(Members()) - {pos} else old(Members()) + {pos}
    {
      Within(pos, n);
      var idx, off := pos / BITS, pos % BITS;
      ghost var was := Bit(blocks[idx], off);
      assert CleanBlock(blocks[..][idx], idx, n);
      FlipBlock(blocks[idx], off);
      SetAtSet(blocks[..], n, pos, !was);
      ghost var after := SetAt(blocks[..], pos, !was);
      blocks[idx] := Xor(blocks[idx], Shl(1, off));
      assert blocks[..] == after;
    }

    method FlipAll()
      requires Valid()
      modifies blocks
      ensures Valid() && forall p: nat :: p in Members() <==> p < n && p !in old(Members())
    {
      ghost var was := blocks[..];
      for i := 0 to blocks.Length
        invariant forall j :: 0 <= j < i ==> blocks[j] == Flip(was[j], BITS)
        invariant forall j :: i <= j < blocks.Length ==> blocks[j] == was[j]
      {
        blocks[i] := Flip(blocks[i], BITS);
      }
      FlipSet(was, n, blocks[..]);
      TrimLast();
    }

    method TrimLast()
      modifies blocks
      ensures blocks[..] == Trim(old(blocks[..]), n)
    {
      ghost var was := blocks[..];
      if blocks.Length > 0 {
        var last := And(blocks[blocks.Length - 1], HighMask(n));
        blocks[blocks.Length - 1] := last;
        assert blocks[..] == was[blocks.Length - 1 := last];
      }
    }

    /** Clears the lowest set bit until none is left, block by block. */
    method CountBits() returns (total: nat)
      requires Valid()
      ensures total == |Members()|
    {
      total := 0;
      for i := 0 to blocks.Length
        invariant total == Count(blocks[..i])
      {
        var b := blocks[i];
        while b != 0
          invariant total + Pop(b) == Count(blocks[..i]) + Pop(blocks[i])
          decreases b
        {
          ClearLowest(b);
          b := And(b, b - 1);
          total := total + 1;
        }
        assert blocks[..i + 1][..i] == blocks[..i];
      }
      assert blocks[..blocks.Length] == blocks[..];
      CountIsSize(blocks[..], n);
    }

    method ShiftLeft(pos: nat) returns (dst: Bitset)
      requires Valid()
      ensures dst.Valid() && dst.n == n && fresh(dst) && fresh(dst.blocks)
      ensures dst.Members() == set p | p in Members() && p + pos < n :: p + pos
    {
      dst := new Bitset(n);
      if pos >= n { return; }
      var blk, bit := pos / BITS, pos % BITS;
      var i := blocks.Length;
      while i > 0
        invariant 0 <= i <= blocks.Length && blocks[..] == old(blocks[..])
        invariant forall j :: i <= j < blocks.Length ==> dst.blocks[j] == ShlAt(blocks[..], pos, j)
      {
        i := i - 1;
        var val: nat := 0;
        if i >= blk {
          val := Low(Shl(blocks[i - blk], bit), BITS);
          if bit != 0 && i > blk {
            val := Or(val, Shr(blocks[i - blk - 1], BITS - bit));
          }
        }
        dst.blocks[i] := val;
      }
      ShlSet(blocks[..], n, pos, dst.blocks[..]);
      dst.TrimLast();
    }

    method ShiftRight(pos: nat) returns (dst: Bitset)
      requires Valid()
      ensures dst.Valid() && dst.n == n && fresh(dst) && fresh(dst.blocks)
      ensures dst.Members() == set p | p in Members() && p >= pos :: p - pos
    {
      dst := new Bitset(n);
      if pos >= n { return; }
      var blk, bit := pos / BITS, pos % BITS;
      for i := 0 to blocks.Length
        invariant blocks[..] == old(blocks[..])
        invariant forall j :: 0 <= j < i ==> dst.blocks[j] == ShrAt(blocks[..], pos, j)
      {
        var val: nat := 0;
        if i + blk < blocks.Length {
          val := Shr(blocks[i + blk], bit);
          if bit != 0 && i + blk + 1 < blocks.Length {
            val := Or(val, Low(Shl(blocks[i + blk + 1], BITS - bit), BITS));
          }
        }
        dst.blocks[i] := val;
      }
      ShrSet(blocks[..], n, pos, dst.blocks[..]);
    }

    method CombineWith(op: Op, rhs: Bitset)
      requires Valid() && rhs.Valid() && rhs.n == n
      modifies blocks
      ensures Valid() && Members() == Joined(op, old(Members()), old(rhs.Members()))
    {
      ghost var a, b := blocks[..], rhs.blocks[..];
      for i := 0 to blocks.Length
        invariant forall j :: 0 <= j < i ==> blocks[j] == Combine(op, a[j], b[j])
        invariant forall j :: i <= j < blocks.Length ==> blocks[j] == a[j] && rhs.blocks[j] == b[j]
      {
        blocks[i] := Combine(op, blocks[i], rhs.blocks[i]);
      }
      CombineSet(op, a, b, n, blocks[..]);
    }

    method Equals(rhs: Bitset) returns (same: bool)
      requires Valid() && rhs.Valid() && rhs.n == n
      ensures same == (Members() == rhs.Members())
    {
      SameSet(blocks[..], rhs.blocks[..], n);
      for i := 0 to blocks.Length
        invariant forall j :: 0 <= j < i ==> blocks[j] == rhs.blocks[j]
      {
        if blocks[i] != rhs.blocks[i] {
          assert blocks[..][i] != rhs.blocks[..][i];
          return false;
        }
      }
      assert blocks[..] == rhs.blocks[..];
      same := true;
    }
  }
}
