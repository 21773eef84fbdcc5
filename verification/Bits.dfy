/** Quotient and remainder are the only two numbers that fit. */
module Division {
  lemma DivMod(q: nat, r: nat, n: nat)
    requires r < n
    ensures (q * n + r) / n == q && (q * n + r) % n == r
  {
    var x := q * n + r;
    var q', r' := x / n, x % n;
    assert q' * n + r' == x;
    assert (q - q') * n == r' - r;
    if q > q' { AtLeast(q - q', n); } else if q < q' { AtLeast(q' - q, n); }
  }

  lemma AtLeast(k: nat, n: nat)
    requires k >= 1
    ensures k * n >= n
  {}
}

/** Bitwise operations on natural numbers, defined bit by bit, and the laws that make them operations on bits. */
module Bits {
  /** Bit k of n, bit 0 the lowest. */
  predicate Bit(n: nat, k: nat) {
    if k == 0 then n % 2 == 1 else Bit(n / 2, k - 1)
  }

  function Num(b: bool): nat { if b then 1 else 0 }

  function And(a: nat, b: nat): nat {
    if a == 0 || b == 0 then 0 else Num(a % 2 == 1 && b % 2 == 1) + 2 * And(a / 2, b / 2)
  }

  function Or(a: nat, b: nat): nat
    decreases a + b
  {
    if a == 0 && b == 0 then 0 else Num(a % 2 == 1 || b % 2 == 1) + 2 * Or(a / 2, b / 2)
  }

  function Xor(a: nat, b: nat): nat
    decreases a + b
  {
    if a == 0 && b == 0 then 0 else Num(a % 2 != b % 2) + 2 * Xor(a / 2, b / 2)
  }

  function Shr(n: nat, s: nat): nat { if s == 0 then n else Shr(n / 2, s - 1) }

  function Shl(n: nat, s: nat): (r: nat)
    ensures n > 0 ==> r > 0
  {
    if s == 0 then n else 2 * Shl(n, s - 1)
  }

  /** The low w bits: what a w-bit register keeps. */
  function Low(n: nat, w: nat): nat { if w == 0 then 0 else n % 2 + 2 * Low(n / 2, w - 1) }

  /** The complement in a w-bit register. */
  function Flip(n: nat, w: nat): nat { if w == 0 then 0 else 1 - n % 2 + 2 * Flip(n / 2, w - 1) }

  /** How many bits are set. */
  function Pop(n: nat): nat { if n == 0 then 0 else n % 2 + Pop(n / 2) }

  lemma {:induction false} ZeroBits(k: nat)
    ensures !Bit(0, k)
  {
    if k > 0 { ZeroBits(k - 1); }
  }

  lemma {:induction false} AndBit(a: nat, b: nat, k: nat)
    ensures Bit(And(a, b), k) <==> Bit(a, k) && Bit(b, k)
    decreases k
  {
    ZeroBits(k);
    if a > 0 && b > 0 && k > 0 { AndBit(a / 2, b / 2, k - 1); }
  }

  lemma {:induction false} OrBit(a: nat, b: nat, k: nat)
    ensures Bit(Or(a, b), k) <==> Bit(a, k) || Bit(b, k)
    decreases k
  {
    ZeroBits(k);
    if a + b > 0 && k > 0 { OrBit(a / 2, b / 2, k - 1); }
  }

  lemma {:induction false} XorBit(a: nat, b: nat, k: nat)
    ensures Bit(Xor(a, b), k) <==> Bit(a, k) != Bit(b, k)
    decreases k
  {
    ZeroBits(k);
    if a + b > 0 && k > 0 { XorBit(a / 2, b / 2, k - 1); }
  }

  lemma {:induction false} ShrBit(n: nat, s: nat, k: nat)
    ensures Bit(Shr(n, s), k) <==> Bit(n, k + s)
    decreases s
  {
    if s > 0 { ShrBit(n / 2, s - 1, k); }
  }

  lemma {:induction false} ShlBit(n: nat, s: nat, k: nat)
    ensures Bit(Shl(n, s), k) <==> k >= s && Bit(n, k - s)
    decreases s
  {
    if s > 0 && k > 0 { ShlBit(n, s - 1, k - 1); }
  }

  lemma {:induction false} LowBit(n: nat, w: nat, k: nat)
    ensures Bit(Low(n, w), k) <==> k < w && Bit(n, k)
    decreases w
  {
    ZeroBits(k);
    if w > 0 && k > 0 { LowBit(n / 2, w - 1, k - 1); }
  }

  lemma {:induction false} FlipBit(n: nat, w: nat, k: nat)
    ensures Bit(Flip(n, w), k) <==> k < w && !Bit(n, k)
    decreases w
  {
    ZeroBits(k);
    if w > 0 && k > 0 { FlipBit(n / 2, w - 1, k - 1); }
  }

  /** Numbers with the same bits are the same number. */
  lemma {:induction false} SameBits(a: nat, b: nat)
    requires forall k: nat :: Bit(a, k) == Bit(b, k)
    ensures a == b
    decreases a + b
  {
    assert Bit(a, 0) == Bit(b, 0);
    if a + b > 0 {
      forall k: nat ensures Bit(a / 2, k) == Bit(b / 2, k) {
        assert Bit(a, k + 1) == Bit(b, k + 1);
      }
      SameBits(a / 2, b / 2);
    }
  }

  /** The mask of the w low bits. */
  lemma {:induction false} MaskBit(w: nat, k: nat)
    ensures Bit(Shl(1, w) - 1, k) <==> k < w
    decreases w
  {
    if w == 0 {
      ZeroBits(k);
    } else if k == 0 {
      MaskBit(w - 1, 0);
    } else {
      MaskBit(w - 1, k - 1);
      assert (Shl(1, w) - 1) / 2 == Shl(1, w - 1) - 1;
    }
  }

  lemma {:induction false} AndSelf(a: nat)
    ensures And(a, a) == a
  {
    if a > 0 { AndSelf(a / 2); }
  }

  lemma {:induction false} AndZero(a: nat)
    ensures And(a, 0) == 0 && And(0, a) == 0
  {}

  /** Anding a number with its predecessor clears exactly one bit: the lowest one set. */
  lemma {:induction false} ClearLowest(b: nat)
    requires b > 0
    ensures And(b, b - 1) < b && Pop(And(b, b - 1)) + 1 == Pop(b)
  {
    var rest := And(b, b - 1);
    if b % 2 == 1 {
      assert (b - 1) / 2 == b / 2;
      AndSelf(b / 2);
      assert rest == 2 * (b / 2);
      assert rest > 0 ==> Pop(rest) == Pop(b / 2);
    } else {
      assert (b - 1) / 2 == b / 2 - 1;
      ClearLowest(b / 2);
      var half := And(b / 2, b / 2 - 1);
      assert rest == 2 * half;
      assert rest > 0 ==> Pop(rest) == Pop(half);
    }
  }

  lemma {:induction false} XorTwice(a: nat, b: nat)
    ensures Xor(Xor(a, b), b) == a
  {
    forall k: nat ensures Bit(Xor(Xor(a, b), b), k) == Bit(a, k) {
      XorBit(a, b, k);
      XorBit(Xor(a, b), b, k);
    }
    SameBits(Xor(Xor(a, b), b), a);
  }

  /** Numbers below a power of two stay below it. */
  lemma {:induction false} XorBelow(a: nat, b: nat, w: nat)
    requires a < Shl(1, w) && b < Shl(1, w)
    ensures Xor(a, b) < Shl(1, w)
    decreases w
  {
    if w > 0 && a + b > 0 { XorBelow(a / 2, b / 2, w - 1); }
  }
}

/** Numbers as bytes, the most significant first. */
module Bytes {
  import opened Division

  type Byte = b: nat | b < 256

  function ToBytes(n: nat, w: nat): (bs: seq<Byte>)
    ensures |bs| == w
  {
    if w == 0 then [] else ToBytes(n / 256, w - 1) + [n % 256]
  }

  function BigEndian(bs: seq<Byte>): nat {
    if bs == [] then 0 else 256 * BigEndian(bs[..|bs| - 1]) + bs[|bs| - 1]
  }

  function Limit(w: nat): (l: nat)
    ensures l > 0
  {
    if w == 0 then 1 else 256 * Limit(w - 1)
  }

  /** Reading w bytes written from n returns what w bytes can hold of it. */
  lemma {:induction false} ReadBytes(n: nat, w: nat)
    ensures BigEndian(ToBytes(n, w)) == n % Limit(w)
    decreases w
  {
    if w > 0 {
      var l, high := Limit(w - 1), n / 256;
      ReadBytes(high, w - 1);
      assert ToBytes(n, w)[..w - 1] == ToBytes(high, w - 1);
      NextRemainder(n, l);
    }
  }

  lemma NextRemainder(n: nat, l: nat)
    requires l > 0
    ensures n % (256 * l) == 256 * (n / 256 % l) + n % 256
  {
    var high, c := n / 256, n % 256;
    var q, r := high / l, high % l;
    Regroup(q, l, r, c);
    assert n == q * (256 * l) + (256 * r + c);
    DivMod(q, 256 * r + c, 256 * l);
  }

  lemma Regroup(q: nat, l: nat, r: nat, c: nat)
    ensures 256 * (q * l + r) + c == q * (256 * l) + (256 * r + c)
  {}

  lemma {:induction false} WriteBytes(bs: seq<Byte>)
    ensures BigEndian(bs) < Limit(|bs|) && ToBytes(BigEndian(bs), |bs|) == bs
    decreases |bs|
  {
    if bs != [] {
      var most, last := bs[..|bs| - 1], bs[|bs| - 1];
      WriteBytes(most);
      assert BigEndian(bs) / 256 == BigEndian(most) && BigEndian(bs) % 256 == last;
      assert bs == most + [last];
    }
  }

  lemma Limits()
    ensures Limit(1) == 256 && Limit(2) == 0x1_0000 && Limit(4) == 0x1_0000_0000 && Limit(8) == 0x1_0000_0000_0000_0000
  {}
}
