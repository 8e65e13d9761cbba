/** Bytes as bit vectors, and GF(256) with the QR primitive polynomial
    x^8 + x^4 + x^3 + x^2 + 1 (0x11D).

    The encoder multiplies through two lookup tables.  The reference here is
    shift-and-add multiplication of polynomials over GF(2); `BuildTables` and
    `GfMul` are proved to compute it, and the field laws are derived from the
    fact that 2 generates every non-zero element. */
module Gf256 {
  import opened Bits
  import opened Common

  /** A byte, most significant bit first; also a polynomial over GF(2) of degree below 8. */
  datatype Byte = Byte(b7: bool, b6: bool, b5: bool, b4: bool, b3: bool, b2: bool, b1: bool, b0: bool)

  const ZERO: Byte := Byte(false, false, false, false, false, false, false, false)
  const ONE: Byte := Byte(false, false, false, false, false, false, false, true)

  /** The bits of a byte, most significant first. */
  function BitsOf(a: Byte): (s: seq<bool>)
    ensures |s| == 8
  {
    [a.b7, a.b6, a.b5, a.b4, a.b3, a.b2, a.b1, a.b0]
  }

  function OfBits(s: seq<bool>): (a: Byte)
    requires |s| == 8
    ensures BitsOf(a) == s
  {
    Byte(s[0], s[1], s[2], s[3], s[4], s[5], s[6], s[7])
  }

  /** The number a byte stands for. */
  function ToNat(a: Byte): (n: nat)
    ensures n < 256
  {
    ToBitsOfValue(BitsOf(a));
    Pow2Eight(8);
    Value(BitsOf(a))
  }

  lemma Pow2Eight(k: nat)
    requires k == 8
    ensures Pow2(k) == 256
  {
    assert Pow2(k) == 8 * Pow2(k - 3) && Pow2(k - 3) == 8 * Pow2(k - 6);
  }

  function FromNat(n: nat): (a: Byte)
    requires n < 256
    ensures ToNat(a) == n
  {
    Pow2Eight(8);
    ValueOfToBits(n, 8);
    OfBits(ToBits(n, 8))
  }

  lemma ToNatInjective(a: Byte, b: Byte)
    requires ToNat(a) == ToNat(b)
    ensures a == b
  {
    ToBitsOfValue(BitsOf(a));
    ToBitsOfValue(BitsOf(b));
    assert OfBits(BitsOf(a)) == a && OfBits(BitsOf(b)) == b;
  }

  /** Addition in the field: bitwise exclusive or. */
  function Add(a: Byte, b: Byte): Byte {
    Byte(a.b7 != b.b7, a.b6 != b.b6, a.b5 != b.b5, a.b4 != b.b4,
         a.b3 != b.b3, a.b2 != b.b2, a.b1 != b.b1, a.b0 != b.b0)
  }

  /** Multiplication by x: shift left, then subtract 0x11D if bit 8 is set. */
  function XTime(a: Byte): Byte {
    Byte(a.b6, a.b5, a.b4, a.b3 != a.b7, a.b2 != a.b7, a.b1 != a.b7, a.b0, a.b7)
  }

  function Term(bit: bool, a: Byte): Byte { if bit then a else ZERO }

  function Shr(b: Byte): Byte { Byte(false, b.b7, b.b6, b.b5, b.b4, b.b3, b.b2, b.b1) }

  /** The product of a with the n low coefficients of b, by shift and add. */
  function MulBits(a: Byte, b: Byte, n: nat): Byte
    decreases n, a, b
  {
    if n == 0 then ZERO else Add(Term(b.b0, a), MulBits(XTime(a), Shr(b), n - 1))
  }

  /** Polynomial multiplication modulo 0x11D. */
  function Mul(a: Byte, b: Byte): Byte { MulBits(a, b, 8) }

  /** alpha^n, where alpha is the polynomial x (the byte 2). */
  function Pow(n: nat): Byte {
    if n == 0 then ONE else XTime(Pow(n - 1))
  }

  lemma AddZero(a: Byte)
    ensures Add(a, ZERO) == a && Add(ZERO, a) == a
  {}

  lemma AddSelf(a: Byte)
    ensures Add(a, a) == ZERO
  {}

  lemma AddComm(a: Byte, b: Byte)
    ensures Add(a, b) == Add(b, a)
  {}

  lemma AddSwap(a: Byte, b: Byte, c: Byte, d: Byte)
    ensures Add(Add(a, b), Add(c, d)) == Add(Add(a, c), Add(b, d))
  {}

  lemma AddCancel(a: Byte, b: Byte)
    ensures Add(Add(a, b), b) == a && Add(b, Add(b, a)) == a
  {}

  lemma AddIsZero(a: Byte, b: Byte)
    ensures Add(a, b) == ZERO <==> a == b
  {}

  lemma XTimeAdd(a: Byte, b: Byte)
    ensures XTime(Add(a, b)) == Add(XTime(a), XTime(b))
  {}

  lemma XTimeInjective(a: Byte, b: Byte)
    requires XTime(a) == XTime(b)
    ensures a == b
  {}

  lemma XTimeZero(a: Byte)
    ensures XTime(a) == ZERO <==> a == ZERO
  {}

  lemma {:induction false} MulBitsXTime(a: Byte, b: Byte, n: nat)
    ensures MulBits(XTime(a), b, n) == XTime(MulBits(a, b, n))
    decreases n
  {
    if n > 0 {
      MulBitsXTime(XTime(a), Shr(b), n - 1);
      XTimeAdd(Term(b.b0, a), MulBits(XTime(a), Shr(b), n - 1));
    }
  }

  lemma {:induction false} MulBitsAdd(a: Byte, b: Byte, c: Byte, n: nat)
    ensures MulBits(Add(a, b), c, n) == Add(MulBits(a, c, n), MulBits(b, c, n))
    decreases n
  {
    if n > 0 {
      XTimeAdd(a, b);
      MulBitsAdd(XTime(a), XTime(b), Shr(c), n - 1);
      AddSwap(Term(c.b0, a), Term(c.b0, b), MulBits(XTime(a), Shr(c), n - 1), MulBits(XTime(b), Shr(c), n - 1));
    }
  }

  lemma {:induction false} MulBitsZero(a: Byte, n: nat)
    ensures MulBits(ZERO, a, n) == ZERO && MulBits(a, ZERO, n) == ZERO
    decreases n
  {
    if n > 0 {
      MulBitsZero(Shr(a), n - 1);
      MulBitsZero(XTime(a), n - 1);
    }
  }

  /** b has no coefficient of degree n or above. */
  predicate Fits(b: Byte, n: nat)
    decreases n, b
  {
    if n == 0 then b == ZERO else Fits(Shr(b), n - 1)
  }

  lemma EveryByteFits(b: Byte)
    ensures Fits(b, 8)
  {
    var b2 := Shr(Shr(b));
    var b4 := Shr(Shr(b2));
    var b6 := Shr(Shr(b4));
    assert Shr(Shr(b6)) == ZERO;
    assert Fits(b6, 2);
    assert Fits(b4, 4);
    assert Fits(b2, 6);
  }

  lemma {:induction false} MulBitsOne(b: Byte, n: nat)
    requires n <= 8 && Fits(b, n)
    ensures MulBits(ONE, b, n) == b
    decreases n
  {
    if n > 0 {
      MulBitsOne(Shr(b), n - 1);
      MulBitsXTime(ONE, Shr(b), n - 1);
    }
  }

  lemma MulOne(b: Byte)
    ensures Mul(ONE, b) == b
  {
    EveryByteFits(b);
    MulBitsOne(b, 8);
  }

  lemma MulZero(a: Byte)
    ensures Mul(a, ZERO) == ZERO && Mul(ZERO, a) == ZERO
  {
    MulBitsZero(a, 8);
  }

  lemma MulXTime(a: Byte, b: Byte)
    ensures Mul(XTime(a), b) == XTime(Mul(a, b))
  {
    MulBitsXTime(a, b, 8);
  }

  lemma PowStep(n: nat, k: nat)
    requires k == n + 1
    ensures Pow(k) == XTime(Pow(n))
  {}

  lemma PowZero()
    ensures Pow(0) == ONE
  {}

  lemma {:induction false} PowTimes(m: nat, b: Byte, n: nat)
    requires b == Pow(n)
    ensures Mul(Pow(m), b) == Pow(m + n)
    decreases m
  {
    hide *;
    if m == 0 {
      PowZero();
      MulOne(b);
    } else {
      PowTimes(m - 1, b, n);
      PowStep(m - 1, m);
      PowStep(m - 1 + n, m + n);
      MulXTime(Pow(m - 1), b);
    }
  }

  lemma PowAdd(m: nat, n: nat)
    ensures Mul(Pow(m), Pow(n)) == Pow(m + n)
  {
    PowTimes(m, Pow(n), n);
  }

  lemma {:induction false} PowNonZero(n: nat)
    ensures Pow(n) != ZERO
  {
    if n > 0 { PowNonZero(n - 1); XTimeZero(Pow(n - 1)); }
  }

  lemma MulUnrolled(a: Byte, b: Byte)
    ensures Mul(a, b) ==
      var a2, a4, a6 := XTime(XTime(a)), XTime(XTime(XTime(XTime(a)))), XTime(XTime(XTime(XTime(XTime(XTime(a))))));
      Add(Term(b.b0, a), Add(Term(b.b1, XTime(a)), Add(Term(b.b2, a2), Add(Term(b.b3, XTime(a2)),
      Add(Term(b.b4, a4), Add(Term(b.b5, XTime(a4)), Add(Term(b.b6, a6), Term(b.b7, XTime(a6)))))))))
  {
    hide XTime, Add, Term;
    MulBitsTwo(a, b, 6);
    MulBitsTwo(XTime(XTime(a)), Shr(Shr(b)), 4);
    MulBitsTwo(XTime(XTime(XTime(XTime(a)))), Shr(Shr(Shr(Shr(b)))), 2);
    MulBitsTwo(XTime(XTime(XTime(XTime(XTime(XTime(a)))))), Shr(Shr(Shr(Shr(Shr(Shr(b)))))), 0);
    AddZero(Term(b.b7, XTime(XTime(XTime(XTime(XTime(XTime(XTime(a)))))))));
  }

  lemma MulBitsTwo(a: Byte, b: Byte, n: nat)
    ensures MulBits(a, b, n + 2) ==
      Add(Term(b.b0, a), Add(Term(b.b1, XTime(a)), MulBits(XTime(XTime(a)), Shr(Shr(b)), n)))
  {}

  function Hex(hi: nat, lo: nat): Byte {
    Byte(hi / 8 % 2 == 1, hi / 4 % 2 == 1, hi / 2 % 2 == 1, hi % 2 == 1,
         lo / 8 % 2 == 1, lo / 4 % 2 == 1, lo / 2 % 2 == 1, lo % 2 == 1)
  }

  lemma PowDouble(n: nat, x: Byte, y: Byte)
    requires Pow(n) == x && Mul(x, x) == y
    ensures Pow(2 * n) == y
  {
    PowAdd(n, n);
  }

  lemma Square16()
    ensures Mul(Hex(4, 0xC), Hex(4, 0xC)) == Hex(9, 0xD)
  {
    hide Mul;
    assert XTime(Hex(4, 0xC)) == Hex(9, 8);
    assert XTime(Hex(9, 8)) == Hex(2, 0xD);
    assert XTime(Hex(2, 0xD)) == Hex(5, 0xA);
    assert XTime(Hex(5, 0xA)) == Hex(0xB, 4);
    assert XTime(Hex(0xB, 4)) == Hex(7, 5);
    assert XTime(Hex(7, 5)) == Hex(0xE, 0xA);
    assert XTime(Hex(0xE, 0xA)) == Hex(0xC, 9);
    MulUnrolled(Hex(4, 0xC), Hex(4, 0xC));
  }

  lemma Square32()
    ensures Mul(Hex(9, 0xD), Hex(9, 0xD)) == Hex(5, 0xF)
  {
    hide Mul;
    assert XTime(Hex(9, 0xD)) == Hex(2, 7);
    assert XTime(Hex(2, 7)) == Hex(4, 0xE);
    assert XTime(Hex(4, 0xE)) == Hex(9, 0xC);
    assert XTime(Hex(9, 0xC)) == Hex(2, 5);
    assert XTime(Hex(2, 5)) == Hex(4, 0xA);
    assert XTime(Hex(4, 0xA)) == Hex(9, 4);
    assert XTime(Hex(9, 4)) == Hex(3, 5);
    MulUnrolled(Hex(9, 0xD), Hex(9, 0xD));
  }

  lemma Square64()
    ensures Mul(Hex(5, 0xF), Hex(5, 0xF)) == Hex(8, 5)
  {
    hide Mul;
    assert XTime(Hex(5, 0xF)) == Hex(0xB, 0xE);
    assert XTime(Hex(0xB, 0xE)) == Hex(6, 1);
    assert XTime(Hex(6, 1)) == Hex(0xC, 2);
    assert XTime(Hex(0xC, 2)) == Hex(9, 9);
    assert XTime(Hex(9, 9)) == Hex(2, 0xF);
    assert XTime(Hex(2, 0xF)) == Hex(5, 0xE);
    assert XTime(Hex(5, 0xE)) == Hex(0xB, 0xC);
    MulUnrolled(Hex(5, 0xF), Hex(5, 0xF));
  }

  lemma Square128()
    ensures Mul(Hex(8, 5), Hex(8, 5)) == Hex(0, 2)
  {
    hide Mul;
    assert XTime(Hex(8, 5)) == Hex(1, 7);
    assert XTime(Hex(1, 7)) == Hex(2, 0xE);
    assert XTime(Hex(2, 0xE)) == Hex(5, 0xC);
    assert XTime(Hex(5, 0xC)) == Hex(0xB, 8);
    assert XTime(Hex(0xB, 8)) == Hex(6, 0xD);
    assert XTime(Hex(6, 0xD)) == Hex(0xD, 0xA);
    assert XTime(Hex(0xD, 0xA)) == Hex(0xA, 9);
    MulUnrolled(Hex(8, 5), Hex(8, 5));
  }

  function XTime4(a: Byte): Byte { XTime(XTime(XTime(XTime(a)))) }

  lemma PowPlus4(n: nat)
    ensures Pow(n + 4) == XTime4(Pow(n))
  {
    hide XTime;
    PowStep(n, n + 1);
    PowStep(n + 1, n + 2);
    PowStep(n + 2, n + 3);
    PowStep(n + 3, n + 4);
  }

  lemma PowFour(n: nat, x: Byte, y: Byte)
    requires Pow(n) == x && XTime4(x) == y
    ensures Pow(n + 4) == y
  {
    PowPlus4(n);
  }

  lemma Pow16(n: nat)
    requires n == 16
    ensures Pow(n) == Hex(4, 0xC)
  {
    hide Pow;
    PowZero();
    PowFour(0, ONE, Hex(1, 0));
    PowFour(4, Hex(1, 0), Hex(1, 0xD));
    PowFour(8, Hex(1, 0xD), Hex(0xC, 0xD));
    PowFour(12, Hex(0xC, 0xD), Hex(4, 0xC));
  }

  lemma PowersOf16(n: nat)
    requires n == 16
    ensures Pow(4 * n) == Hex(5, 0xF) && Pow(16 * n) == Hex(0, 2)
    ensures Pow(2 * n) == Hex(9, 0xD) && Pow(8 * n) == Hex(8, 5)
  {
    hide *;
    Pow16(n);
    Square16();
    Square32();
    Square64();
    Square128();
    PowDouble(n, Hex(4, 0xC), Hex(9, 0xD));
    PowDouble(2 * n, Hex(9, 0xD), Hex(5, 0xF));
    PowDouble(4 * n, Hex(5, 0xF), Hex(8, 5));
    PowDouble(8 * n, Hex(8, 5), Hex(0, 2));
  }

  lemma XTimeOne()
    ensures XTime(ONE) == Hex(0, 2)
  {}

  /** 2 has period 255. */
  lemma PowPeriod(n: nat)
    ensures Pow(255) == ONE
    ensures Pow(n + 255) == Pow(n)
  {
    hide *;
    PowersOf16(16);
    PowStep(255, 256);
    XTimeOne();
    XTimeInjective(Pow(255), ONE);
    PowAdd(255, n);
    MulOne(Pow(n));
  }

  lemma SmallPowers()
    ensures Pow(1) != ONE && Pow(3) != ONE && Pow(5) != ONE && Pow(15) != ONE && Pow(17) != ONE
  {
    hide Pow;
    PowZero();
    PowStep(0, 1);
    PowStep(1, 2);
    PowStep(2, 3);
    PowPlus4(1);
    PowPlus4(3);
    PowPlus4(7);
    PowPlus4(11);
    Pow16(16);
    PowStep(16, 17);
  }

  /** 64 and 128 exceed 51 and 85 by 13 and 43, and 2^64 != 2^13, 2^128 != 2^43. */
  lemma Pow51And85()
    ensures Pow(51) != ONE && Pow(85) != ONE
  {
    hide *;
    PowersOf16(16);
    PowAdd(51, 13);
    PowAdd(85, 43);
    MulOne(Pow(13));
    MulOne(Pow(43));
    Pow13And43();
  }

  lemma Pow13And43()
    ensures Pow(13) != Hex(5, 0xF) && Pow(43) != Hex(8, 5)
  {
    hide Pow;
    PowZero();
    PowStep(0, 1);
    PowPlus4(1);
    PowPlus4(5);
    PowPlus4(9);
    PowersOf16(16);
    PowPlus4(32);
    PowPlus4(36);
    PowStep(40, 41);
    PowStep(41, 42);
    PowStep(42, 43);
  }

  lemma {:induction false} PowMultiple(k: nat, q: nat)
    requires Pow(k) == ONE
    ensures Pow(k * q) == ONE
    decreases q
  {
    hide *;
    PowZero();
    if q > 0 {
      PowMultiple(k, q - 1);
      PowAdd(k * (q - 1), k);
      MulOne(ONE);
      assert k * (q - 1) + k == k * q;
    }
  }

  lemma DivisorsOf255(k: nat)
    requires 0 < k < 255 && 255 % k == 0
    ensures k in {1, 3, 5, 15, 17, 51, 85}
  {
    var q := 255 / k;
    assert k * q == 255;
    if k > 15 {
      assert q <= 15;
    }
  }

  /** 2 is primitive: 255 is the least exponent that gives 1. */
  lemma {:induction false} OrderIs255(k: nat)
    requires 0 < k < 255
    ensures Pow(k) != ONE
    decreases k
  {
    hide *;
    if Pow(k) == ONE {
      var q, r := 255 / k, 255 % k;
      PowPeriod(0);
      PowMultiple(k, q);
      PowAdd(k * q, r);
      MulOne(Pow(r));
      assert k * q + r == 255;
      if r == 0 {
        DivisorsOf255(k);
        SmallPowers();
        Pow51And85();
      } else {
        OrderIs255(r);
      }
    }
  }

  lemma {:induction false} PowInjective(i: nat, j: nat)
    requires i < 255 && j < 255 && Pow(i) == Pow(j)
    ensures i == j
    decreases i + j
  {
    hide *;
    PowZero();
    if i > 0 && j > 0 {
      PowStep(i - 1, i);
      PowStep(j - 1, j);
      XTimeInjective(Pow(i - 1), Pow(j - 1));
      PowInjective(i - 1, j - 1);
    } else if i > 0 {
      OrderIs255(i);
    } else if j > 0 {
      OrderIs255(j);
    }
  }

  ghost function PowNumbers(n: nat): set<int> {
    if n == 0 then {} else PowNumbers(n - 1) + {ToNat(Pow(n - 1))}
  }

  lemma {:induction false} Exponent(n: nat, x: int) returns (i: nat)
    requires x in PowNumbers(n)
    ensures i < n && ToNat(Pow(i)) == x
    decreases n
  {
    hide Pow, ToNat;
    if x == ToNat(Pow(n - 1)) { i := n - 1; } else { i := Exponent(n - 1, x); }
  }

  lemma {:induction false} PowNumbersSize(n: nat)
    requires n <= 255
    ensures |PowNumbers(n)| == n
    decreases n
  {
    hide Pow, ToNat;
    if n > 0 {
      PowNumbersSize(n - 1);
      if ToNat(Pow(n - 1)) in PowNumbers(n - 1) {
        var i := Exponent(n - 1, ToNat(Pow(n - 1)));
        ToNatInjective(Pow(i), Pow(n - 1));
        PowInjective(i, n - 1);
      }
    }
  }

  ghost function Upto(n: nat): set<int> {
    if n == 0 then {} else Upto(n - 1) + {n}
  }

  lemma {:induction false} UptoIs(n: nat)
    ensures |Upto(n)| == n
    ensures forall x :: x in Upto(n) <==> 1 <= x <= n
  {
    if n > 0 { UptoIs(n - 1); }
  }

  lemma {:induction false} ValueOfZeros(bits: seq<bool>)
    requires forall i :: 0 <= i < |bits| ==> !bits[i]
    ensures Value(bits) == 0
    decreases |bits|
  {
    if bits != [] { ValueOfZeros(bits[..|bits| - 1]); }
  }

  lemma ToNatZero(a: Byte)
    ensures ToNat(a) == 0 <==> a == ZERO
  {
    ValueOfZeros(BitsOf(ZERO));
    if ToNat(a) == 0 { ToNatInjective(a, ZERO); }
  }

  /** Every non-zero byte is a power of 2 with exponent below 255. */
  lemma EveryByteIsAPower(a: Byte)
    requires a != ZERO
    ensures exists i: nat :: IsLog(i, a)
  {
    hide *;
    PowNumbersSize(255);
    UptoIs(255);
    forall x | x in PowNumbers(255) ensures x in Upto(255) {
      var k := Exponent(255, x);
      PowNonZero(k);
      ToNatZero(Pow(k));
    }
    SubsetSize(PowNumbers(255), Upto(255));
    ToNatZero(a);
    var i := Exponent(255, ToNat(a));
    ToNatInjective(Pow(i), a);
    IsLogIntro(i, a);
  }

  ghost predicate IsLog(i: nat, a: Byte) { i < 255 && Pow(i) == a }

  lemma IsLogIntro(i: nat, a: Byte)
    requires i < 255 && Pow(i) == a
    ensures IsLog(i, a)
  {}

  /** The exponent of a non-zero byte. */
  ghost function Log(a: Byte): (i: nat)
    requires a != ZERO
    ensures i < 255 && Pow(i) == a
  {
    EveryByteIsAPower(a);
    var i: nat :| IsLog(i, a);
    i
  }

  // The field laws.

  lemma MulComm(a: Byte, b: Byte)
    ensures Mul(a, b) == Mul(b, a)
  {
    hide *;
    MulZero(a);
    MulZero(b);
    if a != ZERO && b != ZERO {
      PowAdd(Log(a), Log(b));
      PowAdd(Log(b), Log(a));
    }
  }

  lemma MulAssoc(a: Byte, b: Byte, c: Byte)
    ensures Mul(Mul(a, b), c) == Mul(a, Mul(b, c))
  {
    hide *;
    MulZero(a);
    MulZero(b);
    MulZero(c);
    MulZero(Mul(a, b));
    MulZero(Mul(b, c));
    if a != ZERO && b != ZERO && c != ZERO {
      var i, j, k := Log(a), Log(b), Log(c);
      PowAdd(i, j);
      PowAdd(j, k);
      PowAdd(i + j, k);
      PowAdd(i, j + k);
    }
  }

  lemma NoZeroDivisors(a: Byte, b: Byte)
    requires Mul(a, b) == ZERO
    ensures a == ZERO || b == ZERO
  {
    hide *;
    if a != ZERO && b != ZERO {
      PowAdd(Log(a), Log(b));
      PowNonZero(Log(a) + Log(b));
    }
  }

  lemma MulDistrib(a: Byte, b: Byte, c: Byte)
    ensures Mul(Add(a, b), c) == Add(Mul(a, c), Mul(b, c))
    ensures Mul(c, Add(a, b)) == Add(Mul(c, a), Mul(c, b))
  {
    hide *;
    MulAdd(a, b, c);
    MulComm(c, Add(a, b));
    MulComm(c, a);
    MulComm(c, b);
  }

  lemma MulAdd(a: Byte, b: Byte, c: Byte)
    ensures Mul(Add(a, b), c) == Add(Mul(a, c), Mul(b, c))
  {
    MulBitsAdd(a, b, c, 8);
  }

  // The tables.

  datatype Tables = Tables(exp: seq<Byte>, log: seq<nat>) {
    /** exp[i] is 2^i, two periods long so that two logarithms can be added unreduced. */
    ghost predicate Valid() {
      && |exp| == 512 && |log| == 256
      && (forall i :: 0 <= i < 512 ==> exp[i] == Pow(i))
      && (forall a: Byte :: a != ZERO ==> log[ToNat(a)] < 255 && Pow(log[ToNat(a)]) == a)
    }

    /** Multiplication through the tables is multiplication of polynomials modulo 0x11D. */
    function GfMul(a: Byte, b: Byte): (r: Byte)
      requires Valid()
      ensures r == Mul(a, b)
    {
      hide Mul, Pow, ToNat;
      MulZero(a);
      MulZero(b);
      if a == ZERO || b == ZERO then ZERO
      else
        PowAdd(log[ToNat(a)], log[ToNat(b)]);
        exp[log[ToNat(a)] + log[ToNat(b)]]
    }
  }

  method BuildTables() returns (t: Tables)
    ensures t.Valid()
  {
    hide Mul, Pow, XTime, ToNat;
    var exp := new Byte[512](i => ZERO);
    var log := new nat[256](i => 0);
    var x := ONE;
    PowZero();
    for i := 0 to 255
      invariant x == Pow(i)
      invariant forall k :: 0 <= k < i ==> exp[k] == Pow(k) && log[ToNat(Pow(k))] == k
    {
      exp[i] := x;
      forall k | 0 <= k < i ensures ToNat(Pow(k)) != ToNat(x) {
        if ToNat(Pow(k)) == ToNat(x) {
          ToNatInjective(Pow(k), x);
          PowInjective(k, i);
        }
      }
      log[ToNat(x)] := i;
      PowStep(i, i + 1);
      x := XTime(x);
    }
    for i := 255 to 512
      invariant forall k :: 0 <= k < 255 ==> log[ToNat(Pow(k))] == k
      invariant forall k :: 0 <= k < i ==> exp[k] == Pow(k)
    {
      PowPeriod(i - 255);
      exp[i] := exp[i - 255];
    }
    t := Tables(exp[..], log[..]);
    forall a: Byte | a != ZERO ensures t.log[ToNat(a)] < 255 && Pow(t.log[ToNat(a)]) == a {
      assert Pow(Log(a)) == a;
    }
    assert t.Valid();
  }
}
