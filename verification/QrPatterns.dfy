/** The data mask patterns as drawings and the format information as a reader looks it up,
    ISO/IEC 18004:2015 sections 7.8.2 and 7.9.1. */
module QrPatterns {
  import opened Bits
  import opened Zigzag
  import opened QrGrid
  import opened QrMask
  import opened QrEncode
  import Gf256

  /** The eight patterns row by row, as drawn: which columns of a row they invert. */
  predicate InvertsAt(k: nat, x: nat, y: nat)
    requires k < 8
  {
    match k
    case 0 => x % 2 == y % 2
    case 1 => y % 2 == 0
    case 2 => x % 3 == 0
    case 3 => x % 3 == (if y % 3 == 0 then 0 else 3 - y % 3)
    case 4 => x % 6 < 3 <==> y % 4 < 2
    case _ => Row(k, y % 6, x % 2, x % 3, x % 6)
  }

  /** Row y of the six of a pattern made of products, at a column given by its remainders. */
  predicate Row(k: nat, y: nat, two: nat, three: nat, six: nat) {
    match y
    case 0 => k < 7 || two == 0
    case 1 => if k == 5 then six == 0 else if k == 6 then six < 3 else six >= 3
    case 2 => if k == 5 then three == 0 else if k == 6 then three < 2 else six in {0, 4, 5}
    case 3 => if k < 7 then two == 0 else two == 1
    case 4 => if k == 5 then three == 0 else if k == 6 then three != 1 else six < 3
    case _ => if k == 5 then six == 0 else if k == 6 then six in {0, 4, 5} else six in {1, 2, 3}
  }

  lemma OddProduct(x: nat, y: nat)
    ensures x * y % 2 == (x % 2) * (y % 2)
  {
    var (a, b, v) := (x / 2, y / 2, y % 2);
    if x % 2 == 0 {
      assert x * y == 2 * (a * y) by { assert x == 2 * a; }
      QuotientIs(x * y, 2, a * y, 0);
    } else {
      assert x * y == 2 * (a * y) + y by { assert x == 2 * a + 1; }
      QuotientIs(x * y, 2, a * y + b, v);
    }
  }

  lemma ThirdProduct(x: nat, y: nat)
    ensures x * y % 3 == if x % 3 == 0 || y % 3 == 0 then 0 else if x % 3 == y % 3 then 1 else 2
  {
    var (a, b, u, v) := (x / 3, y / 3, x % 3, y % 3);
    assert x * y == 3 * (a * y) + u * y by { assert x == 3 * a + u; }
    assert u * y == 3 * (u * b) + u * v by { assert y == 3 * b + v; }
    var t := a * y + u * b;
    assert x * y == 3 * t + u * v;
    if u == 0 || v == 0 {
      assert u * v == 0;
    } else if u == 1 {
      assert u * v == v;
    } else {
      assert u * v == 2 * v;
    }
  }

  /** A remainder by six, and the remainders by two and three it fixes. */
  predicate Remainders(six: nat, two: nat, three: nat) {
    six < 6 && two == (if six in {0, 2, 4} then 0 else 1) && three == if six < 3 then six else six - 3
  }

  lemma Sixth(x: nat)
    ensures Remainders(x % 6, x % 2, x % 3)
  {
    var (q, r) := (x / 6, x % 6);
    QuotientIs(x, 2, 3 * q + r / 2, r % 2);
    QuotientIs(x, 3, 2 * q + r / 3, r % 3);
  }

  lemma ThirdSum(x: nat, y: nat)
    ensures (x + y) % 3 == 0 <==> x % 3 == (if y % 3 == 0 then 0 else 3 - y % 3)
  {}

  lemma SumEven(a: nat, b: nat)
    ensures (a + b) % 2 == 0 <==> a % 2 == b % 2
  {}

  lemma HalvesOfSix(x: nat)
    ensures x / 3 % 2 == 0 <==> x % 6 < 3
  {
    var (q, r) := (x / 6, x % 6);
    assert x / 3 == 2 * q + (if r < 3 then 0 else 1);
  }

  lemma HalvesOfFour(y: nat)
    ensures y / 2 % 2 == 0 <==> y % 4 < 2
  {
    var (q, r) := (y / 4, y % 4);
    assert y / 2 == 2 * q + (if r < 2 then 0 else 1);
  }

  lemma HalfSum(x: nat, y: nat)
    ensures (x / 3 + y / 2) % 2 == 0 <==> (x % 6 < 3 <==> y % 4 < 2)
  {
    SumEven(x / 3, y / 2);
    HalvesOfSix(x);
    HalvesOfFour(y);
  }

  lemma ProductRows(k: nat, y: nat, y2: nat, y3: nat, x: nat, x2: nat, x3: nat)
    requires 5 <= k < 8 && Remainders(x, x2, x3) && Remainders(y, y2, y3)
    ensures var odd, third := x2 * y2, if x3 == 0 || y3 == 0 then 0 else if x3 == y3 then 1 else 2;
      Row(k, y, x2, x3, x) <==>
        if k == 5 then odd + third == 0 else if k == 6 then (odd + third) % 2 == 0
        else ((if x2 == y2 then 0 else 1) + third) % 2 == 0
  {}

  /** The formulas draw these rows. */
  lemma Patterns(k: nat, x: nat, y: nat)
    requires k < 8
    ensures MaskBit(k, x, y) <==> InvertsAt(k, x, y)
  {
    if k == 0 {
      SumEven(x, y);
    } else if k == 3 {
      ThirdSum(x, y);
    } else if k == 4 {
      HalfSum(x, y);
    } else if k >= 5 {
      OddProduct(x, y);
      ThirdProduct(x, y);
      Sixth(x);
      Sixth(y);
      SumEven(x, y);
      ProductRows(k, y % 6, y % 2, y % 3, x % 6, x % 2, x % 3);
      hide Row;
    }
  }

  // Format information.

  /** The format information of level M, mask by mask, as the standard lists it. */
  function FormatWord(k: nat): bv32
    requires k < 8
  {
    [0x5412, 0x5125, 0x5E7C, 0x5B4B, 0x45F9, 0x40CE, 0x4F97, 0x4AA0][k]
  }

  /** Bit i of that word. */
  predicate Listed(k: nat, i: nat)
    requires k < 8 && i < 15
  {
    BitAt(FormatWord(k), i)
  }

  /** The remainder computed gives the listed words. */
  lemma FormatBitsListed(k: nat)
    requires k < 8
    ensures FormatBits(k) == FormatWord(k)
  {
    LowMasks();
    HighMasks();
    hide FormatBits;
  }

  lemma LowMasks()
    ensures FormatBits(0) == 0x5412 && FormatBits(1) == 0x5125 && FormatBits(2) == 0x5E7C && FormatBits(3) == 0x5B4B
  {}

  lemma HighMasks()
    ensures FormatBits(4) == 0x45F9 && FormatBits(5) == 0x40CE && FormatBits(6) == 0x4F97 && FormatBits(7) == 0x4AA0
  {}

  lemma FormatBitIsListed(k: nat, i: nat)
    requires k < 8 && i < 15
    ensures FormatBit(k, i) <==> Listed(k, i)
  {
    hide FormatWord, FormatBits, BitAt;
    FormatBitsListed(k);
  }

  /** Where a reader finds bit i: down the column and along the row beside the top left finder, and again
      beside the other two. */
  function FirstPlace(i: nat): Cell
    requires i < 15
  {
    if i <= 5 then Cell(8, i)
    else if i == 6 then Cell(8, 7)
    else if i == 7 then Cell(8, 8)
    else if i == 8 then Cell(7, 8)
    else Cell(14 - i, 8)
  }

  function SecondPlace(n: nat, i: nat): Cell
    requires i < 15
  {
    if i < 8 then Cell(n - 1 - i, 8) else Cell(8, n - 15 + i)
  }

  lemma Places(n: nat, i: nat)
    requires n >= 21 && i < 15
    ensures Inside(FirstPlace(i), n) && FormatIndex(n, FirstPlace(i)) == i
    ensures Inside(SecondPlace(n, i), n) && FormatIndex(n, SecondPlace(n, i)) == i
    ensures Inside(Cell(8, n - 8), n) && FormatIndex(n, Cell(8, n - 8)) == 15
  {}

  lemma FormatAt(code: Code, p: Pattern, version: nat, data: seq<Gf256.Byte>, c: Cell)
    requires Correct(code, p, version, data) && WellFormed(p, version) && Inside(c, code.size)
    requires FormatIndex(code.size, c) >= 0
    ensures code.mask < 8 && At(code.modules, c) == FormatDark(code.mask, FormatIndex(code.size, c))
  {
    hide Correct, WellFormed, FormatDark, FormatIndex, At, MaskBit;
    SizeOf(code, p, version, data);
    EveryModule(code, p, version, data, c);
  }

  /** In a correct symbol both copies spell the listed word for its mask, and the dark module is dark. */
  lemma FormatReads(code: Code, p: Pattern, version: nat, data: seq<Gf256.Byte>, i: nat)
    requires Correct(code, p, version, data) && WellFormed(p, version) && i < 15
    ensures code.mask < 8 && code.size >= 21
    ensures At(code.modules, FirstPlace(i)) <==> Listed(code.mask, i)
    ensures At(code.modules, SecondPlace(code.size, i)) <==> Listed(code.mask, i)
    ensures At(code.modules, Cell(8, code.size - 8))
  {
    hide Correct, WellFormed, FormatBit, FormatIndex, At, Listed;
    SizeOf(code, p, version, data);
    Places(code.size, i);
    FormatBitIsListed(code.mask, i);
    FormatAt(code, p, version, data, FirstPlace(i));
    FormatAt(code, p, version, data, SecondPlace(code.size, i));
    FormatAt(code, p, version, data, Cell(8, code.size - 8));
  }

  lemma SizeOf(code: Code, p: Pattern, version: nat, data: seq<Gf256.Byte>)
    requires Correct(code, p, version, data)
    ensures 1 <= version <= 10 && code.size == 17 + 4 * version && code.mask < 8
  {}

  /** Bits 10 to 12 are the mask's own, but for the fixed inversion. */
  lemma MaskBits(k: nat)
    requires k < 8
    ensures Listed(k, 10) <==> k % 2 == 0
    ensures Listed(k, 11) <==> k / 2 % 2 == 1
    ensures Listed(k, 12) <==> k < 4
  {}

  /** The word tells the mask: no two are alike. */
  lemma FormatTellsMask(k: nat, m: nat)
    requires k < 8 && m < 8 && forall i :: 0 <= i < 15 ==> (FormatBit(k, i) <==> FormatBit(m, i))
    ensures k == m
  {
    hide FormatBit, Listed;
    forall i | 10 <= i < 13 ensures Listed(k, i) <==> Listed(m, i) {
      FormatBitIsListed(k, i);
      FormatBitIsListed(m, i);
    }
    MaskBits(k);
    MaskBits(m);
  }
}
