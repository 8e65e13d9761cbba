/** Bit strings, most significant bit first, and the numbers they write. */
module Bits {
  function Pow2(k: nat): (p: nat)
    ensures p > 0
  {
    if k == 0 then 1 else 2 * Pow2(k - 1)
  }

  function Value(bits: seq<bool>): nat {
    if bits == [] then 0
    else 2 * Value(bits[..|bits| - 1]) + (if bits[|bits| - 1] then 1 else 0)
  }

  /** The n low bits of val. */
  function ToBits(val: nat, n: nat): (bits: seq<bool>)
    ensures |bits| == n
  {
    if n == 0 then [] else ToBits(val / 2, n - 1) + [val % 2 == 1]
  }

  lemma {:induction false} ToBitsOfValue(bits: seq<bool>)
    ensures ToBits(Value(bits), |bits|) == bits
    ensures Value(bits) < Pow2(|bits|)
    decreases |bits|
  {
    if bits != [] { ToBitsOfValue(bits[..|bits| - 1]); }
  }

  /** Writing a number in n bits keeps it modulo 2^n. */
  lemma {:induction false} ValueOfToBits(val: nat, n: nat)
    ensures Value(ToBits(val, n)) == val % Pow2(n)
    ensures val < Pow2(n) ==> Value(ToBits(val, n)) == val
    decreases n
  {
    if n > 0 {
      ValueOfToBits(val / 2, n - 1);
      assert ToBits(val, n)[..n - 1] == ToBits(val / 2, n - 1);
      HalfModulo(val, Pow2(n - 1));
    }
  }

  lemma HalfModulo(val: nat, p: nat)
    requires p > 0
    ensures 2 * (val / 2 % p) + val % 2 == val % (2 * p)
  {
    var q, r := val / 2 / p, 2 * (val / 2 % p) + val % 2;
    assert val / 2 == p * q + val / 2 % p;
    assert val == (2 * p) * q + r;
    QuotientIs(val, 2 * p, q, r);
  }

  lemma QuotientIs(val: nat, p: nat, q: nat, r: nat)
    requires 0 <= r < p && val == p * q + r
    ensures val % p == r
  {
    var d := val / p - q;
    assert p * d == r - val % p;
    TimesAtLeast(p, d);
  }

  lemma TimesAtLeast(p: int, d: int)
    requires p > 0
    ensures d > 0 ==> p * d >= p
    ensures d < 0 ==> p * d <= -p
  {}
}
