/** Reed-Solomon codewords over GF(256), ISO/IEC 18004:2015 section 7.5.

    Polynomials are coefficient sequences, highest power first, as in the
    encoder.  Besides the division identity the module proves what the code is
    for: two codewords of the same length that differ at all differ in more
    positions than there are error correction codewords. */
module ReedSolomon {
  import opened Gf256

  function Zeros(n: nat): seq<Byte> { seq(n, i => ZERO) }

  function Sum(p: seq<Byte>, q: seq<Byte>): (r: seq<Byte>)
    requires |p| == |q|
    ensures |r| == |p|
  {
    seq(|p|, i requires 0 <= i < |p| => Add(p[i], q[i]))
  }

  function Scale(p: seq<Byte>, c: Byte): (r: seq<Byte>)
    ensures |r| == |p|
  {
    seq(|p|, i requires 0 <= i < |p| => Mul(p[i], c))
  }

  /** The product of two polynomials, one coefficient of q at a time. */
  function Product(q: seq<Byte>, g: seq<Byte>): (r: seq<Byte>)
    requires |g| > 0
    ensures |r| == |q| + |g| - 1
    decreases |q|
  {
    if q == [] then Zeros(|g| - 1)
    else
      var k := |q| - 1;
      Sum(Product(q[..k], g) + [ZERO], Zeros(k) + Scale(g, q[k]))
  }

  /** The value at x, by Horner's rule. */
  function Eval(p: seq<Byte>, x: Byte): Byte
    decreases |p|
  {
    if p == [] then ZERO else Add(Mul(Eval(p[..|p| - 1], x), x), p[|p| - 1])
  }

  /** The product of (x - 2^i) for i below d. */
  function Generator(d: nat): (g: seq<Byte>)
    ensures |g| == d + 1
  {
    if d == 0 then [ONE] else Product(Generator(d - 1), [ONE, Pow(d - 1)])
  }

  // Evaluation is a ring homomorphism.

  lemma {:induction false} EvalSum(p: seq<Byte>, q: seq<Byte>, x: Byte)
    requires |p| == |q|
    ensures Eval(Sum(p, q), x) == Add(Eval(p, x), Eval(q, x))
    decreases |p|
  {
    hide Add, Mul;
    if p == [] {
      AddZero(ZERO);
    } else {
      var n := |p| - 1;
      EvalSum(p[..n], q[..n], x);
      assert Sum(p, q)[..n] == Sum(p[..n], q[..n]);
      MulDistrib(Eval(p[..n], x), Eval(q[..n], x), x);
      AddSwap(Mul(Eval(p[..n], x), x), Mul(Eval(q[..n], x), x), p[n], q[n]);
    }
  }

  lemma {:induction false} EvalScale(p: seq<Byte>, c: Byte, x: Byte)
    ensures Eval(Scale(p, c), x) == Mul(Eval(p, x), c)
    decreases |p|
  {
    hide Add, Mul;
    if p == [] {
      MulZero(c);
    } else {
      var n := |p| - 1;
      var e := Eval(p[..n], x);
      EvalScale(p[..n], c, x);
      assert Scale(p, c)[..n] == Scale(p[..n], c);
      MulDistrib(Mul(e, x), p[n], c);
      MulAssoc(e, x, c);
      MulComm(x, c);
      MulAssoc(e, c, x);
    }
  }

  lemma {:induction false} EvalZeros(n: nat, x: Byte)
    ensures Eval(Zeros(n), x) == ZERO
  {
    hide Add, Mul;
    if n > 0 {
      EvalZeros(n - 1, x);
      assert Zeros(n)[..n - 1] == Zeros(n - 1);
      MulZero(x);
      AddZero(ZERO);
    }
  }

  lemma {:induction false} EvalPadded(n: nat, p: seq<Byte>, x: Byte)
    ensures Eval(Zeros(n) + p, x) == Eval(p, x)
    decreases |p|
  {
    hide Add, Mul;
    if p == [] {
      EvalZeros(n, x);
      assert Zeros(n) + p == Zeros(n);
    } else {
      var k := |p| - 1;
      EvalPadded(n, p[..k], x);
      assert (Zeros(n) + p)[..n + k] == Zeros(n) + p[..k];
    }
  }

  lemma {:induction false} EvalProduct(q: seq<Byte>, g: seq<Byte>, x: Byte)
    requires |g| > 0
    ensures Eval(Product(q, g), x) == Mul(Eval(q, x), Eval(g, x))
    decreases |q|
  {
    hide Add, Mul;
    var y := Eval(g, x);
    if q == [] {
      EvalZeros(|g| - 1, x);
      MulZero(y);
    } else {
      var k := |q| - 1;
      var e := Eval(q[..k], x);
      var shifted := Product(q[..k], g) + [ZERO];
      EvalProduct(q[..k], g, x);
      EvalSum(shifted, Zeros(k) + Scale(g, q[k]), x);
      assert shifted[..|shifted| - 1] == Product(q[..k], g);
      AddZero(Mul(Mul(e, y), x));
      EvalPadded(k, Scale(g, q[k]), x);
      EvalScale(g, q[k], x);
      MulAssoc(e, y, x);
      MulComm(y, x);
      MulAssoc(e, x, y);
      MulComm(y, q[k]);
      MulDistrib(Mul(e, x), q[k], y);
    }
  }

  lemma {:induction false} GeneratorRoot(d: nat, i: nat)
    requires i < d
    ensures Eval(Generator(d), Pow(i)) == ZERO
    decreases d
  {
    hide Add, Mul, Pow;
    var x, c := Pow(i), Pow(d - 1);
    EvalProduct(Generator(d - 1), [ONE, c], x);
    EvalLinear(c, x);
    MulZero(Eval(Generator(d - 1), x));
    MulZero(Add(x, c));
    if i < d - 1 { GeneratorRoot(d - 1, i); } else { AddSelf(x); }
  }

  lemma EvalLinear(c: Byte, x: Byte)
    ensures Eval([ONE, c], x) == Add(x, c)
  {
    hide Add, Mul;
    assert [ONE, c][..1] == [ONE];
    assert [ONE][..0] == [];
    assert Eval([], x) == ZERO;
    assert Eval([ONE], x) == Add(Mul(ZERO, x), ONE);
    MulZero(x);
    AddZero(ONE);
    MulOne(x);
  }

  // The codeword is the data followed by the remainder of the division.

  /** The register of the division after data has been fed in. */
  function Remainder(data: seq<Byte>, gen: seq<Byte>): (r: seq<Byte>)
    requires |gen| > 0
    ensures |r| == |gen|
    decreases |data|
  {
    if data == [] then Zeros(|gen|)
    else
      var k := |data| - 1;
      Shift(Remainder(data[..k], gen), gen, data[k])
  }

  /** One step of the division: shift, and subtract the multiple that cancels the leading coefficient. */
  function Shift(r: seq<Byte>, gen: seq<Byte>, b: Byte): (r': seq<Byte>)
    requires |r| == |gen| > 0
    ensures |r'| == |gen|
  {
    Sum(r[1..] + [ZERO], Scale(gen, Add(b, r[0])))
  }

  ghost function Quotient(data: seq<Byte>, gen: seq<Byte>): (q: seq<Byte>)
    requires |gen| > 0
    ensures |q| == |data|
    decreases |data|
  {
    if data == [] then []
    else
      var k := |data| - 1;
      Quotient(data[..k], gen) + [Add(data[k], Remainder(data[..k], gen)[0])]
  }

  /** A step of the division, in full-length words: the leading coefficient of the register is replaced by the
      coefficient fed in. */
  lemma DivisionStep(before: seq<Byte>, r: seq<Byte>, gen: seq<Byte>, b: Byte)
    requires |r| == |gen| > 0
    ensures Sum(before + r + [ZERO], Zeros(|before|) + Scale([ONE] + gen, Add(b, r[0]))) ==
      before + [b] + Shift(r, gen, b)
  {
    hide Add, Mul;
    var k, f := |before|, Add(b, r[0]);
    var shifted, multiple := before + r + [ZERO], Zeros(k) + Scale([ONE] + gen, f);
    forall i | 0 <= i < |shifted|
      ensures Sum(shifted, multiple)[i] == (before + [b] + Shift(r, gen, b))[i]
    {
      if i < k {
        AddZero(before[i]);
      } else if i == k {
        MulOne(f);
        AddComm(b, r[0]);
        AddCancel(b, r[0]);
      } else {
        assert shifted[i] == (r[1..] + [ZERO])[i - k - 1];
        assert multiple[i] == Scale(gen, f)[i - k - 1];
      }
    }
  }

  /** Data followed by its remainder is a multiple of the monic polynomial [ONE] + gen. */
  lemma {:induction false} CodewordIsMultiple(data: seq<Byte>, gen: seq<Byte>)
    requires |gen| > 0
    ensures Product(Quotient(data, gen), [ONE] + gen) == data + Remainder(data, gen)
    decreases |data|
  {
    hide Add, Mul, Sum, Scale, Shift, Zeros;
    if data == [] {
      EmptyDivision(gen);
    } else {
      var k := |data| - 1;
      CodewordIsMultiple(data[..k], gen);
      DivisionStep(data[..k], Remainder(data[..k], gen), gen, data[k]);
      assert Quotient(data, gen)[..k] == Quotient(data[..k], gen);
      assert data == data[..k] + [data[k]];
    }
  }

  lemma EmptyDivision(gen: seq<Byte>)
    requires |gen| > 0
    ensures Product(Quotient([], gen), [ONE] + gen) == [] + Remainder([], gen)
  {}

  /** A multiple of a monic polynomial whose leading coefficients are all zero is zero. */
  lemma {:induction false} ShortMultipleIsZero(q: seq<Byte>, gen: seq<Byte>)
    requires forall i :: 0 <= i < |q| ==> Product(q, [ONE] + gen)[i] == ZERO
    ensures q == Zeros(|q|) && Product(q, [ONE] + gen) == Zeros(|q| + |gen|)
    decreases |q|
  {
    hide Add, Mul;
    var g := [ONE] + gen;
    if q != [] {
      var k := |q| - 1;
      var before, last := Product(q[..k], g) + [ZERO], Zeros(k) + Scale(g, q[k]);
      forall i | 0 <= i < k ensures Product(q[..k], g)[i] == ZERO {
        assert Product(q, g)[i] == Add(before[i], last[i]);
        AddZero(before[i]);
      }
      ShortMultipleIsZero(q[..k], gen);
      assert before == Zeros(k + |gen| + 1);
      assert Product(q, g)[k] == Add(before[k], last[k]) == Add(ZERO, Mul(ONE, q[k]));
      AddZero(Mul(ONE, q[k]));
      MulOne(q[k]);
      assert q == q[..k] + [q[k]];
      forall i | 0 <= i < |q| + |gen| ensures Product(q, g)[i] == ZERO {
        assert Product(q, g)[i] == Add(before[i], last[i]);
        AddZero(ZERO);
        if i >= k { MulZero(g[i - k]); }
      }
    }
  }

  lemma SumOfLast(a: Byte, b: Byte, g: seq<Byte>, k: nat, i: nat)
    requires i < k + |g|
    ensures (Zeros(k) + Scale(g, Add(a, b)))[i] == Add((Zeros(k) + Scale(g, a))[i], (Zeros(k) + Scale(g, b))[i])
  {
    hide Add, Mul;
    AddZero(ZERO);
    if i >= k { MulDistrib(a, b, g[i - k]); }
  }

  lemma {:induction false} ProductSum(p: seq<Byte>, q: seq<Byte>, g: seq<Byte>)
    requires |p| == |q| && |g| > 0
    ensures Product(Sum(p, q), g) == Sum(Product(p, g), Product(q, g))
    decreases |p|
  {
    hide Add, Mul;
    AddZero(ZERO);
    if p != [] {
      var k := |p| - 1;
      ProductSum(p[..k], q[..k], g);
      assert Sum(p, q)[..k] == Sum(p[..k], q[..k]);
      var pb, pl := Product(p[..k], g) + [ZERO], Zeros(k) + Scale(g, p[k]);
      var qb, ql := Product(q[..k], g) + [ZERO], Zeros(k) + Scale(g, q[k]);
      var sb, sl := Product(Sum(p, q)[..k], g) + [ZERO], Zeros(k) + Scale(g, Add(p[k], q[k]));
      forall i | 0 <= i < |p| + |g| - 1
        ensures Add(sb[i], sl[i]) == Add(Add(pb[i], pl[i]), Add(qb[i], ql[i]))
      {
        SumOfLast(p[k], q[k], g, k, i);
        AddSwap(pb[i], pl[i], qb[i], ql[i]);
      }
    }
  }

  /** The remainder is the only word of its length that completes data to a multiple of the generator. */
  lemma RemainderUnique(data: seq<Byte>, gen: seq<Byte>, q: seq<Byte>, r: seq<Byte>)
    requires |gen| > 0 && |q| == |data| && |r| == |gen|
    requires Product(q, [ONE] + gen) == data + r
    ensures r == Remainder(data, gen) && q == Quotient(data, gen)
  {
    hide Add, Mul;
    var g, q0, r0 := [ONE] + gen, Quotient(data, gen), Remainder(data, gen);
    CodewordIsMultiple(data, gen);
    ProductSum(q, q0, g);
    var both := Product(Sum(q, q0), g);
    forall i | 0 <= i < |data| ensures both[i] == ZERO {
      AddSelf(data[i]);
    }
    ShortMultipleIsZero(Sum(q, q0), gen);
    forall i | 0 <= i < |r| ensures r[i] == r0[i] {
      assert both[|data| + i] == Add((data + r)[|data| + i], (data + r0)[|data| + i]);
      AddIsZero(r[i], r0[i]);
    }
    forall i | 0 <= i < |q| ensures q[i] == q0[i] {
      assert Sum(q, q0)[i] == ZERO;
      AddIsZero(q[i], q0[i]);
    }
  }

  /** The generator polynomial without its leading coefficient, as the encoder keeps it. */
  function GeneratorTail(d: nat): (g: seq<Byte>)
    ensures |g| == d
  {
    Generator(d)[1..]
  }

  lemma {:induction false} GeneratorMonic(d: nat)
    ensures Generator(d)[0] == ONE
    decreases d
  {
    hide Add, Mul, Pow;
    if d > 0 {
      GeneratorMonic(d - 1);
      GeneratorStep(d - 1);
    }
  }

  /** Multiplying by (x - 2^d): each coefficient times 2^d, plus the next lower one. */
  lemma GeneratorStep(d: nat)
    ensures var p, q := Generator(d), Generator(d + 1);
      && q[0] == p[0] && q[d + 1] == Mul(p[d], Pow(d))
      && forall i :: 1 <= i <= d ==> q[i] == Add(Mul(p[i - 1], Pow(d)), p[i])
  {
    hide Add, Mul, Pow;
    ProductLinear(Generator(d), Pow(d));
  }

  lemma {:induction false} ProductLinear(p: seq<Byte>, c: Byte)
    requires |p| > 0
    ensures var q := Product(p, [ONE, c]);
      && q[0] == p[0] && q[|p|] == Mul(p[|p| - 1], c)
      && forall i :: 1 <= i < |p| ==> q[i] == Add(Mul(p[i - 1], c), p[i])
    decreases |p|
  {
    hide Add, Mul;
    var k, g := |p| - 1, [ONE, c];
    var shifted, last := Product(p[..k], g) + [ZERO], Zeros(k) + Scale(g, p[k]);
    assert Product(p, g) == Sum(shifted, last);
    MulOne(p[k]);
    MulComm(c, p[k]);
    AddZero(p[k]);
    AddZero(Mul(p[k], c));
    if k > 0 {
      ProductLinear(p[..k], c);
      forall i | 0 <= i < k ensures Product(p, g)[i] == shifted[i] {
        AddZero(shifted[i]);
      }
      assert shifted[k] == Mul(p[k - 1], c);
    } else {
      assert Product(p[..0], g) == [ZERO];
    }
  }

  function Codeword(data: seq<Byte>, d: nat): (w: seq<Byte>)
    requires d > 0
    ensures |w| == |data| + d
  {
    data + Remainder(data, GeneratorTail(d))
  }

  /** A codeword vanishes at 2^0, ..., 2^(d-1): every syndrome is zero. */
  lemma SyndromesVanish(data: seq<Byte>, d: nat, i: nat)
    requires i < d
    ensures Eval(Codeword(data, d), Pow(i)) == ZERO
  {
    hide Add, Mul, Pow;
    var q := Quotient(data, GeneratorTail(d));
    CodewordIsMultiple(data, GeneratorTail(d));
    GeneratorMonic(d);
    assert [ONE] + GeneratorTail(d) == Generator(d);
    EvalProduct(q, Generator(d), Pow(i));
    GeneratorRoot(d, i);
    MulZero(Eval(q, Pow(i)));
  }

  // Minimum distance.

  /** The number of non-zero coefficients. */
  function Weight(p: seq<Byte>): (w: nat)
    ensures w == 0 ==> forall i :: 0 <= i < |p| ==> p[i] == ZERO
    decreases |p|
  {
    if p == [] then 0 else Weight(p[..|p| - 1]) + (if p[|p| - 1] != ZERO then 1 else 0)
  }

  lemma {:induction false} WeightMono(p: seq<Byte>, q: seq<Byte>)
    requires |p| == |q|
    requires forall i :: 0 <= i < |p| && q[i] == ZERO ==> p[i] == ZERO
    ensures Weight(p) <= Weight(q)
    ensures forall i :: 0 <= i < |p| && p[i] == ZERO && q[i] != ZERO ==> Weight(p) < Weight(q)
    decreases |p|
  {
    if p != [] { WeightMono(p[..|p| - 1], q[..|q| - 1]); }
  }

  /** Each coefficient times the value of its own power of x at 2. */
  function Twist(p: seq<Byte>): (r: seq<Byte>)
    ensures |r| == |p|
  {
    seq(|p|, i requires 0 <= i < |p| => Mul(p[i], Pow(|p| - 1 - i)))
  }

  lemma {:induction false} EvalTwist(p: seq<Byte>, i: nat)
    ensures Eval(Twist(p), Pow(i)) == Eval(p, Pow(i + 1))
    decreases |p|
  {
    hide Add, Mul, Pow;
    if p != [] {
      var k := |p| - 1;
      EvalTwist(p[..k], i);
      var two := Pow(1);
      assert Twist(p)[..k] == Scale(Twist(p[..k]), two) by {
        forall j | 0 <= j < k ensures Mul(p[j], Pow(k - j)) == Mul(Mul(p[j], Pow(k - 1 - j)), two) {
          PowAdd(k - 1 - j, 1);
          MulAssoc(p[j], Pow(k - 1 - j), two);
        }
      }
      var e := Eval(Twist(p[..k]), Pow(i));
      EvalScale(Twist(p[..k]), two, Pow(i));
      MulAssoc(e, two, Pow(i));
      PowAdd(1, i);
      PowZero();
      MulOne(p[k]);
      MulComm(ONE, p[k]);
    }
  }

  /** A polynomial with at most m terms that vanishes at 2^0, ..., 2^(m-1) is zero. */
  lemma {:induction false} FewTermsManyRoots(p: seq<Byte>, m: nat)
    requires |p| <= 255 && Weight(p) <= m
    requires forall i: nat :: i < m ==> Eval(p, Pow(i)) == ZERO
    ensures forall i :: 0 <= i < |p| ==> p[i] == ZERO
    decreases m
  {
    hide Add, Mul, Pow, Eval;
    if j :| 0 <= j < |p| && p[j] != ZERO {
      WeightMono(Zeros(|p|), p);
      var c := Pow(|p| - 1 - j);
      var killed := Sum(Twist(p), Scale(p, c));
      forall i: nat | i < m - 1 ensures Eval(killed, Pow(i)) == ZERO {
        EvalSum(Twist(p), Scale(p, c), Pow(i));
        EvalTwist(p, i);
        EvalScale(p, c, Pow(i));
        MulZero(c);
        AddZero(ZERO);
        assert Eval(p, Pow(i + 1)) == ZERO;
      }
      KilledTerms(p, j);
      WeightMono(killed, p);
      FewTermsManyRoots(killed, m - 1);
      assert Eval(p, Pow(0)) == ZERO;
      PowZero();
      OneTerm(p, j);
      assert false;
    }
  }

  /** Subtracting the multiple of p that cancels term j cancels no other term. */
  lemma KilledTerms(p: seq<Byte>, j: nat)
    requires j < |p| <= 255
    ensures var killed := Sum(Twist(p), Scale(p, Pow(|p| - 1 - j)));
      && killed[j] == ZERO
      && forall i :: 0 <= i < |p| && i != j ==> (killed[i] == ZERO <==> p[i] == ZERO)
  {
    hide Add, Mul, Pow;
    var c := Pow(|p| - 1 - j);
    AddSelf(Mul(p[j], c));
    forall i | 0 <= i < |p| && i != j
      ensures Add(Mul(p[i], Pow(|p| - 1 - i)), Mul(p[i], c)) == ZERO <==> p[i] == ZERO
    {
      var x := Pow(|p| - 1 - i);
      MulDistrib(x, c, p[i]);
      MulZero(Add(x, c));
      if Mul(p[i], Add(x, c)) == ZERO {
        NoZeroDivisors(p[i], Add(x, c));
        AddIsZero(x, c);
        if x == c { PowInjective(|p| - 1 - i, |p| - 1 - j); }
      }
    }
  }

  /** The value at 1 of a polynomial with a single term is its coefficient. */
  lemma {:induction false} OneTerm(p: seq<Byte>, j: nat)
    requires j < |p| && forall i :: 0 <= i < |p| && i != j ==> p[i] == ZERO
    ensures Eval(p, ONE) == p[j]
    decreases |p|
  {
    hide Add, Mul;
    var k := |p| - 1;
    var e := Eval(p[..k], ONE);
    MulOne(e);
    MulComm(e, ONE);
    if j == k {
      assert p[..k] == Zeros(k);
      EvalZeros(k, ONE);
    } else {
      OneTerm(p[..k], j);
    }
    AddZero(p[j]);
  }

  /** The number of positions in which two words differ. */
  function Differences(p: seq<Byte>, q: seq<Byte>): nat
    requires |p| == |q|
    decreases |p|
  {
    if p == [] then 0
    else
      var k := |p| - 1;
      Differences(p[..k], q[..k]) + (if p[k] != q[k] then 1 else 0)
  }

  lemma {:induction false} DifferencesAreWeight(p: seq<Byte>, q: seq<Byte>)
    requires |p| == |q|
    ensures Differences(p, q) == Weight(Sum(p, q))
    decreases |p|
  {
    hide Add;
    if p != [] {
      var k := |p| - 1;
      DifferencesAreWeight(p[..k], q[..k]);
      assert Sum(p, q)[..k] == Sum(p[..k], q[..k]);
      AddIsZero(p[k], q[k]);
    }
  }

  /** Blocks that differ at all get codewords that differ in more than d positions. */
  lemma MinimumDistance(x: seq<Byte>, y: seq<Byte>, d: nat)
    requires d > 0 && |x| == |y| && |x| + d <= 255 && x != y
    ensures Differences(Codeword(x, d), Codeword(y, d)) > d
  {
    hide Add, Mul, Pow, Eval;
    var cx, cy := Codeword(x, d), Codeword(y, d);
    var e := Sum(cx, cy);
    DifferencesAreWeight(cx, cy);
    if Weight(e) <= d {
      forall i: nat | i < d ensures Eval(e, Pow(i)) == ZERO {
        EvalSum(cx, cy, Pow(i));
        SyndromesVanish(x, d, i);
        SyndromesVanish(y, d, i);
        AddZero(ZERO);
      }
      FewTermsManyRoots(e, d);
      forall i | 0 <= i < |x| ensures x[i] == y[i] {
        assert e[i] == Add(x[i], y[i]);
        AddIsZero(x[i], y[i]);
      }
    }
  }

  lemma {:induction false} TriangleInequality(p: seq<Byte>, q: seq<Byte>, r: seq<Byte>)
    requires |p| == |q| == |r|
    ensures Differences(p, r) <= Differences(p, q) + Differences(q, r)
    ensures Differences(p, q) == Differences(q, p)
    decreases |p|
  {
    if p != [] {
      var k := |p| - 1;
      TriangleInequality(p[..k], q[..k], r[..k]);
    }
  }

  /** A word with at most d/2 codewords of a block wrong is nearer to it than to any other block's. */
  lemma NearestCodeword(x: seq<Byte>, y: seq<Byte>, d: nat, word: seq<Byte>)
    requires d > 0 && |x| == |y| && |x| + d <= 255 && x != y && |word| == |x| + d
    requires 2 * Differences(Codeword(x, d), word) <= d
    ensures Differences(Codeword(x, d), word) < Differences(Codeword(y, d), word)
  {
    MinimumDistance(x, y, d);
    TriangleInequality(Codeword(x, d), word, Codeword(y, d));
    TriangleInequality(Codeword(y, d), word, Codeword(x, d));
  }

  // The encoder's loops.

  /** One round of the generator loop on a register of the given width. */
  lemma GeneratorRound(before: seq<Byte>, after: seq<Byte>, i: nat)
    requires i < |before| == |after|
    requires before == Zeros(|before| - 1 - i) + Generator(i)
    requires after[|after| - 1] == Mul(before[|before| - 1], Pow(i))
    requires forall l :: 0 <= l < |after| - 1 ==> after[l] == Add(Mul(before[l], Pow(i)), before[l + 1])
    ensures if i + 1 < |after| then after == Zeros(|after| - 2 - i) + Generator(i + 1)
      else after == GeneratorTail(i + 1)
  {
    hide Add, Mul, Pow, Generator;
    GeneratorStep(i);
    var z, p, q := |before| - 1 - i, Generator(i), Generator(i + 1);
    forall l | 0 <= l < z ensures after[l] == if l < z - 1 then ZERO else q[0] {
      MulZero(Pow(i));
      AddZero(before[l + 1]);
    }
    forall l | z <= l < |after| ensures after[l] == q[l - z + 1] {
      assert before[l] == p[l - z];
      if l < |after| - 1 { assert before[l + 1] == p[l - z + 1]; }
    }
    if z > 0 {
      assert after == Zeros(z - 1) + q;
    } else {
      assert after == q[1..];
    }
  }

  /** One round of the loop: the register times (x - root). */
  method GeneratorPass(t: Tables, g: array<Byte>, root: Byte)
    requires t.Valid() && g.Length > 0
    modifies g
    ensures forall l :: 0 <= l < g.Length - 1 ==> g[l] == Add(Mul(old(g[l]), root), old(g[l + 1]))
    ensures g[g.Length - 1] == Mul(old(g[g.Length - 1]), root)
  {
    hide Add, Mul, Tables.Valid;
    var n := g.Length;
    for j := 0 to n
      invariant forall l :: 0 <= l < j && l < n - 1 ==> g[l] == Add(Mul(old(g[l]), root), old(g[l + 1]))
      invariant j == n ==> g[n - 1] == Mul(old(g[n - 1]), root)
      invariant forall l :: j <= l < n ==> g[l] == old(g[l])
    {
      g[j] := t.GfMul(g[j], root);
      if j + 1 < n {
        g[j] := Add(g[j], g[j + 1]);
      }
    }
  }

  method RsGenerator(t: Tables, degree: nat) returns (gen: seq<Byte>)
    requires t.Valid() && degree > 0
    ensures gen == GeneratorTail(degree)
  {
    hide Add, Mul, Pow, XTime, Generator, Tables.Valid;
    var g := new Byte[degree](_ => ZERO);
    g[degree - 1] := ONE;
    var root := ONE;
    PowZero();
    GeneratorZero();
    assert g[..] == Zeros(degree - 1) + Generator(0);
    for i := 0 to degree
      invariant root == Pow(i)
      invariant if i < degree then g[..] == Zeros(degree - 1 - i) + Generator(i) else g[..] == GeneratorTail(degree)
    {
      ghost var before := g[..];
      GeneratorPass(t, g, root);
      GeneratorRound(before, g[..], i);
      MulTwo(root);
      PowStep(i, i + 1);
      root := t.GfMul(root, Hex(0, 2));
    }
    return g[..];
  }

  lemma GeneratorZero()
    ensures Generator(0) == [ONE]
  {}

  lemma MulTwo(a: Byte)
    ensures Mul(a, Hex(0, 2)) == XTime(a)
  {
    hide Mul, XTime;
    XTimeOne();
    MulXTime(ONE, a);
    MulOne(a);
    MulComm(a, Hex(0, 2));
  }

  /** One step of the shift register. */
  method RemainderPass(t: Tables, r: array<Byte>, gen: seq<Byte>, b: Byte)
    requires t.Valid() && r.Length == |gen| > 0
    modifies r
    ensures r[..] == Shift(old(r[..]), gen, b)
  {
    hide Add, Mul, Tables.Valid;
    var n := |gen|;
    ghost var moved := old(r[1..]) + [ZERO];
    var factor := Add(b, r[0]);
    forall i | 0 <= i < n - 1 { r[i] := r[i + 1]; }
    r[n - 1] := ZERO;
    for i := 0 to n
      invariant forall l :: 0 <= l < i ==> r[l] == Add(moved[l], Mul(gen[l], factor))
      invariant forall l :: i <= l < n ==> r[l] == moved[l]
    {
      r[i] := Add(r[i], t.GfMul(gen[i], factor));
    }
  }

  method RsRemainder(t: Tables, data: seq<Byte>, gen: seq<Byte>) returns (ec: seq<Byte>)
    requires t.Valid() && |gen| > 0
    ensures ec == Remainder(data, gen)
  {
    hide Shift, Tables.Valid;
    var n := |gen|;
    var r := new Byte[n](_ => ZERO);
    assert r[..] == Zeros(n);
    assert data[..0] == [];
    for k := 0 to |data|
      invariant r[..] == Remainder(data[..k], gen)
    {
      RemainderPass(t, r, gen, data[k]);
      assert data[..k + 1][..k] == data[..k];
    }
    assert data[..|data|] == data;
    return r[..];
  }
}
