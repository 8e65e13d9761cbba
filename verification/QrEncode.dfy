/** The whole encoder: from bytes to a masked symbol, and back. */
module QrEncode {
  import opened Bits
  import opened Common
  import opened Gf256
  import opened Segment
  import opened ReedSolomon
  import opened Interleave
  import opened Zigzag
  import opened QrGrid
  import opened QrMask
  import opened QrPenalty

  // Level M, versions 1 to 10 (index 0 is unused).

  function EcPerBlock(): seq<nat> { [0, 10, 16, 26, 18, 24, 16, 18, 22, 22, 26] }

  function NumBlocks(): seq<nat> { [0, 1, 1, 1, 2, 2, 4, 4, 4, 5, 5] }

  function Totals(): seq<nat> { [0, 26, 44, 70, 100, 134, 172, 196, 242, 292, 346] }

  function ByteCapacity(): seq<nat> { [0, 14, 26, 42, 62, 84, 106, 122, 152, 180, 213] }

  function LayoutOf(version: nat): Layout
    requires version <= 10
  {
    Layout(Totals()[version], NumBlocks()[version], EcPerBlock()[version])
  }

  /** The capacity table is exact: it is the greatest length whose segment fits the data codewords. */
  lemma CapacityExact(version: nat, len: nat)
    requires 1 <= version <= 10
    ensures LayoutOf(version).Valid()
    ensures len <= ByteCapacity()[version] <==> SegmentBits(version, len) <= 8 * LayoutOf(version).DataLen()
    ensures len <= ByteCapacity()[version] ==> len < Pow2(CountBits(version))
  {
    Pow2Eight(8);
    assert Pow2(16) == 256 * Pow2(8) by { PowerSixteen(8); }
  }

  /** The blocks of each version: how many, the error correction codewords and the data codewords of each, and
      how many carry one data codeword more. */
  lemma BlockTable(version: nat)
    requires 1 <= version <= 10
    ensures var l := LayoutOf(version);
      && l.Valid()
      && (l.blocks, l.ec, l.ShortData(), l.blocks - l.NumShort()) ==
        [(1, 10, 16, 0), (1, 16, 28, 0), (1, 26, 44, 0), (2, 18, 32, 0), (2, 24, 43, 0), (4, 16, 27, 0),
         (4, 18, 31, 0), (4, 22, 38, 2), (5, 22, 36, 2), (5, 26, 43, 1)][version - 1]
      && forall i :: 0 <= i < l.blocks ==>
        l.Len(i) == if i < l.NumShort() then l.ShortData() else l.ShortData() + 1
  {}

  lemma PowerSixteen(k: nat)
    ensures Pow2(k + 8) == 256 * Pow2(k)
  {
    assert Pow2(k + 8) == 16 * Pow2(k + 4) by { assert Pow2(k + 8) == 4 * Pow2(k + 6); }
    assert Pow2(k + 4) == 16 * Pow2(k) by { assert Pow2(k + 4) == 4 * Pow2(k + 2); }
  }

  /** A version's empty symbol with its function patterns drawn. */
  datatype Pattern = Pattern(modules: Matrix, reserved: Matrix)

  ghost predicate WellFormed(p: Pattern, version: nat)
    requires version <= 10
  {
    var n := 17 + 4 * version;
    && Square(p.modules, n) && Square(p.reserved, n)
    && TimingColumnReserved(p.reserved) && FormatReserved(p.reserved, n)
    && |Free(p.reserved, RowMajor(n, n))| / 8 == Totals()[version]
  }

  datatype Code = Code(version: nat, size: nat, mask: nat, modules: Matrix)

  datatype Result = Encoded(code: Code) | TooLong

  /** The codewords a reader finds: unmask, follow the zigzag over the free modules, and group by eight. */
  function ReadCodewords(code: Code, reserved: Matrix): seq<Byte>
    requires code.mask < 8 && code.version <= 10
  {
    var bits := Read(Masked(code.modules, reserved, code.mask), Free(reserved, Whole(code.size)));
    var total := Totals()[code.version];
    if |bits| < 8 * total then [] else Pack(bits[..8 * total])
  }

  /** Reading a symbol: codewords, blocks, segment. */
  function Decode(code: Code, reserved: Matrix): Option<seq<Byte>>
    requires code.mask < 8 && 1 <= code.version <= 10 && LayoutOf(code.version).Valid()
  {
    var l := LayoutOf(code.version);
    Parse(code.version, Deinterleave(l, ReadCodewords(code, reserved), l.blocks))
  }

  /** The best of the eight masks: least penalty, lowest index on ties. */
  ghost predicate BestMask(placed: Matrix, reserved: Matrix, n: nat, best: nat)
    requires n > 0
  {
    && best < 8
    && forall k: nat :: k < 8 ==>
      && Penalty(Symbol(placed, reserved, best, n), n) <= Penalty(Symbol(placed, reserved, k, n), n)
      && (k < best ==> Penalty(Symbol(placed, reserved, best, n), n) < Penalty(Symbol(placed, reserved, k, n), n))
  }

  method ChooseMask(g: Grid) returns (best: nat)
    requires g.Valid() && g.n >= 21 && g.n % 2 == 1 && FormatReserved(g.Reserved(), g.n)
    modifies g.modules, g.reserved
    ensures g.Reserved() == old(g.Reserved())
    ensures best < 8 && BestMask(old(g.Modules()), g.Reserved(), g.n, best)
    ensures g.Modules() == Symbol(old(g.Modules()), g.Reserved(), best, g.n)
  {
    hide Masked, Drawing, Penalty, FormatReserved, Drawn, Symbol, BetweenTrials, Grid.Modules, Grid.Reserved;
    ghost var placed, mask, n := g.Modules(), g.Reserved(), g.n;
    best := 0;
    var bestScore := -1;
    StartTrials(placed, n);
    for m := 0 to 8
      invariant g.Reserved() == mask && BetweenTrials(placed, g.Modules(), n)
      invariant m == 0 ==> best == 0 && bestScore == -1
      invariant m > 0 ==> best < m && bestScore >= 0 && bestScore == Penalty(Symbol(placed, mask, best, n), n)
      invariant forall k: nat :: k < m ==> bestScore <= Penalty(Symbol(placed, mask, k, n), n)
      invariant forall k: nat :: k < m && k < best ==> bestScore < Penalty(Symbol(placed, mask, k, n), n)
    {
      Trial(g, m, placed);
      var s := ComputePenalty(g);
      PenaltyNonNegative(g.Modules(), n);
      if bestScore < 0 || s < bestScore {
        best, bestScore := m, s;
      }
      ApplyMask(g, m);
      TrialUndone(placed, mask, m, n);
    }
    Trial(g, best, placed);
  }

  lemma StartTrials(placed: Matrix, n: nat)
    requires Square(placed, n)
    ensures BetweenTrials(placed, placed, n)
  {}

  /** applyMask followed by drawFormatBits. */
  method Trial(g: Grid, k: nat, ghost placed: Matrix)
    requires g.Valid() && g.n >= 21 && k < 8 && FormatReserved(g.Reserved(), g.n)
    requires BetweenTrials(placed, g.Modules(), g.n)
    modifies g.modules, g.reserved
    ensures g.Reserved() == old(g.Reserved())
    ensures g.Modules() == Symbol(placed, g.Reserved(), k, g.n)
  {
    hide Masked, Drawing, FormatReserved, Drawn, Symbol, BetweenTrials, Grid.Modules, Grid.Reserved;
    ghost var before := g.Modules();
    ApplyMask(g, k);
    ghost var masked := g.Modules();
    DrawFormatBits(g, k);
    DrawnIs(masked, g.Modules(), k, g.n);
    TrialIndependent(placed, before, g.Reserved(), k, g.n);
  }

  /** Unmasking a finished symbol gives the placed bits back along the free modules. */
  lemma SymbolReads(placed: Matrix, drawn: Matrix, reserved: Matrix, k: nat, n: nat, bits: seq<bool>)
    requires k < 8 && n >= 7 && n % 2 == 1 && Square(placed, n) && FormatReserved(reserved, n)
    requires Placed(reserved, drawn, placed, Whole(n), bits) && |bits| <= |Free(reserved, Whole(n))|
    ensures Read(Masked(Symbol(placed, reserved, k, n), reserved, k), Free(reserved, Whole(n)))[..|bits|] == bits
  {
    hide Masked, Symbol, At;
    var f, now := Free(reserved, Whole(n)), Masked(Symbol(placed, reserved, k, n), reserved, k);
    TrialUndone(placed, reserved, k, n);
    PlacedAll(reserved, n, bits);
    WholeIs(n);
    FreeIs(reserved, Whole(n));
    forall i | 0 <= i < |bits| ensures Read(now, f)[i] == bits[i] {
      assert f[i] in f;
    }
  }

  /** The symbol carries the codewords it was made from. */
  lemma CodeReads(code: Code, p: Pattern, placed: Matrix, cw: seq<Byte>)
    requires 1 <= code.version <= 10 && code.mask < 8 && WellFormed(p, code.version) &&
      code.size == 17 + 4 * code.version
    requires |cw| == Totals()[code.version] && 8 * |cw| <= |Free(p.reserved, Whole(code.size))|
    requires Square(placed, code.size) && Placed(p.reserved, p.modules, placed, Whole(code.size), Unpack(cw))
    requires code.modules == Symbol(placed, p.reserved, code.mask, code.size)
    ensures ReadCodewords(code, p.reserved) == cw
  {
    hide Masked, Symbol, At, Free, Whole, Placed, Unpack, Pack, Read, Totals;
    SymbolReads(placed, p.modules, p.reserved, code.mask, code.size, Unpack(cw));
    PackUnpack(cw);
  }

  /** What a caller can rely on for a symbol made from data. */
  ghost predicate Carries(code: Code, p: Pattern, data: seq<Byte>)
    requires 1 <= code.version <= 10 && code.mask < 8 && LayoutOf(code.version).Valid()
  {
    var l, cw := LayoutOf(code.version), ReadCodewords(code, p.reserved);
    && Decode(code, p.reserved) == Some(data)
    && |cw| == l.total
    && forall i :: 0 <= i < l.blocks ==> ReadBlock(l, cw, i) + ReadEc(l, cw, i) == Codeword(ReadBlock(l, cw, i), l.ec)
  }

  lemma CarriesData(code: Code, p: Pattern, data: seq<Byte>, words: seq<Byte>)
    requires 1 <= code.version <= 10 && code.mask < 8
    requires LayoutOf(code.version).Valid() && |data| < Pow2(CountBits(code.version))
    requires var l := LayoutOf(code.version);
      && |words| == l.DataLen() == l.Start(l.blocks)
      && SegmentBits(code.version, |data|) <= 8 * |words| && Unpack(words) == Stream(code.version, data, |words|)
      && ReadCodewords(code, p.reserved) == Interleaved(l, words)
    ensures Carries(code, p, data)
  {
    hide ReadCodewords, Interleaved, Unpack, Stream, Parse, Codeword, ReadBlock, ReadEc, LayoutOf, Deinterleave;
    var l := LayoutOf(code.version);
    InterleaveRoundTrip(l, words);
    EncodedRoundTrip(code.version, data, words);
    forall i | 0 <= i < l.blocks
      ensures ReadBlock(l, Interleaved(l, words), i) + ReadEc(l, Interleaved(l, words), i) ==
        Codeword(ReadBlock(l, Interleaved(l, words), i), l.ec)
    {
      BlocksReadBack(l, words, i);
    }
  }

  method SmallestVersion(len: nat) returns (version: nat)
    ensures version <= 10 && (version == 0 <==> len > 213)
    ensures version > 0 ==> len <= ByteCapacity()[version] && forall v :: 1 <= v < version ==> len > ByteCapacity()[v]
  {
    for v := 1 to 11
      invariant forall u :: 1 <= u < v ==> len > ByteCapacity()[u]
    {
      if len <= ByteCapacity()[v] {
        return v;
      }
    }
    assert ByteCapacity()[10] == 213;
    return 0;
  }

  /** The codewords of the symbol, and the data codewords they were made from. */
  method MakeCodewords(t: Tables, version: nat, total: nat, data: seq<Byte>)
    returns (codewords: seq<Byte>, words: seq<Byte>)
    requires t.Valid() && 1 <= version <= 10 && |data| <= ByteCapacity()[version] && total == Totals()[version]
    ensures LayoutOf(version).Valid() &&
      |words| == LayoutOf(version).DataLen() == LayoutOf(version).Start(LayoutOf(version).blocks)
    ensures SegmentBits(version, |data|) <= 8 * |words| && Unpack(words) == Stream(version, data, |words|)
    ensures codewords == Interleaved(LayoutOf(version), words) && |codewords| == total
  {
    hide Tables.Valid, Interleaved, Unpack, Stream;
    CapacityExact(version, |data|);
    var l := LayoutOf(version);
    var dataCodewords := total - EcPerBlock()[version] * NumBlocks()[version];
    words := EncodeBytes(version, data, dataCodewords);
    codewords := InterleaveBlocks(t, l, words);
    InterleavedLength(l, words);
  }

  /** A correct symbol for data: it reads back as data, it was made by placing its codewords on the drawn
      patterns and nothing else, and its mask is the best of the eight. */
  ghost predicate Correct(code: Code, p: Pattern, version: nat, data: seq<Byte>) {
    && 1 <= version <= 10 && code.version == version && code.size == 17 + 4 * version && code.mask < 8
    && LayoutOf(version).Valid() && Carries(code, p, data)
    && exists placed: Matrix :: MadeFrom(code, p, placed)
  }

  ghost predicate MadeFrom(code: Code, p: Pattern, placed: Matrix)
    requires 1 <= code.version <= 10 && code.size > 0 && code.mask < 8
  {
    && Square(placed, code.size)
    && Placed(p.reserved, p.modules, placed, Whole(code.size), Unpack(ReadCodewords(code, p.reserved)))
    && BestMask(placed, p.reserved, code.size, code.mask) &&
      code.modules == Symbol(placed, p.reserved, code.mask, code.size)
  }

  /** Every module of a correct symbol: the format information; the function patterns as drawn; and along the
      free modules of the zigzag the bits of the codewords, then the remainder modules as drawn, all of them
      inverted where the mask says. */
  lemma EveryModule(code: Code, p: Pattern, version: nat, data: seq<Byte>, c: Cell)
    requires Correct(code, p, version, data) && WellFormed(p, version) && Inside(c, code.size)
    ensures var (n, bits) := (code.size, Unpack(ReadCodewords(code, p.reserved)));
      var f := Free(p.reserved, Whole(n));
      && |bits| == 8 * Totals()[version] <= |f|
      && (FormatIndex(n, c) >= 0 ==> At(code.modules, c) == FormatDark(code.mask, FormatIndex(n, c)))
      && (At(p.reserved, c) && FormatIndex(n, c) < 0 ==> At(code.modules, c) == At(p.modules, c))
      && (!At(p.reserved, c) ==> c in f)
      && forall i :: 0 <= i < |f| && f[i] == c ==>
        At(code.modules, c) == ((if i < |bits| then bits[i] else At(p.modules, c)) != MaskBit(code.mask, c.x, c.y))
  {
    hide Masked, Drawing, FormatIndex, FormatDark, At, Free, Whole, Unpack, ReadCodewords, MaskBit, Carries, BestMask,
      Totals, RowMajor, Distinct;
    var n, bits, k := code.size, Unpack(ReadCodewords(code, p.reserved)), code.mask;
    var f := Free(p.reserved, Whole(n));
    var placed: Matrix :| MadeFrom(code, p, placed);
    PatternFacts(p, version);
    CodewordCount(code, p, data);
    MaskedAt(placed, p.reserved, k, n);
    DrawingAt(Masked(placed, p.reserved, k), k, n);
    WholeIs(n);
    FreeIs(p.reserved, Whole(n));
    NotAmong(f, |bits|, c);
  }

  lemma CodewordCount(code: Code, p: Pattern, data: seq<Byte>)
    requires 1 <= code.version <= 10 && code.mask < 8 && LayoutOf(code.version).Valid() && Carries(code, p, data)
    ensures |Unpack(ReadCodewords(code, p.reserved))| == 8 * Totals()[code.version]
  {
    hide ReadCodewords, Decode;
  }

  /** In a path without repetition a cell is found at one place. */
  lemma NotAmong(f: seq<Cell>, n: nat, c: Cell)
    requires Distinct(f) && n <= |f|
    ensures c !in f ==> c !in f[..n]
    ensures forall i :: n <= i < |f| && f[i] == c ==> c !in f[..n]
  {}

  lemma PatternFacts(p: Pattern, version: nat)
    requires 1 <= version <= 10 && WellFormed(p, version)
    ensures var n := 17 + 4 * version;
      && n >= 21 && n % 2 == 1 && Square(p.modules, n) && Square(p.reserved, n) && FormatReserved(p.reserved, n)
      && |Free(p.reserved, RowMajor(n, n))| / 8 == Totals()[version]
      && |Free(p.reserved, Whole(n))| == |Free(p.reserved, RowMajor(n, n))|
  {
    hide FormatReserved, TimingColumnReserved, RowMajor, Whole, Free, Totals;
    RowMajorCountIsCapacity(p.reserved, 17 + 4 * version);
  }

  /** The grid with the codewords of data placed and no mask applied yet. */
  method PlaceData(t: Tables, p: Pattern, version: nat, data: seq<Byte>)
    returns (g: Grid, ghost codewords: seq<Byte>, ghost words: seq<Byte>)
    requires t.Valid() && 1 <= version <= 10 && |data| <= ByteCapacity()[version] && WellFormed(p, version)
    ensures fresh(g) && fresh(g.modules) && fresh(g.reserved) && g.Valid() && g.n == 17 + 4 * version &&
      g.Reserved() == p.reserved
    ensures LayoutOf(version).Valid() &&
      |words| == LayoutOf(version).DataLen() == LayoutOf(version).Start(LayoutOf(version).blocks)
    ensures SegmentBits(version, |data|) <= 8 * |words| && Unpack(words) == Stream(version, data, |words|)
    ensures codewords == Interleaved(LayoutOf(version), words) && |codewords| == Totals()[version]
    ensures 8 * |codewords| <= |Free(p.reserved, Whole(g.n))|
    ensures Placed(p.reserved, p.modules, g.Modules(), Whole(g.n), Unpack(codewords))
  {
    hide WellFormed, Tables.Valid, Interleaved, Unpack, Stream, Placed, Free, Whole, RowMajor, LayoutOf, ByteCapacity,
      SegmentBits, Totals;
    PatternFacts(p, version);
    g := new Grid(p.modules, p.reserved);
    var raw := g.RawDataModules();
    var total := raw / 8;
    var cw, segment := MakeCodewords(t, version, total, data);
    codewords, words := cw, segment;
    g.PlaceCodewords(cw);
  }

  method EncodeAt(t: Tables, p: Pattern, version: nat, data: seq<Byte>) returns (code: Code)
    requires t.Valid() && 1 <= version <= 10 && |data| <= ByteCapacity()[version] && WellFormed(p, version)
    ensures Correct(code, p, version, data)
  {
    hide WellFormed, Tables.Valid, Carries, Interleaved, Unpack, Stream, Placed, Free, Whole, Symbol, BestMask,
      RowMajor, ReadCodewords, LayoutOf, ByteCapacity, SegmentBits, Totals;
    CapacityFacts(version, |data|);
    PatternFacts(p, version);
    var g, codewords, words := PlaceData(t, p, version, data);
    ghost var placed := g.Modules();
    var best := ChooseMask(g);
    var modules := Export(g);
    code := Code(version, g.n, best, modules);
    CodeReads(code, p, placed, codewords);
    CarriesData(code, p, data, words);
    assert MadeFrom(code, p, placed);
  }

  lemma CapacityFacts(version: nat, len: nat)
    requires 1 <= version <= 10 && len <= ByteCapacity()[version]
    ensures LayoutOf(version).Valid() && len < Pow2(CountBits(version))
  {
    CapacityExact(version, len);
  }

  /** Encode, for given drawings of the function patterns. */
  method Encode(t: Tables, patterns: seq<Pattern>, data: seq<Byte>) returns (r: Result)
    requires t.Valid() && |patterns| == 11
    requires forall v :: 1 <= v <= 10 ==> WellFormed(patterns[v], v)
    ensures r.TooLong? <==> |data| > 213
    ensures r.Encoded? ==> var v := r.code.version;
      && 1 <= v <= 10 && Correct(r.code, patterns[v], v, data)
      && |data| <= ByteCapacity()[v] && forall u :: 1 <= u < v ==> |data| > ByteCapacity()[u]
  {
    hide Correct, WellFormed, Tables.Valid;
    var version := SmallestVersion(|data|);
    if version == 0 {
      return TooLong;
    }
    CapacityTop(version);
    var code := EncodeAt(t, patterns[version], version, data);
    CorrectVersion(code, patterns[version], version, data);
    return Encoded(code);
  }

  lemma CorrectVersion(code: Code, p: Pattern, version: nat, data: seq<Byte>)
    requires Correct(code, p, version, data)
    ensures code.version == version
  {}

  lemma CapacityTop(version: nat)
    requires 1 <= version <= 10
    ensures ByteCapacity()[version] <= 213
  {}

  method Export(g: Grid) returns (m: Matrix)
    requires g.Valid()
    ensures m == g.Modules()
  {
    m := seq(g.n, y requires 0 <= y < g.n reads g, g.modules =>
      seq(g.n, x requires 0 <= x < g.n reads g, g.modules => g.modules[y, x]));
  }
}
