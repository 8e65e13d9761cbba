/** Splitting the data codewords into blocks, adding error correction, and
    interleaving the blocks, ISO/IEC 18004:2015 section 7.6. */
module Interleave {
  import opened Gf256
  import opened ReedSolomon

  /** How `total` codewords are divided: `blocks` blocks with `ec` error correction codewords each. */
  datatype Layout = Layout(total: nat, blocks: nat, ec: nat) {
    predicate Valid() {
      blocks > 0 && ec > 0 && ec <= total / blocks
    }

    /** The data codewords of a short block. */
    function ShortData(): nat
      requires Valid()
    {
      total / blocks - ec
    }

    /** The blocks before this index are short; the others carry one data codeword more. */
    function NumShort(): (n: nat)
      requires Valid()
      ensures 0 < n <= blocks
    {
      blocks - total % blocks
    }

    function Len(i: nat): nat
      requires Valid()
    {
      if i < NumShort() then ShortData() else ShortData() + 1
    }

    /** Where block i begins in the data. */
    function Start(i: nat): nat
      requires Valid()
      decreases i
    {
      if i == 0 then 0 else Start(i - 1) + Len(i - 1)
    }

    function DataLen(): int { total - ec * blocks }

    lemma {:induction false} StartMono(i: nat, j: nat)
      requires Valid() && i <= j
      ensures Start(i) <= Start(j)
      decreases j
    {
      if i < j { StartMono(i, j - 1); }
    }

    lemma {:induction false} StartIs(i: nat)
      requires Valid() && i <= blocks
      ensures Start(i) == i * ShortData() + (if i <= NumShort() then 0 else i - NumShort())
      decreases i
    {
      if i > 0 {
        StartIs(i - 1);
        OneTimeMore(i, ShortData());
      }
    }

    /** The block sizes always sum to the data length, so the encoder's size panic cannot happen. */
    lemma SizesSum()
      requires Valid()
      ensures Start(blocks) == DataLen()
    {
      StartIs(blocks);
      assert blocks * ShortData() == blocks * (total / blocks) - blocks * ec;
      assert blocks * (total / blocks) + total % blocks == total;
    }

    /** The data of block i. */
    function Block(data: seq<Byte>, i: nat): (b: seq<Byte>)
      requires Valid() && i < blocks && |data| == Start(blocks)
      ensures |b| == Len(i)
    {
      StartMono(i + 1, blocks);
      data[Start(i)..Start(i + 1)]
    }

    function Split(data: seq<Byte>): (bs: seq<seq<Byte>>)
      requires Valid() && |data| == Start(blocks)
      ensures |bs| == blocks
    {
      seq(blocks, i requires 0 <= i < blocks => Block(data, i))
    }

    function Ecs(data: seq<Byte>): (es: seq<seq<Byte>>)
      requires Valid() && |data| == Start(blocks)
      ensures |es| == blocks && forall i :: 0 <= i < blocks ==> |es[i]| == ec
    {
      seq(blocks, i requires 0 <= i < blocks => Remainder(Block(data, i), GeneratorTail(ec)))
    }

    /** Where codeword `col` of block `i` stands among the interleaved data codewords. */
    function DataPosition(i: nat, col: nat): nat
      requires Valid() && i < blocks && col < Len(i)
    {
      if col < ShortData() then col * blocks + i else col * blocks + (i - NumShort())
    }

    function EcPosition(i: nat, col: nat): nat
      requires Valid() && i < blocks && col < ec
    {
      Start(blocks) + col * blocks + i
    }
  }

  /** Codeword `col` of each of the first n blocks that has one. */
  function Column(bs: seq<seq<Byte>>, n: nat, col: nat): (c: seq<Byte>)
    requires n <= |bs|
    decreases n
  {
    if n == 0 then []
    else Column(bs, n - 1, col) + (if col < |bs[n - 1]| then [bs[n - 1][col]] else [])
  }

  /** The first n columns, one after the other. */
  function Columns(bs: seq<seq<Byte>>, n: nat): seq<Byte>
    decreases n
  {
    if n == 0 then [] else Columns(bs, n - 1) + Column(bs, |bs|, n - 1)
  }

  function Interleaved(l: Layout, data: seq<Byte>): seq<Byte>
    requires l.Valid() && |data| == l.Start(l.blocks)
  {
    Columns(l.Split(data), l.ShortData() + 1) + Columns(l.Ecs(data), l.ec)
  }

  method SplitBlocks(l: Layout, data: seq<Byte>) returns (blocks: seq<seq<Byte>>)
    requires l.Valid() && |data| == l.DataLen()
    ensures |data| == l.Start(l.blocks) && blocks == l.Split(data)
  {
    l.SizesSum();
    blocks := [];
    var k := 0;
    for i := 0 to l.blocks
      invariant k == l.Start(i)
      invariant |blocks| == i && forall j :: 0 <= j < i ==> blocks[j] == l.Block(data, j)
    {
      var n := l.ShortData();
      if i >= l.NumShort() { n := n + 1; }
      l.StartMono(i + 1, l.blocks);
      blocks := blocks + [data[k..k + n]];
      k := k + n;
    }
    // The block size panic cannot happen here.
    assert k == |data|;
  }

  /** Both column loops of the encoder: one column after the other, skipping the blocks that are too short. */
  method AppendColumns(before: seq<Byte>, bs: seq<seq<Byte>>, n: nat) returns (out: seq<Byte>)
    ensures out == before + Columns(bs, n)
  {
    out := before;
    for col := 0 to n
      invariant out == before + Columns(bs, col)
    {
      for i := 0 to |bs|
        invariant out == before + Columns(bs, col) + Column(bs, i, col)
      {
        if col < |bs[i]| { out := out + [bs[i][col]]; }
      }
    }
  }

  method InterleaveBlocks(t: Tables, l: Layout, data: seq<Byte>) returns (out: seq<Byte>)
    requires t.Valid() && l.Valid() && |data| == l.DataLen()
    ensures |data| == l.Start(l.blocks) && out == Interleaved(l, data)
  {
    hide Tables.Valid, GeneratorTail, Remainder;
    var gen := RsGenerator(t, l.ec);
    var blocks := SplitBlocks(l, data);
    var ecs: seq<seq<Byte>> := [];
    for i := 0 to |blocks|
      invariant |ecs| == i && forall j :: 0 <= j < i ==> ecs[j] == Remainder(l.Block(data, j), GeneratorTail(l.ec))
    {
      var ec := RsRemainder(t, blocks[i], gen);
      ecs := ecs + [ec];
    }
    assert ecs == l.Ecs(data);
    out := AppendColumns([], blocks, l.ShortData() + 1);
    out := AppendColumns(out, ecs, l.ec);
  }

  // Reading the interleaved codewords back.

  lemma {:induction false} ColumnAt(bs: seq<seq<Byte>>, n: nat, col: nat, short: nat)
    requires n <= |bs| && short <= |bs|
    requires forall i :: 0 <= i < short ==> |bs[i]| <= col
    requires forall i :: short <= i < |bs| ==> col < |bs[i]|
    ensures |Column(bs, n, col)| == if n <= short then 0 else n - short
    ensures forall i :: short <= i < n ==> Column(bs, n, col)[i - short] == bs[i][col]
    decreases n
  {
    if n > 0 { ColumnAt(bs, n - 1, col, short); }
  }

  ghost predicate HasAt(s: seq<Byte>, k: nat, b: Byte) { k < |s| && s[k] == b }

  lemma AtIntro(s: seq<Byte>, k: nat, b: Byte)
    requires k < |s| && s[k] == b
    ensures HasAt(s, k, b)
  {}

  lemma AtAppend(s: seq<Byte>, t: seq<Byte>, k: nat, b: Byte)
    ensures HasAt(s, k, b) ==> HasAt(s + t, k, b)
    ensures HasAt(t, k, b) ==> HasAt(s + t, |s| + k, b)
  {}

  lemma {:induction false} ColumnsLength(bs: seq<seq<Byte>>, n: nat)
    requires forall j :: 0 <= j < |bs| ==> n <= |bs[j]|
    ensures |Columns(bs, n)| == n * |bs|
    decreases n
  {
    if n > 0 {
      ColumnsLength(bs, n - 1);
      ColumnAt(bs, |bs|, n - 1, 0);
      OneTimeMore(n, |bs|);
    }
  }

  lemma OneTimeMore(n: nat, k: nat)
    requires n > 0
    ensures (n - 1) * k + k == n * k
  {}

  lemma {:induction false} ColumnsAt(bs: seq<seq<Byte>>, n: nat, i: nat, col: nat)
    requires forall j :: 0 <= j < |bs| ==> n <= |bs[j]|
    requires i < |bs| && col < n
    ensures HasAt(Columns(bs, n), col * |bs| + i, bs[i][col])
    decreases n
  {
    hide HasAt, Column;
    var first, last := Columns(bs, n - 1), Column(bs, |bs|, n - 1);
    if col == n - 1 {
      ColumnsLength(bs, col);
      ColumnAt(bs, |bs|, col, 0);
      AtIntro(last, i, last[i - 0]);
      AtAppend(first, last, i, bs[i][col]);
    } else {
      ColumnsAt(bs, n - 1, i, col);
      AtAppend(first, last, col * |bs| + i, bs[i][col]);
    }
  }

  /** Short blocks miss the last column. */
  lemma UnevenLength(bs: seq<seq<Byte>>, m: nat, short: nat)
    requires short <= |bs|
    requires forall i :: 0 <= i < |bs| ==> |bs[i]| == if i < short then m else m + 1
    ensures |Columns(bs, m + 1)| == |bs| * m + (|bs| - short)
  {
    ColumnsLength(bs, m);
    ColumnAt(bs, |bs|, m, short);
  }

  lemma InterleavedLength(l: Layout, data: seq<Byte>)
    requires l.Valid() && |data| == l.Start(l.blocks)
    ensures |Columns(l.Split(data), l.ShortData() + 1)| == l.Start(l.blocks)
    ensures |Interleaved(l, data)| == l.total
  {
    hide Remainder, GeneratorTail, Column, Columns;
    var bs, m := l.Split(data), l.ShortData();
    l.SizesSum();
    l.StartIs(l.blocks);
    UnevenLength(bs, m, l.NumShort());
    ColumnsLength(l.Ecs(data), l.ec);
  }

  /** Every data codeword stands at its own place. */
  lemma DataAt(l: Layout, data: seq<Byte>, i: nat, col: nat)
    requires l.Valid() && |data| == l.Start(l.blocks) && i < l.blocks && col < l.Len(i)
    ensures HasAt(Interleaved(l, data), l.DataPosition(i, col), l.Split(data)[i][col])
  {
    hide Remainder, GeneratorTail, Column;
    var bs, short, m := l.Split(data), l.NumShort(), l.ShortData();
    var b := bs[i][col];
    var last := Column(bs, |bs|, m);
    if col < m {
      ColumnsAt(bs, m, i, col);
      AtAppend(Columns(bs, m), last, col * l.blocks + i, b);
    } else {
      ColumnsLength(bs, m);
      ColumnAt(bs, |bs|, m, short);
      assert last[i - short] == b;
      AtAppend(Columns(bs, m), last, i - short, b);
    }
    AtAppend(Columns(bs, m + 1), Columns(l.Ecs(data), l.ec), l.DataPosition(i, col), b);
  }

  lemma EcAt(l: Layout, data: seq<Byte>, i: nat, col: nat)
    requires l.Valid() && |data| == l.Start(l.blocks) && i < l.blocks && col < l.ec
    ensures HasAt(Interleaved(l, data), l.EcPosition(i, col), l.Ecs(data)[i][col])
  {
    hide Remainder, GeneratorTail, Column, Columns;
    InterleavedLength(l, data);
    ColumnsAt(l.Ecs(data), l.ec, i, col);
    AtAppend(Columns(l.Split(data), l.ShortData() + 1), Columns(l.Ecs(data), l.ec), col * l.blocks + i,
      l.Ecs(data)[i][col]);
  }

  function Get(out: seq<Byte>, k: nat): Byte { if k < |out| then out[k] else ZERO }

  /** The data codewords of block i, read from the interleaved codewords. */
  function ReadBlock(l: Layout, out: seq<Byte>, i: nat): (b: seq<Byte>)
    requires l.Valid() && i < l.blocks
    ensures |b| == l.Len(i)
  {
    seq(l.Len(i), col requires 0 <= col < l.Len(i) => Get(out, l.DataPosition(i, col)))
  }

  function ReadEc(l: Layout, out: seq<Byte>, i: nat): (b: seq<Byte>)
    requires l.Valid() && i < l.blocks
    ensures |b| == l.ec
  {
    seq(l.ec, col requires 0 <= col < l.ec => Get(out, l.EcPosition(i, col)))
  }

  /** The first n blocks put back one after the other. */
  function Deinterleave(l: Layout, out: seq<Byte>, n: nat): (data: seq<Byte>)
    requires l.Valid() && n <= l.blocks
    ensures |data| == l.Start(n)
    decreases n
  {
    if n == 0 then [] else Deinterleave(l, out, n - 1) + ReadBlock(l, out, n - 1)
  }

  /** Each block read back, with its error correction codewords, is a Reed-Solomon codeword of its data. */
  lemma BlocksReadBack(l: Layout, data: seq<Byte>, i: nat)
    requires l.Valid() && |data| == l.Start(l.blocks) && i < l.blocks
    ensures ReadBlock(l, Interleaved(l, data), i) == l.Block(data, i)
    ensures ReadBlock(l, Interleaved(l, data), i) + ReadEc(l, Interleaved(l, data), i) ==
      Codeword(l.Block(data, i), l.ec)
  {
    hide Remainder, GeneratorTail, Interleaved, Layout.DataPosition, Layout.EcPosition, Layout.Block;
    var out := Interleaved(l, data);
    forall col | 0 <= col < l.Len(i) ensures ReadBlock(l, out, i)[col] == l.Block(data, i)[col] {
      DataAt(l, data, i, col);
    }
    forall col | 0 <= col < l.ec ensures ReadEc(l, out, i)[col] == l.Ecs(data)[i][col] {
      EcAt(l, data, i, col);
    }
    assert ReadEc(l, out, i) == l.Ecs(data)[i];
  }

  lemma {:induction false} DeinterleavePrefix(l: Layout, data: seq<Byte>, n: nat)
    requires l.Valid() && |data| == l.Start(l.blocks) && n <= l.blocks
    ensures l.Start(n) <= |data| && Deinterleave(l, Interleaved(l, data), n) == data[..l.Start(n)]
    decreases n
  {
    hide Remainder, GeneratorTail, Interleaved, ReadBlock, ReadEc;
    l.StartMono(n, l.blocks);
    if n > 0 {
      DeinterleavePrefix(l, data, n - 1);
      BlocksReadBack(l, data, n - 1);
    }
  }

  /** De-interleaving gives the data back. */
  lemma InterleaveRoundTrip(l: Layout, data: seq<Byte>)
    requires l.Valid() && |data| == l.Start(l.blocks)
    ensures |Interleaved(l, data)| == l.total
    ensures Deinterleave(l, Interleaved(l, data), l.blocks) == data
  {
    hide Interleaved;
    InterleavedLength(l, data);
    DeinterleavePrefix(l, data, l.blocks);
  }
}
