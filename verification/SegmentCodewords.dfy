/** The data codewords of a byte-mode segment as numbers, four bits at a time. */
module SegmentCodewords {
  import opened Bits
  import opened Gf256
  import opened Segment

  /** The numbers of four bits that a segment and its terminator spell: the mode indicator 4, the character
      count in two digits or four, the data, two digits a byte, and the terminator. */
  function Nibble(version: nat, data: seq<Byte>, j: nat): nat {
    var n, w := |data|, if version <= 9 then 2 else 4;
    if j == 0 then 4
    else if j <= w then
      if w - j == 0 then n % 16 else if w - j == 1 then n / 16 % 16 else if w - j == 2 then n / 256 % 16
      else n / 4096 % 16
    else if j <= w + 2 * n then
      var b := ToNat(data[(j - w - 1) / 2]);
      if (j - w) % 2 == 1 then b / 16 else b % 16
    else 0
  }

  /** The codewords a segment and its terminator fill. */
  function SegmentWords(version: nat, len: nat): nat { len + if version <= 9 then 2 else 3 }

  /** v shifted left by w bits. */
  function Shifted(v: nat, w: nat): nat { if w == 0 then v else 2 * Shifted(v, w - 1) }

  lemma {:induction false} ValueConcat(a: seq<bool>, b: seq<bool>)
    ensures Value(a + b) == Shifted(Value(a), |b|) + Value(b)
    decreases |b|
  {
    if b == [] {
      assert a + b == a;
    } else {
      var k := |b| - 1;
      ValueConcat(a, b[..k]);
      assert (a + b)[..|a + b| - 1] == a + b[..k];
    }
  }

  lemma Four(v: nat)
    ensures Pow2(4) == 16 && Shifted(v, 4) == 16 * v
  {
    assert Pow2(1) == 2;
    assert Pow2(2) == 4;
    assert Pow2(3) == 8;
    assert Shifted(v, 1) == 2 * v;
    assert Shifted(v, 2) == 4 * v;
    assert Shifted(v, 3) == 8 * v;
  }

  lemma InPart(s: seq<bool>, a: nat, b: nat, from: nat, until: nat)
    requires a <= b <= |s| && from <= until <= b - a
    ensures s[a..b][from..until] == s[a + from..a + until]
  {
    forall i | 0 <= i < until - from ensures s[a..b][from..until][i] == s[a + from..a + until][i] {
      assert s[a..b][from + i] == s[a + (from + i)];
    }
  }

  lemma InFront(s: seq<bool>, t: seq<bool>, from: nat, until: nat)
    requires from <= until <= |s|
    ensures (s + t)[from..until] == s[from..until]
  {
    forall i | 0 <= i < until - from ensures (s + t)[from..until][i] == s[from..until][i] {
      assert (s + t)[from + i] == s[from + i];
    }
  }

  lemma InBack(s: seq<bool>, t: seq<bool>, from: nat, until: nat)
    requires from <= until <= |t|
    ensures (s + t)[|s| + from..|s| + until] == t[from..until]
  {
    forall i | 0 <= i < until - from ensures (s + t)[|s| + from..|s| + until][i] == t[from..until][i] {
      assert (s + t)[|s| + (from + i)] == t[from + i];
    }
  }

  /** Eight bits by halves. */
  lemma TwoHalves(s: seq<bool>, i: nat)
    requires i + 8 <= |s|
    ensures Value(s[i..i + 8]) == 16 * Value(s[i..i + 4]) + Value(s[i + 4..i + 8])
    ensures Value(s[i..i + 4]) < 16 && Value(s[i + 4..i + 8]) < 16
  {
    hide Value;
    assert s[i..i + 8] == s[i..i + 4] + s[i + 4..i + 8];
    ValueConcat(s[i..i + 4], s[i + 4..i + 8]);
    ToBitsOfValue(s[i..i + 4]);
    ToBitsOfValue(s[i + 4..i + 8]);
    Four(Value(s[i..i + 4]));
  }

  lemma ByteHalves(b: Byte)
    ensures Value(BitsOf(b)[0..4]) == ToNat(b) / 16 && Value(BitsOf(b)[4..8]) == ToNat(b) % 16
  {
    hide BitsOf, Value;
    assert BitsOf(b)[0..8] == BitsOf(b);
    TwoHalves(BitsOf(b), 0);
  }

  lemma ShortBits(n: nat)
    ensures Value(ToBits(n, 4)) == n % 16
  {
    hide Value, ToBits;
    ValueOfToBits(n, 4);
    Four(n);
  }

  lemma LowBit(n: nat, w: nat)
    requires w > 0
    ensures ToBits(n, w) == ToBits(n / 2, w - 1) + [n % 2 == 1]
  {}

  /** The bits above the lowest four. */
  lemma UpperBits(n: nat, w: nat)
    requires w >= 4
    ensures ToBits(n, w) == ToBits(n / 16, w - 4) + ToBits(n, 4)
  {
    hide ToBits;
    var (a, b, c) := (n / 2, n / 2 / 2, n / 2 / 2 / 2);
    LowBit(n, w);
    LowBit(a, w - 1);
    LowBit(b, w - 2);
    LowBit(c, w - 3);
    LowBit(n, 4);
    LowBit(a, 3);
    LowBit(b, 2);
    LowBit(c, 1);
    NoBits(c / 2);
    Sixteenth(n);
    assert ToBits(n, 4) == [c % 2 == 1, b % 2 == 1, a % 2 == 1, n % 2 == 1];
  }

  lemma Sixteenth(n: nat)
    ensures n / 2 / 2 / 2 / 2 == n / 16
  {
    var d := n / 2 / 2 / 2 / 2;
    assert 16 * d <= n < 16 * d + 16;
  }

  lemma CountAt(version: nat, n: nat, j: nat)
    requires 1 <= j <= CountBits(version) / 4
    ensures var w := if version <= 9 then 2 else 4;
      Value(ToBits(n, CountBits(version))[4 * (j - 1)..4 * j]) ==
        if w - j == 0 then n % 16 else if w - j == 1 then n / 16 % 16 else if w - j == 2 then n / 256 % 16
        else n / 4096 % 16
  {
    hide Value, ToBits;
    var bits := ToBits(n, CountBits(version));
    UpperBits(n, CountBits(version));
    UpperBits(n / 16, CountBits(version) - 4);
    if version > 9 {
      UpperBits(n / 16 / 16, 8);
      UpperBits(n / 16 / 16 / 16, 4);
      ShortBits(n / 16 / 16);
      ShortBits(n / 16 / 16 / 16);
      assert bits == ToBits(n / 16 / 16 / 16, 4) + ToBits(n / 16 / 16, 4) + ToBits(n / 16, 4) + ToBits(n, 4) by {
        NoBits(n / 16 / 16 / 16 / 16);
      }
      assert n / 16 / 16 == n / 256 && n / 16 / 16 / 16 == n / 4096;
    } else {
      NoBits(n / 16 / 16);
      assert bits == ToBits(n / 16, 4) + ToBits(n, 4);
    }
    ShortBits(n);
    ShortBits(n / 16);
    var c := bits[4 * (j - 1)..4 * j];
    if version <= 9 {
      assert c == if j == 1 then ToBits(n / 16, 4) else ToBits(n, 4);
    } else {
      assert c == if j == 1 then ToBits(n / 4096, 4) else if j == 2 then ToBits(n / 256, 4)
        else if j == 3 then ToBits(n / 16, 4) else ToBits(n, 4);
    }
  }

  lemma NoBits(n: nat)
    ensures ToBits(n, 0) == []
  {}

  lemma DataAt(data: seq<Byte>, i: nat)
    requires i < |data|
    ensures Value(Unpack(data)[8 * i..8 * i + 4]) == ToNat(data[i]) / 16
    ensures Value(Unpack(data)[8 * i + 4..8 * i + 8]) == ToNat(data[i]) % 16
  {
    hide Unpack, Value, BitsOf, ToNat;
    UnpackSlice(data, i);
    ByteHalves(data[i]);
    var eight := Unpack(data)[8 * i..8 * i + 8];
    assert eight[0..4] == Unpack(data)[8 * i..8 * i + 4] && eight[4..8] == Unpack(data)[8 * i + 4..8 * i + 8];
  }

  lemma Mode()
    ensures Value(ToBits(4, 4)) == 4
    ensures Value(Falses(4)) == 0
  {
    ShortBits(4);
    ShortBits(0);
    ZeroBits(4);
  }

  lemma HeaderDataAt(version: nat, data: seq<Byte>, i: nat)
    requires i < |data|
    ensures var (h, from) := (Header(version, data), 4 + CountBits(version) + 8 * i);
      Value(h[from..from + 4]) == ToNat(data[i]) / 16 && Value(h[from + 4..from + 8]) == ToNat(data[i]) % 16
  {
    hide Value, ToBits, Unpack, ToNat;
    var (h, w, from) := (Header(version, data), CountBits(version), 4 + CountBits(version) + 8 * i);
    HeaderParts(version, data);
    hide Header;
    DataAt(data, i);
    InPart(h, 4 + w, 4 + w + 8 * |data|, 8 * i, 8 * i + 4);
    InPart(h, 4 + w, 4 + w + 8 * |data|, 8 * i + 4, 8 * i + 8);
  }

  lemma Half(k: nat)
    ensures k == 2 * (k / 2) + k % 2 && 4 * k == 8 * (k / 2) + 4 * (k % 2)
  {}

  lemma HeaderNibble(version: nat, data: seq<Byte>, j: nat)
    requires 4 * j + 4 <= SegmentBits(version, |data|)
    ensures Value(Header(version, data)[4 * j..4 * j + 4]) == Nibble(version, data, j)
  {
    hide Value, ToBits, Unpack, ToNat;
    var (h, w, n) := (Header(version, data), CountBits(version), |data|);
    HeaderParts(version, data);
    hide Header;
    if j == 0 {
      Mode();
    } else if j <= w / 4 {
      CountAt(version, n, j);
      InPart(h, 4, 4 + w, 4 * (j - 1), 4 * j);
    } else {
      var k := j - w / 4 - 1;
      HeaderDataAt(version, data, k / 2);
      Half(k);
    }
  }

  lemma NoMore(version: nat, data: seq<Byte>, j: nat)
    requires 4 * j >= SegmentBits(version, |data|)
    ensures Nibble(version, data, j) == 0
  {
    hide ToNat;
  }

  /** Four bits of the segment and its terminator. */
  lemma NibbleAt(version: nat, data: seq<Byte>, j: nat)
    requires 4 * j + 4 <= SegmentBits(version, |data|) + 4
    ensures var s := Header(version, data) + Falses(4);
      Value(s[4 * j..4 * j + 4]) == Nibble(version, data, j)
  {
    hide Value, Header, ToNat, Nibble;
    var (h, end) := (Header(version, data), SegmentBits(version, |data|));
    var s := h + Falses(4);
    assert end == 4 * (1 + CountBits(version) / 4 + 2 * |data|);
    if 4 * j < end {
      HeaderNibble(version, data, j);
      InFront(h, Falses(4), 4 * j, 4 * j + 4);
    } else {
      Mode();
      InBack(h, Falses(4), 0, 4);
      assert Falses(4)[0..4] == Falses(4);
      NoMore(version, data, j);
    }
  }

  lemma PadAt(version: nat, data: seq<Byte>, codewords: nat, i: nat)
    requires SegmentBits(version, |data|) <= 8 * codewords && SegmentWords(version, |data|) <= i < codewords
    ensures Stream(version, data, codewords)[8 * i..8 * i + 8] ==
      BitsOf(FromNat(if (i - SegmentWords(version, |data|)) % 2 == 0 then 0xEC else 0x11))
  {
    hide ToBits, Unpack, Header, BitsOf, FromNat;
    var k, pads := i - SegmentWords(version, |data|), Pads(PadCount(version, |data|, codewords));
    UnpackSlice(pads, k);
    var front := Header(version, data) + Falses(4);
    InBack(front, Unpack(pads), 8 * k, 8 * k + 8);
  }

  /** The data codewords: as many as there are of the segment and its terminator, four bits after four bits, and
      then 236 and 17 in turn. */
  lemma CodewordsAre(version: nat, data: seq<Byte>, out: seq<Byte>, i: nat)
    requires SegmentBits(version, |data|) <= 8 * |out| && Unpack(out) == Stream(version, data, |out|) && i < |out|
    ensures ToNat(out[i]) ==
      if i < SegmentWords(version, |data|) then
        16 * Nibble(version, data, 2 * i) + Nibble(version, data, 2 * i + 1)
      else if (i - SegmentWords(version, |data|)) % 2 == 0 then 236 else 17
  {
    hide Value, ToBits, Unpack, Falses, Nibble, BitsOf, Pads, FromNat, Header;
    UnpackSlice(out, i);
    if i < SegmentWords(version, |data|) {
      var front := Header(version, data) + Falses(4);
      NibbleAt(version, data, 2 * i);
      NibbleAt(version, data, 2 * i + 1);
      TwoHalves(front, 8 * i);
      InFront(front, Unpack(Pads(PadCount(version, |data|, |out|))), 8 * i, 8 * i + 8);
    } else {
      PadAt(version, data, |out|, i);
    }
  }
}
