/** The byte-mode segment and its padding, ISO/IEC 18004:2015 section 7.4. */
module Segment {
  import opened Common
  import opened Bits
  import opened Gf256

  /** val >> i. */
  function ShiftRight(val: nat, i: nat): nat {
    if i == 0 then val else ShiftRight(val / 2, i - 1)
  }

  lemma {:induction false} ShiftRightStep(val: nat, i: nat)
    ensures ShiftRight(val, i + 1) == ShiftRight(val, i) / 2
    decreases i
  {
    if i > 0 { ShiftRightStep(val / 2, i - 1); }
  }

  /** A growing bit string. */
  class BitBuf {
    var bits: seq<bool>

    constructor ()
      ensures bits == []
    {
      bits := [];
    }

    /** Appends the n low bits of val, most significant first. */
    method Append(val: nat, n: nat)
      modifies this
      ensures bits == old(bits) + ToBits(val, n)
    {
      for i := n downto 0
        invariant bits == old(bits) + ToBits(ShiftRight(val, i), n - i)
      {
        ShiftRightStep(val, i);
        bits := bits + [ShiftRight(val, i) % 2 == 1];
      }
    }
  }

  /** The bits of a byte string. */
  function Unpack(bytes: seq<Byte>): (bits: seq<bool>)
    ensures |bits| == 8 * |bytes|
  {
    seq(8 * |bytes|, i requires 0 <= i < 8 * |bytes| => BitsOf(bytes[i / 8])[i % 8])
  }

  lemma UnpackAt(bytes: seq<Byte>, i: nat, k: nat)
    requires i < |bytes| && k < 8
    ensures Unpack(bytes)[8 * i + k] == BitsOf(bytes[i])[k]
  {
    hide BitsOf;
    EightTimes(i, k);
  }

  lemma EightTimes(i: nat, k: nat)
    requires k < 8
    ensures (8 * i + k) / 8 == i && (8 * i + k) % 8 == k
  {}

  lemma UnpackSnoc(bytes: seq<Byte>, b: Byte)
    ensures Unpack(bytes + [b]) == Unpack(bytes) + BitsOf(b)
  {}

  /** The bytes a bit string spells. */
  function Pack(bits: seq<bool>): seq<Byte>
    requires |bits| % 8 == 0
  {
    seq(|bits| / 8, i requires 0 <= i < |bits| / 8 => OfBits(bits[8 * i..8 * i + 8]))
  }

  lemma UnpackSlice(bytes: seq<Byte>, i: nat)
    requires i < |bytes|
    ensures Unpack(bytes)[8 * i..8 * i + 8] == BitsOf(bytes[i])
  {
    hide Unpack, BitsOf;
    forall k | 0 <= k < 8 ensures Unpack(bytes)[8 * i + k] == BitsOf(bytes[i])[k] {
      UnpackAt(bytes, i, k);
    }
  }

  lemma OfBitsOf(b: Byte)
    ensures OfBits(BitsOf(b)) == b
  {}

  lemma PackUnpack(bytes: seq<Byte>)
    ensures Pack(Unpack(bytes)) == bytes
  {
    hide Unpack, BitsOf, OfBits;
    forall i | 0 <= i < |bytes| ensures OfBits(Unpack(bytes)[8 * i..8 * i + 8]) == bytes[i] {
      UnpackSlice(bytes, i);
      OfBitsOf(bytes[i]);
    }
  }

  /** The width of the character count: 8 bits up to version 9, 16 above. */
  function CountBits(version: nat): nat { if version <= 9 then 8 else 16 }

  function SegmentBits(version: nat, len: nat): nat { 4 + CountBits(version) + 8 * len }

  /** Mode indicator, character count and data. */
  function Header(version: nat, data: seq<Byte>): (s: seq<bool>)
    ensures |s| == SegmentBits(version, |data|)
  {
    ToBits(4, 4) + ToBits(|data|, CountBits(version)) + Unpack(data)
  }

  /** The bits of a stream from one place on, as many as are asked for and are there. */
  function Field(s: seq<bool>, from: nat, len: nat): (f: seq<bool>)
    ensures from + len <= |s| ==> |f| == len
  {
    if from + len <= |s| then s[from..from + len] else []
  }

  /** Reading a byte-mode segment back from its codewords. */
  function Parse(version: nat, codewords: seq<Byte>): Option<seq<Byte>> {
    var s, w := Unpack(codewords), CountBits(version);
    if |s| < 4 + w || Field(s, 0, 4) != ToBits(4, 4) then None
    else
      var n := Value(Field(s, 4, w));
      if |s| < SegmentBits(version, n) then None else Some(Pack(Field(s, 4 + w, 8 * n)))
  }

  lemma FieldOfPrefix(s: seq<bool>, prefix: seq<bool>, from: nat, len: nat)
    requires |prefix| <= |s| && s[..|prefix|] == prefix && from + len <= |prefix|
    ensures Field(s, from, len) == prefix[from..from + len]
  {
    assert forall i :: 0 <= i < |prefix| ==> s[i] == prefix[i];
  }

  /** The three parts of a header. */
  lemma HeaderParts(version: nat, data: seq<Byte>)
    ensures var (h, w) := (Header(version, data), CountBits(version));
      h[0..4] == ToBits(4, 4) && h[4..4 + w] == ToBits(|data|, w) && h[4 + w..4 + w + 8 * |data|] == Unpack(data)
  {
    hide ToBits, Unpack;
  }

  /** Whatever follows a complete segment, the data is read back exactly. */
  lemma ParseSegment(version: nat, data: seq<Byte>, codewords: seq<Byte>)
    requires |data| < Pow2(CountBits(version))
    requires SegmentBits(version, |data|) <= 8 * |codewords|
    requires Unpack(codewords)[..SegmentBits(version, |data|)] == Header(version, data)
    ensures Parse(version, codewords) == Some(data)
  {
    hide Unpack, Pack, Field, Header, ToBits, Value, Pow2;
    var s, w, h := Unpack(codewords), CountBits(version), Header(version, data);
    HeaderParts(version, data);
    FieldOfPrefix(s, h, 0, 4);
    FieldOfPrefix(s, h, 4, w);
    FieldOfPrefix(s, h, 4 + w, 8 * |data|);
    ValueOfToBits(|data|, w);
    PackUnpack(data);
  }

  function Falses(n: nat): seq<bool> { seq(n, _ => false) }

  lemma {:induction false} ZeroBits(n: nat)
    ensures ToBits(0, n) == Falses(n)
  {
    if n > 0 { ZeroBits(n - 1); }
  }

  /** The pad codewords 0xEC and 0x11, alternating. */
  function Pads(n: nat): (p: seq<Byte>)
    ensures |p| == n
  {
    seq(n, i => if i % 2 == 0 then FromNat(0xEC) else FromNat(0x11))
  }

  /** A byte-mode segment ends four bits short of a byte boundary, so when it fits there is
      room for the whole terminator, and the terminator needs no further bits to align it. */
  lemma TerminatorAligns(version: nat, len: nat, codewords: nat)
    requires SegmentBits(version, len) <= 8 * codewords
    ensures (SegmentBits(version, len) + 4) % 8 == 0
    ensures SegmentBits(version, len) + 4 <= 8 * codewords
  {}

  /** The pad codewords after a segment and its terminator. */
  function PadCount(version: nat, len: nat, codewords: nat): (n: nat)
    requires SegmentBits(version, len) <= 8 * codewords
    ensures SegmentBits(version, len) + 4 + 8 * n == 8 * codewords
  {
    TerminatorAligns(version, len, codewords);
    codewords - (SegmentBits(version, len) + 4) / 8
  }

  /** All the bits of the data codewords: segment, terminator and pad codewords. */
  function Stream(version: nat, data: seq<Byte>, codewords: nat): (s: seq<bool>)
    requires SegmentBits(version, |data|) <= 8 * codewords
    ensures |s| == 8 * codewords
  {
    Header(version, data) + Falses(4) + Unpack(Pads(PadCount(version, |data|, codewords)))
  }

  function SetBit(b: Byte, k: nat): Byte
    requires k < 8
  {
    OfBits(BitsOf(b)[k := true])
  }

  lemma SetBitIs(b: Byte, k: nat)
    requires k < 8
    ensures forall j :: 0 <= j < 8 ==> BitsOf(SetBit(b, k))[j] == (j == k || BitsOf(b)[j])
  {
    hide BitsOf, OfBits;
  }

  method PackBits(bits: seq<bool>, n: nat) returns (bytes: seq<Byte>)
    requires |bits| == 8 * n
    ensures |bytes| == n && Unpack(bytes) == bits
  {
    hide BitsOf, OfBits, SetBit;
    var out := new Byte[n](_ => ZERO);
    ZeroByte();
    for i := 0 to |bits|
      invariant forall j, k {:trigger BitsOf(out[j])[k]} :: 0 <= j < n && 0 <= k < 8 ==>
        BitsOf(out[j])[k] == (8 * j + k < i && bits[8 * j + k])
    {
      if bits[i] {
        SetBitIs(out[i / 8], i % 8);
        out[i / 8] := SetBit(out[i / 8], i % 8);
      }
    }
    bytes := out[..];
    forall i | 0 <= i < |bits| ensures Unpack(bytes)[i] == bits[i] {
      assert BitsOf(out[i / 8])[i % 8] == bits[8 * (i / 8) + i % 8];
    }
  }

  lemma ZeroByte()
    ensures forall k :: 0 <= k < 8 ==> !BitsOf(ZERO)[k]
  {}

  lemma ByteBits(b: Byte)
    ensures ToBits(ToNat(b), 8) == BitsOf(b)
  {
    ToBitsOfValue(BitsOf(b));
  }

  lemma PadsStep(k: nat)
    ensures Pads(k + 1) == Pads(k) + [if k % 2 == 0 then FromNat(0xEC) else FromNat(0x11)]
  {
    hide FromNat;
  }

  method AppendBytes(b: BitBuf, data: seq<Byte>)
    modifies b
    ensures b.bits == old(b.bits) + Unpack(data)
  {
    hide Unpack, ToBits, ToNat, BitsOf;
    for i := 0 to |data|
      invariant b.bits == old(b.bits) + Unpack(data[..i])
    {
      b.Append(ToNat(data[i]), 8);
      ByteBits(data[i]);
      UnpackSnoc(data[..i], data[i]);
      assert data[..i + 1] == data[..i] + [data[i]];
    }
    assert data[..|data|] == data;
  }

  /** The pad codewords, up to the capacity. */
  method AppendPads(b: BitBuf, capBits: nat)
    requires |b.bits| % 8 == 0 && capBits % 8 == 0 && |b.bits| <= capBits
    modifies b
    ensures b.bits == old(b.bits) + Unpack(Pads((capBits - |old(b.bits)|) / 8))
  {
    hide Unpack, ToBits, ToNat, BitsOf, FromNat, Pads, Add;
    var pad := FromNat(0xEC);
    ghost var k, body := 0, b.bits;
    while |b.bits| < capBits
      invariant 8 * k <= capBits - |body|
      invariant b.bits == body + Unpack(Pads(k))
      invariant pad == if k % 2 == 0 then FromNat(0xEC) else FromNat(0x11)
      decreases capBits - 8 * k
    {
      b.Append(ToNat(pad), 8);
      ByteBits(pad);
      UnpackSnoc(Pads(k), pad);
      PadsStep(k);
      PadFlip(pad);
      pad := Add(pad, Add(FromNat(0xEC), FromNat(0x11)));
      k := k + 1;
    }
  }

  method EncodeBytes(version: nat, data: seq<Byte>, dataCodewords: nat) returns (out: seq<Byte>)
    requires SegmentBits(version, |data|) <= 8 * dataCodewords
    ensures |out| == dataCodewords
    ensures Unpack(out) == Stream(version, data, dataCodewords)
  {
    hide Unpack, ToBits, Pads, Falses;
    var b := new BitBuf();
    b.Append(4, 4);
    b.Append(|data|, CountBits(version));
    AppendBytes(b, data);
    assert b.bits == Header(version, data);
    var capBits := dataCodewords * 8;
    // The overflow panic cannot happen here.
    assert |b.bits| <= capBits;
    TerminatorAligns(version, |data|, dataCodewords);
    var term := 4;
    if capBits - |b.bits| < term { assert false; }
    b.Append(0, term);
    ZeroBits(term);
    var pad := (8 - |b.bits| % 8) % 8;
    if pad > 0 { assert false; }
    assert b.bits == Header(version, data) + Falses(4);
    AppendPads(b, capBits);
    out := PackBits(b.bits, dataCodewords);
  }

  lemma PadFlip(p: Byte)
    ensures p == FromNat(0xEC) ==> Add(p, Add(FromNat(0xEC), FromNat(0x11))) == FromNat(0x11)
    ensures p == FromNat(0x11) ==> Add(p, Add(FromNat(0xEC), FromNat(0x11))) == FromNat(0xEC)
  {
    hide *;
    AddCancel(FromNat(0x11), FromNat(0xEC));
    AddComm(FromNat(0xEC), FromNat(0x11));
    AddCancel(FromNat(0xEC), FromNat(0x11));
  }

  /** What EncodeBytes writes is read back as the data it was given. */
  lemma EncodedRoundTrip(version: nat, data: seq<Byte>, out: seq<Byte>)
    requires |data| < Pow2(CountBits(version))
    requires SegmentBits(version, |data|) <= 8 * |out|
    requires Unpack(out) == Stream(version, data, |out|)
    ensures Parse(version, out) == Some(data)
  {
    hide Unpack, Pack, Parse, Pads;
    assert Unpack(out)[..SegmentBits(version, |data|)] == Header(version, data);
    ParseSegment(version, data, out);
  }
}
