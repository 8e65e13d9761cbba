/** One direction of the media relay: rebasing a source's RTP sequence numbers
    and timestamps onto the outbound stream (RFC 3550 section 5.1).

    Sequence numbers are 16-bit and timestamps 32-bit, with the wrap-around
    written out.  Durations are nanoseconds. */
module RtpPump {
  const SECOND: int := 1_000_000_000

  function U16(x: int): (r: nat)
    ensures r < 0x1_0000
  {
    x % 0x1_0000
  }

  function U32(x: int): (r: nat)
    ensures r < 0x1_0000_0000
  {
    x % 0x1_0000_0000
  }

  /** Reinterpretation as a signed 16-bit number. */
  function Int16(x: int): (r: int)
    ensures -0x8000 <= r < 0x8000
  {
    if U16(x) < 0x8000 then U16(x) else U16(x) - 0x1_0000
  }

  function Int32(x: int): (r: int)
    ensures -0x8000_0000 <= r < 0x8000_0000
  {
    if U32(x) < 0x8000_0000 then U32(x) else U32(x) - 0x1_0000_0000
  }

  /** Integer division truncating toward zero. */
  function Quo(a: int, b: nat): int
    requires b > 0
  {
    if a >= 0 then a / b else -((-a) / b)
  }

  datatype Header = Header(sn: nat, ts: nat, ssrc: nat, marker: bool)

  datatype Packet = Packet(sn: nat, ts: nat, marker: bool)

  /** The destination codec, the break limits, and the timestamp the writer starts from. */
  datatype Config = Config(rate: nat, frame: nat, timelineBreak: int, frozenBreak: int, initTs: nat) {
    ghost predicate Valid() {
      rate > 0 && 0 < frame < 0x8000_0000 && timelineBreak >= 2 * FrameTime() && frozenBreak >= 0 &&
        initTs < 0x1_0000_0000
    }

    function FrameTime(): int
      requires rate > 0
    {
      Quo(frame * SECOND, rate)
    }
  }

  datatype State = State(
    haveSrc: bool, srcSSRC: nat, tsOffset: nat, wroteAny: bool, lastOut: nat, seqOffset: nat, lastSeq: nat,
    localWrote: bool, breaks: nat, lag: int, frozen: bool, expectSeq: nat, lost: nat, reordered: nat,
    lastArrival: int, lastTs: nat)

  const INITIAL: State := State(false, 0, 0, false, 0, 0, 0, false, 0, 0, false, 0, 0, 0, 0, 0)

  // How a packet is judged.

  /** The source's own timestamp step. */
  function Ticks(s: State, h: Header): int { Int32(h.ts - s.lastTs) }

  function Gap(s: State, now: int): int { now - s.lastArrival }

  /** How far the timestamps have parted from the arrival times since the last packet. */
  function Skew(c: Config, s: State, h: Header, now: int): int
    requires c.rate > 0
  {
    Quo(Ticks(s, h) * SECOND, c.rate) - Gap(s, now)
  }

  /** Beyond every sequence number seen since the last rebase. */
  predicate Beyond(s: State, h: Header) { Int16(h.sn + 1 - s.expectSeq) > 0 }

  predicate SameSource(s: State, h: Header) { s.haveSrc && h.ssrc == s.srcSSRC && !s.localWrote }

  predicate TimelineBroken(c: Config, s: State, h: Header, now: int)
    requires c.rate > 0
  {
    || Skew(c, s, h, now) > c.timelineBreak || Skew(c, s, h, now) < -c.timelineBreak
    || (Ticks(s, h) + c.frame < 0 && Beyond(s, h))
  }

  /** Whether the packet starts a stream: its numbering is rebased onto ours. */
  predicate StartsStream(c: Config, s: State, h: Header, now: int)
    requires c.rate > 0
  {
    !SameSource(s, h) || TimelineBroken(c, s, h, now)
  }

  function NextLag(c: Config, s: State, h: Header, now: int): int
    requires c.rate > 0
  {
    if Gap(s, now) >= 2 * c.FrameTime() then s.lag
    else if Skew(c, s, h, now) < Quo(-c.FrameTime(), 4) then s.lag - Skew(c, s, h, now)
    else 0
  }

  /** Whether the source's clock counts as frozen, so that the relay paces the packet. */
  predicate Paced(c: Config, s: State, h: Header, now: int)
    requires c.rate > 0
  {
    NextLag(c, s, h, now) > c.frozenBreak
  }

  /** The source renumbered its stream: more than a reordering behind. */
  predicate Renumbered(s: State, h: Header) { Int16(h.sn - s.expectSeq) <= -64 }

  function FrameAfter(c: Config, s: State): nat { U32(s.lastOut + c.frame) }

  /** The sequence number at which a rebased source continues. */
  function Continuation(s: State, rnd: nat): nat { if s.wroteAny then U16(s.lastSeq + 1) else U16(rnd) }

  // The effect of a packet.

  /** The breaks counted, and the pacing of a frozen clock. */
  function Judged(c: Config, s: State, h: Header, now: int): State
    requires c.rate > 0
  {
    if StartsStream(c, s, h, now) then s.(breaks := if SameSource(s, h) then s.breaks + 1 else s.breaks)
    else
      var paced := Paced(c, s, h, now);
      s.(lag := NextLag(c, s, h, now), frozen := paced, breaks := if paced && !s.frozen then s.breaks + 1 else s.breaks,
         tsOffset := if paced then U32(FrameAfter(c, s) - h.ts) else s.tsOffset)
  }

  /** The source's numbering rebased to continue right after the last packet sent. */
  function Rebased(c: Config, s: State, h: Header, rnd: nat): State {
    s.(tsOffset := U32((if s.wroteAny then FrameAfter(c, s) else c.initTs) - h.ts),
       seqOffset := U16(Continuation(s, rnd) - h.sn),
       srcSSRC := h.ssrc, haveSrc := true, localWrote := false, expectSeq := U16(h.sn + 1), lag := 0, frozen := false)
  }

  /** Loss, reordering and renumbering, from the sequence number alone. */
  function Account(s: State, h: Header, rnd: nat): State {
    var d := Int16(h.sn - s.expectSeq);
    if d >= 0 then s.(lost := s.lost + d, expectSeq := U16(h.sn + 1))
    else if !Renumbered(s, h) then s.(reordered := s.reordered + 1, lost := if s.lost > 0 then s.lost - 1 else 0)
    else s.(expectSeq := U16(h.sn + 1), seqOffset := U16(Continuation(s, rnd) - h.sn))
  }

  function Sent(s: State, h: Header, starts: bool): (State, Packet) {
    var p := Packet(U16(h.sn + s.seqOffset), U32(h.ts + s.tsOffset), h.marker || starts);
    var highest := if !s.wroteAny || Int16(p.sn - s.lastSeq) > 0 then p.sn else s.lastSeq;
    (s.(lastSeq := highest, lastOut := p.ts, wroteAny := true), p)
  }

  /** What forward sends and leaves behind. */
  function Forwarded(c: Config, s: State, h: Header, now: int, rnd: nat): (State, Packet)
    requires c.rate > 0
  {
    var starts := StartsStream(c, s, h, now);
    var j := Judged(c, s, h, now);
    var t := if starts then Rebased(c, j, h, rnd) else Account(j, h, rnd);
    Sent(t.(lastArrival := now, lastTs := h.ts), h, starts)
  }

  /** What writeLocal sends and leaves behind. */
  function Local(c: Config, s: State, marker: bool, rnd: nat): (State, Packet) {
    var p := Packet(Continuation(s, rnd), if s.wroteAny then FrameAfter(c, s) else c.initTs, marker);
    (s.(lastSeq := p.sn, lastOut := p.ts, wroteAny := true, localWrote := true), p)
  }

  /** A new pump on the same writer takes over the outbound numbering. */
  function HandOver(s: State): State {
    if s.wroteAny then INITIAL.(lastSeq := s.lastSeq, lastOut := s.lastOut, wroteAny := true) else INITIAL
  }

  class Pump {
    const c: Config
    /** Identifies the RTP writer of the destination leg. */
    const writer: int
    var haveSrc: bool
    var srcSSRC: nat
    var tsOffset: nat
    var wroteAny: bool
    var lastOut: nat
    var seqOffset: nat
    var lastSeq: nat
    var localWrote: bool
    var breaks: nat
    var lag: int
    var frozen: bool
    var expectSeq: nat
    var lost: nat
    var reordered: nat
    var lastArrival: int
    var lastTs: nat

    ghost function Now(): State
      reads this
    {
      State(haveSrc, srcSSRC, tsOffset, wroteAny, lastOut, seqOffset, lastSeq, localWrote, breaks, lag, frozen,
        expectSeq, lost, reordered, lastArrival, lastTs)
    }

    constructor (c: Config, writer: int)
      ensures this.c == c && this.writer == writer && Now() == INITIAL
    {
      this.c, this.writer := c, writer;
      haveSrc, srcSSRC, tsOffset, wroteAny, lastOut, seqOffset, lastSeq, localWrote :=
        false, 0, 0, false, 0, 0, 0, false;
      breaks, lag, frozen, expectSeq, lost, reordered, lastArrival, lastTs := 0, 0, false, 0, 0, 0, 0, 0;
    }

    method RebaseSeq(srcSeq: nat, rnd: nat)
      modifies `seqOffset
      ensures seqOffset == U16(Continuation(Now(), rnd) - srcSeq)
    {
      var start := U16(lastSeq + 1);
      if !wroteAny { start := U16(rnd); }
      seqOffset := U16(start - srcSeq);
    }

    /** The timeline checks: whether the packet starts a stream, and the pacing of a frozen clock. */
    method Judge(h: Header, now: int) returns (newStream: bool)
      requires c.rate > 0
      modifies this
      ensures newStream == StartsStream(c, old(Now()), h, now)
      ensures Now() == Judged(c, old(Now()), h, now)
    {
      hide U16, U32, Int16, Int32, Quo;
      newStream := !haveSrc || h.ssrc != srcSSRC || localWrote;
      if !newStream {
        var arrivalGap := now - lastArrival;
        var tsTicks := Int32(h.ts - lastTs);
        var diff := Quo(tsTicks * SECOND, c.rate) - arrivalGap;
        var back := tsTicks + c.frame < 0 && Int16(h.sn + 1 - expectSeq) > 0;
        if diff > c.timelineBreak || diff < -c.timelineBreak || back {
          newStream := true;
          breaks := breaks + 1;
        } else {
          var frame := Quo(c.frame * SECOND, c.rate);
          if arrivalGap < 2 * frame {
            lag := if diff < Quo(-frame, 4) then lag - diff else 0;
          }
          if lag > c.frozenBreak {
            if !frozen {
              frozen := true;
              breaks := breaks + 1;
            }
            tsOffset := U32(U32(lastOut + c.frame) - h.ts);
          } else {
            frozen := false;
          }
        }
      }
    }

    method AccountSeq(h: Header, rnd: nat)
      modifies this
      ensures Now() == Account(old(Now()), h, rnd)
    {
      hide U16, Int16;
      var d := Int16(h.sn - expectSeq);
      if d == 0 {
        StepExpected(h.sn, expectSeq);
        expectSeq := U16(expectSeq + 1);
      } else if d > 0 {
        lost := lost + d;
        expectSeq := U16(h.sn + 1);
      } else if d > -64 {
        reordered := reordered + 1;
        if lost > 0 { lost := lost - 1; }
      } else {
        expectSeq := U16(h.sn + 1);
        RebaseSeq(h.sn, rnd);
      }
    }

    /** Sends the packet where its numbers belong. */
    method Send(h: Header, newStream: bool) returns (p: Packet)
      modifies this
      ensures (Now(), p) == Sent(old(Now()), h, newStream)
    {
      hide U16, U32, Int16;
      var want, sn := U32(h.ts + tsOffset), U16(h.sn + seqOffset);
      p := Packet(sn, want, h.marker || newStream);
      if !wroteAny || Int16(sn - lastSeq) > 0 {
        lastSeq := sn;
      }
      lastOut, wroteAny := want, true;
    }

    method Rebase(h: Header, rnd: nat)
      modifies this
      ensures Now() == Rebased(c, old(Now()), h, rnd)
    {
      hide U16, U32;
      var start := c.initTs;
      if wroteAny { start := U32(lastOut + c.frame); }
      tsOffset := U32(start - h.ts);
      RebaseSeq(h.sn, rnd);
      srcSSRC, haveSrc, localWrote := h.ssrc, true, false;
      expectSeq := U16(h.sn + 1);
      lag, frozen := 0, false;
    }

    method Forward(h: Header, now: int, rnd: nat) returns (p: Packet)
      requires c.rate > 0
      modifies this
      ensures (Now(), p) == Forwarded(c, old(Now()), h, now, rnd)
    {
      hide StartsStream, Judged, Rebased, Account, Sent;
      var newStream := Judge(h, now);
      if newStream { Rebase(h, rnd); } else { AccountSeq(h, rnd); }
      lastArrival, lastTs := now, h.ts;
      p := Send(h, newStream);
    }

    method WriteLocal(marker: bool, rnd: nat) returns (p: Packet)
      modifies this
      ensures (Now(), p) == Local(c, old(Now()), marker, rnd)
    {
      var want, sn := c.initTs, U16(rnd);
      if wroteAny {
        want := U32(lastOut + c.frame);
        sn := U16(lastSeq + 1);
      }
      p := Packet(sn, want, marker);
      lastSeq, lastOut, wroteAny, localWrote := sn, want, true, true;
    }

    method InheritTimeline(prev: Pump?)
      modifies this
      ensures Now() ==
        if prev == null || prev == this || prev.writer != writer || !prev.wroteAny then old(Now())
        else old(Now()).(lastSeq := prev.lastSeq, lastOut := prev.lastOut, wroteAny := true)
    {
      if prev == null || prev == this || prev.writer != writer || !prev.wroteAny {
        return;
      }
      lastSeq, lastOut, wroteAny := prev.lastSeq, prev.lastOut, true;
    }
  }

  lemma StepExpected(sn: nat, next: nat)
    requires Int16(sn - next) == 0
    ensures U16(next + 1) == U16(sn + 1)
  {}

  /** What the last of the old pumps that wrote on this writer leaves to a new one. */
  ghost function Inherited(writer: int, olds: seq<Pump>): State
    reads olds
    decreases |olds|
  {
    if olds == [] then INITIAL
    else
      var last := olds[|olds| - 1];
      if last.writer == writer && last.wroteAny then HandOver(last.Now()) else Inherited(writer, olds[..|olds| - 1])
  }

  /** A transfer: a new pump, with the codec its leg has now, tries every pump it replaces. */
  method Replace(olds: seq<Pump>, c: Config, writer: int) returns (p: Pump)
    ensures fresh(p) && p.c == c && p.writer == writer && p.Now() == Inherited(writer, olds)
  {
    p := new Pump(c, writer);
    for i := 0 to |olds|
      invariant fresh(p) && p.c == c && p.writer == writer && p.Now() == Inherited(writer, olds[..i])
    {
      assert olds[..i + 1][..i] == olds[..i];
      InheritedKeeps(writer, olds[..i]);
      p.InheritTimeline(olds[i]);
    }
    assert olds[..|olds|] == olds;
  }

  /** A new pump has nothing but an outbound numbering. */
  lemma InheritedKeeps(writer: int, olds: seq<Pump>)
    ensures var s := Inherited(writer, olds);
      s == INITIAL.(lastSeq := s.lastSeq, lastOut := s.lastOut, wroteAny := s.wroteAny)
    decreases |olds|
  {
    if olds != [] { InheritedKeeps(writer, olds[..|olds| - 1]); }
  }
}
