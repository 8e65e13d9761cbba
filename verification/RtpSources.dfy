/** When the relay starts a new stream, told from the packets that came in and went out alone. */
module RtpSources {
  import opened RtpPump
  import opened RtpContinuity

  /** Every packet of the run so far, as the far end has them. */
  function Packets(c: Config, es: seq<Event>): seq<Packet>
    requires Codecs(c, es)
    decreases |es|
  {
    if es == [] then []
    else
      var k := |es| - 1;
      Packets(c, es[..k]) + (if es[k].Transfer? then [] else [Out(CodecAt(c, es[..k]), Run(c, es[..k]), es[k])])
  }

  /** The highest sequence number of some packets, in serial number arithmetic. */
  function Highest(ps: seq<Packet>): nat
    requires ps != []
    decreases |ps|
  {
    var k := |ps| - 1;
    if k == 0 then ps[0].sn
    else if Int16(ps[k].sn - Highest(ps[..k])) > 0 then ps[k].sn
    else Highest(ps[..k])
  }

  lemma HighestSnoc(ps: seq<Packet>, p: Packet)
    ensures Highest(ps + [p]) ==
      if ps == [] then p.sn else if Int16(p.sn - Highest(ps)) > 0 then p.sn else Highest(ps)
  {
    assert (ps + [p])[..|ps|] == ps;
  }

  /** The stream continues from the last packet's timestamp and the highest number, over transfers too. */
  ghost predicate SentIs(s: State, ps: seq<Packet>) {
    && (s.wroteAny <==> ps != [])
    && (ps != [] ==> s.lastOut == ps[|ps| - 1].ts && s.lastSeq == Highest(ps))
  }

  lemma SentRelay(c: Config, s: State, h: Header, now: int, rnd: nat, ps: seq<Packet>)
    requires c.rate > 0 && SentIs(s, ps)
    ensures var (t, p) := Forwarded(c, s, h, now, rnd); SentIs(t, ps + [p])
  {
    hide StartsStream, Paced, NextLag, Renumbered, U16, U32, Int16;
    HighestSnoc(ps, Forwarded(c, s, h, now, rnd).1);
  }

  lemma SentMusic(c: Config, s: State, marker: bool, rnd: nat, ps: seq<Packet>)
    requires SentIs(s, ps)
    ensures var (t, p) := Local(c, s, marker, rnd); SentIs(t, ps + [p])
  {
    hide U32;
    HighestSnoc(ps, Local(c, s, marker, rnd).1);
    if ps != [] { Int16Step(Local(c, s, marker, rnd).1.sn, s.lastSeq); }
  }

  lemma {:induction false} RunSent(c: Config, es: seq<Event>)
    requires Codecs(c, es)
    ensures SentIs(Run(c, es), Packets(c, es))
    decreases |es|
  {
    hide Forwarded, Local, SentIs, CodecAt;
    if es == [] {
      NothingSent();
    } else {
      var k := |es| - 1;
      var codec, s, ps, e := CodecAt(c, es[..k]), Run(c, es[..k]), Packets(c, es[..k]), es[k];
      RunSent(c, es[..k]);
      match e
      case Relay(h, now, rnd) => SentRelay(codec, s, h, now, rnd, ps);
      case Music(marker, rnd) => SentMusic(codec, s, marker, rnd, ps);
      case Transfer(_) =>
        SentTransfer(s, ps);
        assert ps + [] == ps;
    }
  }

  lemma NothingSent()
    ensures SentIs(INITIAL, [])
  {}

  lemma SentTransfer(s: State, ps: seq<Packet>)
    requires SentIs(s, ps)
    ensures SentIs(HandOver(s), ps)
  {}

  /** The packet comes straight after another of the same source: no music or transfer between them. */
  predicate Follows(es: seq<Event>, h: Header) {
    es != [] && es[|es| - 1].Relay? && es[|es| - 1].h.ssrc == h.ssrc
  }

  lemma RelayedLast(c: Config, s: State, h: Header, now: int, rnd: nat)
    requires c.rate > 0
    ensures var t := Forwarded(c, s, h, now, rnd).0;
      t.haveSrc && !t.localWrote && t.srcSSRC == h.ssrc && t.lastTs == h.ts && t.lastArrival == now
  {
    hide TimelineBroken, Paced, NextLag, Renumbered, U16, U32, Int16, Int32;
  }

  /** What the relay knows of its source is the last event. */
  lemma SourceIsLast(c: Config, es: seq<Event>, h: Header)
    requires Codecs(c, es)
    ensures SameSource(Run(c, es), h) <==> Follows(es, h)
    ensures Follows(es, h) ==>
      Run(c, es).lastTs == es[|es| - 1].h.ts && Run(c, es).lastArrival == es[|es| - 1].now
  {
    hide Forwarded, CodecAt;
    if es != [] {
      var k := |es| - 1;
      if es[k].Relay? { RelayedLast(CodecAt(c, es[..k]), Run(c, es[..k]), es[k].h, es[k].now, es[k].rnd); }
    }
  }

  /** The packet's timestamp has parted from its arrival by more than the limit since the packet before it, or
      goes back by more than a frame though the packet is beyond every number expected. */
  predicate Breaks(c: Config, before: Event, h: Header, now: int, expected: nat)
    requires c.rate > 0 && before.Relay?
  {
    var ticks, gap := Int32(h.ts - before.h.ts), now - before.now;
    var parted := Quo(ticks * SECOND, c.rate) - gap;
    || parted > c.timelineBreak || parted < -c.timelineBreak
    || (ticks + c.frame < 0 && Int16(h.sn + 1 - expected) > 0)
  }

  /** A packet that was made to continue the outbound stream, whatever its own numbers are. */
  ghost predicate Continues(c: Config, ps: seq<Packet>, rnd: nat, p: Packet) {
    if ps == [] then p.sn == U16(rnd) && p.ts == c.initTs
    else p.sn == U16(Highest(ps) + 1) && p.ts == U32(ps[|ps| - 1].ts + c.frame)
  }

  lemma StartContinues(c: Config, s: State, h: Header, now: int, rnd: nat, ps: seq<Packet>)
    requires c.Valid() && InRange(s) && SentIs(s, ps) && StartsStream(c, s, h, now)
    ensures var (t, p) := Forwarded(c, s, h, now, rnd);
      && Continues(c, ps, rnd, p) && p.marker && t.lost == s.lost && t.reordered == s.reordered
      && t.lag == 0 && !t.frozen
      && t.breaks == (if SameSource(s, h) then s.breaks + 1 else s.breaks)
  {
    hide TimelineBroken, SameSource, Int16, U16, U32, Highest;
    if s.wroteAny {
      FollowsOn(c, s, h, now, rnd, false);
    } else {
      U16Reach(U16(rnd), h.sn);
      U16Add(rnd, 0);
      U32Reach(c.initTs, h.ts);
      U32Small(c.initTs);
    }
  }

  lemma InStreamMarker(c: Config, s: State, h: Header, now: int, rnd: nat)
    requires c.rate > 0 && !StartsStream(c, s, h, now)
    ensures Forwarded(c, s, h, now, rnd).1.marker == h.marker
  {
    hide StartsStream, Judged, Account;
  }

  lemma BreaksIs(c: Config, s: State, before: Event, h: Header, now: int)
    requires c.rate > 0 && before.Relay? && s.lastTs == before.h.ts && s.lastArrival == before.now
    ensures TimelineBroken(c, s, h, now) <==> Breaks(c, before, h, now, s.expectSeq)
  {
    hide Int16, Int32, Quo;
  }

  /** In every run a packet that does not follow another of its source, because its SSRC is new or because music
      or a transfer came between, starts a stream: it continues the outbound numbering and timestamps, carries
      the marker, counts as no loss and no reordering, and ends the pacing of a frozen clock.  A packet that
      does follow one starts a stream exactly when the timeline breaks, which is counted; otherwise its marker
      is the source's own. */
  lemma NewSource(c: Config, es: seq<Event>, h: Header, now: int, rnd: nat)
    requires Codecs(c, es)
    ensures var (codec, s, ps) := (CodecAt(c, es), Run(c, es), Packets(c, es));
      var (t, p) := Forwarded(codec, s, h, now, rnd);
      if !Follows(es, h) then
        && Continues(codec, ps, rnd, p) && p.marker && t.lag == 0 && !t.frozen
        && t.lost == s.lost && t.reordered == s.reordered && t.breaks == s.breaks
      else if Breaks(codec, es[|es| - 1], h, now, s.expectSeq) then
        && Continues(codec, ps, rnd, p) && p.marker && t.lag == 0 && !t.frozen
        && t.lost == s.lost && t.reordered == s.reordered && t.breaks == s.breaks + 1
      else p.marker == h.marker
  {
    hide Forwarded, Run, CodecAt, TimelineBroken, SameSource, Breaks, Follows, Continues, Packets, SentIs, InRange;
    hide TimeCoupled, PacingConsistent;
    var codec, s, ps := CodecAt(c, es), Run(c, es), Packets(c, es);
    Invariants(c, es);
    RunSent(c, es);
    SourceIsLast(c, es, h);
    if Follows(es, h) { FollowsRelay(es, h); BreaksIs(codec, s, es[|es| - 1], h, now); }
    if StartsStream(codec, s, h, now) {
      StartContinues(codec, s, h, now, rnd, ps);
    } else {
      InStreamMarker(codec, s, h, now, rnd);
    }
  }

  lemma FollowsRelay(es: seq<Event>, h: Header)
    requires Follows(es, h)
    ensures es != [] && es[|es| - 1].Relay?
  {}

  /** Our own frame in every run continues the stream too, with the marker asked for. */
  lemma MusicContinues(c: Config, es: seq<Event>, marker: bool, rnd: nat)
    requires Codecs(c, es)
    ensures var (codec, ps) := (CodecAt(c, es), Packets(c, es));
      var p := Local(codec, Run(c, es), marker, rnd).1;
      Continues(codec, ps, rnd, p) && p.marker == marker
  {
    hide Run, CodecAt, Highest, U16, U32;
    RunSent(c, es);
  }
}
