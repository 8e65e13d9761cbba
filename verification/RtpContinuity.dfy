/** What the far end sees over any run of relayed packets, hold music and
    transfers: one continuous numbering and bounded timestamp steps. */
module RtpContinuity {
  import opened RtpPump

  datatype Event =
    | Relay(h: Header, now: int, rnd: nat)
    | Music(marker: bool, rnd: nat)
    | Transfer(codec: Config)

  function After(c: Config, s: State, e: Event): State
    requires c.rate > 0
  {
    match e
    case Relay(h, now, rnd) => Forwarded(c, s, h, now, rnd).0
    case Music(marker, rnd) => Local(c, s, marker, rnd).0
    case Transfer(_) => HandOver(s)
  }

  /** The packet an event other than a transfer sends. */
  function Out(c: Config, s: State, e: Event): Packet
    requires c.rate > 0 && !e.Transfer?
  {
    match e
    case Relay(h, now, rnd) => Forwarded(c, s, h, now, rnd).1
    case Music(marker, rnd) => Local(c, s, marker, rnd).1
  }

  /** Every codec of the run is one a stream can have. */
  ghost predicate Codecs(c: Config, es: seq<Event>) {
    c.Valid() && forall i :: 0 <= i < |es| ==> es[i].Transfer? ==> es[i].codec.Valid()
  }

  /** The codec after a run that began with c: a transfer may settle on another. */
  function CodecAt(c: Config, es: seq<Event>): (r: Config)
    requires Codecs(c, es)
    ensures r.Valid()
    decreases |es|
  {
    if es == [] then c
    else if es[|es| - 1].Transfer? then es[|es| - 1].codec
    else CodecAt(c, es[..|es| - 1])
  }

  function Run(c: Config, es: seq<Event>): State
    requires Codecs(c, es)
    decreases |es|
  {
    if es == [] then INITIAL
    else After(CodecAt(c, es[..|es| - 1]), Run(c, es[..|es| - 1]), es[|es| - 1])
  }

  /** Whether the source's offsets describe where the outbound stream is. */
  predicate Relaying(s: State) { s.haveSrc && !s.localWrote }

  /** The last timestamp sent is the source's last timestamp, rebased. */
  predicate TimeCoupled(s: State) { Relaying(s) ==> s.wroteAny && s.lastOut == U32(s.lastTs + s.tsOffset) }

  /** The highest sequence number sent is the source's highest, rebased. */
  predicate SeqCoupled(s: State) { Relaying(s) ==> s.wroteAny && s.lastSeq == U16(s.expectSeq - 1 + s.seqOffset) }

  predicate PacingConsistent(c: Config, s: State) { s.frozen <==> s.lag > c.frozenBreak }

  predicate InRange(s: State) { s.lastSeq < 0x1_0000 && s.lastOut < 0x1_0000_0000 && s.expectSeq < 0x1_0000 }

  /** Whether an in-stream packet jumps forward by exactly 2^15 - 1. */
  predicate ExtremeJump(c: Config, s: State, e: Event)
    requires c.rate > 0
  {
    e.Relay? && !StartsStream(c, s, e.h, e.now) && Int16(e.h.sn - s.expectSeq) == 0x7FFF
  }

  /** Whether an event puts the two numberings in step, however they stood. */
  predicate Heals(c: Config, s: State, e: Event)
    requires c.rate > 0
  {
    !e.Relay? || StartsStream(c, s, e.h, e.now) || Renumbered(s, e.h)
  }

  /** No extreme jump since the numberings were last put in step. */
  ghost predicate Clean(c: Config, es: seq<Event>)
    requires Codecs(c, es)
    decreases |es|
  {
    es == [] ||
    var k := |es| - 1;
    var codec, s := CodecAt(c, es[..k]), Run(c, es[..k]);
    Heals(codec, s, es[k]) || (Clean(c, es[..k]) && !ExtremeJump(codec, s, es[k]))
  }

  /** How far the source's highest number, rebased, stands from the highest number sent. */
  function Drift(s: State): nat { U16(s.expectSeq - 1 + s.seqOffset - s.lastSeq) }

  /** Where the drift goes with an in-stream packet at this distance from the source's expected number. */
  function DriftNext(drift: nat, d: int): nat {
    var ahead := drift + d + 1;
    if d >= 0 then (if Int16(ahead) > 0 then 0 else U16(ahead))
    else if Int16(ahead) > 0 then U16(-(d + 1))
    else drift
  }

  /** The drift by the source's own numbers, without looking at any number sent. */
  function DriftOf(c: Config, es: seq<Event>): nat
    requires Codecs(c, es)
    decreases |es|
  {
    if es == [] then 0
    else
      var k := |es| - 1;
      var codec, s, e := CodecAt(c, es[..k]), Run(c, es[..k]), es[k];
      if Heals(codec, s, e) then 0 else DriftNext(DriftOf(c, es[..k]), Int16(e.h.sn - s.expectSeq))
  }

  lemma U16Add(a: int, b: int)
    ensures U16(U16(a) + b) == U16(a + b)
  {}

  lemma U16Sub(a: int, b: int)
    ensures U16(a - U16(b)) == U16(a - b)
  {
    U16Add(-b, a);
    assert 0 - U16(b) == -b + 0x1_0000 * (b / 0x1_0000);
  }

  lemma U16Difference(a: int, b: int, k: int)
    ensures U16(U16(a + k) - U16(b + k)) == U16(a - b)
  {
    U16Add(a + k, 0 - U16(b + k));
    U16Sub(a + k, b + k);
  }

  /** Adding an offset computed to reach a target reaches it. */
  lemma U16Reach(target: int, x: int)
    ensures U16(x + U16(target - x)) == U16(target)
  {
    U16Add(target - x, x);
  }

  lemma U32Add(a: int, b: int)
    ensures U32(U32(a) + b) == U32(a + b)
  {}

  lemma U32Sub(a: int, b: int)
    ensures U32(a - U32(b)) == U32(a - b)
  {
    U32Add(-b, a);
    assert 0 - U32(b) == -b + 0x1_0000_0000 * (b / 0x1_0000_0000);
  }

  lemma U32Difference(a: int, b: int, k: int)
    ensures U32(U32(a + k) - U32(b + k)) == U32(a - b)
  {
    U32Add(a + k, 0 - U32(b + k));
    U32Sub(a + k, b + k);
  }

  lemma U32Reach(target: int, x: int)
    ensures U32(x + U32(target - x)) == U32(target)
  {
    U32Add(target - x, x);
  }

  lemma {:induction false} Invariants(c: Config, es: seq<Event>)
    requires Codecs(c, es)
    ensures TimeCoupled(Run(c, es)) && PacingConsistent(CodecAt(c, es), Run(c, es)) && InRange(Run(c, es))
    decreases |es|
  {
    hide Forwarded, U16, U32;
    if es != [] {
      var k := |es| - 1;
      var codec, s, e := CodecAt(c, es[..k]), Run(c, es[..k]), es[k];
      Invariants(c, es[..k]);
      if e.Relay? { ForwardKeeps(codec, s, e.h, e.now, e.rnd); }
      if e.Music? { LocalKeeps(codec, s, e.marker, e.rnd); }
    }
  }

  lemma LocalKeeps(c: Config, s: State, marker: bool, rnd: nat)
    requires c.Valid() && PacingConsistent(c, s) && InRange(s)
    ensures var t := Local(c, s, marker, rnd).0;
      PacingConsistent(c, t) && InRange(t) && !Relaying(t)
  {
    hide U16, U32;
  }

  lemma ForwardKeeps(c: Config, s: State, h: Header, now: int, rnd: nat)
    requires c.Valid() && TimeCoupled(s) && PacingConsistent(c, s) && InRange(s)
    ensures var s' := Forwarded(c, s, h, now, rnd).0;
      TimeCoupled(s') && PacingConsistent(c, s') && InRange(s') && Relaying(s')
  {
    hide U16, U32, Int16, Int32, Quo, TimelineBroken, NextLag, Skew, Renumbered, Gap;
  }

  lemma JudgedKeeps(c: Config, s: State, h: Header, now: int)
    requires c.rate > 0
    ensures var j := Judged(c, s, h, now);
      && j.seqOffset == s.seqOffset && j.expectSeq == s.expectSeq && j.lastSeq == s.lastSeq && j.lastOut == s.lastOut
      && j.wroteAny == s.wroteAny && j.haveSrc == s.haveSrc && j.localWrote == s.localWrote
      && j.lost == s.lost && j.reordered == s.reordered
  {
    hide StartsStream, Paced, NextLag;
  }

  /** An in-stream packet is numbered as far from the highest number sent as the source numbered it from its
      own highest, and the drift more. */
  lemma InStreamNumber(c: Config, s: State, h: Header, now: int, rnd: nat)
    requires c.rate > 0 && s.wroteAny && !StartsStream(c, s, h, now)
    ensures var p := Forwarded(c, s, h, now, rnd).1;
      if Renumbered(s, h) then p.sn == U16(s.lastSeq + 1)
      else U16(p.sn - s.lastSeq) == U16(h.sn - (s.expectSeq - 1) + Drift(s))
  {
    hide TimelineBroken, Judged, Int16, U16, U32;
    JudgedKeeps(c, s, h, now);
    if Renumbered(s, h) {
      U16Reach(U16(s.lastSeq + 1), h.sn);
      U16Add(s.lastSeq + 1, 0);
    } else {
      U16Add(h.sn + s.seqOffset, 0 - s.lastSeq);
      U16Add(s.expectSeq - 1 + s.seqOffset - s.lastSeq, h.sn - (s.expectSeq - 1));
    }
  }

  /** Without drift, and only then, the source's own distance goes out. */
  lemma DriftShows(sn: nat, last: int, ahead: int, drift: nat)
    requires drift < 0x1_0000 && U16(sn - last) == U16(ahead + drift)
    ensures U16(sn - last) == U16(ahead) <==> drift == 0
  {}

  lemma NoDrift(s: State)
    requires Relaying(s) && s.wroteAny && InRange(s)
    ensures SeqCoupled(s) <==> Drift(s) == 0
  {
    hide U16;
    U16Zero();
    U16Small(s.lastSeq);
    var x := s.expectSeq - 1 + s.seqOffset;
    if SeqCoupled(s) {
      U16Difference(x, x, 0);
      U16Add(x, 0 - U16(x));
    }
    if Drift(s) == 0 {
      U16Add(x - s.lastSeq, s.lastSeq);
    }
  }

  lemma Int16Step(sn: int, last: int)
    requires U16(sn) == U16(last + 1)
    ensures Int16(sn - last) == 1
  {
    assert U16(sn - last) == 1;
  }

  /** Equal differences compare alike. */
  lemma Int16Same(a: int, b: int)
    requires U16(a) == U16(b)
    ensures Int16(a) == Int16(b)
  {}

  /** The number a packet is sent with, in terms of the source's highest number after it. */
  lemma NextHighest(sn: int, offset: int)
    ensures U16(U16(sn + 1) - 1 + offset) == U16(sn + offset)
  {
    U16Add(sn + 1, offset - 1);
  }

  /** How the drift moves: it depends on the source's numbers alone, and any packet that becomes the highest
      sent while it is the source's highest ends it. */
  lemma DriftStep(c: Config, s: State, h: Header, now: int, rnd: nat)
    requires c.rate > 0 && s.wroteAny && !StartsStream(c, s, h, now) && !Renumbered(s, h) && InRange(s)
    ensures var (t, d) := (Forwarded(c, s, h, now, rnd).0, Int16(h.sn - s.expectSeq));
      Drift(t) == DriftNext(Drift(s), d)
  {
    hide TimelineBroken, Judged, Int16, U16, U32;
    JudgedKeeps(c, s, h, now);
    InStreamNumber(c, s, h, now, rnd);
    var (t, p) := Forwarded(c, s, h, now, rnd);
    var d := Int16(h.sn - s.expectSeq);
    SignedIs(h.sn - s.expectSeq);
    U16Add(h.sn - s.expectSeq, 1 + Drift(s));
    U16Add(d, 1 + Drift(s));
    Int16Same(p.sn - s.lastSeq, Drift(s) + d + 1);
    U16Add(h.sn + 1, t.seqOffset - 1 - t.lastSeq);
    U16Add(h.sn + s.seqOffset, 0 - t.lastSeq);
    U16Zero();
    if d < 0 && Int16(p.sn - s.lastSeq) > 0 {
      U16Sub(s.expectSeq - 1 + s.seqOffset, h.sn + s.seqOffset);
      U16Add(h.sn - s.expectSeq, 1);
      U16Add(d, 1);
      U16Sub(0, h.sn - s.expectSeq + 1);
      U16Sub(0, d + 1);
    }
  }

  lemma SignedIs(x: int)
    ensures U16(Int16(x)) == U16(x)
  {}

  /** The continuation point follows the highest number sent, except after a forward jump of exactly
      2^15 - 1: the packet then counts as the source's highest but not as ours. */
  lemma CouplingKept(c: Config, s: State, h: Header, now: int, rnd: nat)
    requires c.Valid() && SeqCoupled(s) && TimeCoupled(s) && PacingConsistent(c, s) && InRange(s) &&
      !StartsStream(c, s, h, now)
    ensures SeqCoupled(Forwarded(c, s, h, now, rnd).0) <==> Int16(h.sn - s.expectSeq) != 0x7FFF
  {
    hide TimelineBroken, Judged, Int16, U16, U32, PacingConsistent;
    var t := Forwarded(c, s, h, now, rnd).0;
    ForwardKeeps(c, s, h, now, rnd);
    NoDrift(s);
    NoDrift(t);
    if Renumbered(s, h) {
      RenumberedHeals(c, s, h, now, rnd);
    } else {
      DriftStep(c, s, h, now, rnd);
      StepFromNone(Int16(h.sn - s.expectSeq));
    }
  }

  lemma StepFromNone(d: int)
    requires -64 < d < 0x8000
    ensures d >= 0 ==> ((Int16(d + 1) > 0 || U16(d + 1) == 0) <==> d != 0x7FFF)
    ensures d < 0 ==> Int16(d + 1) <= 0
  {}

  lemma RenumberedHeals(c: Config, s: State, h: Header, now: int, rnd: nat)
    requires c.rate > 0 && s.wroteAny && !StartsStream(c, s, h, now) && Renumbered(s, h)
    ensures SeqCoupled(Forwarded(c, s, h, now, rnd).0)
  {
    hide TimelineBroken, Judged, Int16, U16, U32;
    JudgedKeeps(c, s, h, now);
    InStreamNumber(c, s, h, now, rnd);
    var (t, p) := Forwarded(c, s, h, now, rnd);
    U16Add(s.lastSeq + 1, 0);
    Int16Step(p.sn, s.lastSeq);
    NextHighest(h.sn, t.seqOffset);
  }

  lemma U16Small(x: nat)
    requires x < 0x1_0000
    ensures U16(x) == x
  {}

  lemma U16Zero()
    ensures U16(0) == 0
  {}

  /** A packet that starts a stream, and one of our own, follows right after the last packet sent. */
  lemma FollowsOn(c: Config, s: State, h: Header, now: int, rnd: nat, marker: bool)
    requires c.Valid() && InRange(s) && s.wroteAny
    ensures var (t, p) := Local(c, s, marker, rnd);
      p.sn == U16(s.lastSeq + 1) && p.ts == U32(s.lastOut + c.frame) && t.lastSeq == p.sn
    ensures StartsStream(c, s, h, now) ==> var (t, p) := Forwarded(c, s, h, now, rnd);
      p.sn == U16(s.lastSeq + 1) && p.ts == U32(s.lastOut + c.frame) && t.lastSeq == p.sn && SeqCoupled(t)
  {
    hide TimelineBroken, Int16, U16, U32, SameSource;
    if StartsStream(c, s, h, now) {
      var (t, p) := Forwarded(c, s, h, now, rnd);
      U16Reach(U16(s.lastSeq + 1), h.sn);
      U16Add(s.lastSeq + 1, 0);
      U32Reach(FrameAfter(c, s), h.ts);
      U32Add(s.lastOut + c.frame, 0);
      U16Small(p.sn);
      Int16Step(p.sn, s.lastSeq);
      NextHighest(h.sn, t.seqOffset);
    }
  }

  /** Whatever came before, a run without an extreme jump since the numberings were last put in step has them
      in step. */
  lemma {:induction false} Coupled(c: Config, es: seq<Event>)
    requires Codecs(c, es) && Clean(c, es)
    ensures SeqCoupled(Run(c, es))
    decreases |es|
  {
    hide Forwarded, U16, U32, Int16, StartsStream, Renumbered, InRange, TimeCoupled, PacingConsistent;
    if es != [] {
      var k := |es| - 1;
      var codec, s, e := CodecAt(c, es[..k]), Run(c, es[..k]), es[k];
      Invariants(c, es[..k]);
      if Clean(c, es[..k]) { Coupled(c, es[..k]); }
      if e.Relay? { StepCoupled(codec, s, e.h, e.now, e.rnd, Clean(c, es[..k])); }
    }
  }

  lemma StepCoupled(c: Config, s: State, h: Header, now: int, rnd: nat, clean: bool)
    requires c.Valid() && TimeCoupled(s) && PacingConsistent(c, s) && InRange(s)
    requires Heals(c, s, Relay(h, now, rnd)) || (clean && !ExtremeJump(c, s, Relay(h, now, rnd)))
    requires clean ==> SeqCoupled(s)
    ensures SeqCoupled(Forwarded(c, s, h, now, rnd).0)
  {
    hide Forwarded, U16, U32, Int16, TimelineBroken, Renumbered, PacingConsistent;
    if StartsStream(c, s, h, now) {
      if s.wroteAny { FollowsOn(c, s, h, now, rnd, false); } else { FirstPacket(c, s, h, now, rnd); }
    } else if Renumbered(s, h) {
      RenumberedHeals(c, s, h, now, rnd);
    } else {
      CouplingKept(c, s, h, now, rnd);
    }
  }

  lemma FirstPacket(c: Config, s: State, h: Header, now: int, rnd: nat)
    requires c.rate > 0 && !s.wroteAny && StartsStream(c, s, h, now)
    ensures SeqCoupled(Forwarded(c, s, h, now, rnd).0)
  {
    hide TimelineBroken, Int16, U16, U32, SameSource;
    var t := Forwarded(c, s, h, now, rnd).0;
    NextHighest(h.sn, t.seqOffset);
  }

  /** The drift of any run is what the source's numbers make it. */
  lemma {:induction false} DriftIs(c: Config, es: seq<Event>)
    requires Codecs(c, es)
    ensures Relaying(Run(c, es)) ==> Drift(Run(c, es)) == DriftOf(c, es)
    decreases |es|
  {
    hide Forwarded, Drift, DriftNext, TimelineBroken, Renumbered, InRange, TimeCoupled, PacingConsistent, SeqCoupled,
      CodecAt;
    hide U16, U32, Int16;
    if es != [] {
      var k := |es| - 1;
      var codec, s, e := CodecAt(c, es[..k]), Run(c, es[..k]), es[k];
      Invariants(c, es[..k]);
      DriftIs(c, es[..k]);
      if e.Relay? { DriftFollows(codec, s, e.h, e.now, e.rnd); }
    }
  }

  lemma DriftFollows(c: Config, s: State, h: Header, now: int, rnd: nat)
    requires c.Valid() && TimeCoupled(s) && PacingConsistent(c, s) && InRange(s)
    ensures var t := Forwarded(c, s, h, now, rnd).0;
      Drift(t) == if Heals(c, s, Relay(h, now, rnd)) then 0 else DriftNext(Drift(s), Int16(h.sn - s.expectSeq))
    ensures !Heals(c, s, Relay(h, now, rnd)) ==> Relaying(s)
  {
    hide Forwarded, Drift, DriftNext, TimelineBroken, Renumbered, InRange, PacingConsistent, SeqCoupled, U16, U32,
      Int16;
    if Heals(c, s, Relay(h, now, rnd)) {
      StepCoupled(c, s, h, now, rnd, false);
      ForwardKeeps(c, s, h, now, rnd);
      NoDrift(Forwarded(c, s, h, now, rnd).0);
    } else {
      DriftStep(c, s, h, now, rnd);
    }
  }

  /** A second extreme jump straight after the first undoes it. */
  lemma TwoJumpsCancel()
    ensures DriftNext(0, 0x7FFF) == 0x8000 && DriftNext(0x8000, 0x7FFF) == 0
  {}

  /** Continuity.  In any run every packet after the first either follows right after the last one sent (a
      rebase, a renumbering, or our own audio), or stands from the highest number sent as the source's own
      numbering says, and the drift more: so source losses stay visible and nothing else is skipped exactly
      when the source's numbers give no drift, as when no extreme jump came since the numberings were last put
      in step. */
  lemma Continuity(c: Config, es: seq<Event>, e: Event)
    requires Codecs(c, es) && !e.Transfer? && Run(c, es).wroteAny
    ensures var (codec, s) := (CodecAt(c, es), Run(c, es));
      var p := Out(codec, s, e);
      if e.Music? || StartsStream(codec, s, e.h, e.now) then
        p.sn == U16(s.lastSeq + 1) && p.ts == U32(s.lastOut + codec.frame)
      else if Renumbered(s, e.h) then p.sn == U16(s.lastSeq + 1)
      else
        && U16(p.sn - s.lastSeq) == U16(e.h.sn - (s.expectSeq - 1) + DriftOf(c, es))
        && (U16(p.sn - s.lastSeq) == U16(e.h.sn - (s.expectSeq - 1)) <==> DriftOf(c, es) == 0)
        && (Clean(c, es) ==> U16(p.sn - s.lastSeq) == U16(e.h.sn - (s.expectSeq - 1)))
  {
    hide Forwarded, Local, U16, U32, Int16, TimelineBroken, Renumbered, Run, CodecAt, SeqCoupled, TimeCoupled;
    hide PacingConsistent, Clean, Drift, DriftOf, InRange;
    var codec, s := CodecAt(c, es), Run(c, es);
    Invariants(c, es);
    match e
    case Music(marker, rnd) => FollowsOn(codec, s, Header(0, 0, 0, false), 0, rnd, marker);
    case Relay(h, now, rnd) =>
      if StartsStream(codec, s, h, now) {
        FollowsOn(codec, s, h, now, rnd, false);
      } else {
        InStreamNumber(codec, s, h, now, rnd);
        if !Renumbered(s, h) {
          NoDrift(s);
          DriftRange(s);
          DriftIs(c, es);
          DriftShows(Out(codec, s, e).sn, s.lastSeq, h.sn - (s.expectSeq - 1), Drift(s));
          if Clean(c, es) { Coupled(c, es); }
        }
      }
  }

  lemma DriftRange(s: State)
    ensures Drift(s) < 0x1_0000
  {}

  // What an extreme jump does.

  /** After an extreme jump our next own packet stands 2^15 - 1 numbers behind one already sent. */
  lemma ExtremeJumpFallsBack(c: Config, s: State, h: Header, now: int, rnd: nat)
    requires c.Valid() && SeqCoupled(s) && TimeCoupled(s) && InRange(s) && !StartsStream(c, s, h, now) &&
      Int16(h.sn - s.expectSeq) == 0x7FFF
    ensures var (t, p) := Forwarded(c, s, h, now, rnd);
      t.wroteAny && t.lastSeq == s.lastSeq && U16(p.sn - t.lastSeq) == 0x8000 &&
        Local(c, t, false, rnd).1.sn == U16(p.sn - 0x7FFF)
  {
    hide TimelineBroken, Judged, U32, U16, Int16;
    JudgedKeeps(c, s, h, now);
    NoDrift(s);
    InStreamNumber(c, s, h, now, rnd);
    var p := Forwarded(c, s, h, now, rnd).1;
    HalfWay(h.sn - s.expectSeq, p.sn, s.lastSeq);
  }

  lemma HalfWay(d: int, sn: nat, last: nat)
    requires Int16(d) == 0x7FFF && U16(sn - last) == U16(d + 1)
    ensures U16(sn - last) == 0x8000 && Int16(sn - last) == -0x8000 && U16(last + 1) == U16(sn - 0x7FFF)
  {
    U16Sub(sn + 1, sn - last);
    assert U16(d + 1) == 0x8000;
    assert U16(sn + 1 - 0x8000) == U16(sn - 0x7FFF);
  }

  /** n frames of our own audio. */
  function Playing(c: Config, s: State, n: nat): State {
    if n == 0 then s else Local(c, Playing(c, s, n - 1), false, 0).0
  }

  lemma {:induction false} PlayingAt(c: Config, s: State, n: nat)
    requires s.wroteAny && s.lastSeq < 0x1_0000
    ensures Playing(c, s, n).wroteAny && Playing(c, s, n).lastSeq == U16(s.lastSeq + n)
  {
    hide U16, U32;
    if n == 0 {
      U16Small(s.lastSeq);
    } else {
      PlayingAt(c, s, n - 1);
      U16Add(s.lastSeq + n - 1, 1);
    }
  }

  /** So after 2^15 - 1 further frames of our own the jump's own number goes out a second time. */
  lemma ExtremeJumpRepeats(c: Config, s: State, h: Header, now: int, rnd: nat)
    requires c.Valid() && SeqCoupled(s) && TimeCoupled(s) && InRange(s) && !StartsStream(c, s, h, now) &&
      Int16(h.sn - s.expectSeq) == 0x7FFF
    ensures var (t, p) := Forwarded(c, s, h, now, rnd);
      Local(c, Playing(c, t, 0x7FFF), false, 0).1.sn == p.sn
  {
    hide Forwarded, StartsStream, U32, U16, Int16;
    ExtremeJumpFallsBack(c, s, h, now, rnd);
    var (t, p) := Forwarded(c, s, h, now, rnd);
    SentInRange(c, s, h, now, rnd);
    PlayingAt(c, t, 0x7FFF);
    U16Add(t.lastSeq + 0x7FFF, 1);
    U16Add(p.sn - t.lastSeq, t.lastSeq);
    U16Small(p.sn);
  }

  lemma SentInRange(c: Config, s: State, h: Header, now: int, rnd: nat)
    requires c.rate > 0
    ensures Forwarded(c, s, h, now, rnd).1.sn < 0x1_0000
  {
    hide StartsStream, Judged, Account, Rebased;
  }

  const G711: Config := Config(8000, 160, 2 * SECOND, SECOND / 5, 0)
  const FIRST: Header := Header(0, 0, 7, false)
  const JUMP: Header := Header(0x8000, 160, 7, false)

  lemma FirstRelayed()
    ensures G711.Valid() && G711.FrameTime() == 20_000_000
    ensures var (s, p) := Forwarded(G711, INITIAL, FIRST, 0, 0);
      p.sn == 0 && Relaying(s) && s.wroteAny && s.lastSeq == 0 && s.expectSeq == 1 && s.seqOffset == 0
      && s.lastTs == 0 && s.lastArrival == 0 && s.srcSSRC == 7 && s.lag == 0
  {}

  lemma JumpRelayed(s: State)
    requires Relaying(s) && s.wroteAny && s.lastSeq == 0 && s.expectSeq == 1 && s.seqOffset == 0
    requires s.lastTs == 0 && s.lastArrival == 0 && s.srcSSRC == 7 && s.lag == 0
    requires G711.Valid() && G711.FrameTime() == 20_000_000
    ensures !StartsStream(G711, s, JUMP, 20_000_000) && !Renumbered(s, JUMP) && Int16(JUMP.sn - s.expectSeq) == 0x7FFF
    ensures var (t, p) := Forwarded(G711, s, JUMP, 20_000_000, 0);
      p.sn == 0x8000 && t.lastSeq == 0 && t.wroteAny
  {
    hide NextLag, Paced;
    assert Ticks(s, JUMP) == 160;
    assert Skew(G711, s, JUMP, 20_000_000) == 0;
    JudgedKeeps(G711, s, JUMP, 20_000_000);
  }

  /** A run with such a jump: numbers 0 and 2^15 are relayed 20 ms apart, and the music goes on from 1, which
      was not sent before; it also puts the numberings in step again. */
  lemma ExtremeJumpRun()
    ensures var first, jump, music := Relay(FIRST, 0, 0), Relay(JUMP, 20_000_000, 0), Music(false, 0);
      && Codecs(G711, [first, jump, music])
      && ExtremeJump(G711, Run(G711, [first]), jump) && !Clean(G711, [first, jump]) && Clean(G711, [first, jump, music])
      && Out(G711, Run(G711, []), first).sn == 0
      && Out(G711, Run(G711, [first]), jump).sn == 0x8000
      && Out(G711, Run(G711, [first, jump]), music).sn == 1
  {
    hide Forwarded, StartsStream, Renumbered, Int16, U16, U32;
    var first, jump, music := Relay(FIRST, 0, 0), Relay(JUMP, 20_000_000, 0), Music(false, 0);
    FirstRelayed();
    assert [first, jump, music][..2] == [first, jump] && [first, jump][..1] == [first] && [first][..0] == [];
    assert CodecAt(G711, []) == CodecAt(G711, [first]) == CodecAt(G711, [first, jump]) == G711;
    var s := Run(G711, [first]);
    assert Run(G711, []) == INITIAL;
    assert s == After(G711, INITIAL, first);
    JumpRelayed(s);
    assert Run(G711, [first, jump]) == Forwarded(G711, s, JUMP, 20_000_000, 0).0;
    U16Small(1);
  }

  // Timestamps.

  /** The outbound step of a packet. */
  function OutStep(c: Config, s: State, e: Event): int
    requires c.rate > 0 && !e.Transfer?
  {
    Int32(Out(c, s, e).ts - s.lastOut)
  }

  /** The outbound step is one frame, after a rebase, in our own audio, or while a frozen clock is paced;
      otherwise it is exactly the source's own step, which parts from the arrival gap by at most the break
      limit, and which goes back by at most one frame when the packet is beyond every number seen. */
  ghost predicate StepBounded(c: Config, s: State, e: Event)
    requires c.rate > 0 && !e.Transfer?
  {
    var step := OutStep(c, s, e);
    if e.Music? || StartsStream(c, s, e.h, e.now) || Paced(c, s, e.h, e.now) then step == c.frame
    else
      && step == Ticks(s, e.h)
      && -c.timelineBreak <= Quo(step * SECOND, c.rate) - Gap(s, e.now) <= c.timelineBreak
      && (Beyond(s, e.h) ==> step + c.frame >= 0)
  }

  /** In any run every outbound timestamp step is bounded. */
  lemma BoundedTimestamps(c: Config, es: seq<Event>, e: Event)
    requires Codecs(c, es) && !e.Transfer? && Run(c, es).wroteAny
    ensures StepBounded(CodecAt(c, es), Run(c, es), e)
  {
    hide Run, CodecAt, U16, U32, Int16, Int32, Quo, Forwarded, Local, Judged, NextLag, InRange, TimeCoupled;
    var codec, s := CodecAt(c, es), Run(c, es);
    Invariants(c, es);
    OneFrame(s.lastOut, codec.frame);
    match e
    case Music(marker, rnd) => FollowsOn(codec, s, Header(0, 0, 0, false), 0, rnd, marker);
    case Relay(h, now, rnd) =>
      if StartsStream(codec, s, h, now) {
        FollowsOn(codec, s, h, now, rnd, false);
      } else {
        InStreamTime(codec, s, h, now, rnd);
      }
  }

  lemma OneFrame(last: nat, frame: nat)
    requires frame < 0x8000_0000
    ensures Int32(U32(last + frame) - last) == frame
  {
    U32Add(last + frame, 0 - last);
  }

  lemma Int32Same(a: int, b: int)
    requires U32(a) == U32(b)
    ensures Int32(a) == Int32(b)
  {}

  lemma InStreamTime(c: Config, s: State, h: Header, now: int, rnd: nat)
    requires c.Valid() && TimeCoupled(s) && InRange(s) && !StartsStream(c, s, h, now)
    ensures var p := Forwarded(c, s, h, now, rnd).1;
      if Paced(c, s, h, now) then p.ts == U32(s.lastOut + c.frame)
      else Int32(p.ts - s.lastOut) == Ticks(s, h)
  {
    hide TimelineBroken, NextLag, Int16, Int32, U16, U32, Renumbered;
    var p := Forwarded(c, s, h, now, rnd).1;
    if Paced(c, s, h, now) {
      U32Reach(FrameAfter(c, s), h.ts);
      U32Add(s.lastOut + c.frame, 0);
    } else {
      U32Difference(h.ts, s.lastTs, s.tsOffset);
      Int32Same(p.ts - s.lastOut, h.ts - s.lastTs);
    }
  }

  // A frozen source clock.

  /** A packet of a source that repeats its timestamp: its number, in order or not, and its arrival gap. */
  datatype Repeat = Repeat(sn: nat, marker: bool, gap: int, rnd: nat)

  function HeaderOf(s: State, p: Repeat): Header { Header(p.sn, s.lastTs, s.srcSSRC, p.marker) }

  function FrozenRun(c: Config, s: State, ps: seq<Repeat>): State
    requires c.rate > 0
    decreases |ps|
  {
    if ps == [] then s
    else
      var t, p := FrozenRun(c, s, ps[..|ps| - 1]), ps[|ps| - 1];
      Forwarded(c, t, HeaderOf(t, p), t.lastArrival + p.gap, p.rnd).0
  }

  function Total(ps: seq<Repeat>): int
    decreases |ps|
  {
    if ps == [] then 0 else Total(ps[..|ps| - 1]) + ps[|ps| - 1].gap
  }

  /** How many of the packets arrive with more than the limit of timeline missing. */
  function PacedPackets(c: Config, lag: int, ps: seq<Repeat>): nat
    decreases |ps|
  {
    if ps == [] then 0
    else PacedPackets(c, lag, ps[..|ps| - 1]) + (if lag + Total(ps) > c.frozenBreak then 1 else 0)
  }

  ghost predicate Steady(c: Config, s: State)
    requires c.rate > 0
  {
    Relaying(s) && s.wroteAny && TimeCoupled(s) && PacingConsistent(c, s) && InRange(s)
  }

  lemma FrozenStep(c: Config, s: State, p: Repeat)
    requires c.Valid() && Steady(c, s) && c.FrameTime() / 4 < p.gap < 2 * c.FrameTime()
    ensures var h, now := HeaderOf(s, p), s.lastArrival + p.gap;
      var t := Forwarded(c, s, h, now, p.rnd).0;
      && !StartsStream(c, s, h, now) && Steady(c, t) && t.lag == s.lag + p.gap
      && t.breaks == (if t.lag > c.frozenBreak && !s.frozen then s.breaks + 1 else s.breaks)
      && t.lastOut == (if t.lag > c.frozenBreak then U32(s.lastOut + c.frame) else s.lastOut)
  {
    hide U16, Int16, Renumbered;
    var h, now := HeaderOf(s, p), s.lastArrival + p.gap;
    assert Ticks(s, h) == 0;
    assert Quo(0, c.rate) == 0;
    QuarterFrame(c.FrameTime());
    assert Skew(c, s, h, now) == -p.gap;
    NotBroken(c, s, h, now, p.gap);
    assert NextLag(c, s, h, now) == s.lag + p.gap;
    FrozenOutcome(c, s, h, now, p.rnd, s.lag + p.gap);
  }

  lemma FrameTimeIs(c: Config)
    requires c.rate > 0
    ensures c.FrameTime() >= 0
  {
    var a := c.frame * SECOND;
    assert a / c.rate >= 0;
  }

  lemma QuarterFrame(f: int)
    requires f >= 0
    ensures Quo(-f, 4) == -(f / 4)
  {}

  lemma NotBroken(c: Config, s: State, h: Header, now: int, gap: int)
    requires c.Valid() && Relaying(s) && h.ssrc == s.srcSSRC && Ticks(s, h) == 0
    requires Skew(c, s, h, now) == -gap && 0 <= gap < 2 * c.FrameTime()
    ensures !StartsStream(c, s, h, now)
  {
    hide Skew, Ticks;
  }

  lemma FrozenOutcome(c: Config, s: State, h: Header, now: int, rnd: nat, lag: int)
    requires c.Valid() && Steady(c, s) && !StartsStream(c, s, h, now) && NextLag(c, s, h, now) == lag &&
      h.ts == s.lastTs
    ensures var t := Forwarded(c, s, h, now, rnd).0;
      && Steady(c, t) && t.lag == lag
      && t.breaks == (if lag > c.frozenBreak && !s.frozen then s.breaks + 1 else s.breaks)
      && t.lastOut == (if lag > c.frozenBreak then U32(s.lastOut + c.frame) else s.lastOut)
  {
    hide U16, Int16, U32, Int32, Quo, Renumbered, TimelineBroken, NextLag, Skew, Gap;
    ForwardKeeps(c, s, h, now, rnd);
    InStreamPaced(c, s, h, now, rnd);
  }

  lemma InStreamPaced(c: Config, s: State, h: Header, now: int, rnd: nat)
    requires c.Valid() && TimeCoupled(s) && !StartsStream(c, s, h, now)
    ensures Paced(c, s, h, now) ==> Forwarded(c, s, h, now, rnd).0.lastOut == U32(s.lastOut + c.frame)
  {
    hide TimelineBroken, NextLag, Int16, Int32, U16, U32, Renumbered;
    if Paced(c, s, h, now) {
      U32Reach(FrameAfter(c, s), h.ts);
      U32Add(s.lastOut + c.frame, 0);
    }
  }

  /** While a source repeats one timestamp on packets between a quarter frame and two frames apart, whatever
      their numbers, the missing timeline adds up; the packets beyond the limit go out one frame apart, the
      earlier ones repeat the timestamp, and the break is counted once. */
  lemma {:induction false} FrozenEpisode(c: Config, s: State, ps: seq<Repeat>)
    requires c.Valid() && Steady(c, s)
    requires forall i :: 0 <= i < |ps| ==> c.FrameTime() / 4 < ps[i].gap < 2 * c.FrameTime()
    ensures var t := FrozenRun(c, s, ps);
      && Steady(c, t) && t.lag == s.lag + Total(ps)
      && t.breaks == s.breaks + (if t.frozen && !s.frozen then 1 else 0)
      && t.lastOut == U32(s.lastOut + c.frame * PacedPackets(c, s.lag, ps))
      && (s.frozen ==> t.frozen)
    decreases |ps|
  {
    hide Forwarded, U32;
    if ps == [] {
      U32Small(s.lastOut);
    } else {
      var k := |ps| - 1;
      FrozenEpisode(c, s, ps[..k]);
      FrozenStep(c, FrozenRun(c, s, ps[..k]), ps[k]);
      U32Add(s.lastOut + c.frame * PacedPackets(c, s.lag, ps[..k]), c.frame);
      OneMore(c.frame, PacedPackets(c, s.lag, ps[..k]));
    }
  }

  lemma OneMore(f: nat, n: nat)
    ensures f * n + f == f * (n + 1)
  {}

  lemma U32Small(x: nat)
    requires x < 0x1_0000_0000
    ensures U32(x) == x
  {}

  /** When the source's clock moves again the pacing ends, no break is counted, and the outbound step is the
      source's own. */
  lemma ClockResumes(c: Config, s: State, h: Header, now: int, rnd: nat)
    requires c.Valid() && Steady(c, s) && !StartsStream(c, s, h, now)
    requires Gap(s, now) < 2 * c.FrameTime() && Skew(c, s, h, now) >= Quo(-c.FrameTime(), 4)
    ensures var (t, p) := Forwarded(c, s, h, now, rnd);
      t.lag == 0 && !t.frozen && t.breaks == s.breaks && Int32(p.ts - s.lastOut) == Ticks(s, h)
  {
    hide U16, U32, Int16, Int32, Quo, Skew, TimelineBroken, Renumbered, Gap, Ticks;
    InStreamTime(c, s, h, now, rnd);
  }

  /** Pacing ends with exactly such a packet: one that moves the clock after a gap of two frames or more is
      still paced. */
  lemma PacingEnds(c: Config, s: State, h: Header, now: int, rnd: nat)
    requires c.Valid() && Steady(c, s) && s.frozen && !StartsStream(c, s, h, now)
    ensures var t := Forwarded(c, s, h, now, rnd).0;
      && (!t.frozen <==> Gap(s, now) < 2 * c.FrameTime() && Skew(c, s, h, now) >= Quo(-c.FrameTime(), 4))
      && (t.frozen ==> t.lastOut == U32(s.lastOut + c.frame) && t.breaks == s.breaks)
  {
    hide U16, U32, Int16, Int32, Quo, Skew, TimelineBroken, Renumbered, Gap, Ticks;
    FrameTimeIs(c);
    QuarterFrame(c.FrameTime());
    InStreamPaced(c, s, h, now, rnd);
  }

  // Loss accounting.

  function RunFrom(c: Config, s: State, es: seq<Event>): State
    requires c.rate > 0
    decreases |es|
  {
    if es == [] then s else After(c, RunFrom(c, s, es[..|es| - 1]), es[|es| - 1])
  }

  /** Every event is a relayed packet that starts no stream. */
  ghost predicate OneStream(c: Config, s: State, es: seq<Event>)
    requires c.rate > 0
  {
    forall i :: 0 <= i < |es| ==> es[i].Relay? && !StartsStream(c, RunFrom(c, s, es[..i]), es[i].h, es[i].now)
  }

  /** The highest position so far; the stream starts at u0. */
  function High(u0: int, us: seq<int>): (m: int)
    ensures m >= u0
    decreases |us|
  {
    if us == [] then u0
    else
      var m := High(u0, us[..|us| - 1]);
      if us[|us| - 1] > m then us[|us| - 1] else m
  }

  /** No duplicate, nothing older than the first packet, reordering under 64 and jumps under 2^15. */
  ghost predicate Orderly(u0: int, us: seq<int>)
    decreases |us|
  {
    us == [] ||
    var k := |us| - 1;
    && Orderly(u0, us[..k])
    && us[k] > u0 && us[k] !in us[..k] && -64 < us[k] - (High(u0, us[..k]) + 1) < 0x8000
  }

  predicate Within(x: int, a: int, b: int) { a <= x <= b }

  ghost function Range(a: int, b: int): set<int> { set x: int | a <= x <= b && Within(x, a, b) }

  lemma {:induction false} RangeSize(a: int, b: int)
    ensures |Range(a, b)| == if b < a then 0 else b - a + 1
    decreases b - a
  {
    if a <= b {
      RangeSize(a, b - 1);
      forall x: int ensures x in Range(a, b) <==> x in Range(a, b - 1) + {b} {}
      assert Range(a, b) == Range(a, b - 1) + {b};
    } else {
      forall x: int ensures x !in Range(a, b) {}
      assert Range(a, b) == {};
    }
  }

  /** The positions of the span whose packets have not arrived. */
  ghost function Missing(u0: int, us: seq<int>): set<int> {
    set x | x in Range(u0 + 1, High(u0, us)) && x !in us
  }

  lemma MissingIs(u0: int, us: seq<int>)
    ensures forall x :: x in Missing(u0, us) <==> u0 < x <= High(u0, us) && x !in us
  {}

  lemma {:induction false} MissingCount(u0: int, us: seq<int>)
    requires Orderly(u0, us)
    ensures |Missing(u0, us)| == High(u0, us) - u0 - |us|
    decreases |us|
  {
    MissingIs(u0, us);
    if us == [] {
      assert Missing(u0, us) == {};
    } else {
      var k := |us| - 1;
      var u, m := us[k], High(u0, us[..k]);
      MissingCount(u0, us[..k]);
      MissingIs(u0, us[..k]);
      assert us == us[..k] + [u];
      HighBounds(u0, us[..k]);
      Arrival(u0, m, us[..k], u, Missing(u0, us[..k]), Missing(u0, us));
    }
  }

  /** A packet beyond the highest adds the skipped slots; any other fills its own. */
  lemma Arrival(u0: int, m: int, us: seq<int>, u: int, before: set<int>, after: set<int>)
    requires u0 <= m && u0 < u && u !in us && forall x: int :: x in us ==> x <= m
    requires forall x: int :: x in before <==> u0 < x <= m && x !in us
    requires forall x: int :: x in after <==> u0 < x <= (if u > m then u else m) && x !in us && x != u
    ensures |after| == if u > m then |before| + (u - m - 1) else |before| - 1
  {
    if u > m { Skips(m, u, before, after, us, u0); } else { Fills(u, before, after); }
  }

  lemma Skips(m: int, u: int, before: set<int>, after: set<int>, us: seq<int>, u0: int)
    requires u0 <= m < u && forall x: int :: x in us ==> x <= m
    requires forall x: int :: x in before <==> u0 < x <= m && x !in us
    requires forall x: int :: x in after <==> u0 < x <= u && x !in us && x != u
    ensures |after| == |before| + (u - m - 1)
  {
    var skipped := Range(m + 1, u - 1);
    RangeSize(m + 1, u - 1);
    forall x: int ensures x in after <==> x in before + skipped {}
    assert after == before + skipped;
    forall x: int | x in before ensures x !in skipped {}
    assert before !! skipped;
  }

  lemma Fills(u: int, before: set<int>, after: set<int>)
    requires u in before && forall x: int :: x in after <==> x in before && x != u
    ensures |after| == |before| - 1
  {
    forall x: int ensures x in after <==> x in before - {u} {}
    assert after == before - {u};
  }

  lemma {:induction false} HighBounds(u0: int, us: seq<int>)
    ensures forall x :: x in us ==> x <= High(u0, us)
    decreases |us|
  {
    if us != [] {
      HighBounds(u0, us[..|us| - 1]);
      assert us == us[..|us| - 1] + [us[|us| - 1]];
    }
  }

  lemma Distance(u: int, v: int, sn: nat, next: nat)
    requires sn == U16(u) && next == U16(v) && -0x8000 <= u - v < 0x8000
    ensures Int16(sn - next) == u - v
  {
    U16Difference(u, v, 0);
  }

  /** Loss accounting.  Within one stream `lost` has grown by exactly the number of slots still missing, so
      the sequence span equals the packets received plus the packets lost. */
  lemma {:induction false} LossAccounting(c: Config, s: State, es: seq<Event>, u0: int, us: seq<int>)
    requires c.rate > 0 && s.expectSeq == U16(u0 + 1) && OneStream(c, s, es)
    requires |us| == |es| && Orderly(u0, us) && forall i :: 0 <= i < |es| ==> es[i].h.sn == U16(us[i])
    ensures var t := RunFrom(c, s, es);
      && t.expectSeq == U16(High(u0, us) + 1)
      && t.lost == s.lost + |Missing(u0, us)|
      && High(u0, us) - u0 + 1 == (1 + |us|) + (t.lost - s.lost)
    decreases |es|
  {
    hide Forwarded, U16, Int16, StartsStream, Orderly, High, Missing, OneStream, RunFrom;
    MissingCount(u0, us);
    RunFromLast(c, s, es);
    if es != [] {
      var k := |es| - 1;
      OrderlyLast(u0, us);
      LossAccounting(c, s, es[..k], u0, us[..k]);
      LossStep(c, RunFrom(c, s, es[..k]), es[k].h, es[k].now, es[k].rnd, s.lost, u0, us);
    } else {
      NoneYet(u0);
    }
  }

  lemma RunFromLast(c: Config, s: State, es: seq<Event>)
    requires c.rate > 0 && OneStream(c, s, es)
    ensures es == [] ==> RunFrom(c, s, es) == s
    ensures es != [] ==> var (k, e) := (|es| - 1, es[|es| - 1]);
      && OneStream(c, s, es[..k]) && e.Relay? && !StartsStream(c, RunFrom(c, s, es[..k]), e.h, e.now)
      && RunFrom(c, s, es) == Forwarded(c, RunFrom(c, s, es[..k]), e.h, e.now, e.rnd).0
  {
    hide Forwarded, StartsStream;
    if es != [] {
      var k := |es| - 1;
      forall i | 0 <= i < k
        ensures es[..k][i].Relay? && !StartsStream(c, RunFrom(c, s, es[..k][..i]), es[..k][i].h, es[..k][i].now)
      {
        assert es[..k][..i] == es[..i];
      }
    }
  }

  lemma NoneYet(u0: int)
    ensures High(u0, []) == u0
  {}

  lemma OrderlyLast(u0: int, us: seq<int>)
    requires Orderly(u0, us) && |us| > 0
    ensures var (k, m) := (|us| - 1, High(u0, us[..|us| - 1]));
      && Orderly(u0, us[..k]) && us[k] > u0 && us[k] !in us[..k] && -64 < us[k] - (m + 1) < 0x8000
      && High(u0, us) == if us[k] > m then us[k] else m
  {}

  lemma LossStep(c: Config, t: State, h: Header, now: int, rnd: nat, lost0: nat, u0: int, us: seq<int>)
    requires c.rate > 0 && !StartsStream(c, t, h, now) && |us| > 0 && Orderly(u0, us)
    requires var k := |us| - 1;
      && h.sn == U16(us[k]) && t.expectSeq == U16(High(u0, us[..k]) + 1) && t.lost == lost0 + |Missing(u0, us[..k])|
    ensures var t' := Forwarded(c, t, h, now, rnd).0;
      t'.expectSeq == U16(High(u0, us) + 1) && t'.lost == lost0 + |Missing(u0, us)|
  {
    hide Forwarded, U16, Int16, StartsStream, Orderly, High, Missing;
    var k := |us| - 1;
    OrderlyLast(u0, us);
    MissingCount(u0, us);
    MissingCount(u0, us[..k]);
    MissingIs(u0, us[..k]);
    Distance(us[k], High(u0, us[..k]) + 1, h.sn, t.expectSeq);
    Accounted(c, t, h, now, rnd);
    U16Next(us[k], h.sn);
    if us[k] <= High(u0, us[..k]) {
      assert us[k] in Missing(u0, us[..k]);
    }
  }

  lemma U16Next(u: int, sn: nat)
    requires sn == U16(u)
    ensures U16(sn + 1) == U16(u + 1)
  {
    U16Add(u, 1);
  }

  lemma Accounted(c: Config, s: State, h: Header, now: int, rnd: nat)
    requires c.rate > 0 && !StartsStream(c, s, h, now)
    ensures var (t, d) := (Forwarded(c, s, h, now, rnd).0, Int16(h.sn - s.expectSeq));
      && (d >= 0 ==> t.expectSeq == U16(h.sn + 1) && t.lost == s.lost + d && t.reordered == s.reordered)
      && (-64 < d < 0 ==> t.expectSeq == s.expectSeq && t.reordered == s.reordered + 1)
      && (-64 < d < 0 ==> t.lost == if s.lost > 0 then s.lost - 1 else 0)
  {
    hide StartsStream, Judged, U16, U32, Int16;
    JudgedKeeps(c, s, h, now);
  }

  /** How many packets of a stream come after a later one. */
  function Overtaken(u0: int, us: seq<int>): nat
    decreases |us|
  {
    if us == [] then 0
    else
      var k := |us| - 1;
      Overtaken(u0, us[..k]) + if us[k] < High(u0, us[..k]) then 1 else 0
  }

  /** And `reordered` by exactly the number of packets overtaken. */
  lemma {:induction false} ReorderAccounting(c: Config, s: State, es: seq<Event>, u0: int, us: seq<int>)
    requires c.rate > 0 && s.expectSeq == U16(u0 + 1) && OneStream(c, s, es)
    requires |us| == |es| && Orderly(u0, us) && forall i :: 0 <= i < |es| ==> es[i].h.sn == U16(us[i])
    ensures RunFrom(c, s, es).reordered == s.reordered + Overtaken(u0, us)
    decreases |es|
  {
    hide Forwarded, U16, Int16, StartsStream, Orderly, High, Missing, OneStream, RunFrom;
    RunFromLast(c, s, es);
    if es != [] {
      var k := |es| - 1;
      var t := RunFrom(c, s, es[..k]);
      OrderlyLast(u0, us);
      ReorderAccounting(c, s, es[..k], u0, us[..k]);
      LossAccounting(c, s, es[..k], u0, us[..k]);
      Distance(us[k], High(u0, us[..k]) + 1, es[k].h.sn, t.expectSeq);
      Accounted(c, t, es[k].h, es[k].now, es[k].rnd);
      NotAgain(u0, us);
    }
  }

  /** The highest position so far is one that has come, or the first. */
  lemma {:induction false} HighCame(u0: int, us: seq<int>)
    ensures High(u0, us) == u0 || High(u0, us) in us
    decreases |us|
  {
    if us != [] {
      HighCame(u0, us[..|us| - 1]);
      assert us == us[..|us| - 1] + [us[|us| - 1]];
    }
  }

  lemma NotAgain(u0: int, us: seq<int>)
    requires Orderly(u0, us) && |us| > 0
    ensures us[|us| - 1] != High(u0, us[..|us| - 1])
  {
    hide High;
    OrderlyLast(u0, us);
    HighCame(u0, us[..|us| - 1]);
  }
}
