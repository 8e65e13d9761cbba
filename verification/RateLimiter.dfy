/** Two token buckets, one for each source and one for the listener, where
    sources idle for a minute are forgotten. */
module RateLimiter {
  import opened Common

  /** Rates in requests a second, capacities in requests. */
  datatype Limits = Limits(perRate: real, perCap: real, gRate: real, gCap: real)

  const LIMITS := Limits(50.0, 100.0, 200.0, 200.0)

  const MINUTE := 60.0
  const SECOND := 1.0

  datatype Bucket = Bucket(tokens: real, last: real)

  datatype State = State(sources: map<string, Bucket>, listener: Bucket, swept: Option<real>)

  datatype Request = Request(src: string, at: real)

  predicate Sensible(l: Limits) { l.perRate >= 0.0 && l.perCap >= 0.0 && l.gRate >= 0.0 && l.gCap >= 0.0 }

  /** A minute of refill is at least a full bucket. */
  predicate Forgettable(l: Limits) { l.perRate * MINUTE >= l.perCap }

  function Filled(tokens: real, capacity: real): real { if tokens > capacity then capacity else tokens }

  /** Tokens gained from one time to another. */
  function Gain(rate: real, from: real, until: real): real { rate * (until - from) }

  function Refilled(b: Bucket, now: real, rate: real, capacity: real): Bucket {
    Bucket(if now > b.last then Filled(b.tokens + Gain(rate, b.last, now), capacity) else b.tokens, now)
  }

  function Kept(sources: map<string, Bucket>, now: real): map<string, Bucket> {
    map src | src in sources && now - sources[src].last <= MINUTE :: sources[src]
  }

  function Swept(st: State, now: real): State {
    if st.swept.Some? && now - st.swept.value < SECOND then st
    else st.(swept := Some(now), sources := Kept(st.sources, now))
  }

  /** The state with a bucket for the source; a new source may first cause a sweep. */
  function Admitted(l: Limits, st: State, r: Request, sweeping: bool): (out: State)
    ensures r.src in out.sources
  {
    if r.src in st.sources then st
    else
      var kept := if sweeping then Swept(st, r.at) else st;
      kept.(sources := kept.sources[r.src := Bucket(l.perCap, r.at)])
  }

  function Spent(b: Bucket, one: bool): Bucket { if one then b.(tokens := b.tokens - 1.0) else b }

  function Decision(l: Limits, st: State, r: Request, sweeping: bool): bool {
    var met := Admitted(l, st, r, sweeping);
    && Refilled(met.sources[r.src], r.at, l.perRate, l.perCap).tokens >= 1.0
    && Refilled(met.listener, r.at, l.gRate, l.gCap).tokens >= 1.0
  }

  function After(l: Limits, st: State, r: Request, sweeping: bool): State {
    var met := Admitted(l, st, r, sweeping);
    var ok := Decision(l, st, r, sweeping);
    var mine := Refilled(met.sources[r.src], r.at, l.perRate, l.perCap);
    var all := Refilled(met.listener, r.at, l.gRate, l.gCap);
    met.(sources := met.sources[r.src := Spent(mine, ok)], listener := Spent(all, ok))
  }

  function Initial(l: Limits, start: real): State { State(map[], Bucket(l.gCap, start), None) }

  class RateLimiter {
    const limits: Limits
    var sources: map<string, Bucket>
    var listener: Bucket
    var swept: Option<real>

    constructor (limits: Limits, now: real)
      ensures this.limits == limits && Now() == Initial(limits, now)
    {
      this.limits := limits;
      sources, listener, swept := map[], Bucket(limits.gCap, now), None;
    }

    function Now(): State
      reads this
    {
      State(sources, listener, swept)
    }

    method Sweep(now: real)
      modifies this
      ensures Now() == Swept(old(Now()), now)
    {
      if swept.Some? && now - swept.value < SECOND {
        return;
      }
      swept := Some(now);
      ghost var was := sources;
      var left := sources.Keys;
      while left != {}
        invariant left <= was.Keys && listener == old(listener) && swept == Some(now)
        invariant sources == map src | src in was && (src in left || now - was[src].last <= MINUTE) :: was[src]
        decreases |left|
      {
        var src :| src in left;
        left := left - {src};
        if now - sources[src].last > MINUTE {
          sources := sources - {src};
        }
      }
    }

    method Allow(src: string, now: real) returns (ok: bool)
      modifies this
      ensures ok == Decision(limits, old(Now()), Request(src, now), true)
      ensures Now() == After(limits, old(Now()), Request(src, now), true)
    {
      if src !in sources {
        Sweep(now);
        sources := sources[src := Bucket(limits.perCap, now)];
      }
      sources := sources[src := Refilled(sources[src], now, limits.perRate, limits.perCap)];
      listener := Refilled(listener, now, limits.gRate, limits.gCap);
      if sources[src].tokens < 1.0 || listener.tokens < 1.0 {
        return false;
      }
      sources := sources[src := sources[src].(tokens := sources[src].tokens - 1.0)];
      listener := listener.(tokens := listener.tokens - 1.0);
      return true;
    }
  }

  // Runs.

  /** The clock never steps back. */
  predicate Timely(rs: seq<Request>, clock: real) {
    rs == [] || (rs[0].at >= clock && Timely(rs[1..], rs[0].at))
  }

  function Decisions(l: Limits, st: State, rs: seq<Request>, sweeping: bool): (ds: seq<bool>)
    ensures |ds| == |rs|
    decreases |rs|
  {
    if rs == [] then []
    else [Decision(l, st, rs[0], sweeping)] + Decisions(l, After(l, st, rs[0], sweeping), rs[1..], sweeping)
  }

  function Finally(l: Limits, st: State, rs: seq<Request>, sweeping: bool): State
    decreases |rs|
  {
    if rs == [] then st else Finally(l, After(l, st, rs[0], sweeping), rs[1..], sweeping)
  }

  function Clock(rs: seq<Request>, clock: real): real { if rs == [] then clock else rs[|rs| - 1].at }

  lemma {:induction false} ClockAdvances(rs: seq<Request>, clock: real)
    requires Timely(rs, clock)
    ensures clock <= Clock(rs, clock)
  {
    if rs != [] { ClockAdvances(rs[1..], rs[0].at); }
  }

  // Forgetting is invisible.

  predicate Sound(b: Bucket, capacity: real, clock: real) { 0.0 <= b.tokens <= capacity && b.last <= clock }

  /** Bucket by bucket the forgetful state is the other, but for buckets a minute idle. */
  predicate Matches(l: Limits, st: State, forever: State, clock: real) {
    && st.listener == forever.listener
    && st.sources.Keys <= forever.sources.Keys
    && (forall src :: src in forever.sources ==>
          && Sound(forever.sources[src], l.perCap, clock)
          && (if src in st.sources then st.sources[src] == forever.sources[src]
              else clock - forever.sources[src].last > MINUTE))
  }

  lemma NotNegative(rate: real, length: real)
    requires rate >= 0.0 && length >= 0.0
    ensures rate * length >= 0.0
  {
    if rate > 0.0 && length > 0.0 { assert rate * length > 0.0; }
  }

  lemma Spans(rate: real, from: real, mid: real, until: real)
    requires rate >= 0.0 && from <= mid <= until
    ensures Gain(rate, from, until) == Gain(rate, from, mid) + Gain(rate, mid, until)
    ensures Gain(rate, from, mid) >= 0.0 && Gain(rate, mid, until) >= 0.0
  {
    NotNegative(rate, mid - from);
    NotNegative(rate, until - mid);
  }

  lemma MinuteFills(l: Limits, b: Bucket, now: real)
    requires Sensible(l) && Forgettable(l) && 0.0 <= b.tokens && now - b.last > MINUTE
    ensures Refilled(b, now, l.perRate, l.perCap) == Bucket(l.perCap, now)
  {
    Spans(l.perRate, b.last, b.last + MINUTE, now);
    assert Gain(l.perRate, b.last, b.last + MINUTE) == l.perRate * MINUTE by {
      assert b.last + MINUTE - b.last == MINUTE;
    }
    hide Gain;
  }

  lemma RefillSound(b: Bucket, now: real, rate: real, capacity: real)
    requires rate >= 0.0 && 0.0 <= b.tokens <= capacity
    ensures 0.0 <= Refilled(b, now, rate, capacity).tokens <= capacity
  {
    if now > b.last { Spans(rate, b.last, now, now); }
    hide Gain;
  }

  lemma MatchesStep(l: Limits, st: State, forever: State, clock: real, r: Request)
    requires Sensible(l) && Forgettable(l) && Matches(l, st, forever, clock) && r.at >= clock
    ensures Decision(l, st, r, true) == Decision(l, forever, r, false)
    ensures Matches(l, After(l, st, r, true), After(l, forever, r, false), r.at)
  {
    var met, all := Admitted(l, st, r, true), Admitted(l, forever, r, false);
    if r.src in forever.sources {
      RefillSound(forever.sources[r.src], r.at, l.perRate, l.perCap);
      if r.src !in st.sources {
        MinuteFills(l, forever.sources[r.src], r.at);
      }
    }
    assert Refilled(met.sources[r.src], r.at, l.perRate, l.perCap)
        == Refilled(all.sources[r.src], r.at, l.perRate, l.perCap);
    var st', forever' := After(l, st, r, true), After(l, forever, r, false);
    forall src | src in forever'.sources
      ensures Sound(forever'.sources[src], l.perCap, r.at)
      ensures if src in st'.sources then st'.sources[src] == forever'.sources[src]
        else r.at - forever'.sources[src].last > MINUTE
    {
      if src != r.src { assert src in forever.sources; }
    }
  }

  lemma {:induction false} MatchesRun(l: Limits, st: State, forever: State, clock: real, rs: seq<Request>)
    requires Sensible(l) && Forgettable(l) && Matches(l, st, forever, clock) && Timely(rs, clock)
    ensures Decisions(l, st, rs, true) == Decisions(l, forever, rs, false)
    decreases |rs|
  {
    if rs != [] {
      MatchesStep(l, st, forever, clock, rs[0]);
      MatchesRun(l, After(l, st, rs[0], true), After(l, forever, rs[0], false), rs[0].at, rs[1..]);
    }
  }

  /** The limiter decides as one that never forgets a source. */
  lemma SweepInvisible(l: Limits, start: real, rs: seq<Request>)
    requires Sensible(l) && Forgettable(l) && Timely(rs, start)
    ensures Decisions(l, Initial(l, start), rs, true) == Decisions(l, Initial(l, start), rs, false)
  {
    MatchesRun(l, Initial(l, start), Initial(l, start), start, rs);
  }

  // How many requests a window lets through.

  /** The requests allowed, of one source or of all. */
  function Allowed(rs: seq<Request>, ds: seq<bool>, who: Option<string>): nat
    requires |ds| == |rs|
  {
    if rs == [] then 0
    else (if ds[0] && (who == None || who == Some(rs[0].src)) then 1 else 0) + Allowed(rs[1..], ds[1..], who)
  }

  function Rate(l: Limits, who: Option<string>): real { if who.None? then l.gRate else l.perRate }

  function Capacity(l: Limits, who: Option<string>): real { if who.None? then l.gCap else l.perCap }

  /** The bucket a request is charged to; a source not seen has a full one. */
  function Charged(l: Limits, st: State, who: Option<string>, clock: real): Bucket {
    if who.None? then st.listener
    else if who.value in st.sources then st.sources[who.value]
    else Bucket(l.perCap, clock)
  }

  /** Tokens the bucket would have by then. */
  function Level(l: Limits, st: State, who: Option<string>, now: real): real {
    Refilled(Charged(l, st, who, now), now, Rate(l, who), Capacity(l, who)).tokens
  }

  predicate Held(l: Limits, st: State, clock: real) {
    && Sound(st.listener, l.gCap, clock)
    && forall src :: src in st.sources ==> Sound(st.sources[src], l.perCap, clock)
  }

  lemma RefillAdds(b: Bucket, t: real, now: real, rate: real, capacity: real)
    requires rate >= 0.0 && b.last <= t <= now && b.tokens <= capacity
    ensures Refilled(b, now, rate, capacity).tokens <= Refilled(b, t, rate, capacity).tokens + Gain(rate, t, now)
  {
    Spans(rate, b.last, t, now);
  }

  lemma HeldStep(l: Limits, st: State, clock: real, r: Request)
    requires Sensible(l) && Held(l, st, clock) && r.at >= clock
    ensures Held(l, After(l, st, r, false), r.at)
  {
    var met := Admitted(l, st, r, false);
    RefillSound(met.sources[r.src], r.at, l.perRate, l.perCap);
    RefillSound(met.listener, r.at, l.gRate, l.gCap);
  }

  /** A request costs its bucket one token if it is allowed, nothing if not, and any other bucket nothing. */
  lemma LevelConserved(l: Limits, st: State, clock: real, r: Request, who: Option<string>)
    requires Sensible(l) && Held(l, st, clock) && r.at >= clock
    ensures Level(l, After(l, st, r, false), who, r.at) + (Allowed([r], [Decision(l, st, r, false)], who) as real)
         == Level(l, st, who, r.at)
  {
    hide Gain;
    assert [r][1..] == [];
  }

  lemma LevelRises(l: Limits, st: State, clock: real, now: real, who: Option<string>)
    requires Sensible(l) && Held(l, st, clock) && now >= clock
    ensures Level(l, st, who, now) <= Level(l, st, who, clock) + Gain(Rate(l, who), clock, now)
  {
    if who.None? || who.value in st.sources {
      RefillAdds(Charged(l, st, who, clock), clock, now, Rate(l, who), Capacity(l, who));
    } else {
      Spans(Rate(l, who), clock, now, now);
    }
  }

  lemma {:induction false} WindowFrom(l: Limits, st: State, clock: real, rs: seq<Request>, who: Option<string>,
    until: real)
    requires Sensible(l) && Held(l, st, clock) && Timely(rs, clock) && Clock(rs, clock) <= until
    ensures Level(l, Finally(l, st, rs, false), who, until) + Allowed(rs, Decisions(l, st, rs, false), who) as real
         <= Level(l, st, who, clock) + Gain(Rate(l, who), clock, until)
    decreases |rs|
  {
    hide Level, Gain;
    if rs == [] {
      LevelRises(l, st, clock, until, who);
    } else {
      var r, rest := rs[0], rs[1..];
      assert [r][1..] == [];
      ClockAdvances(rest, r.at);
      HeldStep(l, st, clock, r);
      LevelRises(l, st, clock, r.at, who);
      LevelConserved(l, st, clock, r, who);
      WindowFrom(l, After(l, st, r, false), r.at, rest, who, until);
      Spans(Rate(l, who), clock, r.at, until);
    }
  }

  lemma {:induction false} DecisionsSplit(l: Limits, st: State, before: seq<Request>, window: seq<Request>,
    sweeping: bool)
    ensures Decisions(l, st, before + window, sweeping)
         == Decisions(l, st, before, sweeping) + Decisions(l, Finally(l, st, before, sweeping), window, sweeping)
    decreases |before|
  {
    if before == [] {
      assert before + window == window;
    } else {
      assert (before + window)[0] == before[0] && (before + window)[1..] == before[1..] + window;
      DecisionsSplit(l, After(l, st, before[0], sweeping), before[1..], window, sweeping);
    }
  }

  lemma {:induction false} HeldRun(l: Limits, st: State, clock: real, before: seq<Request>, window: seq<Request>)
    requires Sensible(l) && Held(l, st, clock) && Timely(before + window, clock)
    ensures Held(l, Finally(l, st, before, false), Clock(before, clock)) && Timely(window, Clock(before, clock))
    decreases |before|
  {
    if before == [] {
      assert before + window == window;
    } else {
      assert (before + window)[0] == before[0] && (before + window)[1..] == before[1..] + window;
      HeldStep(l, st, clock, before[0]);
      HeldRun(l, After(l, st, before[0], false), before[0].at, before[1..], window);
    }
  }

  /** A state seen later has no fuller bucket than its capacity. */
  lemma HeldLater(l: Limits, st: State, clock: real, later: real, who: Option<string>)
    requires Sensible(l) && Held(l, st, clock) && clock <= later
    ensures Held(l, st, later) && 0.0 <= Level(l, st, who, later) <= Capacity(l, who)
  {
    if who.None? || who.value in st.sources {
      RefillSound(Charged(l, st, who, later), later, Rate(l, who), Capacity(l, who));
    }
  }

  lemma InitiallyHeld(l: Limits, start: real)
    requires Sensible(l)
    ensures Held(l, Initial(l, start), start)
  {}

  /** In any window of a run the requests allowed are at most the burst and the rate times its length. */
  lemma WindowBound(l: Limits, start: real, before: seq<Request>, window: seq<Request>, who: Option<string>)
    requires Sensible(l) && Forgettable(l) && Timely(before + window, start) && window != []
    ensures var ds := Decisions(l, Initial(l, start), before + window, true)[|before|..];
      Allowed(window, ds, who) as real
        <= Capacity(l, who) + Gain(Rate(l, who), window[0].at, window[|window| - 1].at)
  {
    hide Gain, Level, Allowed, Sensible, Forgettable;
    var zero := Initial(l, start);
    SweepInvisible(l, start, before + window);
    InitiallyHeld(l, start);
    DecisionsSplit(l, zero, before, window, false);
    HeldRun(l, zero, start, before, window);
    var st := Finally(l, zero, before, false);
    var ds := Decisions(l, zero, before + window, true)[|before|..];
    assert ds == Decisions(l, st, window, false);
    HeldLater(l, st, Clock(before, start), window[0].at, who);
    assert Timely(window, window[0].at);
    assert window + [] == window;
    HeldRun(l, st, window[0].at, window, []);
    HeldLater(l, Finally(l, st, window, false), window[|window| - 1].at, window[|window| - 1].at, who);
    WindowFrom(l, st, window[0].at, window, who, window[|window| - 1].at);
  }

  lemma ServerTokens(who: Option<string>, from: real, until: real)
    ensures Capacity(LIMITS, who) + Gain(Rate(LIMITS, who), from, until) ==
      if who.None? then 200.0 + 200.0 * (until - from) else 100.0 + 50.0 * (until - from)
  {}

  /** With the server's limits: in T seconds at most 100 + 50 T requests of a source and 200 + 200 T in all. */
  lemma ServerBound(start: real, before: seq<Request>, window: seq<Request>, src: string)
    requires Timely(before + window, start) && window != []
    ensures var ds := Decisions(LIMITS, Initial(LIMITS, start), before + window, true)[|before|..];
      var length := window[|window| - 1].at - window[0].at;
      && Allowed(window, ds, Some(src)) as real <= 100.0 + 50.0 * length
      && Allowed(window, ds, None) as real <= 200.0 + 200.0 * length
  {
    ServerTokens(Some(src), window[0].at, window[|window| - 1].at);
    ServerTokens(None, window[0].at, window[|window| - 1].at);
    hide Allowed, Decisions, Timely, Initial, Gain, Capacity, Rate;
    WindowBound(LIMITS, start, before, window, Some(src));
    WindowBound(LIMITS, start, before, window, None);
  }

  // When a request is let through.

  /** A bucket that was not full meanwhile has all it gained, less what it was charged. */
  lemma LevelSince(l: Limits, st: State, clock: real, now: real, who: Option<string>)
    requires Sensible(l) && Held(l, st, clock) && now >= clock
    ensures Level(l, st, who, now) == Capacity(l, who)
      || Level(l, st, who, now) == Level(l, st, who, clock) + Gain(Rate(l, who), clock, now)
  {
    if who.None? || who.value in st.sources { Spans(Rate(l, who), Charged(l, st, who, clock).last, clock, now); }
  }

  /** The tokens a bucket would have by then had it been full when request i came, before its charge. */
  function FromFull(l: Limits, rs: seq<Request>, ds: seq<bool>, i: nat, who: Option<string>, until: real): real
    requires |ds| == |rs| && i < |rs|
  {
    Capacity(l, who) + Gain(Rate(l, who), rs[i].at, until) - Allowed(rs[i..], ds[i..], who) as real
  }

  lemma FromFullShift(l: Limits, rs: seq<Request>, ds: seq<bool>, i: nat, who: Option<string>, until: real)
    requires |ds| == |rs| && i + 1 < |rs|
    ensures FromFull(l, rs[1..], ds[1..], i, who, until) == FromFull(l, rs, ds, i + 1, who, until)
  {
    assert rs[1..][i..] == rs[i + 1..] && ds[1..][i..] == ds[i + 1..];
  }

  lemma FromFullFirst(l: Limits, rs: seq<Request>, ds: seq<bool>, who: Option<string>, until: real)
    requires |ds| == |rs| > 0
    ensures FromFull(l, rs, ds, 0, who, until) ==
      Capacity(l, who) + Gain(Rate(l, who), rs[0].at, until) - Allowed(rs, ds, who) as real
  {}

  /** The bucket was full at some request or is full now, or never was full. */
  lemma {:induction false} LastFull(l: Limits, st: State, clock: real, rs: seq<Request>, who: Option<string>,
    until: real)
    requires Sensible(l) && Held(l, st, clock) && Timely(rs, clock) && Clock(rs, clock) <= until
    ensures var (ds, now) := (Decisions(l, st, rs, false), Level(l, Finally(l, st, rs, false), who, until));
      || now == Capacity(l, who)
      || now == Level(l, st, who, clock) + Gain(Rate(l, who), clock, until) - Allowed(rs, ds, who) as real
      || exists i :: 0 <= i < |rs| && now == FromFull(l, rs, ds, i, who, until)
    decreases |rs|
  {
    hide Level, Gain, FromFull, After, Decision, Held;
    if rs == [] {
      LevelSince(l, st, clock, until, who);
    } else {
      var r, rest, ds := rs[0], rs[1..], Decisions(l, st, rs, false);
      var st', now := After(l, st, r, false), Level(l, Finally(l, st, rs, false), who, until);
      assert [r][1..] == [];
      ClockAdvances(rest, r.at);
      HeldStep(l, st, clock, r);
      LevelSince(l, st, clock, r.at, who);
      LevelConserved(l, st, clock, r, who);
      LastFull(l, st', r.at, rest, who, until);
      Spans(Rate(l, who), clock, r.at, until);
      if i :| 0 <= i < |rest| && now == FromFull(l, rest, ds[1..], i, who, until) {
        FromFullShift(l, rs, ds, i, who, until);
        assert now == FromFull(l, rs, ds, i + 1, who, until);
      } else if Level(l, st, who, r.at) == Capacity(l, who) && now != Capacity(l, who) {
        FromFullFirst(l, rs, ds, who, until);
        assert now == FromFull(l, rs, ds, 0, who, until);
      }
    }
  }

  lemma {:induction false} FinallySplit(l: Limits, st: State, before: seq<Request>, window: seq<Request>,
    sweeping: bool)
    ensures Finally(l, st, before + window, sweeping)
         == Finally(l, Finally(l, st, before, sweeping), window, sweeping)
    decreases |before|
  {
    if before == [] {
      assert before + window == window;
    } else {
      assert (before + window)[0] == before[0] && (before + window)[1..] == before[1..] + window;
      FinallySplit(l, After(l, st, before[0], sweeping), before[1..], window, sweeping);
    }
  }

  lemma {:induction false} TimelyFrom(rs: seq<Request>, i: nat, clock: real)
    requires Timely(rs, clock) && i < |rs|
    ensures Clock(rs[..i], clock) <= rs[i].at
    ensures Timely(rs[i..], rs[i].at) && Clock(rs[i..], rs[i].at) == Clock(rs, clock)
    decreases i
  {
    if i > 0 {
      TimelyFrom(rs[1..], i - 1, rs[0].at);
      assert rs[1..][i - 1..] == rs[i..] && rs[1..][..i - 1] == rs[..i][1..];
    }
  }

  lemma AtMostFromFull(l: Limits, start: real, rs: seq<Request>, i: nat, who: Option<string>, until: real)
    requires Sensible(l) && Timely(rs, start) && Clock(rs, start) <= until && i < |rs|
    ensures Level(l, Finally(l, Initial(l, start), rs, false), who, until)
      <= FromFull(l, rs, Decisions(l, Initial(l, start), rs, false), i, who, until)
  {
    hide Level, Gain, Decisions, Finally, Allowed, Held, Sensible, Timely, Clock;
    var zero, before, window := Initial(l, start), rs[..i], rs[i..];
    TimelyFrom(rs, i, start);
    assert before + window == rs;
    DecisionsSplit(l, zero, before, window, false);
    FinallySplit(l, zero, before, window, false);
    InitiallyHeld(l, start);
    HeldRun(l, zero, start, before, window);
    hide Initial;
    var st := Finally(l, zero, before, false);
    HeldLater(l, st, Clock(before, start), rs[i].at, who);
    WindowFrom(l, st, rs[i].at, window, who, until);
  }

  /** A bucket holds the least of what it would hold had it been full at any one request, or now. */
  lemma LevelIsLeast(l: Limits, start: real, rs: seq<Request>, who: Option<string>, until: real)
    requires Sensible(l) && Timely(rs, start) && Clock(rs, start) <= until
    ensures var now := Level(l, Finally(l, Initial(l, start), rs, false), who, until);
      var ds := Decisions(l, Initial(l, start), rs, false);
      && now <= Capacity(l, who) && (forall i :: 0 <= i < |rs| ==> now <= FromFull(l, rs, ds, i, who, until))
      && (now == Capacity(l, who) || exists i :: 0 <= i < |rs| && now == FromFull(l, rs, ds, i, who, until))
  {
    hide Gain, FromFull;
    var zero := Initial(l, start);
    var st, ds := Finally(l, zero, rs, false), Decisions(l, zero, rs, false);
    forall i | 0 <= i < |rs|
      ensures Level(l, st, who, until) <= FromFull(l, rs, ds, i, who, until)
    {
      AtMostFromFull(l, start, rs, i, who, until);
    }
    assert rs + [] == rs;
    HeldRun(l, zero, start, rs, []);
    HeldLater(l, st, Clock(rs, start), until, who);
    LastFull(l, zero, start, rs, who, until);
    NeverFull(l, start, rs, who, until);
  }

  lemma NeverFull(l: Limits, start: real, rs: seq<Request>, who: Option<string>, until: real)
    requires Sensible(l) && Timely(rs, start) && Clock(rs, start) <= until
    ensures var ds := Decisions(l, Initial(l, start), rs, false);
      var all := Level(l, Initial(l, start), who, start) + Gain(Rate(l, who), start, until) -
        Allowed(rs, ds, who) as real;
      all >= if rs == [] then Capacity(l, who) else FromFull(l, rs, ds, 0, who, until)
  {
    ClockAdvances(rs, start);
    if rs == [] {
      Spans(Rate(l, who), start, until, until);
    } else {
      ClockAdvances(rs[1..], rs[0].at);
      Spans(Rate(l, who), start, rs[0].at, until);
    }
  }

  /** The last request, after those allowed from the first of these on, is within the burst and the rate. */
  predicate Room(l: Limits, rs: seq<Request>, ds: seq<bool>, who: Option<string>)
    requires |rs| == |ds| > 0
  {
    var n := |rs| - 1;
    Allowed(rs[..n], ds[..n], who) as real + 1.0 <= Capacity(l, who) + Gain(Rate(l, who), rs[0].at, rs[n].at)
  }

  /** The same counted from every request so far, the last included. */
  predicate RoomSince(l: Limits, rs: seq<Request>, ds: seq<bool>, who: Option<string>)
    requires |rs| == |ds| > 0
  {
    forall i :: 0 <= i < |rs| ==> Room(l, rs[i..], ds[i..], who)
  }

  lemma DecidedByLevels(l: Limits, st: State, r: Request)
    ensures Decision(l, st, r, false) <==>
      Level(l, st, Some(r.src), r.at) >= 1.0 && Level(l, st, None, r.at) >= 1.0
  {}

  lemma RoomIs(l: Limits, rs: seq<Request>, ds: seq<bool>, i: nat, who: Option<string>)
    requires |rs| == |ds| && i < |rs| - 1
    ensures var n := |rs| - 1;
      Room(l, rs[i..], ds[i..], who) <==> FromFull(l, rs[..n], ds[..n], i, who, rs[n].at) >= 1.0
  {
    hide Gain, Allowed;
    var n := |rs| - 1;
    assert rs[i..][..n - i] == rs[..n][i..] && ds[i..][..n - i] == ds[..n][i..];
  }

  lemma LevelReaches(l: Limits, start: real, rs: seq<Request>, who: Option<string>, until: real)
    requires Sensible(l) && Timely(rs, start) && Clock(rs, start) <= until
    ensures Level(l, Finally(l, Initial(l, start), rs, false), who, until) >= 1.0 <==>
      && Capacity(l, who) >= 1.0
      && forall i :: 0 <= i < |rs| ==>
        FromFull(l, rs, Decisions(l, Initial(l, start), rs, false), i, who, until) >= 1.0
  {
    hide Level, Gain, Decisions, Finally, FromFull, Timely, Clock, Sensible, Initial;
    LevelIsLeast(l, start, rs, who, until);
  }

  lemma LastComes(l: Limits, start: real, rs: seq<Request>)
    requires Sensible(l) && Timely(rs, start) && rs != []
    ensures var (zero, n) := (Initial(l, start), |rs| - 1);
      && rs[..n] + [rs[n]] == rs && Timely(rs[..n], start) && Clock(rs[..n], start) <= rs[n].at
      && Decisions(l, zero, rs, false)[..n] == Decisions(l, zero, rs[..n], false)
  {
    var n, zero := |rs| - 1, Initial(l, start);
    assert rs[..n] + [rs[n]] == rs;
    InitiallyHeld(l, start);
    HeldRun(l, zero, start, rs[..n], [rs[n]]);
    TimelyFront(rs[..n], [rs[n]], start);
    DecisionsSplit(l, zero, rs[..n], [rs[n]], false);
    hide Decisions, Initial;
  }

  lemma LevelIsRoom(l: Limits, start: real, rs: seq<Request>, who: Option<string>)
    requires Sensible(l) && Timely(rs, start) && rs != []
    ensures var (ds, n) := (Decisions(l, Initial(l, start), rs, false), |rs| - 1);
      Level(l, Finally(l, Initial(l, start), rs[..n], false), who, rs[n].at) >= 1.0 <==>
        RoomSince(l, rs, ds, who)
  {
    hide Level, Gain, Decisions, Finally, Timely, Clock, Sensible, Initial, Room, FromFull;
    var (ds, n) := (Decisions(l, Initial(l, start), rs, false), |rs| - 1);
    LastComes(l, start, rs);
    LevelReaches(l, start, rs[..n], who, rs[n].at);
    NothingBefore(l, rs[n..], ds[n..], who);
    forall i | 0 <= i < n
      ensures Room(l, rs[i..], ds[i..], who) <==> FromFull(l, rs[..n], ds[..n], i, who, rs[n].at) >= 1.0
    {
      RoomIs(l, rs, ds, i, who);
    }
  }

  lemma NothingBefore(l: Limits, rs: seq<Request>, ds: seq<bool>, who: Option<string>)
    requires |rs| == |ds| == 1
    ensures Room(l, rs, ds, who) <==> Capacity(l, who) >= 1.0
  {
    assert rs[..0] == [];
    NoGain(Rate(l, who), rs[0].at);
    hide Gain;
  }

  lemma NoGain(rate: real, t: real)
    ensures Gain(rate, t, t) == 0.0
  {
    assert t - t == 0.0;
  }

  lemma {:induction false} TimelyFront(before: seq<Request>, window: seq<Request>, clock: real)
    requires Timely(before + window, clock)
    ensures Timely(before, clock)
    decreases |before|
  {
    if before != [] {
      assert (before + window)[0] == before[0] && (before + window)[1..] == before[1..] + window;
      TimelyFront(before[1..], window, before[0].at);
    }
  }

  /** A request is let through exactly when, counted from every request so far, it is within the burst and the
      rate of its source and of the listener. */
  lemma AllowedIff(l: Limits, start: real, rs: seq<Request>)
    requires Sensible(l) && Forgettable(l) && Timely(rs, start) && rs != []
    ensures var (ds, n) := (Decisions(l, Initial(l, start), rs, true), |rs| - 1);
      ds[n] <==> RoomSince(l, rs, ds, Some(rs[n].src)) && RoomSince(l, rs, ds, None)
  {
    hide Level, RoomSince, Decision, Decisions, Sensible, Forgettable, Timely, Initial;
    var n, zero := |rs| - 1, Initial(l, start);
    SweepInvisible(l, start, rs);
    LastDecision(l, zero, rs);
    DecidedByLevels(l, Finally(l, zero, rs[..n], false), rs[n]);
    LevelIsRoom(l, start, rs, Some(rs[n].src));
    LevelIsRoom(l, start, rs, None);
  }

  lemma LastDecision(l: Limits, st: State, rs: seq<Request>)
    requires rs != []
    ensures var n := |rs| - 1;
      Decisions(l, st, rs, false)[n] == Decision(l, Finally(l, st, rs[..n], false), rs[n], false)
  {
    hide Decision;
    var n := |rs| - 1;
    assert rs[..n] + [rs[n]] == rs;
    DecisionsSplit(l, st, rs[..n], [rs[n]], false);
  }

  /** With the server's limits: a request is let through exactly when, for every T seconds up to it that begin
      with a request, fewer than 100 + 50 T of its source and fewer than 200 + 200 T in all have been. */
  lemma ServerAllowsIff(start: real, rs: seq<Request>)
    requires Timely(rs, start) && rs != []
    ensures var (ds, n) := (Decisions(LIMITS, Initial(LIMITS, start), rs, true), |rs| - 1);
      ds[n] <==> forall i :: 0 <= i <= n ==>
        var length := rs[n].at - rs[i].at;
        && Allowed(rs[i..n], ds[i..n], Some(rs[n].src)) as real + 1.0 <= 100.0 + 50.0 * length
        && Allowed(rs[i..n], ds[i..n], None) as real + 1.0 <= 200.0 + 200.0 * length
  {
    hide Allowed, Decisions, Timely, Initial, Room;
    var (ds, n) := (Decisions(LIMITS, Initial(LIMITS, start), rs, true), |rs| - 1);
    AllowedIff(LIMITS, start, rs);
    forall i | 0 <= i <= n
      ensures Room(LIMITS, rs[i..], ds[i..], Some(rs[n].src)) <==>
        Allowed(rs[i..n], ds[i..n], Some(rs[n].src)) as real + 1.0 <= 100.0 + 50.0 * (rs[n].at - rs[i].at)
      ensures Room(LIMITS, rs[i..], ds[i..], None) <==>
        Allowed(rs[i..n], ds[i..n], None) as real + 1.0 <= 200.0 + 200.0 * (rs[n].at - rs[i].at)
    {
      ServerRoom(rs, ds, i, Some(rs[n].src));
      ServerRoom(rs, ds, i, None);
    }
  }

  lemma ServerRoom(rs: seq<Request>, ds: seq<bool>, i: nat, who: Option<string>)
    requires |rs| == |ds| && i < |rs|
    ensures var n := |rs| - 1;
      Room(LIMITS, rs[i..], ds[i..], who) <==>
        Allowed(rs[i..n], ds[i..n], who) as real + 1.0 <=
          if who.None? then 200.0 + 200.0 * (rs[n].at - rs[i].at) else 100.0 + 50.0 * (rs[n].at - rs[i].at)
  {
    var n := |rs| - 1;
    ServerTokens(who, rs[i].at, rs[n].at);
    hide Allowed, Gain, Capacity, Rate;
    assert rs[i..][..n - i] == rs[i..n] && ds[i..][..n - i] == ds[i..n];
  }

  lemma {:induction false} AllowedFrom(rs: seq<Request>, ds: seq<bool>, i: nat, who: Option<string>)
    requires |rs| == |ds| && i <= |rs|
    ensures Allowed(rs[i..], ds[i..], who) <= Allowed(rs, ds, who)
    decreases i
  {
    if i > 0 {
      AllowedFrom(rs[1..], ds[1..], i - 1, who);
      assert rs[1..][i - 1..] == rs[i..] && ds[1..][i - 1..] == ds[i..];
    }
  }

  /** With the server's limits: a request is let through while fewer than 100 of its source and fewer than 200 in
      all have been. */
  lemma ServerAdmits(start: real, rs: seq<Request>)
    requires Timely(rs, start) && rs != []
    ensures var (ds, n) := (Decisions(LIMITS, Initial(LIMITS, start), rs, true), |rs| - 1);
      Allowed(rs[..n], ds[..n], Some(rs[n].src)) <= 99 && Allowed(rs[..n], ds[..n], None) <= 199 ==> ds[n]
  {
    hide Allowed, Decisions, Room, Gain, Timely, Initial;
    var (ds, n) := (Decisions(LIMITS, Initial(LIMITS, start), rs, true), |rs| - 1);
    var src := Some(rs[n].src);
    AllowedIff(LIMITS, start, rs);
    forall i | 0 <= i < |rs|
      ensures Allowed(rs[..n], ds[..n], src) <= 99 ==> Room(LIMITS, rs[i..], ds[i..], src)
      ensures Allowed(rs[..n], ds[..n], None) <= 199 ==> Room(LIMITS, rs[i..], ds[i..], None)
    {
      AtAdvances(rs, start, i, n);
      if Allowed(rs[..n], ds[..n], src) <= 99 { WithinBurst(LIMITS, rs, ds, i, src); }
      if Allowed(rs[..n], ds[..n], None) <= 199 { WithinBurst(LIMITS, rs, ds, i, None); }
    }
  }

  lemma WithinBurst(l: Limits, rs: seq<Request>, ds: seq<bool>, i: nat, who: Option<string>)
    requires Sensible(l) && |rs| == |ds| && i < |rs| && rs[i].at <= rs[|rs| - 1].at
    requires Allowed(rs[..|rs| - 1], ds[..|rs| - 1], who) as real + 1.0 <= Capacity(l, who)
    ensures Room(l, rs[i..], ds[i..], who)
  {
    hide Gain, Allowed;
    var n := |rs| - 1;
    AllowedFrom(rs[..n], ds[..n], i, who);
    assert rs[i..][..n - i] == rs[..n][i..] && ds[i..][..n - i] == ds[..n][i..];
    Spans(Rate(l, who), rs[i].at, rs[n].at, rs[n].at);
  }

  lemma {:induction false} AtAdvances(rs: seq<Request>, clock: real, i: nat, j: nat)
    requires Timely(rs, clock) && i <= j < |rs|
    ensures clock <= rs[i].at <= rs[j].at
    decreases j
  {
    if i > 0 {
      AtAdvances(rs[1..], rs[0].at, i - 1, j - 1);
    } else if j > 0 {
      AtAdvances(rs[1..], rs[0].at, 0, j - 1);
    }
  }

  // What is remembered.

  /** When the source last asked. */
  function LastAsked(rs: seq<Request>, src: string): Option<real>
    decreases |rs|
  {
    if rs == [] then None
    else if rs[|rs| - 1].src == src then Some(rs[|rs| - 1].at)
    else LastAsked(rs[..|rs| - 1], src)
  }

  /** A source is remembered with the time it last asked, no longer than a minute before the last sweep, and
      surely for a minute. */
  ghost predicate Remembers(st: State, rs: seq<Request>, clock: real) {
    && (forall src :: src in st.sources ==>
      LastAsked(rs, src) == Some(st.sources[src].last) && st.sources[src].last <= clock &&
        (st.swept.Some? && st.sources[src].last >= st.swept.value - MINUTE))
    && (st.swept.Some? ==> st.swept.value <= clock)
    && forall src :: LastAsked(rs, src).Some? ==>
      LastAsked(rs, src).value <= clock && (src in st.sources || clock - LastAsked(rs, src).value > MINUTE)
  }

  lemma RemembersStep(l: Limits, st: State, before: seq<Request>, clock: real, r: Request)
    requires Remembers(st, before, clock) && clock <= r.at
    ensures Remembers(After(l, st, r, true), before + [r], r.at)
    ensures r.src !in st.sources ==> forall src :: src in After(l, st, r, true).sources ==>
      r.at - After(l, st, r, true).sources[src].last <= MINUTE + SECOND
  {
    hide Gain, Filled, Decision;
    var (rs, after) := (before + [r], After(l, st, r, true));
    assert rs[..|rs| - 1] == before;
    forall src ensures LastAsked(rs, src) == if src == r.src then Some(r.at) else LastAsked(before, src) {}
  }

  lemma {:induction false} RemembersRun(l: Limits, start: real, rs: seq<Request>)
    requires Timely(rs, start)
    ensures Remembers(Finally(l, Initial(l, start), rs, true), rs, Clock(rs, start))
    decreases |rs|
  {
    hide Remembers, After, Timely;
    var zero := Initial(l, start);
    if rs == [] {
      NobodyYet(l, start);
    } else {
      var n := |rs| - 1;
      assert rs[..n] + [rs[n]] == rs;
      TimelyFront(rs[..n], [rs[n]], start);
      TimelyFrom(rs, n, start);
      RemembersRun(l, start, rs[..n]);
      FinallySplit(l, zero, rs[..n], [rs[n]], true);
      RemembersStep(l, Finally(l, zero, rs[..n], true), rs[..n], Clock(rs[..n], start), rs[n]);
    }
  }

  lemma NobodyYet(l: Limits, start: real)
    ensures Remembers(Initial(l, start), [], start)
  {}

  /** In every run a source that asked within the last minute is remembered; and right after a request of a
      source that was not, nobody is who has been idle for more than 61 seconds. */
  lemma Forgets(l: Limits, start: real, rs: seq<Request>, src: string)
    requires Timely(rs, start) && rs != []
    ensures var (n, st) := (|rs| - 1, Finally(l, Initial(l, start), rs, true));
      var asked := LastAsked(rs, src);
      && (asked.Some? && rs[n].at - asked.value <= 60.0 ==> src in st.sources)
      && (rs[n].src !in Finally(l, Initial(l, start), rs[..n], true).sources && src in st.sources ==>
            asked.Some? && rs[n].at - asked.value <= 61.0)
  {
    hide After, Timely, Initial;
    var (n, zero) := (|rs| - 1, Initial(l, start));
    assert rs[..n] + [rs[n]] == rs;
    RemembersRun(l, start, rs);
    TimelyFront(rs[..n], [rs[n]], start);
    TimelyFrom(rs, n, start);
    RemembersRun(l, start, rs[..n]);
    FinallySplit(l, zero, rs[..n], [rs[n]], true);
    RemembersStep(l, Finally(l, zero, rs[..n], true), rs[..n], Clock(rs[..n], start), rs[n]);
  }
}
