/** The registration loop of one line, the clock sweep and the administrator's
    writes, interleaved section by section. */
module RegistrationLoop {
  import opened Common
  import opened PbxLine

  datatype Config = Config(expiry: Time, minRefresh: Time, startSpread: Time, backoffBase: Time, backoffCap: Time)

  /** What a wait is for. */
  datatype Purpose = Start | CatchUp | Refresh

  datatype Phase =
    | NotStarted
    | Top
    | Entering(why: Purpose, deadline: Time)
    | Arming(why: Purpose, deadline: Time)
    | Waiting(why: Purpose, deadline: Time)
    | Leaving(why: Purpose, deadline: Time, overdue: bool)
    | Registering
    | Parked
    | Stopped

  /** The line, the loop's own variables, and what is counted or remembered about the run:
      credential-changing writes, refused REGISTERs, whether a catch-up wait took a change after
      the loop's snapshot, when the sweep flagged the current wait, and the lease last granted. */
  datatype State = State(
    line: Shared,
    phase: Phase,
    tried: Credential,
    attempt: nat,
    late: bool,
    signalling: bool,
    changes: nat,
    refusals: nat,
    missed: bool,
    flagged: Option<Time>,
    lease: Time)

  datatype Step =
    | Begin(now: Time, spread: Time)
    | Enter(now: Time)
    | Arm
    | TakeWake
    | TakeLate
    | TimerFires
    | Disarm
    | Snapshot(now: Time, spread: Time)
    | Accept(now: Time, granted: Time)
    | Refuse(now: Time)
    | Fail(now: Time, wait: Time)
    | Unpark
    | Set(credential: Credential)
    | Signal
    | Sweep(now: Time)
    | Stop

  function Initial(c: Credential): State {
    State(Created(c), NotStarted, c, 0, false, false, 0, 0, false, None, 0)
  }

  /** An interval spread by a fifth either way, and truncated. */
  predicate Jittered(interval: Time, wait: Time) { 4 * interval - 5 < 5 * wait <= 6 * interval }

  predicate Enabled(cfg: Config, s: State, step: Step) {
    match step
    case Begin(_, spread) => s.phase.NotStarted? && 0 <= spread <= cfg.startSpread
    case Enter(_) => s.phase.Entering?
    case Arm => s.phase.Arming?
    case TakeWake => s.phase.Waiting? && s.line.wake
    case TakeLate => s.phase.Waiting? && s.line.late
    case TimerFires => s.phase.Waiting?
    case Disarm => s.phase.Leaving?
    case Snapshot(_, spread) => s.phase.Top? && 0 <= spread <= cfg.startSpread
    case Accept(_, _) => s.phase.Registering?
    case Refuse(_) => s.phase.Registering?
    case Fail(_, wait) =>
      s.phase.Registering? && Jittered(Interval(s.attempt + 1, cfg.backoffBase, cfg.backoffCap), wait)
    case Unpark => s.phase.Parked? && s.line.wake
    case Set(_) => !s.signalling
    case Signal => s.signalling
    case Sweep(_) => true
    case Stop => !s.phase.NotStarted?
  }

  /** Where the loop goes when a wait is over. */
  function WaitOver(s: State, why: Purpose, overdue: bool): State {
    match why
    case Start => s.(phase := Top)
    case CatchUp => s.(phase := Registering)
    case Refresh => s.(phase := Top, late := overdue)
  }

  function Granted(cfg: Config, granted: Time): Time { if granted <= 0 then cfg.expiry else granted }

  function Apply(cfg: Config, s: State, step: Step): State
    requires Enabled(cfg, s, step)
  {
    match step
    case Begin(now, spread) => s.(phase := if spread > 0 then Entering(Start, now + spread) else Top)
    case Enter(now) =>
      if s.phase.deadline <= now then WaitOver(s, s.phase.why, true)
      else s.(phase := Arming(s.phase.why, s.phase.deadline))
    case Arm =>
      s.(line := Armed(s.line, s.phase.deadline), phase := Waiting(s.phase.why, s.phase.deadline), flagged := None)
    case TakeWake =>
      s.(line := s.line.(wake := false), phase := Leaving(s.phase.why, s.phase.deadline, false),
         missed := s.missed || s.phase.why.CatchUp?)
    case TakeLate => s.(line := s.line.(late := false), phase := Leaving(s.phase.why, s.phase.deadline, true))
    case TimerFires => s.(phase := Leaving(s.phase.why, s.phase.deadline, false))
    case Disarm => WaitOver(s.(line := Disarmed(s.line)), s.phase.why, s.phase.overdue)
    case Snapshot(now, spread) =>
      s.(tried := s.line.cur, missed := false,
         phase := if s.late && spread > 0 then Entering(CatchUp, now + spread) else Registering)
    case Accept(now, granted) =>
      var lease := Granted(cfg, granted);
      s.(line := Leased(s.line, now, lease), attempt := 0, lease := lease,
         phase := Entering(Refresh, now + RefreshAfter(lease, cfg.minRefresh)))
    case Refuse(_) =>
      s.(line := Rejected(s.line),
         refusals := s.refusals + 1, phase := Parked)
    case Fail(now, wait) =>
      s.(line := Failed(s.line, s.attempt + 1), attempt := s.attempt + 1,
         phase := Entering(Refresh, now + wait))
    case Unpark => s.(line := s.line.(wake := false), attempt := 0, phase := Top)
    case Set(c) =>
      if s.line.cur == c then s else s.(line := Credited(s.line, c), signalling := true, changes := s.changes + 1)
    case Signal => s.(line := Signalled(s.line), signalling := false)
    case Sweep(now) =>
      s.(line := Flagged(s.line, now), flagged := if Overdue(s.line, now) then Some(now) else s.flagged)
    case Stop => s.(phase := Stopped, line := Disarmed(s.line))
  }

  ghost predicate Reaches(cfg: Config, from: State, steps: seq<Step>, to: State)
    decreases |steps|
  {
    if steps == [] then from == to
    else Enabled(cfg, from, steps[0]) && Reaches(cfg, Apply(cfg, from, steps[0]), steps[1..], to)
  }

  predicate InWait(p: Phase) { p.Waiting? || p.Leaving? }

  predicate Waits(p: Phase) { p.Entering? || p.Arming? || p.Waiting? || p.Leaving? }

  /** The loop holds a snapshot of the credential it will try or has tried. */
  predicate HoldsSnapshot(p: Phase) {
    p.Registering? || p.Parked? || (Waits(p) && p.why.CatchUp?)
  }

  /** A deadline and a late token live only inside a wait, never together, and the token says
      that this wait's own deadline had passed when the sweep looked. */
  predicate Tokens(s: State) {
    && (s.line.until.Some? ==> InWait(s.phase) && s.line.until.value == s.phase.deadline && s.flagged.None?)
    && (s.line.late ==> InWait(s.phase) && s.line.until.None?)
    && (s.line.late || (s.phase.Leaving? && s.phase.overdue) ==> s.flagged.Some? && s.flagged.value >= s.phase.deadline)
    && (s.line.late ==> !(s.phase.Leaving? && s.phase.overdue))
  }

  /** Refusals, tokens and signals on the way are paid for by writes, and one by the line itself. */
  predicate Budget(s: State) {
    s.refusals + One(s.line.wake) + One(s.signalling) <= s.changes + One(s.phase.Parked? || s.phase.Stopped?)
  }

  /** The snapshot is the credential in force, unless a change is on its way or was taken. */
  predicate Fresh(s: State) {
    HoldsSnapshot(s.phase) ==> s.tried == s.line.cur || s.line.wake || s.signalling || s.missed
  }

  /** A change is taken after the snapshot only where a catch-up wait is ever made. */
  predicate Spreads(cfg: Config, s: State) {
    cfg.startSpread <= 0 ==>
      !s.missed && !(Waits(s.phase) && s.phase.why.CatchUp?)
  }

  /** While registered and waiting to refresh, the deadline is that of the lease in hand. */
  predicate InHand(cfg: Config, s: State) {
    Waits(s.phase) && s.phase.why.Refresh? && s.line.status.condition.Registered? ==>
      && s.line.status.expiresAt.Some?
      && s.phase.deadline - RefreshAfter(s.lease, cfg.minRefresh) == s.line.status.expiresAt.value - s.lease
  }

  ghost predicate Inv(cfg: Config, s: State) {
    Tokens(s) && Budget(s) && Fresh(s) && Spreads(cfg, s) && InHand(cfg, s)
    && (s.phase.Parked? ==> s.line.status.condition.Refused?)
  }

  lemma TokensStep(cfg: Config, s: State, step: Step)
    requires Tokens(s) && Enabled(cfg, s, step)
    ensures Tokens(Apply(cfg, s, step))
  {}

  lemma BudgetStep(cfg: Config, s: State, step: Step)
    requires Budget(s) && Enabled(cfg, s, step)
    ensures Budget(Apply(cfg, s, step))
  {}

  lemma FreshStep(cfg: Config, s: State, step: Step)
    requires Fresh(s) && Spreads(cfg, s) && Enabled(cfg, s, step)
    ensures Fresh(Apply(cfg, s, step)) && Spreads(cfg, Apply(cfg, s, step))
  {}

  lemma InHandStep(cfg: Config, s: State, step: Step)
    requires InHand(cfg, s) && Enabled(cfg, s, step)
    ensures InHand(cfg, Apply(cfg, s, step))
  {
    hide RefreshAfter;
  }

  lemma InvStep(cfg: Config, s: State, step: Step)
    requires Inv(cfg, s) && Enabled(cfg, s, step)
    ensures Inv(cfg, Apply(cfg, s, step))
  {
    hide Tokens, Budget, Fresh, Spreads, InHand;
    TokensStep(cfg, s, step);
    BudgetStep(cfg, s, step);
    FreshStep(cfg, s, step);
    InHandStep(cfg, s, step);
  }

  lemma {:induction false} InvRun(cfg: Config, s: State, steps: seq<Step>, t: State)
    requires Inv(cfg, s) && Reaches(cfg, s, steps, t)
    ensures Inv(cfg, t)
    decreases |steps|
  {
    hide Inv;
    if steps != [] {
      InvStep(cfg, s, steps[0]);
      InvRun(cfg, Apply(cfg, s, steps[0]), steps[1..], t);
    }
  }

  // What holds of every run from the start.

  /** No wait begins with a late token in its channel, and one that ends late
      had its own deadline passed by the clock during that wait. */
  lemma NoStaleToken(cfg: Config, c: Credential, steps: seq<Step>, s: State)
    requires Reaches(cfg, Initial(c), steps, s)
    ensures s.phase.Arming? ==> !Apply(cfg, s, Arm).line.late
    ensures s.phase.Leaving? && s.phase.overdue ==> s.flagged.Some? && s.flagged.value >= s.phase.deadline
  {
    InvRun(cfg, Initial(c), steps, s);
  }

  /** A wait has its deadline armed, or a late token for it. */
  predicate Watched(s: State) { s.phase.Waiting? ==> s.line.until == Some(s.phase.deadline) || s.line.late }

  lemma WatchedStep(cfg: Config, s: State, step: Step)
    requires Watched(s) && Enabled(cfg, s, step)
    ensures Watched(Apply(cfg, s, step))
  {}

  lemma {:induction false} WatchedRun(cfg: Config, s: State, steps: seq<Step>, t: State)
    requires Watched(s) && Reaches(cfg, s, steps, t)
    ensures Watched(t)
    decreases |steps|
  {
    hide Watched, Enabled, Apply;
    if steps != [] {
      WatchedStep(cfg, s, steps[0]);
      WatchedRun(cfg, Apply(cfg, s, steps[0]), steps[1..], t);
    }
  }

  /** A wait can be ended as late after a sweep exactly when that sweep, or one before it in the same wait, came
      at or after the deadline. */
  lemma SweepFlags(cfg: Config, c: Credential, steps: seq<Step>, s: State, now: Time)
    requires Reaches(cfg, Initial(c), steps, s) && s.phase.Waiting?
    ensures Enabled(cfg, Apply(cfg, s, Sweep(now)), TakeLate) <==> s.line.late || now >= s.phase.deadline
    ensures s.line.late ==> s.flagged.Some? && s.flagged.value >= s.phase.deadline
  {
    WatchedRun(cfg, Initial(c), steps, s);
    InvRun(cfg, Initial(c), steps, s);
  }

  /** A line is refused at most once more than its credential has been changed. */
  lemma RefusalsBounded(cfg: Config, c: Credential, steps: seq<Step>, s: State)
    requires Reaches(cfg, Initial(c), steps, s)
    ensures s.refusals <= 1 + s.changes
  {
    InvRun(cfg, Initial(c), steps, s);
  }

  predicate Quiet(s: State) { s.phase.Parked? && !s.line.wake && !s.signalling }

  /** A line parked for good was refused on the credential in force,
      unless its catch-up wait took the change that put it there. */
  lemma ParkedOnCurrent(cfg: Config, c: Credential, steps: seq<Step>, s: State)
    requires Reaches(cfg, Initial(c), steps, s) && Quiet(s)
    ensures s.tried == s.line.cur || s.missed
    ensures cfg.startSpread <= 0 ==> s.tried == s.line.cur
  {
    InvRun(cfg, Initial(c), steps, s);
  }

  /** While it is registered the refresh falls due before the lease lapses, if the lease is longer than the floor. */
  lemma RefreshInHand(cfg: Config, c: Credential, steps: seq<Step>, s: State)
    requires Reaches(cfg, Initial(c), steps, s)
    requires s.phase.Waiting? && s.phase.why.Refresh? && s.line.status.condition.Registered? && s.lease > 0
    ensures s.line.status.expiresAt.Some?
    ensures s.phase.deadline < s.line.status.expiresAt.value <==> cfg.minRefresh < s.lease
  {
    InvRun(cfg, Initial(c), steps, s);
    RefreshBeforeLapse(s.lease, cfg.minRefresh);
  }

  // How long a wait lasts.

  /** What can end a wait: the wake, the late token, the timer, a deadline that has passed already, or a stop. */
  predicate Ends(step: Step, deadline: Time) {
    step.TakeWake? || step.TakeLate? || step.TimerFires? || step.Stop? || (step.Enter? && step.now >= deadline)
  }

  predicate Undisturbed(steps: seq<Step>, deadline: Time) {
    forall i :: 0 <= i < |steps| ==> !Ends(steps[i], deadline)
  }

  predicate WaitsUntil(p: Phase, why: Purpose, deadline: Time) {
    (p.Entering? || p.Arming? || p.Waiting?) && p.why == why && p.deadline == deadline
  }

  lemma {:induction false} WaitLasts(cfg: Config, s: State, steps: seq<Step>, t: State, why: Purpose, deadline: Time)
    requires WaitsUntil(s.phase, why, deadline) && Reaches(cfg, s, steps, t)
    requires Undisturbed(steps, deadline)
    ensures WaitsUntil(t.phase, why, deadline) && t.line.status == s.line.status
    decreases |steps|
  {
    if steps != [] {
      assert !Ends(steps[0], deadline);
      WaitLasts(cfg, Apply(cfg, s, steps[0]), steps[1..], t, why, deadline);
    }
  }

  /** The failures since the line was last registered or unparked. */
  function Failures(steps: seq<Step>): nat
    decreases |steps|
  {
    if steps == [] then 0
    else
      match steps[|steps| - 1]
      case Fail(_, _) => Failures(steps[..|steps| - 1]) + 1
      case Accept(_, _) => 0
      case Unpark => 0
      case _ => Failures(steps[..|steps| - 1])
  }

  lemma {:induction false} ReachesSplit(cfg: Config, from: State, steps: seq<Step>, to: State) returns (mid: State)
    requires steps != [] && Reaches(cfg, from, steps, to)
    ensures var k := |steps| - 1;
      Reaches(cfg, from, steps[..k], mid) && Enabled(cfg, mid, steps[k]) && to == Apply(cfg, mid, steps[k])
    decreases |steps|
  {
    hide Enabled, Apply;
    if |steps| == 1 {
      mid := from;
      assert steps[1..] == [];
    } else {
      var k := |steps| - 1;
      mid := ReachesSplit(cfg, Apply(cfg, from, steps[0]), steps[1..], to);
      assert steps[1..][..k - 1] == steps[..k][1..];
    }
  }

  lemma {:induction false} AttemptsCounted(cfg: Config, c: Credential, steps: seq<Step>, s: State)
    requires Reaches(cfg, Initial(c), steps, s)
    ensures s.attempt == Failures(steps)
    decreases |steps|
  {
    hide Enabled;
    if steps != [] {
      var mid := ReachesSplit(cfg, Initial(c), steps, s);
      AttemptsCounted(cfg, c, steps[..|steps| - 1], mid);
    }
  }

  /** In every run the n-th failure in a row is retried no sooner than its interval, less a fifth, from the failure:
      until then, unless something ends the wait, the line waits and says it is retrying for the n-th time. */
  lemma RetryPaced(cfg: Config, c: Credential, before: seq<Step>, s: State, now: Time, wait: Time, after: seq<Step>,
    t: State)
    requires Reaches(cfg, Initial(c), before, s) && Enabled(cfg, s, Fail(now, wait))
    requires Reaches(cfg, Apply(cfg, s, Fail(now, wait)), after, t)
    requires Undisturbed(after, now + wait)
    ensures var n := Failures(before) + 1;
      && WaitsUntil(t.phase, Refresh, now + wait) && t.line.status == Status(Retrying, None, n)
      && Jittered(Interval(n, cfg.backoffBase, cfg.backoffCap), wait)
  {
    AttemptsCounted(cfg, c, before, s);
    WaitLasts(cfg, Apply(cfg, s, Fail(now, wait)), after, t, Refresh, now + wait);
  }

  /** In every run the first REGISTER waits for the start spread drawn, and a registered line's next for its
      refresh, unless something ends the wait. */
  lemma WaitsOut(cfg: Config, s: State, step: Step, after: seq<Step>, t: State)
    requires Enabled(cfg, s, step) && Reaches(cfg, Apply(cfg, s, step), after, t)
    ensures step.Begin? && step.spread > 0 && Undisturbed(after, step.now + step.spread) ==>
      WaitsUntil(t.phase, Start, step.now + step.spread)
    ensures step.Accept? ==>
      var lease := if step.granted <= 0 then cfg.expiry else step.granted;
      var due := step.now + RefreshAfter(lease, cfg.minRefresh);
      Undisturbed(after, due) ==>
        WaitsUntil(t.phase, Refresh, due) && t.line.status == Status(Registered, Some(step.now + lease), 0)
  {
    hide RefreshAfter;
    var next := Apply(cfg, s, step);
    if step.Begin? && step.spread > 0 && Undisturbed(after, step.now + step.spread) {
      WaitLasts(cfg, next, after, t, Start, step.now + step.spread);
    }
    if step.Accept? {
      var due := step.now + RefreshAfter(Granted(cfg, step.granted), cfg.minRefresh);
      if Undisturbed(after, due) { WaitLasts(cfg, next, after, t, Refresh, due); }
    }
  }

  /** A catch-up wait is made only by a loop whose last refresh wait ended late. */
  predicate OnlyLate(s: State) { Waits(s.phase) && s.phase.why.CatchUp? ==> s.late }

  lemma OnlyLateStep(cfg: Config, s: State, step: Step)
    requires OnlyLate(s) && Enabled(cfg, s, step)
    ensures OnlyLate(Apply(cfg, s, step))
  {}

  lemma {:induction false} CatchUpOnlyLate(cfg: Config, s: State, steps: seq<Step>, t: State)
    requires OnlyLate(s) && Reaches(cfg, s, steps, t)
    ensures OnlyLate(t)
    decreases |steps|
  {
    hide OnlyLate, Enabled, Apply;
    if steps != [] {
      OnlyLateStep(cfg, s, steps[0]);
      CatchUpOnlyLate(cfg, Apply(cfg, s, steps[0]), steps[1..], t);
    }
  }

  predicate Disturbs(s: State, step: Step) { step.Stop? || (step.Set? && step.credential != s.line.cur) }

  /** Nothing but a write that changes the credential, or a stop, moves a parked line. */
  lemma {:induction false} ParkedUntilChange(cfg: Config, s: State, steps: seq<Step>, t: State)
    requires Quiet(s) && Reaches(cfg, s, steps, t)
    requires forall i :: 0 <= i < |steps| ==> !Disturbs(s, steps[i])
    ensures Quiet(t) && t.refusals == s.refusals && t.line.cur == s.line.cur
    decreases |steps|
  {
    if steps != [] {
      assert !Disturbs(s, steps[0]);
      ParkedUntilChange(cfg, Apply(cfg, s, steps[0]), steps[1..], t);
    }
  }

  lemma {:induction false} Follows(cfg: Config, from: State, first: seq<Step>, mid: State, second: seq<Step>, to: State)
    requires Reaches(cfg, from, first, mid) && Reaches(cfg, mid, second, to)
    ensures Reaches(cfg, from, first + second, to)
    decreases |first|
  {
    if first == [] {
      assert first + second == second;
    } else {
      assert (first + second)[0] == first[0] && (first + second)[1..] == first[1..] + second;
      Follows(cfg, Apply(cfg, from, first[0]), first[1..], mid, second, to);
    }
  }

  lemma Then(cfg: Config, from: State, steps: seq<Step>, s: State, step: Step)
    requires Reaches(cfg, from, steps, s) && Enabled(cfg, s, step)
    ensures Reaches(cfg, from, steps + [step], Apply(cfg, s, step))
  {
    assert [step][1..] == [];
    Follows(cfg, from, steps, s, [step], Apply(cfg, s, step));
  }

  /** A late loop about to take its snapshot. */
  lemma LateAtTop(cfg: Config, c: Credential) returns (steps: seq<Step>, s: State)
    requires cfg.startSpread >= 0
    ensures Reaches(cfg, Initial(c), steps, s)
    ensures s.phase.Top? && s.late && s.line.cur == c && !s.line.wake && !s.signalling && s.refusals == s.changes == 0
  {
    hide Reaches, RefreshAfter;
    var due := RefreshAfter(60, cfg.minRefresh);
    steps, s := [], Initial(c);
    assert Reaches(cfg, s, [], s) by { Here(cfg, s); }
    Then(cfg, Initial(c), steps, s, Begin(0, 0));
    steps, s := steps + [Begin(0, 0)], Apply(cfg, s, Begin(0, 0));
    Then(cfg, Initial(c), steps, s, Snapshot(0, 0));
    steps, s := steps + [Snapshot(0, 0)], Apply(cfg, s, Snapshot(0, 0));
    Then(cfg, Initial(c), steps, s, Accept(0, 60));
    steps, s := steps + [Accept(0, 60)], Apply(cfg, s, Accept(0, 60));
    Then(cfg, Initial(c), steps, s, Enter(due));
    steps, s := steps + [Enter(due)], Apply(cfg, s, Enter(due));
  }

  lemma Here(cfg: Config, s: State)
    ensures Reaches(cfg, s, [], s)
  {}

  /** The run in which a catch-up wait takes the change: the corrected credential is
      in force, the old one has been refused, and nothing is left to wake the line. */
  lemma UntriedCredential(cfg: Config, wrong: Credential, corrected: Credential) returns (steps: seq<Step>, s: State)
    requires cfg.startSpread > 0 && wrong != corrected
    ensures Reaches(cfg, Initial(wrong), steps, s)
    ensures Quiet(s) && s.line.cur == corrected && s.tried == wrong && s.refusals == 1 && s.changes == 1
  {
    hide Reaches, RefreshAfter;
    steps, s := LateAtTop(cfg, wrong);
    Then(cfg, Initial(wrong), steps, s, Snapshot(0, 1));
    steps, s := steps + [Snapshot(0, 1)], Apply(cfg, s, Snapshot(0, 1));
    Then(cfg, Initial(wrong), steps, s, Enter(0));
    steps, s := steps + [Enter(0)], Apply(cfg, s, Enter(0));
    Then(cfg, Initial(wrong), steps, s, Arm);
    steps, s := steps + [Arm], Apply(cfg, s, Arm);
    Then(cfg, Initial(wrong), steps, s, Set(corrected));
    steps, s := steps + [Set(corrected)], Apply(cfg, s, Set(corrected));
    Then(cfg, Initial(wrong), steps, s, Signal);
    steps, s := steps + [Signal], Apply(cfg, s, Signal);
    Then(cfg, Initial(wrong), steps, s, TakeWake);
    steps, s := steps + [TakeWake], Apply(cfg, s, TakeWake);
    Then(cfg, Initial(wrong), steps, s, Disarm);
    steps, s := steps + [Disarm], Apply(cfg, s, Disarm);
    Then(cfg, Initial(wrong), steps, s, Refuse(0));
    steps, s := steps + [Refuse(0)], Apply(cfg, s, Refuse(0));
  }
}
