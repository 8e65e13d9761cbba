/** Every interleaving of connecting sessions with the server's Wake and
    CancelWake: each lock-protected section is one step, each frame write
    another. */
module WakeProtocol {
  import opened Common
  import opened Gateway

  /** How far a connection's handler has come. */
  datatype Phase =
    | Connected                                                    // installed; pending wakes not read yet
    | Wakes(at: int, todo: set<Call>, writing: set<Call>)          // replaying the pending wakes read at this time
    | Cancels(todo: set<Call>)                                     // replaying the remembered cancels
    | Up

  datatype Conn = Conn(device: Device, kind: Kind, sent: set<Call>, log: seq<Frame>, phase: Phase)

  /** What the call controller has done about one call and device: one Wake, then at most one CancelWake. */
  datatype Script =
    | NotWoken
    | Waking(todo: set<SessionId>, writing: set<SessionId>)
    | Woken
    | Cancelling(todo: set<SessionId>, targets: set<SessionId>)
    | Cancelled(targets: set<SessionId>)

  datatype State = State(now: int, sh: Shared, conns: map<SessionId, Conn>, scripts: map<Key, Script>)

  const INITIAL: State := State(0, Shared(map[], map[], map[]), map[], map[])

  function ScriptOf(s: State, k: Key): Script { if k in s.scripts then s.scripts[k] else NotWoken }

  datatype Step =
    | Tick(d: nat)
    | Attach(id: SessionId, device: Device, kind: Kind)
    | Detach(id: SessionId)
    | WakeLock(k: Key, expires: int)
    | WakeMark(k: Key, id: SessionId)
    | WakeWrite(k: Key, id: SessionId)
    | WakeReturn(k: Key)
    | CancelLock(k: Key)
    | CancelWrite(k: Key, id: SessionId)
    | CancelReturn(k: Key)
    | Forget(k: Key)
    | Ack(k: Key, action: Action)
    | ReadPending(id: SessionId)
    | ReplayMark(id: SessionId, call: Call)
    | ReplayWrite(id: SessionId, call: Call)
    | ReadCancels(id: SessionId)
    | ReplayCancel(id: SessionId, call: Call)
    | SessionUp(id: SessionId)

  /** When a step can be taken.  ReadCancels carries the one timing assumption: the replay of the pending
      wakes has taken less than the grace a cancel is remembered for. */
  predicate Enabled(s: State, e: Step) {
    match e
    case Tick(_) => true
    case Attach(id, _, _) => id !in s.conns
    case Detach(id) => id in s.conns
    case WakeLock(k, _) => ScriptOf(s, k).NotWoken?
    case WakeMark(k, id) =>
      var sc := ScriptOf(s, k);
      sc.Waking? && id in sc.todo && sc.writing == {} && id in s.conns
    case WakeWrite(k, id) =>
      var sc := ScriptOf(s, k);
      sc.Waking? && id in sc.writing && id in s.conns
    case WakeReturn(k) =>
      var sc := ScriptOf(s, k);
      sc.Waking? && sc.todo == {} && sc.writing == {}
    case CancelLock(k) => ScriptOf(s, k).Woken?
    case CancelWrite(k, id) =>
      var sc := ScriptOf(s, k);
      sc.Cancelling? && id in sc.todo && id in s.conns
    case CancelReturn(k) =>
      var sc := ScriptOf(s, k);
      sc.Cancelling? && sc.todo == {}
    case Forget(_) => true
    case Ack(_, _) => true
    case ReadPending(id) => id in s.conns && s.conns[id].phase.Connected?
    case ReplayMark(id, call) => id in s.conns && s.conns[id].phase.Wakes? && call in s.conns[id].phase.todo &&
      s.conns[id].phase.writing == {}
    case ReplayWrite(id, call) => id in s.conns && s.conns[id].phase.Wakes? && call in s.conns[id].phase.writing
    case ReadCancels(id) =>
      && id in s.conns && s.conns[id].phase.Wakes? && s.conns[id].phase.todo == {} && s.conns[id].phase.writing == {}
      && s.now < s.conns[id].phase.at + CANCEL_GRACE
    case ReplayCancel(id, call) => id in s.conns && s.conns[id].phase.Cancels? && call in s.conns[id].phase.todo
    case SessionUp(id) => id in s.conns && s.conns[id].phase.Cancels? && s.conns[id].phase.todo == {}
  }

  /** sendWake's first half: mark the call as carried, unless it was. */
  function Marked(c: Conn, call: Call): Conn { c.(sent := MarkSection(c.sent, call).0) }

  /** Those to write to after the mark: this one, unless the connection has carried the call. */
  function ToWrite<T>(c: Conn, call: Call, t: T): set<T> { if MarkSection(c.sent, call).1 then {t} else {} }

  function Wrote(c: Conn, f: Frame): Conn { c.(log := SendSection(c.log, f)) }

  function Apply(s: State, e: Step): State
    requires Enabled(s, e)
  {
    match e
    case Tick(d) => s.(now := s.now + d)
    case Attach(id, device, kind) =>
      s.(sh := AttachSection(s.sh, device, kind, id), conns := s.conns[id := Conn(device, kind, {}, [], Connected)])
    case Detach(id) => s.(sh := DetachSection(s.sh, s.conns[id].device, s.conns[id].kind, id))
    case WakeLock(k, expires) =>
      s.(sh := WakeSection(s.sh, k, expires, s.now), scripts := s.scripts[k := Waking(Targets(s.sh, k.0), {})])
    case WakeMark(k, id) =>
      var sc, c := ScriptOf(s, k), s.conns[id];
      s.(conns := s.conns[id := Marked(c, k.1)],
         scripts := s.scripts[k := Waking(sc.todo - {id}, ToWrite(c, k.1, id))])
    case WakeWrite(k, id) =>
      s.(conns := s.conns[id := Wrote(s.conns[id], WakeFrame(k.1))],
         scripts := s.scripts[k := ScriptOf(s, k).(writing := {})])
    case WakeReturn(k) => s.(scripts := s.scripts[k := Woken])
    case CancelLock(k) =>
      s.(sh := CancelSection(s.sh, k, s.now),
         scripts := s.scripts[k := Cancelling(Targets(s.sh, k.0), Targets(s.sh, k.0))])
    case CancelWrite(k, id) =>
      var sc := ScriptOf(s, k);
      s.(conns := s.conns[id := Wrote(s.conns[id], CancelFrame(k.1))],
         scripts := s.scripts[k := sc.(todo := sc.todo - {id})])
    case CancelReturn(k) => s.(scripts := s.scripts[k := Cancelled(ScriptOf(s, k).targets)])
    case Forget(k) => s.(sh := DropPending(s.sh, k))
    case Ack(k, action) => s.(sh := AckSection(s.sh, k, action))
    case ReadPending(id) =>
      var c := s.conns[id];
      s.(sh := s.sh.(pending := Pruned(s.sh.pending, c.device, s.now)),
         conns := s.conns[id := c.(phase := Wakes(s.now, Live(s.sh.pending, c.device, s.now), {}))])
    case ReplayMark(id, call) =>
      var c := s.conns[id];
      var phase := Wakes(c.phase.at, c.phase.todo - {call}, ToWrite(c, call, call));
      s.(conns := s.conns[id := Marked(c, call).(phase := phase)])
    case ReplayWrite(id, call) =>
      var c := s.conns[id];
      s.(conns := s.conns[id := Wrote(c, WakeFrame(call)).(phase := c.phase.(writing := {}))])
    case ReadCancels(id) =>
      var c := s.conns[id];
      s.(sh := s.sh.(cancelled := Pruned(s.sh.cancelled, c.device, s.now)),
         conns := s.conns[id := c.(phase := Cancels(Live(s.sh.cancelled, c.device, s.now)))])
    case ReplayCancel(id, call) =>
      var c := s.conns[id];
      s.(conns := s.conns[id := Wrote(c, CancelFrame(call)).(phase := Cancels(c.phase.todo - {call}))])
    case SessionUp(id) => s.(conns := s.conns[id := s.conns[id].(phase := Up)])
  }

  /** The state after a schedule; a step that cannot be taken is passed over. */
  function Run(es: seq<Step>): State
    decreases |es|
  {
    if es == [] then INITIAL
    else
      var t := Run(es[..|es| - 1]);
      if Enabled(t, es[|es| - 1]) then Apply(t, es[|es| - 1]) else t
  }

  // What the log of a connection says about one call.

  function Count(log: seq<Frame>, f: Frame): nat
    decreases |log|
  {
    if log == [] then 0 else Count(log[..|log| - 1], f) + (if log[|log| - 1] == f then 1 else 0)
  }

  lemma CountAppend(log: seq<Frame>, g: Frame, f: Frame)
    ensures Count(log + [g], f) == Count(log, f) + (if g == f then 1 else 0)
  {
    assert (log + [g])[..|log|] == log;
  }

  /** Some cancel of the call, and no wake for it after that. */
  ghost predicate CancelledLast(log: seq<Frame>, call: Call) {
    exists j :: 0 <= j < |log| && log[j] == CancelFrame(call) && forall i :: j < i < |log| ==> log[i] != WakeFrame(call)
  }

  lemma CancelledLastAppend(log: seq<Frame>, f: Frame, call: Call)
    ensures f == CancelFrame(call) ==> CancelledLast(log + [f], call)
    ensures CancelledLast(log, call) && f != WakeFrame(call) ==> CancelledLast(log + [f], call)
  {
    if f == CancelFrame(call) {
      assert (log + [f])[|log|] == CancelFrame(call);
    } else if CancelledLast(log, call) && f != WakeFrame(call) {
      var j :| 0 <= j < |log| && log[j] == CancelFrame(call) && forall i :: j < i < |log| ==> log[i] != WakeFrame(call);
      assert (log + [f])[j] == CancelFrame(call);
    }
  }

  // The invariant, for one call of one device and one connection.

  /** The wake is still to be written, or about to be considered, by the connection's own replay. */
  predicate InReplay(c: Conn, call: Call) { c.phase.Wakes? && (call in c.phase.todo || call in c.phase.writing) }

  predicate IsTable(s: State, id: SessionId) {
    id in s.conns && (s.conns[id].device, s.conns[id].kind) in s.sh.sessions &&
      s.sh.sessions[(s.conns[id].device, s.conns[id].kind)] == id
  }

  /** The wakes written and being written never exceed one, and none is without its mark. */
  predicate OnceInv(s: State, k: Key, id: SessionId) {
    id in s.conns && s.conns[id].device == k.0 ==>
      var c, sc := s.conns[id], ScriptOf(s, k);
      Count(c.log, WakeFrame(k.1)) + One(c.phase.Wakes? && k.1 in c.phase.writing)
        + One(sc.Waking? && id in sc.writing) <= One(k.1 in c.sent)
  }

  /** The tables point at connections of the right device and kind, and so do the scripts. */
  ghost predicate TableInv(s: State) {
    && (forall d, kind {:trigger s.sh.sessions[(d, kind)]} :: (d, kind) in s.sh.sessions ==>
          s.sh.sessions[(d, kind)] in s.conns && s.conns[s.sh.sessions[(d, kind)]].device == d &&
            s.conns[s.sh.sessions[(d, kind)]].kind == kind)
  }

  /** Nothing about a call that was not woken, and no pending wake for one that was cancelled. */
  predicate ScriptInv(s: State, k: Key, id: SessionId) {
    var sc := ScriptOf(s, k);
    && (sc.NotWoken? ==> k !in s.sh.pending)
    && (sc.Cancelling? || sc.Cancelled? ==> k !in s.sh.pending)
    && (sc.NotWoken? && id in s.conns && s.conns[id].device == k.0 ==>
      k.1 !in s.conns[id].sent && !InReplay(s.conns[id], k.1))
  }

  /** A wake that is pending while a replay goes on was live when the replay read the wakes. */
  predicate ReplayInv(s: State, k: Key, id: SessionId) {
    id in s.conns && s.conns[id].device == k.0 && s.conns[id].phase.Wakes? ==>
      var c := s.conns[id];
      c.phase.at <= s.now && (k in s.sh.pending ==> s.sh.pending[k] > c.phase.at)
  }

  /** The cancel will still be remembered when the connection's replay reads the cancels. */
  predicate Remembered(s: State, k: Key, at: int) {
    s.now >= at + CANCEL_GRACE || (k in s.sh.cancelled && s.sh.cancelled[k] > at + CANCEL_GRACE)
  }

  /** A connection the cancel was sent to has it last, or is still going to. */
  ghost predicate OwedInv(s: State, k: Key, id: SessionId) {
    var sc := ScriptOf(s, k);
    (sc.Cancelling? || sc.Cancelled?) && id in sc.targets && id in s.conns ==>
      var c := s.conns[id];
      var direct := (sc.Cancelling? && id in sc.todo) || CancelledLast(c.log, k.1);
      match c.phase
      case Wakes(at, _, _) => (direct && !InReplay(c, k.1)) || Remembered(s, k, at)
      case Cancels(todo) => direct || k.1 in todo
      case _ => direct
  }

  /** A connection still installed that the cancel was not sent to never carried the wake. */
  predicate LateInv(s: State, k: Key, id: SessionId) {
    var sc := ScriptOf(s, k);
    (sc.Cancelling? || sc.Cancelled?) && IsTable(s, id) && s.conns[id].device == k.0 && id !in sc.targets ==>
      k.1 !in s.conns[id].sent && !InReplay(s.conns[id], k.1)
  }

  predicate TargetsInv(s: State, k: Key, id: SessionId) {
    var sc := ScriptOf(s, k);
    && (sc.Waking? && id in sc.todo + sc.writing ==> id in s.conns && s.conns[id].device == k.0)
    && ((sc.Cancelling? || sc.Cancelled?) && id in sc.targets ==> id in s.conns && s.conns[id].device == k.0)
    && (sc.Cancelling? && id in sc.todo ==> id in sc.targets)
  }

  ghost predicate Inv(s: State, k: Key, id: SessionId) {
    && TableInv(s) && TargetsInv(s, k, id) && OnceInv(s, k, id) && ScriptInv(s, k, id) && ReplayInv(s, k, id)
    && OwedInv(s, k, id) && LateInv(s, k, id)
  }

  lemma TargetsAre(sh: Shared, d: Device, id: SessionId)
    ensures id in Targets(sh, d) <==>
      || ((d, App) in sh.sessions && sh.sessions[(d, App)] == id)
      || ((d, Extension) in sh.sessions && sh.sessions[(d, Extension)] == id)
  {
    assert App in {App, Extension} && Extension in {App, Extension};
  }

  lemma InvInitial(k: Key, id: SessionId)
    ensures Inv(INITIAL, k, id)
  {}

  ghost predicate AllTargets(s: State) { forall k, id :: TargetsInv(s, k, id) }

  lemma EmptyLog(call: Call)
    ensures Count([], WakeFrame(call)) == 0
  {}

  lemma TickKeeps(s: State, e: Step, k: Key, id: SessionId)
    requires e.Tick? && Inv(s, k, id) && AllTargets(s) && Enabled(s, e)
    ensures Inv(Apply(s, e), k, id)
  {
    hide CancelledLast, Count;
  }

  lemma AttachKeeps(s: State, e: Step, k: Key, id: SessionId)
    requires e.Attach? && Inv(s, k, id) && AllTargets(s) && Enabled(s, e)
    ensures Inv(Apply(s, e), k, id)
  {
    hide CancelledLast, Count;
    EmptyLog(k.1);
  }

  lemma DetachKeeps(s: State, e: Step, k: Key, id: SessionId)
    requires e.Detach? && Inv(s, k, id) && AllTargets(s) && Enabled(s, e)
    ensures Inv(Apply(s, e), k, id)
  {
    hide CancelledLast, Count;
  }

  lemma WakeLockKeeps(s: State, e: Step, k: Key, id: SessionId)
    requires e.WakeLock? && Inv(s, k, id) && AllTargets(s) && Enabled(s, e)
    ensures Inv(Apply(s, e), k, id)
  {
    hide CancelledLast, Count;
    TargetsAre(s.sh, e.k.0, id);
  }

  lemma WakeMarkKeeps(s: State, e: Step, k: Key, id: SessionId)
    requires e.WakeMark? && Inv(s, k, id) && AllTargets(s) && Enabled(s, e)
    ensures Inv(Apply(s, e), k, id)
  {
    hide CancelledLast, Count;
    assert TargetsInv(s, e.k, e.id);
  }

  lemma WakeWriteKeeps(s: State, e: Step, k: Key, id: SessionId)
    requires e.WakeWrite? && Inv(s, k, id) && AllTargets(s) && Enabled(s, e)
    ensures Inv(Apply(s, e), k, id)
  {
    hide CancelledLast, Count;
    CountAppend(s.conns[e.id].log, WakeFrame(e.k.1), WakeFrame(k.1));
    CancelledLastAppend(s.conns[e.id].log, WakeFrame(e.k.1), k.1);
    assert TargetsInv(s, e.k, e.id);
  }

  lemma WakeReturnKeeps(s: State, e: Step, k: Key, id: SessionId)
    requires e.WakeReturn? && Inv(s, k, id) && AllTargets(s) && Enabled(s, e)
    ensures Inv(Apply(s, e), k, id)
  {
    hide CancelledLast, Count;
  }

  lemma CancelLockKeeps(s: State, e: Step, k: Key, id: SessionId)
    requires e.CancelLock? && Inv(s, k, id) && AllTargets(s) && Enabled(s, e)
    ensures Inv(Apply(s, e), k, id)
  {
    hide CancelledLast, Count;
    TargetsAre(s.sh, e.k.0, id);
  }

  lemma CancelWriteKeeps(s: State, e: Step, k: Key, id: SessionId)
    requires e.CancelWrite? && Inv(s, k, id) && AllTargets(s) && Enabled(s, e)
    ensures Inv(Apply(s, e), k, id)
  {
    hide CancelledLast, Count;
    CountAppend(s.conns[e.id].log, CancelFrame(e.k.1), WakeFrame(k.1));
    CancelledLastAppend(s.conns[e.id].log, CancelFrame(e.k.1), k.1);
  }

  lemma CancelReturnKeeps(s: State, e: Step, k: Key, id: SessionId)
    requires e.CancelReturn? && Inv(s, k, id) && AllTargets(s) && Enabled(s, e)
    ensures Inv(Apply(s, e), k, id)
  {
    hide CancelledLast, Count;
  }

  lemma ForgetKeeps(s: State, e: Step, k: Key, id: SessionId)
    requires e.Forget? && Inv(s, k, id) && AllTargets(s) && Enabled(s, e)
    ensures Inv(Apply(s, e), k, id)
  {
    hide CancelledLast, Count;
  }

  lemma AckKeeps(s: State, e: Step, k: Key, id: SessionId)
    requires e.Ack? && Inv(s, k, id) && AllTargets(s) && Enabled(s, e)
    ensures Inv(Apply(s, e), k, id)
  {
    hide CancelledLast, Count;
  }

  lemma ReadPendingKeeps(s: State, e: Step, k: Key, id: SessionId)
    requires e.ReadPending? && Inv(s, k, id) && AllTargets(s) && Enabled(s, e)
    ensures Inv(Apply(s, e), k, id)
  {
    hide CancelledLast, Count;
  }

  lemma ReplayMarkKeeps(s: State, e: Step, k: Key, id: SessionId)
    requires e.ReplayMark? && Inv(s, k, id) && AllTargets(s) && Enabled(s, e)
    ensures Inv(Apply(s, e), k, id)
  {
    hide CancelledLast, Count;
  }

  lemma ReplayWriteKeeps(s: State, e: Step, k: Key, id: SessionId)
    requires e.ReplayWrite? && Inv(s, k, id) && AllTargets(s) && Enabled(s, e)
    ensures Inv(Apply(s, e), k, id)
  {
    hide CancelledLast, Count;
    CountAppend(s.conns[e.id].log, WakeFrame(e.call), WakeFrame(k.1));
    CancelledLastAppend(s.conns[e.id].log, WakeFrame(e.call), k.1);
  }

  lemma ReadCancelsKeeps(s: State, e: Step, k: Key, id: SessionId)
    requires e.ReadCancels? && Inv(s, k, id) && AllTargets(s) && Enabled(s, e)
    ensures Inv(Apply(s, e), k, id)
  {
    hide CancelledLast, Count;
  }

  lemma ReplayCancelKeeps(s: State, e: Step, k: Key, id: SessionId)
    requires e.ReplayCancel? && Inv(s, k, id) && AllTargets(s) && Enabled(s, e)
    ensures Inv(Apply(s, e), k, id)
  {
    hide CancelledLast, Count;
    CountAppend(s.conns[e.id].log, CancelFrame(e.call), WakeFrame(k.1));
    CancelledLastAppend(s.conns[e.id].log, CancelFrame(e.call), k.1);
  }

  lemma SessionUpKeeps(s: State, e: Step, k: Key, id: SessionId)
    requires e.SessionUp? && Inv(s, k, id) && AllTargets(s) && Enabled(s, e)
    ensures Inv(Apply(s, e), k, id)
  {
    hide CancelledLast, Count;
  }

  lemma InvStep(s: State, e: Step, k: Key, id: SessionId)
    requires Inv(s, k, id) && AllTargets(s) && Enabled(s, e)
    ensures Inv(Apply(s, e), k, id)
  {
    hide Inv, AllTargets, Enabled, Apply;
    match e
    case Tick(_) => TickKeeps(s, e, k, id);
    case Attach(_, _, _) => AttachKeeps(s, e, k, id);
    case Detach(_) => DetachKeeps(s, e, k, id);
    case WakeLock(_, _) => WakeLockKeeps(s, e, k, id);
    case WakeMark(_, _) => WakeMarkKeeps(s, e, k, id);
    case WakeWrite(_, _) => WakeWriteKeeps(s, e, k, id);
    case WakeReturn(_) => WakeReturnKeeps(s, e, k, id);
    case CancelLock(_) => CancelLockKeeps(s, e, k, id);
    case CancelWrite(_, _) => CancelWriteKeeps(s, e, k, id);
    case CancelReturn(_) => CancelReturnKeeps(s, e, k, id);
    case Forget(_) => ForgetKeeps(s, e, k, id);
    case Ack(_, _) => AckKeeps(s, e, k, id);
    case ReadPending(_) => ReadPendingKeeps(s, e, k, id);
    case ReplayMark(_, _) => ReplayMarkKeeps(s, e, k, id);
    case ReplayWrite(_, _) => ReplayWriteKeeps(s, e, k, id);
    case ReadCancels(_) => ReadCancelsKeeps(s, e, k, id);
    case ReplayCancel(_, _) => ReplayCancelKeeps(s, e, k, id);
    case SessionUp(_) => SessionUpKeeps(s, e, k, id);
  }

  ghost predicate AllInv(s: State) { forall k, id :: Inv(s, k, id) }

  lemma {:induction false} RunInv(es: seq<Step>)
    ensures AllInv(Run(es))
    decreases |es|
  {
    hide Inv, Enabled, Apply;
    forall k, id ensures Inv(Run(es), k, id) {
      if es == [] {
        InvInitial(k, id);
      } else {
        var t, e := Run(es[..|es| - 1]), es[|es| - 1];
        RunInv(es[..|es| - 1]);
        assert Inv(t, k, id);
        if Enabled(t, e) {
          AllInvTargets(t);
          InvStep(t, e, k, id);
        }
      }
    }
  }

  lemma AllInvTargets(s: State)
    requires AllInv(s)
    ensures AllTargets(s)
  {
    forall k, id ensures TargetsInv(s, k, id) {
      assert Inv(s, k, id);
    }
  }

  /** In every interleaving a connection is handed a call's wake at most once. */
  lemma WakeAtMostOnce(es: seq<Step>, id: SessionId, call: Call)
    requires id in Run(es).conns
    ensures Count(Run(es).conns[id].log, WakeFrame(call)) <= 1
  {
    RunInv(es);
    assert Inv(Run(es), (Run(es).conns[id].device, call), id);
  }

  // Any number of senders.

  /** One connection with any number of Wakes and replays at work on it, for the same call or others: the
      calls marked, the frames written, and the wakes marked and not yet written. */
  datatype Carrier = Carrier(sent: set<Call>, log: seq<Frame>, writing: multiset<Call>)

  datatype Send = Mark(call: Call) | Write(call: Call) | Other(frame: Frame)

  function Carried(c: Carrier, e: Send): Carrier {
    match e
    case Mark(call) =>
      var (sent, write) := MarkSection(c.sent, call);
      Carrier(sent, c.log, if write then c.writing + multiset{call} else c.writing)
    case Write(call) =>
      if call !in c.writing then c
      else Carrier(c.sent, SendSection(c.log, WakeFrame(call)), c.writing - multiset{call})
    case Other(f) => if f.WakeFrame? then c else c.(log := SendSection(c.log, f))
  }

  function CarriedAll(es: seq<Send>): Carrier
    decreases |es|
  {
    if es == [] then Carrier({}, [], multiset{}) else Carried(CarriedAll(es[..|es| - 1]), es[|es| - 1])
  }

  /** However many Wakes of one call there are, a connection is handed it at most once. */
  lemma {:induction false} OnceForAnySenders(es: seq<Send>, call: Call)
    ensures var c := CarriedAll(es);
      Count(c.log, WakeFrame(call)) + c.writing[call] <= One(call in c.sent)
    decreases |es|
  {
    hide Count;
    if es == [] {
      EmptyLog(call);
    } else {
      var before, e := CarriedAll(es[..|es| - 1]), es[|es| - 1];
      OnceForAnySenders(es[..|es| - 1], call);
      match e
      case Mark(_) =>
      case Write(other) => CountAppend(before.log, WakeFrame(other), WakeFrame(call));
      case Other(f) => CountAppend(before.log, f, WakeFrame(call));
    }
  }

  lemma {:induction false} CountPositive(log: seq<Frame>, f: Frame)
    ensures Count(log, f) > 0 <==> f in log
    decreases |log|
  {
    if log != [] {
      CountPositive(log[..|log| - 1], f);
      assert log == log[..|log| - 1] + [log[|log| - 1]];
    }
  }

  /** In every interleaving, once a session's replay and the server's CancelWake have both finished, a session
      that carried the wake carries a wake_cancel after it, unless it had been superseded or detached before
      the cancel was issued. */
  lemma CancelReaches(es: seq<Step>, k: Key, id: SessionId)
    requires var s := Run(es);
      && id in s.conns && s.conns[id].device == k.0 && s.conns[id].phase.Up? && ScriptOf(s, k).Cancelled?
      && WakeFrame(k.1) in s.conns[id].log
      && (id in ScriptOf(s, k).targets || IsTable(s, id))
    ensures CancelledLast(Run(es).conns[id].log, k.1)
  {
    var s := Run(es);
    RunInv(es);
    assert Inv(s, k, id);
    CountPositive(s.conns[id].log, WakeFrame(k.1));
  }

  /** Every session the cancel was sent to ends on it, whether or not it carried the wake. */
  lemma TargetsEndCancelled(es: seq<Step>, k: Key, id: SessionId)
    requires var s := Run(es);
      ScriptOf(s, k).Cancelled? && id in ScriptOf(s, k).targets && id in s.conns && s.conns[id].phase.Up?
    ensures CancelledLast(Run(es).conns[id].log, k.1)
  {
    RunInv(es);
    assert Inv(Run(es), k, id);
  }

  // Nothing that was not issued.

  /** The connection's replay has read the remembered cancels. */
  predicate HasRead(c: Conn) { c.phase.Cancels? || c.phase.Up? }

  predicate CancelIssued(sc: Script) { sc.Cancelling? || sc.Cancelled? }

  /** Every trace of a call on the way to a connection comes from a Wake or a CancelWake of that call for that
      device. */
  predicate OriginInv(s: State, k: Key, id: SessionId) {
    var sc := ScriptOf(s, k);
    && (k in s.sh.cancelled ==> CancelIssued(sc))
    && (k in s.sh.pending ==> !sc.NotWoken?)
    && (id in s.conns && s.conns[id].device == k.0 ==>
          var c := s.conns[id];
          && (CancelFrame(k.1) in c.log || (c.phase.Cancels? && k.1 in c.phase.todo) ==> CancelIssued(sc))
          && (CancelFrame(k.1) in c.log && !HasRead(c) ==> CancelIssued(sc) && id in sc.targets)
          && (WakeFrame(k.1) in c.log || InReplay(c, k.1) ==> !sc.NotWoken?))
  }

  /** The steps of a connection's handler. */
  predicate ByHandler(e: Step) {
    e.Attach? || e.Detach? || e.ReadPending? || e.ReplayMark? || e.ReplayWrite? || e.ReadCancels? || e.ReplayCancel? ||
      e.SessionUp?
  }

  lemma OriginHandlerStep(s: State, e: Step, k: Key, id: SessionId)
    requires ByHandler(e) && OriginInv(s, k, id) && Enabled(s, e)
    ensures OriginInv(Apply(s, e), k, id)
  {
    hide CancelledLast, Count, Targets;
  }

  lemma OriginServerStep(s: State, e: Step, k: Key, id: SessionId)
    requires !ByHandler(e) && OriginInv(s, k, id) && AllTargets(s) && Enabled(s, e)
    ensures OriginInv(Apply(s, e), k, id)
  {
    hide CancelledLast, Count, Targets;
    if e.WakeWrite? || e.CancelWrite? { assert TargetsInv(s, e.k, e.id); }
  }

  lemma OriginStep(s: State, e: Step, k: Key, id: SessionId)
    requires OriginInv(s, k, id) && AllTargets(s) && Enabled(s, e)
    ensures OriginInv(Apply(s, e), k, id)
  {
    hide OriginInv, AllTargets, Enabled, Apply;
    if ByHandler(e) { OriginHandlerStep(s, e, k, id); } else { OriginServerStep(s, e, k, id); }
  }

  lemma {:induction false} RunOrigin(es: seq<Step>, k: Key, id: SessionId)
    ensures OriginInv(Run(es), k, id)
    decreases |es|
  {
    hide Enabled, Apply, AllTargets, Inv;
    if es != [] {
      var t, e := Run(es[..|es| - 1]), es[|es| - 1];
      RunOrigin(es[..|es| - 1], k, id);
      if Enabled(t, e) {
        RunInv(es[..|es| - 1]);
        AllInvTargets(t);
        OriginStep(t, e, k, id);
      }
    }
  }

  /** In every interleaving a connection carries no wake that was not issued for its device, and no cancel of a
      call that was not cancelled. */
  lemma NothingUnissued(es: seq<Step>, id: SessionId, call: Call)
    requires id in Run(es).conns
    ensures var c := Run(es).conns[id];
      && (WakeFrame(call) in c.log ==> !ScriptOf(Run(es), (c.device, call)).NotWoken?)
      && (CancelFrame(call) in c.log ==> CancelIssued(ScriptOf(Run(es), (c.device, call))))
  {
    RunOrigin(es, (Run(es).conns[id].device, call), id);
  }

  // Exactly which connections are told.

  lemma Prefixes(es: seq<Step>, n: nat)
    requires n < |es|
    ensures es[..|es| - 1][..n] == es[..n]
  {}

  lemma SettledStep(s: State, e: Step, k: Key, id: SessionId)
    requires Enabled(s, e)
    ensures CancelIssued(ScriptOf(s, k)) ==>
      CancelIssued(ScriptOf(Apply(s, e), k)) && ScriptOf(Apply(s, e), k).targets == ScriptOf(s, k).targets
    ensures id in s.conns ==> id in Apply(s, e).conns && Apply(s, e).conns[id].device == s.conns[id].device
  {
    hide Targets, Live, Pruned, WakeSection, CancelSection, AttachSection, DetachSection, AckSection;
  }

  /** Once a cancel is issued its addressees are settled; and a connection, once known, stays known. */
  lemma {:induction false} Settled(es: seq<Step>, n: nat, k: Key, id: SessionId)
    requires n <= |es|
    ensures CancelIssued(ScriptOf(Run(es[..n]), k)) ==>
      CancelIssued(ScriptOf(Run(es), k)) && ScriptOf(Run(es), k).targets == ScriptOf(Run(es[..n]), k).targets
    ensures id in Run(es[..n]).conns ==>
      id in Run(es).conns && Run(es).conns[id].device == Run(es[..n]).conns[id].device
    decreases |es|
  {
    hide Enabled, Apply, ScriptOf;
    if n == |es| {
      assert es[..n] == es;
    } else {
      var m := |es| - 1;
      Prefixes(es, n);
      Settled(es[..m], n, k, id);
      if Enabled(Run(es[..m]), es[m]) { SettledStep(Run(es[..m]), es[m], k, id); }
    }
  }

  /** A connection that has read its cancels, this one not among them, and was not sent it. */
  predicate Untold(s: State, k: Key, id: SessionId) {
    && id in s.conns && s.conns[id].device == k.0 && HasRead(s.conns[id])
    && CancelFrame(k.1) !in s.conns[id].log && !(s.conns[id].phase.Cancels? && k.1 in s.conns[id].phase.todo)
  }

  lemma UntoldStep(s: State, e: Step, k: Key, id: SessionId)
    requires Untold(s, k, id) && AllTargets(s) && Enabled(s, e)
    requires CancelIssued(ScriptOf(s, k)) ==> id !in ScriptOf(s, k).targets
    ensures Untold(Apply(s, e), k, id)
  {
    hide CancelledLast, Count, Targets;
    if e.CancelWrite? { assert TargetsInv(s, e.k, e.id); }
  }

  /** Such a connection stays untold, if the cancel is never addressed to it. */
  lemma {:induction false} StaysUntold(es: seq<Step>, n: nat, k: Key, id: SessionId)
    requires n <= |es| && Untold(Run(es[..n]), k, id)
    requires CancelIssued(ScriptOf(Run(es), k)) ==> id !in ScriptOf(Run(es), k).targets
    ensures Untold(Run(es), k, id)
    decreases |es|
  {
    hide Enabled, Apply, AllTargets, Inv, Untold;
    if n == |es| {
      assert es[..n] == es;
    } else {
      var m := |es| - 1;
      var t := Run(es[..m]);
      Prefixes(es, n);
      Settled(es, m, k, id);
      StaysUntold(es[..m], n, k, id);
      if Enabled(t, es[m]) {
        RunInv(es[..m]);
        AllInvTargets(t);
        UntoldStep(t, es[m], k, id);
      }
    }
  }

  /** A connection whose replay will end, or has ended, on the issued cancel. */
  ghost predicate Told(s: State, k: Key, id: SessionId) {
    && CancelIssued(ScriptOf(s, k)) && id in s.conns && s.conns[id].device == k.0
    && match s.conns[id].phase
       case Connected => false
       case Wakes(at, _, _) => Remembered(s, k, at)
       case Cancels(todo) => k.1 in todo || CancelledLast(s.conns[id].log, k.1)
       case Up => CancelledLast(s.conns[id].log, k.1)
  }

  lemma ToldStep(s: State, e: Step, k: Key, id: SessionId)
    requires Told(s, k, id) && AllTargets(s) && Enabled(s, e)
    ensures Told(Apply(s, e), k, id)
  {
    hide CancelledLast, Count, Targets;
    if e.WakeWrite? {
      assert TargetsInv(s, e.k, e.id);
      CancelledLastAppend(s.conns[e.id].log, WakeFrame(e.k.1), k.1);
    }
    if e.CancelWrite? { CancelledLastAppend(s.conns[e.id].log, CancelFrame(e.k.1), k.1); }
    if e.ReplayCancel? { CancelledLastAppend(s.conns[e.id].log, CancelFrame(e.call), k.1); }
  }

  lemma {:induction false} StaysTold(es: seq<Step>, n: nat, k: Key, id: SessionId)
    requires n <= |es| && Told(Run(es[..n]), k, id)
    ensures Told(Run(es), k, id)
    decreases |es|
  {
    hide Enabled, Apply, AllTargets, Inv, Told;
    if n == |es| {
      assert es[..n] == es;
    } else {
      var m := |es| - 1;
      var t := Run(es[..m]);
      Prefixes(es, n);
      StaysTold(es[..m], n, k, id);
      if Enabled(t, es[m]) {
        RunInv(es[..m]);
        AllInvTargets(t);
        ToldStep(t, es[m], k, id);
      }
    }
  }

  lemma StepAt(es: seq<Step>, n: nat)
    requires n < |es| && Enabled(Run(es[..n]), es[n])
    ensures Run(es[..n + 1]) == Apply(Run(es[..n]), es[n])
  {
    assert es[..n + 1][..n] == es[..n];
  }

  /** What a connection reads of one cancel. */
  predicate ReadsCancel(s: State, k: Key) { k in s.sh.cancelled && s.sh.cancelled[k] > s.now }

  lemma AtRead(s: State, k: Key, id: SessionId)
    requires Enabled(s, ReadCancels(id)) && s.conns[id].device == k.0 && OriginInv(s, k, id)
    ensures ReadsCancel(s, k) ==> Told(Apply(s, ReadCancels(id)), k, id)
    ensures !ReadsCancel(s, k) && (CancelIssued(ScriptOf(s, k)) ==> id !in ScriptOf(s, k).targets) ==>
      Untold(Apply(s, ReadCancels(id)), k, id)
  {
    hide CancelledLast, Count;
  }

  lemma NoCancelNoLast(log: seq<Frame>, call: Call)
    requires CancelFrame(call) !in log
    ensures !CancelledLast(log, call)
  {}

  /** In every interleaving, once a session's replay and the CancelWake have finished, the session ends on the
      cancel if and only if the cancel was addressed to it or was still remembered when its replay read the
      cancels. */
  lemma CancelExactly(es: seq<Step>, n: nat, k: Key, id: SessionId)
    requires n < |es| && es[n] == ReadCancels(id) && Enabled(Run(es[..n]), es[n]) &&
      Run(es[..n]).conns[id].device == k.0
    requires var s := Run(es);
      id in s.conns && s.conns[id].phase.Up? && ScriptOf(s, k).Cancelled?
    ensures var s := Run(es);
      CancelledLast(s.conns[id].log, k.1) <==> id in ScriptOf(s, k).targets || ReadsCancel(Run(es[..n]), k)
  {
    hide Apply, CancelledLast, Inv, OriginInv, ReadsCancel;
    var s, read := Run(es), Run(es[..n]);
    StepAt(es, n);
    RunOrigin(es[..n], k, id);
    AtRead(read, k, id);
    if id in ScriptOf(s, k).targets {
      TargetsEndCancelled(es, k, id);
    } else if ReadsCancel(read, k) {
      StaysTold(es, n + 1, k, id);
    } else {
      Settled(es, n, k, id);
      StaysUntold(es, n + 1, k, id);
      NoCancelNoLast(s.conns[id].log, k.1);
    }
  }

  /** The addressees of a cancel are the device's sessions in the table at its lock. */
  lemma AddressedIffInTable(s: State, k: Key, id: SessionId)
    requires TableInv(s) && id in s.conns && s.conns[id].device == k.0
    ensures id in Targets(s.sh, k.0) <==> IsTable(s, id)
  {
    hide Targets;
    TargetsAre(s.sh, k.0, id);
  }

  lemma LockSettles(es: seq<Step>, n: nat, k: Key, id: SessionId)
    requires n < |es| && es[n] == CancelLock(k) && Enabled(Run(es[..n]), es[n])
    requires var s := Run(es[..n]); id in s.conns && s.conns[id].device == k.0
    ensures CancelIssued(ScriptOf(Run(es[..n + 1]), k)) && CancelIssued(ScriptOf(Run(es), k))
    ensures ScriptOf(Run(es[..n + 1]), k).targets == ScriptOf(Run(es), k).targets
    ensures id in ScriptOf(Run(es), k).targets <==> IsTable(Run(es[..n]), id)
    ensures id in Run(es).conns && Run(es).conns[id].device == k.0
  {
    hide Targets, CancelledLast;
    StepAt(es, n);
    Settled(es, n + 1, k, id);
    Settled(es, n, k, id);
    RunInv(es[..n]);
    assert Inv(Run(es[..n]), k, id);
    AddressedIffInTable(Run(es[..n]), k, id);
  }

  /** A session whose replay had read its cancels when the cancel was issued ends on it if and only if it was in
      the table at that moment: one superseded or detached by then is never told. */
  lemma ToldIffInTable(es: seq<Step>, n: nat, k: Key, id: SessionId)
    requires n < |es| && es[n] == CancelLock(k) && Enabled(Run(es[..n]), es[n])
    requires var s := Run(es[..n]); id in s.conns && s.conns[id].device == k.0 && HasRead(s.conns[id])
    requires id in Run(es).conns && Run(es).conns[id].phase.Up? && ScriptOf(Run(es), k).Cancelled?
    ensures CancelledLast(Run(es).conns[id].log, k.1) <==> IsTable(Run(es[..n]), id)
  {
    hide Apply, CancelledLast, Inv;
    var lock := Run(es[..n]);
    LockSettles(es, n, k, id);
    if IsTable(lock, id) {
      TargetsEndCancelled(es, k, id);
    } else {
      RunOrigin(es[..n], k, id);
      StaysUntold(es, n, k, id);
      NoCancelNoLast(Run(es).conns[id].log, k.1);
    }
  }

  /** A session between reading the pending wakes and reading the cancels when the cancel was issued ends on it,
      superseded or not. */
  lemma ReplayingIsTold(es: seq<Step>, n: nat, k: Key, id: SessionId)
    requires n < |es| && es[n] == CancelLock(k) && Enabled(Run(es[..n]), es[n])
    requires var s := Run(es[..n]); id in s.conns && s.conns[id].device == k.0 && s.conns[id].phase.Wakes?
    requires id in Run(es).conns && Run(es).conns[id].phase.Up? && ScriptOf(Run(es), k).Cancelled?
    ensures CancelledLast(Run(es).conns[id].log, k.1)
  {
    hide CancelledLast, Targets;
    LockSettles(es, n, k, id);
    StepAt(es, n);
    RunInv(es[..n]);
    assert Inv(Run(es[..n]), k, id);
    StaysTold(es, n + 1, k, id);
  }

  // A run in which a superseded session is not told.

  lemma Next(es: seq<Step>, s: State, e: Step, t: State)
    requires Run(es) == s && Enabled(s, e) && Apply(s, e) == t
    ensures Run(es + [e]) == t
  {
    assert (es + [e])[..|es|] == es;
  }

  const KEY: Key := ("d", "c")

  /** Session 1 of device "d" alone, and what has been done about call "c". */
  function Alone(phase: Phase, sent: set<Call>, log: seq<Frame>, pending: map<Key, int>, scripts: map<Key, Script>)
    : State
  {
    State(0, Shared(map[("d", App) := 1], pending, map[]), map[1 := Conn("d", App, sent, log, phase)], scripts)
  }

  lemma SoleTarget(sh: Shared, id: SessionId)
    requires sh.sessions == map[("d", App) := id]
    ensures Targets(sh, "d") == {id}
  {
    assert App in {App, Extension};
  }

  lemma Attached()
    ensures Enabled(INITIAL, Attach(1, "d", App))
    ensures Apply(INITIAL, Attach(1, "d", App)) == Alone(Connected, {}, [], map[], map[])
  {}

  lemma PendingRead()
    ensures var s := Alone(Connected, {}, [], map[], map[]);
      Enabled(s, ReadPending(1)) && Apply(s, ReadPending(1)) == Alone(Wakes(0, {}, {}), {}, [], map[], map[])
  {
    NoEntries("d", 0);
    hide Live, Pruned;
  }

  lemma CancelsRead()
    ensures var s := Alone(Wakes(0, {}, {}), {}, [], map[], map[]);
      Enabled(s, ReadCancels(1)) && Apply(s, ReadCancels(1)) == Alone(Cancels({}), {}, [], map[], map[])
  {
    NoEntries("d", 0);
    hide Live, Pruned;
  }

  lemma NoEntries(d: Device, now: int)
    ensures Live(map[], d, now) == {} && Pruned(map[], d, now) == map[]
  {}

  lemma CameUp()
    ensures var s := Alone(Cancels({}), {}, [], map[], map[]);
      Enabled(s, SessionUp(1)) && Apply(s, SessionUp(1)) == Alone(Up, {}, [], map[], map[])
  {}

  lemma WakeLocked()
    ensures var s := Alone(Up, {}, [], map[], map[]);
      && Enabled(s, WakeLock(KEY, 60))
      && Apply(s, WakeLock(KEY, 60)) == Alone(Up, {}, [], map[KEY := 60], map[KEY := Waking({1}, {})])
  {
    hide Targets;
    var s := Alone(Up, {}, [], map[], map[]);
    SoleTarget(s.sh, 1);
  }

  lemma WakeMarked()
    ensures var s := Alone(Up, {}, [], map[KEY := 60], map[KEY := Waking({1}, {})]);
      && Enabled(s, WakeMark(KEY, 1))
      && Apply(s, WakeMark(KEY, 1)) == Alone(Up, {"c"}, [], map[KEY := 60], map[KEY := Waking({}, {1})])
  {
    Emptied(1);
    Marked1();
  }

  lemma Emptied(id: SessionId)
    ensures {id} - {id} == {}
  {}

  lemma Marked1()
    ensures {} + {"c"} == {"c"}
  {}

  lemma WakeWritten()
    ensures var s := Alone(Up, {"c"}, [], map[KEY := 60], map[KEY := Waking({}, {1})]);
      && Enabled(s, WakeWrite(KEY, 1))
      && Apply(s, WakeWrite(KEY, 1)) == Alone(Up, {"c"}, [WakeFrame("c")], map[KEY := 60], map[KEY := Waking({}, {})])
  {
    assert [] + [WakeFrame("c")] == [WakeFrame("c")];
  }

  lemma WakeReturned()
    ensures var s := Alone(Up, {"c"}, [WakeFrame("c")], map[KEY := 60], map[KEY := Waking({}, {})]);
      && Enabled(s, WakeReturn(KEY))
      && Apply(s, WakeReturn(KEY)) == Alone(Up, {"c"}, [WakeFrame("c")], map[KEY := 60], map[KEY := Woken])
  {}

  /** Session 1 after session 2 has taken its place. */
  function Superseded(log2: seq<Frame>, pending: map<Key, int>, cancelled: map<Key, int>, script: Script): State {
    State(0, Shared(map[("d", App) := 2], pending, cancelled),
      map[1 := Conn("d", App, {"c"}, [WakeFrame("c")], Up), 2 := Conn("d", App, {}, log2, Connected)],
      map[KEY := script])
  }

  lemma Replaced()
    ensures var s := Alone(Up, {"c"}, [WakeFrame("c")], map[KEY := 60], map[KEY := Woken]);
      && Enabled(s, Attach(2, "d", App))
      && Apply(s, Attach(2, "d", App)) == Superseded([], map[KEY := 60], map[], Woken)
  {}

  lemma CancelLocked()
    ensures var s := Superseded([], map[KEY := 60], map[], Woken);
      && Enabled(s, CancelLock(KEY))
      && Apply(s, CancelLock(KEY)) ==
         Superseded([], map[], map[KEY := 60 + CANCEL_GRACE], Cancelling({2}, {2}))
  {
    hide Targets;
    var s := Superseded([], map[KEY := 60], map[], Woken);
    SoleTarget(s.sh, 2);
    assert map[KEY := 60] - {KEY} == map[];
  }

  lemma CancelWritten(cancelled: map<Key, int>)
    ensures var s := Superseded([], map[], cancelled, Cancelling({2}, {2}));
      && Enabled(s, CancelWrite(KEY, 2))
      && Apply(s, CancelWrite(KEY, 2)) == Superseded([CancelFrame("c")], map[], cancelled, Cancelling({}, {2}))
  {
    Emptied(2);
    assert [] + [CancelFrame("c")] == [CancelFrame("c")];
  }

  lemma CancelReturned(cancelled: map<Key, int>)
    ensures var s := Superseded([CancelFrame("c")], map[], cancelled, Cancelling({}, {2}));
      && Enabled(s, CancelReturn(KEY))
      && Apply(s, CancelReturn(KEY)) == Superseded([CancelFrame("c")], map[], cancelled, Cancelled({2}))
  {}

  /** A connected session of device "d" that has carried the wake of call "c". */
  lemma WokenRun() returns (es: seq<Step>)
    ensures Run(es) == Alone(Up, {"c"}, [WakeFrame("c")], map[KEY := 60], map[KEY := Woken])
  {
    var steps := [Attach(1, "d", App), ReadPending(1), ReadCancels(1), SessionUp(1)];
    assert Run([]) == INITIAL;
    hide Run, Enabled, Apply, Alone;
    Attached();
    Next([], INITIAL, steps[0], Alone(Connected, {}, [], map[], map[]));
    es := [] + [steps[0]];
    PendingRead();
    Next(es, Alone(Connected, {}, [], map[], map[]), steps[1], Alone(Wakes(0, {}, {}), {}, [], map[], map[]));
    es := es + [steps[1]];
    CancelsRead();
    Next(es, Alone(Wakes(0, {}, {}), {}, [], map[], map[]), steps[2], Alone(Cancels({}), {}, [], map[], map[]));
    es := es + [steps[2]];
    CameUp();
    Next(es, Alone(Cancels({}), {}, [], map[], map[]), steps[3], Alone(Up, {}, [], map[], map[]));
    es := WakenFrom(es + [steps[3]]);
  }

  lemma WakenFrom(before: seq<Step>) returns (es: seq<Step>)
    requires Run(before) == Alone(Up, {}, [], map[], map[])
    ensures Run(es) == Alone(Up, {"c"}, [WakeFrame("c")], map[KEY := 60], map[KEY := Woken])
  {
    hide Run, Enabled, Apply, Alone;
    var locked := Alone(Up, {}, [], map[KEY := 60], map[KEY := Waking({1}, {})]);
    var marked := Alone(Up, {"c"}, [], map[KEY := 60], map[KEY := Waking({}, {1})]);
    var written := Alone(Up, {"c"}, [WakeFrame("c")], map[KEY := 60], map[KEY := Waking({}, {})]);
    WakeLocked();
    Next(before, Alone(Up, {}, [], map[], map[]), WakeLock(KEY, 60), locked);
    es := before + [WakeLock(KEY, 60)];
    WakeMarked();
    Next(es, locked, WakeMark(KEY, 1), marked);
    es := es + [WakeMark(KEY, 1)];
    WakeWritten();
    Next(es, marked, WakeWrite(KEY, 1), written);
    es := es + [WakeWrite(KEY, 1)];
    WakeReturned();
    Next(es, written, WakeReturn(KEY), Alone(Up, {"c"}, [WakeFrame("c")], map[KEY := 60], map[KEY := Woken]));
    es := es + [WakeReturn(KEY)];
  }

  /** It is superseded, and then the cancel is issued and written. */
  lemma SupersededRun() returns (es: seq<Step>)
    ensures Run(es) == Superseded([CancelFrame("c")], map[], map[KEY := 60 + CANCEL_GRACE], Cancelled({2}))
  {
    hide Run, Enabled, Apply, Alone, Superseded;
    var remembered := map[KEY := 60 + CANCEL_GRACE];
    var replaced := Superseded([], map[KEY := 60], map[], Woken);
    var locked := Superseded([], map[], remembered, Cancelling({2}, {2}));
    var written := Superseded([CancelFrame("c")], map[], remembered, Cancelling({}, {2}));
    es := WokenRun();
    Replaced();
    Next(es, Alone(Up, {"c"}, [WakeFrame("c")], map[KEY := 60], map[KEY := Woken]), Attach(2, "d", App), replaced);
    es := es + [Attach(2, "d", App)];
    CancelLocked();
    Next(es, replaced, CancelLock(KEY), locked);
    es := es + [CancelLock(KEY)];
    CancelWritten(remembered);
    Next(es, locked, CancelWrite(KEY, 2), written);
    es := es + [CancelWrite(KEY, 2)];
    CancelReturned(remembered);
    Next(es, written, CancelReturn(KEY), Superseded([CancelFrame("c")], map[], remembered, Cancelled({2})));
    es := es + [CancelReturn(KEY)];
  }

  /** The exception is real: a session superseded between the wake and the cancel keeps its wake uncancelled. */
  lemma SupersededMissesCancel() returns (es: seq<Step>)
    ensures var s := Run(es);
      && 1 in s.conns && s.conns[1].phase.Up? && s.conns[1].device == "d" && ScriptOf(s, ("d", "c")).Cancelled?
      && WakeFrame("c") in s.conns[1].log && !CancelledLast(s.conns[1].log, "c")
  {
    es := SupersededRun();
  }
}
