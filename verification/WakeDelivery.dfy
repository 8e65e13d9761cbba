/** That wakes arrive: in every interleaving a wake reaches the sessions in the table at its lock and the
    sessions that connect while it is pending. */
module WakeDelivery {
  import opened Gateway
  import opened WakeProtocol

  /** The server's Wake has marked the call on this connection and not written it yet. */
  predicate WakeWriting(s: State, k: Key, id: SessionId) { ScriptOf(s, k).Waking? && id in ScriptOf(s, k).writing }

  /** The connection's own replay has. */
  predicate ReplayWriting(s: State, k: Key, id: SessionId) {
    id in s.conns && s.conns[id].phase.Wakes? && k.1 in s.conns[id].phase.writing
  }

  /** A call marked on a connection has been written, or whoever marked it is about to; each sender writes one
      wake at a time. */
  predicate CarryInv(s: State, k: Key, id: SessionId) {
    id in s.conns && s.conns[id].device == k.0 ==>
      var c := s.conns[id];
      && (k.1 in c.sent ==> WakeFrame(k.1) in c.log || ReplayWriting(s, k, id) || WakeWriting(s, k, id))
      && (ReplayWriting(s, k, id) ==> c.phase.writing == {k.1})
      && (WakeWriting(s, k, id) ==> ScriptOf(s, k).writing == {id})
  }

  lemma CarryHandlerStep(s: State, e: Step, k: Key, id: SessionId)
    requires ByHandler(e) && CarryInv(s, k, id) && TargetsInv(s, k, id) && Enabled(s, e)
    ensures CarryInv(Apply(s, e), k, id)
  {
    hide Targets, Live, Pruned;
  }

  lemma CarryServerStep(s: State, e: Step, k: Key, id: SessionId)
    requires !ByHandler(e) && CarryInv(s, k, id) && AllTargets(s) && Enabled(s, e)
    ensures CarryInv(Apply(s, e), k, id)
  {
    hide Targets;
    if e.WakeMark? || e.WakeWrite? { assert TargetsInv(s, e.k, e.id); }
  }

  lemma {:induction false} RunCarry(es: seq<Step>, k: Key, id: SessionId)
    ensures CarryInv(Run(es), k, id)
    decreases |es|
  {
    hide Enabled, Apply, AllTargets, Inv, CarryInv;
    if es != [] {
      var t, e := Run(es[..|es| - 1]), es[|es| - 1];
      RunCarry(es[..|es| - 1], k, id);
      if Enabled(t, e) {
        RunInv(es[..|es| - 1]);
        AllInvTargets(t);
        assert TargetsInv(t, k, id);
        if ByHandler(e) { CarryHandlerStep(t, e, k, id); } else { CarryServerStep(t, e, k, id); }
      }
    } else {
      NoneCarried(k, id);
    }
  }

  lemma NoneCarried(k: Key, id: SessionId)
    ensures CarryInv(INITIAL, k, id)
  {}

  /** A marked call is in the log unless it is being written right now. */
  lemma MarkedIsWritten(es: seq<Step>, k: Key, id: SessionId)
    requires var s := Run(es); id in s.conns && s.conns[id].device == k.0 && k.1 in s.conns[id].sent
    ensures var s := Run(es);
      WakeFrame(k.1) in s.conns[id].log <==> !ReplayWriting(s, k, id) && !WakeWriting(s, k, id)
  {
    var s := Run(es);
    RunCarry(es, k, id);
    RunInv(es);
    assert Inv(s, k, id);
    CountPositive(s.conns[id].log, WakeFrame(k.1));
  }

  // Who is owed a wake.

  /** The call is marked, or the connection's replay still has it to consider. */
  predicate InHand(s: State, k: Key, id: SessionId) {
    && id in s.conns && s.conns[id].device == k.0
    && (k.1 in s.conns[id].sent || (s.conns[id].phase.Wakes? && k.1 in s.conns[id].phase.todo))
  }

  /** The call is marked, or the server's Wake still has the connection to consider. */
  predicate Addressed(s: State, k: Key, id: SessionId) {
    && id in s.conns && s.conns[id].device == k.0
    && (k.1 in s.conns[id].sent || (ScriptOf(s, k).Waking? && id in ScriptOf(s, k).todo))
  }

  lemma InHandStep(s: State, e: Step, k: Key, id: SessionId)
    requires InHand(s, k, id) && Enabled(s, e)
    ensures InHand(Apply(s, e), k, id)
  {
    hide Targets, Live, Pruned;
  }

  lemma AddressedStep(s: State, e: Step, k: Key, id: SessionId)
    requires Addressed(s, k, id) && Enabled(s, e)
    ensures Addressed(Apply(s, e), k, id)
  {
    hide Targets, Live, Pruned;
  }

  lemma {:induction false} StaysOwed(es: seq<Step>, n: nat, k: Key, id: SessionId)
    requires n <= |es|
    ensures InHand(Run(es[..n]), k, id) ==> InHand(Run(es), k, id)
    ensures Addressed(Run(es[..n]), k, id) ==> Addressed(Run(es), k, id)
    decreases |es|
  {
    hide Enabled, Apply, InHand, Addressed;
    if n == |es| {
      assert es[..n] == es;
    } else {
      var m := |es| - 1;
      var t := Run(es[..m]);
      Prefixes(es, n);
      StaysOwed(es[..m], n, k, id);
      if Enabled(t, es[m]) {
        if InHand(t, k, id) { InHandStep(t, es[m], k, id); }
        if Addressed(t, k, id) { AddressedStep(t, es[m], k, id); }
      }
    }
  }

  /** In every interleaving, once a session's replay is over, a wake that was pending and unexpired when the
      replay read the wakes is in the session's log, unless the server's Wake is writing it right now. */
  lemma ReplayDelivers(es: seq<Step>, n: nat, k: Key, id: SessionId)
    requires n < |es| && es[n] == ReadPending(id) && Enabled(Run(es[..n]), es[n])
    requires var s := Run(es[..n]); s.conns[id].device == k.0 && k in s.sh.pending && s.sh.pending[k] > s.now
    requires id in Run(es).conns && HasRead(Run(es).conns[id])
    ensures WakeFrame(k.1) in Run(es).conns[id].log <==> !WakeWriting(Run(es), k, id)
  {
    hide CarryInv, WakeWriting;
    StepAt(es, n);
    assert InHand(Run(es[..n + 1]), k, id);
    StaysOwed(es, n + 1, k, id);
    MarkedIsWritten(es, k, id);
  }

  /** In every interleaving, once the server's Wake has returned, every session that was in the table for the
      device at its lock has the wake in its log, unless its own replay is writing it right now. */
  lemma WakeDelivers(es: seq<Step>, n: nat, k: Key, expires: int, id: SessionId)
    requires n < |es| && es[n] == WakeLock(k, expires) && Enabled(Run(es[..n]), es[n])
    requires IsTable(Run(es[..n]), id) && Run(es[..n]).conns[id].device == k.0
    requires !ScriptOf(Run(es), k).Waking?
    ensures id in Run(es).conns
    ensures WakeFrame(k.1) in Run(es).conns[id].log <==> !ReplayWriting(Run(es), k, id)
  {
    hide CarryInv, ReplayWriting, Targets;
    StepAt(es, n);
    RunInv(es[..n]);
    assert Inv(Run(es[..n]), k, id);
    AddressedIffInTable(Run(es[..n]), k, id);
    assert Addressed(Run(es[..n + 1]), k, id);
    StaysOwed(es, n + 1, k, id);
    MarkedIsWritten(es, k, id);
  }

  // The exception is real.

  /** The same session while call "c" is pending and its Wake at work. */
  function Ringing(phase: Phase, sent: set<Call>, todo: set<SessionId>, writing: set<SessionId>): State {
    Alone(phase, sent, [], map[KEY := 60], map[KEY := Waking(todo, writing)])
  }

  lemma LockedEarly()
    ensures var s := Alone(Connected, {}, [], map[], map[]);
      Enabled(s, WakeLock(KEY, 60)) && Apply(s, WakeLock(KEY, 60)) == Ringing(Connected, {}, {1}, {})
  {
    hide Targets;
    SoleTarget(Alone(Connected, {}, [], map[], map[]).sh, 1);
  }

  lemma ReadWhileRinging()
    ensures var s := Ringing(Connected, {}, {1}, {});
      Enabled(s, ReadPending(1)) && Apply(s, ReadPending(1)) == Ringing(Wakes(0, {"c"}, {}), {}, {1}, {})
  {
    assert Live(map[KEY := 60], "d", 0) == {"c"} && Pruned(map[KEY := 60], "d", 0) == map[KEY := 60];
  }

  lemma MarkedByWake()
    ensures var s := Ringing(Wakes(0, {"c"}, {}), {}, {1}, {});
      Enabled(s, WakeMark(KEY, 1)) && Apply(s, WakeMark(KEY, 1)) == Ringing(Wakes(0, {"c"}, {}), {"c"}, {}, {1})
  {
    Emptied(1);
    Marked1();
  }

  lemma PassedByReplay()
    ensures var s := Ringing(Wakes(0, {"c"}, {}), {"c"}, {}, {1});
      && Enabled(s, ReplayMark(1, "c"))
      && Apply(s, ReplayMark(1, "c")) == Ringing(Wakes(0, {}, {}), {"c"}, {}, {1})
  {
    assert {"c"} - {"c"} == {} && {"c"} + {"c"} == {"c"};
  }

  lemma UpWhileWriting()
    ensures var s := Ringing(Wakes(0, {}, {}), {"c"}, {}, {1});
      Enabled(s, ReadCancels(1)) && Apply(s, ReadCancels(1)) == Ringing(Cancels({}), {"c"}, {}, {1})
    ensures var s := Ringing(Cancels({}), {"c"}, {}, {1});
      Enabled(s, SessionUp(1)) && Apply(s, SessionUp(1)) == Ringing(Up, {"c"}, {}, {1})
  {
    NoEntries("d", 0);
    hide Live, Pruned;
  }

  /** A session that is up and has read a pending wake, with nothing in its log: the Wake marked the call before
      the replay could, and has not written it yet. */
  lemma UpBeforeWritten() returns (es: seq<Step>)
    ensures |es| > 2 && es[2] == ReadPending(1) && Enabled(Run(es[..2]), es[2])
    ensures var s := Run(es[..2]); KEY in s.sh.pending && s.sh.pending[KEY] > s.now
    ensures var s := Run(es);
      1 in s.conns && s.conns[1].phase.Up? && s.conns[1].log == [] && WakeWriting(s, KEY, 1)
  {
    hide Run, Enabled, Apply;
    assert Run([]) == INITIAL by { Begins(); }
    Attached();
    Next([], INITIAL, Attach(1, "d", App), Alone(Connected, {}, [], map[], map[]));
    LockedEarly();
    Next([] + [Attach(1, "d", App)], Alone(Connected, {}, [], map[], map[]), WakeLock(KEY, 60),
      Ringing(Connected, {}, {1}, {}));
    var two := [Attach(1, "d", App), WakeLock(KEY, 60)];
    assert [] + [Attach(1, "d", App)] + [WakeLock(KEY, 60)] == two;
    es := UpFrom(two);
    ReadWhileRinging();
  }

  lemma Begins()
    ensures Run([]) == INITIAL
  {}

  lemma UpFrom(two: seq<Step>) returns (es: seq<Step>)
    requires |two| == 2 && Run(two) == Ringing(Connected, {}, {1}, {})
    ensures |es| > 2 && es[..2] == two && es[2] == ReadPending(1) && Run(es) == Ringing(Up, {"c"}, {}, {1})
  {
    hide Run, Enabled, Apply, Ringing;
    ReadWhileRinging();
    Next(two, Ringing(Connected, {}, {1}, {}), ReadPending(1), Ringing(Wakes(0, {"c"}, {}), {}, {1}, {}));
    es := two + [ReadPending(1)];
    MarkedByWake();
    Next(es, Ringing(Wakes(0, {"c"}, {}), {}, {1}, {}), WakeMark(KEY, 1), Ringing(Wakes(0, {"c"}, {}), {"c"}, {}, {1}));
    es := es + [WakeMark(KEY, 1)];
    PassedByReplay();
    Next(es, Ringing(Wakes(0, {"c"}, {}), {"c"}, {}, {1}), ReplayMark(1, "c"),
      Ringing(Wakes(0, {}, {}), {"c"}, {}, {1}));
    es := es + [ReplayMark(1, "c")];
    UpWhileWriting();
    Next(es, Ringing(Wakes(0, {}, {}), {"c"}, {}, {1}), ReadCancels(1), Ringing(Cancels({}), {"c"}, {}, {1}));
    es := es + [ReadCancels(1)];
    Next(es, Ringing(Cancels({}), {"c"}, {}, {1}), SessionUp(1), Ringing(Up, {"c"}, {}, {1}));
    es := es + [SessionUp(1)];
  }

  // How long a wake is pending.

  /** A cancel, a forget, or an ack other than will-answer. */
  predicate Drops(e: Step, k: Key) {
    || e == CancelLock(k) || e == Forget(k) || e == Ack(k, Decline) || e == Ack(k, Busy)
  }

  predicate PendingUntil(s: State, k: Key, expires: int) { k in s.sh.pending && s.sh.pending[k] == expires }

  lemma PendingStep(s: State, e: Step, k: Key, expires: int)
    requires Enabled(s, e) && !ScriptOf(s, k).NotWoken?
    ensures !ScriptOf(Apply(s, e), k).NotWoken? && s.now <= Apply(s, e).now
    ensures Drops(e, k) ==> k !in Apply(s, e).sh.pending
    ensures k !in s.sh.pending ==> k !in Apply(s, e).sh.pending
    ensures !Drops(e, k) && PendingUntil(s, k, expires) && s.now < expires ==> PendingUntil(Apply(s, e), k, expires)
  {
    hide Targets, Live;
  }

  /** A step that was taken, from n on, dropped the wake. */
  ghost predicate Dropped(es: seq<Step>, n: nat, k: Key) {
    exists i :: n <= i < |es| && Drops(es[i], k) && Enabled(Run(es[..i]), es[i])
  }

  lemma {:induction false} StaysPending(es: seq<Step>, n: nat, k: Key, expires: int)
    requires n <= |es| && PendingUntil(Run(es[..n]), k, expires) && !ScriptOf(Run(es[..n]), k).NotWoken?
    ensures !ScriptOf(Run(es), k).NotWoken?
    ensures Dropped(es, n, k) ==> k !in Run(es).sh.pending
    ensures !Dropped(es, n, k) && Run(es).now < expires ==> PendingUntil(Run(es), k, expires)
    decreases |es|
  {
    hide Enabled, Apply, PendingUntil, Drops;
    if n == |es| {
      assert es[..n] == es;
    } else {
      var m := |es| - 1;
      var t := Run(es[..m]);
      Prefixes(es, n);
      StaysPending(es[..m], n, k, expires);
      DroppedLast(es, n, k);
      if Enabled(t, es[m]) { PendingStep(t, es[m], k, expires); }
    }
  }

  lemma DroppedLast(es: seq<Step>, n: nat, k: Key)
    requires n < |es|
    ensures var m := |es| - 1;
      Dropped(es, n, k) <==> Dropped(es[..m], n, k) || (Drops(es[m], k) && Enabled(Run(es[..m]), es[m]))
  {
    hide Enabled, Run, Drops;
    var m := |es| - 1;
    if i :| n <= i < m && Drops(es[..m][i], k) && Enabled(Run(es[..m][..i]), es[..m][i]) {
      assert es[..m][..i] == es[..i];
      assert n <= i < |es| && Drops(es[i], k) && Enabled(Run(es[..i]), es[i]);
    }
    if i :| n <= i < |es| && Drops(es[i], k) && Enabled(Run(es[..i]), es[i]) {
      if i < m { assert es[..m][..i] == es[..i] && es[..m][i] == es[i]; }
    }
  }

  /** In every interleaving, until it expires a wake is pending exactly as long as nothing has dropped it: no
      cancel, no forget, and no ack other than will-answer. */
  lemma PendingExactly(es: seq<Step>, n: nat, k: Key, expires: int)
    requires n < |es| && es[n] == WakeLock(k, expires) && Enabled(Run(es[..n]), es[n])
    requires Run(es).now < expires
    ensures k in Run(es).sh.pending <==> !Dropped(es, n + 1, k)
    ensures k in Run(es).sh.pending ==> Run(es).sh.pending[k] == expires
  {
    hide Targets, Dropped;
    StepAt(es, n);
    NowAdvances(es, n);
    StaysPending(es, n + 1, k, expires);
  }

  lemma {:induction false} NowAdvances(es: seq<Step>, n: nat)
    requires n <= |es|
    ensures Run(es[..n]).now <= Run(es).now
    decreases |es|
  {
    hide Enabled, Apply;
    if n == |es| {
      assert es[..n] == es;
    } else {
      var m := |es| - 1;
      Prefixes(es, n);
      NowAdvances(es[..m], n);
      if Enabled(Run(es[..m]), es[m]) { NowStep(Run(es[..m]), es[m]); }
    }
  }

  lemma NowStep(s: State, e: Step)
    requires Enabled(s, e)
    ensures s.now <= Apply(s, e).now
  {
    hide Targets, Live, Pruned;
  }

  /** A wake for a device that was offline rings it when it connects: a session that reads the pending wakes
      before the wake expires and before anything drops it has the wake in its log once its replay is over and
      the Wake has returned. */
  lemma LateSessionRings(es: seq<Step>, n: nat, m: nat, k: Key, expires: int, id: SessionId)
    requires n < m < |es| && es[n] == WakeLock(k, expires) && Enabled(Run(es[..n]), es[n])
    requires es[m] == ReadPending(id) && Enabled(Run(es[..m]), es[m])
    requires var s := Run(es[..m]); s.conns[id].device == k.0 && s.now < expires && !Dropped(es[..m], n + 1, k)
    requires id in Run(es).conns && HasRead(Run(es).conns[id]) && !ScriptOf(Run(es), k).Waking?
    ensures WakeFrame(k.1) in Run(es).conns[id].log
  {
    assert es[..m][..n] == es[..n];
    PendingExactly(es[..m], n, k, expires);
    ReplayDelivers(es, m, k, id);
  }

  // Who is in the table.

  /** What takes a session out of the table: its own end, or a new session of its device and kind. */
  predicate Unseats(e: Step, id: SessionId, d: Device, kind: Kind) {
    e == Step.Detach(id) || (e.Attach? && e.device == d && e.kind == kind)
  }

  /** A step that was taken, from n on, did. */
  ghost predicate Unseated(es: seq<Step>, n: nat, id: SessionId, d: Device, kind: Kind) {
    exists i :: n <= i < |es| && Unseats(es[i], id, d, kind) && Enabled(Run(es[..i]), es[i])
  }

  lemma UnseatedLast(es: seq<Step>, n: nat, id: SessionId, d: Device, kind: Kind)
    requires n < |es|
    ensures var m := |es| - 1;
      Unseated(es, n, id, d, kind) <==>
        Unseated(es[..m], n, id, d, kind) || (Unseats(es[m], id, d, kind) && Enabled(Run(es[..m]), es[m]))
  {
    hide Enabled, Run, Unseats;
    var m := |es| - 1;
    if i :| n <= i < m && Unseats(es[..m][i], id, d, kind) && Enabled(Run(es[..m][..i]), es[..m][i]) {
      assert es[..m][..i] == es[..i];
      assert n <= i < |es| && Unseats(es[i], id, d, kind) && Enabled(Run(es[..i]), es[i]);
    }
    if i :| n <= i < |es| && Unseats(es[i], id, d, kind) && Enabled(Run(es[..i]), es[i]) {
      if i < m { assert es[..m][..i] == es[..i] && es[..m][i] == es[i]; }
    }
  }

  predicate Is(s: State, id: SessionId, d: Device, kind: Kind) {
    id in s.conns && s.conns[id].device == d && s.conns[id].kind == kind
  }

  lemma TableHandlerStep(s: State, e: Step, id: SessionId, d: Device, kind: Kind)
    requires ByHandler(e) && Enabled(s, e) && Is(s, id, d, kind)
    ensures Is(Apply(s, e), id, d, kind)
    ensures IsTable(Apply(s, e), id) <==> IsTable(s, id) && !Unseats(e, id, d, kind)
  {
    hide Targets, Live, Pruned;
  }

  lemma TableServerStep(s: State, e: Step, id: SessionId, d: Device, kind: Kind)
    requires !ByHandler(e) && Enabled(s, e) && Is(s, id, d, kind)
    ensures Is(Apply(s, e), id, d, kind)
    ensures IsTable(Apply(s, e), id) <==> IsTable(s, id) && !Unseats(e, id, d, kind)
  {
    hide Targets, Live, Pruned;
  }

  lemma TableStep(s: State, e: Step, id: SessionId, d: Device, kind: Kind)
    requires Enabled(s, e) && Is(s, id, d, kind)
    ensures Is(Apply(s, e), id, d, kind)
    ensures IsTable(Apply(s, e), id) <==> IsTable(s, id) && !Unseats(e, id, d, kind)
  {
    hide Enabled, Apply, Is, IsTable, Unseats;
    if ByHandler(e) { TableHandlerStep(s, e, id, d, kind); } else { TableServerStep(s, e, id, d, kind); }
  }

  lemma {:induction false} StaysInTable(es: seq<Step>, n: nat, id: SessionId, d: Device, kind: Kind)
    requires n <= |es| && Is(Run(es[..n]), id, d, kind) && IsTable(Run(es[..n]), id)
    ensures Is(Run(es), id, d, kind) && (IsTable(Run(es), id) <==> !Unseated(es, n, id, d, kind))
    decreases |es|
  {
    hide Enabled, Apply, IsTable, Is, Unseats;
    if n == |es| {
      assert es[..n] == es;
    } else {
      var m := |es| - 1;
      Prefixes(es, n);
      StaysInTable(es[..m], n, id, d, kind);
      UnseatedLast(es, n, id, d, kind);
      if Enabled(Run(es[..m]), es[m]) { TableStep(Run(es[..m]), es[m], id, d, kind); }
    }
  }

  /** In every interleaving a session is in the table exactly from its attach until its own detach or the attach
      of another session of its device and kind. */
  lemma TableExactly(es: seq<Step>, n: nat, id: SessionId, d: Device, kind: Kind)
    requires n < |es| && es[n] == Attach(id, d, kind) && Enabled(Run(es[..n]), es[n])
    ensures IsTable(Run(es), id) <==> !Unseated(es, n + 1, id, d, kind)
  {
    hide Unseated;
    StepAt(es, n);
    StaysInTable(es, n + 1, id, d, kind);
  }

  // Nobody waits for anybody.

  /** A session that is not up can always take a step of its own, unless its replay of the wakes has taken longer
      than a cancel is remembered. */
  lemma HandlerCanMove(s: State, id: SessionId) returns (e: Step)
    requires id in s.conns && !s.conns[id].phase.Up?
    requires s.conns[id].phase.Wakes? ==> s.now < s.conns[id].phase.at + CANCEL_GRACE
    ensures ByHandler(e) && Enabled(s, e) && Apply(s, e).conns[id] != s.conns[id]
  {
    hide Targets, Live, Pruned;
    match s.conns[id].phase
    case Connected => e := ReadPending(id);
    case Wakes(_, todo, writing) =>
      if writing != {} {
        var call :| call in writing;
        e := ReplayWrite(id, call);
      } else if todo != {} {
        var call :| call in todo;
        e := ReplayMark(id, call);
      } else {
        e := ReadCancels(id);
      }
    case Cancels(todo) =>
      if todo != {} {
        var call :| call in todo;
        e := ReplayCancel(id, call);
      } else {
        e := SessionUp(id);
      }
  }

  /** In every interleaving a Wake or a CancelWake that has not returned can take a step. */
  lemma SenderCanMove(es: seq<Step>, k: Key) returns (e: Step)
    requires ScriptOf(Run(es), k).Waking? || ScriptOf(Run(es), k).Cancelling?
    ensures !ByHandler(e) && Enabled(Run(es), e) && ScriptOf(Apply(Run(es), e), k) != ScriptOf(Run(es), k)
  {
    var s := Run(es);
    var sc := ScriptOf(s, k);
    RunInv(es);
    AllInvTargets(s);
    hide Run, Inv, AllInv, Targets;
    match sc
    case Waking(todo, writing) =>
      if writing != {} {
        var id :| id in writing;
        assert TargetsInv(s, k, id);
        e := WakeWrite(k, id);
      } else if todo != {} {
        var id :| id in todo;
        assert TargetsInv(s, k, id);
        e := WakeMark(k, id);
      } else {
        e := WakeReturn(k);
      }
    case Cancelling(todo, _) =>
      if todo != {} {
        var id :| id in todo;
        assert TargetsInv(s, k, id);
        e := CancelWrite(k, id);
      } else {
        e := CancelReturn(k);
      }
  }
}
