/** The signal gateway's shared tables: sessions, pending wakes and remembered
    cancels.  Every method is one section under the gateway's lock, or one
    under a session's write lock; what is sent happens between them.

    The nested tables are keyed by pairs here; an inner table that becomes
    empty is not told apart from an absent one. */
module Gateway {
  type Device = string
  type Call = string
  type SessionId = nat
  type Key = (Device, Call)

  datatype Kind = App | Extension

  /** A cancel is remembered until its wake's expiry and this much longer, or for CANCEL_MEMORY when the wake
      was not pending (nanoseconds). */
  const CANCEL_GRACE: int := 30_000_000_000
  const CANCEL_MEMORY: int := 90_000_000_000

  datatype Frame = WakeFrame(call: Call) | CancelFrame(call: Call)

  datatype Shared = Shared(sessions: map<(Device, Kind), SessionId>, pending: map<Key, int>, cancelled: map<Key, int>)

  // The sections, as functions of the tables.

  /** Every session installed for a device. */
  function Targets(sh: Shared, d: Device): set<SessionId> {
    set kind | kind in {App, Extension} && (d, kind) in sh.sessions :: sh.sessions[(d, kind)]
  }

  function WakeSection(sh: Shared, k: Key, expires: int, now: int): Shared {
    sh.(cancelled := sh.cancelled - {k}, pending := if expires > now then sh.pending[k := expires] else sh.pending)
  }

  function CancelSection(sh: Shared, k: Key, now: int): Shared {
    var until := if k in sh.pending then sh.pending[k] + CANCEL_GRACE else now + CANCEL_MEMORY;
    sh.(pending := sh.pending - {k}, cancelled := sh.cancelled[k := until])
  }

  /** The device's entries that have not run out. */
  function Live(m: map<Key, int>, d: Device, now: int): set<Call> {
    set k | k in m && k.0 == d && m[k] > now :: k.1
  }

  /** The table without the device's entries that have run out. */
  function Pruned(m: map<Key, int>, d: Device, now: int): map<Key, int> {
    map k | k in m && !(k.0 == d && m[k] <= now) :: m[k]
  }

  function DropPending(sh: Shared, k: Key): Shared { sh.(pending := sh.pending - {k}) }

  function AttachSection(sh: Shared, d: Device, kind: Kind, id: SessionId): Shared {
    sh.(sessions := sh.sessions[(d, kind) := id])
  }

  function DetachSection(sh: Shared, d: Device, kind: Kind, id: SessionId): Shared {
    if (d, kind) in sh.sessions && sh.sessions[(d, kind)] == id then sh.(sessions := sh.sessions - {(d, kind)}) else sh
  }

  datatype Action = WillAnswer | Decline | Busy

  function AckSection(sh: Shared, k: Key, action: Action): Shared {
    if k in sh.pending && action != WillAnswer then DropPending(sh, k) else sh
  }

  /** The first half of sendWake under the session's write lock: the calls marked, and whether to write. */
  function MarkSection(sent: set<Call>, call: Call): (set<Call>, bool) { (sent + {call}, call !in sent) }

  function SendSection(log: seq<Frame>, f: Frame): seq<Frame> { log + [f] }

  // What a session that connects later reads.

  /** After a Wake the call's cancel is no longer read, and the call is until its expiry. */
  lemma WakeRead(sh: Shared, k: Key, expires: int, now: int, later: int, d: Device, call: Call)
    requires now <= later
    ensures var after := WakeSection(sh, k, expires, now);
      && (call in Live(after.cancelled, d, later) <==> (d, call) != k && call in Live(sh.cancelled, d, later))
      && (call in Live(after.pending, d, later) <==>
            if (d, call) == k && expires > now then later < expires else call in Live(sh.pending, d, later))
  {
    LiveIff(sh.cancelled, d, later, call);
    LiveIff(sh.pending, d, later, call);
    LiveIff(WakeSection(sh, k, expires, now).cancelled, d, later, call);
    LiveIff(WakeSection(sh, k, expires, now).pending, d, later, call);
  }

  /** After a CancelWake the call is no longer read, and its cancel is, until 30 seconds past the expiry of the
      wake, or for 90 seconds when no wake was pending. */
  lemma CancelRead(sh: Shared, k: Key, now: int, later: int, d: Device, call: Call)
    ensures var after := CancelSection(sh, k, now);
      && (call in Live(after.pending, d, later) <==> (d, call) != k && call in Live(sh.pending, d, later))
      && (call in Live(after.cancelled, d, later) <==>
            if (d, call) != k then call in Live(sh.cancelled, d, later)
            else later < if k in sh.pending then sh.pending[k] + 30_000_000_000 else now + 90_000_000_000)
  {
    LiveIff(sh.cancelled, d, later, call);
    LiveIff(sh.pending, d, later, call);
    LiveIff(CancelSection(sh, k, now).cancelled, d, later, call);
    LiveIff(CancelSection(sh, k, now).pending, d, later, call);
  }

  lemma LiveIff(m: map<Key, int>, d: Device, now: int, call: Call)
    ensures call in Live(m, d, now) <==> (d, call) in m && m[(d, call)] > now
  {}

  /** What is pruned would not have been read later. */
  lemma PrunedRead(m: map<Key, int>, d: Device, now: int, other: Device, later: int)
    requires now <= later
    ensures Live(Pruned(m, d, now), other, later) == Live(m, other, later)
    ensures forall k :: k in Pruned(m, d, now) && k.0 == d ==> m[k] > now
  {
    forall call ensures call in Live(Pruned(m, d, now), other, later) <==> call in Live(m, other, later) {
      LiveIff(m, other, later, call);
      LiveIff(Pruned(m, d, now), other, later, call);
    }
  }

  class Hub {
    var sessions: map<(Device, Kind), SessionId>
    var pending: map<Key, int>
    var cancelled: map<Key, int>

    ghost function Tables(): Shared
      reads this
    {
      Shared(sessions, pending, cancelled)
    }

    constructor ()
      ensures Tables() == Shared(map[], map[], map[])
    {
      sessions, pending, cancelled := map[], map[], map[];
    }

    method Snapshot(d: Device) returns (out: set<SessionId>)
      ensures out == Targets(Tables(), d)
    {
      out := {};
      if (d, App) in sessions { out := out + {sessions[(d, App)]}; }
      if (d, Extension) in sessions { out := out + {sessions[(d, Extension)]}; }
    }

    /** Wake, up to the unlock. */
    method Wake(d: Device, call: Call, expires: int, now: int) returns (targets: set<SessionId>)
      modifies this
      ensures Tables() == WakeSection(old(Tables()), (d, call), expires, now)
      ensures targets == Targets(Tables(), d)
    {
      cancelled := cancelled - {(d, call)};
      if expires > now {
        pending := pending[(d, call) := expires];
      }
      targets := Snapshot(d);
    }

    /** CancelWake, up to the unlock. */
    method CancelWake(d: Device, call: Call, now: int) returns (targets: set<SessionId>)
      modifies this
      ensures Tables() == CancelSection(old(Tables()), (d, call), now)
      ensures targets == Targets(Tables(), d)
    {
      var until := now + CANCEL_MEMORY;
      if (d, call) in pending {
        until := pending[(d, call)] + CANCEL_GRACE;
      }
      pending := pending - {(d, call)};
      cancelled := cancelled[(d, call) := until];
      targets := Snapshot(d);
    }

    method ForgetWake(d: Device, call: Call)
      modifies this
      ensures Tables() == DropPending(old(Tables()), (d, call))
    {
      pending := pending - {(d, call)};
    }

    method Attach(d: Device, kind: Kind, id: SessionId)
      modifies this
      ensures Tables() == AttachSection(old(Tables()), d, kind, id)
    {
      sessions := sessions[(d, kind) := id];
    }

    method Detach(d: Device, kind: Kind, id: SessionId)
      modifies this
      ensures Tables() == DetachSection(old(Tables()), d, kind, id)
    {
      if (d, kind) !in sessions || sessions[(d, kind)] != id {
        return;
      }
      sessions := sessions - {(d, kind)};
    }

    method HandleAck(d: Device, call: Call, action: Action) returns (known: bool)
      modifies this
      ensures known == ((d, call) in old(pending))
      ensures Tables() == AckSection(old(Tables()), (d, call), action)
    {
      known := (d, call) in pending;
      if known && action != WillAnswer {
        pending := pending - {(d, call)};
      }
    }

    /** The device's live entries of a table, in any order, and the table without the ones that ran out. */
    method Sweep(m: map<Key, int>, d: Device, now: int) returns (live: set<Call>, kept: map<Key, int>)
      ensures live == Live(m, d, now) && kept == Pruned(m, d, now)
    {
      live, kept := {}, m;
      var todo := m.Keys;
      while todo != {}
        invariant todo <= m.Keys && kept.Keys <= m.Keys
        invariant forall k :: k in kept ==> kept[k] == m[k]
        invariant forall k :: k in m ==> (k in kept <==> k in todo || !(k.0 == d && m[k] <= now))
        invariant live == set k | k in m.Keys - todo && k.0 == d && m[k] > now :: k.1
        decreases |todo|
      {
        var k :| k in todo;
        assert m.Keys - (todo - {k}) == (m.Keys - todo) + {k};
        todo := todo - {k};
        if k.0 == d {
          if m[k] <= now {
            kept := kept - {k};
          } else {
            live := live + {k.1};
          }
        }
      }
      assert kept == Pruned(m, d, now);
    }

    method PendingFor(d: Device, now: int) returns (out: set<Call>)
      modifies this
      ensures out == Live(old(pending), d, now)
      ensures Tables() == old(Tables()).(pending := Pruned(old(pending), d, now))
    {
      out, pending := Sweep(pending, d, now);
    }

    method CancelsFor(d: Device, now: int) returns (out: set<Call>)
      modifies this
      ensures out == Live(old(cancelled), d, now)
      ensures Tables() == old(Tables()).(cancelled := Pruned(old(cancelled), d, now))
    {
      out, cancelled := Sweep(cancelled, d, now);
    }
  }

  /** One connection: what has been handed to it, and the calls whose wake it has carried. */
  class Session {
    var sentWakes: set<Call>
    var log: seq<Frame>

    constructor ()
      ensures sentWakes == {} && log == []
    {
      sentWakes, log := {}, [];
    }

    /** The first half of sendWake: whether this connection still has to carry the wake. */
    method MarkWake(call: Call) returns (write: bool)
      modifies `sentWakes
      ensures (sentWakes, write) == MarkSection(old(sentWakes), call)
    {
      write := call !in sentWakes;
      sentWakes := sentWakes + {call};
    }

    method Send(f: Frame)
      modifies `log
      ensures log == SendSection(old(log), f)
    {
      log := log + [f];
    }
  }
}
