/** Licence seats: a queue of enrolled devices, the first `seats` of which are
    licensed, kept over every write of the device store.

    Device ids are numbers, compared where the source compares strings; times
    are numbers, zero standing for the zero time. */
module Seats {
  import opened Common

  type DeviceId = nat

  const NO_SEAT_LIMIT: int := -1

  /** A stored device; an empty token or code means there is none. */
  datatype Record = Record(
    user: string, token: string, issuedAt: nat, revoked: bool, seatSince: nat, code: string, codeExpires: nat)

  type Devices = map<DeviceId, Record>

  datatype Error = Invalid | Immutable | UserTaken | NoSeats | BadCode | NoChange | Store

  /** What a mutation leaves of the records, and why it gave up, if it did. */
  datatype Mutation = Done(devices: Devices) | Failed(partial: Devices, error: Error)

  datatype SeatChange = SeatChange(gained: set<DeviceId>, lost: set<DeviceId>)

  predicate HoldsSeat(r: Record) { r.token != "" && !r.revoked }

  /** The record's place in the queue. */
  function Since(r: Record): nat { if r.seatSince == 0 then r.issuedAt else r.seatSince }

  function Holders(ds: Devices): set<DeviceId> { set id | id in ds && HoldsSeat(ds[id]) }

  /** Ranked by since, then by id. */
  predicate Before(ds: Devices, a: DeviceId, b: DeviceId)
    requires a in ds && b in ds
  {
    Since(ds[a]) < Since(ds[b]) || (Since(ds[a]) == Since(ds[b]) && a < b)
  }

  /** The holders ranked before a device. */
  function Ahead(ds: Devices, id: DeviceId): set<DeviceId>
    requires id in ds
  {
    set h | h in Holders(ds) && Before(ds, h, id)
  }

  /** The holders ranked at or beyond the seat count. */
  function Unlicensed(ds: Devices, seats: int): set<DeviceId> {
    if seats == NO_SEAT_LIMIT then {} else set id | id in Holders(ds) && |Ahead(ds, id)| >= seats
  }

  function Licensed(ds: Devices, seats: int): set<DeviceId> { Holders(ds) - Unlicensed(ds, seats) }

  /** Every holder has a recorded place in the queue. */
  predicate Placed(ds: Devices) { forall id :: id in ds && HoldsSeat(ds[id]) ==> ds[id].seatSince != 0 }

  /** What listening to every announcement gives. */
  function Replay(start: set<DeviceId>, log: seq<SeatChange>): set<DeviceId>
    decreases |log|
  {
    if log == [] then start
    else Replay(start, log[..|log| - 1]) + log[|log| - 1].gained - log[|log| - 1].lost
  }

  // Ranking.

  ghost predicate Ranked(ds: Devices, s: seq<DeviceId>) {
    && (forall i :: 0 <= i < |s| ==> s[i] in ds)
    && forall i, j :: 0 <= i < j < |s| ==> Before(ds, s[i], s[j])
  }

  ghost predicate Has(s: seq<DeviceId>, ids: set<DeviceId>) {
    (forall i :: 0 <= i < |s| ==> s[i] in ids) && forall id :: id in ids ==> id in s
  }

  lemma {:induction false} ElementCount(ds: Devices, s: seq<DeviceId>)
    requires Ranked(ds, s)
    ensures |Elements(s)| == |s|
    decreases |s|
  {
    if s != [] {
      var k := |s| - 1;
      ElementCount(ds, s[..k]);
      assert s[k] !in Elements(s[..k]);
      assert Elements(s) == Elements(s[..k]) + {s[k]};
    }
  }

  /** In the sorted queue a holder's index is the number of holders ahead of it. */
  lemma RankIsIndex(ds: Devices, s: seq<DeviceId>, i: nat)
    requires Ranked(ds, s) && Has(s, Holders(ds)) && i < |s|
    ensures |Ahead(ds, s[i])| == i
  {
    forall h: DeviceId ensures h in Ahead(ds, s[i]) <==> h in Elements(s[..i]) {
      if h in Ahead(ds, s[i]) {
        var j :| 0 <= j < |s| && s[j] == h;
        assert j < i;
        assert s[..i][j] == h;
      }
      if h in s[..i] {
        var j :| 0 <= j < i && s[j] == h;
        assert Before(ds, s[j], s[i]);
      }
    }
    assert Ahead(ds, s[i]) == Elements(s[..i]);
    ElementCount(ds, s[..i]);
  }

  /** Who is licensed, told from the records: a device with a credential that is not revoked, ahead of which
      fewer such devices stand than there are seats; they stand by the time of their place, or of their
      credential when no place is recorded, and then by id. */
  lemma LicensedIff(ds: Devices, seats: int, id: DeviceId)
    requires seats >= NO_SEAT_LIMIT
    ensures id in Licensed(ds, seats) <==>
      && id in ds && ds[id].token != "" && !ds[id].revoked
      && var at := if ds[id].seatSince != 0 then ds[id].seatSince else ds[id].issuedAt;
        var ahead := set h | h in ds && ds[h].token != "" && !ds[h].revoked &&
          var since := if ds[h].seatSince != 0 then ds[h].seatSince else ds[h].issuedAt;
          since < at || (since == at && h < id);
        seats < 0 || |ahead| < seats
  {
    if id in Holders(ds) {
      var at := if ds[id].seatSince != 0 then ds[id].seatSince else ds[id].issuedAt;
      assert Ahead(ds, id) == set h | h in ds && ds[h].token != "" && !ds[h].revoked &&
        var since := if ds[h].seatSince != 0 then ds[h].seatSince else ds[h].issuedAt;
        since < at || (since == at && h < id);
    }
  }

  /** Some holders in the order of the queue. */
  lemma {:induction false} Enlisted(ds: Devices, ids: set<DeviceId>) returns (queue: seq<DeviceId>)
    requires ids <= ds.Keys
    ensures Ranked(ds, queue) && Has(queue, ids)
    decreases |ids|
  {
    hide Before, Ranked, Has;
    if ids == {} {
      queue := [];
      NothingRanked(ds);
    } else {
      var id :| id in ids;
      var rest := Enlisted(ds, ids - {id});
      AmongThem(rest, ids - {id});
      AllKnown(ds, rest);
      var k := PlaceOf(ds, rest, id, |rest|);
      queue := rest[..k] + [id] + rest[k..];
      InsertedRanked(ds, rest, id, k, queue);
      InsertedHas(rest, ids - {id}, id, k, queue);
      assert ids - {id} + {id} == ids;
    }
  }

  lemma {:induction false} PlaceOf(ds: Devices, s: seq<DeviceId>, id: DeviceId, n: nat) returns (k: nat)
    requires n <= |s| && id in ds && (forall i :: 0 <= i < |s| ==> s[i] in ds)
    requires forall i :: n <= i < |s| ==> Before(ds, id, s[i])
    ensures k <= |s| && (forall i :: k <= i < |s| ==> Before(ds, id, s[i])) && (k > 0 ==> !Before(ds, id, s[k - 1]))
    decreases n
  {
    hide Before;
    if n > 0 && Before(ds, id, s[n - 1]) { k := PlaceOf(ds, s, id, n - 1); } else { k := n; }
  }

  /** Exactly as many are licensed as there are seats, or all the holders when they are fewer. */
  lemma LicensedCount(ds: Devices, seats: int)
    requires seats >= NO_SEAT_LIMIT
    ensures |Licensed(ds, seats)| == if seats == NO_SEAT_LIMIT then |Holders(ds)| else Least(seats, |Holders(ds)|)
  {
    if seats == NO_SEAT_LIMIT {
      assert Licensed(ds, seats) == Holders(ds);
    } else {
      var queue := Enlisted(ds, Holders(ds));
      QueueSize(ds, queue);
      var m := Least(seats, |queue|);
      FirstOnes(ds, seats, queue, m);
      ElementCount(ds, queue[..m]);
    }
  }

  lemma FirstOnes(ds: Devices, seats: nat, queue: seq<DeviceId>, m: nat)
    requires Ranked(ds, queue) && Has(queue, Holders(ds)) && m == Least(seats, |queue|)
    ensures Licensed(ds, seats) == Elements(queue[..m])
  {
    hide Ranked;
    forall id: DeviceId ensures id in Licensed(ds, seats) <==> id in Elements(queue[..m]) {
      if id in queue {
        var j :| 0 <= j < |queue| && queue[j] == id;
        RankIsIndex(ds, queue, j);
        if j < m { assert queue[..m][j] == id; }
        if id in queue[..m] {
          var i :| 0 <= i < m && queue[i] == id;
          RankIsIndex(ds, queue, i);
        }
      }
    }
  }

  // How a change of the records moves the line.

  /** With no more holders than seats everybody is licensed. */
  lemma RoomForAll(ds: Devices, seats: int)
    requires seats >= 0 ==> |Holders(ds)| <= seats
    requires seats >= NO_SEAT_LIMIT
    ensures Unlicensed(ds, seats) == {}
  {
    if seats != NO_SEAT_LIMIT {
      forall id | id in Holders(ds) ensures |Ahead(ds, id)| < seats {
        assert id !in Ahead(ds, id);
        SubsetSize(Ahead(ds, id) + {id}, Holders(ds));
      }
    }
  }

  /** When nobody's place changes, except that some leave, nobody who stays loses a licence. */
  lemma LeavingHelps(ds: Devices, ds': Devices, seats: int, id: DeviceId)
    requires Holders(ds') <= Holders(ds) && forall h :: h in Holders(ds') ==> Since(ds'[h]) == Since(ds[h])
    requires id in Holders(ds') && id !in Unlicensed(ds, seats)
    ensures id !in Unlicensed(ds', seats)
  {
    forall h | h in Ahead(ds', id) ensures h in Ahead(ds, id) {}
    SubsetSize(Ahead(ds', id), Ahead(ds, id));
  }

  /** When the holders and their places are the same, so is everybody's standing. */
  lemma SamePlaces(ds: Devices, ds': Devices, seats: int)
    requires Holders(ds') == Holders(ds) && forall h :: h in Holders(ds) ==> Since(ds'[h]) == Since(ds[h])
    ensures Unlicensed(ds', seats) == Unlicensed(ds, seats)
  {
    forall id | id in Holders(ds) ensures Ahead(ds', id) == Ahead(ds, id) {
      forall h ensures h in Ahead(ds', id) <==> h in Ahead(ds, id) {}
    }
  }

  /** Raising the count, or lifting the limit, suspends nobody. */
  lemma RaisingHelps(ds: Devices, n: int, m: int)
    requires n >= 0 && (m >= n || m == NO_SEAT_LIMIT)
    ensures Unlicensed(ds, m) <= Unlicensed(ds, n)
  {}

  class DeviceStore {
    var devices: Devices
    var seats: int
    var used: nat
    var unlicensed: set<DeviceId>
    /** The announcements made so far, and the licensed set when listening began. */
    ghost var announced: seq<SeatChange>
    ghost const start: set<DeviceId>

    ghost predicate Valid()
      reads this
    {
      && seats >= NO_SEAT_LIMIT
      && used == |Holders(devices)| && unlicensed == Unlicensed(devices, seats)
      && Replay(start, announced) == Licensed(devices, seats)
    }

    /** Open: a holder without a place gets the time it was issued, if it has one. */
    constructor (loaded: Devices)
      ensures Placed(devices) <==> forall id :: id in loaded && HoldsSeat(loaded[id]) ==> Since(loaded[id]) != 0
      ensures Valid() && seats == NO_SEAT_LIMIT && announced == []
      ensures Holders(devices) == Holders(loaded) == start && devices.Keys == loaded.Keys
      ensures forall id :: id in loaded ==> Since(devices[id]) == Since(loaded[id])
    {
      start := Holders(loaded);
      seats := NO_SEAT_LIMIT;
      announced := [];
      used, unlicensed := 0, {};
      devices := loaded;
      new;
      devices := FixUp(loaded);
      FixedHolders(loaded, devices);
      RecomputeSeats();
    }

    /** recomputeSeatsLocked: gather the holders, sort them, and suspend those beyond the count. */
    method RecomputeSeats()
      requires seats >= NO_SEAT_LIMIT
      modifies `used, `unlicensed
      ensures used == |Holders(devices)| && unlicensed == Unlicensed(devices, seats)
    {
      hide Ranked, Has, Unlicensed, Holders;
      var queue := Queue(devices);
      used := |queue|;
      QueueSize(devices, queue);
      unlicensed := {};
      if seats == NO_SEAT_LIMIT {
        NoLimit(devices);
        return;
      }
      var i: int := seats;
      while i < |queue|
        invariant seats <= i && (i <= |queue| || i == seats)
        invariant used == |queue| && unlicensed == set j | seats <= j < i && j < |queue| :: queue[j]
      {
        unlicensed := unlicensed + {queue[i]};
        i := i + 1;
      }
      BeyondCount(devices, queue, seats, unlicensed);
    }

    ghost predicate Same(ds: Devices, n: int, u: nat, un: set<DeviceId>, log: seq<SeatChange>)
      reads this
    {
      devices == ds && seats == n && used == u && unlicensed == un && announced == log
    }

    /** seatDiffLocked and the announcement: nothing is announced when no device crossed the line. */
    method Announce(prev: set<DeviceId>)
      requires unlicensed == Unlicensed(devices, seats) && Replay(start, announced) == prev
      modifies `announced
      ensures Replay(start, announced) == Licensed(devices, seats)
      ensures announced == if Licensed(devices, seats) == prev then old(announced)
        else old(announced) + [SeatChange(Licensed(devices, seats) - prev, prev - Licensed(devices, seats))]
    {
      var licensed := set id | id in devices && HoldsSeat(devices[id]) && id !in unlicensed;
      assert licensed == Licensed(devices, seats);
      var gained, lost := licensed - prev, prev - licensed;
      if gained == {} && lost == {} {
        SameSets(licensed, prev);
        return;
      }
      ghost var change := SeatChange(gained, lost);
      ReplayNext(start, announced, change);
      assert prev + gained - lost == licensed;
      announced := announced + [change];
    }

    /** commitLocked and the announcement: mutate, recompute, persist; on any failure everything is as before. */
    method Commit(m: Mutation, saved: bool) returns (err: Option<Error>)
      requires Valid()
      modifies this
      ensures Valid() && seats == old(seats)
      ensures err == if m.Failed? then Some(m.error) else if !saved then Some(Store) else None
      ensures err.Some? ==> Same(old(devices), old(seats), old(used), old(unlicensed), old(announced))
      ensures err.None? ==> devices == m.devices && announced == Announced(old(announced), old(devices), devices, seats)
    {
      hide Unlicensed, Holders, HoldsSeat;
      var backup := devices;
      var prevUnlicensed, prevUsed := unlicensed, used;
      ghost var prev := Licensed(devices, seats);
      var prevLicensed := LicensedNow();
      if m.Failed? {
        devices := m.partial;
        devices := backup;
        return Some(m.error);
      }
      devices := m.devices;
      RecomputeSeats();
      if !saved {
        devices, unlicensed, used := backup, prevUnlicensed, prevUsed;
        return Some(Store);
      }
      Announce(prevLicensed);
      return None;
    }

    /** licensedSetLocked. */
    method LicensedNow() returns (out: set<DeviceId>)
      requires unlicensed == Unlicensed(devices, seats)
      ensures out == Licensed(devices, seats)
    {
      out := set id | id in devices && HoldsSeat(devices[id]) && id !in unlicensed;
    }

    /** freeSeatLocked. */
    predicate FreeSeat()
      reads this
    {
      seats == NO_SEAT_LIMIT || used < seats
    }

    /** IssueToken: a fresh credential for a device, creating it if need be. */
    method IssueToken(id: DeviceId, user: string, token: string, now: nat, saved: bool) returns (err: Option<Error>)
      requires Valid() && token != "" && now != 0
      modifies this
      ensures Valid() && seats == old(seats)
      ensures err.None? <==> MayIssue(old(devices), id, user, old(FreeSeat())) && saved
      ensures err == Some(Store) <==> MayIssue(old(devices), id, user, old(FreeSeat())) && !saved
      ensures err == Some(NoSeats) <==>
        user != "" && OwnsUser(old(devices), id, user) && NeedsSeat(old(devices), id) && !old(FreeSeat())
      ensures err == Some(Invalid) <==> user == ""
      ensures err == Some(Immutable) <==> user != "" && id in old(devices) && old(devices)[id].user != user
      ensures err == Some(UserTaken) <==> user != "" && id !in old(devices) && !OwnsUser(old(devices), id, user)
      ensures err.Some? ==> Same(old(devices), old(seats), old(used), old(unlicensed), old(announced))
      ensures err.None? ==> Issued(old(devices), id, user, token, now, old(FreeSeat()), devices)
      ensures err.None? ==> announced == Announced(old(announced), old(devices), devices, seats)
      ensures old(Placed(devices)) ==> Placed(devices)
      ensures err.None? && OnTime(old(devices), id, now) ==> OthersKept(old(devices), devices, seats, id)
      ensures err.None? && KeepsPlace(old(devices), id) ==> Licensed(devices, seats) == Licensed(old(devices), seats)
    {
      if user == "" { return Some(Invalid); }
      var m := Issue(devices, id, user, token, now, FreeSeat());
      if m.Done? { IssueStable(devices, id, user, token, now, m.devices, seats); }
      err := Commit(m, saved);
    }

    /** Claim: trades an enrolment code for a fresh credential; the order in which the records are compared is
        left open. */
    method Claim(code: string, token: string, now: nat, saved: bool) returns (err: Option<Error>, id: DeviceId)
      requires Valid() && code != "" && token != "" && now != 0
      modifies this
      ensures Valid() && seats == old(seats)
      ensures err == Some(BadCode) <==> forall d :: d in old(devices) ==> !Claimable(old(devices), code, now, d)
      ensures err != Some(BadCode) ==> Claimable(old(devices), code, now, id)
      ensures err.None? <==>
        Claimable(old(devices), code, now, id) && (HoldsSeat(old(devices)[id]) || old(FreeSeat())) && saved
      ensures err == Some(NoSeats) <==>
        Claimable(old(devices), code, now, id) && !HoldsSeat(old(devices)[id]) && !old(FreeSeat())
      ensures err == Some(Store) <==>
        Claimable(old(devices), code, now, id) && (HoldsSeat(old(devices)[id]) || old(FreeSeat())) && !saved
      ensures err.Some? ==> Same(old(devices), old(seats), old(used), old(unlicensed), old(announced))
      ensures err.None? ==> devices == ClaimedBy(old(devices), id, token, now)
      ensures err.None? ==> announced == Announced(old(announced), old(devices), devices, seats)
      ensures old(Placed(devices)) ==> Placed(devices)
      ensures err.None? && OnTime(old(devices), id, now) ==> OthersKept(old(devices), devices, seats, id)
      ensures err.None? && HoldsSeat(old(devices)[id]) && old(devices)[id].seatSince != 0 ==>
        Licensed(devices, seats) == Licensed(old(devices), seats)
    {
      hide Unlicensed, Holders, HoldsSeat, Placed, OnTime, KeepsPlace, OthersKept, Licensed;
      id := 0;
      var found := false;
      var todo := devices.Keys;
      while todo != {}
        invariant todo <= devices.Keys
        invariant Valid() && Same(old(devices), old(seats), old(used), old(unlicensed), old(announced))
        invariant found ==> Claimable(devices, code, now, id)
        invariant !found ==> forall d :: d in devices && d !in todo ==> !Claimable(devices, code, now, d)
        decreases |todo|
      {
        var d :| d in todo;
        todo := todo - {d};
        if devices[d].code == "" { continue; }
        if devices[d].code == code && now < devices[d].codeExpires {
          id, found := d, true;
        }
      }
      if !found { return Some(BadCode), id; }
      var m :=
        if !HoldsSeat(devices[id]) && !FreeSeat() then Failed(devices, NoSeats)
        else Done(ClaimedBy(devices, id, token, now));
      if Placed(devices) { ClaimPlaced(devices, id, token, now); }
      if m.Done? { ClaimStable(devices, id, token, now, seats); }
      err := Commit(m, saved);
    }

    method Revoke(id: DeviceId, saved: bool) returns (found: bool, err: Option<Error>)
      requires Valid()
      modifies this
      ensures Valid() && seats == old(seats) && found == (id in old(devices))
      ensures err == if saved || (id in old(devices) && old(devices)[id].revoked) then None else Some(Store)
      ensures err.Some? ==> Same(old(devices), old(seats), old(used), old(unlicensed), old(announced))
      ensures err.None? ==>
        devices == Revoked(old(devices), id) && announced == Announced(old(announced), old(devices), devices, seats)
      ensures err.None? ==> OthersKept(old(devices), devices, seats, id)
      ensures old(Placed(devices)) ==> Placed(devices)
    {
      found := id in devices;
      if Placed(devices) { RevokedPlaced(devices, id); }
      RevokeStable(devices, id, seats);
      if found && devices[id].revoked {
        // Nothing to write: the commit is given up, and that is no error.
        err := Commit(Failed(devices, NoChange), saved);
        return found, None;
      }
      err := Commit(Done(Revoked(devices, id)), saved);
    }

    method Purge(id: DeviceId, saved: bool) returns (found: bool, err: Option<Error>)
      requires Valid()
      modifies this
      ensures Valid() && seats == old(seats) && found == (id in old(devices))
      ensures err == if saved then None else Some(Store)
      ensures err.Some? ==> Same(old(devices), old(seats), old(used), old(unlicensed), old(announced))
      ensures err.None? ==>
        devices == old(devices) - {id} && announced == Announced(old(announced), old(devices), devices, seats)
      ensures err.None? ==> OthersKept(old(devices), devices, seats, id)
      ensures old(Placed(devices)) ==> Placed(devices)
    {
      found := id in devices;
      PurgeStable(devices, id, seats);
      err := Commit(Done(devices - {id}), saved);
    }

    method SetSeats(n0: int)
      requires Valid()
      modifies this
      ensures Valid() && devices == old(devices) && seats == (if n0 < 0 then NO_SEAT_LIMIT else n0)
      ensures old(seats) >= 0 && (seats >= old(seats) || seats == NO_SEAT_LIMIT) ==>
        Licensed(devices, old(seats)) <= Licensed(devices, seats)
      ensures announced == if Licensed(devices, seats) == Licensed(devices, old(seats)) then old(announced)
        else old(announced) + [Difference(Licensed(devices, old(seats)), Licensed(devices, seats))]
    {
      hide Unlicensed, Holders, HoldsSeat;
      var n := if n0 < 0 then NO_SEAT_LIMIT else n0;
      if n == seats {
        return;
      }
      var prev := LicensedNow();
      if seats >= 0 && (n >= seats || n == NO_SEAT_LIMIT) { RaisingHelps(devices, seats, n); }
      seats := n;
      RecomputeSeats();
      Announce(prev);
    }
  }

  // The mutations.

  /** What IssueToken's mutation does. */
  function Issue(ds: Devices, id: DeviceId, user: string, token: string, now: nat, free: bool): Mutation {
    if id in ds && ds[id].user != user then Failed(ds, Immutable)
    else if id !in ds && exists other :: other in ds && ds[other].user == user then Failed(ds, UserTaken)
    else
      var r := if id in ds then ds[id] else Record(user, "", now, false, 0, "", 0);
      var enters := !(id in ds && HoldsSeat(ds[id])) && !r.revoked;
      if enters && !free then Failed(ds[id := r], NoSeats)
      else Done(ds[id := r.(token := token, issuedAt := now, seatSince := if enters then now else r.seatSince)])
  }

  /** The user name is the device's own, or free for a new device. */
  predicate OwnsUser(ds: Devices, id: DeviceId, user: string) {
    if id in ds then ds[id].user == user else forall other :: other in ds ==> ds[other].user != user
  }

  /** A credential would make the device a new seat holder. */
  predicate NeedsSeat(ds: Devices, id: DeviceId) { id !in ds || (!HoldsSeat(ds[id]) && !ds[id].revoked) }

  /** When a credential is issued, if it can be saved. */
  predicate MayIssue(ds: Devices, id: DeviceId, user: string, free: bool) {
    user != "" && OwnsUser(ds, id, user) && (NeedsSeat(ds, id) ==> free)
  }

  ghost predicate Issued(ds: Devices, id: DeviceId, user: string, token: string, now: nat, free: bool, ds': Devices) {
    && ds'.Keys == ds.Keys + {id} && ds' == ds[id := ds'[id]] && ds'[id].token == token && ds'[id].user == user
    && (if id in ds then ds'[id].revoked == ds[id].revoked else !ds'[id].revoked)
    && (if id in ds && (HoldsSeat(ds[id]) || ds[id].revoked) then ds'[id].seatSince == ds[id].seatSince
      else ds'[id].seatSince == now && free)
  }

  predicate Claimable(ds: Devices, code: string, now: nat, id: DeviceId) {
    id in ds && ds[id].code != "" && ds[id].code == code && now < ds[id].codeExpires
  }

  /** The device with the code spent, a fresh token and, if it held none, a new place in the queue. */
  function ClaimedBy(ds: Devices, id: DeviceId, token: string, now: nat): Devices
    requires id in ds
  {
    var r := ds[id];
    ds[id := Record(r.user, token, now, false, if HoldsSeat(r) then r.seatSince else now, "", 0)]
  }

  function Revoked(ds: Devices, id: DeviceId): Devices {
    if id in ds && !ds[id].revoked then ds[id := ds[id].(revoked := true, seatSince := 0)] else ds
  }

  lemma ClaimPlaced(ds: Devices, id: DeviceId, token: string, now: nat)
    requires Placed(ds) && id in ds && now != 0
    ensures Placed(ClaimedBy(ds, id, token, now))
  {}

  lemma RevokedPlaced(ds: Devices, id: DeviceId)
    requires Placed(ds)
    ensures Placed(Revoked(ds, id))
  {}

  /** A code is good once, before it expires: a claim ends it and no other. */
  lemma CodeSpent(ds: Devices, id: DeviceId, token: string, now: nat, code: string, t: nat, other: DeviceId)
    requires id in ds
    ensures Claimable(ClaimedBy(ds, id, token, now), code, t, other) <==> other != id && Claimable(ds, code, t, other)
    ensures Claimable(ds, code, t, other) <==>
      other in ds && code != "" && ds[other].code == code && t < ds[other].codeExpires
  {}

  /** A device that comes back into the queue, by a claim or a credential, stands behind every holder placed earlier. */
  lemma ReturnsBehind(ds: Devices, id: DeviceId, user: string, token: string, now: nat, h: DeviceId)
    requires token != "" && now != 0 && h in Holders(ds) && Since(ds[h]) < now
    ensures id in ds && !HoldsSeat(ds[id]) ==>
      id in Holders(ClaimedBy(ds, id, token, now)) && Before(ClaimedBy(ds, id, token, now), h, id)
    ensures NeedsSeat(ds, id) ==>
      match Issue(ds, id, user, token, now, true)
      case Failed(_, _) => true
      case Done(ds') => id in Holders(ds') && h in ds' && Before(ds', h, id)
  {}

  /** A revoked device gives up its place and its credential's use, and keeps everything else. */
  lemma RevokedIs(ds: Devices, id: DeviceId)
    requires id in ds
    ensures var ds' := Revoked(ds, id);
      && id !in Holders(ds') && ds'.Keys == ds.Keys && ds'[id].revoked
      && (forall other :: other in ds && other != id ==> ds'[other] == ds[other])
      && (!ds[id].revoked ==> ds'[id].seatSince == 0)
      && ds'[id].user == ds[id].user && ds'[id].token == ds[id].token && ds'[id].issuedAt == ds[id].issuedAt
      && ds'[id].code == ds[id].code && ds'[id].codeExpires == ds[id].codeExpires
  {}

  // Stability.

  /** Nobody but the device itself loses a licence. */
  ghost predicate OthersKept(ds: Devices, ds': Devices, seats: int, id: DeviceId) {
    forall x :: x in Licensed(ds, seats) && x != id ==> x in Licensed(ds', seats)
  }

  /** Whether one more device may take a seat. */
  predicate Free(ds: Devices, seats: int) { seats == NO_SEAT_LIMIT || |Holders(ds)| < seats }

  /** A device that enters while a seat is free displaces nobody, and there is still a seat for everybody. */
  lemma EnterStable(ds: Devices, ds': Devices, seats: int, id: DeviceId)
    requires seats >= NO_SEAT_LIMIT && Free(ds, seats) && id !in Holders(ds) && Holders(ds') == Holders(ds) + {id}
    ensures OthersKept(ds, ds', seats, id) && id in Licensed(ds', seats)
  {
    RoomForAll(ds', seats);
  }

  lemma StayStable(ds: Devices, ds': Devices, seats: int, id: DeviceId)
    requires Holders(ds') == Holders(ds) && forall h :: h in Holders(ds) ==> Since(ds'[h]) == Since(ds[h])
    ensures Licensed(ds', seats) == Licensed(ds, seats) && OthersKept(ds, ds', seats, id)
  {
    SamePlaces(ds, ds', seats);
  }

  lemma LeaveStable(ds: Devices, ds': Devices, seats: int, id: DeviceId)
    requires Holders(ds') == Holders(ds) - {id} && forall h :: h in Holders(ds') ==> Since(ds'[h]) == Since(ds[h])
    ensures OthersKept(ds, ds', seats, id)
  {
    forall x | x in Licensed(ds, seats) && x != id ensures x in Licensed(ds', seats) {
      LeavingHelps(ds, ds', seats, x);
    }
  }

  /** The clock has not gone back behind the place in the queue that a new credential would take away. */
  predicate OnTime(ds: Devices, id: DeviceId, now: nat) {
    id in ds && HoldsSeat(ds[id]) && ds[id].seatSince == 0 ==> ds[id].issuedAt <= now
  }

  /** A new credential leaves the device where it is: in its recorded place, or out of the queue. */
  predicate KeepsPlace(ds: Devices, id: DeviceId) {
    id in ds && (ds[id].revoked || (HoldsSeat(ds[id]) && ds[id].seatSince != 0))
  }

  /** A device that goes back in the queue takes nobody's licence. */
  lemma BackStable(ds: Devices, ds': Devices, seats: int, id: DeviceId)
    requires Holders(ds') == Holders(ds) && id in Holders(ds) && Since(ds'[id]) >= Since(ds[id])
    requires forall h :: h in Holders(ds) && h != id ==> Since(ds'[h]) == Since(ds[h])
    ensures OthersKept(ds, ds', seats, id)
  {
    forall x | x in Licensed(ds, seats) && x != id ensures x in Licensed(ds', seats) {
      forall h | h in Ahead(ds', x) ensures h in Ahead(ds, x) {}
      SubsetSize(Ahead(ds', x), Ahead(ds, x));
    }
  }

  /** Issuing a credential takes nobody's licence unless the clock has gone back behind an unrecorded place;
      reissuing one to a holder in its place, or to a revoked device, changes nobody's standing at all. */
  lemma IssueStable(ds: Devices, id: DeviceId, user: string, token: string, now: nat, ds': Devices, seats: int)
    requires seats >= NO_SEAT_LIMIT && token != "" && now != 0
    requires Issue(ds, id, user, token, now, Free(ds, seats)) == Done(ds')
    ensures Placed(ds) ==> Placed(ds')
    ensures OnTime(ds, id, now) ==> OthersKept(ds, ds', seats, id)
    ensures KeepsPlace(ds, id) ==> Licensed(ds', seats) == Licensed(ds, seats)
  {
    hide Unlicensed, Licensed, OthersKept;
    IssueMoves(ds, id, user, token, now, ds', Free(ds, seats));
    if KeepsPlace(ds, id) {
      StayStable(ds, ds', seats, id);
    } else if id in Holders(ds) {
      if OnTime(ds, id, now) { BackStable(ds, ds', seats, id); }
    } else {
      EnterStable(ds, ds', seats, id);
    }
  }

  /** What an issue does to the queue. */
  lemma IssueMoves(ds: Devices, id: DeviceId, user: string, token: string, now: nat, ds': Devices, free: bool)
    requires token != "" && now != 0 && Issue(ds, id, user, token, now, free) == Done(ds')
    ensures Placed(ds) ==> Placed(ds')
    ensures id in ds' && forall h :: h in ds && h != id ==> h in ds' && ds'[h] == ds[h]
    ensures Holders(ds') == if id in ds && ds[id].revoked then Holders(ds) else Holders(ds) + {id}
    ensures id in Holders(ds) ==> Since(ds'[id]) == if ds[id].seatSince != 0 then Since(ds[id]) else now
    ensures !KeepsPlace(ds, id) && id !in Holders(ds) ==> free
  {}

  /** Claiming a code takes nobody's licence unless the clock has gone back behind an unrecorded place; a holder
      rotating its credential in its place keeps everybody's standing. */
  lemma ClaimStable(ds: Devices, id: DeviceId, token: string, now: nat, seats: int)
    requires seats >= NO_SEAT_LIMIT && token != "" && now != 0 && id in ds && (HoldsSeat(ds[id]) || Free(ds, seats))
    ensures OnTime(ds, id, now) ==> OthersKept(ds, ClaimedBy(ds, id, token, now), seats, id)
    ensures HoldsSeat(ds[id]) && ds[id].seatSince != 0 ==>
      Licensed(ClaimedBy(ds, id, token, now), seats) == Licensed(ds, seats)
  {
    hide Unlicensed, Licensed, OthersKept;
    var ds' := ClaimedBy(ds, id, token, now);
    assert Holders(ds') == Holders(ds) + {id};
    if !HoldsSeat(ds[id]) {
      EnterStable(ds, ds', seats, id);
    } else if KeepsPlace(ds, id) {
      StayStable(ds, ds', seats, id);
    } else if OnTime(ds, id, now) {
      BackStable(ds, ds', seats, id);
    }
  }

  lemma RevokeStable(ds: Devices, id: DeviceId, seats: int)
    ensures OthersKept(ds, Revoked(ds, id), seats, id)
  {
    hide Unlicensed, Licensed;
    assert Holders(Revoked(ds, id)) == Holders(ds) - {id};
    LeaveStable(ds, Revoked(ds, id), seats, id);
  }

  lemma PurgeStable(ds: Devices, id: DeviceId, seats: int)
    ensures OthersKept(ds, ds - {id}, seats, id)
  {
    hide Unlicensed, Licensed;
    assert Holders(ds - {id}) == Holders(ds) - {id};
    LeaveStable(ds, ds - {id}, seats, id);
  }

  /** Without a recorded place the law fails: reissuing the credential of the first of two devices, for one seat,
      moves it to the back of the queue. */
  lemma UnplacedRotationMoves()
    ensures var ds: Devices :=
      map[1 := Record("a", "t", 1, false, 0, "", 0), 2 := Record("b", "t", 2, false, 2, "", 0)];
      && !Placed(ds) && 1 in Licensed(ds, 1)
      && Issue(ds, 1, "a", "t", 3, false).Done? && 1 !in Licensed(Issue(ds, 1, "a", "t", 3, false).devices, 1)
  {
    var ds: Devices := map[1 := Record("a", "t", 1, false, 0, "", 0), 2 := Record("b", "t", 2, false, 2, "", 0)];
    var ds' := Issue(ds, 1, "a", "t", 3, false).devices;
    assert Ahead(ds, 1) == {};
    assert 2 in Ahead(ds', 1);
    SubsetSize({2}, Ahead(ds', 1));
  }

  /** And with a clock that has gone back it takes another's: for one seat, the second of two devices, its place
      unrecorded, is issued a credential at a time before the first one's place. */
  lemma EarlyClockDisplaces()
    ensures var ds: Devices :=
      map[1 := Record("a", "t", 2, false, 2, "", 0), 2 := Record("b", "t", 3, false, 0, "", 0)];
      && !OnTime(ds, 2, 1) && 1 in Licensed(ds, 1)
      && Issue(ds, 2, "b", "t", 1, false).Done? && 1 !in Licensed(Issue(ds, 2, "b", "t", 1, false).devices, 1)
  {
    var ds: Devices := map[1 := Record("a", "t", 2, false, 2, "", 0), 2 := Record("b", "t", 3, false, 0, "", 0)];
    var ds' := Issue(ds, 2, "b", "t", 1, false).devices;
    assert Ahead(ds, 1) == {};
    assert 2 in Ahead(ds', 1);
    SubsetSize({2}, Ahead(ds', 1));
  }

  function Difference(before: set<DeviceId>, after: set<DeviceId>): SeatChange {
    SeatChange(after - before, before - after)
  }

  /** What a write announces. */
  ghost function Announced(log: seq<SeatChange>, ds: Devices, ds': Devices, seats: int): seq<SeatChange> {
    if Licensed(ds', seats) == Licensed(ds, seats) then log
    else log + [Difference(Licensed(ds, seats), Licensed(ds', seats))]
  }

  lemma SameSets(a: set<DeviceId>, b: set<DeviceId>)
    requires a - b == {} && b - a == {}
    ensures a == b
  {
    forall x: DeviceId ensures x in a <==> x in b {
      assert x !in a - b && x !in b - a;
    }
  }

  lemma ReplayNext(start: set<DeviceId>, log: seq<SeatChange>, c: SeatChange)
    ensures Replay(start, log + [c]) == Replay(start, log) + c.gained - c.lost
  {
    assert (log + [c])[..|log|] == log;
  }

  /** Every holder, in the order of the queue, gathered in any order of the map iteration. */
  method Queue(ds: Devices) returns (queue: seq<DeviceId>)
    ensures Ranked(ds, queue) && Has(queue, Holders(ds))
  {
    hide Ranked, Has, HoldsSeat;
    queue := [];
    var todo := ds.Keys;
    ghost var gathered: set<DeviceId> := {};
    NothingRanked(ds);
    while todo != {}
      invariant todo <= ds.Keys && gathered == Holders(ds) - todo
      invariant Ranked(ds, queue) && Has(queue, gathered)
      decreases |todo|
    {
      var id :| id in todo;
      todo := todo - {id};
      if HoldsSeat(ds[id]) {
        assert id !in gathered;
        queue := InsertRanked(ds, queue, id, gathered);
        assert gathered + {id} == Holders(ds) - todo;
        gathered := gathered + {id};
      } else {
        assert gathered == Holders(ds) - todo;
      }
    }
    assert gathered == Holders(ds);
  }

  lemma NothingRanked(ds: Devices)
    ensures Ranked(ds, []) && Has([], {})
  {}

  lemma NoLimit(ds: Devices)
    ensures Unlicensed(ds, NO_SEAT_LIMIT) == {}
  {}

  lemma QueueSize(ds: Devices, queue: seq<DeviceId>)
    requires Ranked(ds, queue) && Has(queue, Holders(ds))
    ensures |queue| == |Holders(ds)|
  {
    ElementCount(ds, queue);
    assert Elements(queue) == Holders(ds);
  }

  /** The seat fix-up of Open. */
  method FixUp(loaded: Devices) returns (ds: Devices)
    ensures ds.Keys == loaded.Keys && forall id :: id in loaded ==> ds[id] == Fixed(loaded[id])
  {
    hide HoldsSeat;
    ds := loaded;
    var todo := ds.Keys;
    while todo != {}
      invariant todo <= ds.Keys == loaded.Keys
      invariant forall id :: id in loaded ==> ds[id] == if id in todo then loaded[id] else Fixed(loaded[id])
      decreases |todo|
    {
      var id :| id in todo;
      todo := todo - {id};
      var r := ds[id];
      if HoldsSeat(r) && r.seatSince == 0 {
        ds := ds[id := r.(seatSince := r.issuedAt)];
      }
    }
  }

  lemma FixedHolders(loaded: Devices, ds: Devices)
    requires ds.Keys == loaded.Keys && forall id :: id in loaded ==> ds[id] == Fixed(loaded[id])
    ensures Placed(ds) <==> forall id :: id in loaded && HoldsSeat(loaded[id]) ==> Since(loaded[id]) != 0
    ensures Holders(ds) == Holders(loaded) && Licensed(ds, NO_SEAT_LIMIT) == Holders(loaded)
    ensures forall id :: id in loaded ==> Since(ds[id]) == Since(loaded[id])
  {
    forall id | id in loaded ensures HoldsSeat(ds[id]) == HoldsSeat(loaded[id]) {}
    forall id | id in loaded && HoldsSeat(loaded[id]) ensures ds[id].seatSince == Since(loaded[id]) {}
  }

  function Fixed(r: Record): Record {
    if HoldsSeat(r) && r.seatSince == 0 then r.(seatSince := r.issuedAt) else r
  }

  /** The sort of the queue, one holder at a time. */
  method InsertRanked(ds: Devices, s: seq<DeviceId>, id: DeviceId, ghost ids: set<DeviceId>) returns (t: seq<DeviceId>)
    requires Ranked(ds, s) && Has(s, ids) && id in ds && id !in ids
    ensures Ranked(ds, t) && Has(t, ids + {id})
  {
    hide Before, Ranked, Has;
    AllKnown(ds, s);
    AmongThem(s, ids);
    var k := |s|;
    while k > 0 && Before(ds, id, s[k - 1])
      invariant 0 <= k <= |s| && forall i :: k <= i < |s| ==> Before(ds, id, s[i])
    {
      k := k - 1;
    }
    t := s[..k] + [id] + s[k..];
    InsertedRanked(ds, s, id, k, t);
    InsertedHas(s, ids, id, k, t);
  }

  lemma AllKnown(ds: Devices, s: seq<DeviceId>)
    requires Ranked(ds, s)
    ensures forall i :: 0 <= i < |s| ==> s[i] in ds
  {}

  lemma AmongThem(s: seq<DeviceId>, ids: set<DeviceId>)
    requires Has(s, ids)
    ensures forall i :: 0 <= i < |s| ==> s[i] in ids
  {}

  lemma InsertedHas(s: seq<DeviceId>, ids: set<DeviceId>, id: DeviceId, k: nat, t: seq<DeviceId>)
    requires Has(s, ids) && k <= |s| && t == s[..k] + [id] + s[k..]
    ensures Has(t, ids + {id})
  {
    forall x | x in ids + {id} ensures x in t {
      if x == id {
        assert t[k] == id;
      } else {
        var i :| 0 <= i < |s| && s[i] == x;
        assert t[if i < k then i else i + 1] == x;
      }
    }
  }

  lemma InsertedRanked(ds: Devices, s: seq<DeviceId>, id: DeviceId, k: nat, t: seq<DeviceId>)
    requires Ranked(ds, s) && id in ds && id !in s && k <= |s| && t == s[..k] + [id] + s[k..]
    requires forall i :: k <= i < |s| ==> Before(ds, id, s[i])
    requires k > 0 ==> !Before(ds, id, s[k - 1])
    ensures Ranked(ds, t)
  {
    forall i, j | 0 <= i < j < |t| ensures Before(ds, t[i], t[j]) {
      var i', j' := if i < k then i else i - 1, if j < k then j else j - 1;
      if i != k && j != k {
        assert Before(ds, s[i'], s[j']);
      } else if j == k {
        assert s[k - 1] in s;
        if i < k - 1 { assert Before(ds, s[i], s[k - 1]); }
      }
    }
  }

  lemma BeyondCount(ds: Devices, queue: seq<DeviceId>, seats: nat, beyond: set<DeviceId>)
    requires Ranked(ds, queue) && Has(queue, Holders(ds))
    requires beyond == set j | seats <= j < |queue| :: queue[j]
    ensures beyond == Unlicensed(ds, seats)
  {
    forall id ensures id in beyond <==> id in Unlicensed(ds, seats) {
      if id in Holders(ds) {
        var j :| 0 <= j < |queue| && queue[j] == id;
        RankIsIndex(ds, queue, j);
        if id in beyond {
          var i :| seats <= i < |queue| && queue[i] == id;
          RankIsIndex(ds, queue, i);
        }
      }
    }
  }
}
