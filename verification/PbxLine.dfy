/** One line's registration state: what its loop, the clock sweep and the
    administrator's writes share, each section under the line's lock. */
module PbxLine {
  import opened Common

  type Time = int

  datatype Credential = Credential(dn: string, digestUser: string, secret: string)

  datatype Condition = Pending | Registered | Retrying | Refused

  datatype Status = Status(condition: Condition, expiresAt: Option<Time>, attempts: nat)

  /** A one-slot channel is its token; a deadline is set while the loop waits. */
  datatype Shared = Shared(cur: Credential, status: Status, until: Option<Time>, wake: bool, late: bool)

  function Created(c: Credential): Shared { Shared(c, Status(Pending, None, 0), None, false, false) }

  // The sections under the line's lock, as functions; the loop's steps are made of these.

  function Credited(sh: Shared, c: Credential): Shared { sh.(cur := c) }

  function Signalled(sh: Shared): Shared { sh.(wake := true) }

  function Leased(sh: Shared, now: Time, lease: Time): Shared {
    sh.(status := Status(Registered, Some(now + lease), 0))
  }

  function Failed(sh: Shared, attempt: nat): Shared { sh.(status := Status(Retrying, None, attempt)) }

  function Rejected(sh: Shared): Shared { sh.(status := Status(Refused, None, sh.status.attempts)) }

  function Armed(sh: Shared, t: Time): Shared { sh.(until := Some(t)) }

  function Disarmed(sh: Shared): Shared { sh.(until := None, late := false) }

  predicate Overdue(sh: Shared, now: Time) { sh.until.Some? && now >= sh.until.value }

  function Flagged(sh: Shared, now: Time): Shared {
    if Overdue(sh, now) then sh.(until := None, late := true) else sh
  }

  class Line {
    var cur: Credential
    var status: Status
    var until: Option<Time>
    var wake: bool
    var late: bool

    function View(): Shared
      reads this
    {
      Shared(cur, status, until, wake, late)
    }

    constructor (c: Credential)
      ensures View() == Created(c)
    {
      cur, status, until, wake, late := c, Status(Pending, None, 0), None, false, false;
    }

    /** The first half of a write; the second is a signal if the credential changed. */
    method SetCredential(c: Credential) returns (same: bool)
      modifies this
      ensures View() == Credited(old(View()), c) && same == (old(cur) == c)
    {
      same := cur == c;
      cur := c;
    }

    method Signal()
      modifies this
      ensures View() == Signalled(old(View()))
    {
      if !wake { wake := true; }
    }

    method ArmDeadline(t: Time)
      modifies this
      ensures View() == Armed(old(View()), t)
    {
      until := Some(t);
    }

    method DisarmDeadline()
      modifies this
      ensures View() == Disarmed(old(View()))
    {
      until := None;
      if late { late := false; }
    }

    method FlagIfOverdue(now: Time) returns (overdue: bool)
      modifies this
      ensures overdue == Overdue(old(View()), now) && View() == Flagged(old(View()), now)
    {
      if until.None? || now < until.value {
        return false;
      }
      until := None;
      if !late { late := true; }
      return true;
    }

    method SetRegistered(now: Time, granted: Time)
      modifies this
      ensures View() == Leased(old(View()), now, granted)
    {
      status := status.(condition := Registered, expiresAt := Some(now + granted), attempts := 0);
    }

    method SetRetrying(attempt: nat)
      modifies this
      ensures View() == Failed(old(View()), attempt)
    {
      status := status.(condition := Retrying, expiresAt := None, attempts := attempt);
    }

    method SetRefused()
      modifies this
      ensures View() == Rejected(old(View()))
    {
      status := status.(condition := Refused, expiresAt := None);
    }
  }

  // When to try again.

  function RefreshAfter(granted: Time, floor: Time): Time {
    var d := granted * 3 / 4;
    if d < floor then floor else d
  }

  /** The refresh is due while the lease runs exactly when the lease is longer than the floor, and after three
      quarters of it when that is no less than the floor. */
  lemma RefreshBeforeLapse(granted: Time, floor: Time)
    requires granted > 0
    ensures RefreshAfter(granted, floor) < granted <==> floor < granted
    ensures floor <= RefreshAfter(granted, floor)
    ensures 4 * floor <= 3 * granted ==> 3 * granted - 4 < 4 * RefreshAfter(granted, floor) <= 3 * granted
  {}

  function Doubled(base: Time, times: nat): Time { if times == 0 then base else 2 * Doubled(base, times - 1) }

  lemma {:induction false} DoubledGrows(base: Time, few: nat, many: nat)
    requires base > 0 && few <= many
    ensures 0 < Doubled(base, few) <= Doubled(base, many)
  {
    if many > 0 {
      DoubledGrows(base, if few < many then few else many - 1, many - 1);
    }
  }

  /** The interval before a retry: the base after the first failure, twice as long after each next one, and no
      longer than the limit. */
  function Interval(attempt: int, base: Time, limit: Time): Time {
    Least(limit, Doubled(base, if attempt < 1 then 0 else attempt - 1))
  }

  method Backoff(attempt0: int, base: Time, limit: Time) returns (d: Time)
    requires base > 0
    ensures d == Interval(attempt0, base, limit)
  {
    var attempt := if attempt0 < 1 then 1 else attempt0;
    d := base;
    for i := 1 to attempt
      invariant d == Doubled(base, i - 1)
      invariant i > 1 ==> d < limit
    {
      d := d * 2;
      if d >= limit {
        DoubledGrows(base, i, attempt - 1);
        return limit;
      }
    }
    if d > limit {
      return limit;
    }
  }
}
