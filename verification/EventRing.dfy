/** The bounded event ring against an unbounded log of what was emitted, and
    a reader that polls it. */
module EventRing {
  import opened Common

  /** The sequence number of an event, and everything else in it. */
  datatype Event = Event(number: nat, body: string)

  datatype Page = Page(events: seq<Event>, next: nat, truncated: bool)

  const DEFAULT_LIMIT := 200
  const MAX_LIMIT := 1000
  const TWO_63 := 0x8000_0000_0000_0000
  const TWO_64 := 0x1_0000_0000_0000_0000

  /** What a read comes to: a page, or slice bounds out of range. */
  datatype Reading = Read(page: Page) | OutOfRange

  /** A number kept as a signed 64-bit integer. */
  function Int64(x: int): int { (x + TWO_63) % TWO_64 - TWO_63 }

  lemma Int64Is(x: int)
    requires -TWO_63 <= x <= TWO_64 + TWO_63 - 1
    ensures Int64(x) == if x < TWO_63 then x else x - TWO_64
  {}

  function Capped(limit: int): (r: nat)
    ensures 0 < r <= MAX_LIMIT
  {
    if limit <= 0 then DEFAULT_LIMIT else if limit > MAX_LIMIT then MAX_LIMIT else limit
  }

  function Most(a: int, b: int): int { if a < b then b else a }

  /** How many events a ring of n has overwritten. */
  function Lost(log: seq<Event>, n: nat): nat { if |log| > n then |log| - n else 0 }

  /** What a read should answer, said of the whole log. */
  function Answer(log: seq<Event>, n: nat, since: nat, limit: int): Page {
    var first := Most(since, Lost(log, n));
    var end := Least(|log|, first + Capped(limit));
    if first >= |log| then Page([], |log|, log != [] && since != 0 && since < Lost(log, n))
    else Page(log[first..end], end, since != 0 && since < Lost(log, n))
  }

  /** Index i of the ring's contents in a buffer of n. */
  function Slot(start: nat, i: nat, n: nat): (r: nat)
    requires start < n && i <= n
    ensures r < n
  {
    if start + i < n then start + i else start + i - n
  }

  function Modulo(x: nat, n: nat): (r: nat)
    requires n > 0
    ensures r < n
  {
    x % n
  }

  lemma ModuloIs(x: nat, n: nat)
    requires n > 0 && x < 2 * n
    ensures Modulo(x, n) == if x < n then x else x - n
  {
    if x >= n { assert x == 1 * n + (x - n); }
  }

  /** The remainder that keeps the sign of the dividend. */
  function Wrapped(i: int, n: nat): (r: int)
    requires n > 0
    ensures i >= 0 ==> 0 <= r < n
    ensures i < 0 ==> r <= 0 < r + n
  {
    if i >= 0 then Modulo(i, n) else 0 - Modulo(-i, n)
  }

  lemma WrapsOnce(start: nat, i: nat, n: nat)
    requires start < n && i <= n
    ensures Wrapped(start + i, n) == Slot(start, i, n)
  {
    hide Modulo;
    ModuloIs(start + i, n);
  }

  /** The answer is a run of what the ring keeps. */
  lemma AnswerKept(log: seq<Event>, n: nat, since: nat, limit: int, skip: nat, avail: int)
    requires n > 0 && log != [] && skip == (if since > Lost(log, n) then since - Lost(log, n) else 0)
    requires avail == Least(|log| - Lost(log, n) - skip, Capped(limit))
    ensures var truncated := since != 0 && since < Lost(log, n);
      Answer(log, n, since, limit) ==
        if avail <= 0 then Page([], |log|, truncated)
        else Page(log[Lost(log, n)..][skip..skip + avail], Lost(log, n) + skip + avail, truncated)
  {
    if avail > 0 {
      assert log[Lost(log, n)..][skip..skip + avail] == log[Lost(log, n) + skip..Lost(log, n) + skip + avail];
    }
  }

  /** The cursors for which the narrowed arithmetic goes wrong: past the newest event kept by more than 2^63. */
  predicate Misread(log: seq<Event>, n: nat, since: nat) {
    log != [] && since - Lost(log, n) > TWO_63 + (|log| - Lost(log, n))
  }

  /** The greatest cursor is one of them for any ring that holds an event. */
  lemma GreatestCursor(log: seq<Event>, n: nat)
    requires n > 0 && log != [] && |log| < TWO_63 - 1
    ensures Misread(log, n, TWO_64 - 1)
  {}

  /** How much of the ring a read would take, by the narrowed arithmetic: nothing, when the cursor is at or past
      the newest event, unless it is misread; then more than there is, from a place before the buffer. */
  lemma Narrowed(log: seq<Event>, n: nat, since: nat, start: nat)
    requires n > 0 && log != [] && |log| < TWO_63 - 1 && Lost(log, n) < since < TWO_64 && start <= Lost(log, n)
    ensures var (x, count) := (since - Lost(log, n), |log| - Lost(log, n));
      var (skip, avail) := (Int64(x), Int64(count - Int64(x)));
      if Misread(log, n, since) then avail > 0 && start + skip < 0
      else if x < count then skip == x && avail == count - x
      else avail <= 0
  {
    var x, count := since - Lost(log, n), |log| - Lost(log, n);
    Int64Is(x);
    Int64Is(count - Int64(x));
  }

  class Ring {
    const buf: array<Event>
    var start: nat
    var count: nat
    var number: nat
    var dropped: nat
    ghost var log: seq<Event>

    ghost predicate Valid()
      reads this, buf
    {
      Represents(buf[..], start, count, number, log)
    }

    constructor (n: int)
      ensures Valid() && fresh(buf) && log == [] && dropped == 0
      ensures buf.Length == if n <= 0 then 4096 else n
    {
      var size := if n <= 0 then 4096 else n;
      buf := new Event[size](_ => Event(0, ""));
      start, count, number, dropped, log := 0, 0, 0, 0, [];
    }

    /** An event is appended, or counted as dropped when the lock is held by another. */
    method Emit(held: bool, body: string)
      requires Valid()
      modifies this, buf
      ensures Valid()
      ensures held ==> log == old(log) && dropped == old(dropped) + 1
      ensures !held ==> log == old(log) + [Event(|old(log)| + 1, body)] && dropped == old(dropped)
    {
      hide Represents;
      if held {
        dropped := dropped + 1;
        return;
      }
      number := number + 1;
      var e := Event(number, body);
      var n := buf.Length;
      Sizes(buf[..], start, count, number - 1, log);
      if count < n {
        Fills(buf[..], start, count, number - 1, log, body);
        buf[Wrapped(start + count, n)] := e;
        count := count + 1;
      } else {
        Rotates(buf[..], start, count, number - 1, log, body);
        buf[start] := e;
        start := Wrapped(start + 1, n);
      }
      log := log + [e];
    }

    /** The two copies out of the buffer, if their slices are in range. */
    method CopyOut(from: int, avail: nat) returns (out: Option<seq<Event>>)
      requires -buf.Length < from < buf.Length
      ensures out == if 0 <= from && from + avail <= 2 * buf.Length then Some(Around(buf[..], from, avail)) else None
    {
      var n := buf.Length;
      if from < 0 || (from + avail > n && avail - (n - from) > n) { return None; }
      if from + avail <= n {
        return Some(buf[from..from + avail]);
      }
      return Some(buf[from..] + buf[..avail - (n - from)]);
    }

    /** How many of the events kept to skip, and how many there are after them. */
    method Window(since: nat, oldest: nat) returns (skip: int, avail: int)
      requires Valid() && since < TWO_64 && log != [] && |log| < TWO_63 - 1 && oldest == Lost(log, buf.Length) + 1
      ensures var lost := Lost(log, buf.Length);
        if Misread(log, buf.Length, since) then avail > 0 && start + skip < 0
        else if since >= |log| then avail <= 0
        else skip == (if since > lost then since - lost else 0) && avail == count - skip
    {
      hide Represents, Int64;
      Sizes(buf[..], start, count, number, log);
      skip := 0;
      if since >= oldest {
        skip := Int64(since - oldest + 1);
        Narrowed(log, buf.Length, since, start);
      } else {
        Int64Is(count);
      }
      avail := Int64(count - skip);
    }

    /** The events after a number, oldest first: the answer exactly for the cursors that are not misread. */
    method Since(since: nat, limit: int) returns (r: Reading)
      requires Valid() && since < TWO_64 && |log| < TWO_63 - 1
      ensures r == Read(Answer(log, buf.Length, since, limit)) <==> !Misread(log, buf.Length, since)
      ensures Misread(log, buf.Length, since) ==> r.OutOfRange? || r.page.events != []
    {
      hide Represents, Answer, Around, Wrapped, Misread;
      Sizes(buf[..], start, count, number, log);
      var n := buf.Length;
      var most := limit;
      if most <= 0 { most := DEFAULT_LIMIT; }
      if most > MAX_LIMIT { most := MAX_LIMIT; }
      var next := number;
      if count == 0 {
        EmptyAnswer(n, since, limit);
        return Read(Page([], next, false));
      }
      Oldest(buf[..], start, count, number, log);
      var oldest := buf[start].number;
      TopWraps(log, n, since);
      var truncated := since != 0 && (since + 1) % TWO_64 < oldest;
      var skip, avail := Window(since, oldest);
      if avail <= 0 {
        PastNewest(log, n, since, limit);
        return Read(Page([], next, truncated));
      }
      if avail > most {
        avail := most;
      }
      var events := CopyOut(Wrapped(start + skip, n), avail);
      if Misread(log, n, since) {
        NotEmptyHanded(log, n, since, limit);
      } else {
        Serves(buf[..], start, count, number, log, since, limit, skip, avail);
      }
      if events.None? { return OutOfRange; }
      next := events.value[avail - 1].number;
      return Read(Page(events.value, next, truncated));
    }
  }

  lemma Sizes(buf: seq<Event>, start: nat, count: nat, number: nat, log: seq<Event>)
    requires Represents(buf, start, count, number, log)
    ensures start < |buf| && count <= |buf| && number == |log| && count == |log| - Lost(log, |buf|)
    ensures start <= Lost(log, |buf|)
    ensures count == 0 ==> log == []
  {}

  /** The ring stands for this log: it holds the end of it. */
  ghost predicate Represents(buf: seq<Event>, start: nat, count: nat, number: nat, log: seq<Event>) {
    && start < |buf| && number == |log| && count == |log| - Lost(log, |buf|)
    && (count < |buf| ==> start == 0) && start <= Lost(log, |buf|)
    && (forall i :: 0 <= i < |log| ==> log[i].number == i + 1)
    && Holds(buf, start, log[Lost(log, |buf|)..])
  }

  lemma Fills(buf: seq<Event>, start: nat, count: nat, number: nat, log: seq<Event>, body: string)
    requires Represents(buf, start, count, number, log) && count < |buf|
    ensures var e := Event(number + 1, body);
      Represents(buf[Wrapped(start + count, |buf|) := e], start, count + 1, number + 1, log + [e])
  {
    hide Holds;
    var e := Event(number + 1, body);
    WrapsOnce(start, count, |buf|);
    assert log[0..] == log && (log + [e])[0..] == log + [e];
    HoldsMore(buf, start, log, e);
  }

  lemma Rotates(buf: seq<Event>, start: nat, count: nat, number: nat, log: seq<Event>, body: string)
    requires Represents(buf, start, count, number, log) && count == |buf|
    ensures var e := Event(number + 1, body);
      Represents(buf[start := e], Wrapped(start + 1, |buf|), count, number + 1, log + [e])
  {
    hide Holds;
    var e := Event(number + 1, body);
    var kept := log[Lost(log, |buf|)..];
    WrapsOnce(start, 1, |buf|);
    assert (log + [e])[Lost(log + [e], |buf|)..] == kept[1..] + [e];
    HoldsNext(buf, start, kept, e);
  }

  /** The oldest event kept, and a run of what is kept. */
  lemma Oldest(buf: seq<Event>, start: nat, count: nat, number: nat, log: seq<Event>)
    requires Represents(buf, start, count, number, log) && count > 0
    ensures log != [] && start < |buf| && buf[start].number == Lost(log, |buf|) + 1
  {
    HoldsFirst(buf, start, log[Lost(log, |buf|)..]);
  }

  /** What the ring's arithmetic reads out is the answer. */
  lemma Serves(buf: seq<Event>, start: nat, count: nat, number: nat, log: seq<Event>, since: nat, limit: int, skip: nat,
    avail: nat)
    requires Represents(buf, start, count, number, log) && log != []
    requires skip == (if since > Lost(log, |buf|) then since - Lost(log, |buf|) else 0)
    requires 0 < avail == Least(count - skip, Capped(limit))
    ensures var events := Around(buf, Wrapped(start + skip, |buf|), avail);
      avail <= count && |events| == avail && Answer(log, |buf|, since, limit)
        == Page(events, events[avail - 1].number, since != 0 && since < Lost(log, |buf|))
  {
    hide Holds, Answer, Around, Wrapped, Slot;
    WrapsOnce(start, skip, |buf|);
    var lost := Lost(log, |buf|);
    HoldsRun(buf, start, log[lost..], skip, avail);
    assert log[lost..][skip..skip + avail][avail - 1] == log[lost + skip + avail - 1];
    AnswerKept(log, |buf|, since, limit, skip, avail);
  }

  /** The buffer holds these events, oldest at start, around its end. */
  ghost predicate Holds(buf: seq<Event>, start: nat, kept: seq<Event>) {
    && start < |buf| && |kept| <= |buf|
    && forall i {:trigger kept[i]} :: 0 <= i < |kept| ==> buf[Slot(start, i, |buf|)] == kept[i]
  }

  lemma HoldsAt(buf: seq<Event>, start: nat, kept: seq<Event>, i: nat)
    requires Holds(buf, start, kept) && i < |kept|
    ensures buf[Slot(start, i, |buf|)] == kept[i]
  {
    assert kept[i] == kept[i];
  }

  lemma HoldsFirst(buf: seq<Event>, start: nat, kept: seq<Event>)
    requires Holds(buf, start, kept) && kept != []
    ensures buf[start] == kept[0]
  {
    HoldsAt(buf, start, kept, 0);
  }

  lemma TopWraps(log: seq<Event>, n: nat, since: nat)
    requires n > 0 && log != [] && |log| < TWO_63 - 1 && since < TWO_64
    ensures !Misread(log, n, since) ==> ((since + 1) % TWO_64 < Lost(log, n) + 1 <==> since < Lost(log, n))
  {}

  lemma PastNewest(log: seq<Event>, n: nat, since: nat, limit: int)
    requires n > 0 && log != [] && since >= |log|
    ensures Answer(log, n, since, limit) == Page([], |log|, since != 0 && since < Lost(log, n))
  {}

  lemma NotEmptyHanded(log: seq<Event>, n: nat, since: nat, limit: int)
    requires n > 0 && Misread(log, n, since)
    ensures Answer(log, n, since, limit).events == []
  {}

  lemma EmptyAnswer(n: nat, since: nat, limit: int)
    requires n > 0
    ensures Answer([], n, since, limit) == Page([], 0, false) && !Misread([], n, since)
  {}

  lemma HoldsMore(buf: seq<Event>, start: nat, kept: seq<Event>, e: Event)
    requires Holds(buf, start, kept) && |kept| < |buf|
    ensures Holds(buf[Slot(start, |kept|, |buf|) := e], start, kept + [e])
  {}

  lemma HoldsNext(buf: seq<Event>, start: nat, kept: seq<Event>, e: Event)
    requires Holds(buf, start, kept) && |kept| == |buf|
    ensures Holds(buf[start := e], Slot(start, 1, |buf|), kept[1..] + [e])
  {
    var now := kept[1..] + [e];
    forall i | 0 <= i < |now|
      ensures buf[start := e][Slot(Slot(start, 1, |buf|), i, |buf|)] == now[i]
    {
      if i + 1 < |kept| { HoldsAt(buf, start, kept, i + 1); }
    }
  }

  /** A run of a buffer, going on from its beginning where it ends. */
  function Around(buf: seq<Event>, from: nat, avail: nat): (r: seq<Event>)
    requires from < |buf| && from + avail <= 2 * |buf|
    ensures |r| == avail
  {
    if from + avail <= |buf| then buf[from..from + avail] else buf[from..] + buf[..avail - (|buf| - from)]
  }

  lemma HoldsRun(buf: seq<Event>, start: nat, kept: seq<Event>, skip: nat, avail: nat)
    requires Holds(buf, start, kept) && 0 < avail && skip + avail <= |kept|
    ensures Around(buf, Slot(start, skip, |buf|), avail) == kept[skip..skip + avail]
  {
    var run := Around(buf, Slot(start, skip, |buf|), avail);
    forall i | 0 <= i < avail
      ensures run[i] == kept[skip + i]
    {
      HoldsAt(buf, start, kept, skip + i);
    }
  }

  // A reader that keeps polling.

  /** A reader: the log so far, the cursor it polls with, what it has received,
      where its reading began, and the gaps its pages were marked with. */
  datatype Reader = Reader(log: seq<Event>, cursor: nat, seen: seq<Event>, began: nat, gaps: seq<(nat, nat)>)

  datatype Step = Emitted(body: string) | Dropped | Polled(limit: int)

  function Polls(n: nat, r: Reader, limit: int): Reader {
    var page := Answer(r.log, n, r.cursor, limit);
    var first := page.next - |page.events|;
    Reader(r.log, page.next, r.seen + page.events,
           if r.cursor == 0 && first >= 0 then first else r.began,
           if page.truncated && first >= 0 then r.gaps + [(r.cursor, first)] else r.gaps)
  }

  function Took(n: nat, r: Reader, s: Step): Reader {
    match s
    case Emitted(body) => r.(log := r.log + [Event(|r.log| + 1, body)])
    case Dropped => r
    case Polled(limit) => Polls(n, r, limit)
  }

  function Run(n: nat, r: Reader, steps: seq<Step>): Reader
    decreases |steps|
  {
    if steps == [] then r else Run(n, Took(n, r, steps[0]), steps[1..])
  }

  predicate InGap(i: int, gaps: seq<(nat, nat)>) { exists g :: 0 <= g < |gaps| && gaps[g].0 <= i < gaps[g].1 }

  /** The events from one position to another, but for the gaps. */
  function Outside(log: seq<Event>, from: nat, until: nat, gaps: seq<(nat, nat)>): seq<Event>
    requires until <= |log|
    decreases until
  {
    if until <= from then []
    else Outside(log, from, until - 1, gaps) + (if InGap(until - 1, gaps) then [] else [log[until - 1]])
  }

  /** The gaps end by this position, and none is empty or begins at zero. */
  ghost predicate Past(gaps: seq<(nat, nat)>, end: int) {
    forall g :: 0 <= g < |gaps| ==> 0 < gaps[g].0 < gaps[g].1 <= end
  }

  lemma PastLater(gaps: seq<(nat, nat)>, end: int, later: int)
    requires Past(gaps, end) && end <= later
    ensures Past(gaps, later)
  {}

  lemma PastMore(gaps: seq<(nat, nat)>, end: int, from: nat, until: nat)
    requires Past(gaps, end) && end <= until && 0 < from < until
    ensures Past(gaps + [(from, until)], until)
  {}

  /** Every event from where the reading began is received once and in order, but for
      gaps that were marked, and those hold only overwritten events. */
  ghost predicate Faithful(n: nat, r: Reader) {
    && r.began <= r.cursor <= |r.log|
    && (r.cursor == 0 ==> r.gaps == [])
    && r.seen == Outside(r.log, r.began, r.cursor, r.gaps)
    && Past(r.gaps, Least(r.cursor, Lost(r.log, n)))
  }

  lemma {:induction false} OutsideGrows(log: seq<Event>, e: Event, from: nat, until: nat, gaps: seq<(nat, nat)>)
    requires until <= |log|
    ensures Outside(log + [e], from, until, gaps) == Outside(log, from, until, gaps)
    decreases until
  {
    if until > from { OutsideGrows(log, e, from, until - 1, gaps); }
  }

  /** A page read beyond every gap is received whole. */
  lemma {:induction false} OutsideReads(log: seq<Event>, from: nat, mid: nat, until: nat, gaps: seq<(nat, nat)>)
    requires from <= mid <= until <= |log|
    requires Past(gaps, mid)
    ensures Outside(log, from, until, gaps) == Outside(log, from, mid, gaps) + log[mid..until]
    decreases until
  {
    if mid < until {
      OutsideReads(log, from, mid, until - 1, gaps);
      assert log[mid..until] == log[mid..until - 1] + [log[until - 1]];
    }
  }

  /** A gap marked at the cursor takes nothing from what was received before it. */
  lemma {:induction false} OutsideSkips(log: seq<Event>, from: nat, cursor: nat, until: nat, first: nat,
    gaps: seq<(nat, nat)>)
    requires from <= cursor <= first && until <= first <= |log|
    requires Past(gaps, cursor)
    ensures Outside(log, from, until, gaps + [(cursor, first)]) == Outside(log, from, Least(until, cursor), gaps)
    decreases until
  {
    hide InGap;
    if until > from {
      OutsideSkips(log, from, cursor, until - 1, first, gaps);
      GapAdded(until - 1, gaps, cursor, first);
    }
  }

  lemma GapAdded(i: int, gaps: seq<(nat, nat)>, from: nat, until: nat)
    ensures InGap(i, gaps + [(from, until)]) <==> InGap(i, gaps) || from <= i < until
  {
    var marked := gaps + [(from, until)];
    if InGap(i, gaps) {
      var g :| 0 <= g < |gaps| && gaps[g].0 <= i < gaps[g].1;
      assert marked[g].0 <= i < marked[g].1;
    }
    if from <= i < until { assert marked[|gaps|].0 <= i < marked[|gaps|].1; }
  }

  /** A page is as long as the limit asked for, between 1 and 1000 and 200 when none is, or all there is. */
  lemma PageSize(log: seq<Event>, n: nat, since: nat, limit: int)
    ensures var (most, from) := (if limit <= 0 then 200 else Least(limit, 1000), Most(since, Lost(log, n)));
      |Answer(log, n, since, limit).events| == if from >= |log| then 0 else Least(most, |log| - from)
    ensures forall i :: 0 <= i < |Answer(log, n, since, limit).events| ==>
      Answer(log, n, since, limit).events[i] == log[Most(since, Lost(log, n)) + i]
  {}

  /** A page advances a reader that is behind, and is marked exactly when events after its cursor
      are gone, save at cursor zero, where they go unmarked. */
  lemma PageMarks(log: seq<Event>, n: nat, since: nat, limit: int)
    requires n > 0 && since <= |log|
    ensures var page := Answer(log, n, since, limit);
      var first := page.next - |page.events|;
      && since <= first <= page.next <= |log| && page.events == log[first..page.next]
      && (since < |log| ==> since < page.next)
      && (since < first <==> page.truncated || (since == 0 && |log| > n))
      && !(page.truncated && since == 0)
      && (since < first ==> first == Lost(log, n))
  {}

  lemma PollFaithful(n: nat, r: Reader, limit: int)
    requires n > 0 && Faithful(n, r)
    ensures Faithful(n, Polls(n, r, limit))
  {
    hide Answer, Outside, Past, Lost;
    PageMarks(r.log, n, r.cursor, limit);
    var page := Answer(r.log, n, r.cursor, limit);
    var first := page.next - |page.events|;
    var end := Least(r.cursor, Lost(r.log, n));
    if r.cursor == 0 {
      NothingSeen(r.log, r.began, first);
      PastLater([], end, first);
      OutsideReads(r.log, first, first, page.next, []);
      PastLater([], end, Least(page.next, Lost(r.log, n)));
    } else if page.truncated {
      PastLater(r.gaps, end, r.cursor);
      PastMore(r.gaps, end, r.cursor, first);
      OutsideSkips(r.log, r.began, r.cursor, first, first, r.gaps);
      OutsideReads(r.log, r.began, first, page.next, r.gaps + [(r.cursor, first)]);
    } else {
      PastLater(r.gaps, end, r.cursor);
      OutsideReads(r.log, r.began, r.cursor, page.next, r.gaps);
      PastLater(r.gaps, end, Least(page.next, Lost(r.log, n)));
    }
  }

  lemma NothingSeen(log: seq<Event>, from: nat, first: nat)
    requires first <= |log|
    ensures Outside(log, from, 0, []) == [] && Outside(log, first, first, []) == []
  {}

  /** Whatever the mix of emits, drops, limits and wraparounds. */
  lemma {:induction false} RunFaithful(n: nat, r: Reader, steps: seq<Step>)
    requires n > 0 && Faithful(n, r)
    ensures Faithful(n, Run(n, r, steps))
    decreases |steps|
  {
    if steps != [] {
      match steps[0] {
        case Emitted(body) => OutsideGrows(r.log, Event(|r.log| + 1, body), r.began, r.cursor, r.gaps);
        case Dropped =>
        case Polled(limit) => PollFaithful(n, r, limit);
      }
      RunFaithful(n, Took(n, r, steps[0]), steps[1..]);
    }
  }

  /** A reader none of whose pages was marked has the log itself, from where it began. */
  lemma UnmarkedHasAll(n: nat, log: seq<Event>, cursor: nat, steps: seq<Step>)
    requires n > 0 && cursor <= |log|
    requires Run(n, Reader(log, cursor, [], cursor, []), steps).gaps == []
    ensures var r := Run(n, Reader(log, cursor, [], cursor, []), steps);
      r.began <= r.cursor <= |r.log| && r.seen == r.log[r.began..r.cursor]
  {
    var start := Reader(log, cursor, [], cursor, []);
    RunFaithful(n, start, steps);
    var r := Run(n, start, steps);
    OutsideReads(r.log, r.began, r.began, r.cursor, []);
  }

  /** Reading begins at the cursor a reader starts with, unless that is zero. */
  lemma {:induction false} BeganAtCursor(n: nat, r: Reader, steps: seq<Step>)
    requires n > 0 && 0 < r.cursor <= |r.log|
    ensures Run(n, r, steps).began == r.began && Run(n, r, steps).cursor >= r.cursor
    decreases |steps|
  {
    if steps != [] { BeganAtCursor(n, Took(n, r, steps[0]), steps[1..]); }
  }

  /** So a reader that polled an empty ring and comes back after n + 1 events
      misses the first one, on a page that is not marked. */
  lemma UnmarkedLoss(n: nat, log: seq<Event>, limit: int)
    requires n > 0 && |log| == n + 1
    ensures Answer([], n, 0, limit).next == 0
    ensures var page := Answer(log, n, 0, limit);
      !page.truncated && page.events != [] && page.events[0] == log[1]
  {}

  /** A cursor ahead of the log, as after a restart, is brought back to its end. */
  lemma RestartResyncs(log: seq<Event>, n: nat, since: nat, limit: int)
    requires n > 0 && since >= |log|
    ensures Answer(log, n, since, limit) == Page([], |log|, false)
  {}
}
