/** One device's address book: versions, tombstones and the whole-list replace. */
module Directory {
  import opened Common

  type Id = string
  type Uri = string

  datatype Contact = Contact(id: Id, name: string, uri: Uri, mode: string, favourite: bool, version: nat, deleted: bool)

  datatype Dir = Dir(version: nat, contacts: map<Id, Contact>)

  datatype Error = Invalid | VersionMismatch | Store

  datatype Result<T> = Ok(value: T) | Err(error: Error)

  datatype Counts = Counts(version: nat, added: nat, changed: nat, removed: nat)

  function Lower(c: char): char {
    if 'A' <= c <= 'Z' then c + ('a' - 'A') else c
  }

  /** The one equivalence of URIs. */
  function Fold(uri: Uri): Uri { seq(|uri|, i requires 0 <= i < |uri| => Lower(uri[i])) }

  predicate SameLetter(a: char, b: char) {
    a == b || ('A' <= a <= 'Z' && b as int == a as int + 32) || ('A' <= b <= 'Z' && a as int == b as int + 32)
  }

  /** Two URIs are one exactly when they differ at most in the case of letters. */
  lemma FoldedAlike(u: Uri, w: Uri)
    ensures Fold(u) == Fold(w) <==> |u| == |w| && forall i :: 0 <= i < |u| ==> SameLetter(u[i], w[i])
  {
    if Fold(u) == Fold(w) {
      assert |Fold(u)| == |u| && |Fold(w)| == |w|;
      forall i | 0 <= i < |u| ensures SameLetter(u[i], w[i]) { assert Fold(u)[i] == Fold(w)[i]; }
    }
  }

  predicate ValidContact(c: Contact) { c.uri != "" && (c.mode == "local" || c.mode == "trunk") }

  /** What a list says about a contact, apart from its URI. */
  datatype Content = Content(name: string, mode: string, favourite: bool)

  function ContentOf(c: Contact): Content { Content(c.name, c.mode, c.favourite) }

  /** Contacts are stored under their ids, and every version has been issued. */
  ghost predicate WellFormed(d: Dir) {
    forall id :: id in d.contacts ==> d.contacts[id].id == id && id != "" && 1 <= d.contacts[id].version <= d.version
  }

  /** The live contacts for a folded URI. */
  function Matches(d: Dir, u: Uri): set<Id> {
    set id | id in d.contacts && !d.contacts[id].deleted && Fold(d.contacts[id].uri) == u
  }

  function Tombstone(c: Contact, v: nat): Contact { c.(deleted := true, version := v) }

  /** A write that clients can follow: ids are never forgotten, and whatever changed carries a new version. */
  ghost predicate Advances(d: Dir, d': Dir) {
    && WellFormed(d') && d.version <= d'.version && d.contacts.Keys <= d'.contacts.Keys
    && forall id :: id in d'.contacts ==>
      (id in d.contacts && d'.contacts[id] == d.contacts[id]) || d'.contacts[id].version > d.version
  }

  /** What an upsert of c does, apart from the choice among contacts that already share its URI. */
  ghost predicate Upserted(d: Dir, c: Contact, v: nat, newId: Id, d': Dir, out: Contact, existed: bool) {
    var same := if c.id == "" then Matches(d, Fold(c.uri)) else {};
    var ver := if v == 0 then d.version + 1 else v;
    && (if c.id != "" then out.id == c.id && (existed <==> c.id in d.contacts && !d.contacts[c.id].deleted)
        else if same == {} then out.id == newId && !existed else out.id in same && existed)
    && out == c.(id := out.id, version := ver, deleted := false)
    && d'.version == (if v == 0 then ver else d.version)
    && d'.contacts.Keys == d.contacts.Keys + {out.id} && d'.contacts[out.id] == out
    && forall id :: id in d.contacts && id != out.id ==>
      d'.contacts[id] == if id in same then Tombstone(d.contacts[id], ver) else d.contacts[id]
  }

  // How the contacts for one URI stand.

  datatype Standing = Absent | One(content: Content) | Many

  ghost function StandingOf(d: Dir, u: Uri): Standing {
    var m := Matches(d, u);
    if m == {} then Absent
    else if |m| == 1 then
      var id :| id in m;
      One(ContentOf(d.contacts[id]))
    else Many
  }

  lemma MatchesHaveIds(d: Dir, u: Uri)
    requires forall id :: id in d.contacts ==> d.contacts[id].id == id && id != ""
    ensures "" !in Matches(d, u) && Matches(d, u) <= d.contacts.Keys
  {}

  lemma MatchIff(d: Dir, u: Uri, id: Id)
    requires id in d.contacts
    ensures id in Matches(d, u) <==> !d.contacts[id].deleted && Fold(d.contacts[id].uri) == u
  {}

  /** The duplicates the loop has come past. */
  ghost function Visited(same: set<Id>, keep: Id, todo: set<Id>): set<Id> {
    if keep == "" then {} else same - {keep} - todo
  }

  lemma NothingVisited(same: set<Id>, todo: set<Id>)
    ensures Visited(same, "", todo) == {}
  {}

  lemma VisitedStep(same: set<Id>, keep: Id, todo: set<Id>, id: Id)
    requires id in todo && id != "" && (if keep == "" then same <= todo else keep !in todo)
    ensures todo - {id} + {id} == todo
    ensures id !in Visited(same, keep, todo)
    ensures keep == "" ==> Visited(same, id, todo - {id}) == {}
    ensures keep == "" ==> Visited(same, keep, todo - {id}) == {} && Visited(same, keep, todo) == {}
    ensures keep == "" && id !in same ==> same <= todo - {id}
    ensures keep != "" ==>
      Visited(same, keep, todo - {id}) ==
        if id in same then Visited(same, keep, todo) + {id} else Visited(same, keep, todo)
  {}

  lemma AllVisited(same: set<Id>, keep: Id)
    requires if keep == "" then same <= {} else keep in same
    ensures Visited(same, keep, {}) == same - {keep}
    ensures keep == "" ==> same == {}
  {}

  /** The contacts with these ones tombstoned at a version. */
  ghost predicate Collapsed(before: map<Id, Contact>, after: map<Id, Contact>, gone: set<Id>, v: nat) {
    && after.Keys == before.Keys
    && forall id :: id in before ==> after[id] == if id in gone then Tombstone(before[id], v) else before[id]
  }

  lemma NothingLess(id: Id)
    ensures {} - {id} == {}
  {}

  lemma CollapsedNone(m: map<Id, Contact>, v: nat)
    ensures Collapsed(m, m, {}, v)
  {}

  lemma CollapsedAt(before: map<Id, Contact>, after: map<Id, Contact>, gone: set<Id>, v: nat, id: Id)
    requires Collapsed(before, after, gone, v) && id in before
    ensures after.Keys == before.Keys && (id !in gone ==> after[id] == before[id])
  {}

  lemma CollapsedMore(before: map<Id, Contact>, after: map<Id, Contact>, gone: set<Id>, v: nat, id: Id)
    requires Collapsed(before, after, gone, v) && id in before && id !in gone && id in after
    ensures Collapsed(before, after[id := Tombstone(after[id], v)], gone + {id}, v)
  {
    hide Tombstone;
  }

  /** The directory during the loop: these contacts tombstoned, the version taken only once. */
  ghost predicate CollapseState(d: Dir, m: Dir, v0: nat, v: nat, gone: set<Id>) {
    var ver := if v0 == 0 then d.version + 1 else v0;
    && (v == v0 || (v0 == 0 && v == ver)) && m.version == (if v0 == 0 && v != 0 then ver else d.version)
    && Collapsed(d.contacts, m.contacts, gone, ver)
  }

  lemma CollapseStart(d: Dir, v0: nat)
    ensures CollapseState(d, d, v0, v0, {})
  {}

  lemma CollapseStep(d: Dir, m: Dir, v0: nat, v: nat, gone: set<Id>, id: Id)
    requires CollapseState(d, m, v0, v, gone) && id in d.contacts && id !in gone
    ensures m.contacts.Keys == d.contacts.Keys && m.contacts[id] == d.contacts[id]
    ensures var v' := if v == 0 then m.version + 1 else v;
      var m' := Dir(if v == 0 then v' else m.version, m.contacts[id := Tombstone(m.contacts[id], v')]);
      CollapseState(d, m', v0, v', gone + {id})
  {
    hide Tombstone;
  }

  lemma UpsertFinished(d: Dir, c: Contact, v0: nat, newId: Id, mid: map<Id, Contact>, out: Contact, existed: bool)
    requires forall id :: id in d.contacts ==> d.contacts[id].id == id && id != ""
    requires var same := if c.id == "" then Matches(d, Fold(c.uri)) else {};
      var ver := if v0 == 0 then d.version + 1 else v0;
      && Collapsed(d.contacts, mid, same - {out.id}, ver)
      && (if c.id != "" then out.id == c.id && (existed <==> c.id in d.contacts && !d.contacts[c.id].deleted)
          else if same == {} then out.id == newId && !existed else out.id in same && existed)
      && out == c.(id := out.id, version := ver, deleted := false)
    ensures var d' := Dir(if v0 == 0 then d.version + 1 else d.version, mid[out.id := out]);
      Upserted(d, c, v0, newId, d', out, existed)
  {
    hide Fold, Matches, Tombstone;
  }

  lemma Singleton<T>(s: set<T>, t: T)
    requires t in s && |s| == 1
    ensures s == {t}
  {
    assert |s - {t}| == 0;
    assert s == (s - {t}) + {t};
  }

  lemma StandingOne(d: Dir, u: Uri, id: Id)
    requires Matches(d, u) == {id}
    ensures StandingOf(d, u) == One(ContentOf(d.contacts[id]))
  {
    assert id in Matches(d, u);
  }

  lemma StandingSame(d: Dir, d': Dir, u: Uri)
    requires Matches(d, u) == Matches(d', u)
    requires forall id :: id in Matches(d, u) ==> ContentOf(d.contacts[id]) == ContentOf(d'.contacts[id])
    ensures StandingOf(d, u) == StandingOf(d', u)
  {
    if |Matches(d, u)| == 1 {
      var id :| id in Matches(d, u);
      Singleton(Matches(d, u), id);
      StandingOne(d, u, id);
      StandingOne(d', u, id);
    }
  }

  /** An upsert by URI leaves exactly one live contact for that URI, with the new content, and moves no other URI. */
  lemma UpsertStanding(d: Dir, c: Contact, v: nat, newId: Id, d': Dir, out: Contact, existed: bool, u: Uri)
    requires c.id == "" && newId !in d.contacts && Upserted(d, c, v, newId, d', out, existed)
    ensures StandingOf(d', u) == if u == Fold(c.uri) then One(ContentOf(c)) else StandingOf(d, u)
    ensures existed <==> StandingOf(d, Fold(c.uri)) != Absent
  {
    hide Fold;
    if u == Fold(c.uri) {
      assert Matches(d', u) == {out.id};
      StandingOne(d', u, out.id);
    } else {
      assert Matches(d', u) == Matches(d, u);
      StandingSame(d, d', u);
    }
  }

  // The whole-list replace, URI by URI.

  /** How a URI stands after the first n contacts of the list have been dealt with. */
  ghost function StandingAfter(d: Dir, list: seq<Contact>, n: nat, u: Uri): Standing
    requires n <= |list|
    decreases n
  {
    if n == 0 then StandingOf(d, u)
    else if Fold(list[n - 1].uri) == u then One(ContentOf(list[n - 1]))
    else StandingAfter(d, list, n - 1, u)
  }

  ghost predicate Unchanged(d: Dir, list: seq<Contact>, i: nat)
    requires i < |list|
  {
    StandingAfter(d, list, i, Fold(list[i].uri)) == One(ContentOf(list[i]))
  }

  ghost function AddedCount(d: Dir, list: seq<Contact>, n: nat): nat
    requires n <= |list|
    decreases n
  {
    if n == 0 then 0
    else AddedCount(d, list, n - 1) + (if StandingAfter(d, list, n - 1, Fold(list[n - 1].uri)) == Absent then 1 else 0)
  }

  ghost function ChangedCount(d: Dir, list: seq<Contact>, n: nat): nat
    requires n <= |list|
    decreases n
  {
    if n == 0 then 0
    else
      var st := StandingAfter(d, list, n - 1, Fold(list[n - 1].uri));
      ChangedCount(d, list, n - 1) + (if st != Absent && !Unchanged(d, list, n - 1) then 1 else 0)
  }

  ghost predicate Listed(list: seq<Contact>, n: nat, u: Uri)
    requires n <= |list|
  {
    exists i :: 0 <= i < n && Fold(list[i].uri) == u
  }

  /** The live contacts whose URI the list does not name. */
  ghost function Unlisted(d: Dir, list: seq<Contact>): set<Id> {
    set id | id in d.contacts && !d.contacts[id].deleted && !Listed(list, |list|, Fold(d.contacts[id].uri))
  }

  /** What a replace reports, a function of the directory and the list alone. */
  ghost function ReplaceCounts(d: Dir, list: seq<Contact>): Counts {
    var added, changed, removed := AddedCount(d, list, |list|), ChangedCount(d, list, |list|), |Unlisted(d, list)|;
    Counts(if added + changed + removed > 0 then d.version + 1 else d.version, added, changed, removed)
  }

  ghost function Changes(c: Counts): nat { c.added + c.changed + c.removed }

  /** One contact before and after a replace: whatever changed carries the one new version, and a contact that
      is alone for its URI and identical to all its entries in the list is left alone. */
  ghost predicate ReplacedAt(d: Dir, list: seq<Contact>, d': Dir, id: Id) {
    && (id in d.contacts ==>
      id in d'.contacts && (d'.contacts[id] == d.contacts[id] || d'.contacts[id].version == d.version + 1))
    && (id in d'.contacts && id !in d.contacts ==> d'.contacts[id].version == d.version + 1)
    && (id in d.contacts && KeptBy(d, list, id) ==> d'.contacts[id] == d.contacts[id])
  }

  /** What a replace leaves behind: one live contact for each listed URI, with the content listed last, and none
      for any other; and no new version when nothing changed. */
  ghost predicate Replaced(d: Dir, list: seq<Contact>, d': Dir) {
    && (forall u :: StandingOf(d', u) == if Listed(list, |list|, u) then StandingAfter(d, list, |list|, u) else Absent)
    && (forall id :: ReplacedAt(d, list, d', id))
    && d'.version == ReplaceCounts(d, list).version
    && (Changes(ReplaceCounts(d, list)) == 0 ==> d' == d)
  }

  ghost predicate KeptBy(d: Dir, list: seq<Contact>, id: Id)
    requires id in d.contacts
  {
    var c := d.contacts[id];
    !c.deleted && Matches(d, Fold(c.uri)) == {id} && Listed(list, |list|, Fold(c.uri))
    && forall i :: 0 <= i < |list| && Fold(list[i].uri) == Fold(c.uri) ==> ContentOf(list[i]) == ContentOf(c)
  }

  /** One contact during a replace, after n contacts of the list. */
  ghost predicate MidAt(d: Dir, list: seq<Contact>, n: nat, m: Dir, id: Id)
    requires n <= |list|
  {
    && (id in d.contacts ==>
      id in m.contacts && (m.contacts[id] == d.contacts[id] || m.contacts[id].version == d.version + 1))
    && (id in m.contacts && id !in d.contacts ==> m.contacts[id].version == d.version + 1)
    && (id in m.contacts ==> m.contacts[id].id == id && id != "" && 1 <= m.contacts[id].version <= d.version + 1)
    && (id in m.contacts && !m.contacts[id].deleted && !Listed(list, n, Fold(m.contacts[id].uri)) ==>
      id in d.contacts && m.contacts[id] == d.contacts[id])
    && (id in d.contacts && !Listed(list, n, Fold(d.contacts[id].uri)) ==> m.contacts[id] == d.contacts[id])
    && (id in d.contacts && KeptBy(d, list, id) ==> m.contacts[id] == d.contacts[id])
  }

  /** The state of a replace after n contacts of the list, before the version is bumped. */
  ghost predicate Midway(d: Dir, list: seq<Contact>, n: nat, m: Dir)
    requires n <= |list|
  {
    && m.version == d.version
    && (forall u :: StandingOf(m, u) == StandingAfter(d, list, n, u))
    && (forall id :: MidAt(d, list, n, m, id))
    && (AddedCount(d, list, n) + ChangedCount(d, list, n) == 0 ==> m.contacts == d.contacts)
  }

  class Book {
    /** Whether the device has a directory; without one it reads as an empty one. */
    var known: bool
    var version: nat
    var contacts: map<Id, Contact>

    ghost predicate Valid()
      reads this
    {
      WellFormed(Now()) && (!known ==> Now() == Dir(0, map[]))
    }

    ghost function Now(): Dir
      reads this
    {
      Dir(version, contacts)
    }

    constructor (d: Dir)
      ensures Now() == d && known
    {
      known, version, contacts := true, d.version, d.contacts;
    }

    constructor Unknown()
      ensures Valid() && !known
    {
      known, version, contacts := false, 0, map[];
    }

    /** The body of upsertLocked's loop, for one contact. */
    method CollapseOne(id: Id, uri: Uri, keep0: Id, v0: nat) returns (keep: Id, v: nat)
      requires id in contacts && contacts[id].id == id
      modifies `version, `contacts
      ensures var c := old(contacts)[id];
        if c.deleted || Fold(c.uri) != Fold(uri) then (keep, v) == (keep0, v0) && Now() == old(Now())
        else if keep0 == "" then (keep, v) == (id, v0) && Now() == old(Now())
        else
          && keep == keep0 && v == (if v0 == 0 then old(version) + 1 else v0)
          && Now() == Dir(if v0 == 0 then v else old(version), old(contacts)[id := Tombstone(c, v)])
    {
      hide Fold;
      keep, v := keep0, v0;
      var existing := contacts[id];
      if existing.deleted || Fold(existing.uri) != Fold(uri) {
        return;
      }
      if keep == "" {
        keep := existing.id;
        return;
      }
      if v == 0 {
        version := version + 1;
        v := version;
      }
      contacts := contacts[id := existing.(deleted := true, version := v)];
    }

    /** upsertLocked's loop, for any order of the map iteration: one live contact with the URI is kept, and the
        others are tombstoned at v, or at a new version when v is zero. */
    method Collapse(uri: Uri, v0: nat) returns (keep: Id, v: nat)
      requires forall id :: id in contacts ==> contacts[id].id == id && id != ""
      modifies `version, `contacts
      ensures var (d, same) := (old(Now()), Matches(old(Now()), Fold(uri)));
        && (if same == {} then keep == "" else keep in same)
        && CollapseState(d, Now(), v0, v, same - {keep})
    {
      hide Fold, Matches, Tombstone, Visited, CollapseState;
      keep, v := "", v0;
      ghost var d, same := Now(), Matches(Now(), Fold(uri));
      MatchesHaveIds(d, Fold(uri));
      CollapseStart(d, v0);
      NothingVisited(same, contacts.Keys);
      var todo := contacts.Keys;
      while todo != {}
        invariant todo <= d.contacts.Keys
        invariant if keep == "" then same <= todo else keep in same && keep !in todo
        invariant CollapseState(d, Now(), v0, v, Visited(same, keep, todo))
        decreases |todo|
      {
        var id :| id in todo;
        VisitedStep(same, keep, todo, id);
        CollapseStep(d, Now(), v0, v, Visited(same, keep, todo), id);
        MatchIff(d, Fold(uri), id);
        todo := todo - {id};
        keep, v := CollapseOne(id, uri, keep, v);
      }
      AllVisited(same, keep);
    }

    method UpsertLocked(c0: Contact, v0: nat, newId: Id) returns (out: Contact, existed: bool)
      requires forall id :: id in contacts ==> contacts[id].id == id && id != ""
      requires newId !in contacts && newId != ""
      modifies `version, `contacts
      ensures Upserted(old(Now()), c0, v0, newId, Now(), out, existed)
    {
      hide Fold, Matches, Tombstone, Upserted;
      ghost var d := Now();
      var c, v := c0, v0;
      existed := false;
      if c.id == "" {
        var keep;
        keep, v := Collapse(c.uri, v);
        c := c.(id := keep);
        existed := keep != "";
        MatchesHaveIds(d, Fold(c.uri));
        if keep == "" { assert Matches(d, Fold(c.uri)) - {keep} == {} == Matches(d, Fold(c.uri)) - {newId}; }
      } else {
        CollapsedNone(contacts, if v0 == 0 then version + 1 else v0);
        NothingLess(c.id);
        if c.id in contacts && !contacts[c.id].deleted {
          existed := true;
        }
      }
      if c.id == "" {
        c := c.(id := newId);
      }
      if v == 0 {
        version := version + 1;
        v := version;
      }
      out := c.(version := v, deleted := false);
      UpsertFinished(d, c0, v0, newId, contacts, out, existed);
      contacts := contacts[out.id := out];
    }

    /** The one live contact with a URI; none when there are duplicates. */
    method LiveByURI(uri: Uri) returns (found: Option<Contact>)
      ensures |Matches(Now(), Fold(uri))| != 1 ==> found.None?
      ensures |Matches(Now(), Fold(uri))| == 1 ==>
        found.Some? && exists id :: id in contacts && Matches(Now(), Fold(uri)) == {id} && found.value == contacts[id]
    {
      hide Fold;
      found := None;
      ghost var u, holder := Fold(uri), "";
      var todo := contacts.Keys;
      while todo != {}
        invariant todo <= contacts.Keys
        invariant found.None? ==> Matches(Now(), u) <= todo
        invariant found.Some? ==>
          holder in contacts && found.value == contacts[holder] && holder !in todo && holder in Matches(Now(), u) &&
          Matches(Now(), u) - {holder} <= todo
        decreases |todo|
      {
        var id :| id in todo;
        todo := todo - {id};
        var c := contacts[id];
        if c.deleted || Fold(c.uri) != Fold(uri) {
          continue;
        }
        if found.Some? {
          TwoMembers(Matches(Now(), u), id, holder);
          return None;
        }
        found := Some(c);
        holder := id;
      }
      if found.Some? {
        assert Matches(Now(), u) == {holder};
      } else {
        assert Matches(Now(), u) == {};
      }
    }

    /** The first loop of replaceLocked: every listed contact is upserted by URI, unless it is there already. */
    method UpsertListed(list: seq<Contact>, newIds: seq<Id>) returns (added: nat, changed: nat, keep: set<Uri>)
      requires WellFormed(Now()) && FreshIds(Now(), newIds) && |newIds| == |list|
      modifies `version, `contacts
      ensures Midway(old(Now()), list, |list|, Now())
      ensures added == AddedCount(old(Now()), list, |list|) && changed == ChangedCount(old(Now()), list, |list|)
      ensures forall u :: u in keep <==> Listed(list, |list|, u)
    {
      hide Fold, Matches, Midway, Upserted, Listed, WellFormed, AddedCount, ChangedCount, Unchanged;
      ghost var d := Now();
      var v := version + 1;
      added, changed, keep := 0, 0, {};
      MidwayStart(d, list);
      for i := 0 to |list|
        invariant Midway(d, list, i, Now()) && version + 1 == v
        invariant forall j :: i <= j < |newIds| ==> newIds[j] !in contacts
        invariant added == AddedCount(d, list, i) && changed == ChangedCount(d, list, i)
        invariant forall u :: u in keep <==> Listed(list, i, u)
      {
        ghost var m := Now();
        var c := list[i].(id := "");
        keep := keep + {Fold(c.uri)};
        ListedNext(list, i);
        CountsNext(d, list, i);
        MidwayFacts(d, list, i, m);
        var same := LiveByURI(c.uri);
        if same.Some? && same.value.name == c.name && same.value.mode == c.mode && same.value.favourite == c.favourite {
          MidwaySame(d, list, i, m, same.value);
        } else {
          MidwayDiffers(d, list, i, m, same);
          var out, existed := UpsertLocked(c, v, newIds[i]);
          MidwayUpsert(d, list, i, m, newIds[i], Now(), out, existed);
          UpsertKeys(m, c, v, newIds[i], Now(), out, existed);
          if existed { changed := changed + 1; } else { added := added + 1; }
        }
      }
    }

    /** The second loop of replaceLocked, for any order of the map iteration: live contacts not kept are tombstoned. */
    method RemoveOthers(keep: set<Uri>, v: nat) returns (removed: nat)
      modifies `contacts
      ensures Collapsed(old(contacts), contacts, NotKept(old(contacts), keep), v)
      ensures removed == |NotKept(old(contacts), keep)|
    {
      hide Fold, Tombstone, Collapsed, NotKept;
      ghost var before, others := contacts, NotKept(contacts, keep);
      ghost var gone: set<Id> := {};
      CollapsedNone(contacts, v);
      NothingLeft(others);
      AmongKeys(contacts, keep);
      removed := 0;
      var todo := contacts.Keys;
      while todo != {}
        invariant todo <= before.Keys && gone == others - todo
        invariant Collapsed(before, contacts, gone, v) && removed == |gone|
        decreases |todo|
      {
        var id :| id in todo;
        CollapsedAt(before, contacts, gone, v, id);
        OtherIff(before, keep, id);
        OthersStep(others, todo, id);
        todo := todo - {id};
        var existing := contacts[id];
        if existing.deleted || Fold(existing.uri) in keep {
          continue;
        }
        CollapsedMore(before, contacts, gone, v, id);
        contacts := contacts[id := existing.(deleted := true, version := v)];
        TombstoneIs(existing, v);
        removed := removed + 1;
        gone := gone + {id};
      }
      NothingLeft(others);
    }

    /** replaceLocked. */
    method ReplaceLocked(list: seq<Contact>, newIds: seq<Id>) returns (res: Counts, changed: bool)
      requires WellFormed(Now()) && FreshIds(Now(), newIds) && |newIds| == |list|
      modifies `version, `contacts
      ensures res == ReplaceCounts(old(Now()), list) && changed == (Changes(res) > 0)
      ensures Replaced(old(Now()), list, Now()) && WellFormed(Now())
    {
      hide Fold, Midway, Collapsed, Replaced, AddedCount, ChangedCount, Listed, WellFormed, NotKept, Unlisted;
      ghost var d := Now();
      var v := version + 1;
      var added, altered, keep := UpsertListed(list, newIds);
      ghost var m := Now();
      MidwayFacts(d, list, |list|, m);
      var removed := RemoveOthers(keep, v);
      NotKeptIsUnlisted(d, list, m, keep);
      changed := added + altered + removed > 0;
      if changed { version := v; }
      res := Counts(version, added, altered, removed);
      ReplaceFinished(d, list, m, contacts);
    }

    /** Upsert: the write is memory and file together, and a failed one changes no contact.  A precondition that
        fails on a device without a directory leaves it an empty one. */
    method Upsert(c: Contact, newId: Id, expected: Option<nat>, saved: bool) returns (r: Result<Contact>)
      requires Valid() && newId !in contacts && newId != ""
      modifies this
      ensures Valid()
      ensures r.Ok? <==> ValidContact(c) && (expected.Some? ==> expected.value == old(version)) && saved
      ensures r.Ok? ==> Advances(old(Now()), Now())
      ensures r.Ok? ==> exists existed :: Upserted(old(Now()), c, 0, newId, Now(), r.value, existed)
      ensures r.Err? ==> Now() == old(Now())
      ensures known == (old(known) || r.Ok? || r == Err(VersionMismatch))
    {
      hide Fold, Upserted, Advances, Matches, WellFormed;
      ghost var d := Now();
      if !ValidContact(c) { return Err(Invalid); }
      var backupKnown, backupVersion, backup := known, version, contacts;
      known := true;
      if expected.Some? && expected.value != version { return Err(VersionMismatch); }
      StoredIds(d);
      var out, existed := UpsertLocked(c, 0, newId);
      UpsertAdvances(d, c, newId, Now(), out, existed);
      AdvancedIsWellFormed(d, Now());
      if !saved {
        known, version, contacts := backupKnown, backupVersion, backup;
        return Err(Store);
      }
      return Ok(out);
    }

    /** Delete: a device without a directory answers before any precondition is looked at. */
    method Delete(id: Id, expected: Option<nat>, saved: bool) returns (r: Result<bool>)
      requires Valid()
      modifies this
      ensures Valid() && known == old(known)
      ensures !old(known) ==> r == Ok(false)
      ensures old(known) ==> (r == Err(VersionMismatch) <==> expected.Some? && expected.value != old(version))
      ensures old(known) && (expected.Some? ==> expected.value == old(version)) ==>
        r ==
          if id !in old(contacts) || old(contacts)[id].deleted then Ok(false)
          else if saved then Ok(true) else Err(Store)
      ensures r == Ok(true) ==> Advances(old(Now()), Now()) && id in old(contacts)
      ensures r == Ok(true) ==>
        Now() == Dir(old(version) + 1, old(contacts)[id := Tombstone(old(contacts)[id], old(version) + 1)])
      ensures r != Ok(true) ==> Now() == old(Now())
    {
      if !known { return Ok(false); }
      if expected.Some? && expected.value != version { return Err(VersionMismatch); }
      if id !in contacts || contacts[id].deleted { return Ok(false); }
      var backupVersion, backup := version, contacts;
      version := version + 1;
      contacts := contacts[id := contacts[id].(deleted := true, version := version)];
      if !saved {
        version, contacts := backupVersion, backup;
        return Err(Store);
      }
      return Ok(true);
    }

    method Replace(list: seq<Contact>, newIds: seq<Id>, expected: Option<nat>, saved: bool) returns (r: Result<Counts>)
      requires Valid() && FreshIds(Now(), newIds) && |newIds| == |list|
      modifies this
      ensures Valid()
      ensures r == Err(Invalid) <==> exists i :: 0 <= i < |list| && !ValidContact(list[i])
      ensures r == Err(VersionMismatch) <==>
        (forall i :: 0 <= i < |list| ==> ValidContact(list[i])) && expected.Some? && expected.value != old(version)
      ensures r.Ok? ==> forall i :: 0 <= i < |list| ==> ValidContact(list[i])
      ensures r.Ok? && expected.Some? ==> expected.value == old(version)
      ensures r.Ok? ==> r.value == ReplaceCounts(old(Now()), list) && Replaced(old(Now()), list, Now())
      ensures r.Ok? ==> Advances(old(Now()), Now())
      ensures r.Err? ==> Now() == old(Now())
      ensures r == Err(Store) ==> Changes(ReplaceCounts(old(Now()), list)) > 0 && !saved
      ensures !saved && r.Ok? ==> Changes(ReplaceCounts(old(Now()), list)) == 0
      ensures known == (old(known) || r.Ok?)
    {
      hide Fold, Replaced, ReplaceCounts, Advances, WellFormed, ValidContact, Changes;
      ghost var d := Now();
      for i := 0 to |list|
        invariant forall j :: 0 <= j < i ==> ValidContact(list[j])
        invariant Valid() && known == old(known) && Now() == d
      {
        if !ValidContact(list[i]) { return Err(Invalid); }
      }
      var backupKnown, backupVersion, backup := known, version, contacts;
      known := true;
      if expected.Some? && expected.value != version {
        known := backupKnown;
        return Err(VersionMismatch);
      }
      var res, changed := ReplaceLocked(list, newIds);
      ReplaceAdvances(d, list, Now());
      if changed && !saved {
        known, version, contacts := backupKnown, backupVersion, backup;
        return Err(Store);
      }
      return Ok(res);
    }

    /** Replace's answer without its effect: the same reconcile on a copy. */
    method DryRun(list: seq<Contact>, newIds: seq<Id>) returns (r: Result<Counts>)
      requires WellFormed(Now()) && FreshIds(Now(), newIds) && |newIds| == |list|
      ensures r.Ok? <==> forall i :: 0 <= i < |list| ==> ValidContact(list[i])
      ensures r.Ok? ==> r.value == ReplaceCounts(Now(), list).(version := version)
    {
      hide Fold, Replaced, ReplaceCounts, WellFormed, ValidContact;
      for i := 0 to |list|
        invariant forall j :: 0 <= j < i ==> ValidContact(list[j])
      {
        if !ValidContact(list[i]) { return Err(Invalid); }
      }
      var copy := new Book(Dir(version, contacts));
      var current := copy.version;
      var res, _ := copy.ReplaceLocked(list, newIds);
      return Ok(res.(version := current));
    }

    /** The contacts changed after since, ordered by version and then by id, and the version; since 0 omits
        tombstones. */
    method ChangesSince(since: nat) returns (out: seq<Contact>, current: nat)
      requires WellFormed(Now())
      ensures current == version
      ensures Delta(Now(), since, out)
      ensures Ordered(out)
    {
      hide WellFormed, DeltaSoFar, InDelta, Ordered;
      out := [];
      var todo := contacts.Keys;
      DeltaStart(Now(), since);
      NothingOrdered();
      while todo != {}
        invariant todo <= contacts.Keys && DeltaSoFar(Now(), since, todo, out)
        invariant Ordered(out)
        decreases |todo|
      {
        var id :| id in todo;
        IdOf(Now(), id);
        InDeltaIs(contacts[id], since);
        if !InDelta(contacts[id], since) { DeltaSkip(Now(), since, todo, out, id); }
        ghost var before := todo;
        todo := todo - {id};
        if contacts[id].version <= since { continue; }
        if since == 0 && contacts[id].deleted { continue; }
        ghost var shorter := out;
        ghost var k;
        NotYetThere(Now(), since, before, out, id);
        out, k := InsertOrdered(out, contacts[id]);
        DeltaInsert(Now(), since, before, shorter, id, out, k);
      }
      DeltaDone(Now(), since, out);
      return out, version;
    }
  }

  lemma StoredIds(d: Dir)
    requires WellFormed(d)
    ensures forall id :: id in d.contacts ==> d.contacts[id].id == id && id != ""
  {}

  lemma AdvancedIsWellFormed(d: Dir, d': Dir)
    requires Advances(d, d')
    ensures WellFormed(d')
  {}

  /** The delta, except for the contacts still to be visited. */
  ghost predicate DeltaSoFar(d: Dir, since: nat, todo: set<Id>, out: seq<Contact>) {
    && (forall i :: 0 <= i < |out| ==>
      out[i].id in d.contacts && out[i].id !in todo && d.contacts[out[i].id] == out[i] && InDelta(out[i], since))
    && (forall id :: id in d.contacts && id !in todo && InDelta(d.contacts[id], since) ==> d.contacts[id] in out)
    && (forall i, j :: 0 <= i < j < |out| ==> out[i].id != out[j].id)
  }

  lemma InDeltaIs(c: Contact, since: nat)
    ensures InDelta(c, since) <==> c.version > since && !(since == 0 && c.deleted)
  {}

  lemma DeltaStart(d: Dir, since: nat)
    ensures DeltaSoFar(d, since, d.contacts.Keys, [])
  {}

  lemma DeltaSkip(d: Dir, since: nat, todo: set<Id>, out: seq<Contact>, id: Id)
    requires DeltaSoFar(d, since, todo, out) && id in todo && id in d.contacts && !InDelta(d.contacts[id], since)
    ensures DeltaSoFar(d, since, todo - {id}, out)
  {
    hide InDelta;
  }

  /** t is s with c inserted at k. */
  ghost predicate Inserted(s: seq<Contact>, c: Contact, k: nat, t: seq<Contact>) {
    && k <= |s| && |t| == |s| + 1 && t[k] == c
    && (forall i :: 0 <= i < k ==> t[i] == s[i]) && (forall i :: k < i < |t| ==> t[i] == s[i - 1])
  }

  lemma InsertedHas(s: seq<Contact>, c: Contact, k: nat, t: seq<Contact>, d: Contact)
    requires Inserted(s, c, k, t)
    ensures d in t <==> d == c || d in s
  {
    if d in s {
      var i :| 0 <= i < |s| && s[i] == d;
      assert t[if i < k then i else i + 1] == d;
    }
  }

  lemma InsertedDistinct(s: seq<Contact>, c: Contact, k: nat, t: seq<Contact>)
    requires Inserted(s, c, k, t) && forall i :: 0 <= i < |s| ==> s[i].id != c.id
    requires forall i, j :: 0 <= i < j < |s| ==> s[i].id != s[j].id
    ensures forall i, j :: 0 <= i < j < |t| ==> t[i].id != t[j].id
  {
    forall i, j | 0 <= i < j < |t| ensures t[i].id != t[j].id {
      var i', j' := if i < k then i else i - 1, if j < k then j else j - 1;
      if i != k && j != k { assert s[i'].id != s[j'].id; }
    }
  }

  lemma DeltaInsert(d: Dir, since: nat, todo: set<Id>, out: seq<Contact>, id: Id, t: seq<Contact>, k: nat)
    requires DeltaSoFar(d, since, todo, out) && id in todo && id in d.contacts && InDelta(d.contacts[id], since) &&
      d.contacts[id].id == id
    requires Inserted(out, d.contacts[id], k, t)
    ensures DeltaSoFar(d, since, todo - {id}, t)
  {
    hide InDelta;
    var c := d.contacts[id];
    forall i | 0 <= i < |out| ensures out[i].id != c.id {}
    InsertedDistinct(out, c, k, t);
    forall other | other in d.contacts && other !in todo - {id} && InDelta(d.contacts[other], since)
      ensures d.contacts[other] in t
    {
      InsertedHas(out, c, k, t, d.contacts[other]);
    }
    forall i | 0 <= i < |t|
      ensures t[i].id in d.contacts && t[i].id !in todo - {id} && d.contacts[t[i].id] == t[i] && InDelta(t[i], since)
    {
      if i != k { assert t[i] == out[if i < k then i else i - 1]; }
    }
  }

  lemma DeltaDone(d: Dir, since: nat, out: seq<Contact>)
    requires DeltaSoFar(d, since, {}, out)
    ensures Delta(d, since, out)
  {
    hide InDelta;
  }

  lemma IdOf(d: Dir, id: Id)
    requires WellFormed(d) && id in d.contacts
    ensures d.contacts[id].id == id
  {}

  lemma TombstoneIs(c: Contact, v: nat)
    ensures c.(deleted := true, version := v) == Tombstone(c, v)
  {}

  /** The order of strings, character by character. */
  predicate Less(a: string, b: string) {
    b != "" && (a == "" || a[0] < b[0] || (a[0] == b[0] && Less(a[1..], b[1..])))
  }

  lemma {:induction false} LessTotal(a: string, b: string)
    requires a != b
    ensures Less(a, b) || Less(b, a)
  {
    if a != "" && b != "" && a[0] == b[0] {
      assert a == [a[0]] + a[1..] && b == [b[0]] + b[1..];
      LessTotal(a[1..], b[1..]);
    }
  }

  lemma {:induction false} LessTransitive(a: string, b: string, c: string)
    requires Less(a, b) && Less(b, c)
    ensures Less(a, c)
  {
    if a != "" && a[0] == b[0] == c[0] { LessTransitive(a[1..], b[1..], c[1..]); }
  }

  predicate Earlier(a: Contact, b: Contact) { a.version < b.version || (a.version == b.version && Less(a.id, b.id)) }

  predicate Ordered(s: seq<Contact>) { forall i, j :: 0 <= i < j < |s| ==> Earlier(s[i], s[j]) }

  /** That order spelled out: versions rise, and equal versions go by id, like words in a dictionary. */
  lemma OrderedIs(s: seq<Contact>)
    ensures Ordered(s) <==> forall i, j :: 0 <= i < j < |s| ==>
      s[i].version < s[j].version || (s[i].version == s[j].version && Less(s[i].id, s[j].id))
  {}

  lemma {:induction false} LessIs(a: string, b: string)
    ensures Less(a, b) <==>
      exists k :: 0 <= k <= |a| && k < |b| && a[..k] == b[..k] && (k == |a| || a[k] < b[k])
    decreases |a|
  {
    if a != "" && b != "" && a[0] == b[0] {
      LessIs(a[1..], b[1..]);
      var (x, y) := (a[1..], b[1..]);
      if k :| 0 <= k <= |x| && k < |y| && x[..k] == y[..k] && (k == |x| || x[k] < y[k]) {
        assert a[..k + 1] == [a[0]] + x[..k] && b[..k + 1] == [b[0]] + y[..k];
      }
      if k :| 0 <= k <= |a| && k < |b| && a[..k] == b[..k] && (k == |a| || a[k] < b[k]) {
        assert k > 0;
        assert x[..k - 1] == a[..k][1..] && y[..k - 1] == b[..k][1..];
      }
    } else if b != "" {
      assert a[..0] == b[..0];
      forall k | 0 < k <= |a| && k < |b| ensures a[0] == a[..k][0] && b[0] == b[..k][0] {}
    }
  }

  lemma NothingOrdered()
    ensures Ordered([])
  {}

  lemma EarlierTransitive(a: Contact, b: Contact, c: Contact)
    requires Earlier(a, b) && Earlier(b, c)
    ensures Earlier(a, c)
  {
    if a.version == b.version == c.version { LessTransitive(a.id, b.id, c.id); }
  }

  lemma EarlierTotal(a: Contact, b: Contact)
    requires a.id != b.id
    ensures Earlier(a, b) || Earlier(b, a)
  {
    if a.version == b.version { LessTotal(a.id, b.id); }
  }

  lemma NotYetThere(d: Dir, since: nat, todo: set<Id>, out: seq<Contact>, id: Id)
    requires DeltaSoFar(d, since, todo, out) && id in todo && id in d.contacts && d.contacts[id].id == id
    ensures forall i :: 0 <= i < |out| ==> out[i].id != d.contacts[id].id
  {}

  lemma InsertedOrdered(s: seq<Contact>, c: Contact, k: nat, t: seq<Contact>)
    requires Ordered(s) && Inserted(s, c, k, t)
    requires forall i :: 0 <= i < k ==> Earlier(s[i], c)
    requires forall i :: k <= i < |s| ==> Earlier(c, s[i])
    ensures Ordered(t)
  {
    hide Earlier;
    forall i, j | 0 <= i < j < |t| ensures Earlier(t[i], t[j]) {
      assert j < k ==> t[i] == s[i] && t[j] == s[j];
      assert i > k ==> t[i] == s[i - 1] && t[j] == s[j - 1];
    }
  }

  /** The sort of the delta, one contact at a time. */
  method InsertOrdered(s: seq<Contact>, c: Contact) returns (t: seq<Contact>, ghost at: nat)
    requires Ordered(s) && forall i :: 0 <= i < |s| ==> s[i].id != c.id
    ensures Ordered(t) && Inserted(s, c, at, t)
  {
    hide Earlier;
    var k := |s|;
    while k > 0 && Earlier(c, s[k - 1])
      invariant 0 <= k <= |s| && forall i :: k <= i < |s| ==> Earlier(c, s[i])
    {
      k := k - 1;
    }
    t := s[..k] + [c] + s[k..];
    at := k;
    assert Inserted(s, c, k, t);
    forall i | 0 <= i < k ensures Earlier(s[i], c) {
      EarlierTotal(s[k - 1], c);
      if i < k - 1 { EarlierTransitive(s[i], s[k - 1], c); }
    }
    InsertedOrdered(s, c, k, t);
  }

  predicate InDelta(c: Contact, since: nat) { c.version > since && !(since == 0 && c.deleted) }

  /** Every contact of the delta, once. */
  ghost predicate Delta(d: Dir, since: nat, cs: seq<Contact>) {
    && (forall i :: 0 <= i < |cs| ==> cs[i].id in d.contacts && d.contacts[cs[i].id] == cs[i] && InDelta(cs[i], since))
    && (forall id :: id in d.contacts && InDelta(d.contacts[id], since) ==> d.contacts[id] in cs)
    && forall i, j :: 0 <= i < j < |cs| ==> cs[i].id != cs[j].id
  }

  ghost function NotKept(m: map<Id, Contact>, keep: set<Uri>): set<Id> {
    set id | id in m && !m[id].deleted && Fold(m[id].uri) !in keep
  }

  lemma OtherIff(m: map<Id, Contact>, keep: set<Uri>, id: Id)
    requires id in m
    ensures id in NotKept(m, keep) <==> !m[id].deleted && Fold(m[id].uri) !in keep
  {}

  lemma AmongKeys(m: map<Id, Contact>, keep: set<Uri>)
    ensures NotKept(m, keep) - m.Keys == {}
  {}

  lemma OthersStep(others: set<Id>, todo: set<Id>, id: Id)
    requires id in todo
    ensures id !in others - todo
    ensures others - (todo - {id}) == if id in others then (others - todo) + {id} else others - todo
  {}

  lemma NothingLeft(others: set<Id>)
    ensures others - {} == others
  {}

  lemma NotKeptIsUnlisted(d: Dir, list: seq<Contact>, m: Dir, keep: set<Uri>)
    requires Midway(d, list, |list|, m) && forall u :: u in keep <==> Listed(list, |list|, u)
    ensures NotKept(m.contacts, keep) == Unlisted(d, list)
  {
    hide Fold, Listed, KeptBy, StandingOf, StandingAfter, AddedCount, ChangedCount;
    forall id ensures id in NotKept(m.contacts, keep) <==> id in Unlisted(d, list) {
      assert MidAt(d, list, |list|, m, id);
    }
  }

  lemma ReplacedStanding(d: Dir, list: seq<Contact>, m: Dir, d': Dir, u: Uri)
    requires Midway(d, list, |list|, m) && Collapsed(m.contacts, d'.contacts, Unlisted(d, list), d.version + 1)
    ensures StandingOf(d', u) == if Listed(list, |list|, u) then StandingAfter(d, list, |list|, u) else Absent
  {
    hide Fold, Listed, KeptBy, StandingAfter, AddedCount, ChangedCount;
    forall id | id in m.contacts ensures id in Matches(d', u) <==> Listed(list, |list|, u) && id in Matches(m, u) {
      assert MidAt(d, list, |list|, m, id);
    }
    if Listed(list, |list|, u) {
      assert Matches(d', u) == Matches(m, u);
      StandingSame(m, d', u);
    } else {
      assert Matches(d', u) == {};
    }
  }

  lemma ReplaceFinished(d: Dir, list: seq<Contact>, m: Dir, after: map<Id, Contact>)
    requires WellFormed(d) && Midway(d, list, |list|, m) &&
      Collapsed(m.contacts, after, Unlisted(d, list), d.version + 1)
    ensures Replaced(d, list, Dir(ReplaceCounts(d, list).version, after))
    ensures WellFormed(Dir(ReplaceCounts(d, list).version, after))
  {
    hide Fold, Listed, StandingAfter, StandingOf, AddedCount, ChangedCount;
    var d' := Dir(ReplaceCounts(d, list).version, after);
    forall u
      ensures StandingOf(d', u) == if Listed(list, |list|, u) then StandingAfter(d, list, |list|, u) else Absent
    {
      ReplacedStanding(d, list, m, d', u);
    }
    hide Matches;
    if Changes(ReplaceCounts(d, list)) == 0 {
      assert Unlisted(d, list) == {};
      assert after == d.contacts;
    }
    forall id ensures ReplacedAt(d, list, d', id) {
      assert MidAt(d, list, |list|, m, id);
    }
    forall id | id in after ensures after[id].id == id && id != "" && 1 <= after[id].version <= d'.version {
      assert MidAt(d, list, |list|, m, id);
    }
  }

  lemma UpsertAdvances(d: Dir, c: Contact, newId: Id, d': Dir, out: Contact, existed: bool)
    requires WellFormed(d) && newId != "" && Upserted(d, c, 0, newId, d', out, existed)
    ensures Advances(d, d')
  {
    hide Fold, Matches;
    MatchesHaveIds(d, Fold(c.uri));
  }

  lemma ReplaceAdvances(d: Dir, list: seq<Contact>, d': Dir)
    requires WellFormed(d) && WellFormed(d') && Replaced(d, list, d')
    ensures Advances(d, d')
  {
    hide Fold, Listed, StandingAfter, StandingOf, AddedCount, ChangedCount, KeptBy;
    forall id ensures id in d.contacts ==> id in d'.contacts { assert ReplacedAt(d, list, d', id); }
    forall id | id in d'.contacts
      ensures (id in d.contacts && d'.contacts[id] == d.contacts[id]) || d'.contacts[id].version > d.version
    {
      assert ReplacedAt(d, list, d', id);
    }
  }

  /** Enough generated ids, all new. */
  ghost predicate FreshIds(d: Dir, ids: seq<Id>) {
    && (forall i :: 0 <= i < |ids| ==> ids[i] != "" && ids[i] !in d.contacts)
    && forall i, j :: 0 <= i < j < |ids| ==> ids[i] != ids[j]
  }

  lemma MidwayStart(d: Dir, list: seq<Contact>)
    requires WellFormed(d)
    ensures Midway(d, list, 0, d) && AddedCount(d, list, 0) == 0 && ChangedCount(d, list, 0) == 0
    ensures forall u :: !Listed(list, 0, u)
  {
    hide Fold, StandingOf, KeptBy;
    forall id ensures MidAt(d, list, 0, d, id) {}
  }

  lemma ListedNext(list: seq<Contact>, i: nat)
    requires i < |list|
    ensures forall u :: Listed(list, i + 1, u) <==> Listed(list, i, u) || u == Fold(list[i].uri)
  {
    hide Fold;
    forall u ensures Listed(list, i + 1, u) <==> Listed(list, i, u) || u == Fold(list[i].uri) {
      if Listed(list, i, u) {
        var j :| 0 <= j < i && Fold(list[j].uri) == u;
        assert 0 <= j < i + 1 && Fold(list[j].uri) == u;
      }
      if u == Fold(list[i].uri) { assert 0 <= i < i + 1 && Fold(list[i].uri) == u; }
    }
  }

  lemma CountsNext(d: Dir, list: seq<Contact>, i: nat)
    requires i < |list|
    ensures var st := StandingAfter(d, list, i, Fold(list[i].uri));
      && AddedCount(d, list, i + 1) == AddedCount(d, list, i) + (if st == Absent then 1 else 0)
      && ChangedCount(d, list, i + 1) ==
        ChangedCount(d, list, i) + (if st != Absent && !Unchanged(d, list, i) then 1 else 0)
  {
    hide Fold, StandingAfter, Unchanged;
  }

  lemma MidwayFacts(d: Dir, list: seq<Contact>, n: nat, m: Dir)
    requires n <= |list| && Midway(d, list, n, m)
    ensures m.version == d.version && d.contacts.Keys <= m.contacts.Keys
    ensures forall id :: id in m.contacts ==> m.contacts[id].id == id && id != ""
    ensures forall u :: StandingOf(m, u) == StandingAfter(d, list, n, u)
  {
    hide Fold, StandingOf, StandingAfter, Listed, AddedCount, ChangedCount, KeptBy;
    forall id | id in d.contacts ensures id in m.contacts { assert MidAt(d, list, n, m, id); }
    forall id | id in m.contacts ensures m.contacts[id].id == id && id != "" { assert MidAt(d, list, n, m, id); }
  }

  lemma UpsertKeys(d: Dir, c: Contact, v: nat, newId: Id, d': Dir, out: Contact, existed: bool)
    requires c.id == "" && Upserted(d, c, v, newId, d', out, existed)
    ensures d'.contacts.Keys <= d.contacts.Keys + {newId}
    ensures v != 0 ==> d'.version == d.version
  {
    hide Fold;
  }

  ghost predicate Sole(m: Dir, u: Uri, c: Contact) {
    exists id :: id in m.contacts && Matches(m, u) == {id} && c == m.contacts[id]
  }

  lemma SoleStanding(m: Dir, u: Uri, c: Contact)
    requires Sole(m, u, c)
    ensures StandingOf(m, u) == One(ContentOf(c))
  {
    hide Fold, Matches;
    var id :| id in m.contacts && Matches(m, u) == {id} && c == m.contacts[id];
    StandingOne(m, u, id);
  }

  /** An identical contact is skipped. */
  lemma MidwaySame(d: Dir, list: seq<Contact>, i: nat, m: Dir, same: Contact)
    requires i < |list| && Midway(d, list, i, m)
    requires Sole(m, Fold(list[i].uri), same) && ContentOf(same) == ContentOf(list[i])
    ensures Unchanged(d, list, i) && StandingAfter(d, list, i, Fold(list[i].uri)) != Absent
    ensures Midway(d, list, i + 1, m)
  {
    hide Fold, StandingOf, Matches, Listed, AddedCount, ChangedCount, KeptBy, Sole;
    var u := Fold(list[i].uri);
    SoleStanding(m, u, same);
    MidwayFacts(d, list, i, m);
    CountsNext(d, list, i);
    ListedNext(list, i);
    var n := i + 1;
    forall id ensures MidAt(d, list, n, m, id) { assert MidAt(d, list, i, m, id); }
  }

  lemma MidwayDiffers(d: Dir, list: seq<Contact>, i: nat, m: Dir, same: Option<Contact>)
    requires i < |list| && Midway(d, list, i, m)
    requires |Matches(m, Fold(list[i].uri))| == 1 ==> same.Some? && Sole(m, Fold(list[i].uri), same.value)
    requires !(same.Some? && ContentOf(same.value) == ContentOf(list[i]))
    ensures !Unchanged(d, list, i)
  {
    hide Fold, Matches, Sole, MidAt;
    var u := Fold(list[i].uri);
    MidwayFacts(d, list, i, m);
    if |Matches(m, u)| == 1 { SoleStanding(m, u, same.value); }
  }

  lemma {:induction false} KeptStanding(d: Dir, list: seq<Contact>, id: Id, n: nat)
    requires n <= |list| && id in d.contacts && KeptBy(d, list, id)
    ensures StandingAfter(d, list, n, Fold(d.contacts[id].uri)) == One(ContentOf(d.contacts[id]))
    decreases n
  {
    hide Fold;
    if n == 0 {
      StandingOne(d, Fold(d.contacts[id].uri), id);
    } else {
      KeptStanding(d, list, id, n - 1);
    }
  }

  lemma MidAtUpsert(d: Dir, list: seq<Contact>, i: nat, m: Dir, newId: Id, m': Dir, out: Contact, existed: bool, id: Id)
    requires i < |list| && MidAt(d, list, i, m, id) && newId !in m.contacts && newId != ""
    requires m.version == d.version && d.contacts.Keys <= m.contacts.Keys
    requires out.id in m.contacts || out.id == newId
    requires id in d.contacts && KeptBy(d, list, id) ==> Fold(d.contacts[id].uri) != Fold(list[i].uri)
    requires Upserted(m, list[i].(id := ""), d.version + 1, newId, m', out, existed)
    ensures MidAt(d, list, i + 1, m', id)
  {
    hide Fold, KeptBy;
    ListedNext(list, i);
    hide Listed;
    var same := Matches(m, Fold(list[i].uri));
    if id in m.contacts { MatchIff(m, Fold(list[i].uri), id); }
    if out.id in m.contacts { MatchIff(m, Fold(list[i].uri), out.id); }
  }

  lemma MidwayUpsert(d: Dir, list: seq<Contact>, i: nat, m: Dir, newId: Id, m': Dir, out: Contact, existed: bool)
    requires i < |list| && Midway(d, list, i, m) && newId !in m.contacts && newId != ""
    requires !Unchanged(d, list, i)
    requires Upserted(m, list[i].(id := ""), d.version + 1, newId, m', out, existed)
    ensures Midway(d, list, i + 1, m')
    ensures existed <==> StandingAfter(d, list, i, Fold(list[i].uri)) != Absent
  {
    hide Fold, StandingOf, Upserted, KeptBy, MidAt, AddedCount, ChangedCount, Unchanged;
    var c, u := list[i].(id := ""), Fold(list[i].uri);
    MidwayFacts(d, list, i, m);
    CountsNext(d, list, i);
    UpsertTarget(m, c, d.version + 1, newId, m', out, existed);
    forall w ensures StandingOf(m', w) == StandingAfter(d, list, i + 1, w) {
      UpsertStanding(m, c, d.version + 1, newId, m', out, existed, w);
    }
    UpsertStanding(m, c, d.version + 1, newId, m', out, existed, u);
    var n := i + 1;
    forall id ensures MidAt(d, list, n, m', id) {
      assert MidAt(d, list, i, m, id);
      if id in d.contacts && KeptBy(d, list, id) {
        KeptStanding(d, list, id, i);
        if Fold(d.contacts[id].uri) == u { KeptSame(d, list, id, i); }
      }
      MidAtUpsert(d, list, i, m, newId, m', out, existed, id);
    }
  }

  lemma KeptSame(d: Dir, list: seq<Contact>, id: Id, i: nat)
    requires i < |list| && id in d.contacts && KeptBy(d, list, id) && Fold(d.contacts[id].uri) == Fold(list[i].uri)
    ensures Unchanged(d, list, i)
  {
    hide Fold;
    KeptStanding(d, list, id, i);
  }

  lemma UpsertTarget(d: Dir, c: Contact, v: nat, newId: Id, d': Dir, out: Contact, existed: bool)
    requires c.id == "" && v != 0 && Upserted(d, c, v, newId, d', out, existed)
    ensures out.id in d.contacts || out.id == newId
    ensures d'.version == d.version
  {
    hide Fold;
  }

  lemma TwoMembers<T>(s: set<T>, a: T, b: T)
    requires a in s && b in s && a != b
    ensures |s| > 1
  {
    assert |s - {a} - {b}| == |s| - 2;
  }

  /** The content a listed URI ends with is the one listed last. */
  lemma {:induction false} LastListed(d: Dir, list: seq<Contact>, n: nat, i: nat)
    requires i < n <= |list| && forall j :: i < j < n ==> Fold(list[j].uri) != Fold(list[i].uri)
    ensures StandingAfter(d, list, n, Fold(list[i].uri)) == One(ContentOf(list[i]))
    decreases n
  {
    hide Fold, StandingOf;
    if i < n - 1 { LastListed(d, list, n - 1, i); }
  }
}
