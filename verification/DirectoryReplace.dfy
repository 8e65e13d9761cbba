/** What a whole-list replace leaves and reports, field by field. */
module DirectoryReplace {
  import opened Directory

  /** The directory has exactly one live contact with the URI, and it has this contact's name, mode and mark. */
  ghost predicate Has(d: Dir, c: Contact) {
    exists id :: id in d.contacts && SoleLive(d, Fold(c.uri), id) && d.contacts[id].name == c.name &&
      d.contacts[id].mode == c.mode && d.contacts[id].favourite == c.favourite
  }

  ghost predicate SoleLive(d: Dir, u: Uri, id: Id) {
    forall other :: other in d.contacts ==>
      (!d.contacts[other].deleted && Fold(d.contacts[other].uri) == u <==> other == id)
  }

  ghost predicate HasURI(d: Dir, u: Uri) {
    exists id :: id in d.contacts && !d.contacts[id].deleted && Fold(d.contacts[id].uri) == u
  }

  lemma SoleIsMatches(d: Dir, u: Uri, id: Id)
    requires id in d.contacts
    ensures SoleLive(d, u, id) <==> Matches(d, u) == {id}
  {
    hide Fold;
    forall other | other in d.contacts
      ensures !d.contacts[other].deleted && Fold(d.contacts[other].uri) == u <==> other in Matches(d, u)
    {
      MatchIff(d, u, other);
    }
    if SoleLive(d, u, id) {
      forall other ensures other in Matches(d, u) <==> other == id {}
    }
  }

  lemma HasIs(d: Dir, c: Contact)
    ensures Has(d, c) <==> StandingOf(d, Fold(c.uri)) == Standing.One(ContentOf(c))
  {
    hide Fold, Matches, SoleLive;
    var u := Fold(c.uri);
    if Has(d, c) {
      var id :| id in d.contacts && SoleLive(d, u, id) && d.contacts[id].name == c.name &&
        d.contacts[id].mode == c.mode && d.contacts[id].favourite == c.favourite;
      SoleIsMatches(d, u, id);
      StandingOne(d, u, id);
    }
    if StandingOf(d, u) == Standing.One(ContentOf(c)) {
      var id :| id in Matches(d, u);
      Singleton(Matches(d, u), id);
      StandingOne(d, u, id);
      KnownMatch(d, u, id);
      SoleIsMatches(d, u, id);
    }
  }

  lemma KnownMatch(d: Dir, u: Uri, id: Id)
    requires id in Matches(d, u)
    ensures id in d.contacts
  {}

  lemma AbsentIs(d: Dir, u: Uri)
    ensures HasURI(d, u) <==> StandingOf(d, u) != Absent
  {
    hide Fold;
    if HasURI(d, u) {
      var id :| id in d.contacts && !d.contacts[id].deleted && Fold(d.contacts[id].uri) == u;
      assert id in Matches(d, u);
    }
  }

  // What it leaves.

  /** After a replace each listed URI is one live contact with the name, mode and mark of the last entry for it,
      and every live contact is a listed one. */
  lemma ReplaceLeaves(d: Dir, list: seq<Contact>, d': Dir)
    requires Replaced(d, list, d')
    ensures forall i :: 0 <= i < |list| && (forall j :: i < j < |list| ==> Fold(list[j].uri) != Fold(list[i].uri)) ==>
      Has(d', list[i])
    ensures forall id :: id in d'.contacts && !d'.contacts[id].deleted ==>
      exists i :: 0 <= i < |list| && Fold(list[i].uri) == Fold(d'.contacts[id].uri)
  {
    hide Fold, Has, StandingOf, StandingAfter, ReplacedAt, ReplaceCounts;
    forall i | 0 <= i < |list| && forall j :: i < j < |list| ==> Fold(list[j].uri) != Fold(list[i].uri)
      ensures Has(d', list[i])
    {
      var u := Fold(list[i].uri);
      assert Listed(list, |list|, u);
      LastListed(d, list, |list|, i);
      HasIs(d', list[i]);
    }
    forall id | id in d'.contacts && !d'.contacts[id].deleted
      ensures exists i :: 0 <= i < |list| && Fold(list[i].uri) == Fold(d'.contacts[id].uri)
    {
      AbsentIs(d', Fold(d'.contacts[id].uri));
    }
  }

  /** Every live contact has a URI and a mode there is. */
  ghost predicate LiveValid(d: Dir) {
    forall id :: id in d.contacts && !d.contacts[id].deleted ==>
      d.contacts[id].uri != "" && d.contacts[id].mode in {"local", "trunk"}
  }

  lemma {:induction false} LastEntry(list: seq<Contact>, i: nat, n: nat) returns (j: nat)
    requires i < n <= |list|
    requires forall l :: n <= l < |list| ==> Fold(list[l].uri) != Fold(list[i].uri)
    ensures i <= j < |list| && Fold(list[j].uri) == Fold(list[i].uri)
    ensures forall l :: j < l < |list| ==> Fold(list[l].uri) != Fold(list[j].uri)
    decreases n
  {
    hide Fold;
    if Fold(list[n - 1].uri) == Fold(list[i].uri) { j := n - 1; } else { j := LastEntry(list, i, n - 1); }
  }

  /** A replace leaves only valid live contacts, whatever was there. */
  lemma ReplaceValid(d: Dir, list: seq<Contact>, d': Dir)
    requires Replaced(d, list, d') && forall i :: 0 <= i < |list| ==> ValidContact(list[i])
    ensures LiveValid(d')
  {
    hide Fold, Replaced, Has;
    ReplaceLeaves(d, list, d');
    forall id | id in d'.contacts && !d'.contacts[id].deleted
      ensures d'.contacts[id].uri != "" && d'.contacts[id].mode in {"local", "trunk"}
    {
      var i :| 0 <= i < |list| && Fold(list[i].uri) == Fold(d'.contacts[id].uri);
      var j := LastEntry(list, i, |list|);
      assert Has(d', list[j]);
      HasMode(d', list[j], id);
      EmptyFold(list[j].uri, d'.contacts[id].uri);
    }
  }

  lemma HasMode(d: Dir, c: Contact, id: Id)
    requires Has(d, c) && id in d.contacts && !d.contacts[id].deleted && Fold(d.contacts[id].uri) == Fold(c.uri)
    ensures d.contacts[id].mode == c.mode
  {
    hide Fold;
  }

  lemma EmptyFold(u: Uri, w: Uri)
    requires Fold(u) == Fold(w)
    ensures |u| == |w|
  {
    assert |Fold(u)| == |u| && |Fold(w)| == |w|;
  }

  /** An upsert of a valid contact keeps every live contact valid. */
  lemma UpsertValid(d: Dir, c: Contact, v: nat, newId: Id, d': Dir, out: Contact, existed: bool)
    requires ValidContact(c) && LiveValid(d) && Upserted(d, c, v, newId, d', out, existed)
    ensures LiveValid(d')
  {
    hide Fold;
  }

  // What it reports.

  /** Entry j is the last before entry i for the same URI. */
  ghost predicate Precedes(list: seq<Contact>, j: nat, i: nat)
    requires i < |list|
  {
    && j < i && Fold(list[j].uri) == Fold(list[i].uri)
    && forall l :: j < l < i ==> Fold(list[l].uri) != Fold(list[i].uri)
  }

  ghost predicate First(list: seq<Contact>, i: nat)
    requires i < |list|
  {
    forall j :: 0 <= j < i ==> Fold(list[j].uri) != Fold(list[i].uri)
  }

  /** An entry for a URI that neither the directory has nor an earlier entry. */
  ghost predicate Adds(d: Dir, list: seq<Contact>, i: nat)
    requires i < |list|
  {
    First(list, i) && !HasURI(d, Fold(list[i].uri))
  }

  predicate SameContent(a: Contact, b: Contact) {
    a.name == b.name && a.mode == b.mode && a.favourite == b.favourite
  }

  /** An entry that says otherwise than the one before it for its URI, or, if it is the first, than the directory. */
  ghost predicate Alters(d: Dir, list: seq<Contact>, i: nat)
    requires i < |list|
  {
    if First(list, i) then HasURI(d, Fold(list[i].uri)) && !Has(d, list[i])
    else exists j: nat :: Precedes(list, j, i) && !SameContent(list[j], list[i])
  }

  lemma {:induction false} Preceding(list: seq<Contact>, i: nat, n: nat) returns (j: nat)
    requires n <= i < |list| && !First(list, i)
    requires forall l :: n <= l < i ==> Fold(list[l].uri) != Fold(list[i].uri)
    ensures Precedes(list, j, i)
    decreases n
  {
    hide Fold;
    assert n > 0;
    if Fold(list[n - 1].uri) == Fold(list[i].uri) { j := n - 1; } else { j := Preceding(list, i, n - 1); }
  }

  lemma OnePreceding(list: seq<Contact>, i: nat, j: nat, k: nat)
    requires i < |list| && Precedes(list, j, i) && Precedes(list, k, i)
    ensures j == k
  {
    hide Fold;
  }

  /** What entry i finds: the entry before it for its URI, or the directory. */
  lemma {:induction false} NotListed(d: Dir, list: seq<Contact>, n: nat, u: Uri)
    requires n <= |list| && forall j :: 0 <= j < n ==> Fold(list[j].uri) != u
    ensures StandingAfter(d, list, n, u) == StandingOf(d, u)
    decreases n
  {
    hide Fold;
    if n > 0 { NotListed(d, list, n - 1, u); }
  }

  lemma EntryIs(d: Dir, list: seq<Contact>, i: nat)
    requires i < |list|
    ensures StandingAfter(d, list, i, Fold(list[i].uri)) == Absent <==> Adds(d, list, i)
    ensures StandingAfter(d, list, i, Fold(list[i].uri)) != Absent && !Unchanged(d, list, i) <==> Alters(d, list, i)
  {
    hide Fold, HasURI, Has, StandingOf;
    var u := Fold(list[i].uri);
    AbsentIs(d, u);
    if First(list, i) {
      NotListed(d, list, i, u);
      HasIs(d, list[i]);
    } else {
      var j := Preceding(list, i, i);
      LastListed(d, list, i, j);
      hide StandingAfter;
      if k: nat :| Precedes(list, k, i) && !SameContent(list[k], list[i]) { OnePreceding(list, i, j, k); }
    }
  }

  /** The entries that add a contact, and those that change one. */
  ghost function Adding(d: Dir, list: seq<Contact>, n: nat): set<nat>
    requires n <= |list|
  {
    set i: nat | i < n && Adds(d, list, i)
  }

  ghost function Altering(d: Dir, list: seq<Contact>, n: nat): set<nat>
    requires n <= |list|
  {
    set i: nat | i < n && Alters(d, list, i)
  }

  lemma Extended(s: set<nat>, t: set<nat>, n: nat)
    requires n !in s && forall i: nat :: i in t <==> i in s || (i == n && n in t)
    ensures |t| == |s| + if n in t then 1 else 0
  {
    assert t == if n in t then s + {n} else s;
  }

  lemma {:induction false} CountsAre(d: Dir, list: seq<Contact>, n: nat)
    requires n <= |list|
    ensures AddedCount(d, list, n) == |Adding(d, list, n)| && ChangedCount(d, list, n) == |Altering(d, list, n)|
    decreases n
  {
    hide Fold, Adds, Alters, Unchanged, StandingAfter;
    if n > 0 {
      CountsAre(d, list, n - 1);
      EntryIs(d, list, n - 1);
      Extended(Adding(d, list, n - 1), Adding(d, list, n), n - 1);
      Extended(Altering(d, list, n - 1), Altering(d, list, n), n - 1);
    }
  }

  /** The counts of a replace: the entries that add, the entries that change, and the live contacts the list
      does not name. */
  lemma ReplaceReports(d: Dir, list: seq<Contact>)
    ensures var r := ReplaceCounts(d, list);
      && r.added == |Adding(d, list, |list|)| && r.changed == |Altering(d, list, |list|)|
      && r.version == if r.added + r.changed + r.removed > 0 then d.version + 1 else d.version
  {
    CountsAre(d, list, |list|);
  }

  lemma HasHasURI(d: Dir, c: Contact)
    requires Has(d, c)
    ensures HasURI(d, Fold(c.uri))
  {
    hide Fold;
  }

  /** A directory has one content for a URI. */
  lemma HasOne(d: Dir, a: Contact, b: Contact)
    requires Has(d, a) && Fold(a.uri) == Fold(b.uri)
    ensures Has(d, b) <==> SameContent(a, b)
  {
    hide Fold;
    var id :| id in d.contacts && SoleLive(d, Fold(a.uri), id) && d.contacts[id].name == a.name &&
      d.contacts[id].mode == a.mode && d.contacts[id].favourite == a.favourite;
    if Has(d, b) {
      var other :| other in d.contacts && SoleLive(d, Fold(b.uri), other) && d.contacts[other].name == b.name &&
        d.contacts[other].mode == b.mode && d.contacts[other].favourite == b.favourite;
      assert other == id;
    }
  }

  lemma {:induction false} HasAll(d: Dir, list: seq<Contact>, i: nat)
    requires i < |list| && forall j :: 0 <= j < |list| ==> !Adds(d, list, j) && !Alters(d, list, j)
    ensures Has(d, list[i])
    decreases i
  {
    hide Fold, Has, HasURI;
    assert !Adds(d, list, i) && !Alters(d, list, i);
    if !First(list, i) {
      var j := Preceding(list, i, i);
      HasAll(d, list, j);
      HasOne(d, list[j], list[i]);
    }
  }

  lemma NeitherWay(d: Dir, list: seq<Contact>, i: nat)
    requires i < |list| && forall j :: 0 <= j < |list| ==> Has(d, list[j])
    ensures !Adds(d, list, i) && !Alters(d, list, i)
  {
    hide Fold, Has, HasURI;
    HasHasURI(d, list[i]);
    if !First(list, i) {
      forall j: nat | Precedes(list, j, i) ensures SameContent(list[j], list[i]) { HasOne(d, list[j], list[i]); }
    }
  }

  /** It reports no addition and no change exactly when the directory already has every entry of the list. */
  lemma NothingToDo(d: Dir, list: seq<Contact>)
    ensures var r := ReplaceCounts(d, list);
      r.added + r.changed == 0 <==> forall i :: 0 <= i < |list| ==> Has(d, list[i])
  {
    hide Fold, Has, Adds, Alters;
    var r := ReplaceCounts(d, list);
    ReplaceReports(d, list);
    if r.added + r.changed == 0 {
      forall i: nat | i < |list| ensures !Adds(d, list, i) && !Alters(d, list, i) {
        assert i !in Adding(d, list, |list|) && i !in Altering(d, list, |list|);
      }
      forall i | 0 <= i < |list| ensures Has(d, list[i]) { HasAll(d, list, i); }
    }
    if forall i :: 0 <= i < |list| ==> Has(d, list[i]) {
      forall i: nat | i < |list| ensures !Adds(d, list, i) && !Alters(d, list, i) { NeitherWay(d, list, i); }
      assert Adding(d, list, |list|) == {} && Altering(d, list, |list|) == {};
    }
  }
}
