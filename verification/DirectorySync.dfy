/** Delta sync: clients that poll with a version cursor converge on the
    server's live contacts, whatever the interleaving of writes and syncs. */
module DirectorySync {
  import opened Directory

  /** A client's cursor, and the contacts it holds. */
  datatype Client = Client(cursor: nat, view: map<Id, Contact>)

  /** Putting live contacts and dropping tombstones. */
  function Apply(view: map<Id, Contact>, cs: seq<Contact>): map<Id, Contact>
    decreases |cs|
  {
    if cs == [] then view
    else
      var (before, c) := (Apply(view, cs[..|cs| - 1]), cs[|cs| - 1]);
      if c.deleted then before - {c.id} else before[c.id := c]
  }

  function LiveContacts(d: Dir): map<Id, Contact> {
    map id | id in d.contacts && !d.contacts[id].deleted :: d.contacts[id]
  }

  /** The client is right about everything up to its cursor, and knows of nothing the server has not had. */
  ghost predicate Synced(c: Client, d: Dir) {
    && c.cursor <= d.version && (c.cursor == 0 ==> c.view == map[])
    && (forall id :: id in c.view ==> id in d.contacts)
    && forall id :: id in d.contacts && d.contacts[id].version <= c.cursor ==>
      if d.contacts[id].deleted then id !in c.view else id in c.view && c.view[id] == d.contacts[id]
  }

  lemma {:induction false} ApplyAt(view: map<Id, Contact>, cs: seq<Contact>, id: Id)
    requires forall i, j :: 0 <= i < j < |cs| ==> cs[i].id != cs[j].id
    ensures (forall i :: 0 <= i < |cs| ==> cs[i].id != id) ==>
      (id in Apply(view, cs) <==> id in view) && (id in view ==> Apply(view, cs)[id] == view[id])
    ensures forall i :: 0 <= i < |cs| && cs[i].id == id ==>
      if cs[i].deleted then id !in Apply(view, cs) else id in Apply(view, cs) && Apply(view, cs)[id] == cs[i]
    decreases |cs|
  {
    if cs != [] { ApplyAt(view, cs[..|cs| - 1], id); }
  }

  /** A sync leaves the client with exactly the server's live contacts, also the first one, which omits tombstones. */
  lemma SyncConverges(c: Client, d: Dir, cs: seq<Contact>)
    requires WellFormed(d) && Synced(c, d) && Delta(d, c.cursor, cs)
    ensures Apply(c.view, cs) == LiveContacts(d)
    ensures Synced(Client(d.version, Apply(c.view, cs)), d)
  {
    var view := Apply(c.view, cs);
    forall id ensures id in view <==> id in LiveContacts(d)
      ensures id in view ==> view[id] == LiveContacts(d)[id]
    {
      ApplyAt(c.view, cs, id);
      if id in d.contacts {
        var ct := d.contacts[id];
        if InDelta(ct, c.cursor) {
          assert ct in cs;
          var i :| 0 <= i < |cs| && cs[i] == ct;
          assert cs[i].id == id;
        } else {
          forall i | 0 <= i < |cs| ensures cs[i].id != id {
            assert d.contacts[cs[i].id] == cs[i];
          }
        }
      } else {
        forall i | 0 <= i < |cs| ensures cs[i].id != id {
          assert cs[i].id in d.contacts;
        }
      }
    }
    assert view == LiveContacts(d);
  }

  /** Whatever a write does, it leaves every client right up to its cursor. */
  lemma WriteKeepsSynced(c: Client, d: Dir, d': Dir)
    requires Synced(c, d) && Advances(d, d')
    ensures Synced(c, d')
  {}

  // Runs.

  datatype Event = Write(next: Dir) | Sync(client: nat, delta: seq<Contact>)

  datatype World = World(dir: Dir, clients: map<nat, Client>)

  function ClientOf(w: World, k: nat): Client { if k in w.clients then w.clients[k] else Client(0, map[]) }

  ghost predicate Legal(w: World, e: Event) {
    match e
    case Write(next) => Advances(w.dir, next)
    case Sync(k, delta) => Delta(w.dir, ClientOf(w, k).cursor, delta)
  }

  function Step(w: World, e: Event): World {
    match e
    case Write(next) => w.(dir := next)
    case Sync(k, delta) => w.(clients := w.clients[k := Client(w.dir.version, Apply(ClientOf(w, k).view, delta))])
  }

  /** The world after a history of writes and syncs by any number of clients. */
  ghost predicate History(es: seq<Event>, w: World)
    decreases |es|
  {
    if es == [] then w == World(Dir(0, map[]), map[])
    else exists before: World {:trigger Step(before, es[|es| - 1])} ::
      History(es[..|es| - 1], before) && Legal(before, es[|es| - 1]) && w == Step(before, es[|es| - 1])
  }

  lemma {:induction false} HistoryKeepsSynced(es: seq<Event>, w: World, k: nat)
    requires History(es, w)
    ensures WellFormed(w.dir) && Synced(ClientOf(w, k), w.dir)
    decreases |es|
  {
    hide Synced, WellFormed, Advances, Delta, LiveContacts;
    if es == [] {
      NothingYet();
    } else {
      var e := es[|es| - 1];
      var before: World :| History(es[..|es| - 1], before) && Legal(before, e) && w == Step(before, e);
      HistoryKeepsSynced(es[..|es| - 1], before, k);
      match e
      case Write(next) =>
        WriteKeepsSynced(ClientOf(before, k), before.dir, next);
        AdvancesWellFormed(before.dir, next);
      case Sync(j, delta) =>
        if j == k { SyncConverges(ClientOf(before, k), before.dir, delta); }
    }
  }

  lemma NothingYet()
    ensures WellFormed(Dir(0, map[])) && Synced(Client(0, map[]), Dir(0, map[]))
  {}

  lemma AdvancesWellFormed(d: Dir, d': Dir)
    requires Advances(d, d')
    ensures WellFormed(d')
  {}

  /** In every history, right after its sync a client holds exactly the server's live contacts. */
  lemma DeltaSyncConverges(es: seq<Event>, w: World, k: nat, delta: seq<Contact>)
    requires History(es, w) && Legal(w, Sync(k, delta))
    ensures ClientOf(Step(w, Sync(k, delta)), k).view == LiveContacts(w.dir)
  {
    HistoryKeepsSynced(es, w, k);
    SyncConverges(ClientOf(w, k), w.dir, delta);
  }
}
