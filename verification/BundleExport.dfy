/** Reading a snapshot back from the tables, and what it says after a commit. */
module BundleExport {
  import opened Folds
  import opened Bundle
  import opened Tables
  import opened Names
  import opened BundleMerge
  import opened Upserts
  import opened Store
  import opened ApplyBundle
  import opened ApplyTransaction
  import opened ApplyTheorems
  import opened ApplyTwice
  import SyncMerge

  // ---------- Listing a table ----------

  /** `out` lists the rows, each once, in some order. */
  ghost predicate Lists<I(!new), R, B>(out: seq<B>, rows: map<I, R>, view: R -> B) {
    exists order: seq<I> :: ListsAs(out, rows, view, order)
  }

  ghost predicate ListsAs<I(!new), R, B>(out: seq<B>, rows: map<I, R>, view: R -> B, order: seq<I>) {
    && |order| == |out| && Distinct(order) && (forall id :: id in order <==> id in rows)
    && forall i :: 0 <= i < |out| ==> order[i] in rows && out[i] == view(rows[order[i]])
  }

  method ListRows<I(==,!new), R, B>(rows: map<I, R>, view: R -> B) returns (out: seq<B>)
    ensures Lists(out, rows, view)
  {
    out := [];
    var rest := rows.Keys;
    ghost var order: seq<I> := [];
    while rest != {}
      invariant rest <= rows.Keys && |order| == |out| && Distinct(order)
      invariant forall id :: id in order <==> id in rows && id !in rest
      invariant forall i :: 0 <= i < |out| ==> order[i] in rows && out[i] == view(rows[order[i]])
      decreases rest
    {
      ghost var some := Member(rest);
      var id :| id in rest;
      out := out + [view(rows[id])];
      order := order + [id];
      rest := rest - {id};
    }
    assert ListsAs(out, rows, view, order);
  }

  lemma {:induction false} SomeOrder<I>(ids: set<I>) returns (order: seq<I>)
    ensures Distinct(order) && forall id :: id in order <==> id in ids
    decreases ids
  {
    if ids == {} {
      order := [];
    } else {
      var id := Member(ids);
      var init := SomeOrder(ids - {id});
      order := init + [id];
    }
  }

  lemma ListingExists<I(!new), R, B>(rows: map<I, R>, view: R -> B) returns (out: seq<B>)
    ensures Lists(out, rows, view)
  {
    var order := SomeOrder(rows.Keys);
    assert forall i :: 0 <= i < |order| ==> order[i] in order && order[i] in rows;
    out := seq(|order|, i requires 0 <= i < |order| => view(rows[order[i]]));
    assert ListsAs(out, rows, view, order);
  }

  // ---------- The export ----------

  /** The address of a platform; blank for one that is not there. */
  function BaseOf(db: Db, pid: int): string {
    if pid in db.platforms.rows then db.platforms.rows[pid].p.baseURL else ""
  }

  function ReadPlatform(r: PlatformRow): Platform { r.p }

  function ReadCredential(db: Db): CredentialRow -> Credential {
    (r: CredentialRow) =>
      r.c.(tokenHash := if r.tokenHash.Some? then r.tokenHash.value else "",
        platformBaseURL := BaseOf(db, r.platformID))
  }

  function ReadRapi(db: Db): RapiRow -> RAPI {
    (r: RapiRow) => r.r.(platformBaseURL := BaseOf(db, r.platformID))
  }

  /** The chains with the names and addresses of what they refer to. */
  function RoutesIn(db: Db): map<Pair, Route> {
    map k | k in db.orders && k.left in db.lapis.rows && k.right in db.rapis.rows ::
      Route(db.lapis.rows[k.left].alias, BaseOf(db, db.rapis.rows[k.right].platformID), db.rapis.rows[k.right].r.model,
            db.orders[k])
  }

  /** What an export reads, bindings aside; a credential without a hash cannot be read. */
  ghost predicate Exports(db: Db, e: Bundle) {
    && Unhashed(db.credentials.rows) == {}
    && Lists(e.platforms, db.platforms.rows, ReadPlatform)
    && Lists(e.credentials, db.credentials.rows, ReadCredential(db))
    && Lists(e.rapis, db.rapis.rows, ReadRapi(db))
    && Lists(e.lapis, db.lapis.rows, Self)
    && Lists(e.routes, RoutesIn(db), Self)
    && e.bindings == []
  }

  /** Some row of the table reads as `s`. */
  ghost predicate ReadSomewhere<I(!new), R, B>(rows: map<I, R>, view: R -> B, s: B) {
    exists id :: id in rows && view(rows[id]) == s
  }

  lemma SomeSource<I(!new), R, B>(rows: map<I, R>, view: R -> B, s: B) returns (id: I)
    requires ReadSomewhere(rows, view, s)
    ensures id in rows && view(rows[id]) == s
  {
    id :| id in rows && view(rows[id]) == s;
  }

  lemma IsSource<I(!new), R, B>(rows: map<I, R>, view: R -> B, s: B, id: I)
    requires id in rows && view(rows[id]) == s
    ensures ReadSomewhere(rows, view, s)
  {
  }

  lemma Sources<I(!new), R, B>(out: seq<B>, rows: map<I, R>, view: R -> B, s: B)
    requires Lists(out, rows, view)
    ensures s in out <==> ReadSomewhere(rows, view, s)
  {
    var order :| ListsAs(out, rows, view, order);
    if ReadSomewhere(rows, view, s) {
      var id :| id in rows && view(rows[id]) == s;
      var i :| 0 <= i < |order| && order[i] == id;
      assert out[i] == s;
    }
    if s in out {
      var i :| 0 <= i < |out| && out[i] == s;
      assert view(rows[order[i]]) == s;
    }
  }

  /** The exported endpoint of a row: its own columns under the address of its platform's row. */
  ghost predicate RapiReads(db: Db, id: int, r: RAPI) {
    && id in db.rapis.rows && db.rapis.rows[id].platformID in db.platforms.rows
    && r.platformBaseURL == db.platforms.rows[db.rapis.rows[id].platformID].p.baseURL
    && r == db.rapis.rows[id].r.(platformBaseURL := r.platformBaseURL)
  }

  /** The exported credential of a row: its own columns under its hash and the address of its platform's row. */
  ghost predicate CredentialReads(db: Db, id: int, c: Credential) {
    && id in db.credentials.rows && db.credentials.rows[id].platformID in db.platforms.rows
    && db.credentials.rows[id].tokenHash == Some(c.tokenHash)
    && c.platformBaseURL == db.platforms.rows[db.credentials.rows[id].platformID].p.baseURL
    && c == db.credentials.rows[id].c.(tokenHash := c.tokenHash, platformBaseURL := c.platformBaseURL)
  }

  lemma RapiReadsIs(db: Db, r: RAPI)
    requires Linked(db)
    ensures ReadSomewhere(db.rapis.rows, ReadRapi(db), r) <==> exists id :: RapiReads(db, id, r)
  {
    if ReadSomewhere(db.rapis.rows, ReadRapi(db), r) {
      var id := SomeSource(db.rapis.rows, ReadRapi(db), r);
      assert RapiReads(db, id, r);
    }
    if id :| RapiReads(db, id, r) {
      IsSource(db.rapis.rows, ReadRapi(db), r, id);
    }
  }

  lemma CredentialReadsIs(db: Db, c: Credential)
    requires Linked(db) && Unhashed(db.credentials.rows) == {}
    ensures ReadSomewhere(db.credentials.rows, ReadCredential(db), c) <==> exists id :: CredentialReads(db, id, c)
  {
    if ReadSomewhere(db.credentials.rows, ReadCredential(db), c) {
      var id := SomeSource(db.credentials.rows, ReadCredential(db), c);
      assert id !in Unhashed(db.credentials.rows);
      assert CredentialReads(db, id, c);
    }
    if id :| CredentialReads(db, id, c) {
      assert id !in Unhashed(db.credentials.rows);
      IsSource(db.credentials.rows, ReadCredential(db), c, id);
    }
  }

  /** Of any node an export lists each endpoint as its row and its platform's row have it. */
  lemma ExportedRapis(db: Db, e: Bundle, r: RAPI)
    requires Linked(db) && Exports(db, e)
    ensures r in e.rapis <==> exists id :: RapiReads(db, id, r)
  {
    hide Linked, RapiReads, Lists, ReadSomewhere;
    Sources(e.rapis, db.rapis.rows, ReadRapi(db), r);
    RapiReadsIs(db, r);
  }

  /** And each credential. */
  lemma ExportedCredentials(db: Db, e: Bundle, c: Credential)
    requires Linked(db) && Exports(db, e)
    ensures c in e.credentials <==> exists id :: CredentialReads(db, id, c)
  {
    hide Linked, CredentialReads, Lists, ReadSomewhere;
    Sources(e.credentials, db.credentials.rows, ReadCredential(db), c);
    CredentialReadsIs(db, c);
  }

  /** Fails on a credential without a hash, and on a snapshot that is not valid. */
  method ExportBundle(db: Db) returns (r: Option<Bundle>)
    ensures r.Some? ==> Exports(db, r.value) && Valid(r.value)
    ensures r.None? ==> Unhashed(db.credentials.rows) != {} || exists e :: Exports(db, e) && !Valid(e)
  {
    var platforms := ListRows(db.platforms.rows, ReadPlatform);
    if Unhashed(db.credentials.rows) != {} {
      return None;
    }
    var credentials := ListRows(db.credentials.rows, ReadCredential(db));
    var rapis := ListRows(db.rapis.rows, ReadRapi(db));
    var lapis := ListRows(db.lapis.rows, Self);
    var routes := ListRows(RoutesIn(db), Self);
    var e := Bundle(platforms, credentials, rapis, lapis, routes, []);
    assert Exports(db, e);
    var ok := Validate(e);
    r := if ok then Some(e) else None;
  }

  // ---------- A table that holds what a snapshot lists ----------

  /** The rows read as the listed ones, one each. */
  ghost predicate Matches<I(!new), R, B, K>(rows: map<I, R>, view: R -> B, src: seq<B>, key: B -> K) {
    && (forall id :: id in rows ==> view(rows[id]) in src)
    && (forall s :: s in src ==> ReadSomewhere(rows, view, s))
    && (forall i, j :: i in rows && j in rows && i != j ==> key(view(rows[i])) != key(view(rows[j])))
  }

  lemma ListedMatches<I(!new), R, B, K>(out: seq<B>, rows: map<I, R>, view: R -> B, src: seq<B>, key: B -> K)
    requires Lists(out, rows, view) && Matches(rows, view, src, key)
    ensures UniqueKeys(out, key) && forall s :: s in out <==> s in src
  {
    var order :| ListsAs(out, rows, view, order);
    forall s | s in src ensures s in out {
      var id :| id in rows && view(rows[id]) == s;
      assert id in order;
      var i :| 0 <= i < |order| && order[i] == id;
      assert out[i] == s;
    }
    forall i, j | 0 <= i < j < |out| ensures key(out[i]) != key(out[j]) {
      assert order[i] != order[j];
    }
  }

  lemma SameKeys<B, K>(a: seq<B>, b: seq<B>, key: B -> K)
    requires forall s :: s in a <==> s in b
    ensures KeysOf(a, key) == KeysOf(b, key)
  {
    forall k ensures k in KeysOf(a, key) <==> k in KeysOf(b, key) {
      if r :| r in a && key(r) == k {
        assert r in b;
      }
      if r :| r in b && key(r) == k {
        assert r in a;
      }
    }
  }

  /** Then they are the same table. */
  lemma SameTable<B, K, V>(a: seq<B>, b: seq<B>, key: B -> K, view: B -> V)
    requires UniqueKeys(a, key) && UniqueKeys(b, key) && forall s :: s in a <==> s in b
    ensures TableOf(a, key, view) == TableOf(b, key, view)
  {
    SameKeys(a, b, key);
    TableOfRows(a, key, view);
    TableOfRows(b, key, view);
    var s, t := TableOf(a, key, view), TableOf(b, key, view);
    forall k | k in s ensures s[k] == t[k] {
      var r :| r in a && key(r) == k;
      assert r in b;
    }
    assert s.Keys == t.Keys;
  }

  // ---------- After a commit ----------

  lemma PlatformsMatch(rows: seq<Platform>, before: Table<PlatformRow>, after: Table<PlatformRow>,
      ids: map<string, int>)
    requires PlatformsDone(rows, before, after, ids)
    ensures Matches(after.rows, ReadPlatform, rows, PlatformKey)
  {
    forall id | id in after.rows ensures ReadPlatform(after.rows[id]) in rows && after.rows[id].p.baseURL in ids
      && ids[after.rows[id].p.baseURL] == id
    {
      var u :| u in ids && ids[u] == id;
      var p :| p in rows && PlatformKey(p) == u;
    }
    forall p | p in rows ensures ReadSomewhere(after.rows, ReadPlatform, p) {
      assert ReadPlatform(after.rows[ids[p.baseURL]]) == p;
    }
  }

  lemma LapisMatch(rows: seq<LAPI>, before: Table<LAPI>, after: Table<LAPI>, ids: map<string, int>)
    requires LapisDone(rows, before, after, ids)
    ensures Matches(after.rows, Self, rows, LapiKey)
  {
    forall id | id in after.rows ensures Self(after.rows[id]) in rows && after.rows[id].alias in ids
      && ids[after.rows[id].alias] == id
    {
      var u :| u in ids && ids[u] == id;
      var l :| l in rows && LapiKey(l) == u;
    }
    forall l | l in rows ensures ReadSomewhere(after.rows, Self, l) {
      assert Self(after.rows[ids[l.alias]]) == l;
    }
  }

  lemma RapisMatch(db: Db, rows: seq<RAPI>, ids: Ids)
    requires RapisDone(rows, db.rapis, ids) && UniqueKeys(rows, RapiKey)
    requires forall r :: r in rows ==>
      r.platformBaseURL in ids.platforms && BaseOf(db, ids.platforms[r.platformBaseURL]) == r.platformBaseURL
    ensures Matches(db.rapis.rows, ReadRapi(db), rows, RapiKey)
  {
    var read := ReadRapi(db);
    forall id | id in db.rapis.rows
      ensures read(db.rapis.rows[id]) in rows && RapiIdIs(ids, read(db.rapis.rows[id]), id)
    {
      var k :| k in ids.rapis && ids.rapis[k] == id;
      var r :| r in rows && k == RapiId(ids.platforms[r.platformBaseURL], r.model);
      assert StoredRapi(db.rapis, ids, r);
      assert read(db.rapis.rows[id]) == r;
    }
    forall r | r in rows ensures ReadSomewhere(db.rapis.rows, read, r) {
      assert StoredRapi(db.rapis, ids, r);
      assert read(db.rapis.rows[RapiIdOf(ids, r.platformBaseURL, r.model)]) == r;
    }
    forall i, j | i in db.rapis.rows && j in db.rapis.rows && i != j
      ensures RapiKey(read(db.rapis.rows[i])) != RapiKey(read(db.rapis.rows[j]))
    {
      assert RapiIdIs(ids, read(db.rapis.rows[i]), i) && RapiIdIs(ids, read(db.rapis.rows[j]), j);
    }
  }

  ghost predicate RapiIdIs(ids: Ids, r: RAPI, id: int) {
    HasRapi(ids, r.platformBaseURL, r.model) && RapiIdOf(ids, r.platformBaseURL, r.model) == id
  }

  /** The rows that a route refers to. */
  ghost predicate EndsOf(db: Db, ids: Ids, lapis: map<string, int>, o: Route) {
    && o.lapiAlias in lapis && HasRapi(ids, o.platformBaseURL, o.model)
    && lapis[o.lapiAlias] in db.lapis.rows && db.lapis.rows[lapis[o.lapiAlias]].alias == o.lapiAlias
    && RapiIdOf(ids, o.platformBaseURL, o.model) in db.rapis.rows
    && var r := db.rapis.rows[RapiIdOf(ids, o.platformBaseURL, o.model)];
       BaseOf(db, r.platformID) == o.platformBaseURL && r.r.model == o.model
  }

  lemma RouteRead(db: Db, ids: Ids, lapis: map<string, int>, o: Route)
    requires EndsOf(db, ids, lapis, o) && PlaceOf(o, ids, lapis) in db.orders
    requires db.orders[PlaceOf(o, ids, lapis)] == o.orderIndex
    ensures PlaceOf(o, ids, lapis) in RoutesIn(db) && RoutesIn(db)[PlaceOf(o, ids, lapis)] == o
  {
  }

  lemma RoutesMatch(db: Db, routes: seq<Route>, ids: Ids, lapis: map<string, int>)
    requires RoutesRefer(routes, ids, lapis) && OrdersAre(db.orders, routes, ids, lapis)
      && UniqueKeys(routes, KeyOfRoute)
    requires forall o :: o in routes ==> EndsOf(db, ids, lapis, o)
    ensures Matches(RoutesIn(db), Self, routes, KeyOfRoute)
  {
    forall o | o in routes
      ensures PlaceOf(o, ids, lapis) in RoutesIn(db) && RoutesIn(db)[PlaceOf(o, ids, lapis)] == o
      ensures ReadSomewhere(RoutesIn(db), Self, o)
    {
      RouteRead(db, ids, lapis, o);
      assert Self(RoutesIn(db)[PlaceOf(o, ids, lapis)]) == o;
    }
    forall k | k in RoutesIn(db)
      ensures RoutesIn(db)[k] in routes && PlaceOf(RoutesIn(db)[k], ids, lapis) == k
    {
      var o :| o in routes && PlaceOf(o, ids, lapis) == k;
    }
    forall i, j | i in RoutesIn(db) && j in RoutesIn(db) && i != j
      ensures KeyOfRoute(Self(RoutesIn(db)[i])) != KeyOfRoute(Self(RoutesIn(db)[j]))
    {
      assert PlaceOf(RoutesIn(db)[i], ids, lapis) == i && PlaceOf(RoutesIn(db)[j], ids, lapis) == j;
    }
  }

  // ---------- Credentials ----------

  lemma {:induction false} TrimLeftTwice(s: string)
    ensures TrimLeft(TrimLeft(s)) == TrimLeft(s)
    ensures TrimLeft(s) != "" ==> !IsSpace(TrimLeft(s)[0])
    decreases |s|
  {
    if s != "" && IsSpace(s[0]) {
      TrimLeftTwice(s[1..]);
    }
  }

  lemma {:induction false} TrimRightTwice(s: string)
    ensures TrimRight(TrimRight(s)) == TrimRight(s) && TrimRight(s) <= s
    decreases |s|
  {
    if s != "" && IsSpace(s[|s| - 1]) {
      TrimRightTwice(s[..|s| - 1]);
    }
  }

  lemma TrimTwice(s: string)
    ensures Trim(Trim(s)) == Trim(s)
  {
    TrimLeftTwice(s);
    TrimRightTwice(TrimLeft(s));
  }

  /** No token hash has surrounding blanks. */
  predicate AllTrimmed(rows: seq<Credential>) {
    forall c :: c in rows ==> Trim(c.tokenHash) == c.tokenHash
  }

  function TrimmedHash(c: Credential): Credential { c.(tokenHash := Trim(c.tokenHash)) }

  /** Without unhashed rows the table holds the listed credentials under their trimmed hashes. */
  lemma CredentialsRead(db: Db, rows: seq<Credential>, hash: string -> string, before: Table<CredentialRow>,
      plats: set<int>, after: Table<CredentialRow>, platforms: map<string, int>, ids: map<string, int>)
    requires CredentialRun(rows, hash, before, plats, after, platforms, ids)
    requires db.credentials == CredentialsReset(after) && Unhashed(db.credentials.rows) == {}
    requires forall c :: c in rows ==> BaseOf(db, platforms[c.platformBaseURL]) == c.platformBaseURL
    ensures forall c :: c in rows ==>
      CredKey(c) in ids && ids[CredKey(c)] in db.credentials.rows
      && ReadCredential(db)(db.credentials.rows[ids[CredKey(c)]]) == TrimmedHash(c)
    ensures forall id :: id in db.credentials.rows ==>
      exists c :: c in rows && CredKey(c) in ids && ids[CredKey(c)] == id
  {
    forall c | c in rows
      ensures CredKey(c) in ids && ids[CredKey(c)] in db.credentials.rows
      ensures ReadCredential(db)(db.credentials.rows[ids[CredKey(c)]]) == TrimmedHash(c)
    {
      RowOf(rows, hash, before, plats, after, platforms, ids, c);
      assert ids[CredKey(c)] !in Unhashed(db.credentials.rows);
    }
    CredentialKeys(rows, hash, platforms);
    forall id | id in db.credentials.rows ensures exists c :: c in rows && CredKey(c) in ids && ids[CredKey(c)] == id {
      assert id !in Unhashed(db.credentials.rows);
      assert id in ids.Values;
      var k :| k in ids && ids[k] == id;
      var c :| c in rows && CredKey(c) == k;
    }
  }

  function Trimmed(rows: seq<Credential>): (r: seq<Credential>)
    ensures |r| == |rows| && forall i :: 0 <= i < |r| ==> r[i] == TrimmedHash(rows[i])
  {
    seq(|rows|, i requires 0 <= i < |rows| => TrimmedHash(rows[i]))
  }

  lemma CredentialsMatch(db: Db, rows: seq<Credential>, hash: string -> string, before: Table<CredentialRow>,
      plats: set<int>, after: Table<CredentialRow>, platforms: map<string, int>, ids: map<string, int>)
    requires CredentialRun(rows, hash, before, plats, after, platforms, ids)
    requires db.credentials == CredentialsReset(after) && Unhashed(db.credentials.rows) == {}
    requires forall c :: c in rows ==> BaseOf(db, platforms[c.platformBaseURL]) == c.platformBaseURL
    ensures Matches(db.credentials.rows, ReadCredential(db), Trimmed(rows), SyncMerge.CredentialHash)
  {
    CredentialsRead(db, rows, hash, before, plats, after, platforms, ids);
    var read, src := ReadCredential(db), Trimmed(rows);
    forall id | id in db.credentials.rows
      ensures read(db.credentials.rows[id]) in src && HashIs(ids, read(db.credentials.rows[id]), id)
    {
      var c :| c in rows && CredKey(c) in ids && ids[CredKey(c)] == id;
      var i :| 0 <= i < |rows| && rows[i] == c;
      assert src[i] == TrimmedHash(c);
    }
    forall t | t in src ensures ReadSomewhere(db.credentials.rows, read, t) {
      var i :| 0 <= i < |src| && src[i] == t;
      assert rows[i] in rows;
      assert read(db.credentials.rows[ids[CredKey(rows[i])]]) == t;
    }
    forall i, j | i in db.credentials.rows && j in db.credentials.rows && i != j
      ensures SyncMerge.CredentialHash(read(db.credentials.rows[i])) !=
        SyncMerge.CredentialHash(read(db.credentials.rows[j]))
    {
      assert HashIs(ids, read(db.credentials.rows[i]), i) && HashIs(ids, read(db.credentials.rows[j]), j);
    }
  }

  ghost predicate HashIs(ids: map<string, int>, c: Credential, id: int) {
    c.tokenHash in ids && ids[c.tokenHash] == id
  }

  lemma HashesUnique(rows: seq<Credential>)
    requires UniqueKeys(rows, CredKey)
    ensures UniqueKeys(rows, SyncMerge.CredentialHash) && UniqueKeys(Trimmed(rows), SyncMerge.CredentialHash)
  {
    forall i, j | 0 <= i < j < |rows|
      ensures rows[i].tokenHash != rows[j].tokenHash && Trimmed(rows)[i].tokenHash != Trimmed(rows)[j].tokenHash
    {
      assert CredKey(rows[i]) != CredKey(rows[j]);
    }
  }

  /** The trimmed table is the listed one exactly when nothing was to be trimmed. */
  lemma TrimmedSameIff(rows: seq<Credential>)
    requires UniqueKeys(rows, CredKey)
    ensures
      (TableOf(Trimmed(rows), SyncMerge.CredentialHash, SyncMerge.CredentialView) ==
        TableOf(rows, SyncMerge.CredentialHash, SyncMerge.CredentialView)) <==> AllTrimmed(rows)
  {
    HashesUnique(rows);
    var t := TableOf(Trimmed(rows), SyncMerge.CredentialHash, SyncMerge.CredentialView);
    TableOfRows(rows, SyncMerge.CredentialHash, SyncMerge.CredentialView);
    TableOfRows(Trimmed(rows), SyncMerge.CredentialHash, SyncMerge.CredentialView);
    if AllTrimmed(rows) {
      forall i | 0 <= i < |rows| ensures Trimmed(rows)[i] == rows[i] {
        assert rows[i] in rows;
      }
      assert Trimmed(rows) == rows;
    } else {
      var c :| c in rows && Trim(c.tokenHash) != c.tokenHash;
      if c.tokenHash in t {
        var d :| d in Trimmed(rows) && SyncMerge.CredentialHash(d) == c.tokenHash;
        var i :| 0 <= i < |rows| && Trimmed(rows)[i] == d;
        TrimTwice(rows[i].tokenHash);
        assert false;
      }
      assert c.tokenHash in KeysOf(rows, SyncMerge.CredentialHash) by {
        assert SyncMerge.CredentialHash(c) == c.tokenHash;
      }
    }
  }

  // ---------- Main results ----------

  /** A commit together with its chains. */
  ghost predicate CommitsAll(b: Bundle, hash: string -> string, before: Db, st: Stages, ids: Ids,
      lapis: map<string, int>, after: Db, version: int)
  {
    && Commits(b, hash, before, st, ids, lapis, after, version) && RoutesRefer(b.routes, ids, lapis)
    && OrdersAre(after.orders, b.routes, ids, lapis)
  }

  lemma BasesRead(b: Bundle, hash: string -> string, before: Db, st: Stages, ids: Ids, lapis: map<string, int>,
      after: Db, version: int)
    requires Commits(b, hash, before, st, ids, lapis, after, version)
    ensures ids.platforms.Keys == KeysOf(b.platforms, PlatformKey)
    ensures forall u :: u in ids.platforms ==> BaseOf(after, ids.platforms[u]) == u
    ensures Matches(after.platforms.rows, ReadPlatform, b.platforms, PlatformKey)
    ensures Matches(after.lapis.rows, Self, b.lapis, LapiKey)
  {
    NamesAndPlatformsKept(b, hash, before, st, ids, lapis, after, version);
    PlatformsMatch(b.platforms, before.platforms, after.platforms, ids.platforms);
    LapisMatch(b.lapis, before.lapis, after.lapis, lapis);
    forall u | u in ids.platforms ensures BaseOf(after, ids.platforms[u]) == u {
      var p :| p in b.platforms && PlatformKey(p) == u;
    }
  }

  lemma RapisRead(b: Bundle, hash: string -> string, before: Db, st: Stages, ids: Ids, lapis: map<string, int>,
      after: Db, version: int)
    requires Commits(b, hash, before, st, ids, lapis, after, version)
    ensures Matches(after.rapis.rows, ReadRapi(after), b.rapis, RapiKey)
  {
    BasesRead(b, hash, before, st, ids, lapis, after, version);
    RapisKept(b, hash, before, st, ids, lapis, after, version);
    RapisMatch(after, b.rapis, ids);
  }

  lemma RoutesRead(b: Bundle, hash: string -> string, before: Db, st: Stages, ids: Ids, lapis: map<string, int>,
      after: Db, version: int)
    requires CommitsAll(b, hash, before, st, ids, lapis, after, version)
    ensures Matches(RoutesIn(after), Self, b.routes, KeyOfRoute)
  {
    BasesRead(b, hash, before, st, ids, lapis, after, version);
    NamesAndPlatformsKept(b, hash, before, st, ids, lapis, after, version);
    RapisKept(b, hash, before, st, ids, lapis, after, version);
    forall o | o in b.routes ensures EndsOf(after, ids, lapis, o) {
      RouteEnds(b, after, before.lapis, ids, lapis, o);
    }
    RoutesMatch(after, b.routes, ids, lapis);
  }

  lemma RouteEnds(b: Bundle, after: Db, names: Table<LAPI>, ids: Ids, lapis: map<string, int>, o: Route)
    requires Valid(b) && o in b.routes && LapisDone(b.lapis, names, after.lapis, lapis)
      && RapisDone(b.rapis, after.rapis, ids)
    requires forall u :: u in ids.platforms ==> BaseOf(after, ids.platforms[u]) == u
    ensures EndsOf(after, ids, lapis, o)
  {
    var l :| l in b.lapis && LapiKey(l) == o.lapiAlias;
    var r :| r in b.rapis && RapiKey(r) == RouteEndpoint(o);
    assert StoredRapi(after.rapis, ids, r);
  }

  lemma HashesRead(b: Bundle, hash: string -> string, before: Db, st: Stages, ids: Ids, lapis: map<string, int>,
      after: Db, version: int)
    requires Commits(b, hash, before, st, ids, lapis, after, version) && Unhashed(after.credentials.rows) == {}
    ensures Matches(after.credentials.rows, ReadCredential(after), Trimmed(b.credentials), SyncMerge.CredentialHash)
  {
    CredentialChain(b, hash, before, st, ids, lapis);
    BasesRead(b, hash, before, st, ids, lapis, after, version);
    CredentialsMatch(after, b.credentials, hash, before.credentials, st.lapis.platforms.rows.Keys, st.lapis.credentials,
                     ids.platforms, ids.credentials);
  }

  /** The tables of an export are those of the snapshot, the credentials under trimmed hashes. */
  ghost predicate SameRows(e: Bundle, b: Bundle) {
    && UniqueKeys(e.platforms, PlatformKey) && (forall p :: p in e.platforms <==> p in b.platforms)
    && UniqueKeys(e.credentials, SyncMerge.CredentialHash)
    && (forall c :: c in e.credentials <==> c in Trimmed(b.credentials))
    && UniqueKeys(e.rapis, RapiKey) && (forall r :: r in e.rapis <==> r in b.rapis)
    && UniqueKeys(e.lapis, LapiKey) && (forall l :: l in e.lapis <==> l in b.lapis)
    && UniqueKeys(e.routes, KeyOfRoute) && (forall o :: o in e.routes <==> o in b.routes)
    && e.bindings == []
  }

  lemma ExportRows(b: Bundle, hash: string -> string, before: Db, st: Stages, ids: Ids, lapis: map<string, int>,
      after: Db, version: int, e: Bundle)
    requires CommitsAll(b, hash, before, st, ids, lapis, after, version) && Exports(after, e)
    ensures SameRows(e, b)
  {
    BasesRead(b, hash, before, st, ids, lapis, after, version);
    RapisRead(b, hash, before, st, ids, lapis, after, version);
    RoutesRead(b, hash, before, st, ids, lapis, after, version);
    HashesRead(b, hash, before, st, ids, lapis, after, version);
    ListedMatches(e.platforms, after.platforms.rows, ReadPlatform, b.platforms, PlatformKey);
    ListedMatches(e.credentials, after.credentials.rows, ReadCredential(after), Trimmed(b.credentials),
      SyncMerge.CredentialHash);
    ListedMatches(e.rapis, after.rapis.rows, ReadRapi(after), b.rapis, RapiKey);
    ListedMatches(e.lapis, after.lapis.rows, Self, b.lapis, LapiKey);
    ListedMatches(e.routes, RoutesIn(after), Self, b.routes, KeyOfRoute);
  }

  lemma SameDefinitionsIff(e: Bundle, b: Bundle)
    requires SameRows(e, b) && Valid(b)
    ensures SyncMerge.DefinitionsOf(e) == SyncMerge.DefinitionsOf(b) <==> AllTrimmed(b.credentials)
  {
    SameTable(e.platforms, b.platforms, PlatformKey, SyncMerge.PlatformView);
    HashesUnique(b.credentials);
    SameTable(e.credentials, Trimmed(b.credentials), SyncMerge.CredentialHash, SyncMerge.CredentialView);
    TrimmedSameIff(b.credentials);
    SameTable(e.rapis, b.rapis, RapiKey, Self);
    SameTable(e.lapis, b.lapis, LapiKey, Self);
    SameTable(e.routes, b.routes, KeyOfRoute, Self);
  }

  lemma SameRowsValid(e: Bundle, b: Bundle)
    requires SameRows(e, b) && Valid(b)
    ensures Valid(e)
  {
    SameKeys(e.platforms, b.platforms, PlatformKey);
    SameKeys(e.rapis, b.rapis, RapiKey);
    SameKeys(e.lapis, b.lapis, LapiKey);
    forall c | c in e.credentials
      ensures GoodCredential(c, KeysOf(e.platforms, PlatformKey)) && CredKey(c) == c.tokenHash
    {
      var i :| 0 <= i < |b.credentials| && Trimmed(b.credentials)[i] == c;
      assert b.credentials[i] in b.credentials;
      TrimTwice(b.credentials[i].tokenHash);
    }
    forall i, j | 0 <= i < j < |e.credentials| ensures CredKey(e.credentials[i]) != CredKey(e.credentials[j]) {
      assert e.credentials[i] in e.credentials && e.credentials[j] in e.credentials;
      assert SyncMerge.CredentialHash(e.credentials[i]) != SyncMerge.CredentialHash(e.credentials[j]);
    }
  }

  /** After a commit the tables read back as the snapshot, bindings aside, exactly when no credential row
      without a hash remains and no hash of the snapshot has surrounding blanks. */
  lemma ReadsBackIff(b: Bundle, hash: string -> string, before: Db, st: Stages, ids: Ids, lapis: map<string, int>,
      after: Db, version: int)
    requires CommitsAll(b, hash, before, st, ids, lapis, after, version)
    ensures (exists e :: Exports(after, e) && SyncMerge.DefinitionsOf(e) == SyncMerge.DefinitionsOf(b)) <==>
      Unhashed(after.credentials.rows) == {} && AllTrimmed(b.credentials)
    ensures forall e :: Exports(after, e) ==> Valid(e)
  {
    forall e | Exports(after, e)
      ensures Valid(e) && (SyncMerge.DefinitionsOf(e) == SyncMerge.DefinitionsOf(b) <==> AllTrimmed(b.credentials))
    {
      ExportRows(b, hash, before, st, ids, lapis, after, version, e);
      SameDefinitionsIff(e, b);
      SameRowsValid(e, b);
    }
    if Unhashed(after.credentials.rows) == {} {
      var e := SomeExport(after);
    }
  }

  lemma SomeExport(db: Db) returns (e: Bundle)
    requires Unhashed(db.credentials.rows) == {}
    ensures Exports(db, e)
  {
    var platforms := ListingExists(db.platforms.rows, ReadPlatform);
    var credentials := ListingExists(db.credentials.rows, ReadCredential(db));
    var rapis := ListingExists(db.rapis.rows, ReadRapi(db));
    var lapis := ListingExists(db.lapis.rows, Self);
    var routes := ListingExists(RoutesIn(db), Self);
    e := Bundle(platforms, credentials, rapis, lapis, routes, []);
  }
}
