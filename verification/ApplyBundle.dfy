/** Applying a snapshot to a node in one transaction, keeping the identity of what survives. */
module ApplyBundle {
  import opened Folds
  import opened Bundle
  import opened Tables
  import opened Names
  import opened BundleMerge
  import opened Upserts
  import opened Store

  // ---------- What is stored for each row ----------

  function PlatformItem(p: Platform): Item<string, PlatformRow> {
    var row := PlatformRow(p, p.token != "");
    Item(p.baseURL, row, row)
  }

  /** A token from the center is plain; one with the mark of an old encryption cannot be read. */
  predicate Readable(token: string, canEncrypt: bool) {
    token == "" || (!("enc:" <= token) && canEncrypt)
  }

  /** The token must hash to the key it is listed under. */
  predicate HashMatches(c: Credential, hash: string -> string) {
    c.token == "" || hash(c.token) == Trim(c.tokenHash)
  }

  function CredentialItem(c: Credential, platforms: map<string, int>,
      hash: string -> string): Item<string, CredentialRow>
    requires c.platformBaseURL in platforms
  {
    var pid := platforms[c.platformBaseURL];
    Item(Trim(c.tokenHash),
         CredentialRow(pid, if c.token == "" then None else Some(hash(c.token)), c, 0),
         CredentialRow(pid, Some(Trim(c.tokenHash)), c, 0))
  }

  function RapiItem(r: RAPI, platforms: map<string, int>): Item<RapiId, RapiRow>
    requires r.platformBaseURL in platforms
  {
    var row := RapiRow(platforms[r.platformBaseURL], r, true);
    Item(RapiId(platforms[r.platformBaseURL], r.model), row, row)
  }

  function LapiItem(l: LAPI): Item<string, LAPI> {
    Item(l.alias, l, l)
  }

  function Items<T, K, R>(rows: seq<T>, item: T --> Item<K, R>): (r: seq<Item<K, R>>)
    requires forall t :: t in rows ==> item.requires(t)
    ensures |r| == |rows| && forall i :: 0 <= i < |r| ==> item.requires(rows[i]) && r[i] == item(rows[i])
  {
    assert forall i :: 0 <= i < |rows| ==> rows[i] in rows;
    seq(|rows|, i requires 0 <= i < |rows| => item(rows[i]))
  }

  lemma ItemsUnique<T, L, K, R>(rows: seq<T>, rowKey: T -> L, item: T --> Item<K, R>)
    requires forall t :: t in rows ==> item.requires(t)
    requires UniqueKeys(rows, rowKey)
    requires forall t, u :: t in rows && u in rows && item(t).k == item(u).k ==> rowKey(t) == rowKey(u)
    ensures UniqueKeys(Items(rows, item), ItemKey)
  {
    var items := Items(rows, item);
    forall i, j | 0 <= i < j < |items| ensures ItemKey(items[i]) != ItemKey(items[j]) {
      assert rows[i] in rows && rows[j] in rows && rowKey(rows[i]) != rowKey(rows[j]);
    }
  }

  lemma ItemsAre<T, K, R>(rows: seq<T>, item: T --> Item<K, R>)
    requires forall t :: t in rows ==> item.requires(t)
    ensures forall it :: it in Items(rows, item) ==> exists t :: t in rows && it == item(t)
    ensures forall t :: t in rows ==> item(t) in Items(rows, item)
  {
    var items := Items(rows, item);
    forall it | it in items ensures exists t :: t in rows && it == item(t) {
      var i :| 0 <= i < |items| && items[i] == it;
      assert rows[i] in rows;
    }
    forall t | t in rows ensures item(t) in items {
      var i :| 0 <= i < |rows| && rows[i] == t;
      assert items[i] == item(t);
    }
  }

  // ---------- Platforms ----------

  method ApplyPlatforms(db: Db, rows: seq<Platform>) returns (after: Db, ids: map<string, int>)
    requires Consistent(db) && AllGood(rows, GoodPlatform) && UniqueKeys(rows, PlatformKey)
    ensures Consistent(after)
    ensures after == Cascade(db.(platforms := after.platforms))
    ensures Mirrors(db.platforms, after.platforms, PlatformRowKey, Items(rows, PlatformItem), ids)
  {
    ItemsAre(rows, PlatformItem);
    ItemsUnique(rows, PlatformKey, PlatformItem);
    var table;
    table, ids := Mirror(db.platforms, PlatformRowKey, Items(rows, PlatformItem));
    after := Cascade(db.(platforms := table));
    CascadeLinks(db.(platforms := table));
  }

  // ---------- Names ----------

  method ApplyLapis(db: Db, rows: seq<LAPI>) returns (after: Db, ids: map<string, int>)
    requires Consistent(db) && UniqueKeys(rows, LapiKey)
    ensures Consistent(after)
    ensures after == Cascade(db.(lapis := after.lapis))
    ensures Mirrors(db.lapis, after.lapis, LapiRowKey, Items(rows, LapiItem), ids)
  {
    ItemsAre(rows, LapiItem);
    ItemsUnique(rows, LapiKey, LapiItem);
    var table;
    table, ids := Mirror(db.lapis, LapiRowKey, Items(rows, LapiItem));
    after := Cascade(db.(lapis := table));
    CascadeLinks(db.(lapis := table));
  }

  // ---------- Endpoints ----------

  /** The ids of the platforms, for the rows that refer to them. */
  ghost predicate Known(platforms: map<string, int>, db: Db) {
    && (forall u :: u in platforms ==> platforms[u] in db.platforms.rows)
    && (forall u, v :: u in platforms && v in platforms && u != v ==> platforms[u] != platforms[v])
  }

  ghost predicate RapisRefer(rows: seq<RAPI>, platforms: map<string, int>) {
    forall r :: r in rows ==> r.platformBaseURL in platforms && Trim(r.model) != ""
  }

  function RapiItems(rows: seq<RAPI>, platforms: map<string, int>): seq<Item<RapiId, RapiRow>>
    requires RapisRefer(rows, platforms)
  {
    Items(rows, (r: RAPI) requires r.platformBaseURL in platforms => RapiItem(r, platforms))
  }

  lemma RapiItemsGood(rows: seq<RAPI>, platforms: map<string, int>, db: Db)
    requires RapisRefer(rows, platforms) && Known(platforms, db) && UniqueKeys(rows, RapiKey)
    ensures UniqueKeys(RapiItems(rows, platforms), ItemKey)
    ensures forall it :: it in RapiItems(rows, platforms) ==> exists r :: r in rows && it == RapiItem(r, platforms)
    ensures forall r :: r in rows ==> RapiItem(r, platforms) in RapiItems(rows, platforms)
  {
    var item := (r: RAPI) requires r.platformBaseURL in platforms => RapiItem(r, platforms);
    ItemsAre(rows, item);
    ItemsUnique(rows, RapiKey, item);
  }

  lemma BlankModel()
    ensures Trim("") == ""
  {
  }

  method ApplyRapis(db: Db, rows: seq<RAPI>, platforms: map<string, int>) returns (after: Db, ids: map<RapiId, int>)
    requires Consistent(db) && RapisRefer(rows, platforms) && Known(platforms, db) && UniqueKeys(rows, RapiKey)
    ensures Consistent(after)
    ensures after == Cascade(db.(rapis := after.rapis))
    ensures Mirrors(db.rapis, after.rapis, RapiRowKey, RapiItems(rows, platforms), ids)
  {
    RapiItemsGood(rows, platforms, db);
    BlankModel();
    var table;
    table, ids := Mirror(db.rapis, RapiRowKey, RapiItems(rows, platforms));
    RapisStayLinked(db, table, rows, platforms, ids);
    after := Cascade(db.(rapis := table));
    CascadeLinks(db.(rapis := table));
  }

  /** Every stored endpoint belongs to a platform, so the cascade keeps it. */
  lemma RapisStayLinked(db: Db, table: Table<RapiRow>, rows: seq<RAPI>, platforms: map<string, int>,
      ids: map<RapiId, int>)
    requires RapisRefer(rows, platforms) && Known(platforms, db) && UniqueKeys(rows, RapiKey)
    requires Mirrors(db.rapis, table, RapiRowKey, RapiItems(rows, platforms), ids)
    ensures RapisOf(table, db.platforms.rows.Keys) == table
  {
    RapiItemsGood(rows, platforms, db);
    forall id | id in table.rows ensures table.rows[id].platformID in db.platforms.rows {
      var it := StoredItem(db.rapis, table, RapiRowKey, RapiItems(rows, platforms), ids, id);
    }
  }

  // ---------- Credentials ----------

  ghost predicate CredentialsRefer(rows: seq<Credential>, platforms: map<string, int>) {
    forall c :: c in rows ==> c.platformBaseURL in platforms
  }

  function CredentialItems(rows: seq<Credential>, platforms: map<string, int>,
      hash: string -> string): seq<Item<string, CredentialRow>>
    requires CredentialsRefer(rows, platforms)
  {
    Items(rows, (c: Credential) requires c.platformBaseURL in platforms => CredentialItem(c, platforms, hash))
  }

  lemma CredentialItemsGood(rows: seq<Credential>, platforms: map<string, int>, hash: string -> string)
    requires CredentialsRefer(rows, platforms) && UniqueKeys(rows, CredKey)
    ensures UniqueKeys(CredentialItems(rows, platforms, hash), ItemKey)
    ensures forall it :: it in CredentialItems(rows, platforms, hash) ==>
      exists c :: c in rows && it == CredentialItem(c, platforms, hash)
    ensures forall c :: c in rows ==> CredentialItem(c, platforms, hash) in CredentialItems(rows, platforms, hash)
  {
    var item := (c: Credential) requires c.platformBaseURL in platforms => CredentialItem(c, platforms, hash);
    ItemsAre(rows, item);
    ItemsUnique(rows, CredKey, item);
  }

  /** Credentials without a hash: a cleanup by hash does not see them. */
  function Unhashed(rows: map<int, CredentialRow>): set<int> {
    set id | id in rows && rows[id].tokenHash == None
  }

  /** The listed credentials are stored and the unlisted ones with a hash are gone. */
  ghost predicate CredentialsApplied(before: Table<CredentialRow>, after: Table<CredentialRow>,
      items: seq<Item<string, CredentialRow>>, ids: map<string, int>)
  {
    && Placed(before, after, CredentialRowKey, items, ids) && Holds(before, after, items, ids)
    && after.rows.Keys == ids.Values + Unhashed(before.rows)
    && forall id :: id in Unhashed(before.rows) ==> after.rows[id] == before.rows[id]
  }

  method ApplyCredentials(db: Db, rows: seq<Credential>, platforms: map<string, int>, hash: string -> string)
    returns (after: Db, ids: map<string, int>)
    requires Consistent(db) && CredentialsRefer(rows, platforms) && Known(platforms, db) && UniqueKeys(rows, CredKey)
    requires forall c :: c in rows ==> HashMatches(c, hash)
    ensures Consistent(after)
    ensures after == Cascade(db.(credentials := after.credentials))
    ensures CredentialsApplied(db.credentials, after.credentials, CredentialItems(rows, platforms, hash), ids)
  {
    CredentialItemsGood(rows, platforms, hash);
    var all;
    all, ids := StoreAll(db.credentials, CredentialRowKey, CredentialItems(rows, platforms, hash));
    var table := Table(Kept(all.rows, ids.Values + Unhashed(all.rows)), all.next);
    UnlistedGone(db.credentials, all, table, CredentialItems(rows, platforms, hash), ids);
    CredentialsStayLinked(db, table, rows, platforms, hash, ids);
    after := Cascade(db.(credentials := table));
    CascadeLinks(db.(credentials := table));
  }

  lemma UnlistedGone(before: Table<CredentialRow>, all: Table<CredentialRow>, after: Table<CredentialRow>,
      items: seq<Item<string, CredentialRow>>, ids: map<string, int>)
    requires Sane(before, CredentialRowKey) && Sane(all, CredentialRowKey)
      && AllStored(before, all, CredentialRowKey, items, ids)
    requires after == Table(Kept(all.rows, ids.Values + Unhashed(all.rows)), all.next)
    ensures Sane(after, CredentialRowKey) && CredentialsApplied(before, after, items, ids)
  {
    forall k | k in ids ensures ids[k] in after.rows && after.rows[ids[k]] == all.rows[ids[k]] {
      assert ids[k] in ids.Values;
    }
    forall id | id in Unhashed(before.rows)
      ensures id !in ids.Values && id in all.rows && all.rows[id] == before.rows[id]
    {
      forall k | k in ids ensures ids[k] != id {
        assert ids[k] in before.rows ==> HasRow(before.rows, CredentialRowKey, k, ids[k]);
      }
    }
    forall id | id in Unhashed(all.rows) ensures id in ids.Values || id in Unhashed(before.rows) {
    }
  }

  lemma CredentialsStayLinked(db: Db, table: Table<CredentialRow>, rows: seq<Credential>, platforms: map<string, int>,
      hash: string -> string, ids: map<string, int>)
    requires CredentialsRefer(rows, platforms) && Known(platforms, db) && UniqueKeys(rows, CredKey) && Linked(db)
    requires CredentialsApplied(db.credentials, table, CredentialItems(rows, platforms, hash), ids)
    ensures CredentialsOf(table, db.platforms.rows.Keys) == table
  {
    CredentialItemsGood(rows, platforms, hash);
    forall id | id in table.rows ensures table.rows[id].platformID in db.platforms.rows {
      if id in ids.Values {
        var it := StoredItem(db.credentials, table, CredentialRowKey, CredentialItems(rows, platforms, hash), ids, id);
      }
    }
  }

  // ---------- Bindings ----------

  /** The credentials that the snapshot lists for an endpoint. */
  function ListedFor(bindings: seq<Binding>, ep: EndpointKey, creds: map<string, int>): set<int> {
    set d | d in bindings && BindingEndpoint(d) == ep && Trim(d.tokenHash) in creds :: creds[Trim(d.tokenHash)]
  }

  predicate AnyListed(bindings: seq<Binding>, ep: EndpointKey) {
    exists d :: d in bindings && BindingEndpoint(d) == ep
  }

  function OnPlatform(t: Table<CredentialRow>, platformID: int): set<int> {
    set id | id in t.rows && t.rows[id].platformID == platformID
  }

  /** The listed credentials of the endpoint's platform, or all of that platform if none is listed. */
  function Wanted(bindings: seq<Binding>, ep: EndpointKey, creds: map<string, int>, t: Table<CredentialRow>,
      platformID: int): set<int>
  {
    if AnyListed(bindings, ep) then ListedFor(bindings, ep, creds) * OnPlatform(t, platformID)
      else OnPlatform(t, platformID)
  }

  /** Bindings of one endpoint replaced by a set of credentials; those that stay keep their flag. */
  function Rebound(m: map<Pair, bool>, rapi: int, want: set<int>): map<Pair, bool> {
    map k | k in m.Keys + PairsOf(rapi, want) && (k.left != rapi || k.right in want) :: if k in m then m[k] else true
  }

  function PairsOf(rapi: int, want: set<int>): set<Pair> {
    set c | c in want :: Pair(rapi, c)
  }

  method SyncBindings(m: map<Pair, bool>, rapi: int, want: set<int>) returns (after: map<Pair, bool>)
    ensures after == Rebound(m, rapi, want)
  {
    after := m;
    var cur := set k | k in m && k.left == rapi;
    while cur != {}
      invariant cur <= m.Keys && forall k :: k in cur ==> k.left == rapi
      invariant forall k :: k in after <==> k in m && (k.left != rapi || k.right in want || k in cur)
      invariant forall k :: k in after ==> after[k] == m[k]
      decreases cur
    {
      var k :| k in cur;
      if k.right !in want {
        after := after - {k};
      }
      cur := cur - {k};
    }
    var rest := want;
    while rest != {}
      invariant rest <= want
      invariant forall k :: k in after <==>
        (k in m && (k.left != rapi || k.right in want)) || (k.left == rapi && k.right in want - rest)
      invariant forall k :: k in after ==> after[k] == if k in m then m[k] else true
      decreases rest
    {
      ghost var some := Member(rest);
      var c :| c in rest;
      if Pair(rapi, c) !in after {
        after := after[Pair(rapi, c) := true];
      }
      rest := rest - {c};
    }
  }

  /** The ids that the rows of a snapshot are stored under. */
  datatype Ids = Ids(platforms: map<string, int>, credentials: map<string, int>, rapis: map<RapiId, int>)

  ghost predicate HasRapi(ids: Ids, base: string, model: string) {
    base in ids.platforms && RapiId(ids.platforms[base], model) in ids.rapis
  }

  function RapiIdOf(ids: Ids, base: string, model: string): int
    requires HasRapi(ids, base, model)
  {
    ids.rapis[RapiId(ids.platforms[base], model)]
  }

  ghost predicate AllHaveIds(rows: seq<RAPI>, ids: Ids) {
    forall r :: r in rows ==> HasRapi(ids, r.platformBaseURL, r.model)
  }

  /** Different endpoints have different ids. */
  ghost predicate IdsDiffer(ids: Ids) {
    && (forall u, v :: u in ids.platforms && v in ids.platforms && u != v ==> ids.platforms[u] != ids.platforms[v])
    && (forall k, l :: k in ids.rapis && l in ids.rapis && k != l ==> ids.rapis[k] != ids.rapis[l])
  }

  function WantedFor(r: RAPI, bindings: seq<Binding>, ids: Ids, t: Table<CredentialRow>): set<int>
    requires r.platformBaseURL in ids.platforms
  {
    Wanted(bindings, RapiKey(r), ids.credentials, t, ids.platforms[r.platformBaseURL])
  }

  /** A credential serves an endpoint: its row is on the endpoint's platform, and a binding names the endpoint
      with its hash, or no binding names the endpoint. */
  ghost predicate Serves(r: RAPI, bindings: seq<Binding>, ids: Ids, t: Table<CredentialRow>, c: int)
    requires r.platformBaseURL in ids.platforms
  {
    && c in t.rows && t.rows[c].platformID == ids.platforms[r.platformBaseURL]
    && (|| (exists d :: d in bindings && d.platformBaseURL == r.platformBaseURL && d.model == r.model
              && Trim(d.tokenHash) in ids.credentials && ids.credentials[Trim(d.tokenHash)] == c)
        || (forall d :: d in bindings ==> !(d.platformBaseURL == r.platformBaseURL && d.model == r.model)))
  }

  lemma WantedServes(r: RAPI, bindings: seq<Binding>, ids: Ids, t: Table<CredentialRow>, c: int)
    requires r.platformBaseURL in ids.platforms
    ensures c in WantedFor(r, bindings, ids, t) <==> Serves(r, bindings, ids, t, c)
  {
    assert forall d: Binding :: BindingEndpoint(d) == RapiKey(r) <==>
      d.platformBaseURL == r.platformBaseURL && d.model == r.model;
  }

  /** The bindings of the rows are those wanted, the others are as before; flags of kept ones stay. */
  ghost predicate Bound(before: map<Pair, bool>, after: map<Pair, bool>, rows: seq<RAPI>, bindings: seq<Binding>,
      ids: Ids, t: Table<CredentialRow>)
    requires AllHaveIds(rows, ids)
  {
    && (forall r, c :: r in rows ==>
      (Pair(RapiIdOf(ids, r.platformBaseURL, r.model), c) in after <==> Serves(r, bindings, ids, t, c)))
    && (forall k :: Others(k, rows, ids) ==> (k in after <==> k in before))
    && (forall k :: k in after ==> after[k] == if k in before then before[k] else true)
  }

  ghost predicate Others(k: Pair, rows: seq<RAPI>, ids: Ids)
    requires AllHaveIds(rows, ids)
  {
    forall r :: r in rows ==> RapiIdOf(ids, r.platformBaseURL, r.model) != k.left
  }

  lemma BindStep(before: map<Pair, bool>, mid: map<Pair, bool>, init: seq<RAPI>, r: RAPI, bindings: seq<Binding>,
      ids: Ids, t: Table<CredentialRow>)
    requires AllHaveIds(init + [r], ids) && AllHaveIds(init, ids) && IdsDiffer(ids)
    requires HasRapi(ids, r.platformBaseURL, r.model)
    requires forall q :: q in init ==> RapiKey(q) != RapiKey(r)
    requires Bound(before, mid, init, bindings, ids, t)
    ensures
      var rid := RapiIdOf(ids, r.platformBaseURL, r.model);
      Bound(before, Rebound(mid, rid, WantedFor(r, bindings, ids, t)), init + [r], bindings, ids, t)
  {
    var rid := RapiIdOf(ids, r.platformBaseURL, r.model);
    var want := WantedFor(r, bindings, ids, t);
    var after := Rebound(mid, rid, want);
    forall q | q in init ensures RapiIdOf(ids, q.platformBaseURL, q.model) != rid {
      assert RapiId(ids.platforms[q.platformBaseURL], q.model) != RapiId(ids.platforms[r.platformBaseURL], r.model);
    }
    forall c ensures Pair(rid, c) in after <==> Serves(r, bindings, ids, t, c) {
      assert Pair(rid, c) in PairsOf(rid, want) <==> c in want;
      WantedServes(r, bindings, ids, t, c);
    }
    assert OthersKept(before, mid, init, ids);
    forall k ensures k in after ==> after[k] == if k in before then before[k] else true {
      if k in after && k !in mid {
        assert k.left == rid;
        assert Others(k, init, ids);
      }
    }
    forall k | Others(k, init + [r], ids) ensures k in after <==> k in before {
      assert r in init + [r];
      assert Others(k, init, ids) by {
        forall q | q in init ensures RapiIdOf(ids, q.platformBaseURL, q.model) != k.left {
          assert q in init + [r];
        }
      }
    }
  }

  ghost predicate OthersKept(before: map<Pair, bool>, mid: map<Pair, bool>, init: seq<RAPI>, ids: Ids)
    requires AllHaveIds(init, ids)
  {
    forall k :: Others(k, init, ids) ==> (k in mid <==> k in before)
  }

  method SyncAllBindings(before: map<Pair, bool>, rows: seq<RAPI>, bindings: seq<Binding>, ids: Ids,
      t: Table<CredentialRow>)
    returns (after: map<Pair, bool>)
    requires AllHaveIds(rows, ids) && IdsDiffer(ids) && UniqueKeys(rows, RapiKey)
    ensures Bound(before, after, rows, bindings, ids, t)
  {
    after := before;
    var i := 0;
    while i < |rows|
      invariant 0 <= i <= |rows|
      invariant AllHaveIds(rows[..i], ids) && Bound(before, after, rows[..i], bindings, ids, t)
    {
      var r := rows[i];
      NewRapi(rows, i);
      ghost var mid := after;
      var want := WantedFor(r, bindings, ids, t);
      after := SyncBindings(after, RapiIdOf(ids, r.platformBaseURL, r.model), want);
      BindStep(before, mid, rows[..i], r, bindings, ids, t);
      i := i + 1;
    }
    assert rows[..i] == rows;
  }

  lemma NewRapi(rows: seq<RAPI>, i: nat)
    requires UniqueKeys(rows, RapiKey) && i < |rows|
    ensures rows[i] in rows && rows[..i + 1] == rows[..i] + [rows[i]]
    ensures forall q :: q in rows[..i] ==> q in rows && RapiKey(q) != RapiKey(rows[i])
  {
    forall q | q in rows[..i] ensures RapiKey(q) != RapiKey(rows[i]) {
      var j :| 0 <= j < i && rows[j] == q;
    }
  }

  // ---------- Chains ----------

  ghost predicate Different(lapis: map<string, int>) {
    forall a, b :: a in lapis && b in lapis && a != b ==> lapis[a] != lapis[b]
  }

  ghost predicate RoutesRefer(routes: seq<Route>, ids: Ids, lapis: map<string, int>) {
    forall o :: o in routes ==> o.lapiAlias in lapis && HasRapi(ids, o.platformBaseURL, o.model)
  }

  function PlaceOf(o: Route, ids: Ids, lapis: map<string, int>): Pair
    requires o.lapiAlias in lapis && HasRapi(ids, o.platformBaseURL, o.model)
  {
    Pair(lapis[o.lapiAlias], RapiIdOf(ids, o.platformBaseURL, o.model))
  }

  ghost predicate OrdersAre(orders: map<Pair, int>, routes: seq<Route>, ids: Ids, lapis: map<string, int>)
    requires RoutesRefer(routes, ids, lapis)
  {
    && (forall o :: o in routes ==> PlaceOf(o, ids, lapis) in orders && orders[PlaceOf(o, ids, lapis)] == o.orderIndex)
    && (forall k :: k in orders ==> exists o :: o in routes && PlaceOf(o, ids, lapis) == k)
  }

  lemma PlacesDiffer(o: Route, q: Route, ids: Ids, lapis: map<string, int>)
    requires IdsDiffer(ids) && Different(lapis) && RoutesRefer([o, q], ids, lapis) && KeyOfRoute(o) != KeyOfRoute(q)
    ensures o in [o, q] && q in [o, q] && PlaceOf(o, ids, lapis) != PlaceOf(q, ids, lapis)
  {
    assert o in [o, q] && q in [o, q];
    if o.lapiAlias == q.lapiAlias {
      assert RapiId(ids.platforms[o.platformBaseURL], o.model) != RapiId(ids.platforms[q.platformBaseURL], q.model);
    }
  }

  /** The name already has a route of that index. */
  predicate Taken(orders: map<Pair, int>, lapi: int, index: int) {
    exists k :: k in orders && k.left == lapi && orders[k] == index
  }

  lemma TakenClashes(orders: map<Pair, int>, routes: seq<Route>, i: nat, ids: Ids, lapis: map<string, int>)
    requires i < |routes| && RoutesRefer(routes[..i], ids, lapis) && OrdersAre(orders, routes[..i], ids, lapis)
      && IdsDiffer(ids) && Different(lapis)
    requires routes[i].lapiAlias in lapis && Taken(orders, lapis[routes[i].lapiAlias], routes[i].orderIndex)
    ensures !DistinctOrder(routes)
  {
    var k :| k in orders && k.left == lapis[routes[i].lapiAlias] && orders[k] == routes[i].orderIndex;
    var q :| q in routes[..i] && PlaceOf(q, ids, lapis) == k;
    var j :| 0 <= j < i && routes[j] == q;
    assert routes[j].lapiAlias == routes[i].lapiAlias;
  }

  lemma FreeExtends(orders: map<Pair, int>, routes: seq<Route>, i: nat, ids: Ids, lapis: map<string, int>)
    requires i < |routes| && RoutesRefer(routes[..i], ids, lapis) && OrdersAre(orders, routes[..i], ids, lapis)
      && DistinctOrder(routes[..i])
    requires routes[i].lapiAlias in lapis && !Taken(orders, lapis[routes[i].lapiAlias], routes[i].orderIndex)
    ensures DistinctOrder(routes[..i + 1])
  {
    var init, o := routes[..i], routes[i];
    forall a | 0 <= a < i ensures init[a].lapiAlias != o.lapiAlias || init[a].orderIndex != o.orderIndex {
      assert init[a] in init;
      assert PlaceOf(init[a], ids, lapis) in orders;
    }
    assert routes[..i + 1] == init + [o];
  }

  lemma OrderStep(orders: map<Pair, int>, routes: seq<Route>, i: nat, ids: Ids, lapis: map<string, int>)
    requires i < |routes| && RoutesRefer(routes, ids, lapis) && IdsDiffer(ids) && Different(lapis)
      && RoutesRefer(routes[..i], ids, lapis)
    requires UniqueKeys(routes, KeyOfRoute) && OrdersAre(orders, routes[..i], ids, lapis)
    ensures routes[i] in routes && RoutesRefer(routes[..i + 1], ids, lapis)
    ensures OrdersAre(orders[PlaceOf(routes[i], ids, lapis) := routes[i].orderIndex], routes[..i + 1], ids, lapis)
  {
    var o := routes[i];
    assert o in routes;
    assert routes[..i + 1] == routes[..i] + [o];
    forall q | q in routes[..i] ensures PlaceOf(q, ids, lapis) != PlaceOf(o, ids, lapis) {
      var j :| 0 <= j < i && routes[j] == q;
      assert KeyOfRoute(routes[j]) != KeyOfRoute(routes[i]);
      PlacesDiffer(q, o, ids, lapis);
    }
  }

  method ApplyOrders(routes: seq<Route>, ids: Ids, lapis: map<string, int>) returns (ok: bool, orders: map<Pair, int>)
    requires RoutesRefer(routes, ids, lapis) && IdsDiffer(ids) && Different(lapis) && UniqueKeys(routes, KeyOfRoute)
    ensures ok <==> DistinctOrder(routes)
    ensures ok ==> OrdersAre(orders, routes, ids, lapis)
  {
    orders := map[];
    var i := 0;
    while i < |routes|
      invariant 0 <= i <= |routes|
      invariant RoutesRefer(routes[..i], ids, lapis) && OrdersAre(orders, routes[..i], ids, lapis)
        && DistinctOrder(routes[..i])
    {
      var o := routes[i];
      OrderStep(orders, routes, i, ids, lapis);
      if Taken(orders, lapis[o.lapiAlias], o.orderIndex) {
        TakenClashes(orders, routes, i, ids, lapis);
        return false, orders;
      }
      FreeExtends(orders, routes, i, ids, lapis);
      orders := orders[PlaceOf(o, ids, lapis) := o.orderIndex];
      i := i + 1;
    }
    assert routes[..i] == routes;
    ok := true;
  }
}
