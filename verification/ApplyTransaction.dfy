/** The transaction that applies a snapshot, and what it promises. */
module ApplyTransaction {
  import opened Folds
  import opened Bundle
  import opened Tables
  import opened Names
  import opened BundleMerge
  import opened Upserts
  import opened Store
  import opened ApplyBundle

  // ---------- When it commits ----------

  predicate TokensReadable(b: Bundle, canEncrypt: bool) {
    && (forall p :: p in b.platforms ==> Readable(p.token, canEncrypt))
    && (forall c :: c in b.credentials ==> Readable(c.token, canEncrypt))
  }

  predicate TokensMatch(b: Bundle, hash: string -> string) {
    forall c :: c in b.credentials ==> HashMatches(c, hash)
  }

  ghost predicate Committable(b: Bundle, hash: string -> string, canEncrypt: bool) {
    && Valid(b) && b.platforms != [] && DistinctOrder(b.routes)
    && (forall p :: p in b.platforms ==> p.token == "" || (canEncrypt && !("enc:" <= p.token)))
    && (forall c :: c in b.credentials ==> c.token == "" || (canEncrypt && !("enc:" <= c.token)))
    && (forall c :: c in b.credentials ==> c.token == "" || hash(c.token) == Trim(c.tokenHash))
  }

  lemma CommittableIs(b: Bundle, hash: string -> string, canEncrypt: bool)
    ensures Committable(b, hash, canEncrypt) <==>
      Valid(b) && b.platforms != [] && TokensReadable(b, canEncrypt) && TokensMatch(b, hash) && DistinctOrder(b.routes)
  {
  }

  // ---------- What it leaves behind ----------

  ghost predicate Injective<K>(ids: map<K, int>) {
    forall k, l :: k in ids && l in ids && k != l ==> ids[k] != ids[l]
  }

  /** One platform row per listed platform, available; a platform that was there keeps its id. */
  ghost predicate PlatformsDone(rows: seq<Platform>, before: Table<PlatformRow>, after: Table<PlatformRow>,
      ids: map<string, int>)
  {
    && ids.Keys == KeysOf(rows, PlatformKey) && Injective(ids) && after.rows.Keys == ids.Values
    && (forall p :: p in rows ==>
      p.baseURL in ids && ids[p.baseURL] in after.rows && after.rows[ids[p.baseURL]] == PlatformRow(p, true))
    && (forall id :: id in before.rows && before.rows[id].p.baseURL in ids ==> ids[before.rows[id].p.baseURL] == id)
  }

  ghost predicate LapisDone(rows: seq<LAPI>, before: Table<LAPI>, after: Table<LAPI>, ids: map<string, int>) {
    && ids.Keys == KeysOf(rows, LapiKey) && Injective(ids) && after.rows.Keys == ids.Values
    && (forall l :: l in rows ==> l.alias in ids && ids[l.alias] in after.rows && after.rows[ids[l.alias]] == l)
    && (forall id :: id in before.rows && before.rows[id].alias in ids ==> ids[before.rows[id].alias] == id)
  }

  /** One endpoint row per listed endpoint, on its platform, available. */
  ghost predicate RapisDone(rows: seq<RAPI>, after: Table<RapiRow>, ids: Ids) {
    && AllHaveIds(rows, ids) && Injective(ids.rapis) && after.rows.Keys == ids.rapis.Values
    && (forall k :: k in ids.rapis ==> exists r :: r in rows && k == RapiId(ids.platforms[r.platformBaseURL], r.model))
    && (forall r :: r in rows ==> StoredRapi(after, ids, r))
  }

  ghost predicate StoredRapi(t: Table<RapiRow>, ids: Ids, r: RAPI) {
    && HasRapi(ids, r.platformBaseURL, r.model)
    && RapiIdOf(ids, r.platformBaseURL, r.model) in t.rows
    && t.rows[RapiIdOf(ids, r.platformBaseURL, r.model)] == RapiRow(ids.platforms[r.platformBaseURL], r, true)
  }

  /** An endpoint that was there under a listed address and model keeps its id. */
  ghost predicate RapisKeepIds(platforms: Table<PlatformRow>, before: Table<RapiRow>, ids: Ids) {
    forall id :: id in before.rows && before.rows[id].platformID in platforms.rows ==>
      RapiKeepsId(platforms.rows[before.rows[id].platformID].p.baseURL, before.rows[id].r.model, ids, id)
  }

  ghost predicate RapiKeepsId(base: string, model: string, ids: Ids, id: int) {
    base != "" && model != "" && HasRapi(ids, base, model) ==> RapiIdOf(ids, base, model) == id
  }

  // ---------- Steps ----------

  lemma CascadeOfLinked(db: Db)
    requires Linked(db)
    ensures CredentialsOf(db.credentials, db.platforms.rows.Keys) == db.credentials
    ensures RapisOf(db.rapis, db.platforms.rows.Keys) == db.rapis
    ensures Cascade(db) == db
  {
    var creds, rapis := CredentialsOf(db.credentials, db.platforms.rows.Keys),
      RapisOf(db.rapis, db.platforms.rows.Keys);
    assert forall id :: id in db.credentials.rows ==> db.credentials.rows[id].platformID in db.platforms.rows.Keys;
    assert forall id :: id in db.rapis.rows ==> db.rapis.rows[id].platformID in db.platforms.rows.Keys;
    assert creds.rows.Keys == db.credentials.rows.Keys && creds.rows == db.credentials.rows;
    assert rapis.rows.Keys == db.rapis.rows.Keys && rapis.rows == db.rapis.rows;
    assert Restrict(db.bindings, db.rapis.rows.Keys, db.credentials.rows.Keys) == db.bindings;
    assert Restrict(db.metrics, db.rapis.rows.Keys, db.lapis.rows.Keys) == db.metrics;
    assert Restrict(db.orders, db.lapis.rows.Keys, db.rapis.rows.Keys) == db.orders;
  }

  lemma ItemKeys<T, K, R>(rows: seq<T>, rowKey: T -> K, item: T -> Item<K, R>)
    requires forall t :: item(t).k == rowKey(t)
    ensures KeysOf(Items(rows, item), ItemKey) == KeysOf(rows, rowKey)
  {
    ItemsAre(rows, item);
    var items := Items(rows, item);
    forall k ensures k in KeysOf(items, ItemKey) <==> k in KeysOf(rows, rowKey) {
      if k in KeysOf(items, ItemKey) {
        var it :| it in items && ItemKey(it) == k;
        var t :| t in rows && it == item(t);
      }
      if k in KeysOf(rows, rowKey) {
        var t :| t in rows && rowKey(t) == k;
        assert ItemKey(item(t)) == k;
      }
    }
  }

  /** The platforms of a snapshot as its other rows refer to them. */
  lemma PlatformsKnown(b: Bundle, before: Table<PlatformRow>, db: Db, ids: map<string, int>)
    requires Mirrors(before, db.platforms, PlatformRowKey, Items(b.platforms, PlatformItem), ids)
    ensures ids.Keys == KeysOf(b.platforms, PlatformKey) && Known(ids, db)
  {
    ItemKeys(b.platforms, PlatformKey, PlatformItem);
  }

  lemma RapisKnown(b: Bundle, before: Table<RapiRow>, db: Db, platforms: map<string, int>, rapis: map<RapiId, int>)
    requires RapisRefer(b.rapis, platforms) && Known(platforms, db) && UniqueKeys(b.rapis, RapiKey)
    requires Mirrors(before, db.rapis, RapiRowKey, RapiItems(b.rapis, platforms), rapis)
    ensures forall k :: k in rapis <==> exists r :: r in b.rapis && k == RapiId(platforms[r.platformBaseURL], r.model)
    ensures Injective(rapis)
  {
    RapiItemsGood(b.rapis, platforms, db);
    var items := RapiItems(b.rapis, platforms);
    forall k ensures k in rapis <==> exists r :: r in b.rapis && k == RapiId(platforms[r.platformBaseURL], r.model) {
      if k in rapis {
        var it :| it in items && ItemKey(it) == k;
        var r :| r in b.rapis && it == RapiItem(r, platforms);
      }
      if r :| r in b.rapis && k == RapiId(platforms[r.platformBaseURL], r.model) {
        assert ItemKey(RapiItem(r, platforms)) == k;
      }
    }
  }

  lemma LapisKnown(b: Bundle, before: Table<LAPI>, after: Table<LAPI>, ids: map<string, int>)
    requires Mirrors(before, after, LapiRowKey, Items(b.lapis, LapiItem), ids)
    ensures ids.Keys == KeysOf(b.lapis, LapiKey) && Injective(ids)
  {
    ItemKeys(b.lapis, LapiKey, LapiItem);
  }

  function PlatformsReset(t: Table<PlatformRow>): Table<PlatformRow> {
    Table(map id | id in t.rows :: t.rows[id].(available := true), t.next)
  }

  function RapisReset(t: Table<RapiRow>): Table<RapiRow> {
    Table(map id | id in t.rows :: t.rows[id].(available := true), t.next)
  }

  function CredentialsReset(t: Table<CredentialRow>): Table<CredentialRow> {
    Table(map id | id in t.rows :: t.rows[id].(failureType := 0), t.next)
  }

  /** Health flags reset and the version recorded. */
  function Committed(db: Db, orders: map<Pair, int>, version: int): Db {
    db.(
      platforms := PlatformsReset(db.platforms), credentials := CredentialsReset(db.credentials),
      rapis := RapisReset(db.rapis), orders := orders, current := version, lastGood := version)
  }

  // ---------- The transaction ----------

  ghost predicate PlatformStage(b: Bundle, before: Db, after: Db, platforms: map<string, int>) {
    && after == Cascade(before.(platforms := after.platforms))
    && Mirrors(before.platforms, after.platforms, PlatformRowKey, Items(b.platforms, PlatformItem), platforms)
    && platforms.Keys == KeysOf(b.platforms, PlatformKey) && Known(platforms, after)
  }

  ghost predicate CredentialStage(b: Bundle, hash: string -> string, before: Db, after: Db, platforms: map<string, int>,
      credentials: map<string, int>)
  {
    && after == Cascade(before.(credentials := after.credentials)) && CredentialsRefer(b.credentials, platforms)
    && CredentialsApplied(before.credentials, after.credentials, CredentialItems(b.credentials, platforms, hash),
      credentials)
  }

  ghost predicate RapiStage(b: Bundle, before: Db, after: Db, platforms: map<string, int>, rapis: map<RapiId, int>) {
    && after == Cascade(before.(rapis := after.rapis)) && RapisRefer(b.rapis, platforms)
    && Mirrors(before.rapis, after.rapis, RapiRowKey, RapiItems(b.rapis, platforms), rapis)
    && (forall k :: k in rapis <==> exists r :: r in b.rapis && k == RapiId(platforms[r.platformBaseURL], r.model))
  }

  ghost predicate BindStage(b: Bundle, before: Db, after: Db, ids: Ids) {
    && after == before.(bindings := after.bindings) && AllHaveIds(b.rapis, ids)
    && Bound(before.bindings, after.bindings, b.rapis, b.bindings, ids, before.credentials)
  }

  ghost predicate LapiStage(b: Bundle, before: Db, after: Db, lapis: map<string, int>) {
    && after == Cascade(before.(lapis := after.lapis))
    && Mirrors(before.lapis, after.lapis, LapiRowKey, Items(b.lapis, LapiItem), lapis)
    && lapis.Keys == KeysOf(b.lapis, LapiKey) && Different(lapis)
  }

  datatype Stages = Stages(platforms: Db, credentials: Db, rapis: Db, bound: Db, lapis: Db)

  /** The stages of a transaction up to the chains. */
  ghost predicate Staged(b: Bundle, hash: string -> string, before: Db, st: Stages, ids: Ids, lapis: map<string, int>) {
    && Consistent(st.platforms) && Consistent(st.credentials) && Consistent(st.rapis) && Consistent(st.bound)
    && Consistent(st.lapis)
    && PlatformStage(b, before, st.platforms, ids.platforms)
    && CredentialStage(b, hash, st.platforms, st.credentials, ids.platforms, ids.credentials)
    && RapiStage(b, st.credentials, st.rapis, ids.platforms, ids.rapis)
    && BindStage(b, st.rapis, st.bound, ids)
    && LapiStage(b, st.bound, st.lapis, lapis)
  }

  lemma RapisGetIds(b: Bundle, before: Db, after: Db, ids: Ids)
    requires RapiStage(b, before, after, ids.platforms, ids.rapis) && Known(ids.platforms, after)
    ensures AllHaveIds(b.rapis, ids) && IdsDiffer(ids)
    ensures forall r :: r in b.rapis ==> RapiIdOf(ids, r.platformBaseURL, r.model) in after.rapis.rows
  {
  }

  lemma BoundLinked(db: Db, after: map<Pair, bool>, b: Bundle, ids: Ids)
    requires Consistent(db) && AllHaveIds(b.rapis, ids)
    requires forall r :: r in b.rapis ==> RapiIdOf(ids, r.platformBaseURL, r.model) in db.rapis.rows
    requires Bound(db.bindings, after, b.rapis, b.bindings, ids, db.credentials)
    ensures Consistent(db.(bindings := after))
  {
    forall k | k in after ensures k.left in db.rapis.rows && k.right in db.credentials.rows {
      if !Others(k, b.rapis, ids) {
        var r :| r in b.rapis && RapiIdOf(ids, r.platformBaseURL, r.model) == k.left;
        assert k == Pair(RapiIdOf(ids, r.platformBaseURL, r.model), k.right);
        assert Serves(r, b.bindings, ids, db.credentials, k.right);
      }
    }
  }

  method StagePlatforms(db: Db, b: Bundle) returns (after: Db, platforms: map<string, int>)
    requires Consistent(db) && Valid(b)
    ensures Consistent(after) && PlatformStage(b, db, after, platforms)
  {
    after, platforms := ApplyPlatforms(db, b.platforms);
    PlatformsKnown(b, db.platforms, after, platforms);
  }

  method StageCredentials(db: Db, b: Bundle, platforms: map<string, int>, hash: string -> string)
    returns (after: Db, credentials: map<string, int>)
    requires Consistent(db) && Valid(b) && TokensMatch(b, hash)
    requires platforms.Keys == KeysOf(b.platforms, PlatformKey) && Known(platforms, db)
    ensures Consistent(after) && CredentialStage(b, hash, db, after, platforms, credentials) && Known(platforms, after)
  {
    after, credentials := ApplyCredentials(db, b.credentials, platforms, hash);
  }

  method StageRapis(db: Db, b: Bundle, platforms: map<string, int>) returns (after: Db, rapis: map<RapiId, int>)
    requires Consistent(db) && Valid(b)
    requires platforms.Keys == KeysOf(b.platforms, PlatformKey) && Known(platforms, db)
    ensures Consistent(after) && RapiStage(b, db, after, platforms, rapis) && Known(platforms, after)
  {
    after, rapis := ApplyRapis(db, b.rapis, platforms);
    RapisKnown(b, db.rapis, after, platforms, rapis);
  }

  method StageBindings(db: Db, b: Bundle, ghost before: Db, ids: Ids) returns (after: Db)
    requires Consistent(db) && Valid(b) && RapiStage(b, before, db, ids.platforms, ids.rapis)
      && Known(ids.platforms, db)
    ensures Consistent(after) && BindStage(b, db, after, ids)
  {
    RapisGetIds(b, before, db, ids);
    var bindings := SyncAllBindings(db.bindings, b.rapis, b.bindings, ids, db.credentials);
    BoundLinked(db, bindings, b, ids);
    after := db.(bindings := bindings);
  }

  method StageLapis(db: Db, b: Bundle) returns (after: Db, lapis: map<string, int>)
    requires Consistent(db) && Valid(b)
    ensures Consistent(after) && LapiStage(b, db, after, lapis)
  {
    after, lapis := ApplyLapis(db, b.lapis);
    LapisKnown(b, db.lapis, after.lapis, lapis);
  }

  method Stage(db: Db, b: Bundle, hash: string -> string)
    returns (last: Db, ids: Ids, lapis: map<string, int>, ghost st: Stages)
    requires Consistent(db) && Valid(b) && TokensMatch(b, hash)
    ensures Staged(b, hash, db, st, ids, lapis) && st.lapis == last && IdsDiffer(ids)
  {
    var db1, platforms := StagePlatforms(db, b);
    var db2, credentials := StageCredentials(db1, b, platforms, hash);
    var db3, rapis := StageRapis(db2, b, platforms);
    ids := Ids(platforms, credentials, rapis);
    RapisGetIds(b, db2, db3, ids);
    var db4 := StageBindings(db3, b, db2, ids);
    last, lapis := StageLapis(db4, b);
    st := Stages(db1, db2, db3, db4, last);
  }

  // ---------- One stage at a time ----------

  lemma PlatformStageIs(b: Bundle, before: Db, after: Db, platforms: map<string, int>)
    requires PlatformStage(b, before, after, platforms)
    ensures after.rapis == RapisOf(before.rapis, after.platforms.rows.Keys) && after.lapis == before.lapis
    ensures after.metrics == Restrict(before.metrics, after.rapis.rows.Keys, before.lapis.rows.Keys)
    ensures Mirrors(before.platforms, after.platforms, PlatformRowKey, Items(b.platforms, PlatformItem), platforms)
    ensures platforms.Keys == KeysOf(b.platforms, PlatformKey)
  {
  }

  lemma CredentialStageIs(b: Bundle, hash: string -> string, before: Db, after: Db, platforms: map<string, int>,
      credentials: map<string, int>)
    requires CredentialStage(b, hash, before, after, platforms, credentials) && Linked(before)
    ensures after.platforms == before.platforms && after.rapis == before.rapis && after.lapis == before.lapis
    ensures after.metrics == before.metrics
  {
    CascadeOfLinked(before);
    assert Restrict(before.metrics, before.rapis.rows.Keys, before.lapis.rows.Keys) == before.metrics;
  }

  lemma RapiStageIs(b: Bundle, before: Db, after: Db, platforms: map<string, int>, rapis: map<RapiId, int>)
    requires RapiStage(b, before, after, platforms, rapis) && Linked(before)
    ensures after.platforms == before.platforms && after.credentials == before.credentials
      && after.lapis == before.lapis
    ensures after.metrics == Restrict(before.metrics, after.rapis.rows.Keys, before.lapis.rows.Keys)
    ensures Mirrors(before.rapis, after.rapis, RapiRowKey, RapiItems(b.rapis, platforms), rapis)
  {
    CascadeOfLinked(before);
  }

  lemma LapiStageIs(b: Bundle, before: Db, after: Db, lapis: map<string, int>)
    requires LapiStage(b, before, after, lapis) && Linked(before)
    ensures after.platforms == before.platforms && after.credentials == before.credentials
      && after.rapis == before.rapis
    ensures after.bindings == before.bindings
    ensures after.metrics == Restrict(before.metrics, before.rapis.rows.Keys, after.lapis.rows.Keys)
    ensures Mirrors(before.lapis, after.lapis, LapiRowKey, Items(b.lapis, LapiItem), lapis)
    ensures lapis.Keys == KeysOf(b.lapis, LapiKey)
  {
    CascadeOfLinked(before);
  }

  // ---------- The commit ----------

  lemma ResetSane(db: Db)
    requires Consistent(db)
    ensures Sane(PlatformsReset(db.platforms), PlatformRowKey)
      && Sane(CredentialsReset(db.credentials), CredentialRowKey)
    ensures Sane(RapisReset(db.rapis), RapiRowKey)
  {
    forall i, j | i in db.platforms.rows && j in db.platforms.rows && i != j
        && PlatformRowKey(PlatformsReset(db.platforms).rows[i]).Some?
      ensures PlatformRowKey(PlatformsReset(db.platforms).rows[i]) !=
        PlatformRowKey(PlatformsReset(db.platforms).rows[j])
    {
      assert PlatformRowKey(db.platforms.rows[i]) != PlatformRowKey(db.platforms.rows[j]);
    }
    forall i, j | i in db.rapis.rows && j in db.rapis.rows && i != j && RapiRowKey(RapisReset(db.rapis).rows[i]).Some?
      ensures RapiRowKey(RapisReset(db.rapis).rows[i]) != RapiRowKey(RapisReset(db.rapis).rows[j])
    {
      assert RapiRowKey(db.rapis.rows[i]) != RapiRowKey(db.rapis.rows[j]);
    }
  }

  lemma OrdersWithin(b: Bundle, hash: string -> string, before: Db, st: Stages, ids: Ids, lapis: map<string, int>,
      orders: map<Pair, int>)
    requires Valid(b) && Staged(b, hash, before, st, ids, lapis) && RoutesRefer(b.routes, ids, lapis)
    requires OrdersAre(orders, b.routes, ids, lapis)
    ensures Within(orders, st.lapis.lapis.rows.Keys, st.lapis.rapis.rows.Keys)
  {
    RapiStageIs(b, st.credentials, st.rapis, ids.platforms, ids.rapis);
    LapiStageIs(b, st.bound, st.lapis, lapis);
    forall k | k in orders ensures k.left in st.lapis.lapis.rows && k.right in st.lapis.rapis.rows {
      var o :| o in b.routes && PlaceOf(o, ids, lapis) == k;
      assert k.left in lapis.Values && k.right in ids.rapis.Values;
    }
  }

  lemma CommitConsistent(db: Db, orders: map<Pair, int>, version: int)
    requires Consistent(db) && Within(orders, db.lapis.rows.Keys, db.rapis.rows.Keys)
    ensures Consistent(Committed(db, orders, version))
  {
    ResetSane(db);
    var after := Committed(db, orders, version);
    assert after.platforms.rows.Keys == db.platforms.rows.Keys && after.rapis.rows.Keys == db.rapis.rows.Keys;
    assert after.credentials.rows.Keys == db.credentials.rows.Keys;
  }

  class Database {
    var db: Db

    constructor (db: Db)
      ensures this.db == db
    {
      this.db := db;
    }

    /** Commits exactly when the snapshot is committable; otherwise nothing changes. */
    method ApplyBundle(b: Bundle, version: int, hash: string -> string, canEncrypt: bool)
      returns (ok: bool, ghost st: Stages, ghost ids: Ids, ghost lapis: map<string, int>)
      requires Consistent(db)
      modifies this
      ensures ok <==> Committable(b, hash, canEncrypt)
      ensures Consistent(db) && (!ok ==> db == old(db))
      ensures ok ==> Staged(b, hash, old(db), st, ids, lapis) && RoutesRefer(b.routes, ids, lapis)
      ensures ok ==> OrdersAre(db.orders, b.routes, ids, lapis) && db == Committed(st.lapis, db.orders, version)
      ensures ok ==> db.current == version && db.lastGood == version
    {
      hide Committable;
      CommittableIs(b, hash, canEncrypt);
      st, ids, lapis := *, *, *;
      ok := Validate(b);
      if !ok {
        return;
      }
      if |b.platforms| == 0 || !TokensReadable(b, canEncrypt) || !TokensMatch(b, hash) {
        ok := false;
        return;
      }
      var last, allIds, lapiIds;
      last, allIds, lapiIds, st := Stage(db, b, hash);
      ids, lapis := allIds, lapiIds;
      RoutesKnown(b, hash, db, st, ids, lapis);
      var orders;
      ok, orders := ApplyOrders(b.routes, allIds, lapiIds);
      if !ok {
        return;
      }
      OrdersWithin(b, hash, db, st, ids, lapis, orders);
      CommitConsistent(last, orders, version);
      db := Committed(last, orders, version);
    }
  }

  lemma RoutesKnown(b: Bundle, hash: string -> string, before: Db, st: Stages, ids: Ids, lapis: map<string, int>)
    requires Valid(b) && Staged(b, hash, before, st, ids, lapis)
    ensures RoutesRefer(b.routes, ids, lapis)
  {
    forall o | o in b.routes ensures o.lapiAlias in lapis && HasRapi(ids, o.platformBaseURL, o.model) {
      var r :| r in b.rapis && RapiKey(r) == RouteEndpoint(o);
      assert r.platformBaseURL in ids.platforms;
    }
  }
}
