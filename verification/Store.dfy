/** The definition tables of a node, with their references and cascades. */
module Store {
  import opened Folds
  import opened Bundle
  import opened Upserts

  /** Rows hold the synchronised columns of their entity beside their own ones. */
  datatype PlatformRow = PlatformRow(p: Platform, available: bool)

  /** A credential without a token has no hash. */
  datatype CredentialRow = CredentialRow(platformID: int, tokenHash: Option<string>, c: Credential, failureType: int)

  datatype RapiRow = RapiRow(platformID: int, r: RAPI, available: bool)

  datatype Pair = Pair(left: int, right: int)

  datatype Metrics = Metrics(
    total: int, success: int, fail401: int, fail429: int, fail500: int, failOther: int, latency: int, tokens: int,
    lastUsed: Option<int>)

  /** Bindings are endpoint and credential pairs, metrics endpoint and name pairs, orders name and endpoint pairs. */
  datatype Db = Db(
    platforms: Table<PlatformRow>, credentials: Table<CredentialRow>, rapis: Table<RapiRow>, lapis: Table<LAPI>,
    bindings: map<Pair, bool>, metrics: map<Pair, Metrics>, orders: map<Pair, int>, current: int, lastGood: int)

  function PlatformRowKey(r: PlatformRow): Option<string> {
    if r.p.baseURL == "" then None else Some(r.p.baseURL)
  }

  function CredentialRowKey(r: CredentialRow): Option<string> { r.tokenHash }

  datatype RapiId = RapiId(platformID: int, model: string)

  function RapiRowKey(r: RapiRow): Option<RapiId> {
    if r.r.model == "" then None else Some(RapiId(r.platformID, r.r.model))
  }

  function LapiRowKey(l: LAPI): Option<string> { Some(l.alias) }

  // ---------- References ----------

  ghost predicate Within<V>(m: map<Pair, V>, left: set<int>, right: set<int>) {
    forall k :: k in m ==> k.left in left && k.right in right
  }

  ghost predicate Linked(db: Db) {
    && (forall id :: id in db.credentials.rows ==> db.credentials.rows[id].platformID in db.platforms.rows)
    && (forall id :: id in db.rapis.rows ==> db.rapis.rows[id].platformID in db.platforms.rows)
    && Within(db.bindings, db.rapis.rows.Keys, db.credentials.rows.Keys)
    && Within(db.metrics, db.rapis.rows.Keys, db.lapis.rows.Keys)
    && Within(db.orders, db.lapis.rows.Keys, db.rapis.rows.Keys)
  }

  ghost predicate Consistent(db: Db) {
    && Sane(db.platforms, PlatformRowKey) && Sane(db.credentials, CredentialRowKey)
    && Sane(db.rapis, RapiRowKey) && Sane(db.lapis, LapiRowKey)
    && Linked(db)
  }

  // ---------- Cascades ----------

  function Restrict<V>(m: map<Pair, V>, left: set<int>, right: set<int>): map<Pair, V> {
    map k | k in m && k.left in left && k.right in right :: m[k]
  }

  function CredentialsOf(t: Table<CredentialRow>, platforms: set<int>): Table<CredentialRow> {
    Table(map id | id in t.rows && t.rows[id].platformID in platforms :: t.rows[id], t.next)
  }

  function RapisOf(t: Table<RapiRow>, platforms: set<int>): Table<RapiRow> {
    Table(map id | id in t.rows && t.rows[id].platformID in platforms :: t.rows[id], t.next)
  }

  /** Deletes the rows whose references are gone. */
  function Cascade(db: Db): Db {
    var creds := CredentialsOf(db.credentials, db.platforms.rows.Keys);
    var rapis := RapisOf(db.rapis, db.platforms.rows.Keys);
    db.(
      credentials := creds, rapis := rapis,
      bindings := Restrict(db.bindings, rapis.rows.Keys, creds.rows.Keys),
      metrics := Restrict(db.metrics, rapis.rows.Keys, db.lapis.rows.Keys),
      orders := Restrict(db.orders, db.lapis.rows.Keys, rapis.rows.Keys))
  }

  lemma CascadeLinks(db: Db)
    requires Sane(db.platforms, PlatformRowKey) && Sane(db.credentials, CredentialRowKey)
    requires Sane(db.rapis, RapiRowKey) && Sane(db.lapis, LapiRowKey)
    ensures Consistent(Cascade(db))
  {
  }

  /** `after` holds the entries of `before` that satisfy `ok`, unchanged, and no others. */
  ghost predicate KeepsWhere<K(!new), V>(before: map<K, V>, after: map<K, V>, ok: K -> bool) {
    forall k :: (k in after <==> k in before && ok(k)) && (k in after ==> after[k] == before[k])
  }

  /** Nothing else goes: a row stays exactly when its platform does, and a pair when both its rows do. */
  lemma CascadeKeeps(db: Db)
    ensures
      var c := Cascade(db);
      && c.platforms == db.platforms && c.lapis == db.lapis && c.current == db.current && c.lastGood == db.lastGood
      && KeepsWhere(db.credentials.rows, c.credentials.rows,
           id => id in db.credentials.rows && db.credentials.rows[id].platformID in db.platforms.rows)
      && KeepsWhere(db.rapis.rows, c.rapis.rows,
           id => id in db.rapis.rows && db.rapis.rows[id].platformID in db.platforms.rows)
      && KeepsWhere(db.bindings, c.bindings,
           (k: Pair) => k.left in c.rapis.rows && k.right in c.credentials.rows)
      && KeepsWhere(db.metrics, c.metrics, (k: Pair) => k.left in c.rapis.rows && k.right in db.lapis.rows)
      && KeepsWhere(db.orders, c.orders, (k: Pair) => k.left in db.lapis.rows && k.right in c.rapis.rows)
  {
    assert Cascade(db).bindings.Keys <= db.bindings.Keys;
  }

  /** Rows that lack an address or a model are not told apart: there may be any number of them. */
  lemma UnkeyedRowsRepeat(platforms: Table<PlatformRow>, rapis: Table<RapiRow>, p: PlatformRow, r: RapiRow)
    requires Sane(platforms, PlatformRowKey) && Sane(rapis, RapiRowKey)
    requires p.p.baseURL == "" && r.r.model == ""
    ensures Sane(Table(platforms.rows[platforms.next := p], platforms.next + 1), PlatformRowKey)
    ensures Sane(Table(rapis.rows[rapis.next := r], rapis.next + 1), RapiRowKey)
  {
    assert platforms.next !in platforms.rows && rapis.next !in rapis.rows;
  }
}
