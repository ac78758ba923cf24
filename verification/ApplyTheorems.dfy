/** What a committed snapshot keeps: identities, statistics and bindings. */
module ApplyTheorems {
  import opened Folds
  import opened Bundle
  import opened Tables
  import opened Names
  import opened BundleMerge
  import opened Upserts
  import opened Store
  import opened ApplyBundle
  import opened ApplyTransaction

  /** A committed transaction. */
  ghost predicate Commits(b: Bundle, hash: string -> string, before: Db, st: Stages, ids: Ids, lapis: map<string, int>,
      after: Db, version: int)
  {
    && Valid(b) && Consistent(before) && Staged(b, hash, before, st, ids, lapis)
    && after == Committed(st.lapis, after.orders, version)
  }

  // ---------- Tables ----------

  lemma MirroredPlatform(rows: seq<Platform>, before: Table<PlatformRow>, after: Table<PlatformRow>,
      ids: map<string, int>, p: Platform)
    requires p in rows && ids.Keys == KeysOf(rows, PlatformKey)
    requires Mirrors(before, after, PlatformRowKey, Items(rows, PlatformItem), ids)
    ensures p.baseURL in ids && ids[p.baseURL] in after.rows && after.rows[ids[p.baseURL]].p == p
  {
    ItemsAre(rows, PlatformItem);
    assert PlatformKey(p) in KeysOf(rows, PlatformKey);
    assert PlatformItem(p) in Items(rows, PlatformItem);
  }

  lemma MirroredPlatforms(rows: seq<Platform>, before: Table<PlatformRow>, after: Table<PlatformRow>,
      ids: map<string, int>)
    requires AllGood(rows, GoodPlatform) && ids.Keys == KeysOf(rows, PlatformKey)
    requires Mirrors(before, after, PlatformRowKey, Items(rows, PlatformItem), ids)
    ensures PlatformsDone(rows, before, PlatformsReset(after), ids)
  {
    forall p | p in rows
      ensures p.baseURL in ids && ids[p.baseURL] in after.rows && after.rows[ids[p.baseURL]].p == p
    {
      MirroredPlatform(rows, before, after, ids, p);
    }
    forall id | id in before.rows && before.rows[id].p.baseURL in ids ensures ids[before.rows[id].p.baseURL] == id {
      var u := before.rows[id].p.baseURL;
      var p :| p in rows && PlatformKey(p) == u;
      assert HasRow(before.rows, PlatformRowKey, u, id);
    }
  }

  lemma MirroredLapis(rows: seq<LAPI>, before: Table<LAPI>, after: Table<LAPI>, ids: map<string, int>)
    requires ids.Keys == KeysOf(rows, LapiKey) && Mirrors(before, after, LapiRowKey, Items(rows, LapiItem), ids)
    ensures LapisDone(rows, before, after, ids)
  {
    ItemsAre(rows, LapiItem);
    forall l | l in rows ensures l.alias in ids && ids[l.alias] in after.rows && after.rows[ids[l.alias]] == l {
      assert LapiKey(l) in KeysOf(rows, LapiKey);
      assert LapiItem(l) in Items(rows, LapiItem);
    }
    forall id | id in before.rows && before.rows[id].alias in ids ensures ids[before.rows[id].alias] == id {
      assert HasRow(before.rows, LapiRowKey, before.rows[id].alias, id);
    }
  }

  lemma MirroredRapi(b: Bundle, before: Table<RapiRow>, db: Db, ids: Ids, r: RAPI)
    requires RapisRefer(b.rapis, ids.platforms) && Known(ids.platforms, db) && UniqueKeys(b.rapis, RapiKey)
      && r in b.rapis
    requires Mirrors(before, db.rapis, RapiRowKey, RapiItems(b.rapis, ids.platforms), ids.rapis)
    ensures StoredRapi(RapisReset(db.rapis), ids, r)
  {
    RapiItemsGood(b.rapis, ids.platforms, db);
    var it := RapiItem(r, ids.platforms);
    assert it in RapiItems(b.rapis, ids.platforms);
    assert ItemKey(it) in KeysOf(RapiItems(b.rapis, ids.platforms), ItemKey);
  }

  lemma MirroredRapis(b: Bundle, before: Table<RapiRow>, db: Db, ids: Ids)
    requires RapisRefer(b.rapis, ids.platforms) && Known(ids.platforms, db) && UniqueKeys(b.rapis, RapiKey)
    requires Mirrors(before, db.rapis, RapiRowKey, RapiItems(b.rapis, ids.platforms), ids.rapis)
    ensures RapisDone(b.rapis, RapisReset(db.rapis), ids)
  {
    RapisKnown(b, before, db, ids.platforms, ids.rapis);
    forall r | r in b.rapis ensures StoredRapi(RapisReset(db.rapis), ids, r) {
      MirroredRapi(b, before, db, ids, r);
    }
    SameKeys(db.rapis);
  }

  /** Its platform keeps its id, so an endpoint is found under its old key. */
  lemma OneRapiKeepsId(rows: seq<RAPI>, before: Table<RapiRow>, plats: set<int>, after: Table<RapiRow>, ids: Ids,
      base: string, id: int)
    requires RapisRefer(rows, ids.platforms) && id in before.rows
    requires Mirrors(RapisOf(before, plats), after, RapiRowKey, RapiItems(rows, ids.platforms), ids.rapis)
    requires base in ids.platforms ==>
      ids.platforms[base] == before.rows[id].platformID && before.rows[id].platformID in plats
    ensures RapiKeepsId(base, before.rows[id].r.model, ids, id)
  {
    var m := before.rows[id].r.model;
    if base != "" && m != "" && HasRapi(ids, base, m) {
      assert HasRow(RapisOf(before, plats).rows, RapiRowKey, RapiId(ids.platforms[base], m), id);
    }
  }

  // ---------- The whole transaction ----------

  /** The platforms and the public names are exactly the listed ones, and what was there keeps its id. */
  lemma NamesAndPlatformsKept(b: Bundle, hash: string -> string, before: Db, st: Stages, ids: Ids,
      lapis: map<string, int>, after: Db, version: int)
    requires Commits(b, hash, before, st, ids, lapis, after, version)
    ensures PlatformsDone(b.platforms, before.platforms, after.platforms, ids.platforms)
    ensures LapisDone(b.lapis, before.lapis, after.lapis, lapis)
  {
    PlatformStageIs(b, before, st.platforms, ids.platforms);
    CredentialStageIs(b, hash, st.platforms, st.credentials, ids.platforms, ids.credentials);
    RapiStageIs(b, st.credentials, st.rapis, ids.platforms, ids.rapis);
    LapiStageIs(b, st.bound, st.lapis, lapis);
    MirroredPlatforms(b.platforms, before.platforms, st.platforms.platforms, ids.platforms);
    MirroredLapis(b.lapis, before.lapis, st.lapis.lapis, lapis);
  }

  /** So are the endpoints, by address and model. */
  lemma RapisKept(b: Bundle, hash: string -> string, before: Db, st: Stages, ids: Ids, lapis: map<string, int>,
      after: Db, version: int)
    requires Commits(b, hash, before, st, ids, lapis, after, version)
    ensures RapisDone(b.rapis, after.rapis, ids) && RapisKeepIds(before.platforms, before.rapis, ids)
  {
    NamesAndPlatformsKept(b, hash, before, st, ids, lapis, after, version);
    RapiChain(b, hash, before, st, ids, lapis);
    MirroredRapis(b, st.credentials.rapis, st.rapis, ids);
    forall id | id in before.rapis.rows && before.rapis.rows[id].platformID in before.platforms.rows
      ensures RapiKeepsId(before.platforms.rows[before.rapis.rows[id].platformID].p.baseURL,
        before.rapis.rows[id].r.model, ids, id)
    {
      var base := before.platforms.rows[before.rapis.rows[id].platformID].p.baseURL;
      assert base in ids.platforms ==> ids.platforms[base] in ids.platforms.Values;
      OneRapiKeepsId(b.rapis, before.rapis, st.platforms.platforms.rows.Keys, st.rapis.rapis, ids, base, id);
    }
  }

  /** Where the endpoint table of each stage comes from. */
  lemma RapiChain(b: Bundle, hash: string -> string, before: Db, st: Stages, ids: Ids, lapis: map<string, int>)
    requires Valid(b) && Staged(b, hash, before, st, ids, lapis)
    ensures st.credentials.rapis == RapisOf(before.rapis, st.platforms.platforms.rows.Keys)
    ensures RapisRefer(b.rapis, ids.platforms) && Known(ids.platforms, st.rapis)
    ensures Mirrors(st.credentials.rapis, st.rapis.rapis, RapiRowKey, RapiItems(b.rapis, ids.platforms), ids.rapis)
    ensures st.lapis.rapis == st.rapis.rapis
    ensures ids.platforms.Values == st.platforms.platforms.rows.Keys
  {
    PlatformStageIs(b, before, st.platforms, ids.platforms);
    CredentialStageIs(b, hash, st.platforms, st.credentials, ids.platforms, ids.credentials);
    RapiStageIs(b, st.credentials, st.rapis, ids.platforms, ids.rapis);
    LapiStageIs(b, st.bound, st.lapis, lapis);
  }

  /** Deletions one after another keep what survives all of them. */
  lemma RestrictChain<V>(m: map<Pair, V>, k1: set<int>, k3: set<int>, l0: set<int>, l5: set<int>)
    requires forall p :: p in m ==> p.right in l0 && (p.left in k3 ==> p.left in k1)
    ensures Restrict(Restrict(Restrict(m, k1, l0), k3, l0), k3, l5) == Restrict(m, k3, l5)
  {
  }

  /** An old endpoint that is there in the end was never deleted. */
  lemma NeverReused(before: Table<RapiRow>, mid: Table<RapiRow>, after: Table<RapiRow>,
      items: seq<Item<RapiId, RapiRow>>, ids: map<RapiId, int>)
    requires Sane(before, RapiRowKey) && mid.next == before.next && Mirrors(mid, after, RapiRowKey, items, ids)
    ensures forall id :: id in before.rows && id in after.rows ==> id in mid.rows
  {
    forall id | id in before.rows && id in after.rows ensures id in mid.rows {
      var k :| k in ids && ids[k] == id;
    }
  }

  lemma MetricsOfStages(m: map<Pair, Metrics>, k0: set<int>, k1: set<int>, k3: set<int>, l0: set<int>, l5: set<int>)
    requires Within(m, k0, l0) && forall id :: id in k0 && id in k3 ==> id in k1
    ensures Restrict(Restrict(Restrict(m, k1, l0), k3, l0), k3, l5) == Restrict(m, k3, l5)
  {
    RestrictChain(m, k1, k3, l0, l5);
  }

  lemma SameKeys(t: Table<RapiRow>)
    ensures RapisReset(t).rows.Keys == t.rows.Keys
  {
  }

  /** The statistics of an endpoint and a name survive, unchanged, exactly when both rows survive. */
  lemma MetricsKept(b: Bundle, hash: string -> string, before: Db, st: Stages, ids: Ids, lapis: map<string, int>,
      after: Db, version: int)
    requires Commits(b, hash, before, st, ids, lapis, after, version)
    ensures after.metrics == Restrict(before.metrics, after.rapis.rows.Keys, after.lapis.rows.Keys)
  {
    RapiChain(b, hash, before, st, ids, lapis);
    MetricChain(b, hash, before, st, ids, lapis);
    NeverReused(before.rapis, st.credentials.rapis, st.rapis.rapis, RapiItems(b.rapis, ids.platforms), ids.rapis);
    MetricsOfStages(before.metrics, before.rapis.rows.Keys, st.platforms.rapis.rows.Keys, st.rapis.rapis.rows.Keys,
                    before.lapis.rows.Keys, st.lapis.lapis.rows.Keys);
    SameKeys(st.rapis.rapis);
  }

  lemma MetricChain(b: Bundle, hash: string -> string, before: Db, st: Stages, ids: Ids, lapis: map<string, int>)
    requires Valid(b) && Staged(b, hash, before, st, ids, lapis)
    ensures st.credentials.rapis == st.platforms.rapis
    ensures st.lapis.metrics ==
      Restrict(Restrict(Restrict(before.metrics, st.platforms.rapis.rows.Keys, before.lapis.rows.Keys),
                        st.rapis.rapis.rows.Keys, before.lapis.rows.Keys),
               st.rapis.rapis.rows.Keys, st.lapis.lapis.rows.Keys)
  {
    PlatformStageIs(b, before, st.platforms, ids.platforms);
    CredentialStageIs(b, hash, st.platforms, st.credentials, ids.platforms, ids.credentials);
    RapiStageIs(b, st.credentials, st.rapis, ids.platforms, ids.rapis);
    LapiStageIs(b, st.bound, st.lapis, lapis);
  }

  /** The listed credential `k` is stored under id `c`. */
  ghost predicate StoredUnder(t: Table<CredentialRow>, ids: Ids, k: Credential, c: int) {
    && Trim(k.tokenHash) in ids.credentials && ids.credentials[Trim(k.tokenHash)] == c
    && c in t.rows && t.rows[c].c == k
    && k.platformBaseURL in ids.platforms && t.rows[c].platformID == ids.platforms[k.platformBaseURL]
  }

  ghost predicate Mentions(d: Binding, r: RAPI) {
    d.platformBaseURL == r.platformBaseURL && d.model == r.model
  }

  /** The credential with id `c` is on the endpoint's platform, and a binding of the snapshot names the endpoint
      with its hash, or no binding names the endpoint. */
  ghost predicate Served(b: Bundle, ids: Ids, t: Table<CredentialRow>, r: RAPI, c: int)
    requires r.platformBaseURL in ids.platforms
  {
    && c in t.rows && t.rows[c].platformID == ids.platforms[r.platformBaseURL]
    && ((exists d, k :: BindsTo(b, r, d, k) && StoredUnder(t, ids, k, c))
        || (forall d :: d in b.bindings ==> !Mentions(d, r)))
  }

  ghost predicate BindsTo(b: Bundle, r: RAPI, d: Binding, k: Credential) {
    d in b.bindings && k in b.credentials && Mentions(d, r) && Trim(d.tokenHash) == Trim(k.tokenHash)
  }

  /** After a commit an endpoint is bound exactly to the credentials that serve it: those on its platform that a
      binding names for it, or all of them if no binding names the endpoint. A pair that was bound before
      keeps its flag, a new one is enabled. */
  lemma BindingsApplied(b: Bundle, hash: string -> string, before: Db, st: Stages, ids: Ids, lapis: map<string, int>,
      after: Db, version: int, r: RAPI, c: int)
    requires Commits(b, hash, before, st, ids, lapis, after, version) && r in b.rapis
    ensures HasRapi(ids, r.platformBaseURL, r.model)
    ensures
      var pair := Pair(RapiIdOf(ids, r.platformBaseURL, r.model), c);
      && (pair in after.bindings <==> Served(b, ids, after.credentials, r, c))
      && (pair in after.bindings ==>
            after.bindings[pair] == if pair in before.bindings then before.bindings[pair] else true)
  {
    BoundAtEnd(b, hash, before, st, ids, lapis, r, c);
    var pair := Pair(RapiIdOf(ids, r.platformBaseURL, r.model), c);
    assert pair in after.bindings <==> Served(b, ids, after.credentials, r, c);
    if pair in after.bindings {
      FlagKept(b, hash, before, st, ids, lapis, pair);
    }
  }

  lemma BoundAtEnd(b: Bundle, hash: string -> string, before: Db, st: Stages, ids: Ids, lapis: map<string, int>,
      r: RAPI, c: int)
    requires Valid(b) && Staged(b, hash, before, st, ids, lapis) && r in b.rapis
    ensures HasRapi(ids, r.platformBaseURL, r.model)
    ensures Pair(RapiIdOf(ids, r.platformBaseURL, r.model), c) in st.lapis.bindings <==>
      Served(b, ids, CredentialsReset(st.lapis.credentials), r, c)
  {
    BoundStage(b, hash, before, st, ids, lapis, r, c);
    AllListedStored(b, hash, before, st, ids, lapis);
    ServesStored(b, ids, st.lapis.credentials, CredentialsReset(st.lapis.credentials), r, c);
  }

  lemma BoundStage(b: Bundle, hash: string -> string, before: Db, st: Stages, ids: Ids, lapis: map<string, int>,
      r: RAPI, c: int)
    requires Valid(b) && Staged(b, hash, before, st, ids, lapis) && r in b.rapis
    ensures HasRapi(ids, r.platformBaseURL, r.model)
    ensures Pair(RapiIdOf(ids, r.platformBaseURL, r.model), c) in st.lapis.bindings <==>
      Serves(r, b.bindings, ids, st.lapis.credentials, c)
  {
    LapiStageIs(b, st.bound, st.lapis, lapis);
    BoundNow(b, st.rapis, st.bound, ids, r, c);
  }

  lemma BoundNow(b: Bundle, before: Db, after: Db, ids: Ids, r: RAPI, c: int)
    requires BindStage(b, before, after, ids) && r in b.rapis
    ensures HasRapi(ids, r.platformBaseURL, r.model) && after.credentials == before.credentials
    ensures Pair(RapiIdOf(ids, r.platformBaseURL, r.model), c) in after.bindings <==>
      Serves(r, b.bindings, ids, before.credentials, c)
  {
  }

  ghost predicate AllStoredUnder(rows: seq<Credential>, t: Table<CredentialRow>, ids: Ids) {
    && ids.credentials.Keys == KeysOf(rows, CredKey)
    && forall k :: k in rows ==>
      Trim(k.tokenHash) in ids.credentials && StoredUnder(t, ids, k, ids.credentials[Trim(k.tokenHash)])
  }

  lemma RunStores(rows: seq<Credential>, hash: string -> string, before: Table<CredentialRow>, plats: set<int>,
      after: Table<CredentialRow>, ids: Ids)
    requires CredentialRun(rows, hash, before, plats, after, ids.platforms, ids.credentials)
    ensures AllStoredUnder(rows, after, ids)
  {
    CredentialKeys(rows, hash, ids.platforms);
    CredentialItemsGood(rows, ids.platforms, hash);
    forall k | k in rows
      ensures Trim(k.tokenHash) in ids.credentials && StoredUnder(after, ids, k, ids.credentials[Trim(k.tokenHash)])
    {
      assert CredKey(k) in KeysOf(rows, CredKey);
      assert CredentialItem(k, ids.platforms, hash) in CredentialItems(rows, ids.platforms, hash);
    }
  }

  lemma ResetStores(rows: seq<Credential>, t: Table<CredentialRow>, ids: Ids)
    requires AllStoredUnder(rows, t, ids)
    ensures AllStoredUnder(rows, CredentialsReset(t), ids)
  {
  }

  /** Every listed credential is stored, as it is listed. */
  lemma AllListedStored(b: Bundle, hash: string -> string, before: Db, st: Stages, ids: Ids, lapis: map<string, int>)
    requires Valid(b) && Staged(b, hash, before, st, ids, lapis)
    ensures AllStoredUnder(b.credentials, CredentialsReset(st.lapis.credentials), ids)
  {
    CredentialChain(b, hash, before, st, ids, lapis);
    RunStores(b.credentials, hash, before.credentials, st.lapis.platforms.rows.Keys, st.lapis.credentials, ids);
    ResetStores(b.credentials, st.lapis.credentials, ids);
  }

  lemma ServesStored(b: Bundle, ids: Ids, t0: Table<CredentialRow>, t: Table<CredentialRow>, r: RAPI, c: int)
    requires r.platformBaseURL in ids.platforms && t == CredentialsReset(t0) && AllStoredUnder(b.credentials, t, ids)
    ensures Serves(r, b.bindings, ids, t0, c) <==> Served(b, ids, t, r, c)
  {
    forall d | d in b.bindings && Mentions(d, r)
      ensures (Trim(d.tokenHash) in ids.credentials && ids.credentials[Trim(d.tokenHash)] == c) <==>
        exists k :: BindsTo(b, r, d, k) && StoredUnder(t, ids, k, c)
    {
      if Trim(d.tokenHash) in ids.credentials && ids.credentials[Trim(d.tokenHash)] == c {
        var k :| k in b.credentials && CredKey(k) == Trim(d.tokenHash);
        assert BindsTo(b, r, d, k);
      }
    }
  }

  /** A credential that is there in the end and was there before was never deleted. */
  lemma NeverReusedCredential(rows: seq<Credential>, hash: string -> string, before: Table<CredentialRow>,
      mid: Table<CredentialRow>, after: Table<CredentialRow>, platforms: map<string, int>, ids: map<string, int>)
    requires CredentialsRefer(rows, platforms) && Sane(before, CredentialRowKey) && mid.next == before.next
    requires CredentialsApplied(mid, after, CredentialItems(rows, platforms, hash), ids)
    ensures forall id :: id in before.rows && id in after.rows ==> id in mid.rows
  {
    forall id | id in before.rows && id in after.rows ensures id in mid.rows {
      if id !in Unhashed(mid.rows) {
        var k :| k in ids && ids[k] == id;
      }
    }
  }

  /** Where the bindings of each stage come from. */
  lemma BindingChain(b: Bundle, hash: string -> string, before: Db, st: Stages, ids: Ids, lapis: map<string, int>,
      k: Pair)
    requires Valid(b) && Staged(b, hash, before, st, ids, lapis)
    ensures k in st.rapis.bindings ==> k in before.bindings && st.rapis.bindings[k] == before.bindings[k]
    ensures
      (k in before.bindings && k.left in st.platforms.rapis.rows && k.right in st.platforms.credentials.rows
        && k.left in st.rapis.rapis.rows && k.right in st.rapis.credentials.rows) ==> k in st.rapis.bindings
  {
    RapiChain(b, hash, before, st, ids, lapis);
    RapiStageIs(b, st.credentials, st.rapis, ids.platforms, ids.rapis);
    CredentialStageIs(b, hash, st.platforms, st.credentials, ids.platforms, ids.credentials);
  }

  lemma FlagKept(b: Bundle, hash: string -> string, before: Db, st: Stages, ids: Ids, lapis: map<string, int>, k: Pair)
    requires Consistent(before) && Valid(b) && Staged(b, hash, before, st, ids, lapis) && k in st.lapis.bindings
    ensures st.lapis.bindings[k] == if k in before.bindings then before.bindings[k] else true
  {
    LapiStageIs(b, st.bound, st.lapis, lapis);
    RapiStageIs(b, st.credentials, st.rapis, ids.platforms, ids.rapis);
    BindingChain(b, hash, before, st, ids, lapis, k);
    if k in before.bindings {
      NeverUnbound(b, hash, before, st, ids, lapis, k);
    }
  }

  /** A pair that was bound before and is bound in the end was bound throughout. */
  lemma NeverUnbound(b: Bundle, hash: string -> string, before: Db, st: Stages, ids: Ids, lapis: map<string, int>,
      k: Pair)
    requires Consistent(before) && Valid(b) && Staged(b, hash, before, st, ids, lapis)
    requires k in before.bindings && k in st.lapis.bindings
    ensures k in st.rapis.bindings
  {
    BoundWithin(b, hash, before, st, ids, lapis, k);
    BoundBefore(before, k);
    RapiNeverDeleted(b, hash, before, st, ids, lapis, k.left);
    CredentialNeverDeleted(b, hash, before, st, ids, lapis, k.right);
    BindingChain(b, hash, before, st, ids, lapis, k);
  }

  lemma BoundBefore(db: Db, k: Pair)
    requires Consistent(db) && k in db.bindings
    ensures k.left in db.rapis.rows && k.right in db.credentials.rows
  {
  }

  lemma BoundWithin(b: Bundle, hash: string -> string, before: Db, st: Stages, ids: Ids, lapis: map<string, int>,
      k: Pair)
    requires Valid(b) && Staged(b, hash, before, st, ids, lapis) && k in st.lapis.bindings
    ensures k.left in st.rapis.rapis.rows && k.right in st.rapis.credentials.rows
  {
    LapiStageIs(b, st.bound, st.lapis, lapis);
  }

  lemma RapiNeverDeleted(b: Bundle, hash: string -> string, before: Db, st: Stages, ids: Ids, lapis: map<string, int>,
      id: int)
    requires Consistent(before) && Valid(b) && Staged(b, hash, before, st, ids, lapis)
    requires id in before.rapis.rows && id in st.rapis.rapis.rows
    ensures id in st.platforms.rapis.rows
  {
    RapiChain(b, hash, before, st, ids, lapis);
    CredentialStageIs(b, hash, st.platforms, st.credentials, ids.platforms, ids.credentials);
    NeverReused(before.rapis, st.credentials.rapis, st.rapis.rapis, RapiItems(b.rapis, ids.platforms), ids.rapis);
  }

  lemma CredentialNeverDeleted(b: Bundle, hash: string -> string, before: Db, st: Stages, ids: Ids,
      lapis: map<string, int>, id: int)
    requires Consistent(before) && Valid(b) && Staged(b, hash, before, st, ids, lapis)
    requires id in before.credentials.rows && id in st.rapis.credentials.rows
    ensures id in st.platforms.credentials.rows
  {
    RapiStageIs(b, st.credentials, st.rapis, ids.platforms, ids.rapis);
    NeverReusedCredential(b.credentials, hash, before.credentials, st.platforms.credentials, st.credentials.credentials,
                          ids.platforms, ids.credentials);
  }

  // ---------- Credentials ----------

  /** The credential table before and after, among the platforms that stay. */
  ghost predicate CredentialRun(rows: seq<Credential>, hash: string -> string, before: Table<CredentialRow>,
      plats: set<int>, after: Table<CredentialRow>, platforms: map<string, int>, ids: map<string, int>)
  {
    && CredentialsRefer(rows, platforms) && UniqueKeys(rows, CredKey)
    && CredentialsApplied(CredentialsOf(before, plats), after, CredentialItems(rows, platforms, hash), ids)
  }

  lemma CredentialChain(b: Bundle, hash: string -> string, before: Db, st: Stages, ids: Ids, lapis: map<string, int>)
    requires Valid(b) && Staged(b, hash, before, st, ids, lapis)
    ensures CredentialRun(b.credentials, hash, before.credentials, st.lapis.platforms.rows.Keys, st.lapis.credentials,
                          ids.platforms, ids.credentials)
  {
    PlatformStageIs(b, before, st.platforms, ids.platforms);
    CredentialStageIs(b, hash, st.platforms, st.credentials, ids.platforms, ids.credentials);
    RapiStageIs(b, st.credentials, st.rapis, ids.platforms, ids.rapis);
    LapiStageIs(b, st.bound, st.lapis, lapis);
    assert st.platforms.credentials == CredentialsOf(before.credentials, st.platforms.platforms.rows.Keys);
  }

  lemma ResetKeys(db: Db)
    ensures CredentialsReset(db.credentials).rows.Keys == db.credentials.rows.Keys
    ensures PlatformsReset(db.platforms).rows.Keys == db.platforms.rows.Keys
  {
  }

  ghost predicate CredentialKeepsId(h: Option<string>, ids: map<string, int>, id: int) {
    h.Some? && h.value in ids ==> ids[h.value] == id
  }

  /** The credentials are the listed ones and the old ones without a hash; a listed one whose platform
      stays keeps its id. */
  ghost predicate CredentialsDone(rows: seq<Credential>, before: Table<CredentialRow>, plats: set<int>, after: set<int>,
      ids: map<string, int>)
  {
    && ids.Keys == KeysOf(rows, CredKey) && Injective(ids)
    && after == ids.Values + Unhashed(CredentialsOf(before, plats).rows)
    && forall id :: id in before.rows && before.rows[id].platformID in plats ==>
      CredentialKeepsId(before.rows[id].tokenHash, ids, id)
  }

  lemma CredentialsKept(b: Bundle, hash: string -> string, before: Db, st: Stages, ids: Ids, lapis: map<string, int>,
      after: Db, version: int)
    requires Commits(b, hash, before, st, ids, lapis, after, version)
    ensures CredentialsDone(b.credentials, before.credentials, after.platforms.rows.Keys, after.credentials.rows.Keys,
                            ids.credentials)
    ensures forall k :: k in b.credentials ==>
      (Trim(k.tokenHash) in ids.credentials
      && StoredUnder(after.credentials, ids, k, ids.credentials[Trim(k.tokenHash)]))
    ensures forall id :: id in after.credentials.rows ==> after.credentials.rows[id].failureType == 0
  {
    AllListedStored(b, hash, before, st, ids, lapis);
    CredentialChain(b, hash, before, st, ids, lapis);
    ResetKeys(st.lapis);
    RunDone(b.credentials, hash, before.credentials, st.lapis.platforms.rows.Keys, st.lapis.credentials, ids.platforms,
            ids.credentials);
  }

  lemma RunDone(rows: seq<Credential>, hash: string -> string, before: Table<CredentialRow>, plats: set<int>,
      after: Table<CredentialRow>, platforms: map<string, int>, ids: map<string, int>)
    requires CredentialRun(rows, hash, before, plats, after, platforms, ids)
    ensures CredentialsDone(rows, before, plats, after.rows.Keys, ids)
  {
    CredentialKeys(rows, hash, platforms);
    forall id | id in before.rows && before.rows[id].platformID in plats
      ensures CredentialKeepsId(before.rows[id].tokenHash, ids, id)
    {
      var h := before.rows[id].tokenHash;
      assert h.Some? ==> HasRow(CredentialsOf(before, plats).rows, CredentialRowKey, h.value, id);
    }
  }

  lemma CredentialKeys(rows: seq<Credential>, hash: string -> string, platforms: map<string, int>)
    requires CredentialsRefer(rows, platforms) && UniqueKeys(rows, CredKey)
    ensures KeysOf(CredentialItems(rows, platforms, hash), ItemKey) == KeysOf(rows, CredKey)
  {
    CredentialItemsGood(rows, platforms, hash);
    var items := CredentialItems(rows, platforms, hash);
    forall k ensures k in KeysOf(items, ItemKey) <==> k in KeysOf(rows, CredKey) {
      if k in KeysOf(items, ItemKey) {
        var it :| it in items && ItemKey(it) == k;
        var c :| c in rows && it == CredentialItem(c, platforms, hash);
        assert CredKey(c) == k;
      }
      if k in KeysOf(rows, CredKey) {
        var c :| c in rows && CredKey(c) == k;
        assert ItemKey(CredentialItem(c, platforms, hash)) == k;
      }
    }
  }
}
