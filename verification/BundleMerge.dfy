/** Validation and merge of two definition snapshots. */
module BundleMerge {
  import opened Folds
  import opened Bundle
  import opened Tables
  import opened Names
  import opened RowMerge
  import opened Chains
  import opened LapiMerge

  function CredKey(c: Credential): string { Trim(c.tokenHash) }

  function BindKey(b: Binding): BindingKey { BindingKey(BindingEndpoint(b), Trim(b.tokenHash)) }

  // ---------- Validation ----------

  predicate GoodPlatform(p: Platform) { p.baseURL != "" }

  predicate GoodCredential(c: Credential, plats: set<string>) {
    Trim(c.tokenHash) != "" && c.platformBaseURL in plats
  }

  predicate GoodRapi(r: RAPI, plats: set<string>) {
    r.platformBaseURL in plats && Trim(r.model) != ""
  }

  predicate GoodBinding(b: Binding, eps: set<EndpointKey>, creds: set<string>) {
    BindingEndpoint(b) in eps && Trim(b.tokenHash) in creds
  }

  predicate GoodLapi(l: LAPI) { Trim(l.alias) != "" }

  predicate GoodRoute(o: Route, lapis: set<string>, eps: set<EndpointKey>) {
    o.lapiAlias in lapis && RouteEndpoint(o) in eps
  }

  ghost predicate AllGood<R>(rows: seq<R>, good: R -> bool) {
    forall r :: r in rows ==> good(r)
  }

  ghost predicate Valid(b: Bundle) {
    var plats := KeysOf(b.platforms, PlatformKey);
    var creds := KeysOf(b.credentials, CredKey);
    var eps := KeysOf(b.rapis, RapiKey);
    var lapis := KeysOf(b.lapis, LapiKey);
    && AllGood(b.platforms, GoodPlatform) && UniqueKeys(b.platforms, PlatformKey)
    && (forall c :: c in b.credentials ==> GoodCredential(c, plats)) && UniqueKeys(b.credentials, CredKey)
    && (forall r :: r in b.rapis ==> GoodRapi(r, plats)) && UniqueKeys(b.rapis, RapiKey)
    && (forall d :: d in b.bindings ==> GoodBinding(d, eps, creds)) && UniqueKeys(b.bindings, BindKey)
    && AllGood(b.lapis, GoodLapi) && UniqueKeys(b.lapis, LapiKey)
    && (forall o :: o in b.routes ==> GoodRoute(o, lapis, eps)) && UniqueKeys(b.routes, KeyOfRoute)
  }

  ghost predicate HasPlatformRow(b: Bundle, base: string) {
    exists p :: p in b.platforms && p.baseURL == base
  }

  ghost predicate HasEndpoint(b: Bundle, base: string, model: string) {
    exists r :: r in b.rapis && r.platformBaseURL == base && r.model == model
  }

  ghost predicate HasHash(b: Bundle, hash: string) {
    exists c :: c in b.credentials && Trim(c.tokenHash) == Trim(hash)
  }

  ghost predicate HasName(b: Bundle, a: string) {
    exists l :: l in b.lapis && l.alias == a
  }

  /** Every row of a valid snapshot has a key, and what it refers to is listed. */
  ghost predicate Resolves(b: Bundle) {
    && (forall p :: p in b.platforms ==> p.baseURL != "")
    && (forall c :: c in b.credentials ==> Trim(c.tokenHash) != "" && HasPlatformRow(b, c.platformBaseURL))
    && (forall r :: r in b.rapis ==> Trim(r.model) != "" && HasPlatformRow(b, r.platformBaseURL))
    && (forall d :: d in b.bindings ==> HasEndpoint(b, d.platformBaseURL, d.model) && HasHash(b, d.tokenHash))
    && (forall l :: l in b.lapis ==> Trim(l.alias) != "")
    && (forall o :: o in b.routes ==> HasName(b, o.lapiAlias) && HasEndpoint(b, o.platformBaseURL, o.model))
  }

  /** No two rows of a table have the same key; hashes count without surrounding blanks. */
  ghost predicate Distinguishes(b: Bundle) {
    && (forall i, j :: 0 <= i < j < |b.platforms| ==> b.platforms[i].baseURL != b.platforms[j].baseURL)
    && (forall i, j :: 0 <= i < j < |b.credentials| ==>
          Trim(b.credentials[i].tokenHash) != Trim(b.credentials[j].tokenHash))
    && (forall i, j :: 0 <= i < j < |b.rapis| ==>
          b.rapis[i].platformBaseURL != b.rapis[j].platformBaseURL || b.rapis[i].model != b.rapis[j].model)
    && (forall i, j :: 0 <= i < j < |b.bindings| ==>
          || b.bindings[i].platformBaseURL != b.bindings[j].platformBaseURL
          || b.bindings[i].model != b.bindings[j].model
          || Trim(b.bindings[i].tokenHash) != Trim(b.bindings[j].tokenHash))
    && (forall i, j :: 0 <= i < j < |b.lapis| ==> b.lapis[i].alias != b.lapis[j].alias)
    && (forall i, j :: 0 <= i < j < |b.routes| ==>
          || b.routes[i].lapiAlias != b.routes[j].lapiAlias || b.routes[i].model != b.routes[j].model
          || b.routes[i].platformBaseURL != b.routes[j].platformBaseURL)
  }

  lemma ValidResolves(b: Bundle)
    requires Valid(b)
    ensures Resolves(b)
  {
    forall r | r in b.rapis ensures HasPlatformRow(b, r.platformBaseURL) {
      assert GoodRapi(r, KeysOf(b.platforms, PlatformKey));
      var p :| p in b.platforms && PlatformKey(p) == r.platformBaseURL;
    }
    forall c | c in b.credentials ensures HasPlatformRow(b, c.platformBaseURL) {
      var p :| p in b.platforms && PlatformKey(p) == c.platformBaseURL;
    }
    forall d | d in b.bindings ensures HasEndpoint(b, d.platformBaseURL, d.model) && HasHash(b, d.tokenHash) {
      var r :| r in b.rapis && RapiKey(r) == BindingEndpoint(d);
      var c :| c in b.credentials && CredKey(c) == Trim(d.tokenHash);
    }
    forall o | o in b.routes ensures HasName(b, o.lapiAlias) && HasEndpoint(b, o.platformBaseURL, o.model) {
      var l :| l in b.lapis && LapiKey(l) == o.lapiAlias;
      var r :| r in b.rapis && RapiKey(r) == RouteEndpoint(o);
    }
  }

  lemma ResolvesGood(b: Bundle)
    requires Resolves(b)
    ensures forall c :: c in b.credentials ==> GoodCredential(c, KeysOf(b.platforms, PlatformKey))
    ensures forall r :: r in b.rapis ==> GoodRapi(r, KeysOf(b.platforms, PlatformKey))
    ensures forall d :: d in b.bindings ==> GoodBinding(d, KeysOf(b.rapis, RapiKey), KeysOf(b.credentials, CredKey))
    ensures forall o :: o in b.routes ==> GoodRoute(o, KeysOf(b.lapis, LapiKey), KeysOf(b.rapis, RapiKey))
  {
    forall base | HasPlatformRow(b, base) ensures base in KeysOf(b.platforms, PlatformKey) {
      var p :| p in b.platforms && p.baseURL == base;
      assert PlatformKey(p) in KeysOf(b.platforms, PlatformKey);
    }
    forall base, model | HasEndpoint(b, base, model) ensures EndpointKey(base, model) in KeysOf(b.rapis, RapiKey) {
      var r :| r in b.rapis && r.platformBaseURL == base && r.model == model;
      assert RapiKey(r) in KeysOf(b.rapis, RapiKey);
    }
    forall h | HasHash(b, h) ensures Trim(h) in KeysOf(b.credentials, CredKey) {
      var c :| c in b.credentials && Trim(c.tokenHash) == Trim(h);
      assert CredKey(c) in KeysOf(b.credentials, CredKey);
    }
    forall a | HasName(b, a) ensures a in KeysOf(b.lapis, LapiKey) {
      var l :| l in b.lapis && l.alias == a;
      assert LapiKey(l) in KeysOf(b.lapis, LapiKey);
    }
  }

  lemma UniqueDistinguishes(b: Bundle)
    ensures Distinguishes(b) <==>
      && UniqueKeys(b.platforms, PlatformKey) && UniqueKeys(b.credentials, CredKey) && UniqueKeys(b.rapis, RapiKey)
      && UniqueKeys(b.bindings, BindKey) && UniqueKeys(b.lapis, LapiKey) && UniqueKeys(b.routes, KeyOfRoute)
  {
  }

  /** A snapshot is valid if and only if every row has a key of its own and everything it refers to is listed. */
  lemma ValidIff(b: Bundle)
    ensures Valid(b) <==> Resolves(b) && Distinguishes(b)
  {
    UniqueDistinguishes(b);
    if Valid(b) {
      ValidResolves(b);
    }
    if Resolves(b) {
      ResolvesGood(b);
    }
  }

  /** One pass over a table: every row is good and no key repeats. */
  method CheckRows<K(==), R>(rows: seq<R>, key: R -> K, good: R -> bool) returns (ok: bool, seen: set<K>)
    ensures ok <==> AllGood(rows, good) && UniqueKeys(rows, key)
    ensures ok ==> seen == KeysOf(rows, key)
  {
    seen := {};
    var i := 0;
    while i < |rows|
      invariant 0 <= i <= |rows|
      invariant AllGood(rows[..i], good) && UniqueKeys(rows[..i], key)
      invariant seen == KeysOf(rows[..i], key)
    {
      var r := rows[i];
      assert r in rows;
      assert rows[..i + 1] == rows[..i] + [r];
      if !good(r) {
        return false, seen;
      }
      if key(r) in seen {
        ghost var q :| q in rows[..i] && key(q) == key(r);
        ghost var j :| 0 <= j < i && rows[j] == q;
        return false, seen;
      }
      forall j | 0 <= j < i ensures key(rows[j]) != key(r) {
        assert rows[j] in rows[..i];
      }
      seen := seen + {key(r)};
      i := i + 1;
    }
    assert rows[..i] == rows;
    ok := true;
  }

  method Validate(b: Bundle) returns (ok: bool)
    ensures ok <==> Valid(b)
  {
    var plats, creds, eps, lapis;
    ok, plats := CheckRows(b.platforms, PlatformKey, GoodPlatform);
    if !ok { return; }
    ok, creds := CheckRows(b.credentials, CredKey, c => GoodCredential(c, plats));
    if !ok { return; }
    ok, eps := CheckRows(b.rapis, RapiKey, r => GoodRapi(r, plats));
    if !ok { return; }
    var bindKeys, routeKeys;
    ok, bindKeys := CheckRows(b.bindings, BindKey, d => GoodBinding(d, eps, creds));
    if !ok { return; }
    ok, lapis := CheckRows(b.lapis, LapiKey, GoodLapi);
    if !ok { return; }
    ok, routeKeys := CheckRows(b.routes, KeyOfRoute, o => GoodRoute(o, lapis, eps));
  }

  // ---------- Merge ----------

  datatype Rule = CenterWins | LocalWins

  /** Rows that satisfy a condition, in order. */
  function Where<R>(rows: seq<R>, ok: R -> bool): seq<R> {
    if rows == [] then [] else
    Where(rows[..|rows| - 1], ok) + (if ok(rows[|rows| - 1]) then [rows[|rows| - 1]] else [])
  }

  /** The keys of the rows that do not satisfy it. */
  function Dangling<K, R>(rows: seq<R>, ok: R -> bool, key: R -> K): seq<K> {
    if rows == [] then [] else
    Dangling(rows[..|rows| - 1], ok, key) + (if ok(rows[|rows| - 1]) then [] else [key(rows[|rows| - 1])])
  }

  method Prune<K, R>(rows: seq<R>, ok: R -> bool, key: R -> K) returns (kept: seq<R>, dropped: seq<K>)
    ensures kept == Where(rows, ok) && dropped == Dangling(rows, ok, key)
  {
    kept, dropped := [], [];
    var i := 0;
    while i < |rows|
      invariant 0 <= i <= |rows|
      invariant kept == Where(rows[..i], ok) && dropped == Dangling(rows[..i], ok, key)
    {
      assert rows[..i + 1][..i] == rows[..i];
      if ok(rows[i]) {
        kept := kept + [rows[i]];
      } else {
        dropped := dropped + [key(rows[i])];
      }
      i := i + 1;
    }
    assert rows[..i] == rows;
  }

  ghost function MergedPlatforms(center: Bundle, local: Bundle, rule: Rule): seq<Platform> {
    MergedRows(center.platforms, local.platforms, PlatformKey, rule == CenterWins)
  }

  ghost function MergedCredentials(center: Bundle, local: Bundle, rule: Rule): seq<Credential> {
    MergedRows(center.credentials, local.credentials, CredKey, rule == CenterWins)
  }

  ghost function MergedRapis(center: Bundle, local: Bundle, rule: Rule): seq<RAPI> {
    var plats := KeysOf(MergedPlatforms(center, local, rule), PlatformKey);
    Where(MergedRows(center.rapis, local.rapis, RapiKey, rule == CenterWins), HasPlatform(plats))
  }

  ghost function MergedBindings(center: Bundle, local: Bundle, rule: Rule): seq<Binding> {
    var eps := KeysOf(MergedRapis(center, local, rule), RapiKey);
    var creds := KeysOf(MergedCredentials(center, local, rule), CredKey);
    Where(MergedRows(center.bindings, local.bindings, BindKey, rule == CenterWins), HasEnds(eps, creds))
  }

  function HasPlatform(plats: set<string>): RAPI -> bool { (r: RAPI) => r.platformBaseURL in plats }

  function HasEnds(eps: set<EndpointKey>, creds: set<string>): Binding -> bool {
    (b: Binding) => GoodBinding(b, eps, creds)
  }

  lemma {:induction false} WhereMembers<R>(rows: seq<R>, ok: R -> bool)
    ensures forall r :: r in Where(rows, ok) <==> r in rows && ok(r)
  {
    if rows != [] {
      WhereMembers(rows[..|rows| - 1], ok);
      assert rows == rows[..|rows| - 1] + [rows[|rows| - 1]];
    }
  }

  lemma {:induction false} DanglingMembers<K, R>(rows: seq<R>, ok: R -> bool, key: R -> K)
    ensures forall k :: k in Dangling(rows, ok, key) <==> exists r :: r in rows && !ok(r) && key(r) == k
  {
    if rows != [] {
      var init, last := rows[..|rows| - 1], rows[|rows| - 1];
      DanglingMembers(init, ok, key);
      assert rows == init + [last];
      assert forall r :: r in rows <==> r in init || r == last;
    }
  }

  /** Of any two bundles the merge drops exactly the endpoints whose platform, and the bindings whose endpoint or
      credential, is not in the result. */
  lemma DroppedIff(center: Bundle, local: Bundle, rule: Rule)
    ensures
      var all, m := MergedRows(center.rapis, local.rapis, RapiKey, rule == CenterWins), Merged(center, local, rule);
      forall r :: r in m.rapis <==> r in all && HasPlatformRow(m, r.platformBaseURL)
    ensures
      var all := MergedRows(center.bindings, local.bindings, BindKey, rule == CenterWins);
      var m := Merged(center, local, rule);
      forall b :: b in m.bindings <==>
        b in all && HasEndpoint(m, b.platformBaseURL, b.model) && HasHash(m, b.tokenHash)
  {
    var plats := KeysOf(MergedPlatforms(center, local, rule), PlatformKey);
    var eps := KeysOf(MergedRapis(center, local, rule), RapiKey);
    var creds := KeysOf(MergedCredentials(center, local, rule), CredKey);
    WhereMembers(MergedRows(center.rapis, local.rapis, RapiKey, rule == CenterWins), HasPlatform(plats));
    WhereMembers(MergedRows(center.bindings, local.bindings, BindKey, rule == CenterWins), HasEnds(eps, creds));
    Listed(Merged(center, local, rule));
  }

  /** The keys of the listed rows are those that something may refer to. */
  lemma Listed(m: Bundle)
    ensures forall base :: base in KeysOf(m.platforms, PlatformKey) <==> HasPlatformRow(m, base)
    ensures forall base, model ::
      EndpointKey(base, model) in KeysOf(m.rapis, RapiKey) <==> HasEndpoint(m, base, model)
    ensures forall h :: Trim(h) in KeysOf(m.credentials, CredKey) <==> HasHash(m, h)
  {
    forall base, model
      ensures EndpointKey(base, model) in KeysOf(m.rapis, RapiKey) <==> HasEndpoint(m, base, model)
    {
    }
  }

  ghost function LapiOutcome(center: Bundle, local: Bundle, rule: Rule): Outcome {
    MergedOutcome(center, local, KeysOf(MergedRapis(center, local, rule), RapiKey))
  }

  ghost function Merged(center: Bundle, local: Bundle, rule: Rule): Bundle {
    var o := LapiOutcome(center, local, rule);
    Bundle(
      MergedPlatforms(center, local, rule), MergedCredentials(center, local, rule), MergedRapis(center, local, rule),
      Rows(o.entries), RenumberedChains(Flatten(o.entries)), MergedBindings(center, local, rule))
  }

  /** What one table reports: the keys that only the local side has, and those under which rows differ. */
  datatype TableReport<K> = TableReport(localOnly: seq<K>, conflicts: seq<K>)

  datatype Report = Report(
    platforms: TableReport<string>, credentials: TableReport<string>, rapis: TableReport<EndpointKey>,
    bindings: TableReport<BindingKey>, localOnlyLapis: seq<string>, decisions: seq<Decision>,
    droppedRapis: seq<EndpointKey>, droppedBindings: seq<BindingKey>, droppedRoutes: seq<RouteKey>)

  datatype MergeResult = Merges(bundle: Bundle, report: Report) | Invalid(report: Report)

  ghost predicate ReportsTable<K, R>(t: TableReport<K>, center: seq<R>, local: seq<R>, key: R -> K, rule: Rule) {
    var first := rule == CenterWins;
    var own := PutAll([], center, key, first);
    && AppendedAfter(MergedRows(center, local, key, first), |own|, t.localOnly, key)
    && t.conflicts == Clashes([], center, key, first) + Clashes(own, local, key, first)
  }

  ghost predicate Reports(rep: Report, center: Bundle, local: Bundle, rule: Rule) {
    var first := rule == CenterWins;
    var plats, eps := KeysOf(MergedPlatforms(center, local, rule), PlatformKey),
      KeysOf(MergedRapis(center, local, rule), RapiKey);
    var creds, o := KeysOf(MergedCredentials(center, local, rule), CredKey), LapiOutcome(center, local, rule);
    && ReportsTable(rep.platforms, center.platforms, local.platforms, PlatformKey, rule)
    && ReportsTable(rep.credentials, center.credentials, local.credentials, CredKey, rule)
    && ReportsTable(rep.rapis, center.rapis, local.rapis, RapiKey, rule)
    && ReportsTable(rep.bindings, center.bindings, local.bindings, BindKey, rule)
    && rep.droppedRapis == Dangling(MergedRows(center.rapis, local.rapis, RapiKey, first), HasPlatform(plats), RapiKey)
    && rep.droppedBindings ==
         Dangling(MergedRows(center.bindings, local.bindings, BindKey, first), HasEnds(eps, creds), BindKey)
    && rep.localOnlyLapis == o.localOnly && rep.decisions == o.decisions && rep.droppedRoutes == o.dropped
  }

  /** The dropped keys that are reported are those of merged rows whose platform, endpoint or credential is not in
      the result. */
  lemma DroppedReported(rep: Report, center: Bundle, local: Bundle, rule: Rule)
    requires Reports(rep, center, local, rule)
    ensures
      var all, m := MergedRows(center.rapis, local.rapis, RapiKey, rule == CenterWins), Merged(center, local, rule);
      forall k :: k in rep.droppedRapis <==>
        exists r :: r in all && RapiKey(r) == k && !HasPlatformRow(m, r.platformBaseURL)
    ensures
      var all := MergedRows(center.bindings, local.bindings, BindKey, rule == CenterWins);
      var m := Merged(center, local, rule);
      forall k :: k in rep.droppedBindings <==>
        exists b :: b in all && BindKey(b) == k
          && !(HasEndpoint(m, b.platformBaseURL, b.model) && HasHash(m, b.tokenHash))
  {
    var plats := KeysOf(MergedPlatforms(center, local, rule), PlatformKey);
    var eps := KeysOf(MergedRapis(center, local, rule), RapiKey);
    var creds := KeysOf(MergedCredentials(center, local, rule), CredKey);
    DanglingMembers(MergedRows(center.rapis, local.rapis, RapiKey, rule == CenterWins), HasPlatform(plats), RapiKey);
    DanglingMembers(MergedRows(center.bindings, local.bindings, BindKey, rule == CenterWins), HasEnds(eps, creds),
                    BindKey);
    Listed(Merged(center, local, rule));
  }

  method CollectKeys<K(==), R>(rows: seq<R>, key: R -> K) returns (keys: set<K>)
    ensures keys == KeysOf(rows, key)
  {
    keys := {};
    var i := 0;
    while i < |rows|
      invariant 0 <= i <= |rows| && keys == KeysOf(rows[..i], key)
    {
      assert rows[..i + 1] == rows[..i] + [rows[i]];
      keys := keys + {key(rows[i])};
      i := i + 1;
    }
    assert rows[..i] == rows;
  }

  method Merge(center: Bundle, local: Bundle, rule: Rule) returns (r: MergeResult)
    ensures r.Merges? <==> Valid(Merged(center, local, rule))
    ensures r.Merges? ==> r.bundle == Merged(center, local, rule)
    ensures Reports(r.report, center, local, rule)
  {
    var centerFirst := rule != LocalWins;
    var platforms, p1, p2 := MergeRows(center.platforms, local.platforms, PlatformKey, centerFirst);
    var platOK := CollectKeys(platforms, PlatformKey);
    var credentials, c1, c2 := MergeRows(center.credentials, local.credentials, CredKey, centerFirst);
    var credOK := CollectKeys(credentials, CredKey);
    var pickedRapis, r1, r2 := MergeRows(center.rapis, local.rapis, RapiKey, centerFirst);
    var rapis, droppedRapis := Prune(pickedRapis, HasPlatform(platOK), RapiKey);
    var epOK := CollectKeys(rapis, RapiKey);
    var pickedBindings, b1, b2 := MergeRows(center.bindings, local.bindings, BindKey, centerFirst);
    var bindings, droppedBindings := Prune(pickedBindings, HasEnds(epOK, credOK), BindKey);
    var lapis, routes, droppedRoutes, localOnly, decisions := MergeLapisAndChains(center, local, epOK);
    var out := Bundle(platforms, credentials, rapis, lapis, routes, bindings);
    var report := Report(TableReport(p1, p2), TableReport(c1, c2), TableReport(r1, r2), TableReport(b1, b2),
                         localOnly, decisions, droppedRapis, droppedBindings, droppedRoutes);
    var ok := Validate(out);
    return if ok then Merges(out, report) else Invalid(report);
  }
}
