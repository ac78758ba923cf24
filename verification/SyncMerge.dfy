/** The union merge of the sync loop: both sides' rows, local rows winning. */
module SyncMerge {
  import opened Folds
  import opened Bundle
  import opened Tables

  // ---------- One table ----------

  ghost function RowMap<K, R>(rows: seq<R>, key: R -> K): map<K, R> {
    TableOf(rows, key, Self)
  }

  /** Local rows in their order, then the center's own rows in theirs. */
  ghost function UnionRows<K, R>(local: seq<R>, center: seq<R>, key: R -> K): seq<R> {
    local + Without(center, key, RowMap(local, key).Keys)
  }

  /** Center rows whose local counterpart differs. */
  ghost function Clashes<K, R>(local: map<K, R>, center: seq<R>, key: R -> K, same: (R, R) -> bool): seq<R> {
    if center == [] then [] else
    var c := center[|center| - 1];
    Clashes(local, center[..|center| - 1], key, same) +
      (if key(c) in local && !same(local[key(c)], c) then [c] else [])
  }

  /** Rows kept only because the edge has them. */
  ghost function LocalOnly<K, R>(local: seq<R>, center: seq<R>, key: R -> K): seq<R> {
    Without(local, key, KeysOf(center, key))
  }

  ghost predicate Adds<K, R>(local: seq<R>, center: seq<R>, key: R -> K, same: (R, R) -> bool) {
    LocalOnly(local, center, key) != [] || Clashes(RowMap(local, key), center, key, same) != []
  }

  /** Linear search for a key. */
  method HasKey<K(==), R>(rows: seq<R>, key: R -> K, k: K) returns (found: bool)
    ensures found <==> k in KeysOf(rows, key)
  {
    var i := 0;
    while i < |rows|
      invariant 0 <= i <= |rows|
      invariant forall j :: 0 <= j < i ==> key(rows[j]) != k
    {
      if key(rows[i]) == k {
        return true;
      }
      i := i + 1;
    }
    return false;
  }

  method KeepLocal<K(==), R>(local: seq<R>, center: seq<R>, key: R -> K)
    returns (merged: seq<R>, localRows: map<K, R>, kept: nat)
    ensures merged == local
    ensures localRows == RowMap(local, key)
    ensures kept == |LocalOnly(local, center, key)|
  {
    merged, localRows, kept := [], map[], 0;
    var i := 0;
    while i < |local|
      invariant 0 <= i <= |local|
      invariant merged == local[..i]
      invariant localRows == RowMap(local[..i], key)
      invariant kept == |LocalOnly(local[..i], center, key)|
    {
      assert local[..i + 1][..i] == local[..i];
      localRows := localRows[key(local[i]) := local[i]];
      merged := merged + [local[i]];
      var found := HasKey(center, key, key(local[i]));
      if !found {
        kept := kept + 1;
      }
      i := i + 1;
    }
    assert local[..i] == local;
  }

  method MergeTable<K(==), R>(local: seq<R>, center: seq<R>, key: R -> K, same: (R, R) -> bool)
    returns (merged: seq<R>, keptLocal: nat, fromCenter: nat, adds: bool)
    ensures merged == UnionRows(local, center, key)
    ensures adds <==> Adds(local, center, key, same)
    ensures fromCenter == |merged| - |local|
    ensures keptLocal == |LocalOnly(local, center, key)|
  {
    var localRows;
    merged, localRows, keptLocal := KeepLocal(local, center, key);
    fromCenter, adds := 0, keptLocal > 0;
    var j := 0;
    while j < |center|
      invariant 0 <= j <= |center|
      invariant merged == local + Without(center[..j], key, localRows.Keys)
      invariant fromCenter == |merged| - |local|
      invariant adds <==> keptLocal > 0 || Clashes(localRows, center[..j], key, same) != []
    {
      var c := center[j];
      assert center[..j + 1][..j] == center[..j];
      if key(c) in localRows {
        if !same(localRows[key(c)], c) {
          adds := true;
        }
      } else {
        merged := merged + [c];
        fromCenter := fromCenter + 1;
      }
      j := j + 1;
    }
    assert center[..j] == center;
  }

  // ---------- What the union is ----------

  lemma {:induction false} ClashesMembers<K, R>(local: map<K, R>, center: seq<R>, key: R -> K, same: (R, R) -> bool)
    ensures Clashes(local, center, key, same) == [] <==>
      forall c :: c in center && key(c) in local ==> same(local[key(c)], c)
  {
    if center != [] {
      ClashesMembers(local, center[..|center| - 1], key, same);
      Snoc(center);
    }
  }

  lemma UnionKeys<K, R>(local: seq<R>, center: seq<R>, key: R -> K)
    requires UniqueKeys(local, key) && UniqueKeys(center, key)
    ensures UniqueKeys(UnionRows(local, center, key), key)
    ensures forall r :: r in UnionRows(local, center, key) <==>
      r in local || (r in center && key(r) !in KeysOf(local, key))
  {
    TableOfRows(local, key, Self);
    var own := Without(center, key, RowMap(local, key).Keys);
    WithoutMembers(center, key, RowMap(local, key).Keys);
    WithoutUnique(center, key, RowMap(local, key).Keys);
    assert RowMap(local, key).Keys == KeysOf(local, key);
    UniqueAppend(local, own, key);
  }

  lemma UnionOverrides<K, R, V>(local: seq<R>, center: seq<R>, key: R -> K, view: R -> V)
    requires UniqueKeys(local, key) && UniqueKeys(center, key)
    ensures TableOf(UnionRows(local, center, key), key, view) == TableOf(center, key, view) + TableOf(local, key, view)
  {
    var merged := UnionRows(local, center, key);
    UnionKeys(local, center, key);
    TableOfRows(merged, key, view);
    TableOfRows(local, key, view);
    TableOfRows(center, key, view);
    var t, over := TableOf(merged, key, view), TableOf(center, key, view) + TableOf(local, key, view);
    forall k ensures k in t <==> k in over {
      if k in over && k !in TableOf(local, key, view) {
        var c :| c in center && key(c) == k;
        assert c in merged;
      }
      if k in KeysOf(local, key) {
        var l :| l in local && key(l) == k;
        assert l in merged;
      }
    }
    forall k | k in t ensures t[k] == over[k] {
      var r :| r in merged && key(r) == k;
    }
  }

  /** The union is the center's table overridden by the local one, and it adds to the
      center exactly when it is not the center's table. `view` is what `same` compares. */
  lemma UnionTable<K, R, V>(local: seq<R>, center: seq<R>, key: R -> K, view: R -> V, same: (R, R) -> bool)
    requires UniqueKeys(local, key) && UniqueKeys(center, key)
    requires forall a, b :: same(a, b) <==> view(a) == view(b)
    ensures
      var merged := UnionRows(local, center, key);
      && UniqueKeys(merged, key)
      && TableOf(merged, key, view) == TableOf(center, key, view) + TableOf(local, key, view)
      && (Adds(local, center, key, same) <==> TableOf(merged, key, view) != TableOf(center, key, view))
  {
    var merged := UnionRows(local, center, key);
    UnionKeys(local, center, key);
    UnionOverrides(local, center, key, view);
    if LocalOnly(local, center, key) != [] {
      LocalOnlyDiffers(local, center, key, view);
    } else if Adds(local, center, key, same) {
      ClashDiffers(local, center, key, view, same);
    } else {
      NothingAdded(local, center, key, view, same);
    }
  }

  lemma LocalOnlyDiffers<K, R, V>(local: seq<R>, center: seq<R>, key: R -> K, view: R -> V)
    requires UniqueKeys(local, key) && UniqueKeys(center, key)
    requires LocalOnly(local, center, key) != []
    ensures TableOf(center, key, view) + TableOf(local, key, view) != TableOf(center, key, view)
  {
    TableOfRows(local, key, view);
    TableOfRows(center, key, view);
    WithoutMembers(local, key, KeysOf(center, key));
    var l := LocalOnly(local, center, key)[0];
    assert l in LocalOnly(local, center, key);
    assert key(l) in TableOf(center, key, view) + TableOf(local, key, view);
  }

  lemma ClashDiffers<K, R, V>(local: seq<R>, center: seq<R>, key: R -> K, view: R -> V, same: (R, R) -> bool)
    requires UniqueKeys(local, key) && UniqueKeys(center, key)
    requires forall a, b :: same(a, b) <==> view(a) == view(b)
    requires Clashes(RowMap(local, key), center, key, same) != []
    ensures TableOf(center, key, view) + TableOf(local, key, view) != TableOf(center, key, view)
  {
    TableOfRows(local, key, view);
    TableOfRows(center, key, view);
    TableOfRows(local, key, Self);
    ClashesMembers(RowMap(local, key), center, key, same);
    var c :| c in center && key(c) in RowMap(local, key) && !same(RowMap(local, key)[key(c)], c);
    var l :| l in local && key(l) == key(c);
    assert (TableOf(center, key, view) + TableOf(local, key, view))[key(c)] == view(l);
  }

  lemma NothingAdded<K, R, V>(local: seq<R>, center: seq<R>, key: R -> K, view: R -> V, same: (R, R) -> bool)
    requires UniqueKeys(local, key) && UniqueKeys(center, key)
    requires forall a, b :: same(a, b) <==> view(a) == view(b)
    requires !Adds(local, center, key, same)
    ensures TableOf(center, key, view) + TableOf(local, key, view) == TableOf(center, key, view)
  {
    TableOfRows(local, key, view);
    TableOfRows(center, key, view);
    TableOfRows(local, key, Self);
    WithoutMembers(local, key, KeysOf(center, key));
    ClashesMembers(RowMap(local, key), center, key, same);
    forall l | l in local ensures key(l) in KeysOf(center, key) && TableOf(center, key, view)[key(l)] == view(l) {
      var c :| c in center && key(c) == key(l);
      assert same(RowMap(local, key)[key(c)], c);
    }
  }

  /** Merging again with the same center changes nothing. */
  lemma UnionIdempotent<K, R>(local: seq<R>, center: seq<R>, key: R -> K)
    requires UniqueKeys(local, key) && UniqueKeys(center, key)
    ensures UnionRows(UnionRows(local, center, key), center, key) == UnionRows(local, center, key)
  {
    var merged := UnionRows(local, center, key);
    UnionKeys(local, center, key);
    TableOfRows(merged, key, Self);
    TableOfRows(local, key, Self);
    assert forall r :: r in merged ==> key(r) in KeysOf(merged, key);
    forall c | c in center ensures key(c) in KeysOf(merged, key) {
      if key(c) in KeysOf(local, key) {
        var l :| l in local && key(l) == key(c);
        assert l in merged;
      } else {
        assert c in merged;
      }
    }
    WithoutAll(center, key, RowMap(merged, key).Keys);
  }

  // ---------- The six tables ----------

  const SECOND := 1_000_000_000

  /** A timestamp to the second; an absent one counts as the epoch. */
  function CanonTime(t: Time): int {
    if t.Never? then 0 else t.nanos / SECOND
  }

  /** The time lies in the k-th second since the epoch. */
  predicate InSecond(t: Time, k: int) {
    if t.Never? then k == 0 else k * 1_000_000_000 <= t.nanos < (k + 1) * 1_000_000_000
  }

  /** Two timestamps compare equal if and only if they lie in the same second. */
  lemma SameSecondIff(t: Time, u: Time)
    ensures CanonTime(t) == CanonTime(u) <==> exists k :: InSecond(t, k) && InSecond(u, k)
  {
    assert InSecond(t, CanonTime(t)) && InSecond(u, CanonTime(u));
  }

  predicate PlatformEqual(a: Platform, b: Platform) {
    && a.baseURL == b.baseURL && a.name == b.name && a.token == b.token
    && CanonTime(a.lastTokenFetch) == CanonTime(b.lastTokenFetch)
    && a.enabled == b.enabled && a.notes == b.notes && a.supportedFormats == b.supportedFormats
    && a.formatEndpoints == b.formatEndpoints && a.customHeaders == b.customHeaders
    && a.loginAccount == b.loginAccount && a.sortOrder == b.sortOrder
  }

  predicate CredentialEqual(a: Credential, b: Credential) {
    && a.tokenHash == b.tokenHash && a.platformBaseURL == b.platformBaseURL && a.sortOrder == b.sortOrder
    && a.token == b.token && a.credLabel == b.credLabel && a.enabled == b.enabled
    && CanonTime(a.expiresAt) == CanonTime(b.expiresAt) && a.isFree == b.isFree
  }

  predicate Equal<R(==)>(a: R, b: R) { a == b }

  function CredentialHash(c: Credential): string { c.tokenHash }

  function BindingId(b: Binding): BindingKey { BindingKey(BindingEndpoint(b), b.tokenHash) }

  /** What is compared of a row: timestamps to the second. */
  function PlatformView(p: Platform): Platform { p.(lastTokenFetch := At(CanonTime(p.lastTokenFetch))) }

  function CredentialView(c: Credential): Credential { c.(expiresAt := At(CanonTime(c.expiresAt))) }

  lemma EqualRowsEqualViews()
    ensures forall a, b :: PlatformEqual(a, b) <==> PlatformView(a) == PlatformView(b)
    ensures forall a, b :: CredentialEqual(a, b) <==> CredentialView(a) == CredentialView(b)
  {
  }

  /** One number per table. */
  datatype Counts = Counts(platform: int, credential: int, rapi: int, lapi: int, binding: int, route: int)

  datatype MergeSummary = MergeSummary(fromCenter: Counts, keptLocal: Counts, addsToCenter: bool)

  /** A bundle as five tables; its bindings are kept apart. */
  datatype Definitions = Definitions(
    platforms: map<string, Platform>, credentials: map<string, Credential>, rapis: map<EndpointKey, RAPI>,
    lapis: map<string, LAPI>, routes: map<RouteKey, Route>)

  ghost function DefinitionsOf(b: Bundle): Definitions {
    Definitions(
      TableOf(b.platforms, PlatformKey, PlatformView), TableOf(b.credentials, CredentialHash, CredentialView),
      TableOf(b.rapis, RapiKey, Self), TableOf(b.lapis, LapiKey, Self), TableOf(b.routes, KeyOfRoute, Self))
  }

  ghost function BindingsOf(b: Bundle): map<BindingKey, Binding> {
    TableOf(b.bindings, BindingId, Self)
  }

  /** `b` overridden by `a`, table by table. */
  function Override(b: Definitions, a: Definitions): Definitions {
    Definitions(b.platforms + a.platforms, b.credentials + a.credentials, b.rapis + a.rapis,
                b.lapis + a.lapis, b.routes + a.routes)
  }

  ghost predicate Keyed(b: Bundle) {
    && UniqueKeys(b.platforms, PlatformKey) && UniqueKeys(b.credentials, CredentialHash)
    && UniqueKeys(b.rapis, RapiKey) && UniqueKeys(b.lapis, LapiKey)
    && UniqueKeys(b.routes, KeyOfRoute) && UniqueKeys(b.bindings, BindingId)
  }

  ghost function UnionBundle(local: Bundle, center: Bundle): Bundle {
    Bundle(
      UnionRows(local.platforms, center.platforms, PlatformKey),
      UnionRows(local.credentials, center.credentials, CredentialHash),
      UnionRows(local.rapis, center.rapis, RapiKey),
      UnionRows(local.lapis, center.lapis, LapiKey),
      UnionRows(local.routes, center.routes, KeyOfRoute),
      UnionRows(local.bindings, center.bindings, BindingId))
  }

  ghost predicate AddsToCenter(local: Bundle, center: Bundle) {
    || Adds(local.platforms, center.platforms, PlatformKey, PlatformEqual)
    || Adds(local.credentials, center.credentials, CredentialHash, CredentialEqual)
    || Adds(local.rapis, center.rapis, RapiKey, Equal)
    || Adds(local.lapis, center.lapis, LapiKey, Equal)
    || Adds(local.routes, center.routes, KeyOfRoute, Equal)
    || Adds(local.bindings, center.bindings, BindingId, Equal)
  }

  /** Per table, the rows that only the edge has. */
  ghost function LocalOnlyCounts(local: Bundle, center: Bundle): Counts {
    Counts(
      |LocalOnly(local.platforms, center.platforms, PlatformKey)|,
      |LocalOnly(local.credentials, center.credentials, CredentialHash)|,
      |LocalOnly(local.rapis, center.rapis, RapiKey)|,
      |LocalOnly(local.lapis, center.lapis, LapiKey)|,
      |LocalOnly(local.bindings, center.bindings, BindingId)|,
      |LocalOnly(local.routes, center.routes, KeyOfRoute)|)
  }

  /** Per table, the rows that the merge adds to the edge. */
  function GrowthOf(local: Bundle, merged: Bundle): Counts {
    Counts(
      |merged.platforms| - |local.platforms|, |merged.credentials| - |local.credentials|,
      |merged.rapis| - |local.rapis|, |merged.lapis| - |local.lapis|,
      |merged.bindings| - |local.bindings|, |merged.routes| - |local.routes|)
  }

  method MergeBundles(local: Bundle, center: Bundle) returns (merged: Bundle, sum: MergeSummary)
    ensures merged == UnionBundle(local, center)
    ensures sum.addsToCenter <==> AddsToCenter(local, center)
    ensures sum.keptLocal == LocalOnlyCounts(local, center) && sum.fromCenter == GrowthOf(local, merged)
  {
    var platforms, k1, f1, a1 := MergeTable(local.platforms, center.platforms, PlatformKey, PlatformEqual);
    var credentials, k2, f2, a2 := MergeTable(local.credentials, center.credentials, CredentialHash, CredentialEqual);
    var rapis, k3, f3, a3 := MergeTable(local.rapis, center.rapis, RapiKey, Equal);
    var lapis, k4, f4, a4 := MergeTable(local.lapis, center.lapis, LapiKey, Equal);
    var bindings, k5, f5, a5 := MergeTable(local.bindings, center.bindings, BindingId, Equal);
    var routes, k6, f6, a6 := MergeTable(local.routes, center.routes, KeyOfRoute, Equal);
    merged := Bundle(platforms, credentials, rapis, lapis, routes, bindings);
    sum := MergeSummary(Counts(f1, f2, f3, f4, f5, f6), Counts(k1, k2, k3, k4, k5, k6),
      a1 || a2 || a3 || a4 || a5 || a6);
  }

  /** The merge overrides the center's tables by the local ones, and `AddsToCenter` says
      exactly whether the result differs from the center's tables. */
  lemma MergeIsOverride(local: Bundle, center: Bundle)
    requires Keyed(local) && Keyed(center)
    ensures Keyed(UnionBundle(local, center))
    ensures DefinitionsOf(UnionBundle(local, center)) == Override(DefinitionsOf(center), DefinitionsOf(local))
    ensures BindingsOf(UnionBundle(local, center)) == BindingsOf(center) + BindingsOf(local)
    ensures AddsToCenter(local, center) <==>
      DefinitionsOf(UnionBundle(local, center)) != DefinitionsOf(center)
      || BindingsOf(UnionBundle(local, center)) != BindingsOf(center)
  {
    EqualRowsEqualViews();
    UnionTable(local.platforms, center.platforms, PlatformKey, PlatformView, PlatformEqual);
    UnionTable(local.credentials, center.credentials, CredentialHash, CredentialView, CredentialEqual);
    UnionTable(local.rapis, center.rapis, RapiKey, Self, Equal);
    UnionTable(local.lapis, center.lapis, LapiKey, Self, Equal);
    UnionTable(local.routes, center.routes, KeyOfRoute, Self, Equal);
    UnionTable(local.bindings, center.bindings, BindingId, Self, Equal);
  }

  /** A repeated merge with an unchanged center leaves every local row as it was. */
  lemma MergeIdempotent(local: Bundle, center: Bundle)
    requires Keyed(local) && Keyed(center)
    ensures UnionBundle(UnionBundle(local, center), center) == UnionBundle(local, center)
  {
    UnionIdempotent(local.platforms, center.platforms, PlatformKey);
    UnionIdempotent(local.credentials, center.credentials, CredentialHash);
    UnionIdempotent(local.rapis, center.rapis, RapiKey);
    UnionIdempotent(local.lapis, center.lapis, LapiKey);
    UnionIdempotent(local.routes, center.routes, KeyOfRoute);
    UnionIdempotent(local.bindings, center.bindings, BindingId);
  }

  // ---------- Order indices ----------

  /** A node that only the center has takes an order index that the edge already uses in the same chain. */
  ghost predicate TakesUsedIndex(local: seq<Route>, center: seq<Route>) {
    exists l, c :: l in local && c in center && KeyOfRoute(c) !in KeysOf(local, KeyOfRoute) &&
      l.lapiAlias == c.lapiAlias && l.orderIndex == c.orderIndex
  }

  /** Interleaving two chains keeps order indices distinct exactly when no center-only
      node lands on an index that the local chain uses. */
  lemma UnionDistinctOrderIff(local: seq<Route>, center: seq<Route>)
    requires UniqueKeys(local, KeyOfRoute) && UniqueKeys(center, KeyOfRoute)
    requires DistinctOrder(local) && DistinctOrder(center)
    ensures DistinctOrder(UnionRows(local, center, KeyOfRoute)) <==> !TakesUsedIndex(local, center)
  {
    var own := Without(center, KeyOfRoute, RowMap(local, KeyOfRoute).Keys);
    TableOfRows(local, KeyOfRoute, Self);
    WithoutMembers(center, KeyOfRoute, RowMap(local, KeyOfRoute).Keys);
    WithoutDistinctOrder(center, RowMap(local, KeyOfRoute).Keys);
    var merged := local + own;
    if TakesUsedIndex(local, center) {
      var l, c :| l in local && c in center && KeyOfRoute(c) !in KeysOf(local, KeyOfRoute) &&
        l.lapiAlias == c.lapiAlias && l.orderIndex == c.orderIndex;
      var i :| 0 <= i < |local| && local[i] == l;
      assert c in own;
      var j :| 0 <= j < |own| && own[j] == c;
      assert merged[i] == l && merged[|local| + j] == c;
    } else {
      forall i, j | 0 <= i < j < |merged| && merged[i].lapiAlias == merged[j].lapiAlias
        ensures merged[i].orderIndex != merged[j].orderIndex
      {
        if i < |local| <= j {
          assert local[i] in local && own[j - |local|] in own;
        }
      }
    }
  }

  lemma {:induction false} WithoutDistinctOrder(routes: seq<Route>, keys: set<RouteKey>)
    requires DistinctOrder(routes)
    ensures DistinctOrder(Without(routes, KeyOfRoute, keys))
  {
    if routes != [] {
      var init := routes[..|routes| - 1];
      WithoutDistinctOrder(init, keys);
      WithoutMembers(init, KeyOfRoute, keys);
      var w := Without(init, KeyOfRoute, keys);
      forall i | 0 <= i < |w| && w[i].lapiAlias == routes[|routes| - 1].lapiAlias
        ensures w[i].orderIndex != routes[|routes| - 1].orderIndex
      {
        assert w[i] in w && w[i] in init;
        var j :| 0 <= j < |init| && init[j] == w[i];
      }
    }
  }
}
