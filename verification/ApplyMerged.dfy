/** Which merged snapshots the tables accept. */
module ApplyMerged {
  import opened Folds
  import opened Bundle
  import opened Tables
  import opened RowMerge
  import opened Chains
  import opened BundleMerge
  import opened MergeTheorems
  import LapiMerge
  import SyncMerge
  import opened ApplyBundle
  import opened ApplyTransaction

  /** Distinct indices within every name are distinct indices overall. */
  lemma {:induction false} DistinctByName(routes: seq<Route>)
    requires forall a :: DistinctOrder(OfAlias(routes, a))
    ensures DistinctOrder(routes)
  {
    if routes != [] {
      var init, last := routes[..|routes| - 1], routes[|routes| - 1];
      forall a ensures DistinctOrder(OfAlias(init, a)) {
        assert DistinctOrder(OfAlias(routes, a));
        assert OfAlias(init, a) <= OfAlias(routes, a);
      }
      DistinctByName(init);
      LastIndexNew(routes);
    }
  }

  lemma LastIndexNew(routes: seq<Route>)
    requires routes != [] && DistinctOrder(OfAlias(routes, routes[|routes| - 1].lapiAlias))
    ensures
      var init, last := routes[..|routes| - 1], routes[|routes| - 1];
      forall i :: 0 <= i < |init| && init[i].lapiAlias == last.lapiAlias ==> init[i].orderIndex != last.orderIndex
  {
    var init, last := routes[..|routes| - 1], routes[|routes| - 1];
    var all, own := OfAlias(routes, last.lapiAlias), OfAlias(init, last.lapiAlias);
    OfAliasMembers(routes, last.lapiAlias);
    OfAliasMembers(init, last.lapiAlias);
    assert all == own + [last];
    forall i | 0 <= i < |init| && init[i].lapiAlias == last.lapiAlias ensures init[i].orderIndex != last.orderIndex {
      assert init[i] in init && init[i] in own;
      var k :| 0 <= k < |own| && own[k] == init[i];
      assert all[k] == init[i] && all[|own|] == last;
      assert all[k] in all && all[|own|] in all;
    }
  }

  lemma RenumberedDistinct(routes: seq<Route>)
    ensures DistinctOrder(RenumberedChains(routes))
  {
    forall a ensures DistinctOrder(OfAlias(RenumberedChains(routes), a)) {
      ChainAfterRenumber(routes, a);
    }
    DistinctByName(RenumberedChains(routes));
  }

  lemma MergedTokens(center: Bundle, local: Bundle, rule: Rule, hash: string -> string, canEncrypt: bool)
    requires Valid(center) && Valid(local)
    requires TokensReadable(center, canEncrypt) && TokensReadable(local, canEncrypt)
    requires TokensMatch(center, hash) && TokensMatch(local, hash)
    ensures TokensReadable(Merged(center, local, rule), canEncrypt) && TokensMatch(Merged(center, local, rule), hash)
  {
    MergedKeys(center.platforms, local.platforms, PlatformKey, rule == CenterWins);
    MergedKeys(center.credentials, local.credentials, CredKey, rule == CenterWins);
  }

  /** What the merge of two bundles produces can always be applied: a chain comes from one side
      and is numbered again. */
  lemma MergeCommits(center: Bundle, local: Bundle, rule: Rule, hash: string -> string, canEncrypt: bool)
    requires Valid(center) && Valid(local) && Valid(Merged(center, local, rule))
    requires center.platforms != [] || local.platforms != []
    requires TokensReadable(center, canEncrypt) && TokensReadable(local, canEncrypt)
    requires TokensMatch(center, hash) && TokensMatch(local, hash)
    ensures Committable(Merged(center, local, rule), hash, canEncrypt)
  {
    hide Committable, Valid, TokensReadable, TokensMatch;
    MergedTokens(center, local, rule, hash, canEncrypt);
    SomePlatform(center, local, rule);
    RenumberedDistinct(LapiMerge.Flatten(LapiOutcome(center, local, rule).entries));
    CommittableIs(Merged(center, local, rule), hash, canEncrypt);
  }

  lemma SomePlatform(center: Bundle, local: Bundle, rule: Rule)
    requires Valid(center) && Valid(local) && (center.platforms != [] || local.platforms != [])
    ensures MergedPlatforms(center, local, rule) != []
  {
    MergedKeys(center.platforms, local.platforms, PlatformKey, rule == CenterWins);
    var p := if center.platforms != [] then center.platforms[0] else local.platforms[0];
    assert p in center.platforms || p in local.platforms;
    assert PlatformKey(p) in KeysOf(MergedPlatforms(center, local, rule), PlatformKey);
  }

  /** Rows of both sides under keys that differ only up to what `coarse` ignores. */
  ghost predicate Twins<K, J, R>(local: seq<R>, center: seq<R>, key: R -> K, coarse: R -> J) {
    exists l, c :: l in local && c in center && coarse(l) == coarse(c) && key(l) != key(c)
  }

  /** The union by a key keeps a coarser key unique exactly when no two rows are twins. */
  lemma UnionCoarse<K, J, R(!new)>(local: seq<R>, center: seq<R>, key: R -> K, coarse: R -> J)
    requires UniqueKeys(local, coarse) && UniqueKeys(center, coarse)
    requires forall a, b :: key(a) == key(b) ==> coarse(a) == coarse(b)
    ensures
      var u := SyncMerge.UnionRows(local, center, key);
      && (UniqueKeys(u, coarse) <==> !Twins(local, center, key, coarse))
      && KeysOf(u, coarse) == KeysOf(local, coarse) + KeysOf(center, coarse)
      && forall r :: r in u ==> r in local || r in center
  {
    FinerUnique(local, key, coarse);
    FinerUnique(center, key, coarse);
    SyncMerge.UnionKeys(local, center, key);
    var u := SyncMerge.UnionRows(local, center, key);
    UnionCoarseKeys(local, center, key, coarse);
    if Twins(local, center, key, coarse) {
      var l, c :| l in local && c in center && coarse(l) == coarse(c) && key(l) != key(c);
      TwinsClash(local, center, key, coarse, l, c);
    } else {
      var own := u[|local|..];
      OwnRows(local, center, key, coarse);
      UniqueAppend(local, own, coarse);
    }
  }

  lemma FinerUnique<K, J, R(!new)>(rows: seq<R>, key: R -> K, coarse: R -> J)
    requires UniqueKeys(rows, coarse) && forall a, b :: key(a) == key(b) ==> coarse(a) == coarse(b)
    ensures UniqueKeys(rows, key)
  {
    forall i, j | 0 <= i < j < |rows| ensures key(rows[i]) != key(rows[j]) {
      assert coarse(rows[i]) != coarse(rows[j]);
    }
  }

  lemma UnionCoarseKeys<K, J, R(!new)>(local: seq<R>, center: seq<R>, key: R -> K, coarse: R -> J)
    requires UniqueKeys(local, key) && UniqueKeys(center, key)
    requires forall a, b :: key(a) == key(b) ==> coarse(a) == coarse(b)
    ensures KeysOf(SyncMerge.UnionRows(local, center, key), coarse) == KeysOf(local, coarse) + KeysOf(center, coarse)
  {
    SyncMerge.UnionKeys(local, center, key);
    var u := SyncMerge.UnionRows(local, center, key);
    forall c | c in center ensures coarse(c) in KeysOf(u, coarse) {
      if key(c) in KeysOf(local, key) {
        var l :| l in local && key(l) == key(c);
        assert l in u && coarse(l) == coarse(c);
      } else {
        assert c in u;
      }
    }
    forall l | l in local ensures coarse(l) in KeysOf(u, coarse) {
      assert l in u;
    }
  }

  /** Twins both enter the union. */
  lemma TwinsClash<K, J, R(!new)>(local: seq<R>, center: seq<R>, key: R -> K, coarse: R -> J, l: R, c: R)
    requires UniqueKeys(local, coarse) && UniqueKeys(local, key) && UniqueKeys(center, key)
    requires forall a, b :: key(a) == key(b) ==> coarse(a) == coarse(b)
    requires l in local && c in center && coarse(l) == coarse(c) && key(l) != key(c)
    ensures !UniqueKeys(SyncMerge.UnionRows(local, center, key), coarse)
  {
    SyncMerge.UnionKeys(local, center, key);
    var u := SyncMerge.UnionRows(local, center, key);
    if key(c) in KeysOf(local, key) {
      var m :| m in local && key(m) == key(c);
      UniqueRow(local, coarse, l, m);
      assert false;
    }
    assert l in u && c in u;
    if UniqueKeys(u, coarse) {
      UniqueRow(u, coarse, l, c);
      assert false;
    }
  }

  /** Without twins the rows that the center adds have new coarse keys. */
  lemma OwnRows<K, J, R>(local: seq<R>, center: seq<R>, key: R -> K, coarse: R -> J)
    requires UniqueKeys(center, coarse) && UniqueKeys(local, key) && UniqueKeys(center, key)
    requires !Twins(local, center, key, coarse)
    ensures
      var u := SyncMerge.UnionRows(local, center, key);
      && local <= u && UniqueKeys(u[|local|..], coarse)
      && forall r :: r in u[|local|..] ==> coarse(r) !in KeysOf(local, coarse)
  {
    TableOfRows(local, key, Self);
    var keys := SyncMerge.RowMap(local, key).Keys;
    WithoutMembers(center, key, keys);
    WithoutCoarse(center, key, coarse, keys);
    var own := Without(center, key, keys);
    assert SyncMerge.UnionRows(local, center, key) == local + own;
    assert (local + own)[|local|..] == own;
    forall r | r in own ensures coarse(r) !in KeysOf(local, coarse) {
      forall l | l in local ensures coarse(l) != coarse(r) {
        assert key(l) in keys && key(r) !in keys;
      }
    }
  }

  lemma {:induction false} WithoutCoarse<K, J, R>(rows: seq<R>, key: R -> K, coarse: R -> J, keys: set<K>)
    requires UniqueKeys(rows, coarse)
    ensures UniqueKeys(Without(rows, key, keys), coarse)
  {
    if rows != [] {
      var init, last := rows[..|rows| - 1], rows[|rows| - 1];
      WithoutCoarse(init, key, coarse, keys);
      WithoutMembers(init, key, keys);
      if key(last) !in keys {
        forall r | r in [last] ensures coarse(r) !in KeysOf(Without(init, key, keys), coarse) {
        }
        UniqueAppend(Without(init, key, keys), [last], coarse);
      }
    }
  }

  /** The same token hash, once with and once without surrounding blanks: the merge takes them for two. */
  ghost predicate PaddedTwins(local: Bundle, center: Bundle) {
    || Twins(local.credentials, center.credentials, SyncMerge.CredentialHash, CredKey)
    || Twins(local.bindings, center.bindings, SyncMerge.BindingId, BindKey)
  }

  lemma PlainRows(local: Bundle, center: Bundle)
    requires Valid(local) && Valid(center)
    ensures
      var u := SyncMerge.UnionBundle(local, center);
      ValidPlatforms(u) && ValidRapis(u) && ValidLapis(u) && ValidRoutes(u)
  {
    UnionCoarse(local.platforms, center.platforms, PlatformKey, PlatformKey);
    UnionCoarse(local.rapis, center.rapis, RapiKey, RapiKey);
    UnionCoarse(local.lapis, center.lapis, LapiKey, LapiKey);
    UnionCoarse(local.routes, center.routes, KeyOfRoute, KeyOfRoute);
  }

  lemma CredentialRowsIff(local: Bundle, center: Bundle)
    requires Valid(local) && Valid(center)
    ensures ValidCredentials(SyncMerge.UnionBundle(local, center)) <==>
      !Twins(local.credentials, center.credentials, SyncMerge.CredentialHash, CredKey)
  {
    UnionCoarse(local.platforms, center.platforms, PlatformKey, PlatformKey);
    UnionCoarse(local.credentials, center.credentials, SyncMerge.CredentialHash, CredKey);
    var u := SyncMerge.UnionBundle(local, center);
    forall c | c in u.credentials ensures GoodCredential(c, KeysOf(u.platforms, PlatformKey)) {
      assert c in local.credentials || c in center.credentials;
    }
  }

  lemma BindingRowsIff(local: Bundle, center: Bundle)
    requires Valid(local) && Valid(center)
    ensures ValidBindings(SyncMerge.UnionBundle(local, center)) <==>
      !Twins(local.bindings, center.bindings, SyncMerge.BindingId, BindKey)
  {
    UnionCoarse(local.bindings, center.bindings, SyncMerge.BindingId, BindKey);
    var u := SyncMerge.UnionBundle(local, center);
    forall d | d in u.bindings ensures GoodBinding(d, KeysOf(u.rapis, RapiKey), KeysOf(u.credentials, CredKey)) {
      BindingEnds(local, center, d);
    }
  }

  lemma BindingEnds(local: Bundle, center: Bundle, d: Binding)
    requires Valid(local) && Valid(center) && (d in local.bindings || d in center.bindings)
    ensures
      var u := SyncMerge.UnionBundle(local, center);
      GoodBinding(d, KeysOf(u.rapis, RapiKey), KeysOf(u.credentials, CredKey))
  {
    UnionCoarse(local.rapis, center.rapis, RapiKey, RapiKey);
    UnionCoarse(local.credentials, center.credentials, SyncMerge.CredentialHash, CredKey);
  }

  /** The union of two valid snapshots is valid unless a token hash occurs both with and without blanks. */
  lemma UnionValidIff(local: Bundle, center: Bundle)
    requires Valid(local) && Valid(center)
    ensures Valid(SyncMerge.UnionBundle(local, center)) <==> !PaddedTwins(local, center)
  {
    PlainRows(local, center);
    CredentialRowsIff(local, center);
    BindingRowsIff(local, center);
    ValidParts(SyncMerge.UnionBundle(local, center));
  }

  /** The union of an edge with its center interleaves chains: it can be applied exactly when no node
      that only the center has takes an index that the edge's chain uses, and no hash is padded. */
  lemma UnionCommitsIff(local: Bundle, center: Bundle, hash: string -> string, canEncrypt: bool)
    requires Valid(local) && Valid(center) && DistinctOrder(local.routes) && DistinctOrder(center.routes)
    requires local.platforms != [] || center.platforms != []
    requires TokensReadable(local, canEncrypt) && TokensReadable(center, canEncrypt)
    requires TokensMatch(local, hash) && TokensMatch(center, hash)
    ensures Committable(SyncMerge.UnionBundle(local, center), hash, canEncrypt) <==>
      !SyncMerge.TakesUsedIndex(local.routes, center.routes) && !PaddedTwins(local, center)
  {
    UnionValidIff(local, center);
    UnionRoutesIff(local, center);
    UnionTokens(local, center, hash, canEncrypt);
  }

  lemma UnionRoutesIff(local: Bundle, center: Bundle)
    requires Valid(local) && Valid(center) && DistinctOrder(local.routes) && DistinctOrder(center.routes)
    ensures DistinctOrder(SyncMerge.UnionBundle(local, center).routes) <==>
      !SyncMerge.TakesUsedIndex(local.routes, center.routes)
  {
    SyncMerge.UnionDistinctOrderIff(local.routes, center.routes);
  }

  lemma UnionTokens(local: Bundle, center: Bundle, hash: string -> string, canEncrypt: bool)
    requires local.platforms != [] || center.platforms != []
    requires TokensReadable(local, canEncrypt) && TokensReadable(center, canEncrypt)
    requires TokensMatch(local, hash) && TokensMatch(center, hash)
    ensures
      var u := SyncMerge.UnionBundle(local, center);
      u.platforms != [] && TokensReadable(u, canEncrypt) && TokensMatch(u, hash)
  {
    UnionFrom(local.platforms, center.platforms, PlatformKey);
    UnionFrom(local.credentials, center.credentials, SyncMerge.CredentialHash);
    if local.platforms == [] {
      assert SyncMerge.RowMap(local.platforms, PlatformKey).Keys == {};
      WithoutNone(center.platforms, PlatformKey, {});
    }
  }

  lemma UnionFrom<K, R>(local: seq<R>, center: seq<R>, key: R -> K)
    ensures forall r :: r in SyncMerge.UnionRows(local, center, key) ==> r in local || r in center
  {
    WithoutMembers(center, key, SyncMerge.RowMap(local, key).Keys);
  }
}
