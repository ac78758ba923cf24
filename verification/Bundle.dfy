/** The definition snapshot that center and edge exchange. */
module Bundle {

  /** A nullable timestamp, in nanoseconds. */
  datatype Time = Never | At(nanos: int)

  datatype Platform = Platform(
    baseURL: string, name: string, token: string, lastTokenFetch: Time, enabled: bool, notes: string,
    supportedFormats: string, formatEndpoints: string, customHeaders: string, loginAccount: string, sortOrder: int)

  datatype Credential = Credential(
    tokenHash: string, platformBaseURL: string, sortOrder: int, token: string, credLabel: string,
    enabled: bool, expiresAt: Time, isFree: bool)

  datatype Limits = Limits(rpm: int, rph: int, rpd: int, tpm: int, tph: int, tpd: int)

  datatype RAPI = RAPI(
    platformBaseURL: string, model: string, alias: string, enabled: bool, baseCost: int, highCost: int,
    limits: Limits, timePeriodRules: string, supportedFormats: string, customHeaders: string, source: string,
    vendor: string, series: string, modelName: string, version: string, suffix: string, notes: string, sortOrder: int)

  datatype LAPI = LAPI(
    alias: string, notes: string, enabled: bool, vendor: string, series: string, modelName: string,
    version: string, suffix: string)

  datatype Route = Route(lapiAlias: string, platformBaseURL: string, model: string, orderIndex: int)

  datatype Binding = Binding(
    platformBaseURL: string, model: string, tokenHash: string, limits: Limits, enabled: bool)

  datatype Bundle = Bundle(
    platforms: seq<Platform>, credentials: seq<Credential>, rapis: seq<RAPI>, lapis: seq<LAPI>,
    routes: seq<Route>, bindings: seq<Binding>)

  datatype EndpointKey = EndpointKey(baseURL: string, model: string)
  datatype RouteKey = RouteKey(lapi: string, endpoint: EndpointKey)
  datatype BindingKey = BindingKey(endpoint: EndpointKey, tokenHash: string)

  function PlatformKey(p: Platform): string { p.baseURL }

  function RapiKey(r: RAPI): EndpointKey { EndpointKey(r.platformBaseURL, r.model) }

  function LapiKey(l: LAPI): string { l.alias }

  function RouteEndpoint(o: Route): EndpointKey { EndpointKey(o.platformBaseURL, o.model) }

  function KeyOfRoute(o: Route): RouteKey { RouteKey(o.lapiAlias, RouteEndpoint(o)) }

  function BindingEndpoint(b: Binding): EndpointKey { EndpointKey(b.platformBaseURL, b.model) }

  /** The table's constraint UNIQUE(lapi_id, order_index). */
  ghost predicate DistinctOrder(routes: seq<Route>) {
    forall i, j :: 0 <= i < j < |routes| && routes[i].lapiAlias == routes[j].lapiAlias ==>
      routes[i].orderIndex != routes[j].orderIndex
  }
}

/** Rows identified by a key: membership, uniqueness, lookup and two ways to merge. */
module Tables {
  import opened Folds

  ghost function KeysOf<K, R>(rows: seq<R>, key: R -> K): set<K> {
    set r | r in rows :: key(r)
  }

  ghost predicate UniqueKeys<K, R>(rows: seq<R>, key: R -> K) {
    forall i, j :: 0 <= i < j < |rows| ==> key(rows[i]) != key(rows[j])
  }

  /** The rows whose key is not among `keys`, in order. */
  ghost function Without<K, R>(rows: seq<R>, key: R -> K, keys: set<K>): seq<R> {
    if rows == [] then [] else
    var last := rows[|rows| - 1];
    Without(rows[..|rows| - 1], key, keys) + (if key(last) in keys then [] else [last])
  }

  lemma {:induction false} WithoutMembers<K, R>(rows: seq<R>, key: R -> K, keys: set<K>)
    ensures forall r :: r in Without(rows, key, keys) ==> r in rows && key(r) !in keys
    ensures forall r :: r in rows && key(r) !in keys ==> r in Without(rows, key, keys)
  {
    if rows != [] {
      WithoutMembers(rows[..|rows| - 1], key, keys);
      Snoc(rows);
    }
  }

  lemma {:induction false} WithoutUnique<K, R>(rows: seq<R>, key: R -> K, keys: set<K>)
    requires UniqueKeys(rows, key)
    ensures UniqueKeys(Without(rows, key, keys), key)
  {
    if rows != [] {
      var init := rows[..|rows| - 1];
      WithoutUnique(init, key, keys);
      WithoutMembers(init, key, keys);
      var w := Without(init, key, keys);
      forall i | 0 <= i < |w| ensures key(w[i]) != key(rows[|rows| - 1]) {
        assert w[i] in w && w[i] in init;
        var j :| 0 <= j < |init| && init[j] == w[i];
      }
    }
  }

  lemma {:induction false} WithoutAll<K, R>(rows: seq<R>, key: R -> K, keys: set<K>)
    requires forall r :: r in rows ==> key(r) in keys
    ensures Without(rows, key, keys) == []
  {
    if rows != [] {
      WithoutAll(rows[..|rows| - 1], key, keys);
      assert rows[|rows| - 1] in rows;
    }
  }

  lemma {:induction false} WithoutNone<K, R>(rows: seq<R>, key: R -> K, keys: set<K>)
    requires forall r :: r in rows ==> key(r) !in keys
    ensures Without(rows, key, keys) == rows
  {
    if rows != [] {
      WithoutNone(rows[..|rows| - 1], key, keys);
      assert rows[|rows| - 1] in rows;
      Snoc(rows);
    }
  }

  lemma {:induction false} WithoutAppend<K, R>(a: seq<R>, b: seq<R>, key: R -> K, keys: set<K>)
    ensures Without(a + b, key, keys) == Without(a, key, keys) + Without(b, key, keys)
  {
    if b == [] {
      assert a + b == a;
    } else {
      assert (a + b)[..|a + b| - 1] == a + b[..|b| - 1];
      WithoutAppend(a, b[..|b| - 1], key, keys);
    }
  }

  lemma UniqueAppend<K, R>(a: seq<R>, b: seq<R>, key: R -> K)
    requires UniqueKeys(a, key) && UniqueKeys(b, key)
    requires forall r :: r in b ==> key(r) !in KeysOf(a, key)
    ensures UniqueKeys(a + b, key)
  {
    forall i, j | 0 <= i < j < |a + b| ensures key((a + b)[i]) != key((a + b)[j]) {
      if i < |a| <= j {
        assert a[i] in a && b[j - |a|] in b;
      }
    }
  }

  lemma KeysSnoc<K, R>(init: seq<R>, last: R, key: R -> K)
    ensures KeysOf(init + [last], key) == KeysOf(init, key) + {key(last)}
  {
    forall k ensures k in KeysOf(init + [last], key) <==> k in KeysOf(init, key) + {key(last)} {
      if k == key(last) {
        assert last in init + [last];
      } else if k in KeysOf(init, key) {
        var r :| r in init && key(r) == k;
        assert r in init + [last];
      }
    }
  }

  lemma UniqueRow<K, R>(rows: seq<R>, key: R -> K, r: R, q: R)
    requires UniqueKeys(rows, key) && r in rows && q in rows && key(r) == key(q)
    ensures r == q
  {
  }

  function Self<R>(r: R): R { r }

  /** Keyed rows as a finite map of the part of a row that is compared. */
  ghost function TableOf<K, R, V>(rows: seq<R>, key: R -> K, view: R -> V): map<K, V> {
    if rows == [] then map[] else
    var last := rows[|rows| - 1];
    TableOf(rows[..|rows| - 1], key, view)[key(last) := view(last)]
  }

  lemma {:induction false} TableOfRows<K, R, V>(rows: seq<R>, key: R -> K, view: R -> V)
    requires UniqueKeys(rows, key)
    ensures TableOf(rows, key, view).Keys == KeysOf(rows, key)
    ensures forall r :: r in rows ==> key(r) in TableOf(rows, key, view) && TableOf(rows, key, view)[key(r)] == view(r)
  {
    if rows != [] {
      TableOfRows(rows[..|rows| - 1], key, view);
      Snoc(rows);
    }
  }
}
