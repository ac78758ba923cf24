/** Merging duplicate endpoints and platforms into one row each, with everything that hangs on them. */
module Migration {
  import opened Folds
  import opened Store

  datatype EndpointRow = EndpointRow(platformID: int, model: string)

  /** Pairs are keyed by endpoint first: with a name for orders and metrics, with a credential for bindings. */
  datatype Tables = Tables(
    platforms: map<int, string>, rapis: map<int, EndpointRow>, credentials: map<int, int>,
    orders: map<Pair, int>, metrics: map<Pair, Metrics>, bindings: map<Pair, bool>)

  // ---------- References ----------

  function Renamed<V>(m: map<Pair, V>, keep: int, dup: int): set<Pair> {
    set k | k in m && k.left == dup :: Pair(keep, k.right)
  }

  /** References to `dup` become references to `keep`, unless `keep` has one already. */
  function Repointed<V>(m: map<Pair, V>, keep: int, dup: int): map<Pair, V>
    requires keep != dup
  {
    map k | k in m.Keys + Renamed(m, keep, dup) && k.left != dup :: if k in m then m[k] else m[Pair(dup, k.right)]
  }

  method Repoint<V>(m: map<Pair, V>, keep: int, dup: int) returns (after: map<Pair, V>)
    requires keep != dup
    ensures after == Repointed(m, keep, dup)
  {
    after := m;
    var rest := set k | k in m && k.left == dup;
    ghost var all := rest;
    while rest != {}
      invariant rest <= all
      invariant forall k :: k in after <==>
        if k.left == dup then k in rest else k in m || (k.left == keep && Pair(dup, k.right) in all - rest)
      invariant forall k :: k in after ==> after[k] == if k in m then m[k] else m[Pair(dup, k.right)]
      decreases rest
    {
      var k :| k in rest;
      var moved := Pair(keep, k.right);
      if moved !in after {
        after := after[moved := m[k]];
      }
      after := after - {k};
      rest := rest - {k};
    }
    forall k ensures k in after <==> k in Repointed(m, keep, dup) {
      assert k in Renamed(m, keep, dup) <==> k.left == keep && Pair(dup, k.right) in m;
    }
  }

  // ---------- Statistics ----------

  const ZERO := Metrics(0, 0, 0, 0, 0, 0, 0, 0, None)

  function Plus(a: Metrics, b: Metrics): Metrics {
    Metrics(a.total + b.total, a.success + b.success, a.fail401 + b.fail401, a.fail429 + b.fail429,
            a.fail500 + b.fail500, a.failOther + b.failOther, a.latency + b.latency, a.tokens + b.tokens,
            Later(a.lastUsed, b.lastUsed))
  }

  function Later(a: Option<int>, b: Option<int>): Option<int> {
    if b.Some? && (a.None? || a.value < b.value) then b else a
  }

  lemma PlusLaws(a: Metrics, b: Metrics, c: Metrics)
    ensures Plus(a, ZERO) == a == Plus(ZERO, a)
    ensures Plus(a, b) == Plus(b, a)
    ensures Plus(Plus(a, b), c) == Plus(a, Plus(b, c))
  {
  }

  function At(m: map<Pair, Metrics>, rapi: int, lapi: int): Metrics {
    if Pair(rapi, lapi) in m then m[Pair(rapi, lapi)] else ZERO
  }

  /** Counters of `dup` are added to those of `keep`, name by name, and the later time of last use stays. */
  function Added(m: map<Pair, Metrics>, keep: int, dup: int): map<Pair, Metrics>
    requires keep != dup
  {
    map k | k in m.Keys + Renamed(m, keep, dup) && k.left != dup ::
      if k.left == keep then Plus(At(m, keep, k.right), At(m, dup, k.right)) else m[k]
  }

  method AddMetrics(m: map<Pair, Metrics>, keep: int, dup: int) returns (after: map<Pair, Metrics>)
    requires keep != dup
    ensures after == Added(m, keep, dup)
  {
    after := m;
    var rest := set k | k in m && k.left == dup;
    ghost var all := rest;
    while rest != {}
      invariant rest <= all
      invariant forall k :: k in after <==>
        if k.left == dup then k in rest else k in m || (k.left == keep && Pair(dup, k.right) in all - rest)
      invariant forall k :: k in after ==> (
        if k.left == keep && Pair(dup, k.right) in all - rest
        then after[k] == Plus(At(m, keep, k.right), At(m, dup, k.right))
        else after[k] == m[k])
      decreases rest
    {
      var k :| k in rest;
      var moved := Pair(keep, k.right);
      if moved in after {
        after := after[moved := Plus(after[moved], m[k])];
      } else {
        after := after[moved := m[k]];
      }
      after := after - {k};
      rest := rest - {k};
    }
    forall k ensures k in after <==> k in Added(m, keep, dup) {
      assert k in Renamed(m, keep, dup) <==> k.left == keep && Pair(dup, k.right) in m;
    }
  }

  /** The counters of a name over a list of endpoints. */
  function Total(m: map<Pair, Metrics>, ids: seq<int>, lapi: int): Metrics {
    if ids == [] then ZERO else Plus(Total(m, ids[..|ids| - 1], lapi), At(m, ids[|ids| - 1], lapi))
  }

  /** Two totals over a prefix of the endpoints, before (`t0`) and after (`t1`) the counters `d` have moved. */
  ghost predicate Moved(t1: Metrics, t0: Metrics, d: Metrics, dupSeen: bool, keepSeen: bool) {
    if dupSeen == keepSeen then t1 == t0
    else if keepSeen then t1 == Plus(t0, d)
    else Plus(t1, d) == t0
  }

  lemma {:induction false} AddedTotal(m: map<Pair, Metrics>, keep: int, dup: int, ids: seq<int>, lapi: int)
    requires keep != dup && Distinct(ids)
    ensures Moved(Total(Added(m, keep, dup), ids, lapi), Total(m, ids, lapi), At(m, dup, lapi), dup in ids, keep in ids)
  {
    if ids != [] {
      var init, last := ids[..|ids| - 1], ids[|ids| - 1];
      AddedTotal(m, keep, dup, init, lapi);
      AddedAt(m, keep, dup, last, lapi);
      LastNew(ids);
      MovedStep(Total(Added(m, keep, dup), init, lapi), Total(m, init, lapi), At(Added(m, keep, dup), last, lapi),
                At(m, last, lapi), At(m, dup, lapi), dup in init, keep in init, last == dup, last == keep);
      assert (dup in ids <==> dup in init || last == dup) && (keep in ids <==> keep in init || last == keep);
    }
  }

  lemma LastNew(ids: seq<int>)
    requires Distinct(ids) && ids != []
    ensures ids[|ids| - 1] !in ids[..|ids| - 1]
    ensures forall x :: x in ids <==> x in ids[..|ids| - 1] || x == ids[|ids| - 1]
  {
    Snoc(ids);
  }

  lemma MovedStep(t1: Metrics, t0: Metrics, x1: Metrics, x0: Metrics, d: Metrics, dupBefore: bool, keepBefore: bool,
      isDup: bool, isKeep: bool)
    requires Moved(t1, t0, d, dupBefore, keepBefore)
    requires x1 == if isDup then ZERO else if isKeep then Plus(x0, d) else x0
    requires (isDup ==> x0 == d && !dupBefore && !isKeep) && (isKeep ==> !keepBefore)
    ensures Moved(Plus(t1, x1), Plus(t0, x0), d, dupBefore || isDup, keepBefore || isKeep)
  {
    PlusLaws(t1, x0, d);
    PlusLaws(t1, d, x0);
    PlusLaws(t0, d, x0);
    PlusLaws(x0, d, d);
    PlusLaws(t0, x0, d);
  }

  lemma AddedAt(m: map<Pair, Metrics>, keep: int, dup: int, r: int, lapi: int)
    requires keep != dup
    ensures At(Added(m, keep, dup), r, lapi) ==
      if r == dup then ZERO else if r == keep then Plus(At(m, keep, lapi), At(m, dup, lapi)) else At(m, r, lapi)
  {
    assert Pair(r, lapi) in Renamed(m, keep, dup) <==> r == keep && Pair(dup, lapi) in m;
  }

  /** Merging keeps the totals of every list that has both endpoints or neither. */
  lemma TotalKept(m: map<Pair, Metrics>, keep: int, dup: int, ids: seq<int>, lapi: int)
    requires keep != dup && Distinct(ids) && (keep in ids <==> dup in ids)
    ensures Total(Added(m, keep, dup), ids, lapi) == Total(m, ids, lapi)
  {
    AddedTotal(m, keep, dup, ids, lapi);
  }

  // ---------- Groups ----------

  /** What an endpoint is: the normalised address of its original platform, and its model. */
  datatype Group = Group(base: string, model: string)

  function BaseOf(bases: map<int, string>, platformID: int): string {
    if platformID in bases then bases[platformID] else ""
  }

  function GroupOf(bases: map<int, string>, r: EndpointRow): Group {
    Group(BaseOf(bases, r.platformID), r.model)
  }

  ghost predicate SameGroup(a: Tables, bases: map<int, string>, i: int, j: int) {
    i in a.rapis && j in a.rapis && GroupOf(bases, a.rapis[i]) == GroupOf(bases, a.rapis[j])
  }

  /** What is counted. */
  datatype Counter = Requests | Successes | Fail401 | Fail429 | Fail500 | FailOther | Latency | Tokens

  function Read(m: Metrics, c: Counter): int {
    match c
    case Requests => m.total
    case Successes => m.success
    case Fail401 => m.fail401
    case Fail429 => m.fail429
    case Fail500 => m.fail500
    case FailOther => m.failOther
    case Latency => m.latency
    case Tokens => m.tokens
  }

  /** One counter of a name, summed over a list of endpoints. */
  function Sum(m: map<Pair, Metrics>, ids: seq<int>, lapi: int, c: Counter): int {
    if ids == [] then 0 else
    var id := ids[|ids| - 1];
    Sum(m, ids[..|ids| - 1], lapi, c) + if Pair(id, lapi) in m then Read(m[Pair(id, lapi)], c) else 0
  }

  /** The latest time of last use of a name over a list of endpoints. */
  ghost predicate Latest(m: map<Pair, Metrics>, ids: seq<int>, lapi: int, t: Option<int>) {
    && (forall id :: id in ids && Pair(id, lapi) in m && m[Pair(id, lapi)].lastUsed.Some? ==>
          t.Some? && m[Pair(id, lapi)].lastUsed.value <= t.value)
    && (t.Some? ==> exists id :: id in ids && Pair(id, lapi) in m && m[Pair(id, lapi)].lastUsed == t)
  }

  /** The totals are the sums of the counters, and the latest time of last use. */
  lemma {:induction false} TotalIs(m: map<Pair, Metrics>, ids: seq<int>, lapi: int)
    ensures forall c :: Read(Total(m, ids, lapi), c) == Sum(m, ids, lapi, c)
    ensures Latest(m, ids, lapi, Total(m, ids, lapi).lastUsed)
  {
    if ids != [] {
      var init, last := ids[..|ids| - 1], ids[|ids| - 1];
      TotalIs(m, init, lapi);
      Snoc(ids);
      var t := Total(m, init, lapi).lastUsed;
      if t.Some? {
        var id :| id in init && Pair(id, lapi) in m && m[Pair(id, lapi)].lastUsed == t;
        assert id in ids;
      }
      assert last in ids;
    }
  }

  /** A list that holds all endpoints of a group or none. */
  ghost predicate Closed(a: Tables, bases: map<int, string>, ids: seq<int>) {
    Distinct(ids) && forall i, j :: SameGroup(a, bases, i, j) ==> (i in ids <==> j in ids)
  }

  /** Surviving endpoints stay in their group. */
  ghost predicate GroupsKept(a: Tables, b: Tables, bases: map<int, string>) {
    forall id :: id in b.rapis ==> id in a.rapis && GroupOf(bases, b.rapis[id]) == GroupOf(bases, a.rapis[id])
  }

  ghost predicate TotalsKept(a: Tables, b: Tables, bases: map<int, string>) {
    forall ids, lapi :: Closed(a, bases, ids) ==> Total(b.metrics, ids, lapi) == Total(a.metrics, ids, lapi)
  }

  /** A reference to an endpoint has become one to a surviving endpoint of its group. */
  ghost predicate ReferencesKept<V, W>(a: Tables, b: Tables, bases: map<int, string>, before: map<Pair, V>,
      after: map<Pair, W>)
  {
    forall k :: k in before && k.left in a.rapis ==> Survives(a, b, bases, after, k)
  }

  ghost predicate Survives<W>(a: Tables, b: Tables, bases: map<int, string>, after: map<Pair, W>, k: Pair) {
    exists r :: r in b.rapis && SameGroup(a, bases, r, k.left) && Pair(r, k.right) in after
  }

  /** An endpoint of the group that has gone had this value. */
  ghost predicate Inherited<V>(a: Tables, b: Tables, bases: map<int, string>, before: map<Pair, V>, k: Pair, v: V) {
    exists i :: i !in b.rapis && SameGroup(a, bases, i, k.left)
      && Pair(i, k.right) in before && before[Pair(i, k.right)] == v
  }

  /** References of endpoints that stay keep their value, those of endpoints that go are gone, and a new one is
      inherited from such an endpoint. */
  ghost predicate ReferencesFrom<V>(a: Tables, b: Tables, bases: map<int, string>, before: map<Pair, V>,
      after: map<Pair, V>)
  {
    && (forall k :: k in before && (k.left in b.rapis || k.left !in a.rapis) ==> k in after)
    && (forall k :: k in before && k in after ==> after[k] == before[k])
    && (forall k :: k in after && k !in before ==> Inherited(a, b, bases, before, k, after[k]))
    && (forall k :: k in after && k.left in a.rapis ==> k.left in b.rapis)
  }

  /** What every step of the migration keeps. */
  ghost predicate Preserves(a: Tables, b: Tables, bases: map<int, string>) {
    && GroupsKept(a, b, bases) && TotalsKept(a, b, bases)
    && ReferencesKept(a, b, bases, a.orders, b.orders) && ReferencesFrom(a, b, bases, a.orders, b.orders)
    && ReferencesKept(a, b, bases, a.bindings, b.bindings) && ReferencesFrom(a, b, bases, a.bindings, b.bindings)
  }

  lemma FromCompose<V>(a: Tables, b: Tables, c: Tables, bases: map<int, string>, x: map<Pair, V>, y: map<Pair, V>,
      z: map<Pair, V>)
    requires GroupsKept(a, b, bases) && GroupsKept(b, c, bases)
    requires ReferencesFrom(a, b, bases, x, y) && ReferencesFrom(b, c, bases, y, z)
    ensures ReferencesFrom(a, c, bases, x, z)
  {
    forall k | k in z && k !in x ensures Inherited(a, c, bases, x, k, z[k]) {
      if k in y {
        assert Inherited(a, b, bases, x, k, y[k]);
      } else {
        assert Inherited(b, c, bases, y, k, z[k]);
        var i :| i !in c.rapis && SameGroup(b, bases, i, k.left)
          && Pair(i, k.right) in y && y[Pair(i, k.right)] == z[k];
        if Pair(i, k.right) !in x {
          assert Inherited(a, b, bases, x, Pair(i, k.right), z[k]);
        }
      }
    }
    forall k | k in x && k in z ensures z[k] == x[k] {
      assert k !in y ==> Inherited(b, c, bases, y, k, z[k]);
    }
    forall k | k in z && k.left in a.rapis ensures k.left in c.rapis {
      assert k !in y ==> Inherited(b, c, bases, y, k, z[k]);
    }
  }

  lemma ReferencesCompose<U, V, W>(a: Tables, b: Tables, c: Tables, bases: map<int, string>, x: map<Pair, U>,
      y: map<Pair, V>, z: map<Pair, W>)
    requires GroupsKept(a, b, bases) && GroupsKept(b, c, bases)
    requires ReferencesKept(a, b, bases, x, y) && ReferencesKept(b, c, bases, y, z)
    ensures ReferencesKept(a, c, bases, x, z)
  {
    forall k | k in x && k.left in a.rapis ensures Survives(a, c, bases, z, k) {
      assert Survives(a, b, bases, y, k);
      var r :| r in b.rapis && SameGroup(a, bases, r, k.left) && Pair(r, k.right) in y;
      assert Survives(b, c, bases, z, Pair(r, k.right));
      var q :| q in c.rapis && SameGroup(b, bases, q, r) && Pair(q, k.right) in z;
      assert SameGroup(a, bases, q, k.left);
    }
  }

  lemma TotalsCompose(a: Tables, b: Tables, c: Tables, bases: map<int, string>)
    requires GroupsKept(a, b, bases) && TotalsKept(a, b, bases) && TotalsKept(b, c, bases)
    ensures TotalsKept(a, c, bases)
  {
    forall ids, lapi | Closed(a, bases, ids) ensures Total(c.metrics, ids, lapi) == Total(a.metrics, ids, lapi) {
      assert Closed(b, bases, ids) by {
        forall i, j | SameGroup(b, bases, i, j) ensures i in ids <==> j in ids {
          assert SameGroup(a, bases, i, j);
        }
      }
    }
  }

  lemma PreservesCompose(a: Tables, b: Tables, c: Tables, bases: map<int, string>)
    requires Preserves(a, b, bases) && Preserves(b, c, bases)
    ensures Preserves(a, c, bases)
  {
    TotalsCompose(a, b, c, bases);
    ReferencesCompose(a, b, c, bases, a.orders, b.orders, c.orders);
    ReferencesCompose(a, b, c, bases, a.bindings, b.bindings, c.bindings);
    FromCompose(a, b, c, bases, a.orders, b.orders, c.orders);
    FromCompose(a, b, c, bases, a.bindings, b.bindings, c.bindings);
  }

  // ---------- Merging two endpoints ----------

  function Merged(t: Tables, keep: int, dup: int): Tables
    requires keep != dup
  {
    t.(rapis := t.rapis - {dup}, orders := Repointed(t.orders, keep, dup), metrics := Added(t.metrics, keep, dup),
       bindings := Repointed(t.bindings, keep, dup))
  }

  lemma RepointedKept<V>(t: Tables, bases: map<int, string>, keep: int, dup: int, m: map<Pair, V>)
    requires keep != dup && SameGroup(t, bases, keep, dup)
    ensures ReferencesKept(t, Merged(t, keep, dup), bases, m, Repointed(m, keep, dup))
  {
    var b := Merged(t, keep, dup);
    forall k | k in m && k.left in t.rapis ensures Survives(t, b, bases, Repointed(m, keep, dup), k) {
      if k.left == dup {
        assert Pair(keep, k.right) in Renamed(m, keep, dup) by { assert k == Pair(dup, k.right); }
        assert keep in b.rapis && SameGroup(t, bases, keep, k.left) && Pair(keep, k.right) in Repointed(m, keep, dup);
      } else {
        assert k.left in b.rapis && SameGroup(t, bases, k.left, k.left) && Pair(k.left, k.right) == k;
      }
    }
  }

  lemma RepointedFrom<V>(t: Tables, bases: map<int, string>, keep: int, dup: int, m: map<Pair, V>)
    requires keep != dup && SameGroup(t, bases, keep, dup)
    ensures ReferencesFrom(t, Merged(t, keep, dup), bases, m, Repointed(m, keep, dup))
  {
    forall k | k in Repointed(m, keep, dup) && k !in m
      ensures Inherited(t, Merged(t, keep, dup), bases, m, k, Repointed(m, keep, dup)[k])
    {
      assert k in Renamed(m, keep, dup) && k.left == keep && Pair(dup, k.right) in m;
    }
  }

  lemma MergePreserves(t: Tables, bases: map<int, string>, keep: int, dup: int)
    requires keep != dup && SameGroup(t, bases, keep, dup)
    ensures Preserves(t, Merged(t, keep, dup), bases)
  {
    RepointedKept(t, bases, keep, dup, t.orders);
    RepointedKept(t, bases, keep, dup, t.bindings);
    RepointedFrom(t, bases, keep, dup, t.orders);
    RepointedFrom(t, bases, keep, dup, t.bindings);
    forall ids, lapi | Closed(t, bases, ids)
      ensures Total(Added(t.metrics, keep, dup), ids, lapi) == Total(t.metrics, ids, lapi)
    {
      TotalKept(t.metrics, keep, dup, ids, lapi);
    }
  }

  // ---------- The passes ----------

  predicate SameKey(t: Tables, i: int, j: int) {
    i in t.rapis && j in t.rapis && t.rapis[i] == t.rapis[j] && t.rapis[i].model != ""
  }

  ghost predicate UniqueRapis(t: Tables) {
    forall i, j :: SameKey(t, i, j) ==> i == j
  }

  predicate SameBase(t: Tables, i: int, j: int) {
    i in t.platforms && j in t.platforms && t.platforms[i] == t.platforms[j] != ""
  }

  ghost predicate UniquePlatforms(t: Tables) {
    forall i, j :: SameBase(t, i, j) ==> i == j
  }

  /** `keep` is the least id of its group. */
  predicate LeastRapi(t: Tables, keep: int) {
    keep in t.rapis && forall j :: j in t.rapis && SameKey(t, j, keep) ==> keep <= j
  }

  predicate LeastPlatform(t: Tables, keep: int) {
    keep in t.platforms && forall j :: j in t.platforms && SameBase(t, j, keep) ==> keep <= j
  }

  lemma LeastOf(s: set<int>) returns (m: int)
    requires s != {}
    ensures m in s && forall x :: x in s ==> m <= x
  {
    var first := Member(s);
    m := first;
    if s - {first} != {} {
      var rest := LeastOf(s - {first});
      if rest < first {
        m := rest;
      }
      assert forall x :: x in s ==> x == first || x in s - {first};
    } else {
      assert forall x :: x in s ==> x == first || x in s - {first};
    }
  }

  lemma SomeLeastRapi(t: Tables)
    requires !UniqueRapis(t)
    ensures exists keep, dup :: LeastRapi(t, keep) && SameKey(t, keep, dup) && keep != dup
  {
    var i, j :| SameKey(t, i, j) && i != j;
    var same := set k | k in t.rapis && SameKey(t, k, i);
    assert i in same;
    var m := LeastOf(same);
    forall k | k in t.rapis && SameKey(t, k, m) ensures m <= k {
      assert k in same;
    }
    assert LeastRapi(t, m) && SameKey(t, m, i) && SameKey(t, m, j);
  }

  lemma SomeLeastPlatform(t: Tables)
    requires !UniquePlatforms(t)
    ensures exists keep, dup :: LeastPlatform(t, keep) && SameBase(t, keep, dup) && keep != dup
  {
    var i, j :| SameBase(t, i, j) && i != j;
    var same := set k | k in t.platforms && SameBase(t, k, i);
    assert i in same;
    var m := LeastOf(same);
    forall k | k in t.platforms && SameBase(t, k, m) ensures m <= k {
      assert k in same;
    }
    assert LeastPlatform(t, m) && SameBase(t, m, i) && SameBase(t, m, j);
  }

  /** Only duplicates have gone, each in favour of a smaller id. */
  ghost predicate Deduplicated(a: Tables, b: Tables) {
    && b.platforms == a.platforms && b.credentials == a.credentials
    && (forall id :: id in b.rapis ==> id in a.rapis && b.rapis[id] == a.rapis[id])
    && (forall id :: id in a.rapis && id !in b.rapis ==>
          a.rapis[id].model != "" && exists r :: r in b.rapis && SameKey(a, r, id) && r <= id)
  }

  lemma DeduplicatedStep(a: Tables, b: Tables, keep: int, dup: int)
    requires Deduplicated(a, b) && LeastRapi(b, keep) && SameKey(b, keep, dup) && keep != dup
    ensures Deduplicated(a, Merged(b, keep, dup))
  {
    var c := Merged(b, keep, dup);
    forall id | id in a.rapis && id !in c.rapis
      ensures a.rapis[id].model != "" && exists r :: r in c.rapis && SameKey(a, r, id) && r <= id
    {
      if id == dup {
        assert keep in c.rapis && SameKey(a, keep, id) && keep <= id;
      } else {
        var r :| r in b.rapis && SameKey(a, r, id) && r <= id;
        if r == dup {
          assert keep in c.rapis && SameKey(a, keep, id) && keep <= id;
        } else {
          assert r in c.rapis;
        }
      }
    }
  }

  /** Endpoints only go in favour of a smaller one of their group, and only if their model is not empty. */
  ghost predicate Represented(a: Tables, b: Tables, bases: map<int, string>) {
    forall id :: id in a.rapis && id !in b.rapis ==>
      a.rapis[id].model != "" && exists r :: r in b.rapis && SameGroup(a, bases, r, id) && r < id
  }

  lemma DeduplicatedRepresents(a: Tables, b: Tables, bases: map<int, string>)
    requires Deduplicated(a, b)
    ensures Represented(a, b, bases)
  {
    forall id | id in a.rapis && id !in b.rapis
      ensures exists r :: r in b.rapis && SameGroup(a, bases, r, id) && r < id
    {
      var r :| r in b.rapis && SameKey(a, r, id) && r <= id;
      assert SameGroup(a, bases, r, id);
    }
  }

  lemma RepresentedCompose(a: Tables, b: Tables, c: Tables, bases: map<int, string>)
    requires GroupsKept(a, b, bases) && Represented(a, b, bases) && Represented(b, c, bases)
    ensures Represented(a, c, bases)
  {
    forall id | id in a.rapis && id !in c.rapis
      ensures a.rapis[id].model != "" && exists r :: r in c.rapis && SameGroup(a, bases, r, id) && r < id
    {
      var r := id;
      if id !in b.rapis {
        r :| r in b.rapis && SameGroup(a, bases, r, id) && r < id;
      }
      if r !in c.rapis {
        var q :| q in c.rapis && SameGroup(b, bases, q, r) && q < r;
        assert SameGroup(a, bases, q, id);
      }
    }
  }

  /** Platforms `dup` and `keep` become one. */
  function PlatformMerged(t: Tables, keep: int, dup: int): Tables {
    t.(platforms := t.platforms - {dup},
       rapis := map id | id in t.rapis :: if t.rapis[id].platformID == dup then t.rapis[id].(platformID := keep)
         else t.rapis[id],
       credentials := map id | id in t.credentials :: if t.credentials[id] == dup then keep else t.credentials[id])
  }

  /** The addresses are the normalised ones of the original platforms. */
  ghost predicate Normalised(t: Tables, bases: map<int, string>) {
    forall p :: p in t.platforms ==> p in bases && t.platforms[p] == bases[p]
  }

  lemma SameRefs<V>(a: Tables, b: Tables, bases: map<int, string>, m: map<Pair, V>)
    requires b.rapis.Keys == a.rapis.Keys
    ensures ReferencesKept(a, b, bases, m, m) && ReferencesFrom(a, b, bases, m, m)
  {
    forall k | k in m && k.left in a.rapis ensures Survives(a, b, bases, m, k) {
      assert k.left in b.rapis && SameGroup(a, bases, k.left, k.left) && Pair(k.left, k.right) == k;
    }
  }

  lemma PlatformMergePreserves(t: Tables, bases: map<int, string>, keep: int, dup: int)
    requires Normalised(t, bases) && SameBase(t, keep, dup)
    ensures Preserves(t, PlatformMerged(t, keep, dup), bases)
    ensures Normalised(PlatformMerged(t, keep, dup), bases)
  {
    SameRefs(t, PlatformMerged(t, keep, dup), bases, t.orders);
    SameRefs(t, PlatformMerged(t, keep, dup), bases, t.bindings);
  }

  /** Endpoints and credentials belong to existing platforms. */
  ghost predicate Owned(t: Tables) {
    && (forall id :: id in t.rapis ==> t.rapis[id].platformID in t.platforms)
    && (forall id :: id in t.credentials ==> t.credentials[id] in t.platforms)
  }

  function Bases(t: Tables, norm: string -> string): map<int, string> {
    map p | p in t.platforms :: norm(t.platforms[p])
  }

  lemma PreservesSelf(t: Tables, bases: map<int, string>)
    ensures Preserves(t, t, bases)
  {
    SameRefs(t, t, bases, t.orders);
    SameRefs(t, t, bases, t.bindings);
  }

  lemma SamePlatforms(a: Tables, b: Tables, bases: map<int, string>)
    requires Deduplicated(a, b) && UniquePlatforms(a) && Normalised(a, bases)
    ensures UniquePlatforms(b) && Normalised(b, bases) && (Owned(a) ==> Owned(b))
  {
    forall i, j | SameBase(b, i, j) ensures i == j {
      assert SameBase(a, i, j);
    }
  }

  lemma DeduplicatedOwned(a: Tables, b: Tables)
    requires Deduplicated(a, b) && Owned(a)
    ensures Owned(b)
  {
  }

  function Renormalised(t: Tables, norm: string -> string): Tables {
    t.(platforms := map p | p in t.platforms :: norm(t.platforms[p]))
  }

  lemma RenormalisedKeeps(t: Tables, norm: string -> string)
    ensures Preserves(t, Renormalised(t, norm), Bases(t, norm))
    ensures Normalised(Renormalised(t, norm), Bases(t, norm))
    ensures Owned(t) ==> Owned(Renormalised(t, norm))
  {
    SameRefs(t, Renormalised(t, norm), Bases(t, norm), t.orders);
    SameRefs(t, Renormalised(t, norm), Bases(t, norm), t.bindings);
  }

  lemma PlatformMergedOwned(t: Tables, keep: int, dup: int)
    requires Owned(t) && keep in t.platforms && keep != dup
    ensures Owned(PlatformMerged(t, keep, dup))
  {
  }

  /** Every credential and every remaining endpoint is on a platform whose address is the one that `bases`
      gives for its platform before; endpoints keep their model and no credential goes. */
  ghost predicate Rehomed(a: Tables, b: Tables, bases: map<int, string>) {
    && b.credentials.Keys == a.credentials.Keys
    && (forall id :: id in a.credentials && a.credentials[id] in bases ==>
      b.credentials[id] in b.platforms && b.platforms[b.credentials[id]] == bases[a.credentials[id]])
    && (forall id :: id in b.rapis ==> id in a.rapis && b.rapis[id].model == a.rapis[id].model)
    && (forall id :: id in b.rapis && a.rapis[id].platformID in bases ==>
      b.rapis[id].platformID in b.platforms && b.platforms[b.rapis[id].platformID] == bases[a.rapis[id].platformID])
  }

  /** Platforms only go in favour of a smaller one with the same address. */
  ghost predicate Absorbed(b: Tables, bases: map<int, string>) {
    && b.platforms.Keys <= bases.Keys
    && forall p :: p in bases && p !in b.platforms ==>
         bases[p] != "" && exists q :: q in b.platforms && bases[q] == bases[p] && q < p
  }

  lemma RehomedStep(a: Tables, t: Tables, bases: map<int, string>, keep: int, dup: int)
    requires Rehomed(a, t, bases) && Normalised(t, bases) && SameBase(t, keep, dup) && keep != dup
    ensures Rehomed(a, PlatformMerged(t, keep, dup), bases)
  {
  }

  lemma AbsorbedStep(t: Tables, bases: map<int, string>, keep: int, dup: int)
    requires Absorbed(t, bases) && Normalised(t, bases) && SameBase(t, keep, dup) && keep < dup
    ensures Absorbed(PlatformMerged(t, keep, dup), bases)
  {
    var b := PlatformMerged(t, keep, dup);
    forall p | p in bases && p !in b.platforms
      ensures bases[p] != "" && exists q :: q in b.platforms && bases[q] == bases[p] && q < p
    {
      if p == dup {
        assert keep in b.platforms && bases[keep] == bases[p];
      } else {
        var q :| q in t.platforms && bases[q] == bases[p] && q < p;
        if q == dup {
          assert keep in b.platforms && bases[keep] == bases[p];
        } else {
          assert q in b.platforms;
        }
      }
    }
  }

  /** A pass over the endpoints leaves the rest where it is. */
  lemma RehomedBefore(a: Tables, b: Tables, c: Tables, bases: map<int, string>)
    requires Deduplicated(a, b) && Rehomed(b, c, bases)
    ensures Rehomed(a, c, bases)
  {
  }

  lemma RehomedAfter(a: Tables, b: Tables, c: Tables, bases: map<int, string>)
    requires Rehomed(a, b, bases) && Deduplicated(b, c)
    ensures Rehomed(a, c, bases)
  {
  }

  /** Counters belong to existing endpoints. */
  ghost predicate Counted(t: Tables) {
    forall k :: k in t.metrics ==> k.left in t.rapis
  }

  lemma MergedCounted(t: Tables, keep: int, dup: int)
    requires Counted(t) && keep in t.rapis && keep != dup
    ensures Counted(Merged(t, keep, dup))
  {
    forall k | k in Added(t.metrics, keep, dup) ensures k.left in t.rapis - {dup} {
      assert k in Renamed(t.metrics, keep, dup) ==> k.left == keep;
    }
  }

  class Migration {
    var t: Tables

    constructor (t: Tables)
      ensures this.t == t
    {
      this.t := t;
    }

    method MergeRAPIRefs(keep: int, dup: int)
      requires keep != dup
      modifies this
      ensures t == Merged(old(t), keep, dup)
    {
      var orders := Repoint(t.orders, keep, dup);
      var metrics := AddMetrics(t.metrics, keep, dup);
      var bindings := Repoint(t.bindings, keep, dup);
      t := t.(rapis := t.rapis - {dup}, orders := orders, metrics := metrics, bindings := bindings);
    }

    /** Merges into the least id until no two endpoints of a platform share a model. */
    method MergeDuplicateRAPIs(ghost bases: map<int, string>)
      modifies this
      ensures UniqueRapis(t) && Deduplicated(old(t), t) && Preserves(old(t), t, bases)
      ensures Counted(old(t)) ==> Counted(t)
    {
      PreservesSelf(t, bases);
      while exists i, j :: i in t.rapis && j in t.rapis && SameKey(t, i, j) && i != j
        invariant Deduplicated(old(t), t) && Preserves(old(t), t, bases)
        invariant Counted(old(t)) ==> Counted(t)
        decreases t.rapis.Keys
      {
        SomeLeastRapi(t);
        var keep, dup :| keep in t.rapis && dup in t.rapis && LeastRapi(t, keep) && SameKey(t, keep, dup)
          && keep != dup;
        DeduplicatedStep(old(t), t, keep, dup);
        MergePreserves(t, bases, keep, dup);
        PreservesCompose(old(t), t, Merged(t, keep, dup), bases);
        if Counted(t) {
          MergedCounted(t, keep, dup);
        }
        ghost var mid := t;
        MergeRAPIRefs(keep, dup);
        assert t.rapis.Keys == mid.rapis.Keys - {dup};
      }
    }

    /** Normalises the addresses and merges platforms that coincide into the least id. */
    method MergePlatforms(norm: string -> string)
      modifies this
      ensures UniquePlatforms(t) && Normalised(t, Bases(old(t), norm)) && Preserves(old(t), t, Bases(old(t), norm))
      ensures Owned(old(t)) ==> Owned(t)
      ensures t.rapis.Keys == old(t).rapis.Keys && t.metrics == old(t).metrics
      ensures t.orders == old(t).orders && t.bindings == old(t).bindings
      ensures Absorbed(t, Bases(old(t), norm)) && Rehomed(old(t), t, Bases(old(t), norm))
      ensures t.credentials.Keys == old(t).credentials.Keys
      ensures Owned(old(t)) ==> forall id :: id in t.credentials ==>
        t.platforms[t.credentials[id]] == norm(old(t).platforms[old(t).credentials[id]])
      ensures Owned(old(t)) ==> forall id :: id in t.rapis ==>
        t.platforms[t.rapis[id].platformID] == norm(old(t).platforms[old(t).rapis[id].platformID])
    {
      ghost var bases := Bases(t, norm);
      RenormalisedKeeps(t, norm);
      t := Renormalised(t, norm);
      while exists i, j :: i in t.platforms && j in t.platforms && SameBase(t, i, j) && i != j
        invariant Normalised(t, bases) && Preserves(old(t), t, bases)
        invariant Owned(old(t)) ==> Owned(t)
        invariant t.rapis.Keys == old(t).rapis.Keys && t.metrics == old(t).metrics
        invariant t.orders == old(t).orders && t.bindings == old(t).bindings
        invariant Absorbed(t, bases) && Rehomed(old(t), t, bases)
        decreases t.platforms.Keys
      {
        MergeOnePair(bases, old(t));
      }
    }

    method MergeOnePair(ghost bases: map<int, string>, ghost first: Tables)
      requires !UniquePlatforms(t) && Normalised(t, bases) && Preserves(first, t, bases)
      requires Absorbed(t, bases) && Rehomed(first, t, bases)
      modifies this
      ensures Normalised(t, bases) && Preserves(first, t, bases)
      ensures Owned(old(t)) ==> Owned(t)
      ensures t.rapis.Keys == old(t).rapis.Keys && t.metrics == old(t).metrics
      ensures t.orders == old(t).orders && t.bindings == old(t).bindings
      ensures Absorbed(t, bases) && Rehomed(first, t, bases)
      ensures exists p :: p in old(t).platforms && t.platforms == old(t).platforms - {p}
      ensures t.credentials.Keys == old(t).credentials.Keys
      ensures Owned(old(t)) ==> forall id :: id in t.credentials ==>
        t.platforms[t.credentials[id]] == old(t).platforms[old(t).credentials[id]]
      ensures Owned(old(t)) ==> forall id :: id in t.rapis ==>
        t.platforms[t.rapis[id].platformID] == old(t).platforms[old(t).rapis[id].platformID]
    {
      SomeLeastPlatform(t);
      var keep, dup :| keep in t.platforms && dup in t.platforms && LeastPlatform(t, keep) && SameBase(t, keep, dup)
        && keep != dup;
      PlatformMergePreserves(t, bases, keep, dup);
      PreservesCompose(first, t, PlatformMerged(t, keep, dup), bases);
      RehomedStep(first, t, bases, keep, dup);
      AbsorbedStep(t, bases, keep, dup);
      if Owned(t) {
        PlatformMergedOwned(t, keep, dup);
      }
      t := PlatformMerged(t, keep, dup);
    }

    /** Endpoints, platforms, endpoints again: the second merge of endpoints sees what the merge of
        platforms has brought together. */
    method Run(norm: string -> string)
      modifies this
      ensures UniqueRapis(t) && UniquePlatforms(t) && Normalised(t, Bases(old(t), norm))
      ensures Preserves(old(t), t, Bases(old(t), norm))
      ensures (Owned(old(t)) ==> Owned(t)) && (Counted(old(t)) ==> Counted(t))
      ensures Absorbed(t, Bases(old(t), norm)) && Rehomed(old(t), t, Bases(old(t), norm))
      ensures t.credentials.Keys == old(t).credentials.Keys
      ensures Owned(old(t)) ==> forall id :: id in t.credentials ==>
        t.platforms[t.credentials[id]] == norm(old(t).platforms[old(t).credentials[id]])
      ensures Represented(old(t), t, Bases(old(t), norm))
      ensures Owned(old(t)) ==> forall id :: id in t.rapis ==>
        id in old(t).rapis && t.platforms[t.rapis[id].platformID] == norm(old(t).platforms[old(t).rapis[id].platformID])
    {
      ghost var bases := Bases(t, norm);
      ghost var first := t;
      MergeDuplicateRAPIs(bases);
      ghost var second := t;
      if Owned(first) {
        DeduplicatedOwned(first, second);
      }
      MergePlatforms(norm);
      ghost var third := t;
      PreservesCompose(first, second, third, bases);
      RehomedBefore(first, second, third, bases);
      DeduplicatedRepresents(first, second, bases);
      RepresentedCompose(first, second, third, bases);
      MergeDuplicateRAPIs(bases);
      PreservesCompose(first, third, t, bases);
      RehomedAfter(first, third, t, bases);
      DeduplicatedRepresents(third, t, bases);
      RepresentedCompose(first, third, t, bases);
      SamePlatforms(third, t, bases);
    }
  }

  // ---------- What the passes promise ----------

  /** Every endpoint has exactly one survivor of its group, if its model and address are not empty. */
  lemma OneSurvivor(a: Tables, b: Tables, bases: map<int, string>, i: int, j: int)
    requires UniqueRapis(b) && UniquePlatforms(b) && Normalised(b, bases) && Owned(b)
    requires i in b.rapis && j in b.rapis && GroupOf(bases, b.rapis[i]) == GroupOf(bases, b.rapis[j])
    requires b.rapis[i].model != "" && GroupOf(bases, b.rapis[i]).base != ""
    ensures i == j
  {
    assert SameBase(b, b.rapis[i].platformID, b.rapis[j].platformID);
    assert SameKey(b, i, j);
  }

  lemma AddZero(m: map<Pair, Metrics>, ids: seq<int>, lapi: int)
    requires ids != []
    ensures At(m, ids[|ids| - 1], lapi) == ZERO ==> Total(m, ids, lapi) == Total(m, ids[..|ids| - 1], lapi)
    ensures Total(m, ids[..|ids| - 1], lapi) == ZERO ==> Total(m, ids, lapi) == At(m, ids[|ids| - 1], lapi)
  {
    var t, x := Total(m, ids[..|ids| - 1], lapi), At(m, ids[|ids| - 1], lapi);
    assert Total(m, ids, lapi) == Plus(t, x);
    if x == ZERO {
      PlusLaws(t, ZERO, ZERO);
    }
    if t == ZERO {
      PlusLaws(x, ZERO, ZERO);
    }
  }

  lemma {:induction false} NoneLeft(m: map<Pair, Metrics>, ids: seq<int>, lapi: int)
    requires forall i :: i in ids ==> At(m, i, lapi) == ZERO
    ensures Total(m, ids, lapi) == ZERO
    decreases |ids|
  {
    if ids == [] {
      assert Total(m, ids, lapi) == ZERO;
    } else {
      NoneLeft(m, ids[..|ids| - 1], lapi);
      AddZero(m, ids, lapi);
    }
  }

  lemma {:induction false} OnlyOne(m: map<Pair, Metrics>, ids: seq<int>, s: int, lapi: int)
    requires Distinct(ids) && s in ids && forall i :: i in ids && i != s ==> At(m, i, lapi) == ZERO
    ensures Total(m, ids, lapi) == At(m, s, lapi)
    decreases |ids|
  {
    LastNew(ids);
    AddZero(m, ids, lapi);
    if ids[|ids| - 1] == s {
      NoneLeft(m, ids[..|ids| - 1], lapi);
    } else {
      OnlyOne(m, ids[..|ids| - 1], s, lapi);
    }
  }

  /** The survivor of a group counts, for every name, what all its endpoints counted before. */
  lemma SurvivorSums(a: Tables, b: Tables, bases: map<int, string>, ids: seq<int>, s: int, lapi: int)
    requires Preserves(a, b, bases) && Closed(a, bases, ids) && Counted(b)
    requires s in ids && forall i :: i in ids && i in b.rapis ==> i == s
    ensures At(b.metrics, s, lapi) == Total(a.metrics, ids, lapi)
    ensures forall c :: Read(At(b.metrics, s, lapi), c) == Sum(a.metrics, ids, lapi, c)
    ensures Latest(a.metrics, ids, lapi, At(b.metrics, s, lapi).lastUsed)
  {
    OnlyOne(b.metrics, ids, s, lapi);
    TotalIs(a.metrics, ids, lapi);
  }
}
