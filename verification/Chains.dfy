/** Routing chains: grouping by public name, stable order, numbering. */
module Chains {
  import opened Folds
  import opened Bundle
  import opened Tables
  import opened Names

  /** The routes of one name, in list order. */
  function OfAlias(routes: seq<Route>, a: string): seq<Route> {
    if routes == [] then [] else
    var last := routes[|routes| - 1];
    OfAlias(routes[..|routes| - 1], a) + (if last.lapiAlias == a then [last] else [])
  }

  function AliasesIn(routes: seq<Route>): set<string> {
    set r | r in routes :: r.lapiAlias
  }

  ghost predicate Ordered(chain: seq<Route>) {
    forall i, j :: 0 <= i < j < |chain| ==> chain[i].orderIndex <= chain[j].orderIndex
  }

  function Insert(chain: seq<Route>, r: Route): seq<Route> {
    if chain == [] || chain[|chain| - 1].orderIndex <= r.orderIndex then chain + [r]
    else Insert(chain[..|chain| - 1], r) + [chain[|chain| - 1]]
  }

  /** Stable sort by order index. */
  function SortStable(chain: seq<Route>): seq<Route> {
    if chain == [] then [] else Insert(SortStable(chain[..|chain| - 1]), chain[|chain| - 1])
  }

  function ChainOf(routes: seq<Route>, a: string): seq<Route> {
    SortStable(OfAlias(routes, a))
  }

  function Renumber(chain: seq<Route>): (r: seq<Route>)
    ensures |r| == |chain|
    ensures forall i :: 0 <= i < |r| ==> r[i] == chain[i].(orderIndex := i)
  {
    seq(|chain|, i requires 0 <= i < |chain| => chain[i].(orderIndex := i))
  }

  /** The chains of the given names, one after another, each numbered from 0. */
  function NumberedBy(routes: seq<Route>, aliases: seq<string>): seq<Route> {
    if aliases == [] then [] else
    NumberedBy(routes, aliases[..|aliases| - 1]) + Renumber(ChainOf(routes, aliases[|aliases| - 1]))
  }

  ghost function RenumberedChains(routes: seq<Route>): seq<Route> {
    NumberedBy(routes, SortedOf(AliasesIn(routes)))
  }

  // ---------- Methods ----------

  method GroupChain(routes: seq<Route>) returns (out: map<string, seq<Route>>)
    ensures out.Keys == AliasesIn(routes)
    ensures forall a :: a in out ==> out[a] == ChainOf(routes, a)
  {
    out := map[];
    var i := 0;
    while i < |routes|
      invariant 0 <= i <= |routes|
      invariant out.Keys == AliasesIn(routes[..i])
      invariant forall a :: a in out ==> out[a] == OfAlias(routes[..i], a)
      invariant forall a :: a !in out ==> OfAlias(routes[..i], a) == []
    {
      assert routes[..i + 1][..i] == routes[..i];
      assert routes[..i + 1] == routes[..i] + [routes[i]];
      var a := routes[i].lapiAlias;
      out := out[a := (if a in out then out[a] else []) + [routes[i]]];
      i := i + 1;
    }
    assert routes[..i] == routes;
    out := map a | a in out :: SortStable(out[a]);
  }

  method SortAliases(names: set<string>) returns (r: seq<string>)
    ensures r == SortedOf(names)
  {
    r := [];
    var rest := names;
    while rest != {}
      invariant rest <= names && Sorted(r)
      invariant forall x :: x in r <==> x in names - rest
      decreases rest
    {
      var x :| x in rest;
      r := InsertName(r, x);
      rest := rest - {x};
    }
    SortedUnique(r, SortedOf(names));
  }

  lemma NumberedStep(routes: seq<Route>, aliases: seq<string>, i: nat)
    requires i < |aliases|
    ensures NumberedBy(routes, aliases[..i + 1]) ==
      NumberedBy(routes, aliases[..i]) + Renumber(ChainOf(routes, aliases[i]))
  {
    assert aliases[..i + 1][..i] == aliases[..i];
  }

  method RenumberChains(routes: seq<Route>) returns (out: seq<Route>)
    ensures out == RenumberedChains(routes)
  {
    var byAlias := GroupChain(routes);
    var aliases := SortAliases(byAlias.Keys);
    out := [];
    var i := 0;
    while i < |aliases|
      invariant 0 <= i <= |aliases|
      invariant out == NumberedBy(routes, aliases[..i])
    {
      NumberedStep(routes, aliases, i);
      var a := aliases[i];
      assert a in aliases;
      out := out + Renumber(byAlias[a]);
      i := i + 1;
    }
    assert aliases[..i] == aliases;
  }

  // ---------- Sorting ----------

  lemma {:induction false} InsertMultiset(chain: seq<Route>, r: Route)
    ensures multiset(Insert(chain, r)) == multiset(chain) + multiset{r}
  {
    if chain != [] && chain[|chain| - 1].orderIndex > r.orderIndex {
      InsertMultiset(chain[..|chain| - 1], r);
      Snoc(chain);
    }
  }

  lemma {:induction false} InsertOrdered(chain: seq<Route>, r: Route)
    requires Ordered(chain)
    ensures Ordered(Insert(chain, r))
  {
    if chain != [] && chain[|chain| - 1].orderIndex > r.orderIndex {
      var init, last := chain[..|chain| - 1], chain[|chain| - 1];
      InsertOrdered(init, r);
      InsertMultiset(init, r);
      forall i | 0 <= i < |Insert(init, r)| ensures Insert(init, r)[i].orderIndex <= last.orderIndex {
        assert Insert(init, r)[i] in multiset(Insert(init, r));
        assert Insert(init, r)[i] in init || Insert(init, r)[i] == r;
      }
    }
  }

  lemma {:induction false} SortIs(chain: seq<Route>)
    ensures Ordered(SortStable(chain))
    ensures multiset(SortStable(chain)) == multiset(chain)
  {
    if chain != [] {
      SortIs(chain[..|chain| - 1]);
      InsertOrdered(SortStable(chain[..|chain| - 1]), chain[|chain| - 1]);
      InsertMultiset(SortStable(chain[..|chain| - 1]), chain[|chain| - 1]);
      Snoc(chain);
    }
  }

  lemma {:induction false} SortOrdered(chain: seq<Route>)
    requires Ordered(chain)
    ensures SortStable(chain) == chain
  {
    if chain != [] {
      SortOrdered(chain[..|chain| - 1]);
      Snoc(chain);
    }
  }

  lemma SortMembers(chain: seq<Route>)
    ensures |SortStable(chain)| == |chain|
    ensures forall r :: r in SortStable(chain) <==> r in chain
  {
    SortIs(chain);
    assert |multiset(SortStable(chain))| == |multiset(chain)|;
    forall r ensures r in SortStable(chain) <==> r in chain {
      assert r in multiset(SortStable(chain)) <==> r in multiset(chain);
    }
  }

  // ---------- Filtering ----------

  lemma {:induction false} OfAliasAppend(x: seq<Route>, y: seq<Route>, a: string)
    ensures OfAlias(x + y, a) == OfAlias(x, a) + OfAlias(y, a)
  {
    if y == [] {
      assert x + y == x;
    } else {
      assert (x + y)[..|x + y| - 1] == x + y[..|y| - 1];
      OfAliasAppend(x, y[..|y| - 1], a);
    }
  }

  ghost predicate Named(chain: seq<Route>, a: string) {
    forall r :: r in chain ==> r.lapiAlias == a
  }

  lemma {:induction false} OfAliasNamed(chain: seq<Route>, b: string, a: string)
    requires Named(chain, b)
    ensures OfAlias(chain, a) == if a == b then chain else []
  {
    if chain != [] {
      Snoc(chain);
      OfAliasNamed(chain[..|chain| - 1], b, a);
    }
  }

  lemma {:induction false} OfAliasMembers(routes: seq<Route>, a: string)
    ensures forall r :: r in OfAlias(routes, a) <==> r in routes && r.lapiAlias == a
  {
    if routes != [] {
      OfAliasMembers(routes[..|routes| - 1], a);
      Snoc(routes);
    }
  }

  lemma ChainMembers(routes: seq<Route>, a: string)
    ensures forall r :: r in ChainOf(routes, a) <==> r in routes && r.lapiAlias == a
    ensures Named(ChainOf(routes, a), a) && Ordered(ChainOf(routes, a))
  {
    OfAliasMembers(routes, a);
    SortMembers(OfAlias(routes, a));
    SortIs(OfAlias(routes, a));
  }

  lemma ChainEmpty(routes: seq<Route>, a: string)
    ensures ChainOf(routes, a) == [] <==> a !in AliasesIn(routes)
  {
    ChainMembers(routes, a);
    if ChainOf(routes, a) != [] {
      assert ChainOf(routes, a)[0] in ChainOf(routes, a);
    }
    if a in AliasesIn(routes) {
      var r :| r in routes && r.lapiAlias == a;
      assert r in ChainOf(routes, a);
    }
  }

  // ---------- Numbering ----------

  lemma RenumberTwice(chain: seq<Route>)
    ensures Renumber(Renumber(chain)) == Renumber(chain)
    ensures Ordered(Renumber(chain))
  {
  }

  lemma RenumberNamed(chain: seq<Route>, a: string)
    requires Named(chain, a)
    ensures Named(Renumber(chain), a)
  {
    forall r | r in Renumber(chain) ensures r.lapiAlias == a {
      var i :| 0 <= i < |chain| && Renumber(chain)[i] == r;
      assert chain[i] in chain;
    }
  }

  /** A name's routes after numbering are its chain, numbered. */
  lemma {:induction false} NumberedOfAlias(routes: seq<Route>, aliases: seq<string>, a: string)
    requires Sorted(aliases)
    ensures OfAlias(NumberedBy(routes, aliases), a) == if a in aliases then Renumber(ChainOf(routes, a)) else []
  {
    if aliases != [] {
      var n := |aliases| - 1;
      NumberedOfAlias(routes, aliases[..n], a);
      var chain := Renumber(ChainOf(routes, aliases[n]));
      OfAliasAppend(NumberedBy(routes, aliases[..n]), chain, a);
      ChainMembers(routes, aliases[n]);
      RenumberNamed(ChainOf(routes, aliases[n]), aliases[n]);
      OfAliasNamed(chain, aliases[n], a);
      InitMembers(aliases);
      Snoc(aliases);
    }
  }

  lemma ChainAfterRenumber(routes: seq<Route>, a: string)
    ensures ChainOf(RenumberedChains(routes), a) == Renumber(ChainOf(routes, a))
    ensures OfAlias(RenumberedChains(routes), a) == Renumber(ChainOf(routes, a))
  {
    NumberedOfAlias(routes, SortedOf(AliasesIn(routes)), a);
    ChainEmpty(routes, a);
    RenumberTwice(ChainOf(routes, a));
    SortOrdered(Renumber(ChainOf(routes, a)));
    assert Renumber([]) == [];
  }

  lemma {:induction false} NumberedSame(x: seq<Route>, y: seq<Route>, aliases: seq<string>)
    requires forall a :: a in aliases ==> Renumber(ChainOf(x, a)) == Renumber(ChainOf(y, a))
    ensures NumberedBy(x, aliases) == NumberedBy(y, aliases)
  {
    if aliases != [] {
      Snoc(aliases);
      NumberedSame(x, y, aliases[..|aliases| - 1]);
    }
  }

  /** The numbered list is determined by the numbered chain of every name. */
  lemma ChainsDetermineRoutes(x: seq<Route>, y: seq<Route>)
    requires forall a :: Renumber(ChainOf(x, a)) == Renumber(ChainOf(y, a))
    ensures RenumberedChains(x) == RenumberedChains(y)
  {
    forall a ensures a in AliasesIn(x) <==> a in AliasesIn(y) {
      ChainEmpty(x, a);
      ChainEmpty(y, a);
      assert |Renumber(ChainOf(x, a))| == |Renumber(ChainOf(y, a))|;
    }
    assert AliasesIn(x) == AliasesIn(y);
    NumberedSame(x, y, SortedOf(AliasesIn(x)));
  }

  ghost predicate DistinctEndpoints(chain: seq<Route>) {
    forall i, j :: 0 <= i < j < |chain| ==> RouteEndpoint(chain[i]) != RouteEndpoint(chain[j])
  }

  /** Routes have unique keys as soon as the chain of every name has distinct endpoints. */
  lemma {:induction false} DistinctChainsUnique(routes: seq<Route>)
    requires forall a :: DistinctEndpoints(OfAlias(routes, a))
    ensures UniqueKeys(routes, KeyOfRoute)
  {
    if routes != [] {
      var init, last := routes[..|routes| - 1], routes[|routes| - 1];
      forall a ensures DistinctEndpoints(OfAlias(init, a)) {
        assert DistinctEndpoints(OfAlias(routes, a));
        assert OfAlias(init, a) <= OfAlias(routes, a);
      }
      DistinctChainsUnique(init);
      var a := last.lapiAlias;
      assert DistinctEndpoints(OfAlias(routes, a));
      OfAliasMembers(init, a);
      forall i | 0 <= i < |init| ensures KeyOfRoute(routes[i]) != KeyOfRoute(last) {
        if routes[i].lapiAlias == a {
          assert init[i] in init && init[i] in OfAlias(init, a);
          var k :| 0 <= k < |OfAlias(init, a)| && OfAlias(init, a)[k] == init[i];
          assert OfAlias(routes, a)[k] == init[i] && OfAlias(routes, a)[|OfAlias(init, a)|] == last;
        }
      }
    }
  }

  /** The chain of a table with unique keys has distinct endpoints. */
  lemma ChainDistinct(routes: seq<Route>, a: string)
    requires UniqueKeys(routes, KeyOfRoute)
    ensures DistinctEndpoints(ChainOf(routes, a))
  {
    OfAliasDistinct(routes, a);
    SortDistinct(OfAlias(routes, a));
  }

  lemma {:induction false} OfAliasDistinct(routes: seq<Route>, a: string)
    requires UniqueKeys(routes, KeyOfRoute)
    ensures DistinctEndpoints(OfAlias(routes, a))
  {
    if routes != [] {
      var init, last := routes[..|routes| - 1], routes[|routes| - 1];
      OfAliasDistinct(init, a);
      OfAliasMembers(init, a);
      var chain := OfAlias(init, a);
      if last.lapiAlias == a {
        forall i | 0 <= i < |chain| ensures RouteEndpoint(chain[i]) != RouteEndpoint(last) {
          assert chain[i] in chain && chain[i] in init;
          var k :| 0 <= k < |init| && init[k] == chain[i];
          assert KeyOfRoute(routes[k]) != KeyOfRoute(routes[|init|]);
        }
      }
    }
  }

  lemma {:induction false} InsertDistinct(chain: seq<Route>, r: Route)
    requires DistinctEndpoints(chain) && forall x :: x in chain ==> RouteEndpoint(x) != RouteEndpoint(r)
    ensures DistinctEndpoints(Insert(chain, r))
    ensures forall x :: x in Insert(chain, r) <==> x in chain || x == r
  {
    if chain != [] && chain[|chain| - 1].orderIndex > r.orderIndex {
      var init, last := chain[..|chain| - 1], chain[|chain| - 1];
      Snoc(chain);
      InsertDistinct(init, r);
      var ins := Insert(init, r);
      forall i | 0 <= i < |ins| ensures RouteEndpoint(ins[i]) != RouteEndpoint(last) {
        assert ins[i] in ins;
        if ins[i] in init {
          var k :| 0 <= k < |init| && init[k] == ins[i];
        } else {
          assert last in chain;
        }
      }
    }
  }

  lemma {:induction false} SortDistinct(chain: seq<Route>)
    requires DistinctEndpoints(chain)
    ensures DistinctEndpoints(SortStable(chain))
  {
    if chain != [] {
      var init, last := chain[..|chain| - 1], chain[|chain| - 1];
      SortDistinct(init);
      SortMembers(init);
      forall x | x in SortStable(init) ensures RouteEndpoint(x) != RouteEndpoint(last) {
        assert x in init;
        var k :| 0 <= k < |init| && init[k] == x;
      }
      InsertDistinct(SortStable(init), last);
    }
  }
}
