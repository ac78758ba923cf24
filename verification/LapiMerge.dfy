/** The merge of public names and their chains: the center keeps its name, an incomparable
    local chain survives under a new one. */
module LapiMerge {
  import opened Folds
  import opened Bundle
  import opened Tables
  import opened Names
  import opened Chains
  import opened ChainCompare

  // ---------- One name ----------

  /** A public name with the chain that is stored for it. */
  datatype Entry = Entry(lapi: LAPI, chain: seq<Route>)

  datatype Sides = Sides(
    center: map<string, LAPI>, local: map<string, LAPI>,
    centerRoutes: seq<Route>, localRoutes: seq<Route>, endpoints: set<EndpointKey>)

  datatype Decision = LocalOnly(name: string) | Compared(name: string, level: Level, renamed: string)

  function Kept(chain: seq<Route>, endpoints: set<EndpointKey>): seq<Route> {
    if chain == [] then [] else
    var last := chain[|chain| - 1];
    Kept(chain[..|chain| - 1], endpoints) + (if RouteEndpoint(last) in endpoints then [last] else [])
  }

  function Dropped(chain: seq<Route>, a: string, endpoints: set<EndpointKey>): seq<RouteKey> {
    if chain == [] then [] else
    var last := chain[|chain| - 1];
    Dropped(chain[..|chain| - 1], a, endpoints) +
      (if RouteEndpoint(last) in endpoints then [] else [RouteKey(a, RouteEndpoint(last))])
  }

  /** Kept are the routes to known endpoints, reported those to others. */
  lemma {:induction false} KeptOrDropped(chain: seq<Route>, a: string, endpoints: set<EndpointKey>)
    ensures forall r :: r in Kept(chain, endpoints) <==> r in chain && RouteEndpoint(r) in endpoints
    ensures forall k :: k in Dropped(chain, a, endpoints) <==>
      exists r :: r in chain && RouteEndpoint(r) !in endpoints && k == RouteKey(a, RouteEndpoint(r))
  {
    if chain != [] {
      var init, last := chain[..|chain| - 1], chain[|chain| - 1];
      KeptOrDropped(init, a, endpoints);
      assert chain == init + [last];
      assert forall r :: r in chain <==> r in init || r == last;
    }
  }

  function As(chain: seq<Route>, a: string): (r: seq<Route>)
    ensures |r| == |chain|
    ensures forall i :: 0 <= i < |r| ==> r[i] == chain[i].(lapiAlias := a)
  {
    seq(|chain|, i requires 0 <= i < |chain| => chain[i].(lapiAlias := a))
  }

  function MakeEntry(l: LAPI, chain: seq<Route>, a: string, endpoints: set<EndpointKey>): Entry {
    Entry(l, As(Kept(chain, endpoints), a))
  }

  function Nodes(chain: seq<Route>): (r: seq<string>)
    ensures |r| == |SortStable(chain)|
    ensures forall i :: 0 <= i < |r| ==>
      r[i] == CanonicalNode(SortStable(chain)[i].platformBaseURL, SortStable(chain)[i].model)
  {
    var s := SortStable(chain);
    seq(|s|, i requires 0 <= i < |s| => CanonicalNode(s[i].platformBaseURL, s[i].model))
  }

  ghost function LevelOf(x: Sides, a: string): Level {
    Compare(Nodes(ChainOf(x.centerRoutes, a)), Nodes(ChainOf(x.localRoutes, a)))
  }

  ghost predicate Incomparable(x: Sides, a: string) {
    a in x.center && a in x.local && (LevelOf(x, a) == L1 || LevelOf(x, a) == L3)
  }

  /** The entry that keeps the name. */
  ghost function Main(x: Sides, a: string): Entry
    requires a in x.center || a in x.local
  {
    if a in x.center && !(a in x.local && LevelOf(x, a) == L2l)
    then MakeEntry(x.center[a], ChainOf(x.centerRoutes, a), a, x.endpoints)
    else MakeEntry(x.local[a], ChainOf(x.localRoutes, a), a, x.endpoints)
  }

  /** The local entry under its new name. */
  ghost function Renamed(x: Sides, a: string, name: string): Entry
    requires a in x.local
  {
    MakeEntry(x.local[a].(alias := name), ChainOf(x.localRoutes, a), name, x.endpoints)
  }

  // ---------- New names ----------

  function Candidate(base: string, i: nat): string {
    base + "#local" + Decimal(i)
  }

  lemma CandidateInjective(base: string, i: nat, j: nat)
    requires Candidate(base, i) == Candidate(base, j)
    ensures i == j
  {
    assert Candidate(base, i)[|base| + 6..] == Decimal(i);
    assert Candidate(base, j)[|base| + 6..] == Decimal(j);
    DecimalInjective(i, j);
  }

  /** The candidates from `i` on that are taken. */
  ghost function TakenFrom(taken: set<string>, base: string, i: nat): set<string> {
    set n | n in taken && exists j: nat :: j >= i && n == Candidate(base, j)
  }

  lemma TakenShrinks(taken: set<string>, base: string, i: nat)
    requires Candidate(base, i) in taken
    ensures TakenFrom(taken, base, i + 1) < TakenFrom(taken, base, i)
  {
    assert Candidate(base, i) in TakenFrom(taken, base, i);
    if Candidate(base, i) in TakenFrom(taken, base, i + 1) {
      var j: nat :| j >= i + 1 && Candidate(base, i) == Candidate(base, j);
      CandidateInjective(base, i, j);
    }
  }

  function FreeName(taken: set<string>, base: string, i: nat): string
    decreases TakenFrom(taken, base, i)
  {
    if Candidate(base, i) !in taken then Candidate(base, i) else
    TakenShrinks(taken, base, i);
    FreeName(taken, base, i + 1)
  }

  function AllocName(taken: set<string>, base: string): string {
    if base !in taken then base else FreeName(taken, base, 2)
  }

  method AllocateName(taken: set<string>, base: string) returns (name: string)
    ensures name == AllocName(taken, base)
    ensures name !in taken
  {
    if base !in taken {
      return base;
    }
    var i := 2;
    while Candidate(base, i) in taken
      invariant FreeName(taken, base, 2) == FreeName(taken, base, i)
      decreases TakenFrom(taken, base, i)
    {
      TakenShrinks(taken, base, i);
      i := i + 1;
    }
    return Candidate(base, i);
  }

  // ---------- All names ----------

  datatype Outcome = Outcome(
    entries: seq<Entry>, taken: set<string>, decisions: seq<Decision>, dropped: seq<RouteKey>, localOnly: seq<string>)

  const START := Outcome([], {}, [], [], [])

  ghost function Emit(o: Outcome, l: LAPI, chain: seq<Route>, a: string, endpoints: set<EndpointKey>): Outcome {
    o.(entries := o.entries + [MakeEntry(l, chain, a, endpoints)], taken := o.taken + {a},
       dropped := o.dropped + Dropped(chain, a, endpoints))
  }

  ghost function MergeAlias(x: Sides, o: Outcome, a: string): Outcome
    requires a in x.center || a in x.local
  {
    var cChain, lChain := ChainOf(x.centerRoutes, a), ChainOf(x.localRoutes, a);
    if a !in x.local then Emit(o, x.center[a], cChain, a, x.endpoints)
    else if a !in x.center then
      var o1 := Emit(o, x.local[a], lChain, a, x.endpoints);
      o1.(decisions := o.decisions + [LocalOnly(a)], localOnly := o.localOnly + [a])
    else
      var level := LevelOf(x, a);
      if level == L0 || level == L2c then
        Emit(o, x.center[a], cChain, a, x.endpoints).(decisions := o.decisions + [Compared(a, level, "")])
      else if level == L2l then
        Emit(o, x.local[a], lChain, a, x.endpoints).(decisions := o.decisions + [Compared(a, level, "")])
      else
        var o1 := Emit(o, x.center[a], cChain, a, x.endpoints);
        var name := AllocName(o1.taken, a);
        var o2 := Emit(o1, x.local[a].(alias := name), lChain, name, x.endpoints);
        o2.(decisions := o.decisions + [Compared(a, level, name)], localOnly := o.localOnly + [name])
  }

  ghost predicate Known(x: Sides, aliases: seq<string>) {
    forall a :: a in aliases ==> a in x.center || a in x.local
  }

  ghost function MergeAll(x: Sides, aliases: seq<string>): Outcome
    requires Known(x, aliases)
  {
    if aliases == [] then START else
    assert aliases[|aliases| - 1] in aliases;
    MergeAlias(x, MergeAll(x, aliases[..|aliases| - 1]), aliases[|aliases| - 1])
  }

  function Rows(entries: seq<Entry>): (r: seq<LAPI>)
    ensures |r| == |entries|
    ensures forall i :: 0 <= i < |r| ==> r[i] == entries[i].lapi
  {
    seq(|entries|, i requires 0 <= i < |entries| => entries[i].lapi)
  }

  function Flatten(entries: seq<Entry>): seq<Route> {
    if entries == [] then [] else Flatten(entries[..|entries| - 1]) + entries[|entries| - 1].chain
  }

  function LapiTable(lapis: seq<LAPI>): map<string, LAPI> {
    if lapis == [] then map[] else
    LapiTable(lapis[..|lapis| - 1])[lapis[|lapis| - 1].alias := lapis[|lapis| - 1]]
  }

  ghost function AllAliases(x: Sides): seq<string> {
    SortedOf(x.center.Keys + x.local.Keys)
  }

  ghost function SidesOf(center: Bundle, local: Bundle, endpoints: set<EndpointKey>): Sides {
    Sides(LapiTable(center.lapis), LapiTable(local.lapis), center.routes, local.routes, endpoints)
  }

  ghost function MergedOutcome(center: Bundle, local: Bundle, endpoints: set<EndpointKey>): Outcome {
    var x := SidesOf(center, local, endpoints);
    MergeAll(x, AllAliases(x))
  }

  // ---------- Methods ----------

  method IndexLapis(lapis: seq<LAPI>) returns (m: map<string, LAPI>)
    ensures m == LapiTable(lapis)
  {
    m := map[];
    var i := 0;
    while i < |lapis|
      invariant 0 <= i <= |lapis|
      invariant m == LapiTable(lapis[..i])
    {
      assert lapis[..i + 1][..i] == lapis[..i];
      m := m[lapis[i].alias := lapis[i]];
      i := i + 1;
    }
    assert lapis[..i] == lapis;
  }

  method FilterChain(chain: seq<Route>, a: string, endpoints: set<EndpointKey>)
    returns (kept: seq<Route>, dropped: seq<RouteKey>)
    ensures kept == Kept(chain, endpoints) && dropped == Dropped(chain, a, endpoints)
  {
    kept, dropped := [], [];
    var i := 0;
    while i < |chain|
      invariant 0 <= i <= |chain|
      invariant kept == Kept(chain[..i], endpoints) && dropped == Dropped(chain[..i], a, endpoints)
    {
      assert chain[..i + 1][..i] == chain[..i];
      if RouteEndpoint(chain[i]) in endpoints {
        kept := kept + [chain[i]];
      } else {
        dropped := dropped + [RouteKey(a, RouteEndpoint(chain[i]))];
      }
      i := i + 1;
    }
    assert chain[..i] == chain;
  }

  function Chained(chains: map<string, seq<Route>>, a: string): seq<Route> {
    if a in chains then chains[a] else []
  }

  /** The lists that the merge appends to. */
  class Collector {
    const endpoints: set<EndpointKey>
    var lapis: seq<LAPI>
    var chains: seq<Route>
    var dropped: seq<RouteKey>
    var localOnly: seq<string>
    var decisions: seq<Decision>
    var taken: set<string>
    ghost var entries: seq<Entry>

    constructor (endpoints: set<EndpointKey>)
      ensures Collected() && View() == START && this.endpoints == endpoints
    {
      this.endpoints := endpoints;
      lapis, chains, dropped, localOnly, decisions, taken, entries := [], [], [], [], [], {}, [];
    }

    ghost function View(): Outcome
      reads this
    {
      Outcome(entries, taken, decisions, dropped, localOnly)
    }

    ghost predicate Collected()
      reads this
    {
      lapis == Rows(entries) && chains == Flatten(entries)
    }

    method EmitEntry(l: LAPI, chain: seq<Route>, a: string)
      requires Collected()
      modifies this
      ensures Collected() && View() == Emit(old(View()), l, chain, a, endpoints)
    {
      var kept, drop := FilterChain(chain, a, endpoints);
      entries := entries + [MakeEntry(l, chain, a, endpoints)];
      assert entries[..|entries| - 1] == old(entries);
      lapis := lapis + [l];
      chains := chains + As(kept, a);
      dropped := dropped + drop;
      taken := taken + {a};
    }

    method Add(x: Sides, cChain: seq<Route>, lChain: seq<Route>, a: string)
      requires Collected() && (a in x.center || a in x.local) && x.endpoints == endpoints
      requires cChain == ChainOf(x.centerRoutes, a) && lChain == ChainOf(x.localRoutes, a)
      modifies this
      ensures Collected() && View() == MergeAlias(x, old(View()), a)
    {
      if a !in x.local {
        EmitEntry(x.center[a], cChain, a);
      } else if a !in x.center {
        EmitEntry(x.local[a], lChain, a);
        localOnly := localOnly + [a];
        decisions := decisions + [LocalOnly(a)];
      } else {
        var level := CompareNodes(Nodes(cChain), Nodes(lChain));
        if level == L0 || level == L2c {
          EmitEntry(x.center[a], cChain, a);
          decisions := decisions + [Compared(a, level, "")];
        } else if level == L2l {
          EmitEntry(x.local[a], lChain, a);
          decisions := decisions + [Compared(a, level, "")];
        } else {
          AddBoth(x.center[a], cChain, x.local[a], lChain, a, level);
        }
      }
    }

    /** Incomparable chains: the center keeps the name, the local one gets a new one. */
    method AddBoth(c: LAPI, cChain: seq<Route>, l: LAPI, lChain: seq<Route>, a: string, level: Level)
      requires Collected()
      modifies this
      ensures Collected()
      ensures
        var o1 := Emit(old(View()), c, cChain, a, endpoints);
        var name := AllocName(o1.taken, a);
        var o2 := Emit(o1, l.(alias := name), lChain, name, endpoints);
        View() == o2.(decisions := old(decisions) + [Compared(a, level, name)], localOnly := old(localOnly) + [name])
    {
      EmitEntry(c, cChain, a);
      var name := AllocateName(taken, a);
      EmitEntry(l.(alias := name), lChain, name);
      decisions := decisions + [Compared(a, level, name)];
      localOnly := localOnly + [name];
    }
  }

  lemma MergeAllStep(x: Sides, aliases: seq<string>, i: nat)
    requires Known(x, aliases) && i < |aliases|
    ensures Known(x, aliases[..i]) && Known(x, aliases[..i + 1])
    ensures aliases[i] in x.center || aliases[i] in x.local
    ensures MergeAll(x, aliases[..i + 1]) == MergeAlias(x, MergeAll(x, aliases[..i]), aliases[i])
  {
    assert aliases[i] in aliases;
    assert aliases[..i + 1][..i] == aliases[..i];
  }

  method MergeEach(x: Sides, centerChains: map<string, seq<Route>>, localChains: map<string, seq<Route>>,
      aliases: seq<string>)
    returns (c: Collector)
    requires Known(x, aliases)
    requires forall a :: Chained(centerChains, a) == ChainOf(x.centerRoutes, a)
    requires forall a :: Chained(localChains, a) == ChainOf(x.localRoutes, a)
    ensures c.Collected() && c.View() == MergeAll(x, aliases)
  {
    c := new Collector(x.endpoints);
    var i := 0;
    while i < |aliases|
      invariant 0 <= i <= |aliases|
      invariant Known(x, aliases[..i]) && c.Collected() && c.endpoints == x.endpoints && fresh(c)
      invariant c.View() == MergeAll(x, aliases[..i])
    {
      MergeAllStep(x, aliases, i);
      c.Add(x, Chained(centerChains, aliases[i]), Chained(localChains, aliases[i]), aliases[i]);
      i := i + 1;
    }
    assert aliases[..i] == aliases;
  }

  lemma ChainedIs(routes: seq<Route>, chains: map<string, seq<Route>>)
    requires chains.Keys == AliasesIn(routes) && forall a :: a in chains ==> chains[a] == ChainOf(routes, a)
    ensures forall a :: Chained(chains, a) == ChainOf(routes, a)
  {
    forall a ensures Chained(chains, a) == ChainOf(routes, a) {
      ChainEmpty(routes, a);
    }
  }

  method MergeLapisAndChains(center: Bundle, local: Bundle, endpoints: set<EndpointKey>)
    returns (lapis: seq<LAPI>, routes: seq<Route>, dropped: seq<RouteKey>, localOnly: seq<string>,
      decisions: seq<Decision>)
    ensures
      var o := MergedOutcome(center, local, endpoints);
      && lapis == Rows(o.entries) && routes == RenumberedChains(Flatten(o.entries))
      && dropped == o.dropped && localOnly == o.localOnly && decisions == o.decisions
  {
    var centerChains := GroupChain(center.routes);
    var localChains := GroupChain(local.routes);
    var centerLapis := IndexLapis(center.lapis);
    var localLapis := IndexLapis(local.lapis);
    ChainedIs(center.routes, centerChains);
    ChainedIs(local.routes, localChains);
    var x := Sides(centerLapis, localLapis, center.routes, local.routes, endpoints);
    var aliases := SortAliases(centerLapis.Keys + localLapis.Keys);
    var c := MergeEach(x, centerChains, localChains, aliases);
    var numbered := RenumberChains(c.chains);
    return c.lapis, numbered, c.dropped, c.localOnly, c.decisions;
  }
}
