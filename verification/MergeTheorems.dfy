/** What the merge of two valid snapshots is: when it succeeds, where every row comes from,
    and that merging it again changes nothing. */
module MergeTheorems {
  import opened Folds
  import opened Bundle
  import opened Tables
  import opened Names
  import opened RowMerge
  import opened Chains
  import opened ChainCompare
  import opened LapiMerge
  import LapiProofs
  import opened LapiCollision
  import opened BundleMerge

  // ---------- Pieces of validity ----------

  ghost predicate ValidPlatforms(b: Bundle) {
    AllGood(b.platforms, GoodPlatform) && UniqueKeys(b.platforms, PlatformKey)
  }

  ghost predicate ValidCredentials(b: Bundle) {
    (forall c :: c in b.credentials ==> GoodCredential(c, KeysOf(b.platforms, PlatformKey)))
    && UniqueKeys(b.credentials, CredKey)
  }

  ghost predicate ValidRapis(b: Bundle) {
    (forall r :: r in b.rapis ==> GoodRapi(r, KeysOf(b.platforms, PlatformKey))) && UniqueKeys(b.rapis, RapiKey)
  }

  ghost predicate ValidBindings(b: Bundle) {
    (forall d :: d in b.bindings ==> GoodBinding(d, KeysOf(b.rapis, RapiKey), KeysOf(b.credentials, CredKey)))
    && UniqueKeys(b.bindings, BindKey)
  }

  ghost predicate ValidLapis(b: Bundle) {
    AllGood(b.lapis, GoodLapi) && UniqueKeys(b.lapis, LapiKey)
  }

  ghost predicate ValidRoutes(b: Bundle) {
    (forall o :: o in b.routes ==> GoodRoute(o, KeysOf(b.lapis, LapiKey), KeysOf(b.rapis, RapiKey)))
    && UniqueKeys(b.routes, KeyOfRoute)
  }

  lemma ValidParts(b: Bundle)
    ensures Valid(b) <==>
      ValidPlatforms(b) && ValidCredentials(b) && ValidRapis(b) && ValidBindings(b) && ValidLapis(b) && ValidRoutes(b)
  {
  }

  lemma {:induction false} WhereAll<R>(rows: seq<R>, ok: R -> bool)
    requires forall r :: r in rows ==> ok(r)
    ensures Where(rows, ok) == rows
  {
    if rows != [] {
      Snoc(rows);
      WhereAll(rows[..|rows| - 1], ok);
    }
  }

  // ---------- Rows ----------

  /** The merge drops no endpoint and no binding of a valid side. */
  lemma RapisKept(center: Bundle, local: Bundle, rule: Rule)
    requires Valid(center) && Valid(local)
    ensures MergedRapis(center, local, rule) == MergedRows(center.rapis, local.rapis, RapiKey, rule == CenterWins)
  {
    MergedKeys(center.platforms, local.platforms, PlatformKey, rule == CenterWins);
    MergedKeys(center.rapis, local.rapis, RapiKey, rule == CenterWins);
    WhereAll(MergedRows(center.rapis, local.rapis, RapiKey, rule == CenterWins),
             HasPlatform(KeysOf(MergedPlatforms(center, local, rule), PlatformKey)));
  }

  lemma MergedTablesValid(center: Bundle, local: Bundle, rule: Rule)
    requires Valid(center) && Valid(local)
    ensures ValidPlatforms(Merged(center, local, rule)) && ValidCredentials(Merged(center, local, rule))
  {
    MergedKeys(center.platforms, local.platforms, PlatformKey, rule == CenterWins);
    MergedKeys(center.credentials, local.credentials, CredKey, rule == CenterWins);
  }

  lemma MergedRapisValid(center: Bundle, local: Bundle, rule: Rule)
    requires Valid(center) && Valid(local)
    ensures ValidRapis(Merged(center, local, rule))
  {
    RapisKept(center, local, rule);
    MergedKeys(center.platforms, local.platforms, PlatformKey, rule == CenterWins);
    MergedKeys(center.rapis, local.rapis, RapiKey, rule == CenterWins);
  }

  lemma MergedEnds(center: Bundle, local: Bundle, rule: Rule, d: Binding)
    requires Valid(center) && Valid(local) && (d in center.bindings || d in local.bindings)
    ensures GoodBinding(d, KeysOf(MergedRapis(center, local, rule), RapiKey),
                        KeysOf(MergedCredentials(center, local, rule), CredKey))
  {
    RapisKept(center, local, rule);
    MergedKeys(center.credentials, local.credentials, CredKey, rule == CenterWins);
    MergedKeys(center.rapis, local.rapis, RapiKey, rule == CenterWins);
  }

  lemma BindingsKept(center: Bundle, local: Bundle, rule: Rule)
    requires Valid(center) && Valid(local)
    ensures MergedBindings(center, local, rule) ==
      MergedRows(center.bindings, local.bindings, BindKey, rule == CenterWins)
    ensures ValidBindings(Merged(center, local, rule))
  {
    MergedKeys(center.bindings, local.bindings, BindKey, rule == CenterWins);
    var rows := MergedRows(center.bindings, local.bindings, BindKey, rule == CenterWins);
    var eps := KeysOf(MergedRapis(center, local, rule), RapiKey);
    var creds := KeysOf(MergedCredentials(center, local, rule), CredKey);
    forall d | d in rows ensures GoodBinding(d, eps, creds) {
      MergedEnds(center, local, rule, d);
    }
    WhereAll(rows, HasEnds(eps, creds));
  }

  // ---------- Names ----------

  lemma {:induction false} LapiTableIs(lapis: seq<LAPI>)
    ensures LapiTable(lapis).Keys == KeysOf(lapis, LapiKey)
    ensures forall a :: a in LapiTable(lapis) ==> LapiTable(lapis)[a] in lapis && LapiTable(lapis)[a].alias == a
  {
    if lapis != [] {
      LapiTableIs(lapis[..|lapis| - 1]);
      Snoc(lapis);
      KeysSnoc(lapis[..|lapis| - 1], lapis[|lapis| - 1], LapiKey);
    }
  }

  /** The sides of the merge of two valid snapshots. */
  ghost function SidesFor(center: Bundle, local: Bundle, rule: Rule): Sides {
    SidesOf(center, local, KeysOf(MergedRapis(center, local, rule), RapiKey))
  }

  ghost predicate Covered(routes: seq<Route>, endpoints: set<EndpointKey>) {
    forall r :: r in routes ==> RouteEndpoint(r) in endpoints
  }

  /** What a merge of valid snapshots starts from. */
  ghost predicate Sound(x: Sides) {
    && LapiProofs.Indexed(x)
    && Covered(x.centerRoutes, x.endpoints) && Covered(x.localRoutes, x.endpoints)
    && UniqueKeys(x.centerRoutes, KeyOfRoute) && UniqueKeys(x.localRoutes, KeyOfRoute)
  }

  lemma SidesSound(center: Bundle, local: Bundle, rule: Rule)
    requires Valid(center) && Valid(local)
    ensures Sound(SidesFor(center, local, rule))
  {
    RapisKept(center, local, rule);
    MergedKeys(center.rapis, local.rapis, RapiKey, rule == CenterWins);
    LapiTableIs(center.lapis);
    LapiTableIs(local.lapis);
  }

  lemma CoveredChain(routes: seq<Route>, a: string, endpoints: set<EndpointKey>)
    requires Covered(routes, endpoints)
    ensures Kept(ChainOf(routes, a), endpoints) == ChainOf(routes, a)
    ensures forall n :: Dropped(ChainOf(routes, a), n, endpoints) == []
  {
    ChainMembers(routes, a);
    LapiProofs.KeptIs(ChainOf(routes, a), endpoints);
  }

  lemma EmitDropped(o: Outcome, l: LAPI, routes: seq<Route>, a: string, n: string, endpoints: set<EndpointKey>)
    requires Covered(routes, endpoints)
    ensures Emit(o, l, ChainOf(routes, a), n, endpoints).dropped == o.dropped
  {
    CoveredChain(routes, a, endpoints);
    assert Dropped(ChainOf(routes, a), n, endpoints) == [];
  }

  lemma NothingDroppedAt(x: Sides, o: Outcome, a: string)
    requires Sound(x) && (a in x.center || a in x.local)
    ensures MergeAlias(x, o, a).dropped == o.dropped
  {
    if a in x.center {
      EmitDropped(o, x.center[a], x.centerRoutes, a, a, x.endpoints);
    }
    if a in x.local {
      EmitDropped(o, x.local[a], x.localRoutes, a, a, x.endpoints);
    }
    if Incomparable(x, a) {
      var o1 := Emit(o, x.center[a], ChainOf(x.centerRoutes, a), a, x.endpoints);
      var n := AllocName(o1.taken, a);
      EmitDropped(o1, x.local[a].(alias := n), x.localRoutes, a, n, x.endpoints);
    }
  }

  ghost function DroppedAt(x: Sides, aliases: seq<string>, n: nat): seq<RouteKey>
    requires Known(x, aliases) && n <= |aliases|
  {
    MergeAll(x, aliases[..n]).dropped
  }

  lemma DroppedStep(x: Sides, aliases: seq<string>, n: nat)
    requires Sound(x) && Known(x, aliases) && n < |aliases|
    ensures DroppedAt(x, aliases, n + 1) == DroppedAt(x, aliases, n)
  {
    MergeAllStep(x, aliases, n);
    NothingDroppedAt(x, MergeAll(x, aliases[..n]), aliases[n]);
  }

  lemma {:induction false} NothingDropped(x: Sides, aliases: seq<string>, n: nat)
    requires Sound(x) && Known(x, aliases) && n <= |aliases|
    ensures DroppedAt(x, aliases, n) == []
  {
    if n > 0 {
      NothingDropped(x, aliases, n - 1);
      DroppedStep(x, aliases, n - 1);
    }
  }

  lemma NothingDroppedAtAll(x: Sides)
    requires Sound(x)
    ensures MergeAll(x, AllAliases(x)).dropped == []
  {
    NothingDropped(x, AllAliases(x), |AllAliases(x)|);
    assert AllAliases(x)[..|AllAliases(x)|] == AllAliases(x);
  }

  // ---------- The chain of an entry ----------

  lemma AsSame(chain: seq<Route>, a: string)
    requires Named(chain, a)
    ensures As(chain, a) == chain
  {
    forall i | 0 <= i < |chain| ensures As(chain, a)[i] == chain[i] {
      assert chain[i] in chain;
    }
  }

  /** A kept chain is stored as it is, under the name it is emitted for. */
  lemma EntryChain(l: LAPI, routes: seq<Route>, b: string, n: string, endpoints: set<EndpointKey>)
    requires Covered(routes, endpoints)
    ensures MakeEntry(l, ChainOf(routes, b), n, endpoints).chain == As(ChainOf(routes, b), n)
    ensures MakeEntry(l, ChainOf(routes, b), b, endpoints).chain == ChainOf(routes, b)
  {
    CoveredChain(routes, b, endpoints);
    ChainMembers(routes, b);
    AsSame(ChainOf(routes, b), b);
  }

  // ---------- The merged names and chains ----------

  /** The side that keeps a name. */
  ghost predicate CenterKeeps(x: Sides, a: string) {
    a in x.center && !(a in x.local && LevelOf(x, a) == L2l)
  }

  ghost function KeptRow(x: Sides, a: string): LAPI
    requires a in x.center || a in x.local
  {
    if CenterKeeps(x, a) then x.center[a] else x.local[a]
  }

  ghost function KeptRoutes(x: Sides, a: string): seq<Route> {
    if CenterKeeps(x, a) then x.centerRoutes else x.localRoutes
  }

  lemma MainIs(x: Sides, a: string)
    requires Sound(x) && (a in x.center || a in x.local)
    ensures Main(x, a) == Entry(KeptRow(x, a), ChainOf(KeptRoutes(x, a), a))
  {
    EntryChain(KeptRow(x, a), KeptRoutes(x, a), a, a, x.endpoints);
  }

  lemma RenamedIs(x: Sides, a: string, n: string)
    requires Sound(x) && a in x.local
    ensures Renamed(x, a, n) == Entry(x.local[a].(alias := n), As(ChainOf(x.localRoutes, a), n))
  {
    EntryChain(x.local[a].(alias := n), x.localRoutes, a, n, x.endpoints);
  }

  ghost function AllEntries(x: Sides): seq<Entry> {
    MergeAll(x, AllAliases(x)).entries
  }

  /** The entries: one per name, and one more per incomparable name. */
  lemma EntriesAre(x: Sides)
    requires Sound(x) && LapiProofs.RenameFree(x)
    ensures UniqueKeys(AllEntries(x), LapiProofs.EntryName)
    ensures forall e :: e in AllEntries(x) ==> LapiProofs.GoodChain(e) && exists a :: LapiProofs.FromName(x, e, a)
    ensures forall e, a :: LapiProofs.FromName(x, e, a) ==> e in AllEntries(x)
  {
    var aliases := AllAliases(x);
    LapiProofs.TidyAll(x, aliases);
    forall e | e in AllEntries(x) ensures LapiProofs.GoodChain(e) && exists a :: LapiProofs.FromName(x, e, a) {
      assert LapiProofs.FromNames(x, aliases, e);
      var a :| a in aliases && LapiProofs.FromName(x, e, a);
      LapiProofs.FromNameGood(x, e, a);
    }
    forall e, a | LapiProofs.FromName(x, e, a) ensures e in AllEntries(x) {
      assert a in aliases;
      assert LapiProofs.FromNames(x, aliases, e);
    }
  }

  ghost function MergedRoutes(x: Sides): seq<Route> {
    RenumberedChains(Flatten(AllEntries(x)))
  }

  lemma EntryRoutes(x: Sides, e: Entry)
    requires Sound(x) && LapiProofs.RenameFree(x) && e in AllEntries(x)
    ensures ChainOf(MergedRoutes(x), LapiProofs.EntryName(e)) == Renumber(e.chain)
    ensures OfAlias(MergedRoutes(x), LapiProofs.EntryName(e)) == Renumber(e.chain)
  {
    EntriesAre(x);
    LapiProofs.FlattenChain(AllEntries(x), LapiProofs.EntryName(e));
    ChainAfterRenumber(Flatten(AllEntries(x)), LapiProofs.EntryName(e));
  }

  lemma NoEntryRoutes(x: Sides, n: string)
    requires Sound(x) && LapiProofs.RenameFree(x) && n !in KeysOf(AllEntries(x), LapiProofs.EntryName)
    ensures OfAlias(MergedRoutes(x), n) == []
  {
    EntriesAre(x);
    LapiProofs.FlattenChain(AllEntries(x), n);
    ChainAfterRenumber(Flatten(AllEntries(x)), n);
  }

  // ---------- The merge succeeds exactly when no new name collides ----------

  lemma {:induction false} TrimLeftKeeps(s: string, i: nat)
    requires i < |s| && !IsSpace(s[i])
    ensures TrimLeft(s) != "" && !IsSpace(TrimLeft(s)[0])
  {
    if IsSpace(s[0]) {
      TrimLeftKeeps(s[1..], i - 1);
    }
  }

  lemma {:induction false} TrimRightKeeps(s: string)
    requires s != "" && !IsSpace(s[0])
    ensures TrimRight(s) != ""
  {
    if IsSpace(s[|s| - 1]) {
      TrimRightKeeps(s[..|s| - 1]);
    }
  }

  lemma NewNameNotBlank(a: string)
    ensures Trim(LapiProofs.NewName(a)) != ""
  {
    assert LapiProofs.NewName(a)[|a|] == '#';
    TrimLeftKeeps(LapiProofs.NewName(a), |a|);
    TrimRightKeeps(TrimLeft(LapiProofs.NewName(a)));
  }

  ghost predicate NotBlank(x: Sides) {
    forall a :: a in x.center || a in x.local ==> Trim(a) != ""
  }

  lemma NamesNotBlank(lapis: seq<LAPI>)
    requires AllGood(lapis, GoodLapi)
    ensures forall a :: a in LapiTable(lapis) ==> Trim(a) != ""
  {
    LapiTableIs(lapis);
    forall a | a in LapiTable(lapis) ensures Trim(a) != "" {
      assert GoodLapi(LapiTable(lapis)[a]);
    }
  }

  lemma RowsUnique(entries: seq<Entry>)
    ensures UniqueKeys(Rows(entries), LapiKey) <==> UniqueKeys(entries, LapiProofs.EntryName)
    ensures KeysOf(Rows(entries), LapiKey) == KeysOf(entries, LapiProofs.EntryName)
  {
    RowKeys(entries);
    if UniqueKeys(Rows(entries), LapiKey) {
      forall i, j | 0 <= i < j < |entries|
        ensures LapiProofs.EntryName(entries[i]) != LapiProofs.EntryName(entries[j])
      {
        assert LapiKey(Rows(entries)[i]) != LapiKey(Rows(entries)[j]);
      }
    }
  }

  lemma RowKeys(entries: seq<Entry>)
    ensures KeysOf(Rows(entries), LapiKey) == KeysOf(entries, LapiProofs.EntryName)
  {
    var rows := Rows(entries);
    forall k ensures k in KeysOf(rows, LapiKey) <==> k in KeysOf(entries, LapiProofs.EntryName) {
      if k in KeysOf(rows, LapiKey) {
        var l :| l in rows && LapiKey(l) == k;
        var i :| 0 <= i < |rows| && rows[i] == l;
        assert entries[i] in entries;
      }
      if k in KeysOf(entries, LapiProofs.EntryName) {
        var e :| e in entries && LapiProofs.EntryName(e) == k;
        var i :| 0 <= i < |entries| && entries[i] == e;
        assert rows[i] in rows;
      }
    }
  }

  lemma RowGood(x: Sides, e: Entry, a: string)
    requires Sound(x) && NotBlank(x) && LapiProofs.FromName(x, e, a)
    ensures GoodLapi(e.lapi)
  {
    NewNameNotBlank(a);
    LapiProofs.MainName(x, a);
  }

  lemma NamesValid(x: Sides)
    requires Sound(x) && NotBlank(x) && LapiProofs.RenameFree(x)
    ensures AllGood(Rows(AllEntries(x)), GoodLapi) && UniqueKeys(Rows(AllEntries(x)), LapiKey)
  {
    EntriesAre(x);
    RowsUnique(AllEntries(x));
    forall l | l in Rows(AllEntries(x)) ensures GoodLapi(l) {
      var i :| 0 <= i < |AllEntries(x)| && Rows(AllEntries(x))[i] == l;
      var e := AllEntries(x)[i];
      assert e in AllEntries(x);
      var a :| LapiProofs.FromName(x, e, a);
      RowGood(x, e, a);
    }
  }

  /** Endpoints of an entry's chain are known and distinct. */
  ghost predicate CleanChain(chain: seq<Route>, endpoints: set<EndpointKey>) {
    Covered(chain, endpoints) && DistinctEndpoints(chain)
  }

  lemma CleanAs(routes: seq<Route>, a: string, n: string, endpoints: set<EndpointKey>)
    requires Covered(routes, endpoints) && UniqueKeys(routes, KeyOfRoute)
    ensures CleanChain(Renumber(As(ChainOf(routes, a), n)), endpoints)
    ensures CleanChain(Renumber(ChainOf(routes, a)), endpoints)
  {
    ChainDistinct(routes, a);
    ChainMembers(routes, a);
    var chain := ChainOf(routes, a);
    forall i | 0 <= i < |chain| ensures RouteEndpoint(chain[i]) in endpoints {
      assert chain[i] in chain;
    }
  }

  lemma EntryClean(x: Sides, e: Entry, a: string)
    requires Sound(x) && LapiProofs.FromName(x, e, a)
    ensures CleanChain(Renumber(e.chain), x.endpoints)
  {
    MainIs(x, a);
    CleanAs(KeptRoutes(x, a), a, a, x.endpoints);
    if Incomparable(x, a) {
      RenamedIs(x, a, LapiProofs.NewName(a));
      CleanAs(x.localRoutes, a, LapiProofs.NewName(a), x.endpoints);
    }
  }

  lemma AliasRoutesClean(x: Sides, n: string)
    requires Sound(x) && LapiProofs.RenameFree(x)
    ensures CleanChain(OfAlias(MergedRoutes(x), n), x.endpoints)
    ensures OfAlias(MergedRoutes(x), n) != [] ==> n in KeysOf(AllEntries(x), LapiProofs.EntryName)
  {
    EntriesAre(x);
    if n in KeysOf(AllEntries(x), LapiProofs.EntryName) {
      var e :| e in AllEntries(x) && LapiProofs.EntryName(e) == n;
      var a :| LapiProofs.FromName(x, e, a);
      EntryRoutes(x, e);
      EntryClean(x, e, a);
    } else {
      NoEntryRoutes(x, n);
    }
  }

  lemma RoutesValid(x: Sides)
    requires Sound(x) && LapiProofs.RenameFree(x)
    ensures UniqueKeys(MergedRoutes(x), KeyOfRoute)
    ensures forall o :: o in MergedRoutes(x) ==> GoodRoute(o, KeysOf(Rows(AllEntries(x)), LapiKey), x.endpoints)
  {
    RowKeys(AllEntries(x));
    forall n ensures DistinctEndpoints(OfAlias(MergedRoutes(x), n)) {
      AliasRoutesClean(x, n);
    }
    DistinctChainsUnique(MergedRoutes(x));
    forall o | o in MergedRoutes(x) ensures GoodRoute(o, KeysOf(Rows(AllEntries(x)), LapiKey), x.endpoints) {
      OfAliasMembers(MergedRoutes(x), o.lapiAlias);
      AliasRoutesClean(x, o.lapiAlias);
      assert o in OfAlias(MergedRoutes(x), o.lapiAlias);
    }
  }

  lemma MergedParts(center: Bundle, local: Bundle, rule: Rule)
    ensures
      var x, m := SidesFor(center, local, rule), Merged(center, local, rule);
      m.lapis == Rows(AllEntries(x)) && m.routes == MergedRoutes(x) && KeysOf(m.rapis, RapiKey) == x.endpoints
  {
  }

  /** Two valid snapshots merge exactly when no input name is the first new name of an incomparable
      pair, and then no endpoint, binding or chain node is dropped. */
  lemma MergeSucceedsIff(center: Bundle, local: Bundle, rule: Rule)
    requires Valid(center) && Valid(local)
    ensures Valid(Merged(center, local, rule)) <==> LapiProofs.RenameFree(SidesFor(center, local, rule))
    ensures MergedRapis(center, local, rule) == MergedRows(center.rapis, local.rapis, RapiKey, rule == CenterWins)
    ensures MergedBindings(center, local, rule) ==
      MergedRows(center.bindings, local.bindings, BindKey, rule == CenterWins)
    ensures LapiOutcome(center, local, rule).dropped == []
  {
    var x, m := SidesFor(center, local, rule), Merged(center, local, rule);
    SidesSound(center, local, rule);
    MergedParts(center, local, rule);
    RapisKept(center, local, rule);
    BindingsKept(center, local, rule);
    NothingDroppedAtAll(x);
    ValidParts(m);
    if LapiProofs.RenameFree(x) {
      MergedTablesValid(center, local, rule);
      MergedRapisValid(center, local, rule);
      NamesNotBlank(center.lapis);
      NamesNotBlank(local.lapis);
      NamesValid(x);
      RoutesValid(x);
    } else {
      Collides(x);
      RowsUnique(AllEntries(x));
    }
  }

  /** So it succeeds on every two valid snapshots whose names lack the marker. */
  lemma MergeSucceedsWithoutMarker(center: Bundle, local: Bundle, rule: Rule)
    requires Valid(center) && Valid(local)
    requires forall l :: l in center.lapis || l in local.lapis ==> !Contains(l.alias, "#local")
    ensures Valid(Merged(center, local, rule))
  {
    LapiTableIs(center.lapis);
    LapiTableIs(local.lapis);
    NoMarkerRenameFree(SidesFor(center, local, rule));
    MergeSucceedsIff(center, local, rule);
  }

  // ---------- Every chain comes from one side ----------

  lemma ValidSides(center: Bundle, local: Bundle, rule: Rule)
    requires Valid(center) && Valid(local) && Valid(Merged(center, local, rule))
    ensures Sound(SidesFor(center, local, rule)) && LapiProofs.RenameFree(SidesFor(center, local, rule))
  {
    SidesSound(center, local, rule);
    MergeSucceedsIff(center, local, rule);
  }

  lemma EntryEmitted(x: Sides, e: Entry, a: string)
    requires Sound(x) && LapiProofs.RenameFree(x) && LapiProofs.FromName(x, e, a)
    ensures e.lapi in Rows(AllEntries(x))
    ensures OfAlias(MergedRoutes(x), LapiProofs.EntryName(e)) == Renumber(e.chain)
  {
    EntriesAre(x);
    EntryRoutes(x, e);
    var i :| 0 <= i < |AllEntries(x)| && AllEntries(x)[i] == e;
    assert Rows(AllEntries(x))[i] == e.lapi;
  }

  /** What the merge stores for the name `a`. */
  ghost predicate StoredFromOneSide(x: Sides, lapis: seq<LAPI>, routes: seq<Route>, a: string)
    requires a in x.center || a in x.local
  {
    && KeptRow(x, a) in lapis && KeptRow(x, a).alias == a
    && OfAlias(routes, a) == Renumber(ChainOf(KeptRoutes(x, a), a))
    && (Incomparable(x, a) ==> StoredRenamed(x, lapis, routes, a, LapiProofs.NewName(a)))
  }

  ghost predicate StoredRenamed(x: Sides, lapis: seq<LAPI>, routes: seq<Route>, a: string, n: string)
    requires a in x.local
  {
    && x.local[a].(alias := n) in lapis
    && OfAlias(routes, n) == Renumber(As(ChainOf(x.localRoutes, a), n))
  }

  lemma NameStored(x: Sides, a: string)
    requires Sound(x) && LapiProofs.RenameFree(x) && (a in x.center || a in x.local)
    ensures StoredFromOneSide(x, Rows(AllEntries(x)), MergedRoutes(x), a)
  {
    MainIs(x, a);
    EntryEmitted(x, Main(x, a), a);
    if Incomparable(x, a) {
      RenamedIs(x, a, LapiProofs.NewName(a));
      EntryEmitted(x, Renamed(x, a, LapiProofs.NewName(a)), a);
    }
  }

  /** A public name keeps the row and the whole chain of one side: the local one exactly when only
      the local side has the name or its chain properly extends the center's; the chain keeps that
      side's order and is numbered from 0. An incomparable local name lives on under a new name. */
  lemma ChainsFromOneSide(center: Bundle, local: Bundle, rule: Rule, a: string)
    requires Valid(center) && Valid(local) && Valid(Merged(center, local, rule))
    requires a in SidesFor(center, local, rule).center || a in SidesFor(center, local, rule).local
    ensures
      var m := Merged(center, local, rule);
      StoredFromOneSide(SidesFor(center, local, rule), m.lapis, m.routes, a)
  {
    ValidSides(center, local, rule);
    MergedParts(center, local, rule);
    NameStored(SidesFor(center, local, rule), a);
  }

  lemma NameAbsent(x: Sides, n: string)
    requires Sound(x) && LapiProofs.RenameFree(x)
    requires n !in x.center && n !in x.local && forall a :: Incomparable(x, a) ==> n != LapiProofs.NewName(a)
    ensures n !in KeysOf(Rows(AllEntries(x)), LapiKey) && OfAlias(MergedRoutes(x), n) == []
  {
    EntriesAre(x);
    RowKeys(AllEntries(x));
    forall e | e in AllEntries(x) ensures LapiProofs.EntryName(e) != n {
      var a :| LapiProofs.FromName(x, e, a);
      LapiProofs.MainName(x, a);
    }
    NoEntryRoutes(x, n);
  }

  /** There are no other names, and no routes under any other name. */
  lemma NoOtherNames(center: Bundle, local: Bundle, rule: Rule, n: string)
    requires Valid(center) && Valid(local) && Valid(Merged(center, local, rule))
    requires
      var x := SidesFor(center, local, rule);
      n !in x.center && n !in x.local && forall a :: Incomparable(x, a) ==> n != LapiProofs.NewName(a)
    ensures n !in KeysOf(Merged(center, local, rule).lapis, LapiKey)
    ensures OfAlias(Merged(center, local, rule).routes, n) == []
  {
    ValidSides(center, local, rule);
    MergedParts(center, local, rule);
    NameAbsent(SidesFor(center, local, rule), n);
  }

  // ---------- Absorption ----------

  lemma NodesRenumber(chain: seq<Route>)
    requires Ordered(chain)
    ensures Nodes(Renumber(chain)) == Nodes(chain)
  {
    RenumberTwice(chain);
    SortOrdered(chain);
    SortOrdered(Renumber(chain));
  }

  /** The second merge sees the first one as its local side. */
  ghost predicate Remerge(x: Sides, y: Sides) {
    && y.center == x.center && y.centerRoutes == x.centerRoutes && y.endpoints == x.endpoints
    && y.local == LapiTable(Rows(AllEntries(x))) && y.localRoutes == MergedRoutes(x)
  }

  lemma RemergeLocal(x: Sides, y: Sides, e: Entry)
    requires Sound(x) && LapiProofs.RenameFree(x) && Remerge(x, y) && e in AllEntries(x)
    ensures LapiProofs.EntryName(e) in y.local && y.local[LapiProofs.EntryName(e)] == e.lapi
    ensures ChainOf(y.localRoutes, LapiProofs.EntryName(e)) == Renumber(e.chain)
  {
    var rows, n := Rows(AllEntries(x)), LapiProofs.EntryName(e);
    EntriesAre(x);
    EntryRoutes(x, e);
    RowsUnique(AllEntries(x));
    LapiTableIs(rows);
    assert n in KeysOf(AllEntries(x), LapiProofs.EntryName);
    var i :| 0 <= i < |AllEntries(x)| && AllEntries(x)[i] == e;
    assert rows[i] == e.lapi && rows[i] in rows;
    UniqueRow(rows, LapiKey, y.local[n], e.lapi);
  }

  /** Against its own center a merged chain is the same chain or a longer one. */
  lemma RemergeLevel(x: Sides, y: Sides, a: string)
    requires Sound(x) && LapiProofs.RenameFree(x) && Remerge(x, y) && a in x.center
    ensures a in y.local && LevelOf(y, a) == if CenterKeeps(x, a) then L0 else L2l
  {
    EntriesAre(x);
    assert LapiProofs.FromName(x, Main(x, a), a);
    LapiProofs.MainName(x, a);
    RemergeLocal(x, y, Main(x, a));
    MainIs(x, a);
    ChainMembers(KeptRoutes(x, a), a);
    NodesRenumber(ChainOf(KeptRoutes(x, a), a));
  }

  lemma NeverRenamedAgain(x: Sides, y: Sides)
    requires Sound(x) && LapiProofs.RenameFree(x) && Remerge(x, y)
    ensures forall a :: !Incomparable(y, a)
    ensures Sound(y) && LapiProofs.RenameFree(y)
  {
    forall a ensures !Incomparable(y, a) {
      if a in x.center {
        RemergeLevel(x, y, a);
      }
    }
    LapiTableIs(Rows(AllEntries(x)));
    RoutesValid(x);
  }

  /** The second merge stores the same row and the same numbered chain for a name. */
  lemma SameMain(x: Sides, y: Sides, e: Entry)
    requires Sound(x) && LapiProofs.RenameFree(x) && Remerge(x, y) && e in AllEntries(x)
    ensures
      var n := LapiProofs.EntryName(e);
      && n in y.local && Main(y, n).lapi == e.lapi && Renumber(Main(y, n).chain) == Renumber(e.chain)
  {
    var n := LapiProofs.EntryName(e);
    RemergeLocal(x, y, e);
    NeverRenamedAgain(x, y);
    MainIs(y, n);
    RenumberTwice(e.chain);
    if n in x.center {
      RemergeLevel(x, y, n);
      MainIs(x, n);
      EntriesAre(x);
      assert LapiProofs.FromName(x, Main(x, n), n);
      UniqueRow(AllEntries(x), LapiProofs.EntryName, e, Main(x, n));
    }
  }

  /** The entry of a name of the second merge. */
  lemma RemergeNames(x: Sides, y: Sides, n: string) returns (e: Entry)
    requires Sound(x) && LapiProofs.RenameFree(x) && Remerge(x, y) && (n in y.center || n in y.local)
    ensures e in AllEntries(x) && LapiProofs.EntryName(e) == n
  {
    EntriesAre(x);
    if n in x.center {
      e := Main(x, n);
      assert LapiProofs.FromName(x, e, n);
      LapiProofs.MainName(x, n);
    } else {
      LapiTableIs(Rows(AllEntries(x)));
      RowKeys(AllEntries(x));
      assert n in KeysOf(AllEntries(x), LapiProofs.EntryName);
      e :| e in AllEntries(x) && LapiProofs.EntryName(e) == n;
    }
  }

  /** Every entry of the second merge keeps its name. */
  lemma OnlyMain(y: Sides, f: Entry) returns (n: string)
    requires Sound(y) && LapiProofs.RenameFree(y) && (forall a :: !Incomparable(y, a)) && f in AllEntries(y)
    ensures (n in y.center || n in y.local) && f == Main(y, n) && LapiProofs.EntryName(f) == n
  {
    EntriesAre(y);
    n :| LapiProofs.FromName(y, f, n);
    LapiProofs.MainName(y, n);
  }

  lemma RemergeEntry(x: Sides, y: Sides, f: Entry) returns (e: Entry)
    requires Sound(x) && LapiProofs.RenameFree(x) && Remerge(x, y) && f in AllEntries(y)
    ensures e in AllEntries(x) && LapiProofs.EntryName(e) == LapiProofs.EntryName(f)
    ensures e.lapi == f.lapi && Renumber(e.chain) == Renumber(f.chain)
  {
    NeverRenamedAgain(x, y);
    var n := OnlyMain(y, f);
    e := RemergeNames(x, y, n);
    SameMain(x, y, e);
  }

  lemma SameEntry(x: Sides, y: Sides, e: Entry)
    requires Sound(x) && LapiProofs.RenameFree(x) && Remerge(x, y) && e in AllEntries(x)
    ensures exists f :: f in AllEntries(y) && f.lapi == e.lapi && Renumber(f.chain) == Renumber(e.chain)
  {
    var n := LapiProofs.EntryName(e);
    SameMain(x, y, e);
    NeverRenamedAgain(x, y);
    EntriesAre(y);
    assert LapiProofs.FromName(y, Main(y, n), n);
  }

  lemma RowsOf(entries: seq<Entry>, l: LAPI)
    ensures l in Rows(entries) <==> exists e :: e in entries && e.lapi == l
  {
    if l in Rows(entries) {
      var i :| 0 <= i < |entries| && Rows(entries)[i] == l;
      assert entries[i] in entries;
    }
    if e :| e in entries && e.lapi == l {
      var i :| 0 <= i < |entries| && entries[i] == e;
      assert Rows(entries)[i] == l;
    }
  }

  lemma SameRows(x: Sides, y: Sides, l: LAPI)
    requires Sound(x) && LapiProofs.RenameFree(x) && Remerge(x, y)
    ensures l in Rows(AllEntries(y)) <==> l in Rows(AllEntries(x))
  {
    RowsOf(AllEntries(x), l);
    RowsOf(AllEntries(y), l);
    if e :| e in AllEntries(x) && e.lapi == l {
      SameEntry(x, y, e);
    }
    if f :| f in AllEntries(y) && f.lapi == l {
      var e := RemergeEntry(x, y, f);
    }
  }

  lemma SameChain(x: Sides, y: Sides, n: string)
    requires Sound(x) && LapiProofs.RenameFree(x) && Remerge(x, y)
    ensures Renumber(ChainOf(Flatten(AllEntries(y)), n)) == Renumber(ChainOf(Flatten(AllEntries(x)), n))
  {
    EntriesAre(x);
    NeverRenamedAgain(x, y);
    EntriesAre(y);
    LapiProofs.FlattenChain(AllEntries(x), n);
    LapiProofs.FlattenChain(AllEntries(y), n);
    if n in KeysOf(AllEntries(y), LapiProofs.EntryName) {
      var f :| f in AllEntries(y) && LapiProofs.EntryName(f) == n;
      var e := RemergeEntry(x, y, f);
    } else if n in KeysOf(AllEntries(x), LapiProofs.EntryName) {
      var e :| e in AllEntries(x) && LapiProofs.EntryName(e) == n;
      SameEntry(x, y, e);
    }
  }

  lemma SameRoutes(x: Sides, y: Sides)
    requires Sound(x) && LapiProofs.RenameFree(x) && Remerge(x, y)
    ensures MergedRoutes(y) == MergedRoutes(x)
  {
    forall n ensures Renumber(ChainOf(Flatten(AllEntries(y)), n)) == Renumber(ChainOf(Flatten(AllEntries(x)), n)) {
      SameChain(x, y, n);
    }
    ChainsDetermineRoutes(Flatten(AllEntries(y)), Flatten(AllEntries(x)));
  }

  lemma RemergeSides(center: Bundle, local: Bundle, rule: Rule)
    requires Valid(center) && Valid(local) && Valid(Merged(center, local, rule))
    ensures Remerge(SidesFor(center, local, rule), SidesFor(center, Merged(center, local, rule), rule))
  {
    SameRapis(center, local, rule);
    MergedParts(center, local, rule);
  }

  lemma SameRapis(center: Bundle, local: Bundle, rule: Rule)
    requires Valid(center) && Valid(local) && Valid(Merged(center, local, rule))
    ensures MergedRapis(center, Merged(center, local, rule), rule) == MergedRapis(center, local, rule)
  {
    RapisKept(center, local, rule);
    RapisKept(center, Merged(center, local, rule), rule);
    MergedAbsorbs(center.rapis, local.rapis, RapiKey, rule == CenterWins);
  }

  /** Merging the merge with the same center again gives it back, under either rule: every table is
      the same, the public names as a set; no name is renamed a second time. */
  lemma Absorption(center: Bundle, local: Bundle, rule: Rule)
    requires Valid(center) && Valid(local) && Valid(Merged(center, local, rule))
    ensures
      var m := Merged(center, local, rule);
      var again := Merged(center, m, rule);
      && again.platforms == m.platforms && again.credentials == m.credentials && again.rapis == m.rapis
      && again.bindings == m.bindings && again.routes == m.routes
      && (forall l :: l in again.lapis <==> l in m.lapis)
      && Valid(again)
    ensures forall a :: !Incomparable(SidesFor(center, Merged(center, local, rule), rule), a)
  {
    var m := Merged(center, local, rule);
    var x, y := SidesFor(center, local, rule), SidesFor(center, m, rule);
    ValidSides(center, local, rule);
    RemergeSides(center, local, rule);
    RowsAbsorbed(center, local, rule);
    NeverRenamedAgain(x, y);
    MergeSucceedsIff(center, m, rule);
    MergedParts(center, local, rule);
    MergedParts(center, m, rule);
    SameRoutes(x, y);
    forall l ensures l in Rows(AllEntries(y)) <==> l in Rows(AllEntries(x)) {
      SameRows(x, y, l);
    }
  }

  lemma RowsAbsorbed(center: Bundle, local: Bundle, rule: Rule)
    requires Valid(center) && Valid(local) && Valid(Merged(center, local, rule))
    ensures
      var m := Merged(center, local, rule);
      && MergedPlatforms(center, m, rule) == m.platforms && MergedCredentials(center, m, rule) == m.credentials
      && MergedRapis(center, m, rule) == m.rapis && MergedBindings(center, m, rule) == m.bindings
  {
    var m := Merged(center, local, rule);
    MergedAbsorbs(center.platforms, local.platforms, PlatformKey, rule == CenterWins);
    MergedAbsorbs(center.credentials, local.credentials, CredKey, rule == CenterWins);
    MergedAbsorbs(center.rapis, local.rapis, RapiKey, rule == CenterWins);
    MergedAbsorbs(center.bindings, local.bindings, BindKey, rule == CenterWins);
    RapisKept(center, local, rule);
    RapisKept(center, m, rule);
    BindingsKept(center, local, rule);
    BindingsKept(center, m, rule);
  }
}
