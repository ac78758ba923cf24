/** What the merge of public names produces when no new name collides. */
module LapiProofs {
  import opened Folds
  import opened Bundle
  import opened Tables
  import opened Names
  import opened Chains
  import opened ChainCompare
  import opened LapiMerge

  function EntryName(e: Entry): string { e.lapi.alias }

  /** Tables indexed by alias. */
  ghost predicate Indexed(x: Sides) {
    && (forall a :: a in x.center ==> x.center[a].alias == a)
    && (forall a :: a in x.local ==> x.local[a].alias == a)
  }

  /** No input name is the first new name of an incomparable pair. */
  ghost predicate RenameFree(x: Sides) {
    forall a :: Incomparable(x, a) ==> NewName(a) !in x.center && NewName(a) !in x.local
  }

  function NewName(a: string): string {
    Candidate(a, 2)
  }

  /** The k-th candidate for a name is the name, a mark and the number in digits; the first one has a 2. */
  lemma CandidateText(a: string, i: nat)
    ensures Candidate(a, i)[..|a| + 6] == a + "#local" && Names.Value(Candidate(a, i)[|a| + 6..]) == i
    ensures NewName(a) == a + "#local2"
  {
    Names.DecimalIs(i);
    assert Candidate(a, i)[|a| + 6..] == Names.Decimal(i);
    assert Names.Decimal(2) == "2";
    assert a + "#local" + "2" == a + "#local2";
  }

  lemma NewNameInjective(a: string, b: string)
    requires NewName(a) == NewName(b)
    ensures a == b
  {
    assert |a| == |b|;
    assert NewName(a)[..|a|] == a && NewName(b)[..|b|] == b;
  }

  // ---------- The entries ----------

  /** An entry that the names in `done` have given rise to. */
  ghost predicate FromName(x: Sides, e: Entry, a: string) {
    && (a in x.center || a in x.local)
    && (e == Main(x, a) || (Incomparable(x, a) && e == Renamed(x, a, NewName(a))))
  }

  ghost predicate FromNames(x: Sides, done: seq<string>, e: Entry) {
    exists a :: a in done && FromName(x, e, a)
  }

  ghost predicate TakenBy(x: Sides, done: seq<string>, n: string) {
    n in done || exists a :: a in done && Incomparable(x, a) && n == NewName(a)
  }

  ghost predicate Tidy(x: Sides, done: seq<string>, o: Outcome) {
    && (forall e :: e in o.entries <==> FromNames(x, done, e))
    && (forall n :: n in o.taken ==> TakenBy(x, done, n))
    && UniqueKeys(o.entries, EntryName)
    && (forall e :: e in o.entries ==> EntryName(e) in o.taken)
  }

  lemma MainName(x: Sides, a: string)
    requires Indexed(x) && (a in x.center || a in x.local)
    ensures EntryName(Main(x, a)) == a
  {
  }

  lemma FreshName(x: Sides, done: seq<string>, o: Outcome, a: string)
    requires Tidy(x, done, o) && RenameFree(x) && a !in done && (a in x.center || a in x.local)
    requires Known(x, done)
    ensures a !in o.taken
    ensures Incomparable(x, a) ==> NewName(a) !in o.taken + {a} && AllocName(o.taken + {a}, a) == NewName(a)
  {
    NotTaken(x, done, o, a);
    if Incomparable(x, a) {
      assert |NewName(a)| > |a|;
      if exists b :: b in done && Incomparable(x, b) && NewName(a) == NewName(b) {
        var b :| b in done && Incomparable(x, b) && NewName(a) == NewName(b);
        NewNameInjective(a, b);
      }
      NotTaken(x, done, o, NewName(a));
    }
  }

  lemma NotTaken(x: Sides, done: seq<string>, o: Outcome, n: string)
    requires Tidy(x, done, o)
    requires n !in done && forall b :: b in done && Incomparable(x, b) ==> n != NewName(b)
    ensures n !in o.taken
  {
    assert !TakenBy(x, done, n);
  }

  /** The new entries of a name. */
  ghost function NewEntries(x: Sides, a: string): seq<Entry>
    requires a in x.center || a in x.local
  {
    [Main(x, a)] + (if Incomparable(x, a) then [Renamed(x, a, NewName(a))] else [])
  }

  lemma MergeAliasEntries(x: Sides, o: Outcome, a: string)
    requires a in x.center || a in x.local
    requires Incomparable(x, a) ==> AllocName(o.taken + {a}, a) == NewName(a)
    ensures MergeAlias(x, o, a).entries == o.entries + NewEntries(x, a)
    ensures MergeAlias(x, o, a).taken == o.taken + {a} + (if Incomparable(x, a) then {NewName(a)} else {})
  {
  }

  lemma NewEntriesFrom(x: Sides, a: string)
    requires Indexed(x) && (a in x.center || a in x.local)
    ensures forall e :: e in NewEntries(x, a) <==> FromName(x, e, a)
    ensures forall e :: e in NewEntries(x, a) ==>
      EntryName(e) == a || (Incomparable(x, a) && EntryName(e) == NewName(a))
    ensures UniqueKeys(NewEntries(x, a), EntryName)
  {
    MainName(x, a);
    assert |NewName(a)| > |a|;
  }

  lemma TidyEntries(x: Sides, done: seq<string>, o: Outcome, a: string)
    requires Tidy(x, done, o) && RenameFree(x) && Indexed(x) && Known(x, done)
    requires a !in done && (a in x.center || a in x.local)
    ensures
      var all := o.entries + NewEntries(x, a);
      && (forall e :: e in all <==> FromNames(x, done + [a], e))
      && UniqueKeys(all, EntryName)
  {
    FreshName(x, done, o, a);
    NewEntriesFrom(x, a);
    var all := o.entries + NewEntries(x, a);
    forall e ensures e in all <==> FromNames(x, done + [a], e) {
      if FromNames(x, done + [a], e) {
        var b :| b in done + [a] && FromName(x, e, b);
        if b in done {
          assert FromNames(x, done, e);
        }
      }
      if FromNames(x, done, e) {
        var b :| b in done && FromName(x, e, b);
        assert b in done + [a];
      }
      if e in NewEntries(x, a) {
        assert a in done + [a];
      }
    }
    forall e | e in NewEntries(x, a) ensures EntryName(e) !in KeysOf(o.entries, EntryName) {
    }
    UniqueAppend(o.entries, NewEntries(x, a), EntryName);
  }

  lemma TidyStep(x: Sides, done: seq<string>, o: Outcome, a: string)
    requires Tidy(x, done, o) && RenameFree(x) && Indexed(x) && Known(x, done)
    requires a !in done && (a in x.center || a in x.local)
    ensures Tidy(x, done + [a], MergeAlias(x, o, a))
  {
    FreshName(x, done, o, a);
    MergeAliasEntries(x, o, a);
    TidyEntries(x, done, o, a);
    NewEntriesFrom(x, a);
    var o' := MergeAlias(x, o, a);
    forall n | n in o'.taken ensures TakenBy(x, done + [a], n) {
      assert a in done + [a];
      if n in o.taken {
        assert TakenBy(x, done, n);
        if n !in done {
          var b :| b in done && Incomparable(x, b) && n == NewName(b);
          assert b in done + [a];
        }
      }
    }
  }

  lemma TidyStart(x: Sides)
    ensures Tidy(x, [], START)
  {
  }

  ghost predicate TidyAt(x: Sides, aliases: seq<string>, n: nat)
    requires Known(x, aliases) && n <= |aliases|
  {
    Tidy(x, aliases[..n], MergeAll(x, aliases[..n]))
  }

  lemma TidyNext(x: Sides, aliases: seq<string>, n: nat)
    requires RenameFree(x) && Indexed(x) && Known(x, aliases) && Sorted(aliases) && n < |aliases|
    requires TidyAt(x, aliases, n)
    ensures TidyAt(x, aliases, n + 1)
  {
    MergeAllStep(x, aliases, n);
    NotBefore(aliases, n);
    TidyStep(x, aliases[..n], MergeAll(x, aliases[..n]), aliases[n]);
  }

  lemma {:induction false} TidyUpTo(x: Sides, aliases: seq<string>, n: nat)
    requires RenameFree(x) && Indexed(x) && Known(x, aliases) && Sorted(aliases) && n <= |aliases|
    ensures TidyAt(x, aliases, n)
  {
    if n == 0 {
      TidyStart(x);
    } else {
      TidyUpTo(x, aliases, n - 1);
      TidyNext(x, aliases, n - 1);
    }
  }

  lemma NotBefore(aliases: seq<string>, n: nat)
    requires Sorted(aliases) && n < |aliases|
    ensures aliases[n] !in aliases[..n] && aliases[..n] + [aliases[n]] == aliases[..n + 1]
  {
    if aliases[n] in aliases[..n] {
      var i :| 0 <= i < n && aliases[i] == aliases[n];
      SortedDistinct(aliases, i, n);
    }
  }

  lemma TidyAll(x: Sides, aliases: seq<string>)
    requires RenameFree(x) && Indexed(x) && Known(x, aliases) && Sorted(aliases)
    ensures Tidy(x, aliases, MergeAll(x, aliases))
  {
    TidyUpTo(x, aliases, |aliases|);
    assert aliases[..|aliases|] == aliases;
  }

  // ---------- The chains of the entries ----------

  lemma {:induction false} KeptIs(chain: seq<Route>, endpoints: set<EndpointKey>)
    ensures forall r :: r in Kept(chain, endpoints) ==> r in chain && RouteEndpoint(r) in endpoints
    ensures (forall r :: r in chain ==> RouteEndpoint(r) in endpoints) ==>
      Kept(chain, endpoints) == chain && forall a :: Dropped(chain, a, endpoints) == []
  {
    if chain != [] {
      KeptIs(chain[..|chain| - 1], endpoints);
      Snoc(chain);
    }
  }

  lemma {:induction false} KeptOrdered(chain: seq<Route>, endpoints: set<EndpointKey>)
    requires Ordered(chain)
    ensures Ordered(Kept(chain, endpoints))
  {
    if chain != [] {
      var init, last := chain[..|chain| - 1], chain[|chain| - 1];
      KeptOrdered(init, endpoints);
      KeptIs(init, endpoints);
      var k := Kept(init, endpoints);
      forall i | 0 <= i < |k| ensures k[i].orderIndex <= last.orderIndex {
        assert k[i] in k && k[i] in init;
        var j :| 0 <= j < |init| && init[j] == k[i];
      }
    }
  }

  ghost predicate GoodChain(e: Entry) {
    Named(e.chain, EntryName(e)) && Ordered(e.chain)
  }

  lemma MakeEntryGood(l: LAPI, routes: seq<Route>, b: string, endpoints: set<EndpointKey>)
    ensures GoodChain(MakeEntry(l, ChainOf(routes, b), l.alias, endpoints))
  {
    ChainMembers(routes, b);
    KeptOrdered(ChainOf(routes, b), endpoints);
  }

  lemma FromNameGood(x: Sides, e: Entry, a: string)
    requires Indexed(x) && FromName(x, e, a)
    ensures GoodChain(e)
  {
    if a in x.center {
      MakeEntryGood(x.center[a], x.centerRoutes, a, x.endpoints);
    }
    if a in x.local {
      MakeEntryGood(x.local[a], x.localRoutes, a, x.endpoints);
      MakeEntryGood(x.local[a].(alias := NewName(a)), x.localRoutes, a, x.endpoints);
    }
  }

  /** The routes of a name are the chain of its entry. */
  ghost predicate ChainsOfEntries(routes: seq<Route>, entries: seq<Entry>, n: string) {
    && (forall e :: e in entries && EntryName(e) == n ==> OfAlias(routes, n) == e.chain)
    && (n !in KeysOf(entries, EntryName) ==> OfAlias(routes, n) == [])
  }

  lemma AddEntryChain(routes: seq<Route>, init: seq<Entry>, last: Entry, n: string)
    requires ChainsOfEntries(routes, init, n) && GoodChain(last)
    requires EntryName(last) !in KeysOf(init, EntryName)
    ensures ChainsOfEntries(routes + last.chain, init + [last], n)
  {
    OfAliasNamed(last.chain, EntryName(last), n);
    OfAliasAppend(routes, last.chain, n);
    KeysSnoc(init, last, EntryName);
  }

  lemma LastKeyNew(entries: seq<Entry>)
    requires UniqueKeys(entries, EntryName) && entries != []
    ensures EntryName(entries[|entries| - 1]) !in KeysOf(entries[..|entries| - 1], EntryName)
  {
    var init := entries[..|entries| - 1];
    forall e | e in init ensures EntryName(e) != EntryName(entries[|entries| - 1]) {
      var i :| 0 <= i < |init| && init[i] == e;
    }
  }

  lemma {:induction false} FlattenOfAlias(entries: seq<Entry>, n: string)
    requires UniqueKeys(entries, EntryName) && forall e :: e in entries ==> GoodChain(e)
    ensures ChainsOfEntries(Flatten(entries), entries, n)
  {
    if entries != [] {
      var init := entries[..|entries| - 1];
      Snoc(entries);
      FlattenOfAlias(init, n);
      LastKeyNew(entries);
      AddEntryChain(Flatten(init), init, entries[|entries| - 1], n);
    }
  }

  lemma FlattenChain(entries: seq<Entry>, n: string)
    requires UniqueKeys(entries, EntryName) && forall e :: e in entries ==> GoodChain(e)
    ensures forall e :: e in entries && EntryName(e) == n ==> ChainOf(Flatten(entries), n) == e.chain
    ensures n !in KeysOf(entries, EntryName) ==> ChainOf(Flatten(entries), n) == []
  {
    FlattenOfAlias(entries, n);
    forall e | e in entries && EntryName(e) == n ensures ChainOf(Flatten(entries), n) == e.chain {
      SortOrdered(e.chain);
    }
  }
}
