/** What the report of a merge tells about the two sides, and what it does not. */
module MergeReport {
  import opened Folds
  import opened Bundle
  import opened Tables
  import opened RowMerge
  import opened Names
  import opened Chains
  import opened ChainCompare
  import opened LapiMerge
  import opened BundleMerge
  import opened MergeTheorems
  import opened MergeWitnesses

  // ---------- One table ----------

  function KeySeq<K, R>(rows: seq<R>, key: R -> K): (ks: seq<K>)
    ensures |ks| == |rows|
    ensures forall i :: 0 <= i < |ks| ==> ks[i] == key(rows[i])
  {
    seq(|rows|, i requires 0 <= i < |rows| => key(rows[i]))
  }

  /** The center has a different row under the key of this one. */
  ghost predicate Differs<K, R>(center: seq<R>, r: R, key: R -> K) {
    exists c :: c in center && key(c) == key(r) && c != r
  }

  /** The local rows that differ from the center's, in order. */
  ghost function Differing<K, R>(center: seq<R>, local: seq<R>, key: R -> K): seq<K> {
    if local == [] then [] else
    var last := local[|local| - 1];
    Differing(center, local[..|local| - 1], key) + (if Differs(center, last, key) then [key(last)] else [])
  }

  lemma {:induction false} NoOwnClash<K, R>(rows: seq<R>, key: R -> K, centerFirst: bool)
    requires UniqueKeys(rows, key)
    ensures Clashes([], rows, key, centerFirst) == []
  {
    if rows != [] {
      var init := rows[..|rows| - 1];
      NoOwnClash(init, key, centerFirst);
      PutAllOwn(init, key, centerFirst);
      Snoc(rows);
    }
  }

  /** Before a local row is put, the merged table holds the center's row of its key. */
  lemma MeetsCenter<K, R>(center: seq<R>, init: seq<R>, r: R, key: R -> K, centerFirst: bool)
    requires UniqueKeys(center, key) && UniqueKeys(init, key) && key(r) !in KeysOf(init, key)
    ensures
      var met := PutAll(center, init, key, centerFirst);
      var i := Find(met, key, key(r));
      (i < |met| && met[i] != r) <==> Differs(center, r, key)
  {
    var met := PutAll(center, init, key, centerFirst);
    PutAllIs(center, init, key, centerFirst);
    var i := Find(met, key, key(r));
    WithoutMembers(init, key, KeysOf(center, key));
    forall j | 0 <= j < |center|
      ensures key(met[j]) == key(center[j]) && (key(center[j]) == key(r) ==> met[j] == center[j])
    {
      PickIs(center[j], init, key, centerFirst);
    }
    forall j | |center| <= j < |met| ensures key(met[j]) != key(r) {
      assert met[j] in Without(init, key, KeysOf(center, key));
    }
    if Differs(center, r, key) {
      var c :| c in center && key(c) == key(r) && c != r;
      var j :| 0 <= j < |center| && center[j] == c;
      assert i <= j;
    }
    if i < |met| {
      assert i < |center| && center[i] in center;
    }
  }

  lemma {:induction false} ClashesAre<K, R>(center: seq<R>, local: seq<R>, key: R -> K, centerFirst: bool)
    requires UniqueKeys(center, key) && UniqueKeys(local, key)
    ensures Clashes(center, local, key, centerFirst) == Differing(center, local, key)
  {
    if local != [] {
      var init, last := local[..|local| - 1], local[|local| - 1];
      ClashesAre(center, init, key, centerFirst);
      Snoc(local);
      MeetsCenter(center, init, last, key, centerFirst);
    }
  }

  /** Under either rule a table reports the keys that only the local side has and those of the local
      rows that differ from the center's, both in the local order. */
  lemma TableReported<K, R>(t: TableReport<K>, center: seq<R>, local: seq<R>, key: R -> K, rule: Rule)
    requires UniqueKeys(center, key) && UniqueKeys(local, key) && ReportsTable(t, center, local, key, rule)
    ensures t == TableReport(KeySeq(Without(local, key, KeysOf(center, key)), key), Differing(center, local, key))
  {
    var first := rule == CenterWins;
    NoOwnClash(center, key, first);
    PutAllOwn(center, key, first);
    ClashesAre(center, local, key, first);
    MergedIs(center, local, key, first);
    AppendedOwn(Patched(center, local, key, first), Without(local, key, KeysOf(center, key)), t.localOnly, key);
  }

  lemma AppendedOwn<K, R>(patched: seq<R>, own: seq<R>, added: seq<K>, key: R -> K)
    requires AppendedAfter(patched + own, |patched|, added, key)
    ensures added == KeySeq(own, key)
  {
    forall j | 0 <= j < |own| ensures added[j] == key(own[j]) {
      assert (patched + own)[|patched| + j] == own[j];
    }
  }

  ghost predicate Among<R>(local: seq<R>, center: seq<R>) {
    forall r :: r in local ==> r in center
  }

  lemma {:induction false} NothingToTell<K, R>(center: seq<R>, local: seq<R>, key: R -> K)
    requires UniqueKeys(center, key)
    ensures Without(local, key, KeysOf(center, key)) == [] && Differing(center, local, key) == [] <==>
      Among(local, center)
  {
    if local != [] {
      var init, last := local[..|local| - 1], local[|local| - 1];
      NothingToTell(center, init, key);
      Snoc(local);
      assert Among(local, center) <==> Among(init, center) && last in center;
      if last in center {
        assert key(last) in KeysOf(center, key);
        if c :| c in center && key(c) == key(last) {
          var i :| 0 <= i < |center| && center[i] == c;
          var j :| 0 <= j < |center| && center[j] == last;
        }
      }
    }
  }

  lemma TableSilent<K, R>(t: TableReport<K>, center: seq<R>, local: seq<R>, key: R -> K, rule: Rule)
    requires UniqueKeys(center, key) && UniqueKeys(local, key) && ReportsTable(t, center, local, key, rule)
    ensures t == TableReport([], []) <==> Among(local, center)
  {
    TableReported(t, center, local, key, rule);
    NothingToTell(center, local, key);
  }

  // ---------- Names ----------

  ghost predicate NameSilent(x: Sides, a: string) {
    a in x.center && !Incomparable(x, a)
  }

  lemma NameTold(x: Sides, o: Outcome, a: string)
    requires a in x.center || a in x.local
    ensures MergeAlias(x, o, a).localOnly == [] <==> o.localOnly == [] && NameSilent(x, a)
  {
  }

  ghost predicate SilentAt(x: Sides, aliases: seq<string>, n: nat)
    requires Known(x, aliases) && n <= |aliases|
  {
    MergeAll(x, aliases[..n]).localOnly == []
  }

  lemma SilentStep(x: Sides, aliases: seq<string>, n: nat)
    requires Known(x, aliases) && n < |aliases|
    ensures SilentAt(x, aliases, n + 1) <==> SilentAt(x, aliases, n) && NameSilent(x, aliases[n])
  {
    MergeAllStep(x, aliases, n);
    NameTold(x, MergeAll(x, aliases[..n]), aliases[n]);
  }

  lemma {:induction false} NamesSilentUpTo(x: Sides, aliases: seq<string>, n: nat)
    requires Known(x, aliases) && n <= |aliases|
    ensures SilentAt(x, aliases, n) <==> forall i :: 0 <= i < n ==> NameSilent(x, aliases[i])
  {
    if n > 0 {
      NamesSilentUpTo(x, aliases, n - 1);
      SilentStep(x, aliases, n - 1);
    }
  }

  lemma NamesSilent(x: Sides)
    ensures MergeAll(x, AllAliases(x)).localOnly == [] <==> forall a :: a in x.local ==> NameSilent(x, a)
  {
    var aliases := AllAliases(x);
    NamesSilentUpTo(x, aliases, |aliases|);
    assert aliases[..|aliases|] == aliases;
    forall a | a in x.local ensures a in aliases {
    }
    if forall a :: a in x.local ==> NameSilent(x, a) {
      forall i | 0 <= i < |aliases| ensures NameSilent(x, aliases[i]) {
        assert aliases[i] in aliases;
      }
    }
    if forall i :: 0 <= i < |aliases| ==> NameSilent(x, aliases[i]) {
      forall a | a in x.local ensures NameSilent(x, a) {
        assert a in aliases;
      }
    }
  }

  // ---------- The whole report ----------

  predicate Empty(rep: Report) {
    && rep.platforms.localOnly == [] && rep.credentials.localOnly == [] && rep.rapis.localOnly == []
    && rep.bindings.localOnly == [] && rep.localOnlyLapis == []
    && rep.platforms.conflicts == [] && rep.credentials.conflicts == [] && rep.rapis.conflicts == []
    && rep.bindings.conflicts == []
    && rep.droppedRapis == [] && rep.droppedBindings == [] && rep.droppedRoutes == []
  }

  /** The public names of the local side are names of the center, with chains that are equal or
      contained in one another. */
  ghost predicate NamesAmong(local: Bundle, center: Bundle) {
    forall l :: l in local.lapis ==>
      && l.alias in KeysOf(center.lapis, LapiKey)
      && Compare(Nodes(ChainOf(center.routes, l.alias)), Nodes(ChainOf(local.routes, l.alias))) !in {L1, L3}
  }

  lemma {:induction false} DanglingNone<K, R>(rows: seq<R>, ok: R -> bool, key: R -> K)
    requires Where(rows, ok) == rows
    ensures Dangling(rows, ok, key) == []
  {
    if rows != [] {
      var init, last := rows[..|rows| - 1], rows[|rows| - 1];
      WhereShorter(init, ok);
      assert Where(init, ok) == init by {
        if ok(last) {
          assert Where(init, ok) == (Where(init, ok) + [last])[..|init|];
        }
      }
      DanglingNone(init, ok, key);
    }
  }

  lemma {:induction false} WhereShorter<R>(rows: seq<R>, ok: R -> bool)
    ensures |Where(rows, ok)| <= |rows|
  {
    if rows != [] {
      WhereShorter(rows[..|rows| - 1], ok);
    }
  }

  /** The report of the merge of two valid snapshots is empty if and only if the local side has nothing
      that the center lacks: every row is one of the center's and every name has a comparable chain. */
  lemma EmptyIff(rep: Report, center: Bundle, local: Bundle, rule: Rule)
    requires Valid(center) && Valid(local) && Reports(rep, center, local, rule)
    ensures Empty(rep) <==>
      && Among(local.platforms, center.platforms) && Among(local.credentials, center.credentials)
      && Among(local.rapis, center.rapis) && Among(local.bindings, center.bindings)
      && NamesAmong(local, center)
  {
    TableSilent(rep.platforms, center.platforms, local.platforms, PlatformKey, rule);
    TableSilent(rep.credentials, center.credentials, local.credentials, CredKey, rule);
    TableSilent(rep.rapis, center.rapis, local.rapis, RapiKey, rule);
    TableSilent(rep.bindings, center.bindings, local.bindings, BindKey, rule);
    NothingDangles(rep, center, local, rule);
    NamesSilent(SidesFor(center, local, rule));
    NamesAmongIs(center, local, rule);
  }

  lemma NothingDangles(rep: Report, center: Bundle, local: Bundle, rule: Rule)
    requires Valid(center) && Valid(local) && Reports(rep, center, local, rule)
    ensures rep.droppedRapis == [] && rep.droppedBindings == [] && rep.droppedRoutes == []
  {
    MergeSucceedsIff(center, local, rule);
    var plats := KeysOf(MergedPlatforms(center, local, rule), PlatformKey);
    DanglingNone(MergedRows(center.rapis, local.rapis, RapiKey, rule == CenterWins), HasPlatform(plats), RapiKey);
    var eps := KeysOf(MergedRapis(center, local, rule), RapiKey);
    var creds := KeysOf(MergedCredentials(center, local, rule), CredKey);
    DanglingNone(MergedRows(center.bindings, local.bindings, BindKey, rule == CenterWins), HasEnds(eps, creds),
                 BindKey);
  }

  lemma NamesAmongIs(center: Bundle, local: Bundle, rule: Rule)
    ensures
      var x := SidesFor(center, local, rule);
      NamesAmong(local, center) <==> forall a :: a in x.local ==> NameSilent(x, a)
  {
    var x := SidesFor(center, local, rule);
    LapiTableIs(center.lapis);
    LapiTableIs(local.lapis);
    forall l | l in local.lapis ensures l.alias in x.local {
      assert LapiKey(l) in KeysOf(local.lapis, LapiKey);
    }
    if NamesAmong(local, center) {
      forall a | a in x.local ensures NameSilent(x, a) {
        assert x.local[a] in local.lapis;
      }
    }
  }

  // ---------- What it says of a name ----------

  /** What there is to say of a name that the local side has: that the center lacks it, or how the chains compare,
      with a new name exactly when neither lies inside the other. */
  ghost predicate Decides(x: Sides, a: string, d: Decision) {
    && a in x.local
    && if a !in x.center then d == LocalOnly(a)
       else
         && d.Compared? && d.name == a && d.level == LevelOf(x, a)
         && if d.level == L1 || d.level == L3 then exists i: nat :: i >= 2 && d.renamed == Candidate(a, i)
            else d.renamed == ""
  }

  lemma {:induction false} FreeIsCandidate(taken: set<string>, base: string, i: nat)
    ensures exists j: nat :: j >= i && FreeName(taken, base, i) == Candidate(base, j)
    decreases TakenFrom(taken, base, i)
  {
    if Candidate(base, i) in taken {
      TakenShrinks(taken, base, i);
      FreeIsCandidate(taken, base, i + 1);
    }
  }

  lemma OneDecision(x: Sides, o: Outcome, a: string) returns (d: Decision)
    requires a in x.center || a in x.local
    ensures
      var ds := MergeAlias(x, o, a).decisions;
      if a in x.local then Decides(x, a, d) && ds == o.decisions + [d] else ds == o.decisions
  {
    d := LocalOnly(a);
    if a in x.local && a in x.center {
      FreeIsCandidate(o.taken + {a}, a, 2);
      var level := LevelOf(x, a);
      d := Compared(a, level, if level == L1 || level == L3 then FreeName(o.taken + {a}, a, 2) else "");
    }
  }

  /** The decisions are those on the names that the local side has. */
  ghost predicate DecidesAll(x: Sides, aliases: seq<string>, ds: seq<Decision>) {
    && (forall d :: d in ds ==> exists a :: a in aliases && Decides(x, a, d))
    && (forall a :: a in aliases && a in x.local ==> exists d :: d in ds && Decides(x, a, d))
  }

  lemma {:induction false} DecisionsAre(x: Sides, aliases: seq<string>)
    requires Known(x, aliases)
    ensures DecidesAll(x, aliases, MergeAll(x, aliases).decisions)
  {
    if aliases != [] {
      var init, a := aliases[..|aliases| - 1], aliases[|aliases| - 1];
      assert a in aliases && aliases == init + [a];
      DecisionsAre(x, init);
      var d := OneDecision(x, MergeAll(x, init), a);
      DecidesMore(x, init, MergeAll(x, init).decisions, a, d);
    }
  }

  lemma DecidesMore(x: Sides, init: seq<string>, ds: seq<Decision>, a: string, d: Decision)
    requires DecidesAll(x, init, ds) && (a in x.local ==> Decides(x, a, d))
    ensures DecidesAll(x, init + [a], if a in x.local then ds + [d] else ds)
  {
    hide Decides;
    var all := if a in x.local then ds + [d] else ds;
    forall e | e in all ensures exists b :: b in init + [a] && Decides(x, b, e) {
      if e in ds {
        var b :| b in init && Decides(x, b, e);
        assert b in init + [a];
      } else {
        assert a in init + [a];
      }
    }
    forall b | b in init + [a] && b in x.local ensures exists e :: e in all && Decides(x, b, e) {
      if b in init {
        var e :| e in ds && Decides(x, b, e);
        assert e in all;
      } else {
        assert d in all;
      }
    }
  }

  /** The report decides on every name that the local side has, and on no other. */
  lemma ReportDecides(rep: Report, center: Bundle, local: Bundle, rule: Rule)
    requires Reports(rep, center, local, rule)
    ensures
      var x := SidesFor(center, local, rule);
      && (forall d :: d in rep.decisions ==> exists a :: Decides(x, a, d))
      && (forall a :: a in x.local ==> exists d :: d in rep.decisions && Decides(x, a, d))
  {
    var x := SidesFor(center, local, rule);
    DecisionsAre(x, AllAliases(x));
  }

  function Wider(): Bundle { Snapshot("m", [Name("a"), Name("b")], []) }

  function Narrower(): Bundle { Snapshot("m", [Name("a")], []) }

  lemma BothValid()
    ensures Valid(Wider()) && Valid(Narrower())
  {
    MergeWitnesses.NotBlank();
    assert Trim("b") == "b";
    SnapshotValid("m", [Name("a"), Name("b")], []);
    SnapshotValid("m", [Name("a")], []);
  }

  lemma NarrowerNames()
    ensures NamesAmong(Narrower(), Wider())
  {
    assert Wider().lapis[0] == Name("a");
    assert LapiKey(Name("a")) in KeysOf(Wider().lapis, LapiKey);
  }

  /** So an empty report does not mean that both sides agree: here the center has a name more. */
  lemma EmptyButDifferent(rule: Rule, rep: Report)
    requires Reports(rep, Wider(), Narrower(), rule)
    ensures Empty(rep) && Wider().lapis != Narrower().lapis
  {
    BothValid();
    NarrowerNames();
    EmptyIff(rep, Wider(), Narrower(), rule);
  }
}
