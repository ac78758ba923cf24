/** A new name that is also an input name is emitted twice. */
module LapiCollision {
  import opened Folds
  import opened Bundle
  import opened Tables
  import opened Names
  import opened Chains
  import opened ChainCompare
  import opened LapiMerge
  import opened LapiProofs

  lemma NoMarkAfter(b: string, d: string, p: nat)
    requires '#' !in d && |b| < p < |b + "#local" + d|
    ensures (b + "#local" + d)[p] != '#'
  {
    if p < |b| + 6 {
      assert (b + "#local" + d)[p] == "#local"[p - |b|];
    } else {
      assert (b + "#local" + d)[p] == d[p - |b| - 6];
      assert d[p - |b| - 6] in d;
    }
  }

  lemma BaseNotLonger(b: string, k: nat, a: string, j: nat)
    requires Candidate(b, k) == Candidate(a, j)
    ensures |a| <= |b|
  {
    DecimalNonEmpty(k);
    assert Candidate(a, j)[|a|] == '#';
    if |b| < |a| {
      NoMarkAfter(b, Decimal(k), |a|);
    }
  }

  /** The last '#' of a candidate ends its base. */
  lemma CandidateBase(b: string, k: nat, a: string, j: nat)
    requires Candidate(b, k) == Candidate(a, j)
    ensures b == a
  {
    BaseNotLonger(b, k, a, j);
    BaseNotLonger(a, j, b, k);
    assert Candidate(b, k)[..|b|] == b && Candidate(a, j)[..|a|] == a;
  }

  /** Every taken name is an input name, or a candidate of one, among those processed. */
  ghost predicate Accounted(done: seq<string>, taken: set<string>) {
    forall n :: n in taken ==> n in done || FromCandidates(done, n)
  }

  ghost predicate FromCandidates(done: seq<string>, n: string) {
    exists b, k: nat :: b in done && n == Candidate(b, k)
  }

  lemma {:induction false} FreeNameIs(taken: set<string>, base: string, i: nat)
    ensures FreeName(taken, base, i) !in taken
    ensures exists k: nat :: FreeName(taken, base, i) == Candidate(base, k)
    ensures Candidate(base, i) !in taken ==> FreeName(taken, base, i) == Candidate(base, i)
    decreases TakenFrom(taken, base, i)
  {
    if Candidate(base, i) in taken {
      TakenShrinks(taken, base, i);
      FreeNameIs(taken, base, i + 1);
    }
  }

  lemma AccountedStep(x: Sides, done: seq<string>, o: Outcome, a: string)
    requires Accounted(done, o.taken) && (a in x.center || a in x.local)
    ensures Accounted(done + [a], MergeAlias(x, o, a).taken)
  {
    FreeNameIs(o.taken + {a}, a, 2);
    var o' := MergeAlias(x, o, a);
    forall n | n in o'.taken ensures n in done + [a] || FromCandidates(done + [a], n) {
      assert a in done + [a];
      if n in o.taken && n !in done {
        var b, k: nat :| b in done && n == Candidate(b, k);
        assert b in done + [a];
      }
    }
  }

  ghost predicate AccountedAt(x: Sides, aliases: seq<string>, n: nat)
    requires Known(x, aliases) && n <= |aliases|
  {
    Accounted(aliases[..n], MergeAll(x, aliases[..n]).taken)
  }

  lemma AccountedNext(x: Sides, aliases: seq<string>, n: nat)
    requires Known(x, aliases) && Sorted(aliases) && n < |aliases| && AccountedAt(x, aliases, n)
    ensures AccountedAt(x, aliases, n + 1)
  {
    MergeAllStep(x, aliases, n);
    NotBefore(aliases, n);
    AccountedStep(x, aliases[..n], MergeAll(x, aliases[..n]), aliases[n]);
  }

  lemma {:induction false} AccountedUpTo(x: Sides, aliases: seq<string>, n: nat)
    requires Known(x, aliases) && Sorted(aliases) && n <= |aliases|
    ensures AccountedAt(x, aliases, n)
  {
    if n > 0 {
      AccountedUpTo(x, aliases, n - 1);
      AccountedNext(x, aliases, n - 1);
    }
  }

  lemma AliasGrows(x: Sides, o: Outcome, a: string)
    requires a in x.center || a in x.local
    ensures o.entries <= MergeAlias(x, o, a).entries
  {
  }

  lemma PrefixTransitive<T>(a: seq<T>, b: seq<T>, c: seq<T>)
    requires a <= b && b <= c
    ensures a <= c
  {
  }

  ghost function EntriesAt(x: Sides, aliases: seq<string>, n: nat): seq<Entry>
    requires Known(x, aliases) && n <= |aliases|
  {
    MergeAll(x, aliases[..n]).entries
  }

  lemma EntriesStep(x: Sides, aliases: seq<string>, n: nat)
    requires Known(x, aliases) && n < |aliases|
    ensures EntriesAt(x, aliases, n) <= EntriesAt(x, aliases, n + 1)
  {
    MergeAllStep(x, aliases, n);
    AliasGrows(x, MergeAll(x, aliases[..n]), aliases[n]);
  }

  lemma {:induction false} EntriesGrow(x: Sides, aliases: seq<string>, m: nat, n: nat)
    requires Known(x, aliases) && m <= n <= |aliases|
    ensures EntriesAt(x, aliases, m) <= EntriesAt(x, aliases, n)
    decreases n
  {
    if m < n {
      EntriesGrow(x, aliases, m, n - 1);
      EntriesStep(x, aliases, n - 1);
      PrefixTransitive(EntriesAt(x, aliases, m), EntriesAt(x, aliases, n - 1), EntriesAt(x, aliases, n));
    }
  }

  lemma PlaceInOrder(aliases: seq<string>, a: string, b: string) returns (i: nat, j: nat)
    requires Sorted(aliases) && a in aliases && b in aliases && Less(a, b)
    ensures i < j < |aliases| && aliases[i] == a && aliases[j] == b
  {
    i :| 0 <= i < |aliases| && aliases[i] == a;
    j :| 0 <= j < |aliases| && aliases[j] == b;
    if j < i {
      LessTransitive(a, b, a);
      LessIrreflexive(a);
    } else if i == j {
      LessIrreflexive(a);
    }
  }

  /** The first candidate is still free when its base is processed. */
  lemma FirstCandidateFree(x: Sides, aliases: seq<string>, i: nat, j: nat)
    requires Known(x, aliases) && Sorted(aliases) && i < j < |aliases| && aliases[j] == NewName(aliases[i])
    ensures Known(x, aliases[..i])
    ensures AllocName(MergeAll(x, aliases[..i]).taken + {aliases[i]}, aliases[i]) == aliases[j]
  {
    AccountedUpTo(x, aliases, i);
    var taken, a, b := MergeAll(x, aliases[..i]).taken, aliases[i], aliases[j];
    if b in aliases[..i] {
      var p :| 0 <= p < i && aliases[p] == b;
      SortedDistinct(aliases, p, j);
    }
    if FromCandidates(aliases[..i], b) {
      var c, k: nat :| c in aliases[..i] && b == Candidate(c, k);
      CandidateBase(c, k, a, 2);
      NotBefore(aliases, i);
    }
    assert |b| > |a|;
    FreeNameIs(taken + {a}, a, 2);
  }

  /** Without free new names the merged names are not unique. */
  lemma Collides(x: Sides)
    requires Indexed(x) && !RenameFree(x)
    ensures Known(x, AllAliases(x)) && !UniqueKeys(MergeAll(x, AllAliases(x)).entries, EntryName)
  {
    var aliases := AllAliases(x);
    var a :| Incomparable(x, a) && (NewName(a) in x.center || NewName(a) in x.local);
    NewNameLater(a);
    var i, j := PlaceInOrder(aliases, a, NewName(a));
    CollidesAt(x, aliases, i, j);
    EntriesAll(x, aliases);
  }

  lemma NewNameLater(a: string)
    ensures Less(a, NewName(a))
  {
    PrefixLess(a, "#local" + Decimal(2));
    assert a + ("#local" + Decimal(2)) == NewName(a);
  }

  lemma EntriesAll(x: Sides, aliases: seq<string>)
    requires Known(x, aliases)
    ensures EntriesAt(x, aliases, |aliases|) == MergeAll(x, aliases).entries
  {
    assert aliases[..|aliases|] == aliases;
  }

  lemma CollidesAt(x: Sides, aliases: seq<string>, i: nat, j: nat)
    requires Indexed(x) && Known(x, aliases) && Sorted(aliases) && i < j < |aliases|
    requires Incomparable(x, aliases[i]) && aliases[j] == NewName(aliases[i])
    ensures !UniqueKeys(EntriesAt(x, aliases, |aliases|), EntryName)
  {
    FirstCandidateFree(x, aliases, i, j);
    RenamedAt(x, aliases, i);
    RenamedCopy(x, aliases, i, aliases[j]);
    Duplicate(x, aliases, i, j);
  }

  ghost function Copies(es: seq<Entry>, n: string): nat {
    if es == [] then 0 else Copies(es[..|es| - 1], n) + (if EntryName(es[|es| - 1]) == n then 1 else 0)
  }

  lemma {:induction false} CopiesAppend(a: seq<Entry>, b: seq<Entry>, n: string)
    ensures Copies(a + b, n) == Copies(a, n) + Copies(b, n)
  {
    if b == [] {
      assert a + b == a;
    } else {
      assert (a + b)[..|a + b| - 1] == a + b[..|b| - 1];
      CopiesAppend(a, b[..|b| - 1], n);
    }
  }

  lemma CopiesPrefix(a: seq<Entry>, b: seq<Entry>, n: string)
    requires a <= b
    ensures Copies(a, n) <= Copies(b, n)
  {
    assert a + b[|a|..] == b;
    CopiesAppend(a, b[|a|..], n);
  }

  lemma {:induction false} CopiesPositive(es: seq<Entry>, n: string)
    ensures Copies(es, n) > 0 ==> exists i :: 0 <= i < |es| && EntryName(es[i]) == n
  {
    if es != [] {
      CopiesPositive(es[..|es| - 1], n);
    }
  }

  lemma {:induction false} UniqueOnce(es: seq<Entry>, n: string)
    requires UniqueKeys(es, EntryName)
    ensures Copies(es, n) <= 1
  {
    if es != [] {
      UniqueOnce(es[..|es| - 1], n);
      CopiesPositive(es[..|es| - 1], n);
    }
  }

  ghost function CopiesAt(x: Sides, aliases: seq<string>, k: nat, n: string): nat
    requires Known(x, aliases) && k <= |aliases|
  {
    Copies(EntriesAt(x, aliases, k), n)
  }

  lemma CopiesGrow(x: Sides, aliases: seq<string>, j: nat, k: nat, n: string)
    requires Known(x, aliases) && j <= k <= |aliases|
    ensures CopiesAt(x, aliases, j, n) <= CopiesAt(x, aliases, k, n)
  {
    EntriesGrow(x, aliases, j, k);
    CopiesPrefix(EntriesAt(x, aliases, j), EntriesAt(x, aliases, k), n);
  }

  lemma CopiesMain(x: Sides, aliases: seq<string>, j: nat)
    requires Indexed(x) && Known(x, aliases) && j < |aliases|
    ensures CopiesAt(x, aliases, j + 1, aliases[j]) >= CopiesAt(x, aliases, j, aliases[j]) + 1
  {
    MainAt(x, aliases, j);
    var before, after := EntriesAt(x, aliases, j), EntriesAt(x, aliases, j + 1);
    CopiesPrefix(after[..|before| + 1], after, aliases[j]);
    assert after[..|before| + 1][..|before|] == before;
  }

  lemma TwoCopies(x: Sides, aliases: seq<string>, i: nat, j: nat)
    requires Indexed(x) && Known(x, aliases) && i < j < |aliases|
    requires CopiesAt(x, aliases, i + 1, aliases[j]) > 0
    ensures CopiesAt(x, aliases, |aliases|, aliases[j]) >= 2
  {
    hide CopiesAt;
    CopiesGrow(x, aliases, i + 1, j, aliases[j]);
    CopiesMain(x, aliases, j);
    CopiesGrow(x, aliases, j + 1, |aliases|, aliases[j]);
  }

  lemma NotUnique(es: seq<Entry>, n: string)
    requires Copies(es, n) >= 2
    ensures !UniqueKeys(es, EntryName)
  {
    if UniqueKeys(es, EntryName) {
      UniqueOnce(es, n);
    }
  }

  lemma Duplicate(x: Sides, aliases: seq<string>, i: nat, j: nat)
    requires Indexed(x) && Known(x, aliases) && i < j < |aliases|
    requires CopiesAt(x, aliases, i + 1, aliases[j]) > 0
    ensures !UniqueKeys(EntriesAt(x, aliases, |aliases|), EntryName)
  {
    TwoCopies(x, aliases, i, j);
    NotUnique(EntriesAt(x, aliases, |aliases|), aliases[j]);
  }

  lemma RenamedCopy(x: Sides, aliases: seq<string>, i: nat, n: string)
    requires Known(x, aliases) && i < |aliases| && LastName(EntriesAt(x, aliases, i + 1), n)
    ensures CopiesAt(x, aliases, i + 1, n) > 0
  {
  }

  ghost predicate LastName(es: seq<Entry>, n: string) {
    es != [] && EntryName(es[|es| - 1]) == n
  }

  lemma RenamedAt(x: Sides, aliases: seq<string>, i: nat)
    requires Known(x, aliases) && i < |aliases| && Incomparable(x, aliases[i]) && Known(x, aliases[..i])
    ensures LastName(EntriesAt(x, aliases, i + 1),
      AllocName(MergeAll(x, aliases[..i]).taken + {aliases[i]}, aliases[i]))
  {
    MergeAllStep(x, aliases, i);
    RenamedEmitted(x, MergeAll(x, aliases[..i]), aliases[i]);
  }

  lemma MainAt(x: Sides, aliases: seq<string>, j: nat)
    requires Indexed(x) && Known(x, aliases) && j < |aliases|
    ensures EntriesAt(x, aliases, j) < EntriesAt(x, aliases, j + 1)
    ensures EntryName(EntriesAt(x, aliases, j + 1)[|EntriesAt(x, aliases, j)|]) == aliases[j]
  {
    MergeAllStep(x, aliases, j);
    MainEmitted(x, MergeAll(x, aliases[..j]), aliases[j]);
  }

  lemma RenamedEmitted(x: Sides, o: Outcome, a: string)
    requires Incomparable(x, a)
    ensures
      var es := MergeAlias(x, o, a).entries;
      |es| == |o.entries| + 2 && o.entries <= es && EntryName(es[|es| - 1]) == AllocName(o.taken + {a}, a)
  {
  }

  lemma MainEmitted(x: Sides, o: Outcome, a: string)
    requires Indexed(x) && (a in x.center || a in x.local)
    ensures
      var es := MergeAlias(x, o, a).entries;
      o.entries < es && EntryName(es[|o.entries|]) == a
  {
  }

  ghost predicate Contains(s: string, sub: string) {
    exists i :: 0 <= i <= |s| && sub <= s[i..]
  }

  /** Input names without the marker never collide with a new name. */
  lemma NoMarkerRenameFree(x: Sides)
    requires forall a :: a in x.center || a in x.local ==> !Contains(a, "#local")
    ensures RenameFree(x)
  {
    forall a ensures Contains(NewName(a), "#local") {
      assert NewName(a)[|a|..] == "#local" + Decimal(2);
    }
  }
}
