/** Comparing the routing chains that two sides hold for one public model name. */
module ChainCompare {
  import opened Folds

  datatype Level = L0 | L1 | L2c | L2l | L3

  // ---------- Subsequence ----------

  /** How much of `short` a greedy scan of `long` matches. */
  function Matched(short: seq<string>, long: seq<string>): (i: nat)
    ensures i <= |short|
  {
    if long == [] then 0 else
    var i := Matched(short, long[..|long| - 1]);
    if i < |short| && short[i] == long[|long| - 1] then i + 1 else i
  }

  method IsSubsequence(short: seq<string>, long: seq<string>) returns (r: bool)
    ensures r <==> Embeds(short, long)
  {
    var i := 0;
    var j := 0;
    while j < |long|
      invariant 0 <= j <= |long|
      invariant i == Matched(short, long[..j])
    {
      assert long[..j + 1][..j] == long[..j];
      if i < |short| && short[i] == long[j] {
        i := i + 1;
      }
      j := j + 1;
    }
    assert long[..j] == long;
    GreedyIffEmbeds(short, long);
    return i == |short|;
  }

  /** `at` picks increasing positions of `long` that spell `short`. */
  ghost predicate Embedding(short: seq<string>, long: seq<string>, at: seq<nat>) {
    && |at| == |short|
    && (forall k :: 0 <= k < |at| ==> at[k] < |long| && long[at[k]] == short[k])
    && (forall k, l :: 0 <= k < l < |at| ==> at[k] < at[l])
  }

  ghost predicate Embeds(short: seq<string>, long: seq<string>) {
    exists at :: Embedding(short, long, at)
  }

  lemma {:induction false} GreedySound(short: seq<string>, long: seq<string>) returns (at: seq<nat>)
    ensures Embedding(short[..Matched(short, long)], long, at)
  {
    if long == [] {
      at := [];
    } else {
      var n := |long| - 1;
      at := GreedySound(short, long[..n]);
      var i := Matched(short, long[..n]);
      if i < |short| && short[i] == long[n] {
        at := at + [n];
      }
    }
  }

  lemma {:induction false} GreedyComplete(short: seq<string>, long: seq<string>, k: nat, at: seq<nat>)
    requires k <= |short| && Embedding(short[..k], long, at)
    ensures Matched(short, long) >= k
  {
    if k > 0 {
      assert at[k - 1] < |long|;
      var n := |long| - 1;
      if at[k - 1] == n {
        assert Embedding(short[..k - 1], long[..n], at[..k - 1]);
        GreedyComplete(short, long[..n], k - 1, at[..k - 1]);
      } else {
        assert Embedding(short[..k], long[..n], at);
        GreedyComplete(short, long[..n], k, at);
      }
    }
  }

  /** The greedy scan is complete: it finds an order-preserving embedding whenever there is one. */
  lemma GreedyIffEmbeds(short: seq<string>, long: seq<string>)
    ensures Matched(short, long) == |short| <==> Embeds(short, long)
  {
    if Matched(short, long) == |short| {
      var at := GreedySound(short, long);
      assert short[..|short|] == short;
    }
    if Embeds(short, long) {
      var at :| Embedding(short, long, at);
      assert short[..|short|] == short;
      GreedyComplete(short, long, |short|, at);
    }
  }

  /** An increasing sequence of positions leaves room for the earlier ones. */
  lemma {:induction false} PositionsGrow(at: seq<nat>, k: nat)
    requires k < |at| && forall i, j :: 0 <= i < j < |at| ==> at[i] < at[j]
    ensures at[k] >= k
  {
    if k > 0 {
      PositionsGrow(at, k - 1);
    }
  }

  lemma PositionsBounded(at: seq<nat>, n: nat, k: nat)
    requires k < |at| && |at| == n
    requires forall i, j :: 0 <= i < j < |at| ==> at[i] < at[j]
    requires forall i :: 0 <= i < |at| ==> at[i] < n
    ensures at[k] <= k
    decreases |at| - k
  {
    if k + 1 < |at| {
      PositionsBounded(at, n, k + 1);
    }
  }

  lemma EmbedsShorter(short: seq<string>, long: seq<string>)
    requires Embeds(short, long)
    ensures |short| <= |long|
  {
    var at :| Embedding(short, long, at);
    if short != [] {
      PositionsGrow(at, |short| - 1);
    }
  }

  lemma EqualLengthEmbeds(a: seq<string>, b: seq<string>)
    requires Embeds(a, b) && |a| == |b|
    ensures a == b
  {
    var at :| Embedding(a, b, at);
    forall k | 0 <= k < |a| ensures a[k] == b[k] {
      PositionsGrow(at, k);
      PositionsBounded(at, |b|, k);
    }
  }

  lemma EmbedsAntisymmetric(a: seq<string>, b: seq<string>)
    requires Embeds(a, b) && Embeds(b, a)
    ensures a == b
  {
    EmbedsShorter(a, b);
    EmbedsShorter(b, a);
    EqualLengthEmbeds(a, b);
  }

  // ---------- Multiset ----------

  method CountUp(a: seq<string>) returns (cnt: map<string, int>)
    ensures forall x :: Count(cnt, x) == multiset(a)[x]
  {
    cnt := map[];
    var i := 0;
    while i < |a|
      invariant 0 <= i <= |a|
      invariant forall x :: Count(cnt, x) == multiset(a[..i])[x]
    {
      assert a[..i + 1] == a[..i] + [a[i]];
      cnt := cnt[a[i] := Count(cnt, a[i]) + 1];
      i := i + 1;
    }
    assert a[..i] == a;
  }

  method SameMultiset(a: seq<string>, b: seq<string>) returns (r: bool)
    ensures r <==> multiset(a) == multiset(b)
  {
    if |a| != |b| {
      SameMultisetLength(a, b);
      return false;
    }
    var cnt := CountUp(a);
    var j := 0;
    while j < |b|
      invariant 0 <= j <= |b|
      invariant forall x :: Count(cnt, x) + multiset(b[..j])[x] == multiset(a)[x]
      invariant forall x :: Count(cnt, x) >= 0
    {
      PrefixCount(b, j);
      cnt := cnt[b[j] := Count(cnt, b[j]) - 1];
      if Count(cnt, b[j]) < 0 {
        return false;
      }
      j := j + 1;
    }
    assert b[..j] == b;
    SubMultiset(multiset(a), multiset(b));
    return true;
  }

  lemma PrefixCount(b: seq<string>, j: nat)
    requires j < |b|
    ensures multiset(b[..j + 1]) == multiset(b[..j]) + multiset{b[j]}
    ensures multiset(b)[b[j]] > multiset(b[..j])[b[j]]
  {
    assert b[..j + 1] == b[..j] + [b[j]];
    assert b == b[..j + 1] + b[j + 1..];
  }

  function Count(cnt: map<string, int>, x: string): int {
    if x in cnt then cnt[x] else 0
  }

  lemma SameMultisetLength(a: seq<string>, b: seq<string>)
    requires |a| != |b|
    ensures multiset(a) != multiset(b)
  {
    assert |multiset(a)| == |a| && |multiset(b)| == |b|;
  }

  lemma SubMultiset(a: multiset<string>, b: multiset<string>)
    requires b <= a && |a| == |b|
    ensures a == b
  {
    assert a == b + (a - b);
    assert |a - b| == 0;
  }

  // ---------- The relation of two chains ----------

  /** The code compares hashes of the node sequences first; here a sequence is its own signature. */
  ghost function Compare(center: seq<string>, local: seq<string>): Level {
    if center == local then L0
    else if |center| == |local| && multiset(center) == multiset(local) then L1
    else if Embeds(local, center) then L2c
    else if Embeds(center, local) then L2l
    else L3
  }

  method CompareNodes(center: seq<string>, local: seq<string>) returns (level: Level)
    ensures level == Compare(center, local)
  {
    if center == local {
      return L0;
    }
    if |center| == |local| {
      var same := SameMultiset(center, local);
      if same {
        return L1;
      }
    }
    var c := IsSubsequence(local, center);
    if c {
      return L2c;
    }
    var l := IsSubsequence(center, local);
    return if l then L2l else L3;
  }

  function Mirror(level: Level): Level {
    match level
    case L2c => L2l
    case L2l => L2c
    case _ => level
  }

  /** Swapping the sides exchanges the two subchain levels and keeps the others. */
  lemma CompareMirrored(center: seq<string>, local: seq<string>)
    ensures Compare(local, center) == Mirror(Compare(center, local))
  {
    if Embeds(center, local) && Embeds(local, center) {
      EmbedsAntisymmetric(center, local);
    }
  }

  /** A subchain level means a strictly longer chain on the kept side. */
  lemma SubchainIsShorter(center: seq<string>, local: seq<string>)
    ensures Compare(center, local) == L2c ==> |local| < |center|
    ensures Compare(center, local) == L2l ==> |center| < |local|
  {
    if Embeds(local, center) {
      EmbedsShorter(local, center);
      if |local| == |center| {
        EqualLengthEmbeds(local, center);
      }
    }
    if Embeds(center, local) {
      EmbedsShorter(center, local);
      if |local| == |center| {
        EqualLengthEmbeds(center, local);
      }
    }
  }
}
