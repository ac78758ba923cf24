/** The row merge of the bundle: center rows first, local-only rows after them, and the
    rule deciding which side a shared key takes its row from. */
module RowMerge {
  import opened Folds
  import opened Tables

  /** The first position of a key, or the length. */
  function Find<K(==), R>(rows: seq<R>, key: R -> K, k: K): (i: nat)
    ensures i <= |rows|
    ensures i < |rows| ==> key(rows[i]) == k
    ensures forall j :: 0 <= j < i ==> key(rows[j]) != k
  {
    if rows == [] then 0 else
    var i := Find(rows[..|rows| - 1], key, k);
    if i < |rows| - 1 then i else if key(rows[|rows| - 1]) == k then |rows| - 1 else |rows|
  }

  function Put<K(==), R>(out: seq<R>, r: R, key: R -> K, centerFirst: bool): seq<R> {
    var i := Find(out, key, key(r));
    if i == |out| then out + [r] else if centerFirst then out else out[i := r]
  }

  function PutAll<K(==), R>(out: seq<R>, rows: seq<R>, key: R -> K, centerFirst: bool): seq<R> {
    if rows == [] then out else
    Put(PutAll(out, rows[..|rows| - 1], key, centerFirst), rows[|rows| - 1], key, centerFirst)
  }

  /** The keys of the rows that meet a different row under their key. */
  function Clashes<K(==), R(==)>(out: seq<R>, rows: seq<R>, key: R -> K, centerFirst: bool): seq<K> {
    if rows == [] then [] else
    var init, last := rows[..|rows| - 1], rows[|rows| - 1];
    var met := PutAll(out, init, key, centerFirst);
    var i := Find(met, key, key(last));
    Clashes(out, init, key, centerFirst) + (if i < |met| && met[i] != last then [key(last)] else [])
  }

  function MergedRows<K(==), R>(center: seq<R>, local: seq<R>, key: R -> K, centerFirst: bool): seq<R> {
    PutAll(PutAll([], center, key, centerFirst), local, key, centerFirst)
  }

  ghost predicate Indexed<K, R>(out: seq<R>, idx: map<K, nat>, key: R -> K) {
    && (forall k :: k in idx ==> idx[k] < |out| && key(out[idx[k]]) == k)
    && (forall i :: 0 <= i < |out| ==> key(out[i]) in idx && idx[key(out[i])] == i)
  }

  lemma FindIndexed<K, R>(out: seq<R>, idx: map<K, nat>, key: R -> K, k: K)
    requires Indexed(out, idx, key)
    ensures Find(out, key, k) == if k in idx then idx[k] else |out|
  {
  }

  lemma IndexedAfter<K, R>(out: seq<R>, idx: map<K, nat>, key: R -> K, r: R)
    requires Indexed(out, idx, key)
    ensures key(r) in idx ==> Indexed(out[idx[key(r)] := r], idx, key)
    ensures key(r) !in idx ==> Indexed(out + [r], idx[key(r) := |out|], key)
  {
  }

  /** The keys of the rows appended after the first `n`. */
  ghost predicate AppendedAfter<K, R>(out: seq<R>, n: nat, added: seq<K>, key: R -> K) {
    |out| == n + |added| && forall j :: 0 <= j < |added| ==> added[j] == key(out[n + j])
  }

  lemma AppendedStep<K, R>(out: seq<R>, n: nat, added: seq<K>, key: R -> K, r: R)
    requires AppendedAfter(out, n, added, key)
    ensures AppendedAfter(out + [r], n, added + [key(r)], key)
    ensures forall i :: 0 <= i < |out| && key(out[i]) == key(r) ==> AppendedAfter(out[i := r], n, added, key)
  {
  }

  /** What one row does to the table and to the conflicts. */
  lemma PutStep<K, R>(out0: seq<R>, rows: seq<R>, i: nat, key: R -> K, centerFirst: bool, idx: map<K, nat>)
    requires i < |rows| && Indexed(PutAll(out0, rows[..i], key, centerFirst), idx, key)
    ensures
      var out, r := PutAll(out0, rows[..i], key, centerFirst), rows[i];
      var clash := key(r) in idx && out[idx[key(r)]] != r;
      && PutAll(out0, rows[..i + 1], key, centerFirst) ==
           (if key(r) !in idx then out + [r] else if clash && !centerFirst then out[idx[key(r)] := r] else out)
      && Clashes(out0, rows[..i + 1], key, centerFirst) ==
           Clashes(out0, rows[..i], key, centerFirst) + (if clash then [key(r)] else [])
  {
    assert rows[..i + 1][..i] == rows[..i];
    FindIndexed(PutAll(out0, rows[..i], key, centerFirst), idx, key, key(rows[i]));
  }

  method AddRows<K(==), R(==)>(out0: seq<R>, idx0: map<K, nat>, rows: seq<R>, key: R -> K, centerFirst: bool)
    returns (out: seq<R>, idx: map<K, nat>, added: seq<K>, conflicts: seq<K>)
    requires Indexed(out0, idx0, key)
    ensures Indexed(out, idx, key)
    ensures out == PutAll(out0, rows, key, centerFirst)
    ensures AppendedAfter(out, |out0|, added, key)
    ensures conflicts == Clashes(out0, rows, key, centerFirst)
  {
    out, idx, added, conflicts := out0, idx0, [], [];
    var i := 0;
    while i < |rows|
      invariant 0 <= i <= |rows|
      invariant Indexed(out, idx, key)
      invariant out == PutAll(out0, rows[..i], key, centerFirst)
      invariant AppendedAfter(out, |out0|, added, key)
      invariant conflicts == Clashes(out0, rows[..i], key, centerFirst)
    {
      var r := rows[i];
      var k := key(r);
      PutStep(out0, rows, i, key, centerFirst, idx);
      IndexedAfter(out, idx, key, r);
      AppendedStep(out, |out0|, added, key, r);
      if k in idx {
        if out[idx[k]] != r {
          conflicts := conflicts + [k];
          if !centerFirst {
            out := out[idx[k] := r];
          }
        }
      } else {
        idx := idx[k := |out|];
        out := out + [r];
        added := added + [k];
      }
      i := i + 1;
    }
    assert rows[..i] == rows;
  }

  method MergeRows<K(==), R(==)>(center: seq<R>, local: seq<R>, key: R -> K, centerFirst: bool)
    returns (out: seq<R>, localOnly: seq<K>, conflicts: seq<K>)
    ensures out == MergedRows(center, local, key, centerFirst)
    ensures AppendedAfter(out, |PutAll([], center, key, centerFirst)|, localOnly, key)
    ensures conflicts == Clashes([], center, key, centerFirst)
      + Clashes(PutAll([], center, key, centerFirst), local, key, centerFirst)
  {
    var base, idx, added, own := AddRows([], map[], center, key, centerFirst);
    var more;
    out, idx, localOnly, more := AddRows(base, idx, local, key, centerFirst);
    conflicts := own + more;
  }

  // ---------- What the merge is, on tables with unique keys ----------

  /** The row that a center row gives way to. */
  function Pick<K(==), R>(c: R, local: seq<R>, key: R -> K, centerFirst: bool): R {
    if local == [] || centerFirst then c else
    var last := local[|local| - 1];
    if key(last) == key(c) then last else Pick(c, local[..|local| - 1], key, centerFirst)
  }

  lemma {:induction false} PickIs<K, R>(c: R, local: seq<R>, key: R -> K, centerFirst: bool)
    requires UniqueKeys(local, key)
    ensures key(Pick(c, local, key, centerFirst)) == key(c)
    ensures Pick(c, local, key, centerFirst) == c || Pick(c, local, key, centerFirst) in local
    ensures forall l :: !centerFirst && l in local && key(l) == key(c) ==> Pick(c, local, key, centerFirst) == l
  {
    if local != [] && !centerFirst {
      PickIs(c, local[..|local| - 1], key, centerFirst);
      Snoc(local);
    }
  }

  ghost function Patched<K, R>(center: seq<R>, local: seq<R>, key: R -> K, centerFirst: bool): (r: seq<R>)
    ensures |r| == |center|
    ensures forall i :: 0 <= i < |r| ==> r[i] == Pick(center[i], local, key, centerFirst)
  {
    seq(|center|, i requires 0 <= i < |center| => Pick(center[i], local, key, centerFirst))
  }

  lemma {:induction false} PutAllOwn<K, R>(rows: seq<R>, key: R -> K, centerFirst: bool)
    requires UniqueKeys(rows, key)
    ensures PutAll([], rows, key, centerFirst) == rows
  {
    if rows != [] {
      var init, last := rows[..|rows| - 1], rows[|rows| - 1];
      PutAllOwn(init, key, centerFirst);
      var i := Find(init, key, key(last));
      Snoc(rows);
    }
  }

  lemma PatchedStep<K, R>(center: seq<R>, init: seq<R>, last: R, key: R -> K, centerFirst: bool, i: nat)
    requires UniqueKeys(center, key) && UniqueKeys(init, key)
    requires i < |center| && key(center[i]) == key(last)
    ensures Patched(center, init + [last], key, centerFirst) ==
      if centerFirst then Patched(center, init, key, centerFirst)
      else Patched(center, init, key, centerFirst)[i := last]
  {
    assert (init + [last])[..|init|] == init;
  }

  lemma PatchedSame<K, R>(center: seq<R>, init: seq<R>, last: R, key: R -> K, centerFirst: bool)
    requires key(last) !in KeysOf(center, key)
    ensures Patched(center, init + [last], key, centerFirst) == Patched(center, init, key, centerFirst)
  {
    assert (init + [last])[..|init|] == init;
    forall i | 0 <= i < |center|
      ensures Patched(center, init + [last], key, centerFirst)[i] == Patched(center, init, key, centerFirst)[i]
    {
      assert center[i] in center;
    }
  }

  /** The merge patches the center's rows and appends the rows that only the local side has. */
  lemma {:induction false} MergedIs<K, R>(center: seq<R>, local: seq<R>, key: R -> K, centerFirst: bool)
    requires UniqueKeys(center, key) && UniqueKeys(local, key)
    ensures MergedRows(center, local, key, centerFirst) ==
      Patched(center, local, key, centerFirst) + Without(local, key, KeysOf(center, key))
  {
    PutAllOwn(center, key, centerFirst);
    PutAllIs(center, local, key, centerFirst);
  }

  /** The last row replaces, or not, the patched row of its key. */
  lemma PutShared<K, R>(center: seq<R>, init: seq<R>, own: seq<R>, last: R, key: R -> K, centerFirst: bool)
    requires UniqueKeys(center, key) && UniqueKeys(init, key) && key(last) in KeysOf(center, key)
    ensures Put(Patched(center, init, key, centerFirst) + own, last, key, centerFirst) ==
      Patched(center, init + [last], key, centerFirst) + own
  {
    var patched := Patched(center, init, key, centerFirst);
    var c :| c in center && key(c) == key(last);
    var i :| 0 <= i < |center| && center[i] == c;
    forall j | 0 <= j < |center| ensures key((patched + own)[j]) == key(center[j]) {
      PickIs(center[j], init, key, centerFirst);
    }
    assert Find(patched + own, key, key(last)) == i;
    PatchedStep(center, init, last, key, centerFirst, i);
    assert (patched + own)[i := last] == patched[i := last] + own;
  }

  /** A row with a new key goes to the end. */
  lemma PutNew<K, R>(center: seq<R>, init: seq<R>, last: R, key: R -> K, centerFirst: bool)
    requires UniqueKeys(center, key) && UniqueKeys(init + [last], key) && UniqueKeys(init, key)
    requires key(last) !in KeysOf(center, key)
    ensures
      var own := Without(init, key, KeysOf(center, key));
      Put(Patched(center, init, key, centerFirst) + own, last, key, centerFirst) ==
        Patched(center, init + [last], key, centerFirst) + (own + [last])
  {
    var patched, own := Patched(center, init, key, centerFirst), Without(init, key, KeysOf(center, key));
    WithoutMembers(init, key, KeysOf(center, key));
    forall j | 0 <= j < |patched + own| ensures key((patched + own)[j]) != key(last) {
      if j < |patched| {
        PickIs(center[j], init, key, centerFirst);
        assert center[j] in center;
      } else {
        assert own[j - |patched|] in own && own[j - |patched|] in init;
        var m :| 0 <= m < |init| && init[m] == own[j - |patched|];
        assert (init + [last])[m] == init[m] && (init + [last])[|init|] == last;
      }
    }
    assert Find(patched + own, key, key(last)) == |patched + own|;
    PatchedSame(center, init, last, key, centerFirst);
    assert patched + own + [last] == patched + (own + [last]);
  }

  lemma {:induction false} PutAllIs<K, R>(center: seq<R>, local: seq<R>, key: R -> K, centerFirst: bool)
    requires UniqueKeys(center, key) && UniqueKeys(local, key)
    ensures PutAll(center, local, key, centerFirst) ==
      Patched(center, local, key, centerFirst) + Without(local, key, KeysOf(center, key))
  {
    if local == [] {
      assert Patched(center, local, key, centerFirst) == center;
    } else {
      var init, last := local[..|local| - 1], local[|local| - 1];
      PutAllIs(center, init, key, centerFirst);
      Snoc(local);
      if key(last) in KeysOf(center, key) {
        PutShared(center, init, Without(init, key, KeysOf(center, key)), last, key, centerFirst);
      } else {
        PutNew(center, init, last, key, centerFirst);
      }
    }
  }

  /** Keys are united and stay unique; every row comes from one of the sides. */
  lemma MergedKeys<K, R>(center: seq<R>, local: seq<R>, key: R -> K, centerFirst: bool)
    requires UniqueKeys(center, key) && UniqueKeys(local, key)
    ensures
      var m := MergedRows(center, local, key, centerFirst);
      && UniqueKeys(m, key)
      && KeysOf(m, key) == KeysOf(center, key) + KeysOf(local, key)
      && forall r :: r in m ==> r in center || r in local
  {
    MergedIs(center, local, key, centerFirst);
    var keys := KeysOf(center, key);
    var patched, own := Patched(center, local, key, centerFirst), Without(local, key, keys);
    forall i | 0 <= i < |center|
      ensures key(patched[i]) == key(center[i]) && (patched[i] == center[i] || patched[i] in local)
    {
      PickIs(center[i], local, key, centerFirst);
    }
    PatchedKeys(center, patched, key);
    WithoutMembers(local, key, keys);
    WithoutUnique(local, key, keys);
    UniqueAppend(patched, own, key);
    AppendKeys(patched, own, key);
    OwnKeys(local, own, key, keys);
  }

  lemma PatchedKeys<K, R>(center: seq<R>, patched: seq<R>, key: R -> K)
    requires |patched| == |center| && forall i :: 0 <= i < |center| ==> key(patched[i]) == key(center[i])
    ensures KeysOf(patched, key) == KeysOf(center, key)
  {
    forall k ensures k in KeysOf(patched, key) <==> k in KeysOf(center, key) {
      if k in KeysOf(patched, key) {
        var r :| r in patched && key(r) == k;
        var i :| 0 <= i < |patched| && patched[i] == r;
        assert center[i] in center;
      }
      if k in KeysOf(center, key) {
        var r :| r in center && key(r) == k;
        var i :| 0 <= i < |center| && center[i] == r;
        assert patched[i] in patched;
      }
    }
  }

  lemma AppendKeys<K, R>(a: seq<R>, b: seq<R>, key: R -> K)
    ensures KeysOf(a + b, key) == KeysOf(a, key) + KeysOf(b, key)
  {
    forall k ensures k in KeysOf(a + b, key) <==> k in KeysOf(a, key) + KeysOf(b, key) {
      if k in KeysOf(a, key) {
        var r :| r in a && key(r) == k;
        assert r in a + b;
      }
      if k in KeysOf(b, key) {
        var r :| r in b && key(r) == k;
        assert r in a + b;
      }
    }
  }

  lemma OwnKeys<K, R>(local: seq<R>, own: seq<R>, key: R -> K, keys: set<K>)
    requires own == Without(local, key, keys)
    ensures keys + KeysOf(own, key) == keys + KeysOf(local, key)
  {
    WithoutMembers(local, key, keys);
    forall k ensures k in keys + KeysOf(own, key) <==> k in keys + KeysOf(local, key) {
      if k in KeysOf(local, key) && k !in keys {
        var r :| r in local && key(r) == k;
        assert r in own;
      }
    }
  }

  /** Patching with the merge gives the patched rows again. */
  lemma PatchedAgain<K, R>(center: seq<R>, local: seq<R>, m: seq<R>, key: R -> K, centerFirst: bool)
    requires UniqueKeys(center, key) && UniqueKeys(local, key) && UniqueKeys(m, key)
    requires Patched(center, local, key, centerFirst) <= m
    ensures Patched(center, m, key, centerFirst) == Patched(center, local, key, centerFirst)
  {
    var patched := Patched(center, local, key, centerFirst);
    forall i | 0 <= i < |center| ensures Pick(center[i], m, key, centerFirst) == patched[i] {
      PickIs(center[i], local, key, centerFirst);
      PickIs(center[i], m, key, centerFirst);
      assert m[i] == patched[i] && m[i] in m;
    }
  }

  lemma OwnAgain<K, R>(center: seq<R>, local: seq<R>, key: R -> K, centerFirst: bool)
    requires UniqueKeys(center, key) && UniqueKeys(local, key)
    ensures
      var own := Without(local, key, KeysOf(center, key));
      Without(Patched(center, local, key, centerFirst) + own, key, KeysOf(center, key)) == own
  {
    var keys := KeysOf(center, key);
    var patched, own := Patched(center, local, key, centerFirst), Without(local, key, keys);
    WithoutAppend(patched, own, key, keys);
    forall r | r in patched ensures key(r) in keys {
      var i :| 0 <= i < |patched| && patched[i] == r;
      PickIs(center[i], local, key, centerFirst);
      assert center[i] in center;
    }
    WithoutAll(patched, key, keys);
    WithoutMembers(local, key, keys);
    WithoutNone(own, key, keys);
  }

  /** Merging the merge again with the same center gives the merge back, row by row. */
  lemma MergedAbsorbs<K, R>(center: seq<R>, local: seq<R>, key: R -> K, centerFirst: bool)
    requires UniqueKeys(center, key) && UniqueKeys(local, key)
    ensures
      var m := MergedRows(center, local, key, centerFirst);
      MergedRows(center, m, key, centerFirst) == m
  {
    var m := MergedRows(center, local, key, centerFirst);
    MergedKeys(center, local, key, centerFirst);
    MergedIs(center, local, key, centerFirst);
    MergedIs(center, m, key, centerFirst);
    PatchedAgain(center, local, m, key, centerFirst);
    OwnAgain(center, local, key, centerFirst);
  }
}
