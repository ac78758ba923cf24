/** Tables with generated ids and a natural key: updating in place, inserting, deleting the rest. */
module Upserts {
  import opened Folds
  import opened Tables

  /** Rows by id; `next` is above every id that was ever used. */
  datatype Table<R> = Table(rows: map<int, R>, next: int)

  /** Ids are below the next one, and a key identifies its row; rows without a key are not indexed. */
  ghost predicate Sane<K, R>(t: Table<R>, key: R -> Option<K>) {
    && (forall i :: i in t.rows ==> i < t.next)
    && (forall i, j :: i in t.rows && j in t.rows && i != j && key(t.rows[i]).Some? ==>
      key(t.rows[i]) != key(t.rows[j]))
  }

  /** A row to store: the key it is looked up by, and the row to insert or to update to. */
  datatype Item<K, R> = Item(k: K, inserted: R, updated: R)

  ghost predicate GoodItem<K, R>(it: Item<K, R>, key: R -> Option<K>) {
    key(it.updated) == Some(it.k) && (key(it.inserted) == Some(it.k) || key(it.inserted) == None)
  }

  function ItemKey<K, R>(it: Item<K, R>): K { it.k }

  ghost predicate HasRow<K, R>(rows: map<int, R>, key: R -> Option<K>, k: K, id: int) {
    id in rows && key(rows[id]) == Some(k)
  }

  /** What storing one item does. */
  ghost predicate Stored<K, R>(before: Table<R>, after: Table<R>, key: R -> Option<K>, it: Item<K, R>, id: int) {
    if HasRow(before.rows, key, it.k, id)
    then after == Table(before.rows[id := it.updated], before.next)
    else
      && (forall j :: !HasRow(before.rows, key, it.k, j)) && id == before.next
      && after == Table(before.rows[id := it.inserted], before.next + 1)
  }

  method Store<K(==), R>(t: Table<R>, key: R -> Option<K>, it: Item<K, R>) returns (after: Table<R>, id: int)
    requires Sane(t, key) && GoodItem(it, key)
    ensures Sane(after, key) && Stored(t, after, key, it, id)
  {
    if exists j :: j in t.rows && key(t.rows[j]) == Some(it.k) {
      id :| id in t.rows && key(t.rows[id]) == Some(it.k);
      after := Table(t.rows[id := it.updated], t.next);
    } else {
      assert forall j :: !HasRow(t.rows, key, it.k, j);
      id := t.next;
      after := Table(t.rows[id := it.inserted], t.next + 1);
    }
  }

  ghost predicate KeyOrNone<K, R>(key: R -> Option<K>, r: R, k: K) {
    key(r) == Some(k) || key(r) == None
  }

  /** The ids of the stored items: old rows keep theirs, new ones get new ids, all are different. */
  ghost predicate Placed<K, R>(before: Table<R>, after: Table<R>, key: R -> Option<K>, items: seq<Item<K, R>>,
      ids: map<K, int>)
  {
    && ids.Keys == KeysOf(items, ItemKey)
    && (forall k :: k in ids ==> ids[k] in after.rows && KeyOrNone(key, after.rows[ids[k]], k))
    && (forall k, l :: k in ids && l in ids && k != l ==> ids[k] != ids[l])
    && (forall k, id :: k in ids && HasRow(before.rows, key, k, id) ==> ids[k] == id)
    && (forall k :: k in ids && ids[k] in before.rows ==> HasRow(before.rows, key, k, ids[k]))
    && (forall k :: k in ids && ids[k] !in before.rows ==> before.next <= ids[k] < after.next)
  }

  /** The stored items are the rows at their ids. */
  ghost predicate Holds<K, R>(before: Table<R>, after: Table<R>, items: seq<Item<K, R>>, ids: map<K, int>) {
    forall it :: it in items && it.k in ids && ids[it.k] in after.rows ==>
      after.rows[ids[it.k]] == if ids[it.k] in before.rows then it.updated else it.inserted
  }

  /** The other rows are untouched. */
  ghost predicate RestKept<K, R>(before: Table<R>, after: Table<R>, ids: map<K, int>) {
    && before.next <= after.next
    && after.rows.Keys == before.rows.Keys + ids.Values
    && forall id :: id in before.rows && id !in ids.Values ==> after.rows[id] == before.rows[id]
  }

  lemma ValuesOfUpdate<K, V>(m: map<K, V>, k: K, v: V)
    requires k !in m
    ensures m[k := v].Values == m.Values + {v}
  {
    assert forall x :: x in m.Values ==> exists y :: y in m && m[y] == x;
    forall x ensures x in m[k := v].Values <==> x in m.Values + {v} {
      if x in m.Values {
        var y :| y in m && m[y] == x;
        assert m[k := v][y] == x;
      }
      if x == v {
        assert m[k := v][k] == x;
      }
    }
  }

  ghost predicate AllStored<K, R>(before: Table<R>, after: Table<R>, key: R -> Option<K>, items: seq<Item<K, R>>,
      ids: map<K, int>)
  {
    Placed(before, after, key, items, ids) && Holds(before, after, items, ids) && RestKept(before, after, ids)
  }

  /** The row that an item updates was there before, under the same key. */
  lemma UpdatesOld<K, R>(before: Table<R>, mid: Table<R>, key: R -> Option<K>, init: seq<Item<K, R>>, ids: map<K, int>,
      k: K, id: int)
    requires AllStored(before, mid, key, init, ids) && k !in ids && HasRow(mid.rows, key, k, id)
    ensures HasRow(before.rows, key, k, id) && id !in ids.Values
  {
    forall l | l in ids ensures ids[l] != id {
      assert KeyOrNone(key, mid.rows[ids[l]], l);
    }
  }

  /** A key without a row had none before. */
  lemma InsertsNew<K, R>(before: Table<R>, mid: Table<R>, key: R -> Option<K>, init: seq<Item<K, R>>, ids: map<K, int>,
      k: K, j: int)
    requires AllStored(before, mid, key, init, ids) && k !in ids && !HasRow(mid.rows, key, k, j)
    ensures !HasRow(before.rows, key, k, j)
  {
    forall l | l in ids ensures HasRow(before.rows, key, k, j) ==> ids[l] != j {
      assert ids[l] in before.rows ==> HasRow(before.rows, key, l, ids[l]);
    }
  }

  lemma PlacedUpdate<K, R>(before: Table<R>, mid: Table<R>, after: Table<R>, key: R -> Option<K>, init: seq<Item<K, R>>,
      ids: map<K, int>, it: Item<K, R>, id: int)
    requires AllStored(before, mid, key, init, ids) && Sane(before, key) && it.k !in ids
      && key(it.updated) == Some(it.k)
    requires HasRow(mid.rows, key, it.k, id) && after == Table(mid.rows[id := it.updated], mid.next)
    ensures Placed(before, after, key, init + [it], ids[it.k := id]) && id !in ids.Values
  {
    KeysSnoc(init, it, ItemKey);
    UpdatesOld(before, mid, key, init, ids, it.k, id);
  }

  lemma PlacedInsert<K, R>(before: Table<R>, mid: Table<R>, after: Table<R>, key: R -> Option<K>, init: seq<Item<K, R>>,
      ids: map<K, int>, it: Item<K, R>)
    requires AllStored(before, mid, key, init, ids) && Sane(before, key) && Sane(mid, key)
    requires it.k !in ids && KeyOrNone(key, it.inserted, it.k)
    requires forall j :: !HasRow(mid.rows, key, it.k, j)
    requires after == Table(mid.rows[mid.next := it.inserted], mid.next + 1)
    ensures Placed(before, after, key, init + [it], ids[it.k := mid.next]) && mid.next !in ids.Values
  {
    KeysSnoc(init, it, ItemKey);
    assert mid.next !in mid.rows;
    forall j ensures !HasRow(before.rows, key, it.k, j) {
      InsertsNew(before, mid, key, init, ids, it.k, j);
    }
  }

  lemma PlacedStep<K, R>(before: Table<R>, mid: Table<R>, after: Table<R>, key: R -> Option<K>, init: seq<Item<K, R>>,
      ids: map<K, int>, it: Item<K, R>, id: int)
    requires Sane(before, key) && Sane(mid, key) && AllStored(before, mid, key, init, ids)
    requires it.k !in ids && GoodItem(it, key) && Stored(mid, after, key, it, id)
    ensures Placed(before, after, key, init + [it], ids[it.k := id]) && id !in ids.Values
  {
    if HasRow(mid.rows, key, it.k, id) {
      PlacedUpdate(before, mid, after, key, init, ids, it, id);
    } else {
      PlacedInsert(before, mid, after, key, init, ids, it);
    }
  }

  lemma HoldsStep<K, R>(before: Table<R>, mid: Table<R>, after: Table<R>, key: R -> Option<K>, init: seq<Item<K, R>>,
      ids: map<K, int>, it: Item<K, R>, id: int)
    requires Sane(mid, key) && AllStored(before, mid, key, init, ids)
    requires it.k !in ids && Stored(mid, after, key, it, id) && id !in ids.Values
    ensures Holds(before, after, init + [it], ids[it.k := id])
  {
    forall jt | jt in init + [it] && jt.k in ids[it.k := id] && ids[it.k := id][jt.k] in after.rows
      ensures after.rows[ids[it.k := id][jt.k]] == if ids[it.k := id][jt.k] in before.rows then jt.updated
        else jt.inserted
    {
      if jt in init {
        assert jt.k in KeysOf(init, ItemKey);
      } else {
        if HasRow(mid.rows, key, it.k, id) {
          UpdatesOld(before, mid, key, init, ids, it.k, id);
        }
      }
    }
  }

  lemma RestStep<K, R>(before: Table<R>, mid: Table<R>, after: Table<R>, key: R -> Option<K>, init: seq<Item<K, R>>,
      ids: map<K, int>, it: Item<K, R>, id: int)
    requires Sane(mid, key) && AllStored(before, mid, key, init, ids)
    requires it.k !in ids && Stored(mid, after, key, it, id)
    ensures RestKept(before, after, ids[it.k := id])
  {
    ValuesOfUpdate(ids, it.k, id);
    if HasRow(mid.rows, key, it.k, id) {
      assert after.rows.Keys == mid.rows.Keys;
    }
  }

  method StoreAll<K(==), R>(t: Table<R>, key: R -> Option<K>, items: seq<Item<K, R>>)
    returns (after: Table<R>, ids: map<K, int>)
    requires Sane(t, key) && UniqueKeys(items, ItemKey) && forall it :: it in items ==> GoodItem(it, key)
    ensures Sane(after, key) && AllStored(t, after, key, items, ids)
  {
    after, ids := t, map[];
    var i := 0;
    while i < |items|
      invariant 0 <= i <= |items|
      invariant Sane(after, key) && AllStored(t, after, key, items[..i], ids)
    {
      var it := items[i];
      ghost var mid := after;
      var id;
      NewKey(items, i);
      after, id := Store(after, key, it);
      PlacedStep(t, mid, after, key, items[..i], ids, it, id);
      HoldsStep(t, mid, after, key, items[..i], ids, it, id);
      RestStep(t, mid, after, key, items[..i], ids, it, id);
      ids := ids[it.k := id];
      i := i + 1;
    }
    assert items[..i] == items;
  }

  lemma NewKey<K, R>(items: seq<Item<K, R>>, i: nat)
    requires UniqueKeys(items, ItemKey) && i < |items|
    ensures items[i].k !in KeysOf(items[..i], ItemKey) && items[..i + 1] == items[..i] + [items[i]]
    ensures items[i] in items
  {
    forall it | it in items[..i] ensures ItemKey(it) != ItemKey(items[i]) {
      var j :| 0 <= j < i && items[j] == it;
    }
  }

  // ---------- Deleting the rest ----------

  function Kept<R>(rows: map<int, R>, keep: set<int>): map<int, R> {
    map id | id in rows && id in keep :: rows[id]
  }

  /** The table holds exactly the items: one row each, old keys under their old ids. */
  ghost predicate Mirrors<K, R>(before: Table<R>, after: Table<R>, key: R -> Option<K>, items: seq<Item<K, R>>,
      ids: map<K, int>)
  {
    && Placed(before, after, key, items, ids) && Holds(before, after, items, ids)
    && after.rows.Keys == ids.Values
  }

  method Mirror<K(==), R>(t: Table<R>, key: R -> Option<K>, items: seq<Item<K, R>>)
    returns (after: Table<R>, ids: map<K, int>)
    requires Sane(t, key) && UniqueKeys(items, ItemKey) && forall it :: it in items ==> GoodItem(it, key)
    ensures Sane(after, key) && Mirrors(t, after, key, items, ids) && after.next >= t.next
  {
    var all;
    all, ids := StoreAll(t, key, items);
    after := Table(Kept(all.rows, ids.Values), all.next);
    KeptMirrors(t, all, after, key, items, ids);
  }

  lemma KeptMirrors<K, R>(before: Table<R>, all: Table<R>, after: Table<R>, key: R -> Option<K>,
      items: seq<Item<K, R>>, ids: map<K, int>)
    requires Sane(all, key) && AllStored(before, all, key, items, ids)
    requires after == Table(Kept(all.rows, ids.Values), all.next)
    ensures Sane(after, key) && Mirrors(before, after, key, items, ids)
  {
    forall k | k in ids ensures ids[k] in after.rows && after.rows[ids[k]] == all.rows[ids[k]] {
      assert ids[k] in ids.Values;
    }
  }

  /** The item that a row was stored for. */
  lemma StoredItem<K, R>(before: Table<R>, after: Table<R>, key: R -> Option<K>, items: seq<Item<K, R>>,
      ids: map<K, int>, id: int)
    returns (it: Item<K, R>)
    requires Placed(before, after, key, items, ids) && Holds(before, after, items, ids) && id in ids.Values
    ensures it in items && it.k in ids && ids[it.k] == id && id in after.rows
    ensures after.rows[id] == if id in before.rows then it.updated else it.inserted
  {
    var k :| k in ids && ids[k] == id;
    it :| it in items && ItemKey(it) == k;
  }
}
