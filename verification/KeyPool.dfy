/** Round-robin over the keys of a platform. */
module KeyPool {
  import opened Folds
  import opened Fsm
  import opened Endpoint
  import opened PlatformKey
  import opened Tables

  // ---------- Cursors ----------

  /** A cursor of a platform, or of a session on it; the empty session is the platform itself. */
  datatype CursorKey = CursorKey(platformID: int, sessionID: string)

  datatype Cursor = Cursor(n: nat, lastUsed: Instant)

  const SWEEP_THRESHOLD := 1024
  const MAX_CURSORS := 10000
  const CURSOR_TTL: nat := 600_000_000_000

  predicate OfSession(k: CursorKey) { k.sessionID != "" }

  predicate Stale(k: CursorKey, c: Cursor, now: Instant) {
    OfSession(k) && c.lastUsed + CURSOR_TTL < now
  }

  function Unstale(cursors: map<CursorKey, Cursor>, now: Instant): map<CursorKey, Cursor> {
    map k | k in cursors && !Stale(k, cursors[k], now) :: cursors[k]
  }

  /** What remains after a sweep. */
  ghost predicate Swept(before: map<CursorKey, Cursor>, after: map<CursorKey, Cursor>, now: Instant) {
    if |before| < SWEEP_THRESHOLD then after == before
    else if |Unstale(before, now)| <= MAX_CURSORS then after == Unstale(before, now)
    else Recycled(Unstale(before, now), after)
  }

  /** Over the maximum the session cursors that were used least recently go, as many as needed. */
  ghost predicate Recycled(before: map<CursorKey, Cursor>, after: map<CursorKey, Cursor>) {
    && (forall k :: k in after ==> k in before && after[k] == before[k])
    && (forall k :: k in before && !OfSession(k) ==> k in after)
    && (forall d, k :: d in before && d !in after && k in after && OfSession(k) ==>
      before[d].lastUsed <= before[k].lastUsed)
    && (|after| == MAX_CURSORS || SessionKeys(after) == {})
  }

  function SessionKeys(cursors: map<CursorKey, Cursor>): set<CursorKey> {
    set k | k in cursors && OfSession(k)
  }

  /** A call on a cursor: a new one starts at 0 and is swept before it is first stamped. */
  ghost predicate Bumped(before: map<CursorKey, Cursor>, after: map<CursorKey, Cursor>, ck: CursorKey, now: Instant) {
    if ck in before then after == before[ck := Cursor(before[ck].n + 1, now)]
    else exists mid ::
      && Swept(before[ck := Cursor(0, 0)], mid, now)
      && after == if ck in mid then mid[ck := Cursor(1, now)] else mid
  }

  function CountOf(cursors: map<CursorKey, Cursor>, ck: CursorKey): nat {
    if ck in cursors then cursors[ck].n else 0
  }

  // ---------- The rotation order ----------

  function InsertRow(rows: seq<Row>, r: Row): seq<Row> {
    if rows == [] || rows[|rows| - 1].keyIndex <= r.keyIndex then rows + [r]
    else InsertRow(rows[..|rows| - 1], r) + [rows[|rows| - 1]]
  }

  /** The stable sort by key index. */
  function ByIndex(rows: seq<Row>): seq<Row> {
    if rows == [] then [] else InsertRow(ByIndex(rows[..|rows| - 1]), rows[|rows| - 1])
  }

  function Rotated(rows: seq<Row>, n: nat): (r: seq<Row>)
    ensures |r| == |rows|
  {
    if rows == [] then [] else
    var rot := n % |rows|;
    rows[rot..] + rows[..rot]
  }

  function RowId(r: Row): int { r.id }

  function GetKey(view: map<int, KeyStatus>, id: int): KeyStatus {
    if id in view then view[id] else FRESH_KEY
  }

  ghost predicate AllKeyInv(view: map<int, KeyStatus>) {
    forall id :: id in view ==> KeyInv(view[id])
  }

  /** The key can serve once it is reconciled with its row. */
  ghost predicate Usable(r: Row, view: map<int, KeyStatus>, now: Instant) {
    KeyReady(Synced(GetKey(view, r.id), r, now), now)
  }

  function WaitOf(r: Row, view: map<int, KeyStatus>, now: Instant): Instant {
    KeyRecoversAt(Synced(GetKey(view, r.id), r, now))
  }

  /** The first usable row of a scan. */
  ghost function FirstUsable(scan: seq<Row>, view: map<int, KeyStatus>, now: Instant): (i: nat)
    ensures i <= |scan|
    ensures forall j :: 0 <= j < i ==> !Usable(scan[j], view, now)
    ensures i < |scan| ==> Usable(scan[i], view, now)
  {
    if scan == [] then 0 else
    var i := FirstUsable(scan[..|scan| - 1], view, now);
    if i < |scan| - 1 || Usable(scan[|scan| - 1], view, now) then i else |scan|
  }

  datatype KeyPick = KeyPicked(row: Row) | NoKey(wait: Instant)

  /** The earliest recovery of the rows; 0 if none recovers. */
  ghost predicate EarliestKey(wait: Instant, rows: seq<Row>, view: map<int, KeyStatus>, now: Instant) {
    && (forall r :: r in rows ==> WaitOf(r, view, now) == 0 || 0 < wait <= WaitOf(r, view, now))
    && (wait != 0 ==> exists r :: r in rows && WaitOf(r, view, now) == wait)
  }

  /** A pick is right: the first usable row of the scan, else the earliest recovery. */
  ghost predicate RightKey(p: KeyPick, scan: seq<Row>, view: map<int, KeyStatus>, now: Instant) {
    var i := FirstUsable(scan, view, now);
    match p
    case KeyPicked(row) => i < |scan| && row == scan[i]
    case NoKey(wait) => i == |scan| && EarliestKey(wait, scan, view, now)
  }

  // ---------- The scheduler's keys ----------

  class KeyManager {
    const cfg: Config
    const perSession: bool
    const hasStore: bool
    var keys: map<int, Key>
    var cursors: map<CursorKey, Cursor>
    /** The stored failure types, by key. */
    var failures: map<int, int>

    constructor (cfg: Config, perSession: bool, hasStore: bool, failures: map<int, int>)
      requires Configured(cfg)
      ensures Valid() && this.cfg == cfg && this.perSession == perSession && this.hasStore == hasStore
      ensures View() == map[] && cursors == map[] && this.failures == failures
    {
      this.cfg, this.perSession, this.hasStore := cfg, perSession, hasStore;
      keys, cursors, this.failures := map[], map[], failures;
    }

    ghost function Objects(): set<object>
      reads this
    {
      set id | id in keys :: keys[id].machine as object
    }

    ghost predicate Valid()
      reads this, Objects()
    {
      && Configured(cfg)
      && (forall id :: id in keys ==> keys[id].Valid() && KeyInv(keys[id].View()) && keys[id].cfg == cfg)
      && (forall id :: id in keys ==> keys[id].id == id && keys[id].hasStore == hasStore)
      && (forall i, j :: i in keys && j in keys && i != j ==> keys[i].machine != keys[j].machine)
    }

    ghost function View(): map<int, KeyStatus>
      reads this, Objects()
    {
      map id | id in keys :: keys[id].View()
    }

    ghost predicate Touched(before: map<int, KeyStatus>, id: int, s: KeyStatus)
      reads this, Objects()
    {
      GetKey(View(), id) == s && forall i :: i != id ==> GetKey(View(), i) == GetKey(before, i)
    }

    method Entity(id: int) returns (k: Key)
      requires Valid()
      modifies this`keys
      ensures Valid() && id in keys && k == keys[id]
      ensures forall i :: i in keys && i !in old(keys) ==> fresh(keys[i].machine)
      ensures forall i :: i in old(keys) ==> i in keys && keys[i] == old(keys[i])
      ensures forall i :: GetKey(View(), i) == GetKey(old(View()), i)
    {
      if id !in keys {
        k := new Key(cfg, id, hasStore);
        keys := keys[id := k];
      }
      k := keys[id];
    }

    /** What a call on a key stores in its row. */
    function StoredBy(before: map<int, KeyStatus>, id: int, c: KeyCall): Option<int> {
      Persisted(hasStore, id, WriteOf(GetKey(before, id), c))
    }

    method Store(id: int, write: Option<int>)
      requires Valid()
      modifies this`failures
      ensures failures == Written(old(failures), id, write)
      ensures Valid() && View() == old(View()) && Objects() == old(Objects())
    {
      if write.Some? && id in failures {
        failures := failures[id := write.value];
      }
    }

    method CoolEntity(id: int, retryAt: Instant, timeout: bool, billing: bool, persist: bool, now: Instant)
      returns (changed: bool, write: Option<int>)
      requires Valid()
      modifies this`keys, Objects()
      ensures Valid() && fresh(Objects() - old(Objects()))
      ensures
        var c := KeyFailed(retryAt, timeout, billing, persist);
        && Touched(old(View()), id, NextKey(cfg, GetKey(old(View()), id), c, now))
        && write == StoredBy(old(View()), id, c)
    {
      var k := Entity(id);
      NextKeepsKeyInv(cfg, k.View(), KeyFailed(retryAt, timeout, billing, persist), now);
      label L:
      changed, write := k.OnSessionFailure(retryAt, timeout, billing, persist, now);
      assert forall i :: i in keys && i != id ==> unchanged@L(keys[i].machine);
    }

    method PutDownEntity(id: int) returns (changed: bool, write: Option<int>)
      requires Valid()
      modifies this`keys, Objects()
      ensures Valid() && fresh(Objects() - old(Objects()))
      ensures Touched(old(View()), id, NextKey(cfg, GetKey(old(View()), id), KeyDown, 0))
      ensures write == StoredBy(old(View()), id, KeyDown)
    {
      var k := Entity(id);
      NextKeepsKeyInv(cfg, k.View(), KeyDown, 0);
      label L:
      changed, write := k.OnPlatformFailure();
      assert k.Valid() && KeyInv(k.View());
      assert forall i :: i in keys && i != id ==> unchanged@L(keys[i].machine);
    }

    method SucceedEntity(id: int) returns (write: Option<int>)
      requires Valid()
      modifies this`keys, Objects()
      ensures Valid() && fresh(Objects() - old(Objects()))
      ensures Touched(old(View()), id, NextKey(cfg, GetKey(old(View()), id), KeySucceeded, 0))
      ensures write == StoredBy(old(View()), id, KeySucceeded)
    {
      var k := Entity(id);
      label L:
      write := k.OnSuccess();
      assert forall i :: i in keys && i != id ==> unchanged@L(keys[i].machine);
    }

    /** Network errors do not persist, the other failures that cool a key down do. */
    method MarkKeyFailure(id: int, retryAt: Instant, timeout: bool, billing: bool, persist: bool, now: Instant)
      returns (changed: bool)
      requires Valid()
      modifies this`keys, this`failures, Objects()
      ensures Valid() && fresh(Objects() - old(Objects()))
      ensures
        var c := KeyFailed(retryAt, timeout, billing, persist);
        && Touched(old(View()), id, NextKey(cfg, GetKey(old(View()), id), c, now))
        && failures == Written(old(failures), id, StoredBy(old(View()), id, c))
    {
      var write;
      changed, write := CoolEntity(id, retryAt, timeout, billing, persist, now);
      Store(id, write);
    }

    method MarkKeyPlatformFailure(id: int) returns (changed: bool)
      requires Valid()
      modifies this`keys, this`failures, Objects()
      ensures Valid() && fresh(Objects() - old(Objects()))
      ensures Touched(old(View()), id, NextKey(cfg, GetKey(old(View()), id), KeyDown, 0))
      ensures failures == Written(old(failures), id, StoredBy(old(View()), id, KeyDown))
    {
      var write;
      changed, write := PutDownEntity(id);
      Store(id, write);
    }

    method MarkKeySuccess(id: int)
      requires Valid()
      modifies this`keys, this`failures, Objects()
      ensures Valid() && fresh(Objects() - old(Objects()))
      ensures Touched(old(View()), id, NextKey(cfg, GetKey(old(View()), id), KeySucceeded, 0))
      ensures failures == Written(old(failures), id, StoredBy(old(View()), id, KeySucceeded))
    {
      var write := SucceedEntity(id);
      Store(id, write);
    }

    static method Ask(k: Key, r: Row, now: Instant) returns (ok: bool, recoverAt: Instant)
      requires k.Valid() && KeyInv(k.View())
      modifies k.machine
      ensures k.Valid() && KeyInv(k.View()) && k.View() == Visited(k.cfg, old(k.View()), r, now)
      ensures ok == KeyReady(Synced(old(k.View()), r, now), now)
      ensures recoverAt == if ok then 0 else KeyRecoversAt(Synced(old(k.View()), r, now))
    {
      SyncedIffUsable(k.cfg, k.View(), r, now);
      k.SyncRow(r, now);
      ok, recoverAt := k.Pickable(now);
    }

    /** Reconciles a key with its row and asks it. */
    method Visit(r: Row, now: Instant) returns (ok: bool, recoverAt: Instant)
      requires Valid()
      modifies this`keys, Objects()
      ensures Valid() && fresh(Objects() - old(Objects()))
      ensures ok == Usable(r, old(View()), now)
      ensures recoverAt == if ok then 0 else WaitOf(r, old(View()), now)
      ensures Touched(old(View()), r.id, Visited(cfg, GetKey(old(View()), r.id), r, now))
    {
      var k := Entity(r.id);
      label L:
      ok, recoverAt := Ask(k, r, now);
      assert forall i :: i in keys && i != r.id ==> unchanged@L(keys[i].machine);
    }

    function CursorFor(platformID: int, sessionID: string): CursorKey {
      if perSession && sessionID != "" then CursorKey(platformID, sessionID) else CursorKey(platformID, "")
    }

    /** Two requests share a cursor if and only if they use the same platform and, with cursors per session, have
        the same session or none. */
    lemma SharedCursorIff(p: int, s: string, q: int, t: string)
      ensures CursorFor(p, s) == CursorFor(q, t) <==> p == q && (perSession ==> s == t)
      ensures CursorFor(p, s).sessionID == "" <==> !perSession || s == ""
    {
    }

    method EvictCursors(now: Instant)
      modifies this`cursors
      ensures Swept(old(cursors), cursors, now)
    {
      if |cursors| < SWEEP_THRESHOLD {
        return;
      }
      DropStale(now);
      if |cursors| <= MAX_CURSORS {
        return;
      }
      Recycle();
    }

    method DropStale(now: Instant)
      modifies this`cursors
      ensures cursors == Unstale(old(cursors), now)
    {
      var rest := cursors.Keys;
      while rest != {}
        invariant rest <= old(cursors).Keys
        invariant forall k :: k in cursors <==> k in old(cursors) && (k in rest || !Stale(k, old(cursors)[k], now))
        invariant forall k :: k in cursors ==> cursors[k] == old(cursors)[k]
        decreases rest
      {
        var k :| k in rest;
        if Stale(k, cursors[k], now) {
          cursors := cursors - {k};
        }
        rest := rest - {k};
      }
    }

    method Recycle()
      requires |cursors| > MAX_CURSORS
      modifies this`cursors
      ensures Recycled(old(cursors), cursors)
    {
      var sessions := SessionKeys(cursors);
      while |cursors| > MAX_CURSORS && sessions != {}
        invariant |cursors| >= MAX_CURSORS && sessions == SessionKeys(cursors)
        invariant forall k :: k in cursors ==> k in old(cursors) && cursors[k] == old(cursors)[k]
        invariant forall k :: k in old(cursors) && !OfSession(k) ==> k in cursors
        invariant forall d, k :: d in old(cursors) && d !in cursors && k in sessions ==>
          old(cursors)[d].lastUsed <= old(cursors)[k].lastUsed
        decreases sessions
      {
        ghost var o := Oldest(cursors, sessions);
        var k :| k in sessions && forall j :: j in sessions ==> cursors[k].lastUsed <= cursors[j].lastUsed;
        DropOne(cursors, k);
        cursors := cursors - {k};
        sessions := sessions - {k};
      }
    }

    /** The cursor's count before this call. */
    method Bump(ck: CursorKey, now: Instant) returns (n: nat)
      modifies this`cursors
      ensures n == CountOf(old(cursors), ck)
      ensures Bumped(old(cursors), cursors, ck, now)
      ensures View() == old(View()) && Objects() == old(Objects())
    {
      if ck in cursors {
        n := cursors[ck].n;
        cursors := cursors[ck := Cursor(n + 1, now)];
      } else {
        n := 0;
        cursors := cursors[ck := Cursor(0, 0)];
        EvictCursors(now);
        ghost var mid := cursors;
        if ck in cursors {
          cursors := cursors[ck := Cursor(1, now)];
        }
      }
    }

    /** Scans the keys in index order, from the cursor on, and returns the first usable one. */
    method PickAvailableKey(rows: seq<Row>, sessionID: string, now: Instant) returns (p: KeyPick)
      requires Valid() && UniqueKeys(rows, RowId)
      modifies this`keys, this`cursors, Objects()
      ensures Valid() && fresh(Objects() - old(Objects()))
      ensures rows == [] ==> p == NoKey(0) && cursors == old(cursors)
      ensures rows != [] ==> Bumped(old(cursors), cursors, PoolCursor(rows, sessionID), now)
      ensures RightKey(p, Rotated(ByIndex(rows), CountOf(old(cursors), PoolCursor(rows, sessionID))), old(View()), now)
      ensures Scanned(rows, p, old(View()), now)
    {
      var sorted := ByIndex(rows);
      SortLength(rows);
      var n := 0;
      if sorted != [] {
        n := Bump(CursorFor(sorted[0].platformID, sessionID), now);
      }
      p := ScanFrom(rows, sorted, n, now);
    }

    method ScanFrom(ghost rows: seq<Row>, sorted: seq<Row>, n: nat, now: Instant) returns (p: KeyPick)
      requires Valid() && UniqueKeys(rows, RowId) && sorted == ByIndex(rows)
      modifies this`keys, Objects()
      ensures Valid() && fresh(Objects() - old(Objects()))
      ensures RightKey(p, Rotated(sorted, n), old(View()), now)
      ensures Scanned(rows, p, old(View()), now)
    {
      ghost var before := View();
      var scan := Rotated(sorted, n);
      OrderKeeps(rows, n);
      p := Scan(scan, now);
      SameScanned(scan, rows, p, before, now);
    }

    lemma SameScanned(scan: seq<Row>, rows: seq<Row>, p: KeyPick, before: map<int, KeyStatus>, now: Instant)
      requires Scanned(scan, p, before, now) && forall r :: r in scan <==> r in rows
      ensures Scanned(rows, p, before, now)
    {
      forall id | forall r :: r in rows ==> r.id != id ensures GetKey(View(), id) == GetKey(before, id) {
        assert forall r :: r in scan ==> r.id != id;
      }
    }

    /** The cursor of a pool: that of the platform of its first key. */
    function PoolCursor(rows: seq<Row>, sessionID: string): CursorKey {
      var sorted := ByIndex(rows);
      if sorted == [] then CursorKey(0, "") else CursorFor(sorted[0].platformID, sessionID)
    }

    method Scan(scan: seq<Row>, now: Instant) returns (p: KeyPick)
      requires Valid() && UniqueKeys(scan, RowId)
      modifies this`keys, Objects()
      ensures Valid() && fresh(Objects() - old(Objects()))
      ensures RightKey(p, scan, old(View()), now)
      ensures Scanned(scan, p, old(View()), now)
    {
      ghost var before := View();
      var wait, k := 0, 0;
      while k < |scan|
        invariant 0 <= k <= |scan|
        invariant Valid() && fresh(Objects() - old(Objects()))
        invariant VisitedUpTo(scan, k, before, now)
        invariant NoneUsable(scan[..k], before, now, wait)
      {
        var ok, recoverAt := VisitNext(scan, k, now, before);
        if ok {
          p := KeyPicked(scan[k]);
          ScanStops(p, scan, k, before, now, wait);
          return;
        }
        SkipKey(scan, k, before, now, wait, recoverAt);
        wait := MinNonZero(wait, recoverAt);
        k := k + 1;
      }
      p := NoKey(wait);
      ScanStops(p, scan, k, before, now, wait);
    }

    method VisitNext(scan: seq<Row>, k: nat, now: Instant, ghost before: map<int, KeyStatus>)
      returns (ok: bool, recoverAt: Instant)
      requires Valid() && UniqueKeys(scan, RowId) && k < |scan| && VisitedUpTo(scan, k, before, now)
      modifies this`keys, Objects()
      ensures Valid() && fresh(Objects() - old(Objects()))
      ensures VisitedUpTo(scan, k + 1, before, now)
      ensures ok == Usable(scan[k], before, now)
      ensures recoverAt == if ok then 0 else WaitOf(scan[k], before, now)
    {
      ghost var mid := View();
      ok, recoverAt := Visit(scan[k], now);
      VisitOne(scan, k, before, mid, now);
    }

    lemma ScanStops(p: KeyPick, scan: seq<Row>, k: nat, before: map<int, KeyStatus>, now: Instant, wait: Instant)
      requires Valid() && k <= |scan| && NoneUsable(scan[..k], before, now, wait) && UniqueKeys(scan, RowId)
      requires VisitedUpTo(scan, if k < |scan| then k + 1 else k, before, now)
      requires k < |scan| ==> Usable(scan[k], before, now)
      requires p == if k < |scan| then KeyPicked(scan[k]) else NoKey(wait)
      ensures RightKey(p, scan, before, now) && Scanned(scan, p, before, now)
    {
      PickRight(p, scan, k, before, now, wait);
      PickScanned(cfg, scan, if k < |scan| then k + 1 else k, before, View(), now);
      if k < |scan| {
        PickedHealthy(scan, k, before, now);
      }
    }

    /** The first `k` rows have been visited, and nothing else has. */
    ghost predicate VisitedUpTo(scan: seq<Row>, k: nat, before: map<int, KeyStatus>, now: Instant)
      requires k <= |scan|
      reads this, Objects()
    {
      VisitedIn(cfg, scan, k, before, View(), now)
    }

    lemma VisitOne(scan: seq<Row>, k: nat, before: map<int, KeyStatus>, mid: map<int, KeyStatus>, now: Instant)
      requires UniqueKeys(scan, RowId) && k < |scan| && VisitedIn(cfg, scan, k, before, mid, now)
      requires Touched(mid, scan[k].id, Visited(cfg, GetKey(mid, scan[k].id), scan[k], now))
      ensures VisitedUpTo(scan, k + 1, before, now) && GetKey(mid, scan[k].id) == GetKey(before, scan[k].id)
    {
      forall j | 0 <= j < k ensures scan[j].id != scan[k].id {
        assert RowId(scan[j]) != RowId(scan[k]);
      }
    }

    lemma PickedHealthy(scan: seq<Row>, k: nat, before: map<int, KeyStatus>, now: Instant)
      requires k < |scan| && Valid() && VisitedUpTo(scan, k + 1, before, now) && Usable(scan[k], before, now)
      ensures GetKey(View(), scan[k].id).state == Healthy
    {
      assert GetKey(View(), scan[k].id) == Visited(cfg, GetKey(before, scan[k].id), scan[k], now);
    }

    /** The scanned keys are reconciled with their rows, the picked one is healthy, the others are untouched. */
    ghost predicate Scanned(rows: seq<Row>, p: KeyPick, before: map<int, KeyStatus>, now: Instant)
      reads this, Objects()
    {
      && (forall r :: r in rows ==>
        || GetKey(View(), r.id) == GetKey(before, r.id)
        || GetKey(View(), r.id) == Visited(cfg, GetKey(before, r.id), r, now))
      && (forall id :: (forall r :: r in rows ==> r.id != id) ==> GetKey(View(), id) == GetKey(before, id))
      && (p.KeyPicked? ==> p.row in rows && GetKey(View(), p.row.id).state == Healthy)
    }
  }

  lemma Oldest(cursors: map<CursorKey, Cursor>, keys: set<CursorKey>) returns (o: CursorKey)
    requires keys != {} && keys <= cursors.Keys
    ensures o in keys && forall j :: j in keys ==> cursors[o].lastUsed <= cursors[j].lastUsed
  {
    o := Member(keys);
    if keys != {o} {
      var q := Oldest(cursors, keys - {o});
      if cursors[q].lastUsed < cursors[o].lastUsed {
        o := q;
      }
    }
  }

  lemma DropOne(cursors: map<CursorKey, Cursor>, k: CursorKey)
    requires k in cursors
    ensures |cursors - {k}| == |cursors| - 1
    ensures SessionKeys(cursors - {k}) == SessionKeys(cursors) - {k}
  {
    assert (cursors - {k}).Keys == cursors.Keys - {k};
  }

  lemma {:induction false} InsertRowIs(rows: seq<Row>, r: Row)
    ensures multiset(InsertRow(rows, r)) == multiset(rows) + multiset{r}
  {
    if rows != [] && rows[|rows| - 1].keyIndex > r.keyIndex {
      InsertRowIs(rows[..|rows| - 1], r);
      Snoc(rows);
    }
  }

  lemma {:induction false} ByIndexIs(rows: seq<Row>)
    ensures multiset(ByIndex(rows)) == multiset(rows)
  {
    if rows != [] {
      ByIndexIs(rows[..|rows| - 1]);
      InsertRowIs(ByIndex(rows[..|rows| - 1]), rows[|rows| - 1]);
      Snoc(rows);
    }
  }

  ghost predicate VisitedIn(cfg: Config, scan: seq<Row>, k: nat, before: map<int, KeyStatus>,
      after: map<int, KeyStatus>, now: Instant)
    requires k <= |scan|
  {
    && (forall j :: 0 <= j < k ==> GetKey(after, scan[j].id) == Visited(cfg, GetKey(before, scan[j].id), scan[j], now))
    && (forall id :: (forall j :: 0 <= j < k ==> scan[j].id != id) ==> GetKey(after, id) == GetKey(before, id))
  }

  /** None of these rows is usable; `wait` is their earliest recovery. */
  ghost predicate NoneUsable(seen: seq<Row>, view: map<int, KeyStatus>, now: Instant, wait: Instant) {
    (forall r :: r in seen ==> !Usable(r, view, now)) && EarliestKey(wait, seen, view, now)
  }

  lemma SkipKey(scan: seq<Row>, k: nat, view: map<int, KeyStatus>, now: Instant, wait: Instant, at: Instant)
    requires k < |scan| && NoneUsable(scan[..k], view, now, wait)
    requires !Usable(scan[k], view, now) && at == WaitOf(scan[k], view, now)
    ensures NoneUsable(scan[..k + 1], view, now, MinNonZero(wait, at))
  {
    assert scan[..k + 1] == scan[..k] + [scan[k]];
    WaitOne(scan[..k], scan[k], view, now, wait, at);
  }

  lemma PickRight(p: KeyPick, scan: seq<Row>, k: nat, view: map<int, KeyStatus>, now: Instant, wait: Instant)
    requires k <= |scan| && NoneUsable(scan[..k], view, now, wait)
    requires k < |scan| ==> Usable(scan[k], view, now)
    requires p == if k < |scan| then KeyPicked(scan[k]) else NoKey(wait)
    ensures RightKey(p, scan, view, now)
  {
    forall j | 0 <= j < k ensures !Usable(scan[j], view, now) {
      assert scan[..k][j] in scan[..k];
    }
    assert scan[..|scan|] == scan;
  }

  lemma PickScanned(cfg: Config, scan: seq<Row>, k: nat, before: map<int, KeyStatus>, after: map<int, KeyStatus>,
      now: Instant)
    requires k <= |scan| && VisitedIn(cfg, scan, k, before, after, now) && UniqueKeys(scan, RowId)
    ensures forall r :: r in scan ==>
      GetKey(after, r.id) == GetKey(before, r.id) || GetKey(after, r.id) == Visited(cfg, GetKey(before, r.id), r, now)
    ensures forall id :: (forall r :: r in scan ==> r.id != id) ==> GetKey(after, id) == GetKey(before, id)
  {
    forall r | r in scan
      ensures GetKey(after, r.id) == GetKey(before, r.id)
        || GetKey(after, r.id) == Visited(cfg, GetKey(before, r.id), r, now)
    {
      var j :| 0 <= j < |scan| && scan[j] == r;
      if j >= k {
        forall i | 0 <= i < k ensures scan[i].id != r.id {
          assert RowId(scan[i]) != RowId(scan[j]);
        }
      }
    }
    forall id | forall r :: r in scan ==> r.id != id ensures GetKey(after, id) == GetKey(before, id) {
      forall j | 0 <= j < k ensures scan[j].id != id {
        assert scan[j] in scan;
      }
    }
  }

  lemma WaitOne(seen: seq<Row>, r: Row, view: map<int, KeyStatus>, now: Instant, wait: Instant, at: Instant)
    requires EarliestKey(wait, seen, view, now) && at == WaitOf(r, view, now)
    ensures EarliestKey(MinNonZero(wait, at), seen + [r], view, now)
  {
    assert r in seen + [r];
    if wait != 0 {
      var q :| q in seen && WaitOf(q, view, now) == wait;
      assert q in seen + [r];
    }
  }

  lemma {:induction false} InsertMembers(rows: seq<Row>, r: Row)
    ensures forall q :: q in InsertRow(rows, r) <==> q in rows || q == r
  {
    if rows != [] && rows[|rows| - 1].keyIndex > r.keyIndex {
      InsertMembers(rows[..|rows| - 1], r);
      Snoc(rows);
    }
  }

  lemma {:induction false} InsertUnique(rows: seq<Row>, r: Row)
    requires UniqueKeys(rows, RowId) && forall q :: q in rows ==> q.id != r.id
    ensures UniqueKeys(InsertRow(rows, r), RowId)
  {
    if rows != [] && rows[|rows| - 1].keyIndex > r.keyIndex {
      var init, last := rows[..|rows| - 1], rows[|rows| - 1];
      InsertUnique(init, r);
      InsertMembers(init, r);
      var ins := InsertRow(init, r);
      forall q | q in ins ensures q.id != last.id {
        if q in init {
          LastRowNew(rows, q);
        } else {
          assert last in rows;
        }
      }
    }
  }

  lemma {:induction false} SortLength(rows: seq<Row>)
    ensures |ByIndex(rows)| == |rows|
  {
    ByIndexIs(rows);
    assert |multiset(ByIndex(rows))| == |multiset(rows)|;
  }

  lemma LastRowNew(rows: seq<Row>, q: Row)
    requires UniqueKeys(rows, RowId) && rows != [] && q in rows[..|rows| - 1]
    ensures q.id != rows[|rows| - 1].id
  {
    var k :| 0 <= k < |rows| - 1 && rows[k] == q;
    assert RowId(rows[k]) != RowId(rows[|rows| - 1]);
  }

  /** Sorting keeps the rows. */
  lemma {:induction false} SortKeeps(rows: seq<Row>)
    requires UniqueKeys(rows, RowId)
    ensures UniqueKeys(ByIndex(rows), RowId)
    ensures forall q :: q in ByIndex(rows) <==> q in rows
  {
    if rows != [] {
      var init := rows[..|rows| - 1];
      SortKeeps(init);
      forall q | q in ByIndex(init) ensures q.id != rows[|rows| - 1].id {
        LastRowNew(rows, q);
      }
      InsertUnique(ByIndex(init), rows[|rows| - 1]);
      InsertMembers(ByIndex(init), rows[|rows| - 1]);
      Snoc(rows);
    }
  }

  lemma OrderKeeps(rows: seq<Row>, n: nat)
    requires UniqueKeys(rows, RowId)
    ensures UniqueKeys(Rotated(ByIndex(rows), n), RowId)
    ensures forall q :: q in Rotated(ByIndex(rows), n) <==> q in rows
  {
    SortKeeps(rows);
    if ByIndex(rows) != [] {
      RotationKeeps(ByIndex(rows), n);
    }
  }

  /** So does rotating; the row at the rotation point comes first. */
  lemma RotationKeeps(rows: seq<Row>, n: nat)
    requires UniqueKeys(rows, RowId) && rows != []
    ensures UniqueKeys(Rotated(rows, n), RowId)
    ensures forall q :: q in Rotated(rows, n) <==> q in rows
    ensures Rotated(rows, n)[0] == rows[n % |rows|]
  {
    var rot := n % |rows|;
    var r := Rotated(rows, n);
    forall i, j | 0 <= i < j < |r| ensures RowId(r[i]) != RowId(r[j]) {
      var a := if i < |rows| - rot then i + rot else i + rot - |rows|;
      var b := if j < |rows| - rot then j + rot else j + rot - |rows|;
      assert r[i] == rows[a] && r[j] == rows[b] && a != b;
      if a < b {
        assert RowId(rows[a]) != RowId(rows[b]);
      } else {
        assert RowId(rows[b]) != RowId(rows[a]);
      }
    }
    assert rows == rows[..rot] + rows[rot..];
  }
}
