/** What round-robin over a key pool guarantees, and when a session keeps its place in it. */
module KeyRotation {
  import opened Folds
  import opened Tables
  import opened Fsm
  import opened Endpoint
  import opened PlatformKey
  import opened KeyPool

  type Cursors = map<CursorKey, Cursor>

  // ---------- Unusable rows ----------

  lemma GetKeyInv(view: map<int, KeyStatus>, id: int)
    requires AllKeyInv(view)
    ensures KeyInv(GetKey(view, id))
  {
  }

  /** A key whose row is unusable is never picked. */
  lemma PickedIsUsable(cfg: Config, p: KeyPick, scan: seq<Row>, view: map<int, KeyStatus>, now: Instant)
    requires AllKeyInv(view) && RightKey(p, scan, view, now) && p.KeyPicked?
    ensures p.row in scan && RowUsable(p.row, now)
  {
    GetKeyInv(view, p.row.id);
    SyncedIffUsable(cfg, GetKey(view, p.row.id), p.row, now);
  }

  const REASON_DISABLED := "Key \U{5DF2}\U{7981}\U{7528}"
  const REASON_FAILED := "Key \U{6C38}\U{4E45}\U{5931}\U{6548} (401/402/403)"
  const REASON_EXPIRED := "Key \U{5DF2}\U{8FC7}\U{671F}"

  /** Why a row that is not usable is not. */
  function RowReason(r: Row): (reason: string)
    ensures reason != ""
  {
    if !r.enabled then REASON_DISABLED
    else if r.failureType == 2 then (if r.failureReason == "" then REASON_FAILED else r.failureReason)
    else REASON_EXPIRED
  }

  /** Every key is disabled, permanently failed or expired, and the first one says why; an empty pool is
      not dead. */
  method KeysHardDead(rows: seq<Row>, now: Instant) returns (dead: bool, reason: string)
    ensures dead <==> rows != [] && forall r :: r in rows ==> !RowUsable(r, now)
    ensures reason == if dead then RowReason(rows[0]) else ""
  {
    if |rows| == 0 {
      return false, "";
    }
    dead, reason := true, "";
    var i := 0;
    while i < |rows|
      invariant 0 <= i <= |rows| && dead
      invariant forall j :: 0 <= j < i ==> !RowUsable(rows[j], now)
      invariant reason == if i == 0 then "" else RowReason(rows[0])
    {
      var k := rows[i];
      if RowUsable(k, now) {
        return false, "";
      }
      if !k.enabled {
        if reason == "" {
          reason := REASON_DISABLED;
        }
      } else if k.failureType == 2 {
        if reason == "" {
          reason := k.failureReason;
          if reason == "" {
            reason := REASON_FAILED;
          }
        }
      } else if k.expiresAt != 0 && now > k.expiresAt {
        if reason == "" {
          reason := REASON_EXPIRED;
        }
      }
      i := i + 1;
    }
  }

  /** A pool of unusable rows yields no key and no time to wait for. */
  lemma HardDeadNeverWaits(cfg: Config, p: KeyPick, scan: seq<Row>, view: map<int, KeyStatus>, now: Instant)
    requires AllKeyInv(view) && RightKey(p, scan, view, now)
    requires forall r :: r in scan ==> !RowUsable(r, now)
    ensures p == NoKey(0)
  {
    forall r | r in scan ensures !Usable(r, view, now) && WaitOf(r, view, now) == 0 {
      GetKeyInv(view, r.id);
      SyncedIffUsable(cfg, GetKey(view, r.id), r, now);
    }
  }

  // ---------- Rotation ----------

  /** One call on a cursor. */
  datatype PoolCall = PoolCall(cursors: Cursors, view: map<int, KeyStatus>, now: Instant, pick: KeyPick)

  /** Consecutive calls on one cursor and one pool; in between other sessions and platforms may use and
      sweep the table, as long as they leave this cursor there. */
  ghost predicate Consecutive(rows: seq<Row>, ck: CursorKey, calls: seq<PoolCall>) {
    && (forall i :: 0 <= i < |calls| ==> RightAt(rows, ck, calls[i]))
    && (forall i, j :: 0 <= i && j == i + 1 && j < |calls| ==>
      ck in calls[j].cursors && Follows(ck, calls[i], calls[j]))
  }

  /** One call on the cursor, then any calls that do not touch it except by evicting it. */
  ghost predicate Follows(ck: CursorKey, c: PoolCall, next: PoolCall) {
    exists mid :: Bumped(c.cursors, mid, ck, c.now) && (ck in next.cursors ==> ck in mid && next.cursors[ck] == mid[ck])
  }

  ghost predicate RightAt(rows: seq<Row>, ck: CursorKey, c: PoolCall) {
    RightKey(c.pick, Rotated(ByIndex(rows), CountOf(c.cursors, ck)), c.view, c.now)
  }

  lemma {:induction false} CountsUp(rows: seq<Row>, ck: CursorKey, calls: seq<PoolCall>, i: nat)
    requires Consecutive(rows, ck, calls) && i < |calls| && ck in calls[0].cursors
    ensures ck in calls[i].cursors && CountOf(calls[i].cursors, ck) == CountOf(calls[0].cursors, ck) + i
  {
    if i > 0 {
      CountsUp(rows, ck, calls, i - 1);
      assert Follows(ck, calls[i - 1], calls[i]);
    }
  }

  /** When the key at the rotation point is usable, it is the one picked. */
  lemma PicksTheNext(rows: seq<Row>, ck: CursorKey, c: PoolCall)
    requires UniqueKeys(rows, RowId) && rows != [] && RightAt(rows, ck, c)
    ensures |ByIndex(rows)| == |rows|
    ensures
      var next := ByIndex(rows)[CountOf(c.cursors, ck) % |rows|];
      Usable(next, c.view, c.now) ==> c.pick == KeyPicked(next)
  {
    SortLength(rows);
    SortKeeps(rows);
    RotationKeeps(ByIndex(rows), CountOf(c.cursors, ck));
  }

  lemma NextMod(n: nat, p: nat, size: nat) returns (i: nat)
    requires p < size
    ensures i < size && (n + i) % size == p
  {
    var q := n % size;
    i := if p >= q then p - q else p + size - q;
    assert n == n / size * size + q;
    if p >= q {
      ModOf(n / size, p, size);
      assert n + i == n / size * size + p;
    } else {
      ModOf(n / size + 1, p, size);
      assert n + i == (n / size + 1) * size + p;
    }
  }

  /** Division with remainder is unique. */
  lemma ModOf(k: int, p: nat, size: nat)
    requires p < size
    ensures (k * size + p) % size == p
  {
    var n := k * size + p;
    SmallMultiple(n / size - k, size);
    SmallMultiple(k - n / size, size);
    assert (n / size - k) * size == p - n % size;
    assert (k - n / size) * size == n % size - p;
  }

  /** In as many consecutive calls as the pool has keys, a key that stays usable is picked. */
  lemma NoStarvation(rows: seq<Row>, ck: CursorKey, calls: seq<PoolCall>, r: Row)
    requires UniqueKeys(rows, RowId) && r in rows && |calls| == |rows|
    requires Consecutive(rows, ck, calls) && ck in calls[0].cursors
    requires forall i :: 0 <= i < |calls| ==> Usable(r, calls[i].view, calls[i].now)
    ensures exists i :: 0 <= i < |calls| && calls[i].pick == KeyPicked(r)
  {
    SortKeeps(rows);
    SortLength(rows);
    var p :| 0 <= p < |ByIndex(rows)| && ByIndex(rows)[p] == r;
    var i := NextMod(CountOf(calls[0].cursors, ck), p, |rows|);
    CountsUp(rows, ck, calls, i);
    PicksTheNext(rows, ck, calls[i]);
    assert calls[i].pick == KeyPicked(r);
  }

  lemma ModDistinct(n: nat, i: nat, j: nat, size: nat)
    requires i < j < i + size
    ensures (n + i) % size != (n + j) % size
  {
    if (n + i) % size == (n + j) % size {
      assert j - i == ((n + j) / size - (n + i) / size) * size;
      SmallMultiple((n + j) / size - (n + i) / size, size);
    }
  }

  lemma SmallMultiple(k: int, size: nat)
    requires size > 0
    ensures k * size <= 0 || k * size >= size
  {
  }

  /** If every key stays usable, each is picked exactly once. */
  lemma EachOnce(rows: seq<Row>, ck: CursorKey, calls: seq<PoolCall>)
    requires UniqueKeys(rows, RowId) && |calls| == |rows| > 0
    requires Consecutive(rows, ck, calls) && ck in calls[0].cursors
    requires forall i, r :: 0 <= i < |calls| && r in rows ==> Usable(r, calls[i].view, calls[i].now)
    ensures forall i :: 0 <= i < |calls| ==> calls[i].pick.KeyPicked? && calls[i].pick.row in rows
    ensures forall i, j :: 0 <= i < j < |calls| ==> calls[i].pick.row != calls[j].pick.row
    ensures forall r :: r in rows ==> exists i :: 0 <= i < |calls| && calls[i].pick == KeyPicked(r)
  {
    var n, sorted := CountOf(calls[0].cursors, ck), ByIndex(rows);
    SortKeeps(rows);
    SortLength(rows);
    forall i: nat | i < |calls| ensures calls[i].pick == KeyPicked(sorted[(n + i) % |rows|]) {
      CountsUp(rows, ck, calls, i);
      PicksTheNext(rows, ck, calls[i]);
      assert sorted[(n + i) % |rows|] in sorted;
    }
    forall i, j | 0 <= i < j < |calls| ensures calls[i].pick.row != calls[j].pick.row {
      ModDistinct(n, i, j, |rows|);
      DifferentRows(sorted, (n + i) % |rows|, (n + j) % |rows|);
    }
    forall r | r in rows ensures exists i :: 0 <= i < |calls| && calls[i].pick == KeyPicked(r) {
      NoStarvation(rows, ck, calls, r);
    }
  }

  lemma DifferentRows(rows: seq<Row>, a: nat, b: nat)
    requires UniqueKeys(rows, RowId) && a < |rows| && b < |rows| && a != b
    ensures rows[a] != rows[b]
  {
    if a < b {
      assert RowId(rows[a]) != RowId(rows[b]);
    } else {
      assert RowId(rows[b]) != RowId(rows[a]);
    }
  }

  // ---------- Which cursors are kept ----------

  lemma GrownBy(before: Cursors, ck: CursorKey, c: Cursor)
    requires ck !in before
    ensures |before[ck := c]| == |before| + 1
  {
    assert before[ck := c].Keys == before.Keys + {ck};
  }

  /** A new session keeps its cursor exactly when fewer than 1023 cursors exist: past that the sweep
      runs before the cursor is first stamped and takes it for one that was never used. */
  lemma NewSessionKeptIff(before: Cursors, after: Cursors, ck: CursorKey, now: Instant)
    requires ck !in before && ck.sessionID != "" && now > 600_000_000_000 && Bumped(before, after, ck, now)
    ensures ck in after <==> |before| < 1023
  {
    GrownBy(before, ck, Cursor(0, 0));
  }

  /** Successive calls of one session; in between other sessions and platforms may use and sweep the table. */
  ghost predicate SessionCalls(rows: seq<Row>, ck: CursorKey, calls: seq<PoolCall>) {
    && (forall i :: 0 <= i < |calls| ==> RightAt(rows, ck, calls[i]) && calls[i].now > 600_000_000_000)
    && (forall i, j :: 0 <= i && j == i + 1 && j < |calls| ==> Follows(ck, calls[i], calls[j]))
  }

  lemma {:induction false} NeverKept(rows: seq<Row>, ck: CursorKey, calls: seq<PoolCall>, i: nat)
    requires SessionCalls(rows, ck, calls) && ck.sessionID != "" && i < |calls| && ck !in calls[0].cursors
    requires forall j :: 0 <= j < i ==> |calls[j].cursors| >= 1023
    ensures ck !in calls[i].cursors
  {
    if i > 0 {
      NeverKept(rows, ck, calls, i - 1);
      assert Follows(ck, calls[i - 1], calls[i]);
      StillAbsent(ck, calls[i - 1], calls[i]);
    }
  }

  lemma StillAbsent(ck: CursorKey, c: PoolCall, next: PoolCall)
    requires Follows(ck, c, next) && ck !in c.cursors && ck.sessionID != "" && c.now > 600_000_000_000
    requires |c.cursors| >= 1023
    ensures ck !in next.cursors
  {
    var mid :| Bumped(c.cursors, mid, ck, c.now) && (ck in next.cursors ==> ck in mid);
    NewSessionKeptIff(c.cursors, mid, ck, c.now);
  }

  /** So as long as the table stays full every call of such a session starts over at the first key. */
  lemma FullTablePinsSession(rows: seq<Row>, ck: CursorKey, calls: seq<PoolCall>, i: nat)
    requires UniqueKeys(rows, RowId) && rows != [] && i < |calls|
    requires SessionCalls(rows, ck, calls) && ck.sessionID != "" && ck !in calls[0].cursors
    requires forall j :: 0 <= j < i ==> |calls[j].cursors| >= 1023
    requires forall r :: r in rows ==> Usable(r, calls[i].view, calls[i].now)
    ensures ByIndex(rows) != [] && calls[i].pick == KeyPicked(ByIndex(rows)[0])
  {
    NeverKept(rows, ck, calls, i);
    PicksTheFirst(rows, ck, calls[i]);
  }

  lemma PicksTheFirst(rows: seq<Row>, ck: CursorKey, c: PoolCall)
    requires UniqueKeys(rows, RowId) && rows != [] && RightAt(rows, ck, c) && ck !in c.cursors
    requires forall r :: r in rows ==> Usable(r, c.view, c.now)
    ensures ByIndex(rows) != [] && c.pick == KeyPicked(ByIndex(rows)[0])
  {
    SortKeeps(rows);
    PicksTheNext(rows, ck, c);
    ZeroMod(|rows|);
    assert ByIndex(rows)[0] in ByIndex(rows);
  }

  lemma ZeroMod(size: nat)
    requires size > 0
    ensures 0 % size == 0
  {
  }

  /** The cursors of platforms and those of sessions used in the last ten minutes. */
  function Recent(cursors: Cursors, now: Instant): Cursors {
    map k | k in cursors && (k.sessionID == "" || cursors[k].lastUsed + 600_000_000_000 >= now) :: cursors[k]
  }

  lemma RecentIs(cursors: Cursors, now: Instant)
    ensures Recent(cursors, now) == Unstale(cursors, now)
  {
    var a, b := Recent(cursors, now), Unstale(cursors, now);
    assert forall k :: k in a <==> k in b;
    assert forall k :: k in a ==> a[k] == b[k];
  }

  /** A sweep of a table of 1024 cursors or more: platform cursors stay, session cursors unused for ten minutes go,
      and of the others only as many as lie above 10000, those used least recently first. */
  lemma SweepIs(before: Cursors, after: Cursors, now: Instant)
    requires Swept(before, after, now)
    ensures |before| < 1024 ==> after == before
    ensures forall k :: k in after ==> k in before && after[k] == before[k]
    ensures forall k :: k in before && k.sessionID == "" ==> k in after
    ensures |before| >= 1024 ==>
      forall k :: k in after && k.sessionID != "" ==> after[k].lastUsed + 600_000_000_000 >= now
    ensures
      var recent := Recent(before, now);
      && (|before| >= 1024 && |recent| <= 10000 ==> after == recent)
      && (|before| >= 1024 && |recent| > 10000 ==> |after| == 10000 || Sessions(after) == {})
      && (forall d, k :: d in recent && d !in after && k in after && k.sessionID != "" ==>
            before[d].lastUsed <= before[k].lastUsed)
  {
    RecentIs(before, now);
    assert Sessions(after) == SessionKeys(after);
  }

  /** A call stamps the cursor that it uses, and one that was used within the last ten minutes is only swept from a
      table of 10000 cursors or more. */
  lemma UsedCursorStays(before: Cursors, after: Cursors, ck: CursorKey, now: Instant, k: CursorKey)
    requires Bumped(before, after, ck, now)
    ensures ck in after ==> after[ck].lastUsed == now
    ensures k in before && k != ck && before[k].lastUsed + 600_000_000_000 >= now && |before| < 10000 ==>
      k in after && after[k] == before[k]
  {
    if ck !in before {
      var grown := before[ck := Cursor(0, 0)];
      assert grown.Keys == before.Keys + {ck};
      assert Unstale(grown, now).Keys <= grown.Keys;
      SubsetSize(Unstale(grown, now).Keys, grown.Keys);
      assert |Unstale(grown, now)| == |Unstale(grown, now).Keys| && |grown| == |grown.Keys|;
    }
  }

  /** A platform cursor is never lost, and only its own calls move it. */
  lemma PlatformCursorsStay(before: Cursors, after: Cursors, ck: CursorKey, now: Instant, k: CursorKey)
    requires Bumped(before, after, ck, now) && k in before && k.sessionID == ""
    ensures k in after
    ensures CountOf(after, k) == CountOf(before, k) + if k == ck then 1 else 0
  {
  }

  /** The cursors of sessions. */
  function Sessions(cursors: Cursors): set<CursorKey> {
    set k | k in cursors && k.sessionID != ""
  }

  ghost predicate FewSessions(cursors: Cursors) {
    |Sessions(cursors)| < 1024
  }

  lemma BumpKeepsFewSessions(before: Cursors, after: Cursors, ck: CursorKey, now: Instant)
    requires FewSessions(before) && now > 600_000_000_000 && Bumped(before, after, ck, now)
    ensures FewSessions(after)
  {
    if ck in before {
      assert Sessions(after) == Sessions(before);
    } else {
      GrownBy(before, ck, Cursor(0, 0));
      if |before| + 1 < 1024 {
        SubsetSize(Sessions(after), before.Keys + {ck});
      } else {
        SubsetSize(Sessions(after), Sessions(before));
      }
    }
  }

  /** The cursor tables of a run of calls on any cursors. */
  ghost predicate CursorRun(tables: seq<Cursors>) {
    && tables != [] && tables[0] == map[]
    && forall i, j :: 0 <= i && j == i + 1 && j < |tables| ==>
      exists ck, now: nat :: now > 600_000_000_000 && Bumped(tables[i], tables[j], ck, now)
  }

  /** In every run the table stays bounded: fewer than 1024 session cursors beside one per platform. */
  lemma {:induction false} TableBounded(tables: seq<Cursors>, i: nat)
    requires CursorRun(tables) && i < |tables|
    ensures FewSessions(tables[i])
    ensures |tables[i]| < 1024 + |tables[i].Keys - Sessions(tables[i])|
  {
    if i == 0 {
      assert Sessions(tables[0]) == {};
    } else {
      TableBounded(tables, i - 1);
      var ck, now: nat :| now > 600_000_000_000 && Bumped(tables[i - 1], tables[i], ck, now);
      BumpKeepsFewSessions(tables[i - 1], tables[i], ck, now);
    }
    var all, sessions := tables[i].Keys, Sessions(tables[i]);
    assert all == sessions + (all - sessions);
  }
}
