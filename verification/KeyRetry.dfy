/** Trying the keys of a pool for one request. */
module KeyRetry {
  import opened Folds
  import opened Tables
  import opened Fsm
  import opened Endpoint
  import opened PlatformKey
  import opened KeyPool
  import opened KeyRotation

  // ---------- Capability blocks ----------

  /** Expiry times of blocked key and model pairs; 0 never expires. */
  type Blocks = map<int, map<int, Instant>>

  ghost predicate Blocked(blocks: Blocks, keyID: int, rapiID: int, now: Instant) {
    keyID in blocks && rapiID in blocks[keyID] && (blocks[keyID][rapiID] == 0 || blocks[keyID][rapiID] > now)
  }

  /** Nothing but expired pairs has been removed. */
  ghost predicate OnlyPurged(before: Blocks, after: Blocks, now: Instant) {
    forall k, r, t: nat :: t >= now ==> (Blocked(after, k, r, t) <==> Blocked(before, k, r, t))
  }

  // ---------- Upstream answers ----------

  /** An answer: `billing` and `mismatch` say which keywords its body contains. */
  datatype Answer =
    | NetworkError(timeout: bool)
    | Response(status: int, billing: bool, mismatch: bool, retryAt: Instant)

  datatype Scope = SessionScope | SystemScope | PlatformScope

  function ClassifyFailure(status: int): Scope {
    if status == 401 then SystemScope
    else if status in {402, 403, 409, 423, 451} then PlatformScope
    else SessionScope
  }

  predicate IsSuccess(a: Answer) { a.Response? && 200 <= a.status < 300 }

  /** One upstream attempt: when its key is picked, when it is answered and how. */
  datatype Attempt = Attempt(picked: Instant, answered: Instant, answer: Answer)

  /** What a failed answer does to its key. */
  datatype Penalty = CoolDown(retryAt: Instant, timeout: bool, billing: bool, persist: bool) | PutDown | Block

  function PenaltyOf(a: Answer): Penalty {
    match a
    case NetworkError(timeout) => CoolDown(0, timeout, false, false)
    case Response(status, billing, mismatch, retryAt) =>
      match ClassifyFailure(status)
      case SystemScope => PutDown
      case PlatformScope =>
        if billing then CoolDown(0, false, true, true) else if status == 403 && mismatch then Block else PutDown
      case SessionScope =>
        if status in {400, 404, 422} && mismatch then Block else CoolDown(retryAt, false, false, true)
  }

  /** The failure type that an answer leaves in the key's row. */
  function AnswerWrite(a: Answer): Option<int> {
    if IsSuccess(a) then Some(0) else
    match PenaltyOf(a)
    case CoolDown(_, _, _, persist) => if persist then Some(1) else None
    case PutDown => Some(2)
    case Block => None
  }

  // What an answer means, stated on the status itself.

  /** An account-level status. */
  predicate AccountStatus(status: int) {
    status == 402 || status == 403 || status == 409 || status == 423 || status == 451
  }

  /** The failure type of a stored key before and after an answer: a success clears it; 401 leaves 2; so does an
      account-level status, unless the body names billing (1) or a 403 names a mismatch (as before); 400, 404
      and 422 with a mismatch leave it as before; every other status leaves 1, a network error nothing. */
  ghost predicate TypeLeft(a: Answer, before: int, after: int) {
    match a
    case NetworkError(_) => after == before
    case Response(status, billing, mismatch, _) =>
      if 200 <= status < 300 then after == 0
      else if status == 401 then after == 2
      else if AccountStatus(status) then
        (billing ==> after == 1)
        && (!billing && status == 403 && mismatch ==> after == before)
        && (!billing && !(status == 403 && mismatch) ==> after == 2)
      else if (status == 400 || status == 404 || status == 422) && mismatch then after == before
      else after == 1
  }

  /** What a failed answer leaves of a healthy key and its block for the model, at once. */
  ghost predicate KeyLeft(cfg: Config, blockTTL: nat, at: Instant, a: Answer, s: KeyStatus, before: Blocks,
      after: Blocks, id: int, rapiID: int)
  {
    var down, well := KeyStatus(State.PlatformFailed, 0), KeyStatus(Healthy, 0);
    match a
    case NetworkError(timeout) =>
      && after == before
      && s == KeyStatus(Cooling, at + if timeout && cfg.timeoutCooldown > 0 then cfg.timeoutCooldown
                                      else cfg.defaultCooldown)
    case Response(status, billing, mismatch, retryAt) =>
      if status == 401 then s == down && after == before
      else if AccountStatus(status) then
        && (billing ==> after == before)
        && (billing ==>
              s == KeyStatus(Cooling,
                at + if cfg.billingCooldown > 0 then cfg.billingCooldown else cfg.defaultCooldown))
        && (!billing && status == 403 && mismatch ==> s == well && BlockedUntil(after, id, rapiID, at + blockTTL))
        && (!billing && !(status == 403 && mismatch) ==> s == down && after == before)
      else if (status == 400 || status == 404 || status == 422) && mismatch then
        s == well && BlockedUntil(after, id, rapiID, at + blockTTL)
      else
        s == KeyStatus(Cooling, if retryAt > at then retryAt else at + cfg.defaultCooldown) && after == before
  }

  ghost predicate BlockedUntil(blocks: Blocks, id: int, rapiID: int, until: Instant) {
    id in blocks && rapiID in blocks[id] && blocks[id][rapiID] == until
  }

  /** What a failed answer has left of a key at any later moment up to the horizon; the key's row may
      have expired meanwhile. */
  ghost predicate StillLeft(a: Answer, s: KeyStatus, blocks: Blocks, id: int, rapiID: int, horizon: Instant) {
    match a
    case NetworkError(_) => StillCool(s, horizon)
    case Response(status, billing, mismatch, _) =>
      if status == 401 then StillDown(s)
      else if AccountStatus(status) then
        && (billing ==> StillCool(s, horizon))
        && (!billing && status == 403 && mismatch ==> Blocked(blocks, id, rapiID, horizon))
        && (!billing && !(status == 403 && mismatch) ==> StillDown(s))
      else if (status == 400 || status == 404 || status == 422) && mismatch then Blocked(blocks, id, rapiID, horizon)
      else StillCool(s, horizon)
  }

  predicate StillCool(s: KeyStatus, horizon: Instant) {
    (s.state == Cooling && s.wakeAt > horizon) || s == KeyStatus(State.Expired, 0)
  }

  predicate StillDown(s: KeyStatus) {
    s == KeyStatus(State.PlatformFailed, 0) || s == KeyStatus(State.Expired, 0)
  }

  /** The failed attempts have left on their keys what their answers call for. */
  ghost predicate AllLeft(tried: seq<int>, script: nat -> Attempt, view: map<int, KeyStatus>, blocks: Blocks,
      rapiID: int, horizon: Instant)
  {
    forall n: nat :: n < |tried| && !Accepted(script(n).answer) ==>
      StillLeft(script(n).answer, GetKey(view, tried[n]), blocks, tried[n], rapiID, horizon)
  }

  predicate Accepted(a: Answer) {
    a.Response? && 200 <= a.status <= 299
  }

  /** The stored failure types before and after: of the tried keys with a stored row what their answer calls
      for, of all others the same. */
  ghost predicate TypesLeft(before: map<int, int>, after: map<int, int>, tried: seq<int>, script: nat -> Attempt,
      hasStore: bool)
  {
    && after.Keys == before.Keys
    && (forall n: nat :: n < |tried| && tried[n] in before && tried[n] > 0 && hasStore ==>
      TypeLeft(script(n).answer, before[tried[n]], after[tried[n]]))
    && (forall id :: id in before && (id !in tried || id <= 0 || !hasStore) ==> after[id] == before[id])
  }

  /** The same for one attempt. */
  ghost predicate OneTypeLeft(before: map<int, int>, after: map<int, int>, id: int, a: Answer, hasStore: bool) {
    && after.Keys == before.Keys
    && (id in before && id > 0 && hasStore ==> TypeLeft(a, before[id], after[id]))
    && (forall q :: q in before && (q != id || id <= 0 || !hasStore) ==> after[q] == before[q])
  }

  lemma OneTypeLeftBy(before: map<int, int>, id: int, a: Answer, hasStore: bool)
    ensures OneTypeLeft(before, Written(before, id, Persisted(hasStore, id, AnswerWrite(a))), id, a, hasStore)
  {
    if id in before {
      AnswerWriteIs(a, before[id]);
    }
  }

  lemma LeftUntil(cfg: Config, blockTTL: nat, a: Attempt, s: KeyStatus, before: Blocks, after: Blocks, id: int,
      rapiID: int, horizon: Instant)
    requires !IsSuccess(a.answer) && Outlasts(cfg, blockTTL, a, horizon)
    requires KeyLeft(cfg, blockTTL, a.answered, a.answer, s, before, after, id, rapiID)
    ensures StillLeft(a.answer, s, after, id, rapiID, horizon)
    ensures forall r: Row :: r.id == id && RowUsable(r, a.picked) ==> Out(s, after, r, rapiID, a.answered, horizon)
  {
  }

  lemma AnswerWriteIs(a: Answer, before: int)
    ensures TypeLeft(a, before, if AnswerWrite(a).Some? then AnswerWrite(a).value else before)
    ensures IsSuccess(a) <==> Accepted(a)
  {
  }

  /** The stored failure types after a sequence of attempts. */
  ghost function StoredAfter(column: map<int, int>, tried: seq<int>, script: nat -> Attempt,
      hasStore: bool): map<int, int>
  {
    if tried == [] then column else
    var n, id := |tried| - 1, tried[|tried| - 1];
    Written(StoredAfter(column, tried[..n], script, hasStore), id,
      Persisted(hasStore, id, AnswerWrite(script(n).answer)))
  }

  // ---------- The hypothesis ----------

  /** The clock runs forward up to a horizon, and what an answer imposes outlasts it. */
  ghost predicate Calm(cfg: Config, blockTTL: nat, script: nat -> Attempt, horizon: Instant) {
    && (forall n: nat :: script(n).picked <= script(n).answered <= horizon)
    && (forall m: nat, n: nat :: n == m + 1 ==> script(m).answered <= script(n).picked)
    && (forall n: nat :: Outlasts(cfg, blockTTL, script(n), horizon))
  }

  ghost predicate Outlasts(cfg: Config, blockTTL: nat, a: Attempt, horizon: Instant) {
    match PenaltyOf(a.answer)
    case CoolDown(retryAt, timeout, billing, _) => KeyUntil(cfg, retryAt, timeout, billing, a.answered) > horizon
    case PutDown => true
    case Block => a.answered + blockTTL > horizon
  }

  /** A key that has been tried and stays out until the horizon. */
  ghost predicate Spent(s: KeyStatus, r: Row, now: Instant, horizon: Instant) {
    && r.enabled && r.failureType != 2
    && (|| (s.state == Cooling && s.wakeAt > horizon)
        || (s.state == State.PlatformFailed && s.wakeAt == 0)
        || (s.state == State.Expired && s.wakeAt == 0 && r.expiresAt != 0 && r.expiresAt < now))
  }

  lemma SpentStays(cfg: Config, s: KeyStatus, r: Row, before: Instant, now: Instant, horizon: Instant)
    requires Spent(s, r, before, horizon) && before <= now <= horizon
    ensures Spent(s, r, now, horizon) && Spent(Visited(cfg, s, r, now), r, now, horizon)
    ensures !KeyReady(Synced(s, r, now), now)
  {
  }

  /** The rows of keys that are not blocked, in their order. */
  ghost function Unblocked(rows: seq<Row>, blocks: Blocks, rapiID: int, now: Instant): seq<Row> {
    if rows == [] then [] else
    var last := rows[|rows| - 1];
    Unblocked(rows[..|rows| - 1], blocks, rapiID, now) + if Blocked(blocks, last.id, rapiID, now) then [] else [last]
  }

  // ---------- The gateway ----------

  datatype Result = Answered(answer: Answer) | AllKeysUnavailable

  class Gateway {
    const scheduler: KeyManager
    const blockTTL: nat
    var blocks: Blocks

    constructor (scheduler: KeyManager, blockTTL: nat)
      ensures this.scheduler == scheduler && this.blockTTL == blockTTL && blocks == map[]
    {
      this.scheduler, this.blockTTL, blocks := scheduler, blockTTL, map[];
    }

    method BlockKeyForModel(keyID: int, rapiID: int, now: Instant) returns (newly: bool)
      modifies this`blocks
      ensures newly <==> !(keyID in old(blocks) && rapiID in old(blocks)[keyID] && now <= old(blocks)[keyID][rapiID])
      ensures keyID in blocks && rapiID in blocks[keyID] && blocks[keyID][rapiID] == now + blockTTL
      ensures forall k, r, t: nat :: (k, r) != (keyID, rapiID) ==>
        (Blocked(blocks, k, r, t) <==> Blocked(old(blocks), k, r, t))
    {
      var inner := if keyID in blocks then blocks[keyID] else map[];
      newly := rapiID !in inner || now > inner[rapiID];
      blocks := blocks[keyID := inner[rapiID := now + blockTTL]];
    }

    method UnblockKeyForModel(keyID: int, rapiID: int)
      modifies this`blocks
      ensures forall k, r, t: nat ::
        Blocked(blocks, k, r, t) <==> Blocked(old(blocks), k, r, t) && (k, r) != (keyID, rapiID)
    {
      Remove(keyID, rapiID);
    }

    method Remove(keyID: int, rapiID: int)
      modifies this`blocks
      ensures forall k, r :: k in blocks && r in blocks[k] <==>
        k in old(blocks) && r in old(blocks)[k] && (k, r) != (keyID, rapiID)
      ensures forall k, r :: k in blocks && r in blocks[k] ==> blocks[k][r] == old(blocks)[k][r]
    {
      if keyID in blocks {
        var inner := blocks[keyID] - {rapiID};
        assert forall r :: r in inner <==> r in blocks[keyID] && r != rapiID;
        blocks := if inner == map[] then blocks - {keyID} else blocks[keyID := inner];
      }
    }

    /** An expired block is forgotten when it is looked up. */
    method IsBlocked(keyID: int, rapiID: int, now: Instant) returns (b: bool)
      modifies this`blocks
      ensures b == Blocked(old(blocks), keyID, rapiID, now)
      ensures OnlyPurged(old(blocks), blocks, now)
    {
      if keyID !in blocks || rapiID !in blocks[keyID] {
        return false;
      }
      var exp := blocks[keyID][rapiID];
      if exp != 0 && exp <= now {
        Remove(keyID, rapiID);
        return false;
      }
      return true;
    }

    method FilterBlockedKeys(rows: seq<Row>, rapiID: int, now: Instant) returns (out: seq<Row>)
      requires UniqueKeys(rows, RowId)
      modifies this`blocks
      ensures UniqueKeys(out, RowId) && out == Unblocked(rows, old(blocks), rapiID, now)
      ensures forall r :: r in out <==> r in rows && !Blocked(old(blocks), r.id, rapiID, now)
      ensures OnlyPurged(old(blocks), blocks, now)
    {
      out := [];
      var i := 0;
      while i < |rows|
        invariant 0 <= i <= |rows|
        invariant UniqueKeys(out, RowId) && out == Unblocked(rows[..i], old(blocks), rapiID, now)
        invariant forall r :: r in out <==> r in rows[..i] && !Blocked(old(blocks), r.id, rapiID, now)
        invariant OnlyPurged(old(blocks), blocks, now)
      {
        assert rows[..i + 1] == rows[..i] + [rows[i]];
        var b := IsBlocked(rows[i].id, rapiID, now);
        if !b {
          NewRow(rows, i, out);
          out := out + [rows[i]];
        }
        i := i + 1;
      }
      assert rows[..i] == rows;
    }

    method CoolKey(r: Row, retryAt: Instant, timeout: bool, billing: bool, persist: bool, now: Instant)
      requires scheduler.Valid()
      requires GetKey(scheduler.View(), r.id).state == Healthy
      modifies scheduler`keys, scheduler`failures, scheduler.Objects()
      ensures scheduler.Valid() && fresh(scheduler.Objects() - old(scheduler.Objects()))
      ensures GetKey(scheduler.View(), r.id) == KeyStatus(Cooling,
        if retryAt > now then retryAt
        else now + if billing && scheduler.cfg.billingCooldown > 0 then scheduler.cfg.billingCooldown
          else if timeout && scheduler.cfg.timeoutCooldown > 0 then scheduler.cfg.timeoutCooldown
          else scheduler.cfg.defaultCooldown)
      ensures forall id :: id != r.id ==> GetKey(scheduler.View(), id) == GetKey(old(scheduler.View()), id)
      ensures StoresFor(r, if persist then Some(1) else None, old(scheduler.failures))
    {
      var changed := scheduler.MarkKeyFailure(r.id, retryAt, timeout, billing, persist, now);
    }

    method PutKeyDown(r: Row)
      requires scheduler.Valid()
      requires GetKey(scheduler.View(), r.id).state == Healthy
      modifies scheduler`keys, scheduler`failures, scheduler.Objects()
      ensures scheduler.Valid() && fresh(scheduler.Objects() - old(scheduler.Objects()))
      ensures GetKey(scheduler.View(), r.id) == KeyStatus(State.PlatformFailed, 0)
      ensures forall id :: id != r.id ==> GetKey(scheduler.View(), id) == GetKey(old(scheduler.View()), id)
      ensures StoresFor(r, Some(2), old(scheduler.failures))
    {
      HealthyIsFresh(scheduler, r.id);
      var changed := scheduler.MarkKeyPlatformFailure(r.id);
    }

    /** The failure type is stored if the key has a row. */
    ghost predicate StoresFor(r: Row, write: Option<int>, before: map<int, int>)
      reads scheduler
    {
      scheduler.failures == Written(before, r.id, Persisted(scheduler.hasStore, r.id, write))
    }

    /** One failed attempt: the key cools down, is put down, or is blocked for this model. */
    method Penalize(r: Row, rapiID: int, a: Attempt, ghost horizon: Instant)
      requires scheduler.Valid() && RowUsable(r, a.picked) && !IsSuccess(a.answer)
      requires Outlasts(scheduler.cfg, blockTTL, a, horizon)
      requires GetKey(scheduler.View(), r.id).state == Healthy
      modifies this`blocks, scheduler`keys, scheduler`failures, scheduler.Objects()
      ensures scheduler.Valid() && fresh(scheduler.Objects() - old(scheduler.Objects()))
      ensures StoresFor(r, AnswerWrite(a.answer), old(scheduler.failures))
      ensures OneTypeLeft(old(scheduler.failures), scheduler.failures, r.id, a.answer, scheduler.hasStore)
      ensures KeyLeft(scheduler.cfg, blockTTL, a.answered, a.answer, GetKey(scheduler.View(), r.id), old(blocks),
        blocks, r.id, rapiID)
      ensures StillLeft(a.answer, GetKey(scheduler.View(), r.id), blocks, r.id, rapiID, horizon)
      ensures Out(GetKey(scheduler.View(), r.id), blocks, r, rapiID, a.answered, horizon)
      ensures forall id :: id != r.id ==> GetKey(scheduler.View(), id) == GetKey(old(scheduler.View()), id)
      ensures forall k, q, t: nat :: k != r.id ==> (Blocked(blocks, k, q, t) <==> Blocked(old(blocks), k, q, t))
    {
      Impose(r, rapiID, a);
      OneTypeLeftBy(old(scheduler.failures), r.id, a.answer, scheduler.hasStore);
      LeftUntil(scheduler.cfg, blockTTL, a, GetKey(scheduler.View(), r.id), old(blocks), blocks, r.id, rapiID, horizon);
    }

    method Impose(r: Row, rapiID: int, a: Attempt)
      requires scheduler.Valid() && !IsSuccess(a.answer)
      requires GetKey(scheduler.View(), r.id).state == Healthy
      modifies this`blocks, scheduler`keys, scheduler`failures, scheduler.Objects()
      ensures scheduler.Valid() && fresh(scheduler.Objects() - old(scheduler.Objects()))
      ensures StoresFor(r, AnswerWrite(a.answer), old(scheduler.failures))
      ensures KeyLeft(scheduler.cfg, blockTTL, a.answered, a.answer, GetKey(scheduler.View(), r.id), old(blocks),
        blocks, r.id, rapiID)
      ensures forall id :: id != r.id ==> GetKey(scheduler.View(), id) == GetKey(old(scheduler.View()), id)
      ensures forall k, q, t: nat :: k != r.id ==> (Blocked(blocks, k, q, t) <==> Blocked(old(blocks), k, q, t))
    {
      HealthyIsFresh(scheduler, r.id);
      match a.answer {
        case NetworkError(timeout) =>
          CoolKey(r, 0, timeout, false, false, a.answered);
        case Response(_, _, _, _) =>
          ImposeStatus(r, rapiID, a);
      }
    }

    /** An account-level answer: billing cools the key, a 403 mismatch blocks it, anything else puts it down. */
    method ImposeAccount(r: Row, rapiID: int, a: Attempt)
      requires scheduler.Valid() && a.answer.Response? && AccountStatus(a.answer.status)
      requires GetKey(scheduler.View(), r.id) == FRESH_KEY
      modifies this`blocks, scheduler`keys, scheduler`failures, scheduler.Objects()
      ensures scheduler.Valid() && fresh(scheduler.Objects() - old(scheduler.Objects()))
      ensures StoresFor(r, AnswerWrite(a.answer), old(scheduler.failures))
      ensures KeyLeft(scheduler.cfg, blockTTL, a.answered, a.answer, GetKey(scheduler.View(), r.id), old(blocks),
        blocks, r.id, rapiID)
      ensures forall id :: id != r.id ==> GetKey(scheduler.View(), id) == GetKey(old(scheduler.View()), id)
      ensures forall k, q, t: nat :: k != r.id ==> (Blocked(blocks, k, q, t) <==> Blocked(old(blocks), k, q, t))
    {
      if a.answer.billing {
        CoolKey(r, 0, false, true, true, a.answered);
      } else if a.answer.status == 403 && a.answer.mismatch {
        var newly := BlockKeyForModel(r.id, rapiID, a.answered);
      } else {
        PutKeyDown(r);
      }
    }

    method ImposeStatus(r: Row, rapiID: int, a: Attempt)
      requires scheduler.Valid() && a.answer.Response? && !IsSuccess(a.answer)
      requires GetKey(scheduler.View(), r.id) == FRESH_KEY
      modifies this`blocks, scheduler`keys, scheduler`failures, scheduler.Objects()
      ensures scheduler.Valid() && fresh(scheduler.Objects() - old(scheduler.Objects()))
      ensures StoresFor(r, AnswerWrite(a.answer), old(scheduler.failures))
      ensures KeyLeft(scheduler.cfg, blockTTL, a.answered, a.answer, GetKey(scheduler.View(), r.id), old(blocks),
        blocks, r.id, rapiID)
      ensures forall id :: id != r.id ==> GetKey(scheduler.View(), id) == GetKey(old(scheduler.View()), id)
      ensures forall k, q, t: nat :: k != r.id ==> (Blocked(blocks, k, q, t) <==> Blocked(old(blocks), k, q, t))
    {
      var status := a.answer.status;
      match ClassifyFailure(status) {
        case SystemScope =>
          PutKeyDown(r);
        case PlatformScope =>
          ImposeAccount(r, rapiID, a);
        case SessionScope =>
          if (status == 400 || status == 404 || status == 422) && a.answer.mismatch {
            var newly := BlockKeyForModel(r.id, rapiID, a.answered);
          } else {
            CoolKey(r, a.answer.retryAt, false, false, true, a.answered);
          }
      }
    }

    /** The key that was tried joins those that are out until the horizon. */
    method FailKey(left: seq<Row>, ghost tried: seq<int>, r: Row, rapiID: int, a: Attempt, ghost before: Blocks,
        ghost horizon: Instant)
      requires scheduler.Valid() && RowUsable(r, a.picked) && !IsSuccess(a.answer)
      requires Outlasts(scheduler.cfg, blockTTL, a, horizon) && a.picked <= a.answered <= horizon
      requires GetKey(scheduler.View(), r.id).state == Healthy && UniqueKeys(left, RowId) && r in left
      requires Tracked(left, Elements(tried), scheduler.View(), blocks, rapiID, a.picked, horizon)
      requires BlocksKept(before, blocks, Elements(tried), rapiID, a.picked)
      modifies this`blocks, scheduler`keys, scheduler`failures, scheduler.Objects()
      ensures scheduler.Valid() && fresh(scheduler.Objects() - old(scheduler.Objects()))
      ensures StoresFor(r, AnswerWrite(a.answer), old(scheduler.failures))
      ensures Tracked(left, Elements(tried + [r.id]), scheduler.View(), blocks, rapiID, a.answered, horizon)
      ensures BlocksKept(before, blocks, Elements(tried + [r.id]), rapiID, a.answered)
      ensures StillLeft(a.answer, GetKey(scheduler.View(), r.id), blocks, r.id, rapiID, horizon)
      ensures forall id :: id != r.id ==> GetKey(scheduler.View(), id) == GetKey(old(scheduler.View()), id)
      ensures forall k, q, t: nat :: k != r.id ==> (Blocked(blocks, k, q, t) <==> Blocked(old(blocks), k, q, t))
    {
      ghost var view1, blocks1 := scheduler.View(), blocks;
      Penalize(r, rapiID, a, horizon);
      BlocksStep(before, blocks1, blocks, tried, r.id, rapiID, a);
      TrackStep(left, tried, r, view1, scheduler.View(), blocks1, blocks, rapiID, a, horizon);
    }

    /** Drops the blocked keys and picks one of the others; a key that was tried is never picked. */
    method NextKeyFor(rows: seq<Row>, rapiID: int, sessionID: string, now: Instant,
        ghost tried: set<int>, ghost since: Instant, ghost horizon: Instant)
      returns (left: seq<Row>, p: KeyPick)
      requires scheduler.Valid() && UniqueKeys(rows, RowId) && since <= now <= horizon
      requires Tracked(rows, tried, scheduler.View(), blocks, rapiID, since, horizon)
      modifies this`blocks, scheduler`keys, scheduler`cursors, scheduler.Objects()
      ensures scheduler.Valid() && fresh(scheduler.Objects() - old(scheduler.Objects()))
      ensures UniqueKeys(left, RowId) && OnlyPurged(old(blocks), blocks, now)
      ensures left == Unblocked(rows, old(blocks), rapiID, now)
      ensures forall r :: r in left <==> r in rows && !Blocked(old(blocks), r.id, rapiID, now)
      ensures RightKey(p,
        Rotated(ByIndex(left), CountOf(old(scheduler.cursors), scheduler.PoolCursor(left, sessionID))),
        old(scheduler.View()), now)
      ensures Tracked(left, tried, scheduler.View(), blocks, rapiID, now, horizon)
      ensures p.NoKey? ==> Exhausted(left, scheduler.View(), now)
      ensures p.KeyPicked? ==> p.row in left && p.row.id !in tried && RowUsable(p.row, now)
      ensures p.KeyPicked? ==> GetKey(scheduler.View(), p.row.id).state == Healthy
      ensures ScannedOver(scheduler.cfg, left, old(scheduler.View()), scheduler.View(), now)
    {
      hide Unblocked, RightKey, Rotated, ByIndex;
      left := FilterBlockedKeys(rows, rapiID, now);
      FilteredTracked(rows, left, tried, scheduler.View(), old(blocks), blocks, rapiID, since, now, horizon);
      ghost var before := scheduler.View();
      ViewInv(scheduler);
      ghost var n := CountOf(scheduler.cursors, scheduler.PoolCursor(left, sessionID));
      p := scheduler.PickAvailableKey(left, sessionID, now);
      ScanKeepsSpent(scheduler.cfg, left, tried, before, scheduler.View(), now, horizon);
      if p.KeyPicked? {
        PickFromRows(scheduler.cfg, left, p, n, before, now);
      } else {
        ScanExhausts(scheduler.cfg, left, p, n, before, scheduler.View(), now);
      }
    }

    /** A success clears the key's cooldown, its stored failure and its block for this model; a block of the
        synthetic key stays. */
    method Accept(r: Row, rapiID: int)
      requires scheduler.Valid()
      modifies this`blocks, scheduler`keys, scheduler`failures, scheduler.Objects()
      ensures scheduler.Valid() && fresh(scheduler.Objects() - old(scheduler.Objects()))
      ensures GetKey(scheduler.View(), r.id) ==
        NextKey(scheduler.cfg, GetKey(old(scheduler.View()), r.id), KeySucceeded, 0)
      ensures StoresFor(r, WriteOf(GetKey(old(scheduler.View()), r.id), KeySucceeded), old(scheduler.failures))
      ensures r.id > 0 ==> forall k, q, t: nat ::
        Blocked(blocks, k, q, t) <==> Blocked(old(blocks), k, q, t) && (k, q) != (r.id, rapiID)
      ensures r.id <= 0 ==> blocks == old(blocks)
      ensures forall id :: id != r.id ==> GetKey(scheduler.View(), id) == GetKey(old(scheduler.View()), id)
    {
      scheduler.MarkKeySuccess(r.id);
      if r.id > 0 {
        UnblockKeyForModel(r.id, rapiID);
      }
    }

    /** The attempt with the picked key: a success ends the loop, a failure puts the key out until the horizon. */
    method TryOne(left: seq<Row>, tried0: seq<int>, r: Row, rapiID: int, script: nat -> Attempt, ghost before: Blocks,
        ghost horizon: Instant)
      returns (res: Option<Result>)
      requires scheduler.Valid() && Calm(scheduler.cfg, blockTTL, script, horizon)
      requires UniqueKeys(left, RowId) && r in left && r.id !in Elements(tried0)
      requires RowUsable(r, script(|tried0|).picked) && GetKey(scheduler.View(), r.id).state == Healthy
      requires Tracked(left, Elements(tried0), scheduler.View(), blocks, rapiID, script(|tried0|).picked, horizon)
      requires BlocksKept(before, blocks, Elements(tried0), rapiID, script(|tried0|).picked)
      requires AllLeft(tried0, script, scheduler.View(), blocks, rapiID, horizon)
      modifies this`blocks, scheduler`keys, scheduler`failures, scheduler.Objects()
      ensures scheduler.Valid() && fresh(scheduler.Objects() - old(scheduler.Objects()))
      ensures StoresLast(tried0 + [r.id], script, old(scheduler.failures))
      ensures res == if IsSuccess(script(|tried0|).answer) then Some(Answered(script(|tried0|).answer)) else None
      ensures res.Some? ==> Cleared(r.id, scheduler.View(), blocks, rapiID)
      ensures res.None? ==>
        && Tracked(left, Elements(tried0 + [r.id]), scheduler.View(), blocks, rapiID, script(|tried0|).answered,
             horizon)
        && BlocksKept(before, blocks, Elements(tried0 + [r.id]), rapiID, script(|tried0|).answered)
      ensures AllLeft(tried0 + [r.id], script, scheduler.View(), blocks, rapiID, horizon)
    {
      var a := script(|tried0|);
      ghost var picked, purged := scheduler.View(), blocks;
      if IsSuccess(a.answer) {
        Accept(r, rapiID);
        res := Some(Answered(a.answer));
      } else {
        FailKey(left, tried0, r, rapiID, a, before, horizon);
        res := None;
      }
      AttemptLeaves(tried0, r.id, script, picked, scheduler.View(), purged, blocks, rapiID, horizon);
    }

    /** One pass of the loop; `None` means another key is to be tried. */
    method Round(ghost pool: seq<Row>, rows: seq<Row>, tried0: seq<int>, rapiID: int, sessionID: string,
        script: nat -> Attempt, ghost before: Blocks, ghost now: Instant, ghost horizon: Instant)
      returns (res: Option<Result>, left: seq<Row>, tried: seq<int>)
      requires scheduler.Valid() && Calm(scheduler.cfg, blockTTL, script, horizon)
      requires Underway(pool, rows, tried0, scheduler.View(), before, blocks, rapiID, script, now, horizon)
      requires AllLeft(tried0, script, scheduler.View(), blocks, rapiID, horizon)
      modifies this`blocks, scheduler`keys, scheduler`cursors, scheduler`failures, scheduler.Objects()
      ensures scheduler.Valid() && fresh(scheduler.Objects() - old(scheduler.Objects()))
      ensures tried0 <= tried && |tried| <= |tried0| + 1 && NoneBlocked(tried, before, rapiID, script)
      ensures tried == tried0 ==> scheduler.failures == old(scheduler.failures)
      ensures tried != tried0 ==> StoresLast(tried, script, old(scheduler.failures))
      ensures res.None? ==>
        Underway(pool, left, tried, scheduler.View(), before, blocks, rapiID, script, script(|tried0|).answered,
          horizon)
      ensures res.None? ==> Ids(pool) - Elements(tried) < Ids(pool) - Elements(tried0)
      ensures res.Some? ==> From(tried, pool) && Dropped(pool, left, tried, before, rapiID, script)
      ensures res.Some? && res.value.Answered? ==>
        Succeeds(tried, script) && res.value.answer == script(|tried| - 1).answer
      ensures res.Some? && !res.value.Answered? ==>
        Fails(tried, script) && Exhausted(left, scheduler.View(), script(|tried|).picked)
      ensures AllLeft(tried, script, scheduler.View(), blocks, rapiID, horizon)
      ensures res.Some? && res.value.Answered? ==> Cleared(tried[|tried| - 1], scheduler.View(), blocks, rapiID)
    {
      hide Unblocked, RightKey, Rotated, ByIndex;
      var a := script(|tried0|);
      var p;
      ghost var view := scheduler.View();
      left, p := NextKeyFor(rows, rapiID, sessionID, a.picked, Elements(tried0), now, horizon);
      FilteredTracked(rows, left, Elements(tried0), view, old(blocks), blocks, rapiID, now, a.picked, horizon);
      ScanLeaves(scheduler.cfg, left, tried0, script, view, scheduler.View(), old(blocks), blocks, rapiID, a.picked,
                 horizon);
      DropStep(pool, rows, left, tried0, before, old(blocks), blocks, rapiID, script, now);
      if p.NoKey? {
        return Some(AllKeysUnavailable), left, tried0;
      }
      NotBlocked(before, old(blocks), tried0, p.row.id, rapiID, script, now);
      TryStep(pool, left, tried0, p.row);
      DropMore(pool, left, tried0, p.row.id, before, rapiID, script);
      tried := tried0 + [p.row.id];
      res := TryOne(left, tried0, p.row, rapiID, script, before, horizon);
    }

    ghost predicate StoresLast(tried: seq<int>, script: nat -> Attempt, before: map<int, int>)
      requires tried != []
      reads scheduler
    {
      var n := |tried| - 1;
      scheduler.failures ==
        Written(before, tried[n], Persisted(scheduler.hasStore, tried[n], AnswerWrite(script(n).answer)))
    }

    /** Tries one key after another until one answers with success or none is left to try. The clock
        and the upstream's answers are a script; `tried` lists the keys in the order of the attempts,
        `left` the keys that were still eligible at the end. */
    method TryKeyForRAPI(rows: seq<Row>, platformID: int, rapiID: int, sessionID: string, script: nat -> Attempt,
        ghost horizon: Instant)
      returns (res: Result, tried: seq<int>, left: seq<Row>)
      requires scheduler.Valid() && UniqueKeys(rows, RowId) && Calm(scheduler.cfg, blockTTL, script, horizon)
      modifies this`blocks, scheduler`keys, scheduler`cursors, scheduler`failures, scheduler.Objects()
      ensures scheduler.Valid()
      ensures EachAtMostOnce(PoolOf(rows, platformID), tried) && NoneBlocked(tried, old(blocks), rapiID, script)
      ensures scheduler.failures == StoredAfter(old(scheduler.failures), tried, script, scheduler.hasStore)
      ensures TypesLeft(old(scheduler.failures), scheduler.failures, tried, script, scheduler.hasStore)
      ensures AllLeft(tried, script, scheduler.View(), blocks, rapiID, horizon)
      ensures res.Answered? ==> Succeeds(tried, script) && res.answer == script(|tried| - 1).answer
      ensures res.Answered? ==> Cleared(tried[|tried| - 1], scheduler.View(), blocks, rapiID)
      ensures res.AllKeysUnavailable? ==>
        Fails(tried, script) && Exhausted(left, scheduler.View(), script(|tried|).picked)
      ensures Dropped(PoolOf(rows, platformID), left, tried, old(blocks), rapiID, script)
    {
      ghost var pool := PoolOf(rows, platformID);
      left, tried := PoolOf(rows, platformID), [];
      ghost var now: Instant := script(0).picked;
      while true
        invariant scheduler.Valid() && fresh(scheduler.Objects() - old(scheduler.Objects()))
        invariant Underway(pool, left, tried, scheduler.View(), old(blocks), blocks, rapiID, script, now, horizon)
        invariant scheduler.failures == StoredAfter(old(scheduler.failures), tried, script, scheduler.hasStore)
        invariant AllLeft(tried, script, scheduler.View(), blocks, rapiID, horizon)
        decreases Ids(pool) - Elements(tried)
      {
        ghost var answered, tried0 := script(|tried|).answered, tried;
        var done;
        done, left, tried := Round(pool, left, tried, rapiID, sessionID, script, old(blocks), now, horizon);
        if tried != tried0 {
          assert tried[..|tried| - 1] == tried0;
        }
        if done.Some? {
          AtMostOnce(pool, tried);
          TypesLeftBy(old(scheduler.failures), tried, script, scheduler.hasStore);
          return done.value, tried, left;
        }
        now := answered;
      }
    }
  }

  /** The state of the loop before a pass. */
  ghost predicate Underway(pool: seq<Row>, rows: seq<Row>, tried: seq<int>, view: map<int, KeyStatus>, before: Blocks,
      blocks: Blocks, rapiID: int, script: nat -> Attempt, now: Instant, horizon: Instant)
  {
    && UniqueKeys(rows, RowId) && From(tried, pool) && (forall r :: r in rows ==> r in pool)
    && now <= script(|tried|).picked && Fails(tried, script)
    && Tracked(rows, Elements(tried), view, blocks, rapiID, now, horizon)
    && Dropped(pool, rows, tried, before, rapiID, script)
    && BlocksKept(before, blocks, Elements(tried), rapiID, now) && NoneBlocked(tried, before, rapiID, script)
  }

  /** A scan visits some of the listed keys, each with its row, and no other key. */
  ghost predicate ScannedOver(cfg: Config, rows: seq<Row>, before: map<int, KeyStatus>, after: map<int, KeyStatus>,
      now: Instant)
  {
    && (forall r :: r in rows ==>
      GetKey(after, r.id) == GetKey(before, r.id) || GetKey(after, r.id) == Visited(cfg, GetKey(before, r.id), r, now))
    && (forall id :: (forall r :: r in rows ==> r.id != id) ==> GetKey(after, id) == GetKey(before, id))
  }

  /** The key that answered is healthy, and if it is a stored one not blocked for the model. */
  ghost predicate Cleared(id: int, view: map<int, KeyStatus>, blocks: Blocks, rapiID: int) {
    GetKey(view, id) == KeyStatus(Healthy, 0) && (id > 0 ==> forall t: nat :: !Blocked(blocks, id, rapiID, t))
  }

  /** A visit leaves what an answer has left. */
  lemma VisitLeaves(cfg: Config, a: Answer, s: KeyStatus, r: Row, blocks: Blocks, rapiID: int, now: Instant,
      horizon: Instant)
    requires StillLeft(a, s, blocks, r.id, rapiID, horizon) && now <= horizon && Spent(s, r, now, horizon)
    ensures StillLeft(a, Visited(cfg, s, r, now), blocks, r.id, rapiID, horizon)
  {
  }

  lemma PurgeLeaves(a: Answer, s: KeyStatus, before: Blocks, after: Blocks, id: int, rapiID: int, now: Instant,
      horizon: Instant)
    requires StillLeft(a, s, before, id, rapiID, horizon) && now <= horizon && OnlyPurged(before, after, now)
    ensures StillLeft(a, s, after, id, rapiID, horizon)
  {
  }

  lemma ScanLeaves(cfg: Config, left: seq<Row>, tried: seq<int>, script: nat -> Attempt, view1: map<int, KeyStatus>,
      view2: map<int, KeyStatus>, blocks1: Blocks, blocks2: Blocks, rapiID: int, now: Instant, horizon: Instant)
    requires AllLeft(tried, script, view1, blocks1, rapiID, horizon) && now <= horizon
    requires OnlyPurged(blocks1, blocks2, now) && ScannedOver(cfg, left, view1, view2, now)
    requires forall r :: r in left && r.id in Elements(tried) ==> Spent(GetKey(view1, r.id), r, now, horizon)
    ensures AllLeft(tried, script, view2, blocks2, rapiID, horizon)
  {
    forall n: nat | n < |tried| && !Accepted(script(n).answer)
      ensures StillLeft(script(n).answer, GetKey(view2, tried[n]), blocks2, tried[n], rapiID, horizon)
    {
      var a, id := script(n).answer, tried[n];
      assert id in Elements(tried);
      if r :| r in left && r.id == id {
        VisitLeaves(cfg, a, GetKey(view1, id), r, blocks1, rapiID, now, horizon);
      }
      PurgeLeaves(a, GetKey(view2, id), blocks1, blocks2, id, rapiID, now, horizon);
    }
  }

  /** Another attempt on a new key leaves the others alone. */
  lemma AttemptLeaves(tried: seq<int>, id: int, script: nat -> Attempt, view1: map<int, KeyStatus>,
      view2: map<int, KeyStatus>, blocks1: Blocks, blocks2: Blocks, rapiID: int, horizon: Instant)
    requires AllLeft(tried, script, view1, blocks1, rapiID, horizon) && id !in Elements(tried)
    requires forall q :: q != id ==> GetKey(view2, q) == GetKey(view1, q)
    requires forall k, q, t: nat :: k != id ==> (Blocked(blocks2, k, q, t) <==> Blocked(blocks1, k, q, t))
    requires !Accepted(script(|tried|).answer) ==>
      StillLeft(script(|tried|).answer, GetKey(view2, id), blocks2, id, rapiID, horizon)
    ensures AllLeft(tried + [id], script, view2, blocks2, rapiID, horizon)
  {
    forall n: nat | n < |tried + [id]| && !Accepted(script(n).answer)
      ensures StillLeft(script(n).answer, GetKey(view2, (tried + [id])[n]), blocks2, (tried + [id])[n], rapiID, horizon)
    {
      if n < |tried| {
        assert tried[n] in Elements(tried);
      }
    }
  }

  /** No key is tried while it is blocked. */
  ghost predicate NoneBlocked(tried: seq<int>, blocks: Blocks, rapiID: int, script: nat -> Attempt) {
    forall n: nat :: n < |tried| ==> !Blocked(blocks, tried[n], rapiID, script(n).picked)
  }

  lemma NotBlocked(before: Blocks, mid: Blocks, tried: seq<int>, id: int, rapiID: int, script: nat -> Attempt,
      now: Instant)
    requires NoneBlocked(tried, before, rapiID, script) && id !in Elements(tried) && now <= script(|tried|).picked
    requires BlocksKept(before, mid, Elements(tried), rapiID, now) && !Blocked(mid, id, rapiID, script(|tried|).picked)
    ensures NoneBlocked(tried + [id], before, rapiID, script)
  {
  }

  /** The synthetic key of a pool without credentials is no exception: while it is blocked nothing is tried. */
  lemma SyntheticKeyShutOut(platformID: int, tried: seq<int>, blocks: Blocks, rapiID: int, script: nat -> Attempt)
    requires From(tried, PoolOf([], platformID)) && NoneBlocked(tried, blocks, rapiID, script)
    requires Blocked(blocks, -1, rapiID, script(0).picked)
    ensures tried == []
  {
    forall n: nat | n < |tried| ensures tried[n] == -1 {
      assert tried[n] in Elements(tried);
    }
  }

  /** The attempt on a key decides its stored failure type. */
  lemma {:induction false} StoredByAttempt(column: map<int, int>, tried: seq<int>, script: nat -> Attempt,
      hasStore: bool, n: nat)
    requires Distinct(tried) && n < |tried| && tried[n] in column
    ensures
      var after, write := StoredAfter(column, tried, script, hasStore),
        Persisted(hasStore, tried[n], AnswerWrite(script(n).answer));
      && tried[n] in after && after.Keys == column.Keys
      && after[tried[n]] == if write.Some? then write.value else column[tried[n]]
    decreases |tried|
  {
    var m := |tried| - 1;
    if n < m {
      StoredByAttempt(column, tried[..m], script, hasStore, n);
    } else {
      NeverTried(column, tried[..m], script, hasStore, tried[n]);
    }
  }

  lemma {:induction false} NeverTried(column: map<int, int>, tried: seq<int>, script: nat -> Attempt, hasStore: bool,
      id: int)
    requires id !in tried && id in column
    ensures
      var after := StoredAfter(column, tried, script, hasStore);
      after.Keys == column.Keys && id in after && after[id] == column[id]
    decreases |tried|
  {
    if tried != [] {
      NeverTried(column, tried[..|tried| - 1], script, hasStore, id);
    }
  }

  lemma {:induction false} NotStored(column: map<int, int>, tried: seq<int>, script: nat -> Attempt, hasStore: bool,
      id: int)
    requires (id <= 0 || !hasStore) && id in column
    ensures id in StoredAfter(column, tried, script, hasStore)
    ensures StoredAfter(column, tried, script, hasStore)[id] == column[id]
    decreases |tried|
  {
    if tried != [] {
      NotStored(column, tried[..|tried| - 1], script, hasStore, id);
    }
  }

  lemma {:induction false} SameColumn(column: map<int, int>, tried: seq<int>, script: nat -> Attempt, hasStore: bool)
    ensures StoredAfter(column, tried, script, hasStore).Keys == column.Keys
    decreases |tried|
  {
    if tried != [] {
      SameColumn(column, tried[..|tried| - 1], script, hasStore);
    }
  }

  lemma TypesLeftBy(column: map<int, int>, tried: seq<int>, script: nat -> Attempt, hasStore: bool)
    requires Distinct(tried)
    ensures TypesLeft(column, StoredAfter(column, tried, script, hasStore), tried, script, hasStore)
  {
    var after := StoredAfter(column, tried, script, hasStore);
    SameColumn(column, tried, script, hasStore);
    forall n: nat | n < |tried| && tried[n] in column && tried[n] > 0 && hasStore
      ensures TypeLeft(script(n).answer, column[tried[n]], after[tried[n]])
    {
      StoredByAttempt(column, tried, script, hasStore, n);
      AnswerWriteIs(script(n).answer, column[tried[n]]);
    }
    forall id | id in column && (id !in tried || id <= 0 || !hasStore) ensures after[id] == column[id] {
      if id !in tried {
        NeverTried(column, tried, script, hasStore, id);
      } else {
        NotStored(column, tried, script, hasStore, id);
      }
    }
  }

  /** A stored key that its answer puts down is of no use to any request that loads its row afterwards. */
  lemma PutDownPersists(before: map<int, int>, after: map<int, int>, tried: seq<int>, script: nat -> Attempt, n: nat,
      r: Row, now: Instant)
    requires TypesLeft(before, after, tried, script, true)
    requires n < |tried| && tried[n] > 0 && tried[n] in before && r.id == tried[n] && script(n).answer.Response?
    requires
      var a := script(n).answer;
      a.status == 401 || (AccountStatus(a.status) && !a.billing && !(a.status == 403 && a.mismatch))
    ensures r.id in after && (r.failureType == after[r.id] ==> !RowUsable(r, now))
  {
    assert TypeLeft(script(n).answer, before[tried[n]], after[tried[n]]);
  }

  /** Distinct keys of the pool. */
  ghost predicate From(tried: seq<int>, pool: seq<Row>) {
    Distinct(tried) && Elements(tried) <= Ids(pool)
  }

  /** No key is tried twice, so the attempts are no more than the keys. */
  ghost predicate EachAtMostOnce(pool: seq<Row>, tried: seq<int>) {
    From(tried, pool) && |tried| <= |pool|
  }

  ghost predicate Fails(tried: seq<int>, script: nat -> Attempt) {
    forall n: nat :: n < |tried| ==> !IsSuccess(script(n).answer)
  }

  /** Only the last attempt is answered with success. */
  ghost predicate Succeeds(tried: seq<int>, script: nat -> Attempt) {
    tried != [] && IsSuccess(script(|tried| - 1).answer)
    && forall n: nat :: n < |tried| - 1 ==> !IsSuccess(script(n).answer)
  }

  lemma {:induction false} IdsBounded(pool: seq<Row>)
    ensures |Ids(pool)| <= |pool|
  {
    if pool == [] {
      assert Ids(pool) == {};
    } else {
      IdsBounded(pool[..|pool| - 1]);
      Snoc(pool);
      assert Ids(pool) == Ids(pool[..|pool| - 1]) + {pool[|pool| - 1].id};
    }
  }

  lemma {:induction false} DistinctCount(s: seq<int>)
    requires Distinct(s)
    ensures |Elements(s)| == |s|
  {
    if s == [] {
      assert Elements(s) == {};
    } else {
      var init, last := s[..|s| - 1], s[|s| - 1];
      DistinctCount(init);
      Snoc(s);
      assert Elements(s) == Elements(init) + {last};
    }
  }

  lemma AtMostOnce(pool: seq<Row>, tried: seq<int>)
    requires From(tried, pool)
    ensures EachAtMostOnce(pool, tried)
  {
    IdsBounded(pool);
    DistinctCount(tried);
    SubsetSize(Elements(tried), Ids(pool));
  }

  lemma TryStep(pool: seq<Row>, left: seq<Row>, tried: seq<int>, r: Row)
    requires From(tried, pool) && r in left && r.id !in Elements(tried) && forall q :: q in left ==> q in pool
    ensures From(tried + [r.id], pool) && Elements(tried + [r.id]) == Elements(tried) + {r.id}
    ensures Ids(pool) - Elements(tried + [r.id]) < Ids(pool) - Elements(tried)
  {
    assert r.id in Ids(pool);
  }

  lemma DropStep(pool: seq<Row>, keys: seq<Row>, left: seq<Row>, tried: seq<int>, before: Blocks, mid: Blocks,
      after: Blocks, rapiID: int, script: nat -> Attempt, now: Instant)
    requires Dropped(pool, keys, tried, before, rapiID, script) && now <= script(|tried|).picked
    requires BlocksKept(before, mid, Elements(tried), rapiID, now) && OnlyPurged(mid, after, script(|tried|).picked)
    requires forall r :: r in left <==> r in keys && !Blocked(mid, r.id, rapiID, script(|tried|).picked)
    ensures Dropped(pool, left, tried, before, rapiID, script)
    ensures BlocksKept(before, after, Elements(tried), rapiID, script(|tried|).picked)
  {
    forall r | r in pool && r !in left
      ensures r.id in tried || WasBlocked(before, r.id, tried, rapiID, script)
    {
      if r in keys && r.id !in tried {
        assert Blocked(before, r.id, rapiID, script(|tried|).picked);
      }
    }
  }

  lemma DropMore(pool: seq<Row>, left: seq<Row>, tried: seq<int>, id: int, before: Blocks, rapiID: int,
      script: nat -> Attempt)
    requires Dropped(pool, left, tried, before, rapiID, script)
    ensures Dropped(pool, left, tried + [id], before, rapiID, script)
  {
    forall r | r in pool && r !in left
      ensures r.id in tried + [id] || WasBlocked(before, r.id, tried + [id], rapiID, script)
    {
      if r.id !in tried {
        var n: nat :| n <= |tried| && Blocked(before, r.id, rapiID, script(n).picked);
        assert n <= |tried + [id]|;
      }
    }
  }

  lemma BlocksStep(before: Blocks, blocks1: Blocks, blocks2: Blocks, tried: seq<int>, id: int, rapiID: int, a: Attempt)
    requires BlocksKept(before, blocks1, Elements(tried), rapiID, a.picked) && a.picked <= a.answered
    requires forall k, q, t: nat :: k != id ==> (Blocked(blocks2, k, q, t) <==> Blocked(blocks1, k, q, t))
    ensures BlocksKept(before, blocks2, Elements(tried + [id]), rapiID, a.answered)
  {
    assert forall k :: k !in Elements(tried + [id]) ==> k !in Elements(tried) && k != id;
  }

  lemma TrackStep(left: seq<Row>, tried: seq<int>, r: Row, view1: map<int, KeyStatus>, view2: map<int, KeyStatus>,
      blocks1: Blocks, blocks2: Blocks, rapiID: int, a: Attempt, horizon: Instant)
    requires UniqueKeys(left, RowId) && r in left && a.picked <= a.answered <= horizon
    requires Tracked(left, Elements(tried), view1, blocks1, rapiID, a.picked, horizon)
    requires Out(GetKey(view2, r.id), blocks2, r, rapiID, a.answered, horizon)
    requires forall id :: id != r.id ==> GetKey(view2, id) == GetKey(view1, id)
    requires forall k, q, t: nat :: k != r.id ==> (Blocked(blocks2, k, q, t) <==> Blocked(blocks1, k, q, t))
    ensures Tracked(left, Elements(tried + [r.id]), view2, blocks2, rapiID, a.answered, horizon)
  {
    forall q | q in left && q.id in Elements(tried + [r.id])
      ensures Out(GetKey(view2, q.id), blocks2, q, rapiID, a.answered, horizon)
    {
      if q.id == r.id {
        UniqueRow(left, RowId, q, r);
      } else {
        assert q.id in Elements(tried);
      }
    }
  }

  function Elements(s: seq<int>): set<int> {
    set x | x in s
  }

  ghost predicate WasBlocked(blocks: Blocks, id: int, tried: seq<int>, rapiID: int, script: nat -> Attempt) {
    exists n: nat :: n <= |tried| && Blocked(blocks, id, rapiID, script(n).picked)
  }

  /** A key that is no longer listed was tried, or was blocked when one of the attempts began. */
  ghost predicate Dropped(pool: seq<Row>, keys: seq<Row>, tried: seq<int>, blocks: Blocks, rapiID: int,
      script: nat -> Attempt)
  {
    forall r :: r in pool && r !in keys ==> r.id in tried || WasBlocked(blocks, r.id, tried, rapiID, script)
  }

  /** The blocks of untried keys are those from before, as far as the future is concerned. */
  ghost predicate BlocksKept(before: Blocks, after: Blocks, tried: set<int>, rapiID: int, now: Instant) {
    forall k, t: nat :: k !in tried && t >= now ==> (Blocked(after, k, rapiID, t) <==> Blocked(before, k, rapiID, t))
  }

  // ---------- The retry loop ----------

  /** Without credentials the platform's own token serves as a key. */
  function PoolOf(rows: seq<Row>, platformID: int): seq<Row> {
    if rows == [] then [Row(-1, 0, platformID, true, 0, "", 0)] else rows
  }

  /** A pool with credentials is its rows; one without is a single key that has no stored row, is always allowed
      by its row and belongs to the platform. */
  lemma PoolIs(rows: seq<Row>, platformID: int, now: Instant)
    ensures rows != [] ==> PoolOf(rows, platformID) == rows
    ensures rows == [] ==>
      exists r: Row :: (
        PoolOf(rows, platformID) == [r] && r.id <= 0 && r.platformID == platformID && RowUsable(r, now))
  {
    if rows == [] {
      assert PoolOf(rows, platformID) == [Row(-1, 0, platformID, true, 0, "", 0)];
    }
  }

  function Ids(rows: seq<Row>): set<int> {
    set r | r in rows :: r.id
  }

  /** Every key still listed that was tried is out until the horizon. */
  ghost predicate Tracked(rows: seq<Row>, tried: set<int>, view: map<int, KeyStatus>, blocks: Blocks, rapiID: int,
      now: Instant, horizon: Instant)
  {
    forall r :: r in rows && r.id in tried ==> Out(GetKey(view, r.id), blocks, r, rapiID, now, horizon)
  }

  lemma FilteredTracked(rows: seq<Row>, out: seq<Row>, tried: set<int>, view: map<int, KeyStatus>,
      before: Blocks, after: Blocks, rapiID: int, since: Instant, now: Instant, horizon: Instant)
    requires Tracked(rows, tried, view, before, rapiID, since, horizon) && since <= now <= horizon
    requires forall r :: r in out ==> r in rows && !Blocked(before, r.id, rapiID, now)
    ensures forall r :: r in out && r.id in tried ==> Spent(GetKey(view, r.id), r, now, horizon)
  {
  }

  /** A spent key is not picked, and a scan leaves it spent. */
  lemma ScanKeepsSpent(cfg: Config, rows: seq<Row>, tried: set<int>, before: map<int, KeyStatus>,
      after: map<int, KeyStatus>, now: Instant, horizon: Instant)
    requires now <= horizon
    requires forall r :: r in rows && r.id in tried ==> Spent(GetKey(before, r.id), r, now, horizon)
    requires forall r :: r in rows ==>
      GetKey(after, r.id) == GetKey(before, r.id) || GetKey(after, r.id) == Visited(cfg, GetKey(before, r.id), r, now)
    ensures forall r :: r in rows && r.id in tried ==>
      !Usable(r, before, now) && Spent(GetKey(after, r.id), r, now, horizon)
  {
    forall r | r in rows && r.id in tried
      ensures !Usable(r, before, now) && Spent(GetKey(after, r.id), r, now, horizon)
    {
      SpentStays(cfg, GetKey(before, r.id), r, now, now, horizon);
    }
  }

  /** Every listed key is unusable after a scan that picked none. */
  ghost predicate Exhausted(rows: seq<Row>, view: map<int, KeyStatus>, now: Instant) {
    forall r :: r in rows ==> !Usable(r, view, now)
  }

  lemma ScanExhausts(cfg: Config, rows: seq<Row>, p: KeyPick, n: nat, before: map<int, KeyStatus>,
      after: map<int, KeyStatus>, now: Instant)
    requires UniqueKeys(rows, RowId) && AllKeyInv(before)
    requires RightKey(p, Rotated(ByIndex(rows), n), before, now) && p.NoKey?
    requires forall r :: r in rows ==>
      GetKey(after, r.id) == GetKey(before, r.id) || GetKey(after, r.id) == Visited(cfg, GetKey(before, r.id), r, now)
    ensures Exhausted(rows, after, now)
  {
    OrderKeeps(rows, n);
    forall r | r in rows ensures !Usable(r, after, now) {
      assert r in Rotated(ByIndex(rows), n);
      GetKeyInv(before, r.id);
      StaysUnusable(cfg, GetKey(before, r.id), r, now);
    }
  }

  lemma StaysUnusable(cfg: Config, s: KeyStatus, r: Row, now: Instant)
    requires KeyInv(s) && !KeyReady(Synced(s, r, now), now)
    ensures !KeyReady(Synced(Visited(cfg, s, r, now), r, now), now)
  {
  }

  lemma PickFromRows(cfg: Config, rows: seq<Row>, p: KeyPick, n: nat, view: map<int, KeyStatus>, now: Instant)
    requires UniqueKeys(rows, RowId) && AllKeyInv(view)
    requires RightKey(p, Rotated(ByIndex(rows), n), view, now) && p.KeyPicked?
    ensures p.row in rows && Usable(p.row, view, now) && RowUsable(p.row, now)
  {
    OrderKeeps(rows, n);
    PickedIsUsable(cfg, p, Rotated(ByIndex(rows), n), view, now);
  }

  lemma ViewInv(m: KeyManager)
    requires m.Valid()
    ensures AllKeyInv(m.View())
  {
  }

  lemma HealthyIsFresh(m: KeyManager, id: int)
    requires m.Valid() && GetKey(m.View(), id).state == Healthy
    ensures GetKey(m.View(), id) == FRESH_KEY
  {
    if id in m.View() {
      assert m.keys[id].View() == m.View()[id];
    }
  }

  /** Spent, or blocked for the model, through the horizon. */
  ghost predicate Out(s: KeyStatus, blocks: Blocks, r: Row, rapiID: int, now: Instant, horizon: Instant) {
    Spent(s, r, now, horizon) || Blocked(blocks, r.id, rapiID, horizon)
  }

  lemma NewRow(rows: seq<Row>, i: nat, out: seq<Row>)
    requires UniqueKeys(rows, RowId) && i < |rows| && UniqueKeys(out, RowId)
    requires forall r :: r in out ==> r in rows[..i]
    ensures UniqueKeys(out + [rows[i]], RowId)
  {
    forall j | 0 <= j < |out| ensures RowId(out[j]) != RowId(rows[i]) {
      assert out[j] in out;
      var q :| 0 <= q < i && rows[q] == out[j];
      assert RowId(rows[q]) != RowId(rows[i]);
    }
  }
}
