/** The state machine of one platform key, reconciled with its database row. */
module PlatformKey {
  import opened Folds
  import opened Fsm
  import opened Endpoint

  /** The facts of a key's row; `expiresAt` is 0 for a key that never expires. */
  datatype Row = Row(
    id: int, keyIndex: int, platformID: int, enabled: bool, failureType: int, failureReason: string, expiresAt: Instant)

  /** The row alone allows the key: enabled, not permanently failed, not expired. */
  predicate RowUsable(r: Row, now: Instant) {
    r.enabled && r.failureType != 2 && !(r.expiresAt != 0 && now > r.expiresAt)
  }

  datatype KeyStatus = KeyStatus(state: State, wakeAt: Instant)

  const FRESH_KEY := KeyStatus(Healthy, 0)

  datatype KeyCall =
    | KeySucceeded
    | KeyFailed(retryAt: Instant, timeout: bool, billing: bool, persist: bool)
    | KeyDown
    | Sync(row: Row)
    | KeyTick
    | AlignKeyTo(at: Instant)

  predicate Live(s: State) { s == Healthy || s == Cooling || s == State.PlatformFailed }

  predicate Dead(s: State) { s == State.PermanentFailed || s == State.Disabled || s == State.Expired }

  function KeyCooldown(cfg: Config, timeout: bool, billing: bool): nat {
    if billing && cfg.billingCooldown > 0 then cfg.billingCooldown
    else if timeout && cfg.timeoutCooldown > 0 then cfg.timeoutCooldown
    else cfg.defaultCooldown
  }

  function KeyUntil(cfg: Config, retryAt: Instant, timeout: bool, billing: bool, now: Instant): Instant {
    if retryAt > now then retryAt else now + KeyCooldown(cfg, timeout, billing)
  }

  // ---------- What a call does ----------

  /** A row that is not usable puts the key in a dead state, a usable one revives it. */
  function Synced(s: KeyStatus, row: Row, now: Instant): KeyStatus {
    if !row.enabled then
      if s.state == State.Disabled then s else KeyStatus(State.Disabled, 0)
    else if row.failureType == 2 then
      if Live(s.state) then KeyStatus(State.PermanentFailed, 0) else s
    else if !RowUsable(row, now) then
      if s.state == State.Expired then s else KeyStatus(State.Expired, 0)
    else if Dead(s.state) then s.(state := Healthy)
    else s
  }

  function NextKey(cfg: Config, s: KeyStatus, c: KeyCall, now: Instant): KeyStatus {
    match c
    case KeySucceeded => if s.state == State.Disabled || s.state == State.Expired then s else FRESH_KEY
    case KeyFailed(retryAt, timeout, billing, _) =>
      if s.state == Healthy || s.state == Cooling
      then KeyStatus(Cooling, KeyUntil(cfg, retryAt, timeout, billing, now)) else s
    case KeyDown => if Live(s.state) then s.(state := State.PlatformFailed) else s
    case Sync(row) => Synced(s, row, now)
    case KeyTick =>
      if s.wakeAt == 0 || now < s.wakeAt then s
      else s.(wakeAt := 0, state := if Timed(s.state) then Healthy else s.state)
    case AlignKeyTo(at) => if s.state == Cooling && at != 0 then s.(wakeAt := at) else s
  }

  /** What a visit with a row makes of a key. */
  function Visited(cfg: Config, s: KeyStatus, r: Row, now: Instant): KeyStatus {
    var synced := Synced(s, r, now);
    if Timed(synced.state) then NextKey(cfg, synced, KeyTick, now) else synced
  }

  // ---------- What a call writes ----------

  /** The failure type that the effect of a transition stores: 2 is permanent, 1 temporary, 0 none. */
  function WriteOf(s: KeyStatus, c: KeyCall): Option<int> {
    match c
    case KeySucceeded => if s.state == State.Disabled || s.state == State.Expired then None else Some(0)
    case KeyFailed(_, _, _, persist) => if persist && (s.state == Healthy || s.state == Cooling) then Some(1) else None
    case KeyDown => if Live(s.state) then Some(2) else None
    case _ => None
  }

  /** Only keys with a row in the store are written: the synthetic key has none. */
  function Persisted(hasStore: bool, id: int, write: Option<int>): Option<int> {
    if hasStore && id > 0 then write else None
  }

  /** The column of failure types after a write. */
  function Written(column: map<int, int>, id: int, write: Option<int>): map<int, int> {
    if write.Some? && id in column then column[id := write.value] else column
  }

  // ---------- The table ----------

  const KEY_HEALTHY: seq<Edge> := [
    Edge(Healthy, SessionFailure, Cooling, OnSessionFailure),
    Edge(Healthy, PlatformFailure, PlatformFailed, OnPlatformFailure),
    Edge(Healthy, Disable, Disabled, OnRowFact),
    Edge(Healthy, Expire, Expired, OnRowFact),
    Edge(Healthy, PermanentFailure, PermanentFailed, OnRowFact),
    Edge(Healthy, Success, Healthy, OnSuccess)]

  const KEY_COOLING: seq<Edge> := [
    Edge(Cooling, SessionFailure, Cooling, OnSessionFailure),
    Edge(Cooling, PlatformFailure, PlatformFailed, OnPlatformFailure),
    Edge(Cooling, Disable, Disabled, OnRowFact),
    Edge(Cooling, Expire, Expired, OnRowFact),
    Edge(Cooling, PermanentFailure, PermanentFailed, OnRowFact),
    Edge(Cooling, Success, Healthy, OnSuccess),
    Edge(Cooling, TimerExpired, Healthy, OnTimerExpired)]

  const KEY_PLATFORM_FAILED: seq<Edge> := [
    Edge(PlatformFailed, PlatformFailure, PlatformFailed, OnPlatformFailure),
    Edge(PlatformFailed, Disable, Disabled, OnRowFact),
    Edge(PlatformFailed, Expire, Expired, OnRowFact),
    Edge(PlatformFailed, PermanentFailure, PermanentFailed, OnRowFact),
    Edge(PlatformFailed, Success, Healthy, OnSuccess),
    Edge(PlatformFailed, TimerExpired, Healthy, OnTimerExpired)]

  const KEY_PERMANENT_FAILED: seq<Edge> := [
    Edge(PermanentFailed, Success, Healthy, OnSuccess),
    Edge(PermanentFailed, Enable, Healthy, OnEnable),
    Edge(PermanentFailed, Disable, Disabled, OnRowFact),
    Edge(PermanentFailed, Expire, Expired, OnRowFact)]

  const KEY_DISABLED: seq<Edge> := [
    Edge(Disabled, Enable, Healthy, OnEnable),
    Edge(Disabled, Expire, Expired, OnRowFact)]

  const KEY_EXPIRED: seq<Edge> := [
    Edge(Expired, Enable, Healthy, OnEnable),
    Edge(Expired, Disable, Disabled, OnRowFact)]

  const KEY_TABLE: seq<Edge> :=
    KEY_HEALTHY + KEY_COOLING + KEY_PLATFORM_FAILED + KEY_PERMANENT_FAILED + KEY_DISABLED + KEY_EXPIRED

  function KeyTarget(s: State, e: Event): Move {
    match e
    case SessionFailure => if s == Healthy || s == Cooling then Move(Cooling, OnSessionFailure) else Stay
    case PlatformFailure => if Live(s) then Move(PlatformFailed, OnPlatformFailure) else Stay
    case Disable => if s == Disabled || s == State.Invalidated then Stay else Move(Disabled, OnRowFact)
    case Expire => if s == Expired || s == State.Invalidated then Stay else Move(Expired, OnRowFact)
    case PermanentFailure => if Live(s) then Move(PermanentFailed, OnRowFact) else Stay
    case Enable => if Dead(s) then Move(Healthy, OnEnable) else Stay
    case Success => if Live(s) || s == PermanentFailed then Move(Healthy, OnSuccess) else Stay
    case TimerExpired => if Timed(s) then Move(Healthy, OnTimerExpired) else Stay
    case _ => Stay
  }

  lemma KeyEdges(e: Event)
    ensures AllFrom(KEY_HEALTHY, Healthy) && Lookup(KEY_HEALTHY, Healthy, e) == KeyTarget(Healthy, e)
  {
    LookupIs(KEY_HEALTHY, Healthy, e);
  }

  lemma KeyPermanentFailedEdges(e: Event)
    ensures AllFrom(KEY_PERMANENT_FAILED, PermanentFailed)
    ensures Lookup(KEY_PERMANENT_FAILED, PermanentFailed, e) == KeyTarget(PermanentFailed, e)
  {
    LookupIs(KEY_PERMANENT_FAILED, PermanentFailed, e);
  }

  lemma KeyCoolingEdges(e: Event)
    ensures AllFrom(KEY_COOLING, Cooling) && Lookup(KEY_COOLING, Cooling, e) == KeyTarget(Cooling, e)
  {
    LookupIs(KEY_COOLING, Cooling, e);
  }

  lemma KeyPlatformFailedEdges(e: Event)
    ensures AllFrom(KEY_PLATFORM_FAILED, PlatformFailed)
    ensures Lookup(KEY_PLATFORM_FAILED, PlatformFailed, e) == KeyTarget(PlatformFailed, e)
  {
    LookupIs(KEY_PLATFORM_FAILED, PlatformFailed, e);
  }

  lemma KeyDeadEdges(e: Event)
    ensures AllFrom(KEY_DISABLED, Disabled) && Lookup(KEY_DISABLED, Disabled, e) == KeyTarget(Disabled, e)
    ensures AllFrom(KEY_EXPIRED, Expired) && Lookup(KEY_EXPIRED, Expired, e) == KeyTarget(Expired, e)
  {
    LookupIs(KEY_DISABLED, Disabled, e);
    LookupIs(KEY_EXPIRED, Expired, e);
  }

  /** The lookup in a table made of one part per state. */
  lemma LookupParts(s: State, e: Event)
    ensures Lookup(KEY_TABLE, s, e) == (
      if Lookup(KEY_HEALTHY, s, e).Move? then Lookup(KEY_HEALTHY, s, e)
      else if Lookup(KEY_COOLING, s, e).Move? then Lookup(KEY_COOLING, s, e)
      else if Lookup(KEY_PLATFORM_FAILED, s, e).Move? then Lookup(KEY_PLATFORM_FAILED, s, e)
      else if Lookup(KEY_PERMANENT_FAILED, s, e).Move? then Lookup(KEY_PERMANENT_FAILED, s, e)
      else if Lookup(KEY_DISABLED, s, e).Move? then Lookup(KEY_DISABLED, s, e)
      else Lookup(KEY_EXPIRED, s, e))
  {
    var a := KEY_HEALTHY + KEY_COOLING;
    LookupAppend(a + KEY_PLATFORM_FAILED + KEY_PERMANENT_FAILED + KEY_DISABLED, KEY_EXPIRED, s, e);
    LookupAppend(a + KEY_PLATFORM_FAILED + KEY_PERMANENT_FAILED, KEY_DISABLED, s, e);
    LookupAppend(a + KEY_PLATFORM_FAILED, KEY_PERMANENT_FAILED, s, e);
    LookupAppend(a, KEY_PLATFORM_FAILED, s, e);
    LookupAppend(KEY_HEALTHY, KEY_COOLING, s, e);
  }

  /** The registered table is the transition function. */
  lemma KeyTableIs(s: State, e: Event)
    requires s != State.Invalidated
    ensures Lookup(KEY_TABLE, s, e) == KeyTarget(s, e)
  {
    LookupParts(s, e);
    KeyEdges(e);
    KeyCoolingEdges(e);
    KeyPlatformFailedEdges(e);
    KeyPermanentFailedEdges(e);
    KeyDeadEdges(e);
    if s != Healthy { LookupFrom(KEY_HEALTHY, Healthy, s, e); }
    if s != Cooling { LookupFrom(KEY_COOLING, Cooling, s, e); }
    if s != PlatformFailed { LookupFrom(KEY_PLATFORM_FAILED, PlatformFailed, s, e); }
    if s != PermanentFailed { LookupFrom(KEY_PERMANENT_FAILED, PermanentFailed, s, e); }
    if s != Disabled { LookupFrom(KEY_DISABLED, Disabled, s, e); }
    if s != Expired { LookupFrom(KEY_EXPIRED, Expired, s, e); }
  }

  // ---------- The entity ----------

  class Key {
    const cfg: Config
    const id: int
    const hasStore: bool
    const machine: Machine

    constructor (cfg: Config, id: int, hasStore: bool)
      ensures Valid() && View() == FRESH_KEY && fresh(machine)
      ensures this.cfg == cfg && this.id == id && this.hasStore == hasStore
    {
      this.cfg, this.id, this.hasStore := cfg, id, hasStore;
      machine := new Machine(Healthy);
      new;
      Register(KEY_HEALTHY);
      Register(KEY_COOLING);
      Register(KEY_PLATFORM_FAILED);
      Register(KEY_PERMANENT_FAILED);
      Register(KEY_DISABLED);
      Register(KEY_EXPIRED);
      assert machine.table == KEY_TABLE;
    }

    method Register(edges: seq<Edge>)
      modifies machine`table
      ensures machine.table == old(machine.table) + edges
    {
      var i := 0;
      while i < |edges|
        invariant 0 <= i <= |edges|
        invariant machine.table == old(machine.table) + edges[..i]
      {
        assert edges[..i + 1] == edges[..i] + [edges[i]];
        machine.Add(edges[i]);
        i := i + 1;
      }
      assert edges[..i] == edges;
    }

    ghost predicate Valid()
      reads machine
    {
      machine.table == KEY_TABLE && machine.state != State.Invalidated
    }

    ghost function View(): KeyStatus
      reads machine
    {
      KeyStatus(machine.state, machine.wakeAt)
    }

    method SyncRow(row: Row, now: Instant)
      requires Valid()
      modifies machine
      ensures Valid() && View() == NextKey(cfg, old(View()), Sync(row), now)
    {
      if !row.enabled {
        FireFact(Disable);
      } else if row.failureType == 2 {
        FireFact(PermanentFailure);
      } else if row.expiresAt != 0 && now > row.expiresAt {
        FireFact(Expire);
      } else if Dead(machine.state) {
        KeyTableIs(machine.state, Enable);
        var m := machine.Fire(Enable);
      }
    }

    /** A row fact clears the timer of the state that it ends. */
    method FireFact(e: Event)
      requires Valid() && (e == Disable || e == PermanentFailure || e == Expire)
      modifies machine
      ensures Valid()
      ensures
        var m := KeyTarget(old(machine.state), e);
        View() == if m.Move? then KeyStatus(m.to, 0) else old(View())
    {
      KeyTableIs(machine.state, e);
      var m := machine.Fire(e);
      if m.Move? {
        machine.SetTimer(0);
      }
    }

    /** `write` is what the effect stores in the key's row. */
    method OnSuccess() returns (write: Option<int>)
      requires Valid()
      modifies machine
      ensures Valid() && View() == NextKey(cfg, old(View()), KeySucceeded, 0)
      ensures write == Persisted(hasStore, id, WriteOf(old(View()), KeySucceeded))
    {
      KeyTableIs(machine.state, Success);
      write := None;
      var m := machine.Fire(Success);
      if m.Move? {
        machine.SetTimer(0);
        if hasStore && id > 0 {
          write := Some(0);
        }
      }
    }

    method OnSessionFailure(retryAt: Instant, timeout: bool, billing: bool, persist: bool, now: Instant)
      returns (changed: bool, write: Option<int>)
      requires Valid()
      modifies machine
      ensures Valid() && View() == NextKey(cfg, old(View()), KeyFailed(retryAt, timeout, billing, persist), now)
      ensures changed <==> old(machine.state) == Healthy
      ensures write == Persisted(hasStore, id, WriteOf(old(View()), KeyFailed(retryAt, timeout, billing, persist)))
    {
      var before := machine.state;
      KeyTableIs(machine.state, SessionFailure);
      write := None;
      var m := machine.Fire(SessionFailure);
      if m.Move? {
        var until := retryAt;
        if until == 0 || until <= now {
          var cooldown := cfg.defaultCooldown;
          if billing && cfg.billingCooldown > 0 {
            cooldown := cfg.billingCooldown;
          } else if timeout && cfg.timeoutCooldown > 0 {
            cooldown := cfg.timeoutCooldown;
          }
          until := now + cooldown;
        }
        machine.SetTimer(until);
        if persist && hasStore && id > 0 {
          write := Some(1);
        }
      }
      changed := before != machine.state;
    }

    /** The timer is left alone; the row of a stored key is marked as permanently failed. */
    method OnPlatformFailure() returns (changed: bool, write: Option<int>)
      requires Valid()
      modifies machine
      ensures Valid() && View() == NextKey(cfg, old(View()), KeyDown, 0)
      ensures changed <==> old(machine.state) == Healthy || old(machine.state) == Cooling
      ensures write == Persisted(hasStore, id, WriteOf(old(View()), KeyDown))
    {
      var before := machine.state;
      KeyTableIs(machine.state, PlatformFailure);
      write := None;
      var m := machine.Fire(PlatformFailure);
      if m.Move? && hasStore && id > 0 {
        write := Some(2);
      }
      changed := before != machine.state;
    }

    method Advance(now: Instant)
      requires Valid()
      modifies machine
      ensures Valid() && View() == NextKey(cfg, old(View()), KeyTick, now)
    {
      KeyTableIs(machine.state, TimerExpired);
      var m := machine.Advance(now);
    }

    method AlignCooldownTo(at: Instant)
      requires Valid()
      modifies machine
      ensures Valid() && View() == NextKey(cfg, old(View()), AlignKeyTo(at), 0)
    {
      if at == 0 {
        return;
      }
      if machine.state == Cooling {
        machine.SetTimer(at);
      }
    }

    method Pickable(now: Instant) returns (ok: bool, recoverAt: Instant)
      requires Valid() && KeyInv(View())
      modifies machine
      ensures Valid() && ok == KeyReady(old(View()), now)
      ensures recoverAt == if ok then 0 else KeyRecoversAt(old(View()))
      ensures View() == if Timed(old(machine.state)) then NextKey(cfg, old(View()), KeyTick, now) else old(View())
    {
      if machine.state == Healthy {
        return true, 0;
      }
      if !Timed(machine.state) {
        return false, 0;
      }
      if machine.wakeAt > now {
        return false, machine.wakeAt;
      }
      Advance(now);
      return machine.state == Healthy, 0;
    }
  }

  // ---------- Invariants over every run ----------

  /** Only a cooling or platform-failed key has a timer, and a cooling key always has one. */
  ghost predicate KeyInv(s: KeyStatus) {
    && s.state != State.Invalidated
    && (s.wakeAt != 0 ==> Timed(s.state))
    && (s.state == Cooling ==> s.wakeAt != 0)
  }

  datatype KeyStep = KeyStep(call: KeyCall, now: Instant)

  function KeyRuns(cfg: Config, s: KeyStatus, steps: seq<KeyStep>): KeyStatus {
    if steps == [] then s else
    var last := steps[|steps| - 1];
    NextKey(cfg, KeyRuns(cfg, s, steps[..|steps| - 1]), last.call, last.now)
  }

  lemma NextKeepsKeyInv(cfg: Config, s: KeyStatus, c: KeyCall, now: Instant)
    requires Configured(cfg) && KeyInv(s)
    ensures KeyInv(NextKey(cfg, s, c, now))
  {
  }

  lemma {:induction false} KeyInvOverRuns(cfg: Config, steps: seq<KeyStep>)
    requires Configured(cfg)
    ensures KeyInv(KeyRuns(cfg, FRESH_KEY, steps))
  {
    if steps != [] {
      KeyInvOverRuns(cfg, steps[..|steps| - 1]);
    }
  }

  // ---------- Readiness ----------

  ghost predicate KeyReady(s: KeyStatus, now: Instant) {
    s.state == Healthy || (Timed(s.state) && s.wakeAt != 0 && s.wakeAt <= now)
  }

  /** When a key that is not ready comes back by time alone; 0 if it does not. */
  function KeyRecoversAt(s: KeyStatus): Instant {
    if Timed(s.state) then s.wakeAt else 0
  }

  /** After reconciliation a key is live exactly when its row is usable. */
  lemma SyncedIffUsable(cfg: Config, s: KeyStatus, row: Row, now: Instant)
    requires KeyInv(s)
    ensures KeyInv(Synced(s, row, now))
    ensures Live(Synced(s, row, now).state) <==> RowUsable(row, now)
    ensures KeyReady(Synced(s, row, now), now) ==> RowUsable(row, now)
    ensures !RowUsable(row, now) ==> KeyRecoversAt(Synced(s, row, now)) == 0
  {
  }

  /** When a key can serve after a call. A success makes it serve at once unless its row is disabled or expired; a
      failure of a healthy or cooling key holds it back until the announced time or for the cooldown of its kind; a
      key that is put down keeps the timer it had; a usable row revives a dead key and leaves a live one as it is,
      an unusable one shuts the key out. */
  lemma KeyReadyAfter(cfg: Config, s: KeyStatus, c: KeyCall, now: Instant, later: Instant)
    requires Configured(cfg) && KeyInv(s) && later >= now > 0
    ensures
      var next := NextKey(cfg, s, c, now);
      KeyReady(next, later) <==>
        match c
        case KeySucceeded => s.state != State.Disabled && s.state != State.Expired
        case KeyFailed(retryAt, timeout, billing, _) =>
          if s.state == Healthy || s.state == Cooling then later >= (
            if retryAt > now then retryAt
            else if billing && cfg.billingCooldown > 0 then now + cfg.billingCooldown
            else if timeout && cfg.timeoutCooldown > 0 then now + cfg.timeoutCooldown
            else now + cfg.defaultCooldown)
          else KeyReady(s, later)
        case KeyDown => s.state != Healthy && KeyReady(s, later)
        case Sync(row) =>
          && row.enabled && row.failureType != 2 && (row.expiresAt == 0 || now <= row.expiresAt)
          && (!Live(s.state) || KeyReady(s, later))
        case KeyTick => KeyReady(s, later)
        case AlignKeyTo(at) => if s.state == Cooling && at != 0 then later >= at else KeyReady(s, later)
  {
  }

  // ---------- Keys that are put down ----------

  /** A key together with its stored row. */
  datatype Held = Held(status: KeyStatus, row: Row)

  /** A call on the key, or a request that loads its row and visits it. */
  datatype Happening = Called(call: KeyCall, now: Instant) | Loaded(now: Instant)

  function RowWritten(r: Row, write: Option<int>): Row {
    if write.Some? then r.(failureType := write.value) else r
  }

  function Happens(cfg: Config, hasStore: bool, h: Held, e: Happening): Held {
    match e
    case Called(c, now) =>
      Held(NextKey(cfg, h.status, c, now), RowWritten(h.row, Persisted(hasStore, h.row.id, WriteOf(h.status, c))))
    case Loaded(now) => Held(Visited(cfg, h.status, h.row, now), h.row)
  }

  function After(cfg: Config, hasStore: bool, h: Held, es: seq<Happening>): Held {
    if es == [] then h else
    Happens(cfg, hasStore, After(cfg, hasStore, h, es[..|es| - 1]), es[|es| - 1])
  }

  /** A request that loads the row now finds the key usable. */
  ghost predicate ReadyOn(h: Held, now: Instant) {
    KeyReady(Synced(h.status, h.row, now), now)
  }

  /** The clock does not run back and has reached `now` at the end. */
  ghost predicate InOrder(es: seq<Happening>, now: Instant) {
    forall i :: 0 <= i < |es| ==> es[i].now <= now && forall j :: i < j < |es| ==> es[i].now <= es[j].now
  }

  /** Nothing but recovery ticks and visits. */
  predicate OnlyTime(es: seq<Happening>) {
    forall i :: 0 <= i < |es| ==> es[i].Loaded? || es[i].call.KeyTick?
  }

  /** No success, and no visit with a row loaded earlier. */
  predicate NoRepair(es: seq<Happening>) {
    forall i :: 0 <= i < |es| ==> es[i].Loaded? || !(es[i].call.KeySucceeded? || es[i].call.Sync?)
  }

  /** Whether such a run can make the key usable. */
  ghost predicate PinnedOverTime(cfg: Config, hasStore: bool, h: Held) {
    forall es, now :: OnlyTime(es) && InOrder(es, now) ==> !ReadyOn(After(cfg, hasStore, h, es), now)
  }

  ghost predicate PinnedThroughFailures(cfg: Config, hasStore: bool, h: Held) {
    forall es, now :: NoRepair(es) && InOrder(es, now) ==> !ReadyOn(After(cfg, hasStore, h, es), now)
  }

  function PutDown(cfg: Config, hasStore: bool, h: Held): Held {
    Happens(cfg, hasStore, h, Called(KeyDown, 0))
  }

  /** The key has no timer, or its row, whatever the failure type, forbids it when the timer runs out. */
  predicate NeverUsableAgain(h: Held) {
    h.status.wakeAt == 0 || !RowUsable(h.row.(failureType := 0), h.status.wakeAt)
  }

  lemma OrderPrefix(es: seq<Happening>, now: Instant)
    requires InOrder(es, now) && es != []
    ensures InOrder(es[..|es| - 1], es[|es| - 1].now) && es[|es| - 1].now <= now
  {
    var init := es[..|es| - 1];
    forall i | 0 <= i < |init| ensures init[i].now <= es[|es| - 1].now {
      assert init[i] == es[i];
    }
  }

  /** A stored key that is put down has a row that keeps it out as long as only time passes. */
  lemma {:induction false} StoredKeepsOut(cfg: Config, hasStore: bool, h: Held, es: seq<Happening>)
    requires KeyInv(h.status) && h.row.failureType == 2 && OnlyTime(es)
    ensures
      var k := After(cfg, hasStore, h, es);
      k.row == h.row && KeyInv(k.status)
  {
    if es != [] {
      assert OnlyTime(es[..|es| - 1]) && (es[|es| - 1].Loaded? || es[|es| - 1].call.KeyTick?);
      StoredKeepsOut(cfg, hasStore, h, es[..|es| - 1]);
    }
  }

  /** What holds of a key without a stored row that was put down and has no way back. */
  ghost predicate StuckAt(down: Held, h: Held, now: Instant) {
    && h.row == down.row && KeyInv(h.status)
    && (h.status == down.status || !RowUsable(h.row, now))
  }

  lemma {:induction false} StuckOverTime(cfg: Config, hasStore: bool, down: Held, es: seq<Happening>, now: Instant)
    requires KeyInv(down.status) && down.status.state == State.PlatformFailed
    requires down.status.wakeAt == 0 || !RowUsable(down.row, down.status.wakeAt)
    requires OnlyTime(es) && InOrder(es, now)
    ensures StuckAt(down, After(cfg, hasStore, down, es), now)
  {
    if es != [] {
      var init, last := es[..|es| - 1], es[|es| - 1];
      OrderPrefix(es, now);
      assert OnlyTime(init) && (last.Loaded? || last.call.KeyTick?);
      StuckOverTime(cfg, hasStore, down, init, last.now);
    }
  }

  /** Putting a key down keeps it out, however much time passes, exactly when its row is stored or it has
      no timer that can run out while its row still allows it. The failure type in the row then keeps it
      out; a key without a stored row keeps the timer that it had while cooling and comes back with it. */
  lemma PinnedIff(cfg: Config, hasStore: bool, h: Held)
    requires KeyInv(h.status) && Live(h.status.state) && h.row.failureType != 2
    ensures PinnedOverTime(cfg, hasStore, PutDown(cfg, hasStore, h)) <==>
      (hasStore && h.row.id > 0) || NeverUsableAgain(h)
  {
    var down := PutDown(cfg, hasStore, h);
    if (hasStore && h.row.id > 0) || NeverUsableAgain(h) {
      forall es, now | OnlyTime(es) && InOrder(es, now) ensures !ReadyOn(After(cfg, hasStore, down, es), now) {
        var k := After(cfg, hasStore, down, es);
        if hasStore && h.row.id > 0 {
          StoredKeepsOut(cfg, hasStore, down, es);
        } else {
          StuckOverTime(cfg, hasStore, down, es, now);
        }
        SyncedIffUsable(cfg, k.status, k.row, now);
      }
    } else {
      assert After(cfg, hasStore, down, []) == down;
      assert OnlyTime([]) && InOrder([], h.status.wakeAt);
      assert ReadyOn(down, h.status.wakeAt);
    }
  }

  /** What holds of a stored key that was put down, until its old timer has run out. */
  ghost predicate OutUntil(down: Held, h: Held, now: Instant) {
    && h.row.enabled == down.row.enabled && h.row.expiresAt == down.row.expiresAt && h.row.id == down.row.id
    && KeyInv(h.status)
    && (|| (h.row.failureType == 2 && (h.status == down.status || Dead(h.status.state)))
        || (down.status.wakeAt != 0 && now >= down.status.wakeAt))
  }

  lemma {:induction false} OutThroughFailures(cfg: Config, hasStore: bool, down: Held, es: seq<Happening>, now: Instant)
    requires Configured(cfg) && KeyInv(down.status) && down.status.state == State.PlatformFailed
    requires down.row.failureType == 2 && NoRepair(es) && InOrder(es, now)
    ensures OutUntil(down, After(cfg, hasStore, down, es), now)
  {
    if es != [] {
      var init, last := es[..|es| - 1], es[|es| - 1];
      OrderPrefix(es, now);
      assert NoRepair(init) && (last.Loaded? || !(last.call.KeySucceeded? || last.call.Sync?));
      OutThroughFailures(cfg, hasStore, down, init, last.now);
    }
  }

  /** With failures of requests that are still in flight a stored key that is put down stays out exactly
      when it was not cooling: otherwise a tick can make it healthy before its row is loaded again, and a
      late temporary failure then overwrites the permanent one in the row. */
  lemma PinnedThroughFailuresIff(cfg: Config, h: Held)
    requires Configured(cfg) && KeyInv(h.status) && Live(h.status.state) && h.row.id > 0
    ensures PinnedThroughFailures(cfg, true, PutDown(cfg, true, h)) <==> NeverUsableAgain(h)
  {
    var down := PutDown(cfg, true, h);
    if NeverUsableAgain(h) {
      forall es, now | NoRepair(es) && InOrder(es, now) ensures !ReadyOn(After(cfg, true, down, es), now) {
        var k := After(cfg, true, down, es);
        OutThroughFailures(cfg, true, down, es, now);
        SyncedIffUsable(cfg, k.status, k.row, now);
      }
    } else {
      LateFailure(cfg, h);
    }
  }

  /** The run that brings such a key back. */
  lemma LateFailure(cfg: Config, h: Held)
    requires KeyInv(h.status) && Live(h.status.state) && h.row.id > 0 && !NeverUsableAgain(h)
    ensures !PinnedThroughFailures(cfg, true, PutDown(cfg, true, h))
  {
    var down, at := PutDown(cfg, true, h), h.status.wakeAt;
    var tick, failed := Called(KeyTick, at), Called(KeyFailed(0, false, false, true), at);
    var align := Called(AlignKeyTo(at), at);
    var h1 := Happens(cfg, true, down, tick);
    var h2 := Happens(cfg, true, h1, failed);
    var h3 := Happens(cfg, true, h2, align);
    assert [tick, failed, align][..2] == [tick, failed] && [tick, failed][..1] == [tick] && [tick][..0] == [];
    assert After(cfg, true, down, [tick]) == h1;
    assert After(cfg, true, down, [tick, failed]) == h2;
    assert After(cfg, true, down, [tick, failed, align]) == h3;
    assert NoRepair([tick, failed, align]) && InOrder([tick, failed, align], at);
    assert ReadyOn(h3, at);
  }
}
