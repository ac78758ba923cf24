/** The state machine of one upstream endpoint. */
module Endpoint {
  import opened Folds
  import opened Fsm

  datatype Config = Config(
    defaultCooldown: nat, timeoutCooldown: nat, maxCooldown: nat, billingCooldown: nat, exponentialBackoff: bool)

  /** The scheduler replaces missing base cooldowns by its defaults. */
  ghost predicate Configured(cfg: Config) {
    cfg.defaultCooldown > 0 && cfg.maxCooldown > 0
  }

  datatype Status = Status(state: State, wakeAt: Instant, failures: nat)

  const FRESH := Status(Healthy, 0, 0)

  datatype Call =
    | Succeeded
    | Failed(retryAt: Instant, timeout: bool)
    | PlatformDown
    | KeysGone(hard: bool)
    | Withdrawn
    | Restored
    | Tick
    | AlignTo(at: Instant)

  // ---------- Cooldowns ----------

  function Doubled(base: nat, times: nat): nat {
    if times == 0 then base else 2 * Doubled(base, times - 1)
  }

  function Min(a: nat, b: nat): nat { if a < b then a else b }

  /** Doubles with every failure after the first, six times at most, up to the maximum. */
  function Backoff(cfg: Config, failures: nat): nat {
    Min(if cfg.exponentialBackoff && failures > 1 then Doubled(cfg.defaultCooldown, Min(failures - 1, 6))
        else cfg.defaultCooldown, cfg.maxCooldown)
  }

  function Until(cfg: Config, failures: nat, retryAt: Instant, timeout: bool, now: Instant): Instant {
    if retryAt > now then retryAt
    else now + if timeout && cfg.timeoutCooldown > 0 then cfg.timeoutCooldown else Backoff(cfg, failures)
  }

  // ---------- What a call does ----------

  function Cooled(cfg: Config, s: Status, retryAt: Instant, timeout: bool, now: Instant): Status {
    var failures := if timeout then s.failures else s.failures + 1;
    Status(Cooling, Until(cfg, failures, retryAt, timeout, now), failures)
  }

  function Timed(s: State): bool { s == Cooling || s == State.PlatformFailed }

  function Next(cfg: Config, s: Status, c: Call, now: Instant): Status {
    if s.state == State.Invalidated && (c.Succeeded? || c.Failed? || c.PlatformDown? || c.KeysGone? || c.Withdrawn?)
    then s else
    match c
    case Succeeded => FRESH
    case Failed(retryAt, timeout) => Cooled(cfg, s, retryAt, timeout, now)
    case PlatformDown =>
      if s.state == State.PlatformFailed then s else s.(state := State.PlatformFailed, wakeAt := now + cfg.maxCooldown)
    case KeysGone(hard) =>
      if hard then s.(state := State.Invalidated)
      else if s.state == State.PlatformFailed then s
      else Cooled(cfg, s, 0, false, now)
    case Withdrawn => s.(state := State.Invalidated, wakeAt := 0)
    case Restored => if s.state == State.Invalidated then s.(state := Healthy, wakeAt := 0) else s
    case Tick =>
      if s.wakeAt == 0 || now < s.wakeAt then s
      else s.(wakeAt := 0, state := if Timed(s.state) then Healthy else s.state)
    case AlignTo(at) => if s.state == Cooling && at != 0 then s.(wakeAt := at) else s
  }

  // ---------- The table ----------

  const FROM_HEALTHY: seq<Edge> := [
    Edge(Healthy, SessionFailure, Cooling, OnSessionFailure),
    Edge(Healthy, PlatformFailure, PlatformFailed, OnPlatformFailure),
    Edge(Healthy, Invalidate, State.Invalidated, OnInvalidate),
    Edge(Healthy, AllKeysSoft, Cooling, OnAllKeysSoft),
    Edge(Healthy, AllKeysHard, State.Invalidated, OnAllKeysHard),
    Edge(Healthy, Success, Healthy, OnSuccess)]

  const FROM_COOLING: seq<Edge> := [
    Edge(Cooling, SessionFailure, Cooling, OnSessionFailure),
    Edge(Cooling, PlatformFailure, PlatformFailed, OnPlatformFailure),
    Edge(Cooling, Invalidate, State.Invalidated, OnInvalidate),
    Edge(Cooling, AllKeysSoft, Cooling, OnAllKeysSoft),
    Edge(Cooling, AllKeysHard, State.Invalidated, OnAllKeysHard),
    Edge(Cooling, Success, Healthy, OnSuccess),
    Edge(Cooling, TimerExpired, Healthy, OnTimerExpired)]

  const FROM_PLATFORM_FAILED: seq<Edge> := [
    Edge(PlatformFailed, SessionFailure, Cooling, OnSessionFailure),
    Edge(PlatformFailed, Invalidate, State.Invalidated, OnInvalidate),
    Edge(PlatformFailed, AllKeysHard, State.Invalidated, OnAllKeysHard),
    Edge(PlatformFailed, Success, Healthy, OnSuccess),
    Edge(PlatformFailed, TimerExpired, Healthy, OnTimerExpired)]

  const FROM_INVALIDATED: seq<Edge> := [
    Edge(State.Invalidated, Revalidate, Healthy, OnRevalidate)]

  const TABLE: seq<Edge> := FROM_HEALTHY + FROM_COOLING + FROM_PLATFORM_FAILED + FROM_INVALIDATED

  function TargetOfLive(e: Event): Move {
    match e
    case SessionFailure => Move(Cooling, OnSessionFailure)
    case PlatformFailure => Move(PlatformFailed, OnPlatformFailure)
    case Invalidate => Move(State.Invalidated, OnInvalidate)
    case AllKeysSoft => Move(Cooling, OnAllKeysSoft)
    case AllKeysHard => Move(State.Invalidated, OnAllKeysHard)
    case Success => Move(Healthy, OnSuccess)
    case TimerExpired => Move(Healthy, OnTimerExpired)
    case _ => Stay
  }

  /** Where an event leads. */
  function Target(s: State, e: Event): Move {
    match s
    case Healthy => if e == TimerExpired then Stay else TargetOfLive(e)
    case Cooling => TargetOfLive(e)
    case PlatformFailed => if e == PlatformFailure || e == AllKeysSoft then Stay else TargetOfLive(e)
    case Invalidated => if e == Revalidate then Move(Healthy, OnRevalidate) else Stay
    case _ => Stay
  }

  lemma HealthyEdges(e: Event)
    ensures AllFrom(FROM_HEALTHY, Healthy) && Lookup(FROM_HEALTHY, Healthy, e) == Target(Healthy, e)
  {
    LookupIs(FROM_HEALTHY, Healthy, e);
  }

  lemma CoolingEdges(e: Event)
    ensures AllFrom(FROM_COOLING, Cooling) && Lookup(FROM_COOLING, Cooling, e) == Target(Cooling, e)
  {
    LookupIs(FROM_COOLING, Cooling, e);
  }

  lemma PlatformFailedEdges(e: Event)
    ensures AllFrom(FROM_PLATFORM_FAILED, PlatformFailed)
    ensures Lookup(FROM_PLATFORM_FAILED, PlatformFailed, e) == Target(PlatformFailed, e)
  {
    LookupIs(FROM_PLATFORM_FAILED, PlatformFailed, e);
  }

  lemma InvalidatedEdges(e: Event)
    ensures AllFrom(FROM_INVALIDATED, State.Invalidated)
    ensures Lookup(FROM_INVALIDATED, State.Invalidated, e) == Target(State.Invalidated, e)
  {
    LookupIs(FROM_INVALIDATED, State.Invalidated, e);
  }

  /** The registered table is the transition function. */
  lemma TableIs(s: State, e: Event)
    ensures Lookup(TABLE, s, e) == Target(s, e)
  {
    LookupAppend(FROM_HEALTHY + FROM_COOLING + FROM_PLATFORM_FAILED, FROM_INVALIDATED, s, e);
    LookupAppend(FROM_HEALTHY + FROM_COOLING, FROM_PLATFORM_FAILED, s, e);
    LookupAppend(FROM_HEALTHY, FROM_COOLING, s, e);
    HealthyEdges(e);
    CoolingEdges(e);
    PlatformFailedEdges(e);
    InvalidatedEdges(e);
    if s != Healthy { LookupFrom(FROM_HEALTHY, Healthy, s, e); }
    if s != Cooling { LookupFrom(FROM_COOLING, Cooling, s, e); }
    if s != PlatformFailed { LookupFrom(FROM_PLATFORM_FAILED, PlatformFailed, s, e); }
    if s != State.Invalidated { LookupFrom(FROM_INVALIDATED, State.Invalidated, s, e); }
  }

  // ---------- The entity ----------

  class RAPI {
    const cfg: Config
    const machine: Machine
    var failures: nat

    constructor (cfg: Config)
      ensures Valid() && View() == FRESH && this.cfg == cfg && fresh(machine)
    {
      this.cfg := cfg;
      machine := new Machine(Healthy);
      failures := 0;
      new;
      Register(FROM_HEALTHY);
      Register(FROM_COOLING);
      Register(FROM_PLATFORM_FAILED);
      Register(FROM_INVALIDATED);
      assert machine.table == TABLE;
    }

    method Register(edges: seq<Edge>)
      modifies machine`table
      ensures machine.table == old(machine.table) + edges
    {
      var i := 0;
      while i < |edges|
        invariant 0 <= i <= |edges|
        invariant machine.table == old(machine.table) + edges[..i]
      {
        assert edges[..i + 1] == edges[..i] + [edges[i]];
        machine.Add(edges[i]);
        i := i + 1;
      }
      assert edges[..i] == edges;
    }

    ghost predicate Valid()
      reads machine
    {
      machine.table == TABLE && Known(machine.state)
    }

    ghost function View(): Status
      reads this, machine
    {
      Status(machine.state, machine.wakeAt, failures)
    }

    /** The effect of a session failure, under the state that the move has entered. */
    method CoolDown(retryAt: Instant, timeout: bool, now: Instant)
      requires Valid()
      modifies this`failures, machine`wakeAt
      ensures Valid() && machine.state == old(machine.state)
      ensures View() == Cooled(cfg, old(View()), retryAt, timeout, now).(state := machine.state)
    {
      if !timeout {
        failures := failures + 1;
      }
      var until := retryAt;
      if until == 0 || until <= now {
        var cooldown := cfg.defaultCooldown;
        if timeout && cfg.timeoutCooldown > 0 {
          cooldown := cfg.timeoutCooldown;
        } else {
          if cfg.exponentialBackoff && failures > 1 {
            cooldown := Doubled(cooldown, Min(failures - 1, 6));
          }
          if cooldown > cfg.maxCooldown {
            cooldown := cfg.maxCooldown;
          }
        }
        until := now + cooldown;
      }
      machine.SetTimer(until);
    }

    method OnSuccess()
      requires Valid()
      modifies this, machine
      ensures Valid() && View() == Next(cfg, old(View()), Succeeded, 0)
    {
      TableIs(machine.state, Success);
      var m := machine.Fire(Success);
      if m.Move? {
        failures := 0;
        machine.SetTimer(0);
      }
    }

    method OnSessionFailure(retryAt: Instant, timeout: bool, now: Instant)
      requires Valid()
      modifies this, machine
      ensures Valid() && View() == Next(cfg, old(View()), Failed(retryAt, timeout), now)
    {
      TableIs(machine.state, SessionFailure);
      var m := machine.Fire(SessionFailure);
      if m.Move? {
        CoolDown(retryAt, timeout, now);
      }
    }

    method OnPlatformFailure(now: Instant)
      requires Valid()
      modifies this, machine
      ensures Valid() && View() == Next(cfg, old(View()), PlatformDown, now)
    {
      TableIs(machine.state, PlatformFailure);
      var m := machine.Fire(PlatformFailure);
      if m.Move? {
        machine.SetTimer(now + cfg.maxCooldown);
      }
    }

    /** The caller never passes a recovery time of the pool, so a soft pool takes the session cooldown. */
    method OnAllKeysUnavailable(hard: bool, now: Instant) returns (first: bool)
      requires Valid()
      modifies this, machine
      ensures Valid() && View() == Next(cfg, old(View()), KeysGone(hard), now)
      ensures first <==> old(machine.state) != State.Invalidated && machine.state == State.Invalidated
    {
      var event := if hard then AllKeysHard else AllKeysSoft;
      TableIs(machine.state, event);
      var m := machine.Fire(event);
      if m.Move? && m.effect == OnAllKeysSoft {
        CoolDown(0, false, now);
      }
      first := m.Move? && m.to == State.Invalidated;
    }

    method Invalidate()
      requires Valid()
      modifies this, machine
      ensures Valid() && View() == Next(cfg, old(View()), Withdrawn, 0)
    {
      TableIs(machine.state, Event.Invalidate);
      var m := machine.Fire(Event.Invalidate);
      if m.Move? {
        machine.SetTimer(0);
      }
    }

    method Revalidate()
      requires Valid()
      modifies this, machine
      ensures Valid() && View() == Next(cfg, old(View()), Restored, 0)
    {
      TableIs(machine.state, Event.Revalidate);
      var m := machine.Fire(Event.Revalidate);
      if m.Move? {
        machine.SetTimer(0);
      }
    }

    method Advance(now: Instant)
      requires Valid()
      modifies this, machine
      ensures Valid() && View() == Next(cfg, old(View()), Tick, now)
    {
      TableIs(machine.state, TimerExpired);
      var m := machine.Advance(now);
    }

    method AlignCooldownTo(at: Instant)
      requires Valid()
      modifies this, machine
      ensures Valid() && View() == Next(cfg, old(View()), AlignTo(at), 0)
    {
      if at == 0 {
        return;
      }
      if machine.state == Cooling {
        machine.SetTimer(at);
      }
    }

    /** Expired cooldowns are advanced on the way. */
    method Pickable(now: Instant) returns (ok: bool, recoverAt: Instant)
      requires Valid() && Inv(View())
      modifies this, machine
      ensures Valid() && ok == Ready(old(View()), now)
      ensures recoverAt == if ok then 0 else RecoversAt(old(View()))
      ensures View() == if Timed(old(machine.state)) then Next(cfg, old(View()), Tick, now) else old(View())
    {
      match machine.state {
        case Healthy => return true, 0;
        case Invalidated => return false, 0;
        case _ =>
          if machine.wakeAt > now {
            return false, machine.wakeAt;
          }
          Advance(now);
          return machine.state == Healthy, 0;
      }
    }
  }

  /** The states an endpoint is ever in. */
  ghost predicate Known(s: State) {
    s == Healthy || s == Cooling || s == State.PlatformFailed || s == State.Invalidated
  }

  // ---------- Invariants over every run ----------

  /** A healthy endpoint has no timer, a cooling or platform-failed one always has one. */
  ghost predicate Inv(s: Status) {
    && Known(s.state)
    && (s.state == Healthy ==> s.wakeAt == 0)
    && (Timed(s.state) ==> s.wakeAt > 0)
  }

  /** A call with the clock reading at which it happens. */
  datatype Step = Step(call: Call, now: Instant)

  function Runs(cfg: Config, s: Status, steps: seq<Step>): Status {
    if steps == [] then s else
    var last := steps[|steps| - 1];
    Next(cfg, Runs(cfg, s, steps[..|steps| - 1]), last.call, last.now)
  }

  lemma NextKeepsInv(cfg: Config, s: Status, c: Call, now: Instant)
    requires Inv(s) && Configured(cfg)
    ensures Inv(Next(cfg, s, c, now))
    ensures s.state == State.Invalidated && c != Restored ==> Next(cfg, s, c, now).state == State.Invalidated
  {
    BackoffPositive(cfg, s.failures + 1);
    BackoffPositive(cfg, s.failures);
  }

  lemma {:induction false} DoubledPositive(base: nat, times: nat)
    requires base > 0
    ensures Doubled(base, times) > 0
  {
    if times > 0 {
      DoubledPositive(base, times - 1);
    }
  }

  /** The cooldown of the first failure is the default, of the next ones twice, four times, ... up to 64 times
      that, and never more than the maximum; without doubling it is always the default. */
  lemma BackoffIs(cfg: Config, failures: nat)
    ensures
      var factor := if !cfg.exponentialBackoff || failures <= 1 then 1 else if failures == 2 then 2
        else if failures == 3 then 4 else if failures == 4 then 8 else if failures == 5 then 16
        else if failures == 6 then 32 else 64;
      Backoff(cfg, failures) ==
        if factor * cfg.defaultCooldown < cfg.maxCooldown then factor * cfg.defaultCooldown else cfg.maxCooldown
  {
    var base := cfg.defaultCooldown;
    assert Doubled(base, 0) == base && Doubled(base, 1) == 2 * base && Doubled(base, 2) == 4 * base;
    assert Doubled(base, 3) == 8 * base && Doubled(base, 4) == 16 * base;
    assert Doubled(base, 5) == 32 * base && Doubled(base, 6) == 64 * base;
  }

  lemma BackoffPositive(cfg: Config, failures: nat)
    requires Configured(cfg)
    ensures 0 < Backoff(cfg, failures) <= cfg.maxCooldown
  {
    if failures > 1 {
      DoubledPositive(cfg.defaultCooldown, Min(failures - 1, 6));
    }
  }

  lemma {:induction false} DoubledMonotone(base: nat, m: nat, n: nat)
    requires m <= n
    ensures Doubled(base, m) <= Doubled(base, n)
    decreases n
  {
    if m < n {
      DoubledMonotone(base, m, n - 1);
    }
  }

  /** More failures never shorten the cooldown. */
  lemma BackoffMonotone(cfg: Config, m: nat, n: nat)
    requires m <= n
    ensures Backoff(cfg, m) <= Backoff(cfg, n)
  {
    if m > 1 {
      DoubledMonotone(cfg.defaultCooldown, Min(m - 1, 6), Min(n - 1, 6));
    } else if n > 1 {
      DoubledMonotone(cfg.defaultCooldown, 0, Min(n - 1, 6));
    }
  }

  /** Invalidated after the first `k` calls, and never restored by the others. */
  ghost predicate StaysInvalidated(cfg: Config, steps: seq<Step>, k: nat)
    requires k <= |steps|
  {
    && Runs(cfg, FRESH, steps[..k]).state == State.Invalidated
    && forall j :: k <= j < |steps| ==> steps[j].call != Restored
  }

  /** Over every run from a fresh endpoint the invariant holds, and once invalidated the endpoint
      stays so until it is restored. */
  lemma {:induction false} InvOverRuns(cfg: Config, steps: seq<Step>)
    requires Configured(cfg)
    ensures Inv(Runs(cfg, FRESH, steps))
    ensures (exists k: nat :: k <= |steps| && StaysInvalidated(cfg, steps, k)) ==>
      Runs(cfg, FRESH, steps).state == State.Invalidated
  {
    if steps != [] {
      var n := |steps| - 1;
      var init := steps[..n];
      InvOverRuns(cfg, init);
      NextKeepsInv(cfg, Runs(cfg, FRESH, init), steps[n].call, steps[n].now);
      forall k: nat | k <= |steps| && StaysInvalidated(cfg, steps, k)
        ensures Runs(cfg, FRESH, steps).state == State.Invalidated
      {
        if k <= n {
          assert init[..k] == steps[..k];
          assert StaysInvalidated(cfg, init, k);
        } else {
          assert steps[..k] == steps;
        }
      }
    }
  }

  // ---------- Readiness in time ----------

  /** The endpoint can serve at a time, if nothing but the clock moves until then. */
  ghost predicate Ready(s: Status, now: Instant) {
    s.state == Healthy || (Timed(s.state) && s.wakeAt <= now)
  }

  /** When it can serve again; 0 if no passage of time helps. */
  function RecoversAt(s: Status): Instant {
    if Timed(s.state) then s.wakeAt else 0
  }

  function Ticked(cfg: Config, s: Status, ticks: seq<Instant>): Status {
    if ticks == [] then s else Next(cfg, Ticked(cfg, s, ticks[..|ticks| - 1]), Tick, ticks[|ticks| - 1])
  }

  /** Recovery ticks up to a time do not change who is ready at that time. */
  lemma {:induction false} TicksKeepReady(cfg: Config, s: Status, ticks: seq<Instant>, now: Instant)
    requires Inv(s) && forall i :: 0 <= i < |ticks| ==> ticks[i] <= now
    ensures Inv(Ticked(cfg, s, ticks)) && (Ready(Ticked(cfg, s, ticks), now) <==> Ready(s, now))
  {
    if ticks != [] {
      TicksKeepReady(cfg, s, ticks[..|ticks| - 1], now);
    }
  }

  /** An endpoint that is not ready becomes ready exactly at its recovery time. */
  lemma ReadyFrom(s: Status, now: Instant, later: Instant)
    requires Inv(s) && !Ready(s, now) && now <= later
    ensures Ready(s, later) <==> RecoversAt(s) != 0 && RecoversAt(s) <= later
    ensures RecoversAt(s) != 0 ==> RecoversAt(s) > now
  {
  }

  /** When an endpoint can serve after a call, and how many failures are counted against it then. A withdrawn one
      serves again only once it is restored; a success makes it serve at once and forgets its failures; a failure
      holds it back until the announced time or for its cooldown; one that is down stays so for the longest
      cooldown, whatever the pool does; other failures of a pool count as one of its own. */
  lemma ReadyAfter(cfg: Config, s: Status, c: Call, now: Instant, later: Instant)
    requires Configured(cfg) && Inv(s) && later >= now
    ensures
      var next := Next(cfg, s, c, now);
      var count := next.failures - s.failures;
      if c.Tick? then next.failures == s.failures && (Ready(next, later) <==> Ready(s, later))
      else if s.state == State.Invalidated then
        next.failures == s.failures && (Ready(next, later) <==> c == Restored)
      else match c
        case Succeeded => next.failures == 0 && Ready(next, later)
        case Failed(retryAt, timeout) =>
          && count == (if timeout then 0 else 1)
          && var until :=
               if retryAt > now then retryAt
               else if timeout && cfg.timeoutCooldown > 0 then now + cfg.timeoutCooldown
               else now + Backoff(cfg, next.failures);
             Ready(next, later) <==> later >= until
        case PlatformDown =>
          && count == 0
          && (Ready(next, later) <==>
                if s.state == State.PlatformFailed then Ready(s, later) else later >= now + cfg.maxCooldown)
        case KeysGone(hard) =>
          && count == (if hard || s.state == State.PlatformFailed then 0 else 1)
          && (Ready(next, later) <==>
                !hard && if s.state == State.PlatformFailed then Ready(s, later)
                         else later >= now + Backoff(cfg, next.failures))
        case Withdrawn => count == 0 && !Ready(next, later)
        case Restored => next == s
        case AlignTo(at) =>
          && count == 0
          && (Ready(next, later) <==> if s.state == Cooling && at != 0 then later >= at else Ready(s, later))
  {
    BackoffPositive(cfg, s.failures + 1);
    BackoffPositive(cfg, s.failures);
  }

  // ---------- A soft pool ----------

  /** What the scheduler and then its caller do when every key of the pool is cooling. */
  function PoolExhausted(cfg: Config, s: Status, poolRecoverAt: Instant, marked: Instant, handled: Instant): Status {
    var aligned := Next(cfg, Next(cfg, s, KeysGone(false), marked), AlignTo(poolRecoverAt), marked);
    Next(cfg, aligned, KeysGone(false), handled)
  }

  /** The recovery time of the pool does not survive the second mark: the endpoint comes back when its
      own doubled backoff ends, whatever the pool. One that is down or withdrawn is left as it is. */
  lemma AlignmentOverwritten(cfg: Config, s: Status, poolRecoverAt: Instant, marked: Instant, handled: Instant)
    requires Known(s.state)
    ensures PoolExhausted(cfg, s, poolRecoverAt, marked, handled) ==
      match s.state
      case PlatformFailed => s
      case Invalidated => s
      case _ => Status(Cooling, handled + Backoff(cfg, s.failures + 2), s.failures + 2)
  {
  }
}
