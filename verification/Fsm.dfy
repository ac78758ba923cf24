/** Table-driven state machines with one timer. A time is a count of nanoseconds; 0 is the zero
    time, which stands for no timer and which every clock reading is after. */
module Fsm {
  import opened Folds

  type Instant = nat

  /** The earlier of two times, where 0 stands for none. */
  function MinNonZero(a: Instant, b: Instant): Instant {
    if a == 0 then b else if b == 0 || a < b then a else b
  }

  datatype State = Healthy | Cooling | PlatformFailed | Invalidated | PermanentFailed | Disabled | Expired

  datatype Event =
    | Success | SessionFailure | PlatformFailure | AllKeysSoft | AllKeysHard | Invalidate | Revalidate
    | Disable | Expire | PermanentFailure | Enable | TimerExpired

  datatype Effect =
    | OnSuccess | OnSessionFailure | OnPlatformFailure | OnAllKeysSoft | OnAllKeysHard | OnInvalidate | OnRevalidate
    | OnRowFact | OnEnable | OnTimerExpired

  datatype Edge = Edge(from: State, event: Event, to: State, effect: Effect)

  datatype Move = Stay | Move(to: State, effect: Effect)

  /** The first edge of the table that leaves a state on an event. */
  function Lookup(table: seq<Edge>, s: State, e: Event): Move {
    if table == [] then Stay else
    var m := Lookup(table[..|table| - 1], s, e);
    var last := table[|table| - 1];
    if m.Move? then m else if last.from == s && last.event == e then Move(last.to, last.effect) else Stay
  }

  lemma {:induction false} LookupIs(table: seq<Edge>, s: State, e: Event)
    ensures
      match Lookup(table, s, e)
      case Move(to, f) => Edge(s, e, to, f) in table
      case Stay => forall to, f :: Edge(s, e, to, f) !in table
  {
    if table != [] {
      LookupIs(table[..|table| - 1], s, e);
      Snoc(table);
    }
  }

  class Machine {
    var state: State
    var wakeAt: Instant
    var table: seq<Edge>

    constructor (initial: State)
      ensures state == initial && wakeAt == 0 && table == []
    {
      state, wakeAt, table := initial, 0, [];
    }

    method Add(e: Edge)
      modifies this`table
      ensures table == old(table) + [e]
    {
      table := table + [e];
    }

    method SetTimer(at: Instant)
      modifies this`wakeAt
      ensures wakeAt == at
    {
      wakeAt := at;
    }

    method Match(event: Event) returns (m: Move)
      ensures m == Lookup(table, state, event)
    {
      m := Stay;
      var i := 0;
      while i < |table|
        invariant 0 <= i <= |table|
        invariant m == Stay == Lookup(table[..i], state, event)
      {
        assert table[..i + 1][..i] == table[..i];
        if table[i].from == state && table[i].event == event {
          LookupExtends(table, i + 1, state, event);
          return Move(table[i].to, table[i].effect);
        }
        i := i + 1;
      }
      assert table[..i] == table;
    }

    /** The effect of the move is left to the caller, who runs it in the new state. */
    method Fire(event: Event) returns (m: Move)
      modifies this`state
      ensures m == Lookup(table, old(state), event)
      ensures state == if m.Move? then m.to else old(state)
    {
      m := Match(event);
      if m.Move? {
        state := m.to;
      }
    }

    /** The timer is consumed once it is due, whether or not an edge is taken. */
    method Advance(now: Instant) returns (m: Move)
      modifies this`state, this`wakeAt
      ensures
        var due := old(wakeAt) != 0 && now >= old(wakeAt);
        && m == (if due then Lookup(table, old(state), TimerExpired) else Stay)
        && state == (if m.Move? then m.to else old(state))
        && wakeAt == if due then 0 else old(wakeAt)
    {
      if wakeAt == 0 || now < wakeAt {
        return Stay;
      }
      wakeAt := 0;
      m := Match(TimerExpired);
      if m.Move? {
        state := m.to;
      }
    }
  }

  lemma {:induction false} LookupExtends(table: seq<Edge>, i: nat, s: State, e: Event)
    requires i <= |table| && Lookup(table[..i], s, e).Move?
    ensures Lookup(table, s, e) == Lookup(table[..i], s, e)
    decreases |table| - i
  {
    if i == |table| {
      assert table[..i] == table;
    } else {
      assert table[..i + 1][..i] == table[..i];
      LookupExtends(table, i + 1, s, e);
    }
  }

  lemma {:induction false} LookupAppend(a: seq<Edge>, b: seq<Edge>, s: State, e: Event)
    ensures Lookup(a + b, s, e) == if Lookup(a, s, e).Move? then Lookup(a, s, e) else Lookup(b, s, e)
  {
    if b == [] {
      assert a + b == a;
    } else {
      assert (a + b)[..|a + b| - 1] == a + b[..|b| - 1];
      LookupAppend(a, b[..|b| - 1], s, e);
    }
  }

  /** All edges of a table leave one state. */
  ghost predicate AllFrom(table: seq<Edge>, s: State) {
    forall i :: 0 <= i < |table| ==> table[i].from == s
  }

  lemma {:induction false} LookupFrom(table: seq<Edge>, from: State, s: State, e: Event)
    requires AllFrom(table, from) && s != from
    ensures Lookup(table, s, e) == Stay
  {
    if table != [] {
      LookupFrom(table[..|table| - 1], from, s, e);
    }
  }
}
