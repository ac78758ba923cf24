/** Choosing the endpoint that serves a request. */
module Scheduler {
  import opened Folds
  import Bundle
  import opened Fsm
  import opened Endpoint
  import opened Counters

  /** A row of the request's snapshot: `rules` and `formats` are the decoded texts. */
  datatype EndpointRow = EndpointRow(
    id: int, orderIndex: int, enabled: bool, available: bool, rules: seq<Rule>, highCost: int, baseCost: int,
    limits: Bundle.Limits, formats: set<string>)

  predicate Listed(r: EndpointRow) { r.enabled && r.available }

  /** The status of an endpoint; one that was never touched is fresh. */
  function Get(view: map<int, Status>, id: int): Status {
    if id in view then view[id] else FRESH
  }

  ghost predicate AllInv(view: map<int, Status>) {
    forall id :: id in view ==> Inv(view[id])
  }

  ghost predicate Serves(r: EndpointRow, view: map<int, Status>, now: Instant) {
    Listed(r) && Ready(Get(view, r.id), now)
  }

  ghost predicate SomeServes(rows: seq<EndpointRow>, view: map<int, Status>, now: Instant) {
    exists i :: 0 <= i < |rows| && Serves(rows[i], view, now)
  }

  // ---------- Ranks ----------

  datatype Rank = Rank(cost: int, order: int, foreign: int)

  function TallyOf(counters: map<int, Tally>, id: int): Tally {
    if id in counters then counters[id] else EMPTY
  }

  /** Cost, then the configured order, then native support of the preferred format. */
  function RankOf(r: EndpointRow, counters: map<int, Tally>, prefer: string, m: Moment): Rank {
    Rank(
      Cost(r.rules, r.highCost, r.baseCost, Exceeded(TallyOf(counters, r.id), r.limits, m), m.hhmm),
      r.orderIndex,
      if prefer != "" && prefer !in r.formats then 1 else 0)
  }

  predicate RankLess(a: Rank, b: Rank) {
    a.cost < b.cost || (a.cost == b.cost && (a.order < b.order || (a.order == b.order && a.foreign < b.foreign)))
  }

  /** Position `p` comes before position `q` in a stable sort. */
  predicate Sooner(ranks: seq<Rank>, p: nat, q: nat)
    requires p < |ranks| && q < |ranks|
  {
    RankLess(ranks[p], ranks[q]) || (ranks[p] == ranks[q] && p < q)
  }

  ghost predicate SortedPositions(ranks: seq<Rank>, order: seq<nat>) {
    && (forall k :: 0 <= k < |order| ==> order[k] < |ranks|)
    && (forall j, k :: 0 <= j < k < |order| ==> Sooner(ranks, order[j], order[k]))
  }

  /** The stable sort, as the sequence of sorted positions. */
  method SortStable(ranks: seq<Rank>) returns (order: seq<nat>)
    ensures SortedPositions(ranks, order)
    ensures forall p: nat :: p in order <==> p < |ranks|
  {
    order := [];
    var i := 0;
    while i < |ranks|
      invariant 0 <= i <= |ranks|
      invariant SortedPositions(ranks, order)
      invariant forall p: nat :: p in order <==> p < i
    {
      order := InsertPosition(ranks, order, i);
      i := i + 1;
    }
  }

  method InsertPosition(ranks: seq<Rank>, order: seq<nat>, i: nat) returns (r: seq<nat>)
    requires i < |ranks| && SortedPositions(ranks, order)
    requires forall p :: p in order ==> p < i
    ensures SortedPositions(ranks, r)
    ensures forall p: nat :: p in r <==> p in order || p == i
  {
    var k := |order|;
    while k > 0 && RankLess(ranks[i], ranks[order[k - 1]])
      invariant 0 <= k <= |order|
      invariant forall j :: k <= j < |order| ==> Sooner(ranks, i, order[j])
    {
      k := k - 1;
    }
    forall j | 0 <= j < k ensures Sooner(ranks, order[j], i) {
      assert order[k - 1] in order;
      assert order[j] in order;
      assert j < k - 1 ==> Sooner(ranks, order[j], order[k - 1]);
    }
    r := order[..k] + [i] + order[k..];
  }

  // ---------- The scheduler ----------

  datatype Pick = Picked(row: EndpointRow) | NonePicked(wait: Instant)

  /** The row is ready, no ready row has a smaller rank, and of equal ranks it comes first. */
  ghost predicate Best(rows: seq<EndpointRow>, i: nat, ranks: seq<Rank>, view: map<int, Status>, now: Instant)
    requires |ranks| == |rows|
  {
    && i < |rows| && Serves(rows[i], view, now)
    && forall j :: 0 <= j < |rows| && j != i && Serves(rows[j], view, now) ==> Sooner(ranks, i, j)
  }

  ghost predicate Chosen(rows: seq<EndpointRow>, row: EndpointRow, ranks: seq<Rank>, view: map<int, Status>,
      now: Instant)
    requires |ranks| == |rows|
  {
    exists i: nat :: Best(rows, i, ranks, view, now) && rows[i] == row
  }

  /** The earliest recovery among the listed rows; 0 if none recovers. */
  ghost predicate Earliest(wait: Instant, rows: seq<EndpointRow>, view: map<int, Status>) {
    && (forall i :: 0 <= i < |rows| && Listed(rows[i]) ==>
      RecoversAt(Get(view, rows[i].id)) == 0 || 0 < wait <= RecoversAt(Get(view, rows[i].id)))
    && (wait != 0 ==> exists i :: 0 <= i < |rows| && Recovers(rows[i], view, wait))
  }

  /** A pick is right: a best row if some row serves, else the time from which one does. */
  ghost predicate Right(p: Pick, rows: seq<EndpointRow>, ranks: seq<Rank>, view: map<int, Status>, now: Instant)
    requires |ranks| == |rows|
  {
    match p
    case Picked(row) => SomeServes(rows, view, now) && Chosen(rows, row, ranks, view, now)
    case NonePicked(wait) => !SomeServes(rows, view, now) && Earliest(wait, rows, view)
  }

  /** `a` goes before `b`: it costs less, or as much with a smaller order index, or is equal in both and alone
      serves the preferred format. */
  predicate Before(a: EndpointRow, b: EndpointRow, costA: int, costB: int, prefer: string) {
    costA < costB || (costA == costB &&
      (a.orderIndex < b.orderIndex || (a.orderIndex == b.orderIndex &&
        prefer != "" && prefer in a.formats && prefer !in b.formats)))
  }

  function CostOf(r: EndpointRow, counters: map<int, Tally>, m: Moment): int {
    Cost(r.rules, r.highCost, r.baseCost, Exceeded(TallyOf(counters, r.id), r.limits, m), m.hhmm)
  }

  /** The row at `i` is enabled, available and ready, and no other such row goes before it, nor an earlier one that
      is its equal. */
  ghost predicate FirstInLine(rows: seq<EndpointRow>, i: nat, counters: map<int, Tally>, prefer: string, m: Moment,
      view: map<int, Status>, now: Instant)
  {
    && i < |rows| && rows[i].enabled && rows[i].available && Ready(Get(view, rows[i].id), now)
    && forall j :: 0 <= j < |rows| && rows[j].enabled && rows[j].available && Ready(Get(view, rows[j].id), now) ==>
      && !Before(rows[j], rows[i], CostOf(rows[j], counters, m), CostOf(rows[i], counters, m), prefer)
      && (j < i ==> Before(rows[i], rows[j], CostOf(rows[i], counters, m), CostOf(rows[j], counters, m), prefer))
  }

  lemma RightMeans(p: Pick, rows: seq<EndpointRow>, counters: map<int, Tally>, prefer: string, m: Moment,
      view: map<int, Status>, now: Instant)
    requires Right(p, rows, Ranks(rows, counters, prefer, m), view, now)
    ensures p.Picked? ==> exists i: nat :: FirstInLine(rows, i, counters, prefer, m, view, now) && rows[i] == p.row
    ensures p.NonePicked? ==> forall i :: 0 <= i < |rows| && rows[i].enabled && rows[i].available ==>
      !Ready(Get(view, rows[i].id), now)
  {
    var ranks := Ranks(rows, counters, prefer, m);
    if p.Picked? {
      var i: nat :| Best(rows, i, ranks, view, now) && rows[i] == p.row;
      forall j | 0 <= j < |rows| && rows[j].enabled && rows[j].available && Ready(Get(view, rows[j].id), now)
        ensures !Before(rows[j], rows[i], CostOf(rows[j], counters, m), CostOf(rows[i], counters, m), prefer)
        ensures j < i ==> Before(rows[i], rows[j], CostOf(rows[i], counters, m), CostOf(rows[j], counters, m), prefer)
      {
        if j != i {
          assert Serves(rows[j], view, now) && Sooner(ranks, i, j);
        }
      }
      assert FirstInLine(rows, i, counters, prefer, m, view, now);
    } else {
      forall i | 0 <= i < |rows| && rows[i].enabled && rows[i].available ensures !Ready(Get(view, rows[i].id), now) {
        assert !Serves(rows[i], view, now);
      }
    }
  }

  function Ranks(rows: seq<EndpointRow>, counters: map<int, Tally>, prefer: string, m: Moment): (r: seq<Rank>)
    ensures |r| == |rows|
    ensures forall i :: 0 <= i < |r| ==> r[i] == RankOf(rows[i], counters, prefer, m)
  {
    seq(|rows|, i requires 0 <= i < |rows| => RankOf(rows[i], counters, prefer, m))
  }

  class Manager {
    const cfg: Config
    var rapis: map<int, RAPI>
    var counters: map<int, Tally>

    constructor (cfg: Config)
      requires Configured(cfg)
      ensures Valid() && this.cfg == cfg && View() == map[] && counters == map[]
    {
      this.cfg := cfg;
      rapis, counters := map[], map[];
    }

    ghost function Objects(): set<object>
      reads this
    {
      (set id | id in rapis :: rapis[id] as object) + (set id | id in rapis :: rapis[id].machine as object)
    }

    ghost predicate Valid()
      reads this, Objects()
    {
      && Configured(cfg)
      && (forall id :: id in rapis ==> rapis[id].Valid() && Inv(rapis[id].View()) && rapis[id].cfg == cfg)
      && (forall i, j :: i in rapis && j in rapis && i != j ==>
        rapis[i] != rapis[j] && rapis[i].machine != rapis[j].machine)
    }

    ghost function View(): map<int, Status>
      reads this, Objects()
    {
      map id | id in rapis :: rapis[id].View()
    }

    method Entity(id: int) returns (e: RAPI)
      requires Valid()
      modifies this`rapis
      ensures Valid() && id in rapis && e == rapis[id]
      ensures forall i :: i in rapis && i !in old(rapis) ==> fresh(rapis[i]) && fresh(rapis[i].machine)
      ensures forall i :: i in old(rapis) ==> i in rapis && rapis[i] == old(rapis[i])
      ensures forall i :: Get(View(), i) == Get(old(View()), i)
    {
      if id !in rapis {
        e := new RAPI(cfg);
        rapis := rapis[id := e];
      }
      e := rapis[id];
    }

    /** A call on one endpoint leaves every other one as it was. */
    ghost predicate Touched(before: map<int, Status>, id: int, s: Status)
      reads this, Objects()
    {
      Get(View(), id) == s && forall i :: i != id ==> Get(View(), i) == Get(before, i)
    }

    method MarkSuccess(id: int)
      requires Valid()
      modifies this, Objects()
      ensures Valid() && fresh(Objects() - old(Objects()))
      ensures Touched(old(View()), id, Next(cfg, Get(old(View()), id), Succeeded, 0))
    {
      if id in rapis {
        rapis[id].OnSuccess();
        NextKeepsInv(cfg, Get(old(View()), id), Succeeded, 0);
      }
    }

    method MarkFailure(id: int, retryAt: Instant, timeout: bool, now: Instant)
      requires Valid()
      modifies this, Objects()
      ensures Valid() && fresh(Objects() - old(Objects()))
      ensures Touched(old(View()), id, Next(cfg, Get(old(View()), id), Failed(retryAt, timeout), now))
    {
      var e := Entity(id);
      NextKeepsInv(cfg, e.View(), Failed(retryAt, timeout), now);
      label L:
      e.OnSessionFailure(retryAt, timeout, now);
      assert forall i :: i in rapis && i != id ==> unchanged@L(rapis[i], rapis[i].machine);
    }

    method MarkPlatformFailure(id: int, now: Instant)
      requires Valid()
      modifies this, Objects()
      ensures Valid() && fresh(Objects() - old(Objects()))
      ensures Touched(old(View()), id, Next(cfg, Get(old(View()), id), PlatformDown, now))
    {
      var e := Entity(id);
      NextKeepsInv(cfg, e.View(), PlatformDown, now);
      label L:
      e.OnPlatformFailure(now);
      assert e.Valid() && Inv(e.View());
      assert forall i :: i in rapis && i != id ==> unchanged@L(rapis[i], rapis[i].machine);
    }

    method MarkAllKeysUnavailable(id: int, hard: bool, now: Instant) returns (first: bool)
      requires Valid()
      modifies this, Objects()
      ensures Valid() && fresh(Objects() - old(Objects()))
      ensures Touched(old(View()), id, Next(cfg, Get(old(View()), id), KeysGone(hard), now))
      ensures first <==> Get(old(View()), id).state != State.Invalidated && Get(View(), id).state == State.Invalidated
    {
      var e := Entity(id);
      NextKeepsInv(cfg, e.View(), KeysGone(hard), now);
      label L:
      first := e.OnAllKeysUnavailable(hard, now);
      assert forall i :: i in rapis && i != id ==> unchanged@L(rapis[i], rapis[i].machine);
    }

    method InvalidateRAPI(id: int)
      requires Valid()
      modifies this, Objects()
      ensures Valid() && fresh(Objects() - old(Objects()))
      ensures Touched(old(View()), id, Next(cfg, Get(old(View()), id), Withdrawn, 0))
    {
      var e := Entity(id);
      NextKeepsInv(cfg, e.View(), Withdrawn, 0);
      label L:
      e.Invalidate();
      assert forall i :: i in rapis && i != id ==> unchanged@L(rapis[i], rapis[i].machine);
    }

    method RevalidateRAPI(id: int)
      requires Valid()
      modifies this, Objects()
      ensures Valid() && fresh(Objects() - old(Objects()))
      ensures Touched(old(View()), id, Next(cfg, Get(old(View()), id), Restored, 0))
    {
      var e := Entity(id);
      NextKeepsInv(cfg, e.View(), Restored, 0);
      label L:
      e.Revalidate();
      assert forall i :: i in rapis && i != id ==> unchanged@L(rapis[i], rapis[i].machine);
    }

    method RecordRequest(id: int, tokens: int, m: Moment)
      modifies this`counters
      ensures counters == old(counters)[id := Recorded(TallyOf(old(counters), id), m, tokens)]
    {
      var c := TallyOf(counters, id);
      var minute, hour, day := c.minute, c.hour, c.day;
      if minute.start != m.minute {
        minute := Bucket(m.minute, 0, 0);
      }
      minute := minute.(reqs := minute.reqs + 1, toks := minute.toks + tokens);
      if hour.start != m.hour {
        hour := Bucket(m.hour, 0, 0);
      }
      hour := hour.(reqs := hour.reqs + 1, toks := hour.toks + tokens);
      if day.start != m.day {
        day := Bucket(m.day, 0, 0);
      }
      day := day.(reqs := day.reqs + 1, toks := day.toks + tokens);
      counters := counters[id := Tally(minute, hour, day)];
    }

    /** Lazily advances one endpoint. */
    method Probe(id: int, now: Instant) returns (ok: bool, recoverAt: Instant)
      requires Valid()
      modifies this`rapis, Objects()
      ensures Valid() && fresh(Objects() - old(Objects()))
      ensures ok == Ready(Get(old(View()), id), now)
      ensures recoverAt == if ok then 0 else RecoversAt(Get(old(View()), id))
      ensures Get(View(), id) == Get(old(View()), id) || Get(View(), id) == Next(cfg, Get(old(View()), id), Tick, now)
      ensures Touched(old(View()), id, Get(View(), id))
    {
      var e := Entity(id);
      NextKeepsInv(cfg, e.View(), Tick, now);
      ok, recoverAt := e.Pickable(now);
    }

    /** A listed, ready row of least rank, if there is one; else the time from which there is one. */
    method PickAvailable(rows: seq<EndpointRow>, prefer: string, m: Moment) returns (p: Pick)
      requires Valid()
      modifies this`rapis, Objects()
      ensures Valid() && fresh(Objects() - old(Objects()))
      ensures Waited(old(View()), m.now)
      ensures Right(p, rows, Ranks(rows, counters, prefer, m), old(View()), m.now)
      ensures p.Picked? ==>
        exists i: nat :: FirstInLine(rows, i, counters, prefer, m, old(View()), m.now) && rows[i] == p.row
      ensures p.NonePicked? ==> forall i :: 0 <= i < |rows| && rows[i].enabled && rows[i].available ==>
        !Ready(Get(old(View()), rows[i].id), m.now)
    {
      var sorted, order := SortRows(rows, prefer, m);
      p := FirstReady(rows, sorted, order, Ranks(rows, counters, prefer, m), m.now);
      RightMeans(p, rows, counters, prefer, m, old(View()), m.now);
    }

    method FirstReady(ghost rows: seq<EndpointRow>, sorted: seq<EndpointRow>, ghost order: seq<nat>,
        ghost ranks: seq<Rank>, now: Instant)
      returns (p: Pick)
      requires Valid() && IsSorting(rows, ranks, sorted, order)
      modifies this`rapis, Objects()
      ensures Valid() && fresh(Objects() - old(Objects()))
      ensures Waited(old(View()), now)
      ensures Right(p, rows, ranks, old(View()), now)
    {
      ghost var before := View();
      AllInvNow();
      var k, wait := Scan(sorted, now, before);
      p := if k < |sorted| then Picked(sorted[k]) else NonePicked(wait);
      Decided(p, rows, sorted, order, k, wait, ranks, before, now);
    }

    lemma AllInvNow()
      requires Valid()
      ensures AllInv(View())
    {
    }

    /** The first row that serves, and the earliest recovery of the rows before it. */
    method Scan(sorted: seq<EndpointRow>, now: Instant, ghost before: map<int, Status>) returns (k: nat, wait: Instant)
      requires Valid() && before == View() && AllInv(before)
      modifies this`rapis, Objects()
      ensures Valid() && fresh(Objects() - old(Objects())) && Waited(before, now)
      ensures k <= |sorted| && Skipped(sorted[..k], before, now, wait)
      ensures k < |sorted| ==> Serves(sorted[k], before, now)
    {
      wait, k := 0, 0;
      while k < |sorted|
        invariant 0 <= k <= |sorted|
        invariant Valid() && fresh(Objects() - old(Objects())) && Waited(before, now)
        invariant Skipped(sorted[..k], before, now, wait)
      {
        var ok, recoverAt := Visit(sorted[k], now, before);
        if ok {
          return;
        }
        assert sorted[..k + 1] == sorted[..k] + [sorted[k]];
        SkipOne(sorted[..k], sorted[k], before, now, wait, recoverAt);
        wait := MinNonZero(wait, recoverAt);
        k := k + 1;
      }
    }

    /** The flags of the row are checked again before its endpoint is asked. */
    method Visit(row: EndpointRow, now: Instant, ghost before: map<int, Status>) returns (ok: bool, recoverAt: Instant)
      requires Valid() && AllInv(before) && Waited(before, now)
      modifies this`rapis, Objects()
      ensures Valid() && fresh(Objects() - old(Objects())) && Waited(before, now)
      ensures ok == Serves(row, before, now)
      ensures !ok ==> recoverAt == if Listed(row) then RecoversAt(Get(before, row.id)) else 0
    {
      if !Listed(row) {
        return false, 0;
      }
      ghost var mid := View();
      ok, recoverAt := Probe(row.id, now);
      TickOnce(cfg, Get(before, row.id), Get(mid, row.id), now);
      StillWaited(before, mid, row.id, now);
    }

    /** The stable sort of the rows by rank. */
    method SortRows(rows: seq<EndpointRow>, prefer: string, m: Moment)
      returns (sorted: seq<EndpointRow>, order: seq<nat>)
      ensures IsSorting(rows, Ranks(rows, counters, prefer, m), sorted, order)
      ensures Objects() == old(Objects()) && View() == old(View())
    {
      var ranks := [];
      var i := 0;
      while i < |rows|
        invariant 0 <= i <= |rows| && |ranks| == i
        invariant forall j :: 0 <= j < i ==> ranks[j] == RankOf(rows[j], counters, prefer, m)
      {
        var r := rows[i];
        var cost := ComputeCost(r.rules, r.highCost, r.baseCost, r.limits, TallyOf(counters, r.id), m);
        ranks := ranks + [Rank(cost, r.orderIndex, if prefer != "" && prefer !in r.formats then 1 else 0)];
        i := i + 1;
      }
      assert ranks == Ranks(rows, counters, prefer, m);
      order := SortStable(ranks);
      sorted := seq(|order|, k requires 0 <= k < |order| => rows[order[k]]);
    }

    /** Nothing but recovery ticks at `now` happened. */
    ghost predicate Waited(before: map<int, Status>, now: Instant)
      reads this, Objects()
    {
      forall id :: OnceTicked(cfg, Get(before, id), Get(View(), id), now)
    }

    lemma StillWaited(before: map<int, Status>, mid: map<int, Status>, id: int, now: Instant)
      requires forall i :: OnceTicked(cfg, Get(before, i), Get(mid, i), now)
      requires Touched(mid, id, Get(View(), id))
      requires Get(View(), id) == Get(mid, id) || Get(View(), id) == Next(cfg, Get(mid, id), Tick, now)
      ensures Waited(before, now)
    {
      forall i ensures OnceTicked(cfg, Get(before, i), Get(View(), i), now) {
        assert OnceTicked(cfg, Get(before, i), Get(mid, i), now);
      }
    }
  }

  ghost predicate OnceTicked(cfg: Config, before: Status, after: Status, now: Instant) {
    after == before || after == Next(cfg, before, Tick, now)
  }

  /** A tick changes neither readiness at that time nor, for an endpoint that is not ready, its recovery. */
  lemma TickOnce(cfg: Config, before: Status, after: Status, now: Instant)
    requires Inv(before) && OnceTicked(cfg, before, after, now)
    ensures Ready(after, now) <==> Ready(before, now)
    ensures !Ready(before, now) ==> after.state == before.state && RecoversAt(after) == RecoversAt(before)
  {
  }

  /** `sorted` lists the rows in the stable order of their ranks; `order` gives their positions. */
  ghost predicate IsSorting(rows: seq<EndpointRow>, ranks: seq<Rank>, sorted: seq<EndpointRow>, order: seq<nat>) {
    && |ranks| == |rows| && |sorted| == |order|
    && SortedPositions(ranks, order)
    && (forall p: nat :: p in order <==> p < |rows|)
    && (forall k :: 0 <= k < |order| ==> sorted[k] == rows[order[k]])
  }

  /** A row that does not serve and does not recover before `wait`. */
  ghost predicate Passed(r: EndpointRow, view: map<int, Status>, now: Instant, wait: Instant) {
    !Serves(r, view, now) && (Listed(r) ==> RecoversAt(Get(view, r.id)) == 0 || 0 < wait <= RecoversAt(Get(view, r.id)))
  }

  ghost predicate Recovers(r: EndpointRow, view: map<int, Status>, wait: Instant) {
    Listed(r) && RecoversAt(Get(view, r.id)) == wait
  }

  /** None of these rows serves; `wait` is their earliest recovery. */
  ghost predicate Skipped(seen: seq<EndpointRow>, view: map<int, Status>, now: Instant, wait: Instant) {
    && (forall r :: r in seen ==> Passed(r, view, now, wait))
    && (wait != 0 ==> exists r :: r in seen && Recovers(r, view, wait))
  }

  lemma SkipOne(seen: seq<EndpointRow>, row: EndpointRow, view: map<int, Status>, now: Instant, wait: Instant,
      at: Instant)
    requires Skipped(seen, view, now, wait) && !Serves(row, view, now)
    requires at == if Listed(row) then RecoversAt(Get(view, row.id)) else 0
    ensures Skipped(seen + [row], view, now, MinNonZero(wait, at))
  {
    assert row in seen + [row];
    if wait != 0 {
      var r :| r in seen && Recovers(r, view, wait);
      assert r in seen + [row];
    }
  }

  lemma FirstIsBest(rows: seq<EndpointRow>, sorted: seq<EndpointRow>, order: seq<nat>, k: nat, ranks: seq<Rank>,
      view: map<int, Status>, now: Instant, wait: Instant)
    requires IsSorting(rows, ranks, sorted, order) && k < |sorted|
    requires Skipped(sorted[..k], view, now, wait) && Serves(sorted[k], view, now)
    ensures Chosen(rows, sorted[k], ranks, view, now) && SomeServes(rows, view, now)
  {
    forall q | 0 <= q < k ensures !Serves(rows[order[q]], view, now) {
      assert sorted[..k][q] == rows[order[q]];
      assert sorted[..k][q] in sorted[..k];
    }
    forall j: nat | j < |rows| && j != order[k] && Serves(rows[j], view, now) ensures Sooner(ranks, order[k], j) {
      assert j in order;
      var q :| 0 <= q < |order| && order[q] == j;
    }
    assert Best(rows, order[k], ranks, view, now);
  }

  lemma AllSkipped(rows: seq<EndpointRow>, sorted: seq<EndpointRow>, order: seq<nat>, ranks: seq<Rank>,
      view: map<int, Status>, now: Instant, wait: Instant)
    requires IsSorting(rows, ranks, sorted, order) && Skipped(sorted, view, now, wait)
    ensures !SomeServes(rows, view, now) && Earliest(wait, rows, view)
  {
    forall i | 0 <= i < |rows| ensures Passed(rows[i], view, now, wait) {
      assert i in order;
      var k :| 0 <= k < |order| && order[k] == i;
      assert sorted[k] == rows[i];
    }
    if wait != 0 {
      var r :| r in sorted && Recovers(r, view, wait);
      var k :| 0 <= k < |order| && sorted[k] == r;
      assert Recovers(rows[order[k]], view, wait);
    }
  }

  lemma Decided(p: Pick, rows: seq<EndpointRow>, sorted: seq<EndpointRow>, order: seq<nat>, k: nat, wait: Instant,
      ranks: seq<Rank>, view: map<int, Status>, now: Instant)
    requires IsSorting(rows, ranks, sorted, order) && k <= |sorted|
    requires Skipped(sorted[..k], view, now, wait) && (k < |sorted| ==> Serves(sorted[k], view, now))
    requires p == if k < |sorted| then Picked(sorted[k]) else NonePicked(wait)
    ensures Right(p, rows, ranks, view, now)
  {
    if k < |sorted| {
      FirstIsBest(rows, sorted, order, k, ranks, view, now, wait);
    } else {
      assert sorted[..k] == sorted;
      AllSkipped(rows, sorted, order, ranks, view, now, wait);
    }
  }

  // ---------- The wait is exact ----------

  /** Every endpoint has only seen recovery ticks up to a time. */
  ghost predicate OnlyTicks(cfg: Config, before: map<int, Status>, after: map<int, Status>, until: Instant) {
    forall id :: exists ticks ::
      (forall i :: 0 <= i < |ticks| ==> ticks[i] <= until) && Get(after, id) == Ticked(cfg, Get(before, id), ticks)
  }

  /** A failed pick keeps failing before its wait time and succeeds at every time from it on, however
      many recovery ticks happen in between; with a zero wait no passage of time helps. */
  lemma WaitIsExact(cfg: Config, rows: seq<EndpointRow>, view: map<int, Status>, after: map<int, Status>,
      now: Instant, wait: Instant, later: Instant)
    requires AllInv(view) && !SomeServes(rows, view, now) && Earliest(wait, rows, view)
    requires now <= later && OnlyTicks(cfg, view, after, later)
    ensures SomeServes(rows, after, later) <==> wait != 0 && wait <= later
  {
    forall i | 0 <= i < |rows| ensures Serves(rows[i], after, later) <==> ServesBy(rows[i], view, later) {
      ServesAfterTicks(cfg, rows[i], view, after, now, later);
    }
    if wait != 0 && wait <= later {
      var i :| 0 <= i < |rows| && Recovers(rows[i], view, wait);
      assert Serves(rows[i], after, later);
    }
  }

  ghost predicate ServesBy(r: EndpointRow, view: map<int, Status>, later: Instant) {
    Listed(r) && 0 < RecoversAt(Get(view, r.id)) <= later
  }

  /** A row that does not serve now serves from its recovery time on. */
  lemma ServesAfterTicks(cfg: Config, r: EndpointRow, view: map<int, Status>, after: map<int, Status>,
      now: Instant, later: Instant)
    requires AllInv(view) && !Serves(r, view, now) && now <= later && OnlyTicks(cfg, view, after, later)
    ensures Serves(r, after, later) <==> ServesBy(r, view, later)
  {
    var ticks :| (forall i :: 0 <= i < |ticks| ==> ticks[i] <= later)
      && Get(after, r.id) == Ticked(cfg, Get(view, r.id), ticks);
    TicksKeepReady(cfg, Get(view, r.id), ticks, later);
    if Listed(r) {
      ReadyFrom(Get(view, r.id), now, later);
    }
  }
}
