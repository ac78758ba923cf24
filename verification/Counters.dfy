/** Request and token counters over the current minute, hour and day, and the cost they decide. */
module Counters {
  import opened Folds
  import opened Bundle
  import opened Fsm
  import Names

  /** A clock reading: its instant, its wall-clock text and the starts of its windows. */
  datatype Moment = Moment(now: Instant, hhmm: string, minute: int, hour: int, day: int)

  datatype Window = Minute | Hour | Day

  function StartOf(m: Moment, w: Window): int {
    match w
    case Minute => m.minute
    case Hour => m.hour
    case Day => m.day
  }

  datatype Bucket = Bucket(start: int, reqs: int, toks: int)

  datatype Tally = Tally(minute: Bucket, hour: Bucket, day: Bucket)

  const EMPTY := Tally(Bucket(0, 0, 0), Bucket(0, 0, 0), Bucket(0, 0, 0))

  function BucketOf(t: Tally, w: Window): Bucket {
    match w
    case Minute => t.minute
    case Hour => t.hour
    case Day => t.day
  }

  /** A bucket of another window starts over. */
  function Added(b: Bucket, start: int, tokens: int): Bucket {
    if b.start != start then Bucket(start, 1, tokens) else Bucket(start, b.reqs + 1, b.toks + tokens)
  }

  function Recorded(t: Tally, m: Moment, tokens: int): Tally {
    Tally(Added(t.minute, m.minute, tokens), Added(t.hour, m.hour, tokens), Added(t.day, m.day, tokens))
  }

  /** What a bucket says about the window that starts at `start`. */
  function ReadReqs(b: Bucket, start: int): int { if b.start != start then 0 else b.reqs }

  function ReadToks(b: Bucket, start: int): int { if b.start != start then 0 else b.toks }

  // ---------- The log ----------

  datatype Request = Request(at: Moment, tokens: int)

  function Replay(log: seq<Request>): Tally {
    if log == [] then EMPTY else
    Recorded(Replay(log[..|log| - 1]), log[|log| - 1].at, log[|log| - 1].tokens)
  }

  function CountIn(log: seq<Request>, w: Window, start: int): int {
    if log == [] then 0 else
    CountIn(log[..|log| - 1], w, start) + if StartOf(log[|log| - 1].at, w) == start then 1 else 0
  }

  function TokensIn(log: seq<Request>, w: Window, start: int): int {
    if log == [] then 0 else
    TokensIn(log[..|log| - 1], w, start) + if StartOf(log[|log| - 1].at, w) == start then log[|log| - 1].tokens else 0
  }

  /** The clock never runs backwards: window starts do not decrease. */
  ghost predicate Forward(log: seq<Request>, w: Window, start: int) {
    && (forall i, j :: 0 <= i < j < |log| ==> StartOf(log[i].at, w) <= StartOf(log[j].at, w))
    && (forall i :: 0 <= i < |log| ==> StartOf(log[i].at, w) <= start)
  }

  lemma {:induction false} NothingYet(log: seq<Request>, w: Window, start: int)
    requires forall i :: 0 <= i < |log| ==> StartOf(log[i].at, w) < start
    ensures CountIn(log, w, start) == 0 && TokensIn(log, w, start) == 0
  {
    if log != [] {
      NothingYet(log[..|log| - 1], w, start);
    }
  }

  /** The buckets read the number and the token sum of the logged requests of the current window. */
  lemma {:induction false} BucketsAgree(log: seq<Request>, w: Window, start: int)
    requires Forward(log, w, start)
    ensures ReadReqs(BucketOf(Replay(log), w), start) == CountIn(log, w, start)
    ensures ReadToks(BucketOf(Replay(log), w), start) == TokensIn(log, w, start)
  {
    if log != [] {
      var init, last := log[..|log| - 1], StartOf(log[|log| - 1].at, w);
      BucketsAgree(init, w, last);
      if last < start {
        NothingYet(log, w, start);
      }
    }
  }

  // ---------- Limits ----------

  method ThresholdExceeded(t: Tally, limits: Limits, m: Moment) returns (r: bool)
    ensures r <==> Exceeded(t, limits, m)
  {
    var minReqs, minToks := t.minute.reqs, t.minute.toks;
    if t.minute.start != m.minute {
      minReqs, minToks := 0, 0;
    }
    var hourReqs, hourToks := t.hour.reqs, t.hour.toks;
    if t.hour.start != m.hour {
      hourReqs, hourToks := 0, 0;
    }
    var dayReqs, dayToks := t.day.reqs, t.day.toks;
    if t.day.start != m.day {
      dayReqs, dayToks := 0, 0;
    }
    if limits.rpm > 0 && minReqs >= limits.rpm { return true; }
    if limits.rph > 0 && hourReqs >= limits.rph { return true; }
    if limits.rpd > 0 && dayReqs >= limits.rpd { return true; }
    if limits.tpm > 0 && minToks >= limits.tpm { return true; }
    if limits.tph > 0 && hourToks >= limits.tph { return true; }
    if limits.tpd > 0 && dayToks >= limits.tpd { return true; }
    return false;
  }

  function ReqLimit(l: Limits, w: Window): int {
    match w
    case Minute => l.rpm
    case Hour => l.rph
    case Day => l.rpd
  }

  function TokLimit(l: Limits, w: Window): int {
    match w
    case Minute => l.tpm
    case Hour => l.tph
    case Day => l.tpd
  }

  /** A limit that is set is reached in its window. */
  predicate Reaches(t: Tally, l: Limits, m: Moment, w: Window) {
    var b := BucketOf(t, w);
    || (ReqLimit(l, w) > 0 && ReadReqs(b, StartOf(m, w)) >= ReqLimit(l, w))
    || (TokLimit(l, w) > 0 && ReadToks(b, StartOf(m, w)) >= TokLimit(l, w))
  }

  predicate Exceeded(t: Tally, l: Limits, m: Moment) {
    Reaches(t, l, m, Minute) || Reaches(t, l, m, Hour) || Reaches(t, l, m, Day)
  }

  /** The threshold is exceeded exactly when, over the whole log, a set limit is reached by the
      requests or by the tokens of the current window. */
  lemma ThresholdDecidesTheLog(log: seq<Request>, l: Limits, m: Moment)
    requires forall w :: Forward(log, w, StartOf(m, w))
    ensures Exceeded(Replay(log), l, m) <==> exists w: Window ::
      || (ReqLimit(l, w) > 0 && CountIn(log, w, StartOf(m, w)) >= ReqLimit(l, w))
      || (TokLimit(l, w) > 0 && TokensIn(log, w, StartOf(m, w)) >= TokLimit(l, w))
  {
    forall w ensures Reaches(Replay(log), l, m, w) <==>
      || (ReqLimit(l, w) > 0 && CountIn(log, w, StartOf(m, w)) >= ReqLimit(l, w))
      || (TokLimit(l, w) > 0 && TokensIn(log, w, StartOf(m, w)) >= TokLimit(l, w))
    {
      BucketsAgree(log, w, StartOf(m, w));
    }
  }

  // ---------- Cost ----------

  datatype Rule = Rule(start: string, end: string, cost: int)

  predicate AtMost(a: string, b: string) { !Names.Less(b, a) }

  /** Start inclusive, end exclusive; a range whose start is after its end runs overnight. */
  predicate InTimeRange(current: string, start: string, end: string) {
    if AtMost(start, end) then AtMost(start, current) && Names.Less(current, end)
    else AtMost(start, current) || Names.Less(current, end)
  }

  /** Two ranges that share their ends split the day between them. */
  lemma RangesSplitTheDay(current: string, a: string, b: string)
    requires a != b
    ensures InTimeRange(current, a, b) <==> !InTimeRange(current, b, a)
  {
    Names.LessTotal(a, b);
    Names.LessTotal(a, current);
    Names.LessTotal(b, current);
    Names.LessIrreflexive(a);
    Names.LessIrreflexive(b);
    if Names.Less(a, b) && Names.Less(b, a) {
      Names.LessTransitive(a, b, a);
    }
    if Names.Less(b, current) && Names.Less(current, a) {
      Names.LessTransitive(b, current, a);
    }
    if Names.Less(a, current) && Names.Less(current, b) {
      Names.LessTransitive(a, current, b);
    }
    if Names.Less(a, current) && Names.Less(current, a) {
      Names.LessTransitive(a, current, a);
    }
    if Names.Less(b, current) && Names.Less(current, b) {
      Names.LessTransitive(b, current, b);
    }
  }

  /** A minute of the day as the clock writes it: two digits, a colon, two digits. */
  function Clock(m: nat): string
    requires m < 1440
  {
    var (h, k) := (m / 60, m % 60);
    [(48 + h / 10) as char, (48 + h % 10) as char, ':', (48 + k / 10) as char, (48 + k % 10) as char]
  }

  lemma LessCons(x: char, s: string, y: char, t: string)
    ensures Names.Less([x] + s, [y] + t) <==> x < y || (x == y && Names.Less(s, t))
  {
    assert ([x] + s)[1..] == s && ([y] + t)[1..] == t;
  }

  /** Two numbers below 100 compare digit by digit. */
  lemma DigitsOrder(a: nat, b: nat)
    ensures a < b <==> a / 10 < b / 10 || (a / 10 == b / 10 && a % 10 < b % 10)
  {
  }

  lemma MinutesOrder(a: nat, b: nat)
    ensures a < b <==> a / 60 < b / 60 || (a / 60 == b / 60 && a % 60 < b % 60)
  {
  }

  /** Times of day compare as texts exactly as they compare as minutes. */
  lemma ClockOrder(a: nat, b: nat)
    requires a < 1440 && b < 1440
    ensures Names.Less(Clock(a), Clock(b)) <==> a < b
  {
    var p, q := Clock(a), Clock(b);
    assert p == [p[0]] + ([p[1]] + ([':'] + ([p[3]] + ([p[4]] + ""))));
    assert q == [q[0]] + ([q[1]] + ([':'] + ([q[3]] + ([q[4]] + ""))));
    LessCons(p[0], [p[1]] + ([':'] + ([p[3]] + ([p[4]] + ""))), q[0], [q[1]] + ([':'] + ([q[3]] + ([q[4]] + ""))));
    LessCons(p[1], [':'] + ([p[3]] + ([p[4]] + "")), q[1], [':'] + ([q[3]] + ([q[4]] + "")));
    LessCons(':', [p[3]] + ([p[4]] + ""), ':', [q[3]] + ([q[4]] + ""));
    LessCons(p[3], [p[4]] + "", q[3], [q[4]] + "");
    LessCons(p[4], "", q[4], "");
    MinutesOrder(a, b);
    DigitsOrder(a / 60, b / 60);
    DigitsOrder(a % 60, b % 60);
  }

  /** A range holds its start but not its end; one whose start is after its end runs over midnight, and one that
      starts where it ends is empty. */
  lemma RangeInMinutes(now: nat, start: nat, end: nat)
    requires now < 1440 && start < 1440 && end < 1440
    ensures InTimeRange(Clock(now), Clock(start), Clock(end)) <==>
      if start <= end then start <= now < end else now >= start || now < end
  {
    ClockOrder(end, start);
    ClockOrder(now, start);
    ClockOrder(now, end);
  }

  /** The first rule whose range holds the time. */
  function FirstRule(rules: seq<Rule>, hhmm: string): (i: nat)
    ensures i <= |rules|
    ensures forall j :: 0 <= j < i ==> !InTimeRange(hhmm, rules[j].start, rules[j].end)
    ensures i < |rules| ==> InTimeRange(hhmm, rules[i].start, rules[i].end)
  {
    if rules == [] then 0 else
    var i := FirstRule(rules[..|rules| - 1], hhmm);
    var last := rules[|rules| - 1];
    if i < |rules| - 1 || InTimeRange(hhmm, last.start, last.end) then i else |rules|
  }

  /** A matching rule, else the high cost past the threshold, else the base cost. */
  function Cost(rules: seq<Rule>, highCost: int, baseCost: int, exceeded: bool, hhmm: string): int {
    var i := FirstRule(rules, hhmm);
    if i < |rules| then rules[i].cost
    else if exceeded && highCost > 0 then highCost
    else if baseCost > 0 then baseCost
    else 0
  }

  method ComputeCost(rules: seq<Rule>, highCost: int, baseCost: int, limits: Limits, t: Tally, m: Moment)
    returns (cost: int)
    ensures cost == Cost(rules, highCost, baseCost, Exceeded(t, limits, m), m.hhmm)
  {
    var i := 0;
    while i < |rules|
      invariant 0 <= i <= |rules|
      invariant forall j :: 0 <= j < i ==> !InTimeRange(m.hhmm, rules[j].start, rules[j].end)
    {
      if InTimeRange(m.hhmm, rules[i].start, rules[i].end) {
        return rules[i].cost;
      }
      i := i + 1;
    }
    var exceeded := ThresholdExceeded(t, limits, m);
    if exceeded {
      if highCost > 0 {
        return highCost;
      }
    }
    if baseCost > 0 {
      return baseCost;
    }
    return 0;
  }
}
