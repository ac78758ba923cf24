/** The shape of the Anthropic event stream that the converter sends. */
module StreamShape {
  import opened Folds
  import opened StreamConverter
  import opened StreamRoundTrip

  /** A reader that checks events as they arrive: `shaped` while `message_start` comes
      once, before all block events, and block starts are numbered 0, 1, 2, ...;
      `bracketed` while only open blocks are stopped; `single` while a block only
      starts when none is open. */
  datatype Scan = Scan(shaped: bool, bracketed: bool, single: bool, msg: bool, next: int, open: set<int>)

  const UNREAD := Scan(true, true, true, false, 0, {})

  function ScanStart(x: Scan, i: int): Scan {
    x.(shaped := x.shaped && x.msg && i == x.next, single := x.single && x.open == {},
       next := x.next + 1, open := x.open + {i})
  }

  function ScanStep(x: Scan, e: Event): Scan {
    match e
    case MessageStart(_) => x.(shaped := x.shaped && !x.msg, msg := true)
    case TextStart(i, _) => ScanStart(x, i)
    case ToolStart(i, _, _) => ScanStart(x, i)
    case OtherStart(i) => ScanStart(x, i)
    case TextDelta(_, _) => x.(shaped := x.shaped && x.msg)
    case JsonDelta(_, _) => x.(shaped := x.shaped && x.msg)
    case OtherDelta(_) => x.(shaped := x.shaped && x.msg)
    case BlockStop(i) => x.(shaped := x.shaped && x.msg, bracketed := x.bracketed && i in x.open, open := x.open - {i})
    case MessageDelta(_) => x
    case MessageStop => x
    case Ping => x
  }

  function Scanned(es: seq<Event>): Scan {
    Fold(ScanStep, UNREAD, es)
  }

  /** `message_start` once and first, and consecutively numbered blocks. */
  predicate Shaped(es: seq<Event>) {
    Scanned(es).shaped
  }

  /** Every block that starts is stopped once, after its start, and nothing else is. */
  predicate Balanced(es: seq<Event>) {
    Scanned(es).bracketed && Scanned(es).open == {}
  }

  /** Balanced, and never two blocks open at a time. */
  predicate Sequential(es: seq<Event>) {
    Balanced(es) && Scanned(es).single
  }

  // ---------- Conditions on the chunk stream ----------

  ghost predicate AtMostOne(indices: set<int>) {
    forall i, j :: i in indices && j in indices ==> i == j
  }

  /** The indices of the calls that have opened since the last finish. */
  function OpenSince(cs: seq<Chunk>): set<int> {
    if cs == [] then {} else
    var front, c := OpenSince(cs[..|cs| - 1]), cs[|cs| - 1];
    if c.NoChoices? then front
    else if c.finish != "" then {}
    else front + OpenedIn(c.calls)
  }

  /** Text has come since the last finish and no call has opened after it. */
  predicate TextLast(cs: seq<Chunk>) {
    if cs == [] then false else
    var front, c := cs[..|cs| - 1], cs[|cs| - 1];
    if c.NoChoices? then TextLast(front)
    else c.finish == "" && OpenedIn(c.calls) == {} && (c.content != "" || TextLast(front))
  }

  /** A finish came right after text, with no call opened in between. */
  predicate FinishedOnText(cs: seq<Chunk>) {
    cs != [] &&
    var front, c := cs[..|cs| - 1], cs[|cs| - 1];
    || FinishedOnText(front)
    || (c.Chunk? && c.finish != "" && OpenedIn(c.calls) == {} && (c.content != "" || TextLast(front)))
  }

  /** Once a finish came right after text, no more text comes and no more calls open. */
  predicate QuietAfterText(cs: seq<Chunk>) {
    cs == [] ||
    var front, c := cs[..|cs| - 1], cs[|cs| - 1];
    && QuietAfterText(front)
    && (c.Chunk? && FinishedOnText(front) ==> c.content == "" && OpenedIn(c.calls) == {})
  }

  /** The calls that open between two finishes share one index. */
  ghost predicate OneIndexEach(cs: seq<Chunk>) {
    cs == [] ||
    var front, c := cs[..|cs| - 1], cs[|cs| - 1];
    && OneIndexEach(front)
    && (c.Chunk? ==> AtMostOne(OpenSince(front) + OpenedIn(c.calls)))
  }

  /** Between two finishes no text comes after a call has opened. */
  predicate TextFirst(cs: seq<Chunk>) {
    cs == [] ||
    var front, c := cs[..|cs| - 1], cs[|cs| - 1];
    && TextFirst(front)
    && (c.Chunk? && c.content != "" ==> OpenSince(front) == {})
  }

  /** Since the last finish no text has come and no call has opened. */
  predicate Finished(cs: seq<Chunk>) {
    !TextLast(cs) && OpenSince(cs) == {}
  }

  // ---------- Invariant ----------

  /** The conditions on a chunk stream, as they stand in the middle of a chunk. */
  datatype Facts = Facts(seen: set<int>, one: bool, textFirst: bool, textLast: bool, onText: bool, quiet: bool)

  ghost function FactsOf(cs: seq<Chunk>): Facts {
    Facts(OpenSince(cs), OneIndexEach(cs), TextFirst(cs), TextLast(cs), FinishedOnText(cs), QuietAfterText(cs))
  }

  function AfterText(f: Facts, content: string): Facts {
    if content == "" then f
    else f.(textFirst := f.textFirst && f.seen == {}, textLast := true, quiet := f.quiet && !f.onText)
  }

  ghost function AfterCalls(f: Facts, now: set<int>): Facts {
    f.(seen := f.seen + now, one := f.one && AtMostOne(f.seen + now),
       textLast := f.textLast && now == {}, quiet := f.quiet && (f.onText ==> now == {}))
  }

  function AfterFinish(f: Facts, finish: string): Facts {
    if finish == "" then f else f.(seen := {}, textLast := false, onText := f.onText || f.textLast)
  }

  lemma FactsOfChunk(cs: seq<Chunk>)
    requires cs != [] && cs[|cs| - 1].Chunk?
    ensures
      var front, c := cs[..|cs| - 1], cs[|cs| - 1];
      FactsOf(cs) == AfterFinish(AfterCalls(AfterText(FactsOf(front), c.content), OpenedIn(c.calls)), c.finish)
  {
  }

  function OpenBlocks(s: Conv): set<int> {
    (if s.blockStarted then {s.blockIndex} else {}) + (if s.toolOpen then {s.blockIndex - 1} else {})
  }

  /** Which blocks are open, and where the calls of this and of earlier finishes are. */
  ghost predicate TrackedBlocks(s: Conv, f: Facts, x: Scan) {
    && (x.bracketed <==> f.one)
    && (f.one ==> AtMostOne(f.seen))
    && (f.one ==> x.open == OpenBlocks(s))
    && (f.one ==> (x.single <==> f.textFirst))
    && (s.blockStarted && f.seen != {} ==> !f.textFirst)
    && (s.toolOpen <==> f.seen != {})
    && f.seen <= s.toolIdx.Keys
    && s.blockIndex >= (if s.toolOpen then 1 else 0)
    && (forall i :: i in s.toolIdx ==> s.toolIdx[i] < s.blockIndex)
    && (f.one && s.toolOpen ==> forall i :: i in s.toolIdx ==> (s.toolIdx[i] == s.blockIndex - 1 <==> i in f.seen))
  }

  ghost predicate Tracked(s: Conv, f: Facts, x: Scan) {
    && TrackedBlocks(s, f, x)
    && x.msg == s.msgStarted
    && (s.blockStarted || s.toolOpen ==> s.msgStarted)
    && s.blockStarted == f.textLast
    && (x.shaped <==> f.quiet)
    && (f.quiet ==> x.next == s.blockIndex + (if s.blockStarted || f.onText then 1 else 0))
    && (f.quiet && f.onText ==> !s.blockStarted)
  }

  function ScanAll(x: Scan, es: seq<Event>): Scan {
    Fold(ScanStep, x, es)
  }

  lemma TrackedStart(s: Conv, id: string, f: Facts, x: Scan)
    requires Tracked(s, f, x)
    ensures Tracked(EnsureStart(s, id).0, f, ScanAll(x, EnsureStart(s, id).1))
    ensures EnsureStart(s, id).0 == s.(msgStarted := true)
  {
    FoldAtMostOne(ScanStep, x, EnsureStart(s, id).1);
  }

  /** The scan after the events of a text, once the message has started. */
  function ScanText(s: Conv, x: Scan): Scan {
    var x1 := if s.blockStarted then x else ScanStart(x, s.blockIndex);
    x1.(shaped := x1.shaped && x1.msg)
  }

  lemma ScanTextEvents(s: Conv, id: string, content: string, x: Scan)
    requires content != ""
    ensures
      var (s1, es) := EnsureStart(s, id);
      && OnText(s, id, content).0 == s1.(blockStarted := true)
      && ScanAll(x, OnText(s, id, content).1) == ScanText(s1, ScanAll(x, es))
  {
    var (s1, es) := EnsureStart(s, id);
    var start := if s1.blockStarted then [] else [TextStart(s1.blockIndex, "")];
    var delta := [TextDelta(s1.blockIndex, content)];
    FoldAppend(ScanStep, x, es + start, delta);
    FoldAppend(ScanStep, x, es, start);
    FoldAtMostOne(ScanStep, ScanAll(x, es), start);
    FoldAtMostOne(ScanStep, ScanAll(x, es + start), delta);
  }

  lemma TrackedText(s: Conv, id: string, content: string, f: Facts, x: Scan)
    requires Tracked(s, f, x)
    ensures Tracked(OnText(s, id, content).0, AfterText(f, content), ScanAll(x, OnText(s, id, content).1))
  {
    if content != "" {
      ScanTextEvents(s, id, content, x);
      TrackedStart(s, id, f, x);
    }
  }

  /** The scan after the events of an opening call. */
  function ScanOpen(s: Conv, x: Scan, d: ToolDelta): Scan {
    var (a, e1) := CloseText(s);
    var (b, e2) := CloseTool(a, d.index);
    var x1 := if e1 == [] then x else ScanStep(x, e1[0]);
    var x2 := if e2 == [] then x1 else ScanStep(x1, e2[0]);
    ScanStart(x2, b.blockIndex)
  }

  lemma ScanOpening(s: Conv, x: Scan, d: ToolDelta)
    ensures ScanAll(x, OpenTool(s, d).1) == ScanOpen(s, x, d)
  {
    var (a, e1) := CloseText(s);
    var (b, e2) := CloseTool(a, d.index);
    var e3 := [ToolStart(b.blockIndex, d.id, d.name)];
    FoldAppend(ScanStep, x, e1 + e2, e3);
    FoldAppend(ScanStep, x, e1, e2);
    FoldAtMostOne(ScanStep, x, e1);
    FoldAtMostOne(ScanStep, ScanAll(x, e1), e2);
    FoldAtMostOne(ScanStep, ScanAll(x, e1 + e2), e3);
  }

  lemma AtMostOneMore(seen: set<int>, k: int)
    ensures AtMostOne(seen + {k}) <==> AtMostOne(seen) && (seen == {} || k in seen)
  {
    if seen != {} && k !in seen {
      var i := Member(seen);
      assert i in seen + {k} && k in seen + {k};
    }
    if i, j :| i in seen && j in seen && i != j {
      assert i in seen + {k} && j in seen + {k};
    }
  }

  lemma TrackedOpening(s: Conv, d: ToolDelta, f: Facts, x: Scan)
    requires Tracked(s, f, x) && s.msgStarted
    ensures Tracked(AfterOpen(s, d.index), AfterCalls(f, {d.index}), ScanOpen(s, x, d))
  {
    AtMostOneMore(f.seen, d.index);
  }

  lemma TrackedArgs(s: Conv, d: ToolDelta, f: Facts, x: Scan)
    requires Tracked(s, f, x) && s.msgStarted
    ensures Tracked(s, f, ScanAll(x, OnArgs(s, d)))
  {
    FoldAtMostOne(ScanStep, x, OnArgs(s, d));
  }

  lemma TrackedCall(s: Conv, d: ToolDelta, f: Facts, x: Scan)
    requires Tracked(s, f, x) && s.msgStarted
    ensures Tracked(OnCall(s, d).0, AfterCalls(f, if Opens(d) then {d.index} else {}), ScanAll(x, OnCall(s, d).1))
    ensures OnCall(s, d).0.msgStarted
  {
    if Opens(d) {
      var (s1, e1) := OpenTool(s, d);
      ScanOpening(s, x, d);
      TrackedOpening(s, d, f, x);
      TrackedArgs(s1, d, AfterCalls(f, {d.index}), ScanOpen(s, x, d));
      FoldAppend(ScanStep, x, e1, OnArgs(s1, d));
    } else {
      TrackedArgs(s, d, f, x);
      assert f.seen + {} == f.seen;
      assert AfterCalls(f, {}) == f;
    }
  }

  lemma AfterCallsMore(f: Facts, o1: set<int>, o2: set<int>)
    ensures AfterCalls(AfterCalls(f, o1), o2) == AfterCalls(f, o1 + o2)
  {
    assert f.seen + o1 + o2 == f.seen + (o1 + o2);
    if !AtMostOne(f.seen + o1) {
      var i, j :| i in f.seen + o1 && j in f.seen + o1 && i != j;
      assert i in f.seen + (o1 + o2) && j in f.seen + (o1 + o2);
    }
  }

  lemma {:induction false} TrackedCalls(s: Conv, calls: seq<ToolDelta>, f: Facts, x: Scan)
    requires Tracked(s, f, x) && s.msgStarted
    ensures
      var j := Pipe(OnCall, ScanStep, (s, x), calls);
      Tracked(j.0, AfterCalls(f, OpenedIn(calls)), j.1) && j.0.msgStarted
  {
    if calls == [] {
      assert f.seen + {} == f.seen;
      assert AfterCalls(f, {}) == f;
    } else {
      var n := |calls| - 1;
      TrackedCalls(s, calls[..n], f, x);
      var j := Pipe(OnCall, ScanStep, (s, x), calls[..n]);
      TrackedCall(j.0, calls[n], AfterCalls(f, OpenedIn(calls[..n])), j.1);
      AfterCallsMore(f, OpenedIn(calls[..n]), if Opens(calls[n]) then {calls[n].index} else {});
    }
  }

  lemma TrackedToolCalls(s: Conv, id: string, calls: seq<ToolDelta>, f: Facts, x: Scan)
    requires Tracked(s, f, x)
    ensures Tracked(OnToolCalls(s, id, calls).0, AfterCalls(f, OpenedIn(calls)),
      ScanAll(x, OnToolCalls(s, id, calls).1))
  {
    if calls == [] {
      assert f.seen + {} == f.seen;
      assert AfterCalls(f, {}) == f;
    } else {
      var (s1, e1) := EnsureStart(s, id);
      TrackedStart(s, id, f, x);
      TrackedCalls(s1, calls, f, ScanAll(x, e1));
      PipeIsRunThenFold(OnCall, ScanStep, s1, ScanAll(x, e1), calls);
      FoldAppend(ScanStep, x, e1, OnCalls(s1, calls).1);
    }
  }

  /** The scan after the stops of a finish. */
  function ScanClose(s: Conv, x: Scan): Scan {
    var x1 := if s.blockStarted then ScanStep(x, BlockStop(s.blockIndex)) else x;
    if s.toolOpen then ScanStep(x1, BlockStop(s.blockIndex - 1)) else x1
  }

  lemma ScanStops(s: Conv, x: Scan)
    requires s.toolOpen ==> s.blockIndex >= 1
    ensures ScanAll(x, FinishStops(s)) == ScanClose(s, x)
  {
    var e1 := if s.blockStarted then [BlockStop(s.blockIndex)] else [];
    var e2 := if s.toolOpen then [BlockStop(s.blockIndex - 1)] else [];
    FoldAppend(ScanStep, x, e1, e2);
    FoldAtMostOne(ScanStep, x, e1);
    FoldAtMostOne(ScanStep, ScanAll(x, e1), e2);
  }

  lemma TrackedClose(s: Conv, f: Facts, x: Scan)
    requires Tracked(s, f, x)
    ensures ScanClose(s, x) == x.(open := ScanClose(s, x).open)
    ensures f.one ==> ScanClose(s, x).open == {}
  {
    if f.one {
      var b := s.blockIndex;
      assert {b} + {b - 1} - {b} - {b - 1} == {};
      assert {b} - {b} == {} && {b - 1} - {b - 1} == {} && {b - 1} - {b} == {b - 1};
    }
  }

  lemma ScanTail(x: Scan, stop: string)
    ensures ScanAll(x, [MessageDelta(stop), MessageStop]) == x
  {
    assert [MessageDelta(stop), MessageStop] == [MessageDelta(stop)] + [MessageStop];
    FoldAppend(ScanStep, x, [MessageDelta(stop)], [MessageStop]);
    FoldOne(ScanStep, x, MessageDelta(stop));
    FoldOne(ScanStep, x, MessageStop);
  }

  lemma TrackedFinish(s: Conv, finish: string, f: Facts, x: Scan)
    requires Tracked(s, f, x)
    ensures Tracked(OnFinish(s, finish).0, AfterFinish(f, finish), ScanAll(x, OnFinish(s, finish).1))
  {
    if finish != "" {
      ScanStops(s, x);
      TrackedClose(s, f, x);
      ScanTail(ScanClose(s, x), StopReason(finish));
      FoldAppend(ScanStep, x, FinishStops(s), [MessageDelta(StopReason(finish)), MessageStop]);
    }
  }

  lemma TrackedChunk(s: Conv, c: Chunk, f: Facts, x: Scan)
    requires Tracked(s, f, x) && c.Chunk?
    ensures
      var f3 := AfterCalls(AfterText(f, c.content), OpenedIn(c.calls));
      Tracked(OnChunk(s, c).0, AfterFinish(f3, c.finish), ScanAll(x, OnChunk(s, c).1))
  {
    var (s1, e1) := OnRole(s, c.id, c.role);
    if c.role != "" {
      TrackedStart(s, c.id, f, x);
    }
    var x1 := ScanAll(x, e1);
    var (s2, e2) := OnText(s1, c.id, c.content);
    TrackedText(s1, c.id, c.content, f, x1);
    var f2, x2 := AfterText(f, c.content), ScanAll(x1, e2);
    var (s3, e3) := OnToolCalls(s2, c.id, c.calls);
    TrackedToolCalls(s2, c.id, c.calls, f2, x2);
    var e4 := OnFinish(s3, c.finish).1;
    TrackedFinish(s3, c.finish, AfterCalls(f2, OpenedIn(c.calls)), ScanAll(x2, e3));
    FoldAppend(ScanStep, x, e1 + e2 + e3, e4);
    FoldAppend(ScanStep, x, e1 + e2, e3);
    FoldAppend(ScanStep, x, e1, e2);
  }

  lemma {:induction false} TrackedStream(cs: seq<Chunk>)
    ensures
      var j := Pipe(OnChunk, ScanStep, (FRESH, UNREAD), cs);
      Tracked(j.0, FactsOf(cs), j.1)
  {
    if cs != [] {
      var n := |cs| - 1;
      TrackedStream(cs[..n]);
      var j := Pipe(OnChunk, ScanStep, (FRESH, UNREAD), cs[..n]);
      if cs[n].NoChoices? {
        assert FactsOf(cs) == FactsOf(cs[..n]);
      } else {
        TrackedChunk(j.0, cs[n], FactsOf(cs[..n]), j.1);
        FactsOfChunk(cs);
      }
    }
  }

  lemma ScanOf(cs: seq<Chunk>)
    ensures Tracked(ToAnthropic(FRESH, cs).0, FactsOf(cs), Scanned(Events(cs)))
  {
    TrackedStream(cs);
    PipeIsRunThenFold(OnChunk, ScanStep, FRESH, UNREAD, cs);
  }

  // ---------- Main results ----------

  /** For every chunk stream: `message_start` is sent at most once and before every block
      event, and the blocks are numbered 0, 1, 2, ..., if and only if nothing starts after
      a finish that came right after text: a finish stops the text block but does not
      move on to the next index. */
  lemma ShapedIff(cs: seq<Chunk>)
    ensures Shaped(Events(cs)) <==> QuietAfterText(cs)
  {
    ScanOf(cs);
  }

  /** For every chunk stream: every block that starts is stopped exactly once and in time
      if and only if the calls that open between two finishes share one index (a second
      index stops the wrong block) and nothing starts after the last finish. */
  lemma BalancedIff(cs: seq<Chunk>)
    ensures Balanced(Events(cs)) <==> OneIndexEach(cs) && Finished(cs)
  {
    ScanOf(cs);
  }

  /** For every chunk stream: blocks come strictly one after another if and only if,
      besides, no text follows a call before the next finish. */
  lemma SequentialIff(cs: seq<Chunk>)
    ensures Sequential(Events(cs)) <==> OneIndexEach(cs) && Finished(cs) && TextFirst(cs)
  {
    ScanOf(cs);
  }

  /** With no finish before the last chunk the blocks are always numbered in order. */
  lemma ShapedToFinish(cs: seq<Chunk>)
    requires forall i :: 0 <= i < |cs| - 1 ==> cs[i].NoChoices? || cs[i].finish == ""
    ensures Shaped(Events(cs))
  {
    NoFinish(if cs == [] then [] else cs[..|cs| - 1]);
    ShapedIff(cs);
  }

  lemma {:induction false} NoFinish(cs: seq<Chunk>)
    requires forall i :: 0 <= i < |cs| ==> cs[i].NoChoices? || cs[i].finish == ""
    ensures !FinishedOnText(cs) && QuietAfterText(cs)
  {
    if cs != [] {
      NoFinish(cs[..|cs| - 1]);
    }
  }

  /** Text after a finish that ended text starts a second block under the same index. */
  lemma TextAfterFinish()
    ensures
      var a, b := Chunk("", "", "a", [], "stop"), Chunk("", "", "b", [], "");
      Shaped(Events([a])) && !Shaped(Events([a, b]))
  {
    var a, b := Chunk("", "", "a", [], "stop"), Chunk("", "", "b", [], "");
    ShapedIff([a]);
    ShapedIff([a, b]);
    assert [a, b][..1] == [a] && [a][..0] == [];
    assert FinishedOnText([a]);
  }

  /** Two calls, opened one after the other, leave the first block without a stop. */
  lemma TwoCallsUnbalanced()
    ensures
      var a, b := ToolDelta(0, "a", "f", ""), ToolDelta(1, "b", "f", "");
      !Balanced(Events([Chunk("", "", "", [a, b], "tool_calls")]))
  {
    var a, b := ToolDelta(0, "a", "f", ""), ToolDelta(1, "b", "f", "");
    var cs := [Chunk("", "", "", [a, b], "tool_calls")];
    BalancedIff(cs);
    assert [a, b][..1] == [a];
    assert [a][..0] == [];
    assert OpenedIn([a]) == {0};
    assert 0 in OpenedIn([a, b]) && 1 in OpenedIn([a, b]);
    assert 0 in OpenSince(cs[..0]) + OpenedIn([a, b]) && 1 in OpenSince(cs[..0]) + OpenedIn([a, b]);
  }
}
