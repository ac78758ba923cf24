/** Where the converter delivers what the chunks carry: text to text blocks, arguments to their calls. */
module StreamDelivery {
  import opened Folds
  import opened StreamConverter
  import opened ClientReply
  import opened StreamRoundTrip

  // ---------- What the events say ----------

  /** Arguments sent to a block after a number of tool blocks have started. */
  datatype Sent = Sent(block: int, args: string, after: nat)

  /** `last` is the block start seen last; `fits` while every text goes to that block, and it is a text block. */
  datatype Log = Log(text: string, tools: seq<Event>, sent: seq<Sent>, last: Option<Event>, fits: bool)

  const BLANK := Log("", [], [], None, true)

  predicate IsTextBlock(last: Option<Event>, i: int) {
    last.Some? && last.value.TextStart? && last.value.index == i
  }

  function LogStep(l: Log, e: Event): Log {
    match e
    case TextStart(_, _) => l.(last := Some(e))
    case ToolStart(_, _, _) => l.(tools := l.tools + [e], last := Some(e))
    case OtherStart(_) => l.(last := Some(e))
    case TextDelta(i, t) => l.(text := l.text + t, fits := l.fits && IsTextBlock(l.last, i))
    case JsonDelta(i, j) => l.(sent := l.sent + [Sent(i, j, |l.tools|)])
    case _ => l
  }

  function LogAll(l: Log, es: seq<Event>): Log {
    Fold(LogStep, l, es)
  }

  function Logged(es: seq<Event>): Log {
    LogAll(BLANK, es)
  }

  // ---------- What the chunks ask for ----------

  datatype Opening = Opening(id: string, name: string)

  /** The calls that open, in order. */
  function Openings(ds: seq<ToolDelta>): seq<Opening> {
    if ds == [] then [] else
    var d := ds[|ds| - 1];
    Openings(ds[..|ds| - 1]) + (if Opens(d) then [Opening(d.id, d.name)] else [])
  }

  /** The opening that an index stands for: its latest one. */
  function OwnerOf(ds: seq<ToolDelta>, index: int): Option<nat> {
    if ds == [] then None else
    var init, d := ds[..|ds| - 1], ds[|ds| - 1];
    if Opens(d) && d.index == index then Some(|Openings(init)|) else OwnerOf(init, index)
  }

  datatype Owed = Owed(call: Option<nat>, args: string, after: nat)

  /** The arguments, in order, each with the call that it belongs to. */
  function Due(ds: seq<ToolDelta>): seq<Owed> {
    if ds == [] then [] else
    var d := ds[|ds| - 1];
    Due(ds[..|ds| - 1]) + (if d.args == "" then [] else [Owed(OwnerOf(ds, d.index), d.args, |Openings(ds)|)])
  }

  /** Arguments only come for indices that have opened. */
  predicate AllOpened(ds: seq<ToolDelta>) {
    ds == [] ||
    var d := ds[|ds| - 1];
    AllOpened(ds[..|ds| - 1]) && (d.args != "" ==> d.index in OpenedIn(ds))
  }

  /** One tool block per opening, with its id and name, in order. */
  ghost predicate ToolsStarted(tools: seq<Event>, openings: seq<Opening>) {
    |tools| == |openings| && forall k :: 0 <= k < |tools| ==>
      tools[k].ToolStart? && tools[k].callId == openings[k].id && tools[k].name == openings[k].name
  }

  /** The arguments go to the block of their own call, which has started before. */
  ghost predicate Reaches(tools: seq<Event>, x: Sent, o: Owed) {
    && x.args == o.args && x.after == o.after <= |tools|
    && o.call.Some? && o.call.value < x.after && tools[o.call.value].ToolStart?
    && x.block == tools[o.call.value].index
  }

  /** Every call gets its block, and all its arguments and nothing else, in order. */
  ghost predicate Delivered(es: seq<Event>, ds: seq<ToolDelta>) {
    var l, due := Logged(es), Due(ds);
    && ToolsStarted(l.tools, Openings(ds))
    && |l.sent| == |due| && forall k :: 0 <= k < |due| ==> Reaches(l.tools, l.sent[k], due[k])
  }

  // ---------- Invariant ----------

  /** Arguments of an index that has not opened go to block 0. */
  ghost predicate SentFor(tools: seq<Event>, x: Sent, o: Owed) {
    if o.call.Some? then Reaches(tools, x, o)
    else x.args == o.args && x.after == o.after <= |tools| && x.block == 0
  }

  ghost predicate MapsToOwners(m: map<int, int>, ds: seq<ToolDelta>, tools: seq<Event>) {
    && m.Keys == OpenedIn(ds)
    && forall k :: match OwnerOf(ds, k)
         case None => k !in m
         case Some(o) => o < |tools| && tools[o].ToolStart? && k in m && m[k] == tools[o].index
  }

  ghost predicate CallsTied(m: map<int, int>, ds: seq<ToolDelta>, tools: seq<Event>, sent: seq<Sent>) {
    && ToolsStarted(tools, Openings(ds)) && MapsToOwners(m, ds, tools)
    && |sent| == |Due(ds)|
    && (forall k :: 0 <= k < |sent| ==> SentFor(tools, sent[k], Due(ds)[k]))
    && (AllOpened(ds) <==> AllCalled(Due(ds)))
  }

  ghost predicate Tied(s: Conv, ds: seq<ToolDelta>, text: string, l: Log) {
    && l.text == text && l.fits && (s.blockStarted ==> IsTextBlock(l.last, s.blockIndex))
    && CallsTied(s.toolIdx, ds, l.tools, l.sent)
  }

  ghost predicate AllCalled(due: seq<Owed>) {
    forall k :: 0 <= k < |due| ==> due[k].call.Some?
  }

  lemma AllCalledSnoc(due: seq<Owed>, o: Owed)
    ensures AllCalled(due + [o]) <==> AllCalled(due) && o.call.Some?
  {
    if AllCalled(due + [o]) {
      forall k | 0 <= k < |due| ensures due[k].call.Some? {
        assert (due + [o])[k] == due[k];
      }
      assert (due + [o])[|due|] == o;
    }
  }

  // ---------- One call ----------

  function LogOpen(s: Conv, l: Log, d: ToolDelta): Log {
    var start := ToolStart(NewBlock(s), d.id, d.name);
    l.(tools := l.tools + [start], last := Some(start))
  }

  function LogArgs(m: map<int, int>, l: Log, d: ToolDelta): Log {
    if d.args == "" then l else l.(sent := l.sent + [Sent(BlockOf(m, d.index), d.args, |l.tools|)])
  }

  lemma LogOpening(s: Conv, l: Log, d: ToolDelta)
    ensures LogAll(l, OpenTool(s, d).1) == LogOpen(s, l, d)
    ensures OpenTool(s, d).0 == AfterOpen(s, d.index)
  {
    var (a, e1) := CloseText(s);
    var (b, e2) := CloseTool(a, d.index);
    var e3 := [ToolStart(b.blockIndex, d.id, d.name)];
    FoldAppend(LogStep, l, e1 + e2, e3);
    FoldAppend(LogStep, l, e1, e2);
    FoldAtMostOne(LogStep, l, e1);
    FoldAtMostOne(LogStep, LogAll(l, e1), e2);
    FoldAtMostOne(LogStep, LogAll(l, e1 + e2), e3);
  }

  lemma LogCall(s: Conv, l: Log, d: ToolDelta)
    ensures LogAll(l, OnCall(s, d).1) ==
      if Opens(d) then LogArgs(AfterOpen(s, d.index).toolIdx, LogOpen(s, l, d), d) else LogArgs(s.toolIdx, l, d)
  {
    if Opens(d) {
      LogOpening(s, l, d);
      var (s1, e1) := OpenTool(s, d);
      FoldAppend(LogStep, l, e1, OnArgs(s1, d));
      FoldAtMostOne(LogStep, LogOpen(s, l, d), OnArgs(s1, d));
    } else {
      FoldAtMostOne(LogStep, l, OnArgs(s, d));
    }
  }

  /** The parts of a list of fragments that ends with `d`. */
  lemma LastFragment(ds: seq<ToolDelta>, d: ToolDelta)
    ensures Openings(ds + [d]) == Openings(ds) + (if Opens(d) then [Opening(d.id, d.name)] else [])
    ensures OpenedIn(ds + [d]) == OpenedIn(ds) + (if Opens(d) then {d.index} else {})
    ensures forall k :: OwnerOf(ds + [d], k) == if Opens(d) && d.index == k then Some(|Openings(ds)|)
      else OwnerOf(ds, k)
    ensures Due(ds + [d]) == Due(ds) +
      (if d.args == "" then [] else [Owed(OwnerOf(ds + [d], d.index), d.args, |Openings(ds + [d])|)])
    ensures AllOpened(ds + [d]) <==> AllOpened(ds) && (d.args != "" ==> d.index in OpenedIn(ds + [d]))
  {
    assert (ds + [d])[..|ds + [d]| - 1] == ds;
  }

  lemma OwnersOpened(s: Conv, ds: seq<ToolDelta>, d: ToolDelta, tools: seq<Event>)
    requires MapsToOwners(s.toolIdx, ds, tools) && |tools| == |Openings(ds)| && Opens(d)
    ensures MapsToOwners(AfterOpen(s, d.index).toolIdx, ds + [d], tools + [ToolStart(NewBlock(s), d.id, d.name)])
  {
    LastFragment(ds, d);
  }

  lemma SentStays(tools: seq<Event>, start: Event, x: Sent, o: Owed)
    requires SentFor(tools, x, o)
    ensures SentFor(tools + [start], x, o)
  {
  }

  /** The arguments of the last fragment. */
  lemma SentLast(m: map<int, int>, ds: seq<ToolDelta>, tools: seq<Event>, index: int, args: string)
    requires MapsToOwners(m, ds, tools) && |tools| == |Openings(ds)|
    ensures SentFor(tools, Sent(BlockOf(m, index), args, |tools|), Owed(OwnerOf(ds, index), args, |Openings(ds)|))
    ensures OwnerOf(ds, index).Some? <==> index in OpenedIn(ds)
  {
  }

  /** The part of a fragment that may open a call. */
  function Bare(d: ToolDelta): ToolDelta { d.(args := "") }

  lemma CallsOpened(s: Conv, ds: seq<ToolDelta>, d: ToolDelta, tools: seq<Event>, sent: seq<Sent>)
    requires CallsTied(s.toolIdx, ds, tools, sent) && Opens(d)
    ensures
      CallsTied(AfterOpen(s, d.index).toolIdx, ds + [Bare(d)], tools + [ToolStart(NewBlock(s), d.id, d.name)], sent)
  {
    LastFragment(ds, Bare(d));
    OwnersOpened(s, ds, Bare(d), tools);
    forall k | 0 <= k < |sent|
      ensures SentFor(tools + [ToolStart(NewBlock(s), d.id, d.name)], sent[k], Due(ds)[k])
    {
      SentStays(tools, ToolStart(NewBlock(s), d.id, d.name), sent[k], Due(ds)[k]);
    }
  }

  lemma CallsUnopened(m: map<int, int>, ds: seq<ToolDelta>, d: ToolDelta, tools: seq<Event>, sent: seq<Sent>)
    requires CallsTied(m, ds, tools, sent) && !Opens(d)
    ensures CallsTied(m, ds + [Bare(d)], tools, sent)
  {
    LastFragment(ds, Bare(d));
  }

  lemma SameButArgs(ds: seq<ToolDelta>, d: ToolDelta)
    ensures Openings(ds + [d]) == Openings(ds + [Bare(d)]) && OpenedIn(ds + [d]) == OpenedIn(ds + [Bare(d)])
    ensures forall k :: OwnerOf(ds + [d], k) == OwnerOf(ds + [Bare(d)], k)
    ensures Due(ds + [Bare(d)]) == Due(ds) && (AllOpened(ds + [Bare(d)]) <==> AllOpened(ds))
  {
    LastFragment(ds, d);
    LastFragment(ds, Bare(d));
  }

  lemma CallsArgs(m: map<int, int>, ds: seq<ToolDelta>, d: ToolDelta, tools: seq<Event>, sent: seq<Sent>)
    requires CallsTied(m, ds + [Bare(d)], tools, sent)
    ensures CallsTied(m, ds + [d], tools,
                      if d.args == "" then sent else sent + [Sent(BlockOf(m, d.index), d.args, |tools|)])
  {
    SameButArgs(ds, d);
    if d.args == "" {
      assert Bare(d) == d;
    } else {
      LastFragment(ds, d);
      SentLast(m, ds + [d], tools, d.index, d.args);
      AllCalledSnoc(Due(ds), Owed(OwnerOf(ds + [d], d.index), d.args, |Openings(ds + [d])|));
    }
  }

  lemma TiedCall(s: Conv, ds: seq<ToolDelta>, text: string, l: Log, d: ToolDelta)
    requires Tied(s, ds, text, l)
    ensures Tied(OnCall(s, d).0, ds + [d], text, LogAll(l, OnCall(s, d).1))
  {
    LogCall(s, l, d);
    if Opens(d) {
      LogOpening(s, l, d);
      CallsOpened(s, ds, d, l.tools, l.sent);
      CallsArgs(AfterOpen(s, d.index).toolIdx, ds, d, LogOpen(s, l, d).tools, l.sent);
    } else {
      CallsUnopened(s.toolIdx, ds, d, l.tools, l.sent);
      CallsArgs(s.toolIdx, ds, d, l.tools, l.sent);
    }
  }

  lemma {:induction false} TiedCalls(s: Conv, ds: seq<ToolDelta>, calls: seq<ToolDelta>, text: string, l: Log)
    requires Tied(s, ds, text, l)
    ensures
      var j := Pipe(OnCall, LogStep, (s, l), calls);
      Tied(j.0, ds + calls, text, j.1)
  {
    if calls == [] {
      assert ds + calls == ds;
    } else {
      var n := |calls| - 1;
      TiedCalls(s, ds, calls[..n], text, l);
      var j := Pipe(OnCall, LogStep, (s, l), calls[..n]);
      TiedCall(j.0, ds + calls[..n], text, j.1, calls[n]);
      SplitLast(ds, calls);
    }
  }

  // ---------- One chunk ----------

  lemma TiedStart(s: Conv, id: string, ds: seq<ToolDelta>, text: string, l: Log)
    requires Tied(s, ds, text, l)
    ensures Tied(EnsureStart(s, id).0, ds, text, LogAll(l, EnsureStart(s, id).1))
  {
    FoldAtMostOne(LogStep, l, EnsureStart(s, id).1);
  }

  /** The log after the events of a text. */
  function LogText(s: Conv, l: Log, content: string): Log {
    var last := if s.blockStarted then l.last else Some(TextStart(s.blockIndex, ""));
    l.(text := l.text + content, last := last, fits := l.fits && IsTextBlock(last, s.blockIndex))
  }

  lemma LogTextEvents(s: Conv, id: string, content: string, l: Log)
    requires content != ""
    ensures
      var (s1, es) := EnsureStart(s, id);
      && OnText(s, id, content).0 == s1.(blockStarted := true)
      && LogAll(l, OnText(s, id, content).1) == LogText(s1, LogAll(l, es), content)
  {
    var (s1, es) := EnsureStart(s, id);
    var start := if s1.blockStarted then [] else [TextStart(s1.blockIndex, "")];
    var delta := [TextDelta(s1.blockIndex, content)];
    FoldAppend(LogStep, l, es + start, delta);
    FoldAppend(LogStep, l, es, start);
    FoldAtMostOne(LogStep, LogAll(l, es), start);
    FoldAtMostOne(LogStep, LogAll(l, es + start), delta);
  }

  lemma TiedText(s: Conv, id: string, content: string, ds: seq<ToolDelta>, text: string, l: Log)
    requires Tied(s, ds, text, l)
    ensures Tied(OnText(s, id, content).0, ds, text + content, LogAll(l, OnText(s, id, content).1))
  {
    if content == "" {
      assert text + content == text;
    } else {
      TiedStart(s, id, ds, text, l);
      LogTextEvents(s, id, content, l);
    }
  }

  lemma TiedToolCalls(s: Conv, id: string, ds: seq<ToolDelta>, calls: seq<ToolDelta>, text: string, l: Log)
    requires Tied(s, ds, text, l)
    ensures Tied(OnToolCalls(s, id, calls).0, ds + calls, text, LogAll(l, OnToolCalls(s, id, calls).1))
  {
    if calls == [] {
      assert ds + calls == ds;
    } else {
      var (s1, e1) := EnsureStart(s, id);
      TiedStart(s, id, ds, text, l);
      TiedCalls(s1, ds, calls, text, LogAll(l, e1));
      PipeIsRunThenFold(OnCall, LogStep, s1, LogAll(l, e1), calls);
      FoldAppend(LogStep, l, e1, OnCalls(s1, calls).1);
    }
  }

  predicate Unlogged(e: Event) {
    e.BlockStop? || e.MessageDelta? || e.MessageStop?
  }

  lemma {:induction false} LogSkips(l: Log, es: seq<Event>)
    requires forall e :: e in es ==> Unlogged(e)
    ensures LogAll(l, es) == l
  {
    if es != [] {
      LogSkips(l, es[..|es| - 1]);
      assert es[|es| - 1] in es;
    }
  }

  lemma TiedFinish(s: Conv, finish: string, ds: seq<ToolDelta>, text: string, l: Log)
    requires Tied(s, ds, text, l)
    ensures Tied(OnFinish(s, finish).0, ds, text, LogAll(l, OnFinish(s, finish).1))
  {
    LogSkips(l, OnFinish(s, finish).1);
  }

  lemma TiedChunk(s: Conv, ds: seq<ToolDelta>, text: string, l: Log, c: Chunk)
    requires Tied(s, ds, text, l) && c.Chunk?
    ensures Tied(OnChunk(s, c).0, ds + c.calls, text + c.content, LogAll(l, OnChunk(s, c).1))
  {
    var (s1, e1) := OnRole(s, c.id, c.role);
    if c.role != "" {
      TiedStart(s, c.id, ds, text, l);
    }
    var l1 := LogAll(l, e1);
    var (s2, e2) := OnText(s1, c.id, c.content);
    TiedText(s1, c.id, c.content, ds, text, l1);
    var l2 := LogAll(l1, e2);
    var (s3, e3) := OnToolCalls(s2, c.id, c.calls);
    TiedToolCalls(s2, c.id, ds, c.calls, text + c.content, l2);
    var l3 := LogAll(l2, e3);
    TiedFinish(s3, c.finish, ds + c.calls, text + c.content, l3);
    FoldAppend(LogStep, l, e1 + e2 + e3, OnFinish(s3, c.finish).1);
    FoldAppend(LogStep, l, e1 + e2, e3);
    FoldAppend(LogStep, l, e1, e2);
  }

  lemma {:induction false} CallsKeepText(r: Reply, ds: seq<ToolDelta>)
    ensures AddCalls(r, ds).text == r.text
  {
    if ds != [] {
      CallsKeepText(r, ds[..|ds| - 1]);
    }
  }

  lemma {:induction false} TiedStream(cs: seq<Chunk>)
    ensures
      var j := Pipe(OnChunk, LogStep, (FRESH, BLANK), cs);
      Tied(j.0, Deltas(cs), ReadChunks(EMPTY, cs).text, j.1)
  {
    if cs != [] {
      var n := |cs| - 1;
      TiedStream(cs[..n]);
      var j, r := Pipe(OnChunk, LogStep, (FRESH, BLANK), cs[..n]), ReadChunks(EMPTY, cs[..n]);
      if cs[n].NoChoices? {
        assert Deltas(cs) == Deltas(cs[..n]);
      } else {
        TiedChunk(j.0, Deltas(cs[..n]), r.text, j.1, cs[n]);
        CallsKeepText(r.(text := r.text + cs[n].content), cs[n].calls);
      }
    }
  }

  // ---------- Main results ----------

  /** The text deltas spell the text of the chunks, and each goes to the block started last, a text block. */
  lemma TextIsDelivered(cs: seq<Chunk>)
    ensures Logged(Events(cs)).text == ReadChunks(EMPTY, cs).text
    ensures Logged(Events(cs)).fits
  {
    TiedStream(cs);
    PipeIsRunThenFold(OnChunk, LogStep, FRESH, BLANK, cs);
  }

  /** Every call gets a block of its own, and all arguments reach the block of their call, exactly when
      they only come for indices that have opened: the others go to block 0. */
  lemma ArgumentsDeliveredIff(cs: seq<Chunk>)
    ensures ToolsStarted(Logged(Events(cs)).tools, Openings(Deltas(cs)))
    ensures Delivered(Events(cs), Deltas(cs)) <==> AllOpened(Deltas(cs))
  {
    TiedStream(cs);
    PipeIsRunThenFold(OnChunk, LogStep, FRESH, BLANK, cs);
    var l, due := Logged(Events(cs)), Due(Deltas(cs));
    if Delivered(Events(cs), Deltas(cs)) {
      forall k | 0 <= k < |due| ensures due[k].call.Some? {
        assert Reaches(l.tools, l.sent[k], due[k]);
      }
    }
    assert forall k :: 0 <= k < |l.sent| ==> SentFor(l.tools, l.sent[k], due[k]);
  }

  /** Arguments before any opening are sent to a block that never starts. */
  lemma OrphanArguments()
    ensures
      var cs := [Chunk("id", "", "", [ToolDelta(0, "", "", "x")], "")];
      && Events(cs) == [MessageStart("id"), JsonDelta(0, "x")]
      && !Delivered(Events(cs), Deltas(cs))
  {
    var d := ToolDelta(0, "", "", "x");
    var c := Chunk("id", "", "", [d], "");
    var cs := [c];
    assert cs[..0] == [] && [d][..0] == [];
    assert OnCall(FRESH.(msgStarted := true), d).1 == [JsonDelta(0, "x")];
    assert Run(OnCall, FRESH.(msgStarted := true), [d][..0]) == (FRESH.(msgStarted := true), []);
    assert OnCalls(FRESH.(msgStarted := true), [d]).1 == [JsonDelta(0, "x")];
    assert OnChunk(FRESH, c).1 == [MessageStart("id"), JsonDelta(0, "x")];
    assert Deltas(cs) == [d];
    assert OpenedIn([d]) == {} && !AllOpened([d]);
    ArgumentsDeliveredIff(cs);
  }

  // ---------- The start of the message ----------

  /** The identifiers of the message starts, in order. */
  function Starts(es: seq<Event>): seq<string> {
    if es == [] then [] else
    var e := es[|es| - 1];
    Starts(es[..|es| - 1]) + if e.MessageStart? then [e.msgId] else []
  }

  /** A chunk with a role, text or calls starts the message. */
  predicate Speaks(c: Chunk) {
    c.Chunk? && (c.role != "" || c.content != "" || c.calls != [])
  }

  /** The identifier of the first chunk that does. */
  function FirstSpeaker(cs: seq<Chunk>): seq<string> {
    if cs == [] then [] else
    var front, c := FirstSpeaker(cs[..|cs| - 1]), cs[|cs| - 1];
    if front == [] && Speaks(c) then [c.id] else front
  }

  lemma {:induction false} StartsAppend(a: seq<Event>, b: seq<Event>)
    ensures Starts(a + b) == Starts(a) + Starts(b)
  {
    if b == [] {
      assert a + b == a;
    } else {
      assert (a + b)[..|a + b| - 1] == a + b[..|b| - 1];
      StartsAppend(a, b[..|b| - 1]);
    }
  }

  lemma {:induction false} NoStarts(es: seq<Event>)
    requires forall e :: e in es ==> !e.MessageStart?
    ensures Starts(es) == []
  {
    if es != [] {
      assert es == es[..|es| - 1] + [es[|es| - 1]];
      NoStarts(es[..|es| - 1]);
    }
  }

  lemma CallStartsNothing(s: Conv, call: ToolDelta)
    ensures Starts(OnCall(s, call).1) == [] && OnCall(s, call).0.msgStarted == s.msgStarted
  {
    NoStarts(OnCall(s, call).1);
  }

  lemma {:induction false} CallsStartNothing(s: Conv, calls: seq<ToolDelta>)
    ensures Starts(OnCalls(s, calls).1) == [] && OnCalls(s, calls).0.msgStarted == s.msgStarted
  {
    if calls != [] {
      var n := |calls| - 1;
      CallsStartNothing(s, calls[..n]);
      var (m, es) := OnCalls(s, calls[..n]);
      StartsAppend(es, OnCall(m, calls[n]).1);
      CallStartsNothing(m, calls[n]);
    }
  }

  /** What the parts of a chunk start. */
  function Opened(s: Conv, id: string, speaks: bool): seq<string> {
    if speaks && !s.msgStarted then [id] else []
  }

  lemma OneStart(s: Conv, id: string)
    ensures Starts(EnsureStart(s, id).1) == Opened(s, id, true) && EnsureStart(s, id).0.msgStarted
  {
    var es := EnsureStart(s, id).1;
    assert es != [] ==> es[..0] == [];
  }

  lemma RoleStarts(s: Conv, id: string, role: string)
    ensures Starts(OnRole(s, id, role).1) == Opened(s, id, role != "")
    ensures OnRole(s, id, role).0.msgStarted == (s.msgStarted || role != "")
  {
    OneStart(s, id);
  }

  lemma TextStarts(s: Conv, id: string, content: string)
    ensures Starts(OnText(s, id, content).1) == Opened(s, id, content != "")
    ensures OnText(s, id, content).0.msgStarted == (s.msgStarted || content != "")
  {
    OneStart(s, id);
    var (s1, e1) := EnsureStart(s, id);
    var start := if s1.blockStarted then [] else [TextStart(s1.blockIndex, "")];
    NoStarts(start);
    NoStarts([TextDelta(s1.blockIndex, content)]);
    StartsAppend(e1 + start, [TextDelta(s1.blockIndex, content)]);
    StartsAppend(e1, start);
  }

  lemma ToolCallsStart(s: Conv, id: string, calls: seq<ToolDelta>)
    ensures Starts(OnToolCalls(s, id, calls).1) == Opened(s, id, calls != [])
    ensures OnToolCalls(s, id, calls).0.msgStarted == (s.msgStarted || calls != [])
  {
    OneStart(s, id);
    var (s1, e1) := EnsureStart(s, id);
    CallsStartNothing(s1, calls);
    StartsAppend(e1, OnCalls(s1, calls).1);
  }

  lemma FinishStarts(s: Conv, finish: string)
    ensures Starts(OnFinish(s, finish).1) == [] && OnFinish(s, finish).0.msgStarted == s.msgStarted
  {
    NoStarts(OnFinish(s, finish).1);
  }

  lemma ChunkStarts(s: Conv, c: Chunk)
    ensures Starts(OnChunk(s, c).1) == if Speaks(c) && !s.msgStarted then [c.id] else []
    ensures OnChunk(s, c).0.msgStarted == (s.msgStarted || Speaks(c))
  {
    if c.Chunk? {
      var (s1, e1) := OnRole(s, c.id, c.role);
      var (s2, e2) := OnText(s1, c.id, c.content);
      var (s3, e3) := OnToolCalls(s2, c.id, c.calls);
      var (s4, e4) := OnFinish(s3, c.finish);
      hide OnRole, OnText, OnToolCalls, OnFinish;
      RoleStarts(s, c.id, c.role);
      TextStarts(s1, c.id, c.content);
      ToolCallsStart(s2, c.id, c.calls);
      FinishStarts(s3, c.finish);
      StartsAppend(e1 + e2 + e3, e4);
      StartsAppend(e1 + e2, e3);
      StartsAppend(e1, e2);
    }
  }

  lemma {:induction false} StartsOfStream(cs: seq<Chunk>)
    ensures Starts(Events(cs)) == FirstSpeaker(cs)
    ensures ToAnthropic(FRESH, cs).0.msgStarted <==> FirstSpeaker(cs) != []
  {
    if cs != [] {
      var n := |cs| - 1;
      StartsOfStream(cs[..n]);
      var (s, es) := ToAnthropic(FRESH, cs[..n]);
      ChunkStarts(s, cs[n]);
      StartsAppend(es, OnChunk(s, cs[n]).1);
    }
  }

  /** For every chunk stream: the message is started once, under the identifier of the first chunk that has a
      role, text or calls, and not at all if there is none. */
  lemma StartCarriesId(cs: seq<Chunk>)
    ensures Starts(Events(cs)) == FirstSpeaker(cs) && |FirstSpeaker(cs)| <= 1
  {
    StartsOfStream(cs);
    OneSpeaker(cs);
  }

  lemma {:induction false} OneSpeaker(cs: seq<Chunk>)
    ensures |FirstSpeaker(cs)| <= 1
  {
    if cs != [] {
      OneSpeaker(cs[..|cs| - 1]);
    }
  }

  /** For every event stream that starts the message first and once: the first frame carries the identifier and
      the assistant's role, every later one no role and the clock's identifier. */
  lemma {:induction false} RoleComesFirst(es: seq<Event>, clockId: string)
    requires es != [] && es[0].MessageStart? && forall i :: 0 < i < |es| ==> !es[i].MessageStart?
    ensures
      var fs := Frames(es, clockId);
      && fs != [] && fs[0] == Data(Chunk(if es[0].msgId == "" then clockId else es[0].msgId, "assistant", "", [], ""))
      && forall i :: 0 < i < |fs| && fs[i].Data? && fs[i].chunk.Chunk? ==>
        fs[i].chunk.role == "" && fs[i].chunk.id == clockId
    decreases |es|
  {
    var n := |es| - 1;
    var (m, fs) := Run(EventStep(clockId), map[], es[..n]);
    if n == 0 {
      assert es[..0] == [];
      assert Frames(es, clockId) == [] + OnEvent(map[], es[0], clockId).1;
    } else {
      RoleComesFirst(es[..n], clockId);
      assert Frames(es, clockId) == fs + OnEvent(m, es[n], clockId).1;
    }
  }

  /** The closing frame comes exactly for the end of a message, and last if that comes last. */
  lemma {:induction false} DoneIff(es: seq<Event>, clockId: string)
    ensures
      var fs := Frames(es, clockId);
      && (Done in fs <==> MessageStop in es)
      && (es != [] && es[|es| - 1] == MessageStop ==> fs != [] && fs[|fs| - 1] == Done)
    decreases |es|
  {
    if es != [] {
      var init, last := es[..|es| - 1], es[|es| - 1];
      DoneIff(init, clockId);
      var (m, fs) := Run(EventStep(clockId), map[], init);
      assert Frames(es, clockId) == fs + OnEvent(m, last, clockId).1;
      assert es == init + [last];
    }
  }
}
