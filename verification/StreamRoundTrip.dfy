/** What a client of an OpenAI stream reads out of it: the text, the tool calls
    in the order in which they open, and the finish reason. */
module ClientReply {
  import opened Folds
  import opened StreamConverter

  datatype Call = Call(id: string, name: string, args: string)

  /** `slot` maps a tool index to the position of its call. */
  datatype Reply = Reply(text: string, calls: seq<Call>, slot: map<int, int>, finish: string)

  const EMPTY := Reply("", [], map[], "")

  function Append(calls: seq<Call>, k: int, args: string): seq<Call> {
    if 0 <= k < |calls| then calls[k := calls[k].(args := calls[k].args + args)] else calls
  }

  /** A fragment extends the call of its index; the first complete fragment of an
      index creates the call; a fragment of an index never opened is ignored. */
  function AddCall(r: Reply, d: ToolDelta): Reply {
    if d.index in r.slot then
      r.(calls := Append(r.calls, r.slot[d.index], d.args))
    else if Opens(d) then
      r.(calls := r.calls + [Call(d.id, d.name, d.args)], slot := r.slot[d.index := |r.calls|])
    else
      r
  }

  function AddCalls(r: Reply, ds: seq<ToolDelta>): Reply {
    Fold(AddCall, r, ds)
  }

  function AddFinish(r: Reply, finish: string): Reply {
    if finish == "" then r else r.(finish := finish)
  }

  function AddChunk(r: Reply, c: Chunk): Reply {
    if c.NoChoices? then r
    else AddFinish(AddCalls(r.(text := r.text + c.content), c.calls), c.finish)
  }

  function ReadChunks(r: Reply, cs: seq<Chunk>): Reply {
    Fold(AddChunk, r, cs)
  }

  function ReadFrame(r: Reply, f: Frame): Reply {
    if f.Done? then r else AddChunk(r, f.chunk)
  }

  function ReadFrames(r: Reply, fs: seq<Frame>): Reply {
    Fold(ReadFrame, r, fs)
  }

  /** The characters of all arguments together. */
  function Volume(calls: seq<Call>): nat {
    if calls == [] then 0 else Volume(calls[..|calls| - 1]) + |calls[|calls| - 1].args|
  }

  lemma {:induction false} VolumeAppend(calls: seq<Call>, k: int, args: string)
    requires 0 <= k < |calls|
    ensures Volume(Append(calls, k, args)) == Volume(calls) + |args|
  {
    var n := |calls| - 1;
    if k < n {
      VolumeAppend(calls[..n], k, args);
      assert Append(calls, k, args)[..n] == Append(calls[..n], k, args);
    } else {
      assert Append(calls, k, args)[..n] == calls[..n];
    }
  }
}

/** OpenAI to Anthropic to OpenAI: what survives, for every chunk stream. */
module StreamRoundTrip {
  import opened Folds
  import opened StreamConverter
  import opened ClientReply

  /** All tool fragments of a stream, in order. */
  function Deltas(cs: seq<Chunk>): seq<ToolDelta> {
    if cs == [] then [] else
    var c := cs[|cs| - 1];
    Deltas(cs[..|cs| - 1]) + (if c.NoChoices? then [] else c.calls)
  }

  function OpenedIn(ds: seq<ToolDelta>): set<int> {
    if ds == [] then {} else
    var d := ds[|ds| - 1];
    OpenedIn(ds[..|ds| - 1]) + (if Opens(d) then {d.index} else {})
  }

  /** No index opens twice, and once a call has opened, arguments only come for
      indices that have opened. */
  predicate Disciplined(ds: seq<ToolDelta>) {
    ds == [] ||
    var d := ds[|ds| - 1];
    var seen := OpenedIn(ds[..|ds| - 1]);
    && Disciplined(ds[..|ds| - 1])
    && (Opens(d) ==> d.index !in seen)
    && (!Opens(d) && d.args != "" ==> d.index in seen || seen == {})
  }

  function Roundtrip(cs: seq<Chunk>, clockId: string): Reply {
    ReadFrames(EMPTY, Frames(Events(cs), clockId))
  }

  // ---------- The two ends of the pipeline, advanced together ----------

  /** The back converter's map and the reply its client has read. */
  datatype Sink = Sink(map0: map<int, int>, reply: Reply)

  const EMPTY_SINK := Sink(map[], EMPTY)

  function FeedOne(p: Sink, e: Event, k: string): Sink {
    var (m, fs) := OnEvent(p.map0, e, k);
    Sink(m, if fs == [] then p.reply else ReadFrame(p.reply, fs[0]))
  }

  function FeedStep(k: string): (Sink, Event) -> Sink {
    (p, e) => FeedOne(p, e, k)
  }

  function Feed(p: Sink, es: seq<Event>, k: string): Sink {
    Fold(FeedStep(k), p, es)
  }

  lemma FeedAppend(p: Sink, e1: seq<Event>, e2: seq<Event>, k: string)
    ensures Feed(p, e1 + e2, k) == Feed(Feed(p, e1, k), e2, k)
  {
    FoldAppend(FeedStep(k), p, e1, e2);
  }

  lemma FeedSingle(p: Sink, e: Event, k: string)
    ensures Feed(p, [e], k) == FeedOne(p, e, k)
  {
    FoldOne(FeedStep(k), p, e);
  }

  lemma {:induction false} FeedIsFrames(es: seq<Event>, k: string)
    ensures Feed(EMPTY_SINK, es, k) ==
      Sink(Run(EventStep(k), map[], es).0, ReadFrames(EMPTY, Frames(es, k)))
  {
    if es != [] {
      var n := |es| - 1;
      FeedIsFrames(es[..n], k);
      var (m, fs) := Run(EventStep(k), map[], es[..n]);
      var more := OnEvent(m, es[n], k).1;
      FoldAppend(ReadFrame, EMPTY, fs, more);
      if more != [] {
        FoldOne(ReadFrame, ReadFrames(EMPTY, fs), more[0]);
        assert more == [more[0]];
      }
    }
  }

  predicate Silent(e: Event) {
    e.MessageStart? || e.TextStart? || e.OtherStart? || e.OtherDelta? || e.BlockStop? || e.MessageStop? || e.Ping?
  }

  lemma {:induction false} FeedSilent(p: Sink, es: seq<Event>, k: string)
    requires forall e :: e in es ==> Silent(e)
    ensures Feed(p, es, k) == p
  {
    if es != [] {
      var n := |es| - 1;
      assert es == es[..n] + [es[n]];
      FeedSilent(p, es[..n], k);
      FeedAppend(p, es[..n], [es[n]], k);
      FeedSingle(p, es[n], k);
      assert Silent(es[n]);
    }
  }

  /** Silent events, then one that is heard. */
  lemma FeedLast(p: Sink, es: seq<Event>, e: Event, k: string)
    requires forall x :: x in es ==> Silent(x)
    ensures Feed(p, es + [e], k) == FeedOne(p, e, k)
  {
    FeedAppend(p, es, [e], k);
    FeedSilent(p, es, k);
    FeedSingle(p, e, k);
  }

  // ---------- The invariant ----------

  /** Every opened index has a block, every such block has a call number, and call
      numbers are the positions of the calls that the far client has read. */
  ghost predicate Wired(s: Conv, seen: set<int>, near: Reply, p: Sink) {
    && WiredNear(s.toolIdx, seen, near, p.map0)
    && WiredFar(s.blockIndex, p)
    && (p.reply.calls == [] <==> seen == {})
  }

  ghost predicate WiredNear(toolIdx: map<int, int>, seen: set<int>, near: Reply, m: map<int, int>) {
    && toolIdx.Keys == seen == near.slot.Keys
    && (forall i :: i in toolIdx ==> toolIdx[i] in m)
    && (forall i :: i in near.slot ==> 0 <= near.slot[i] < |near.calls|)
  }

  ghost predicate WiredFar(blockIndex: int, p: Sink) {
    && |p.map0| == |p.reply.calls|
    && (forall b :: b in p.map0 ==> b < blockIndex && 0 <= p.map0[b] < |p.reply.calls|)
    && (forall j :: j in p.reply.slot <==> 0 <= j < |p.reply.calls|)
    && (forall j :: j in p.reply.slot ==> p.reply.slot[j] == j)
  }

  /** Both clients hold the same calls as long as the stream is disciplined; afterwards
      the far client has more calls or longer arguments, for good. */
  ghost predicate SameCalls(s: Conv, disciplined: bool, near: Reply, p: Sink) {
    && |near.calls| <= |p.reply.calls|
    && Volume(near.calls) <= Volume(p.reply.calls)
    && (disciplined ==> near.calls == p.reply.calls)
    && (disciplined ==> forall i ::
          i in near.slot && i in s.toolIdx && s.toolIdx[i] in p.map0 ==> p.map0[s.toolIdx[i]] == near.slot[i])
    && (!disciplined ==> |near.calls| < |p.reply.calls| || Volume(near.calls) < Volume(p.reply.calls))
  }

  // ---------- One tool fragment ----------

  /** The far side once a call has opened there. */
  function FarOpen(p: Sink, block: int, d: ToolDelta): Sink {
    Sink(p.map0[block := |p.map0|],
         p.reply.(calls := p.reply.calls + [Call(d.id, d.name, "")],
                  slot := p.reply.slot[|p.reply.calls| := |p.reply.calls|]))
  }

  /** The far side once an argument fragment has arrived. */
  function FarArgs(p: Sink, block: int, args: string): Sink {
    p.(reply := AddCall(p.reply, ToolDelta(BlockOf(p.map0, block), "", "", args)))
  }

  lemma FarToolStart(p: Sink, block: int, d: ToolDelta, k: string)
    requires Opens(d) && block !in p.map0
    requires |p.map0| == |p.reply.calls| && |p.reply.calls| !in p.reply.slot
    ensures FeedOne(p, ToolStart(block, d.id, d.name), k) == FarOpen(p, block, d)
  {
    var td := ToolDelta(|p.map0|, d.id, d.name, "");
    FoldOne(AddCall, p.reply, td);
    assert p.reply.text + "" == p.reply.text;
  }

  lemma FarJson(p: Sink, block: int, args: string, k: string)
    ensures FeedOne(p, JsonDelta(block, args), k) == FarArgs(p, block, args)
  {
    var td := ToolDelta(BlockOf(p.map0, block), "", "", args);
    FoldOne(AddCall, p.reply, td);
    assert p.reply.text + "" == p.reply.text;
  }

  /** The block index that an opening call gets. */
  function NewBlock(s: Conv): int {
    if s.blockStarted then s.blockIndex + 1 else s.blockIndex
  }

  function AfterOpen(s: Conv, index: int): Conv {
    Conv(s.msgStarted, false, NewBlock(s) + 1, true, s.toolIdx[index := NewBlock(s)])
  }

  lemma FeedOpening(s: Conv, d: ToolDelta, p: Sink, k: string)
    requires Opens(d) && NewBlock(s) !in p.map0
    requires |p.map0| == |p.reply.calls| && |p.reply.calls| !in p.reply.slot
    ensures OpenTool(s, d).0 == AfterOpen(s, d.index)
    ensures Feed(p, OpenTool(s, d).1, k) == FarOpen(p, NewBlock(s), d)
  {
    var (a, e1) := CloseText(s);
    var (b, e2) := CloseTool(a, d.index);
    FeedLast(p, e1 + e2, ToolStart(b.blockIndex, d.id, d.name), k);
    FarToolStart(p, NewBlock(s), d, k);
  }

  lemma FeedArgs(s: Conv, d: ToolDelta, p: Sink, k: string)
    ensures Feed(p, OnArgs(s, d), k) ==
      if d.args == "" then p else FarArgs(p, BlockOf(s.toolIdx, d.index), d.args)
  {
    if d.args == "" {
      FeedSilent(p, OnArgs(s, d), k);
    } else {
      FeedSingle(p, JsonDelta(BlockOf(s.toolIdx, d.index), d.args), k);
      FarJson(p, BlockOf(s.toolIdx, d.index), d.args, k);
    }
  }

  /** What the near client does with the opening part of a fragment. */
  function NearOpen(r: Reply, d: ToolDelta): Reply {
    if d.index in r.slot then r
    else r.(calls := r.calls + [Call(d.id, d.name, "")], slot := r.slot[d.index := |r.calls|])
  }

  function NearArgs(r: Reply, index: int, args: string): Reply {
    if index in r.slot then r.(calls := Append(r.calls, r.slot[index], args)) else r
  }

  lemma NearSplit(r: Reply, d: ToolDelta)
    requires forall i :: i in r.slot ==> 0 <= r.slot[i] < |r.calls|
    ensures AddCall(r, d) == NearArgs(if Opens(d) then NearOpen(r, d) else r, d.index, d.args)
  {
    if Opens(d) && d.index !in r.slot {
      assert "" + d.args == d.args;
      assert Append(r.calls + [Call(d.id, d.name, "")], |r.calls|, d.args) == r.calls + [Call(d.id, d.name, d.args)];
    }
  }

  lemma NearNothing(r: Reply, index: int)
    ensures NearArgs(r, index, "") == r
  {
    if index in r.slot && 0 <= r.slot[index] < |r.calls| {
      var c := r.calls[r.slot[index]];
      assert c.args + "" == c.args;
    }
  }

  lemma WiredNearOpening(m: map<int, int>, seen: set<int>, d: ToolDelta, near: Reply, far: map<int, int>, block: int)
    requires WiredNear(m, seen, near, far)
    ensures WiredNear(m[d.index := block], seen + {d.index}, NearOpen(near, d), far[block := |far|])
  {
  }

  lemma WiredFarOpening(blockIndex: int, block: int, d: ToolDelta, p: Sink)
    requires WiredFar(blockIndex, p) && blockIndex <= block
    ensures WiredFar(block + 1, FarOpen(p, block, d))
  {
  }

  lemma WiredOpening(s: Conv, seen: set<int>, d: ToolDelta, near: Reply, p: Sink)
    requires Wired(s, seen, near, p)
    ensures Wired(AfterOpen(s, d.index), seen + {d.index}, NearOpen(near, d), FarOpen(p, NewBlock(s), d))
  {
    WiredNearOpening(s.toolIdx, seen, d, near, p.map0, NewBlock(s));
    WiredFarOpening(s.blockIndex, NewBlock(s), d, p);
  }

  lemma SameCallsOpening(s: Conv, seen: set<int>, disciplined: bool, d: ToolDelta, near: Reply, p: Sink)
    requires Wired(s, seen, near, p) && SameCalls(s, disciplined, near, p)
    ensures SameCalls(AfterOpen(s, d.index), disciplined && d.index !in seen, NearOpen(near, d),
      FarOpen(p, NewBlock(s), d))
  {
    var far := p.reply.calls + [Call(d.id, d.name, "")];
    assert far[..|p.reply.calls|] == p.reply.calls;
    if d.index !in near.slot {
      var calls := near.calls + [Call(d.id, d.name, "")];
      assert calls[..|near.calls|] == near.calls;
    }
  }

  lemma WiredArgs(s: Conv, seen: set<int>, d: ToolDelta, near: Reply, p: Sink)
    requires Wired(s, seen, near, p)
    ensures Wired(s, seen, NearArgs(near, d.index, d.args), FarArgs(p, BlockOf(s.toolIdx, d.index), d.args))
  {
  }

  lemma SameCallsArgs(s: Conv, seen: set<int>, disciplined: bool, d: ToolDelta, near: Reply, p: Sink)
    requires Wired(s, seen, near, p) && SameCalls(s, disciplined, near, p)
    requires d.args != ""
    ensures SameCalls(s, disciplined && (d.index in seen || seen == {}), NearArgs(near, d.index, d.args),
                      FarArgs(p, BlockOf(s.toolIdx, d.index), d.args))
  {
    var n := BlockOf(p.map0, BlockOf(s.toolIdx, d.index));
    if seen != {} {
      assert 0 <= n < |p.reply.calls|;
      VolumeAppend(p.reply.calls, n, d.args);
      if d.index in near.slot {
        VolumeAppend(near.calls, near.slot[d.index], d.args);
      }
    }
  }

  // ---------- Whole streams ----------

  /** The finish reason that comes back. */
  function Carried(finish: string): string {
    if finish == "" then "" else FinishReason(StopReason(finish))
  }

  ghost predicate Link(s: Conv, seen: set<int>, disciplined: bool, near: Reply, p: Sink) {
    && Wired(s, seen, near, p)
    && SameCalls(s, disciplined, near, p)
    && p.reply.text == near.text
    && p.reply.finish == Carried(near.finish)
  }

  ghost predicate Linked(s: Conv, ds: seq<ToolDelta>, near: Reply, p: Sink) {
    Link(s, OpenedIn(ds), Disciplined(ds), near, p)
  }

  lemma LinkOpen(s: Conv, seen: set<int>, disciplined: bool, d: ToolDelta, near: Reply, p: Sink, k: string)
    requires Link(s, seen, disciplined, near, p) && Opens(d)
    ensures Link(OpenTool(s, d).0, seen + {d.index}, disciplined && d.index !in seen,
                 NearOpen(near, d), Feed(p, OpenTool(s, d).1, k))
  {
    FeedOpening(s, d, p, k);
    WiredOpening(s, seen, d, near, p);
    SameCallsOpening(s, seen, disciplined, d, near, p);
  }

  lemma LinkArgs(s: Conv, seen: set<int>, disciplined: bool, d: ToolDelta, near: Reply, p: Sink, k: string)
    requires Link(s, seen, disciplined, near, p)
    ensures Link(s, seen, disciplined && (d.args == "" || d.index in seen || seen == {}),
                 NearArgs(near, d.index, d.args), Feed(p, OnArgs(s, d), k))
  {
    FeedArgs(s, d, p, k);
    if d.args == "" {
      NearNothing(near, d.index);
    } else {
      WiredArgs(s, seen, d, near, p);
      SameCallsArgs(s, seen, disciplined, d, near, p);
    }
  }

  lemma LinkCall(s: Conv, seen: set<int>, disciplined: bool, d: ToolDelta, near: Reply, p: Sink, k: string)
    requires Link(s, seen, disciplined, near, p)
    ensures Link(OnCall(s, d).0,
                 seen + (if Opens(d) then {d.index} else {}),
                 disciplined && (Opens(d) ==> d.index !in seen)
                             && (!Opens(d) && d.args != "" ==> d.index in seen || seen == {}),
                 AddCall(near, d), Feed(p, OnCall(s, d).1, k))
  {
    NearSplit(near, d);
    if Opens(d) {
      var (s1, e1) := OpenTool(s, d);
      LinkOpen(s, seen, disciplined, d, near, p, k);
      LinkArgs(s1, seen + {d.index}, disciplined && d.index !in seen, d, NearOpen(near, d), Feed(p, e1, k), k);
      FeedAppend(p, e1, OnArgs(s1, d), k);
    } else {
      LinkArgs(s, seen, disciplined, d, near, p, k);
      assert seen + {} == seen;
    }
  }

  lemma LinkedCall(s: Conv, ds: seq<ToolDelta>, d: ToolDelta, near: Reply, p: Sink, k: string)
    requires Linked(s, ds, near, p)
    ensures Linked(OnCall(s, d).0, ds + [d], AddCall(near, d), Feed(p, OnCall(s, d).1, k))
  {
    assert (ds + [d])[..|ds|] == ds;
    LinkCall(s, OpenedIn(ds), Disciplined(ds), d, near, p, k);
  }

  lemma {:induction false} PipedCalls(s: Conv, ds: seq<ToolDelta>, calls: seq<ToolDelta>, near: Reply, p: Sink,
      k: string)
    requires Linked(s, ds, near, p)
    ensures
      var j := Pipe(OnCall, FeedStep(k), (s, p), calls);
      Linked(j.0, ds + calls, AddCalls(near, calls), j.1)
  {
    if calls == [] {
      assert ds + calls == ds;
    } else {
      var n := |calls| - 1;
      PipedCalls(s, ds, calls[..n], near, p, k);
      var j := Pipe(OnCall, FeedStep(k), (s, p), calls[..n]);
      LinkedCall(j.0, ds + calls[..n], calls[n], AddCalls(near, calls[..n]), j.1, k);
      SplitLast(ds, calls);
    }
  }

  lemma LinkedCalls(s: Conv, ds: seq<ToolDelta>, calls: seq<ToolDelta>, near: Reply, p: Sink, k: string)
    requires Linked(s, ds, near, p)
    ensures Linked(OnCalls(s, calls).0, ds + calls, AddCalls(near, calls), Feed(p, OnCalls(s, calls).1, k))
  {
    PipedCalls(s, ds, calls, near, p, k);
    PipeIsRunThenFold(OnCall, FeedStep(k), s, p, calls);
  }

  lemma LinkedToolCalls(s: Conv, ds: seq<ToolDelta>, id: string, calls: seq<ToolDelta>, near: Reply, p: Sink, k: string)
    requires Linked(s, ds, near, p)
    ensures Linked(OnToolCalls(s, id, calls).0, ds + calls, AddCalls(near, calls),
      Feed(p, OnToolCalls(s, id, calls).1, k))
  {
    if calls == [] {
      assert ds + calls == ds;
      FeedSilent(p, [], k);
    } else {
      var (s1, e1) := EnsureStart(s, id);
      FeedSilent(p, e1, k);
      LinkedCalls(s1, ds, calls, near, p, k);
      FeedAppend(p, e1, OnCalls(s1, calls).1, k);
    }
  }

  lemma FeedText(s: Conv, id: string, content: string, p: Sink, k: string)
    requires content != ""
    ensures Feed(p, OnText(s, id, content).1, k) == p.(reply := p.reply.(text := p.reply.text + content))
  {
    var (s1, es) := EnsureStart(s, id);
    var start := if s1.blockStarted then [] else [TextStart(s1.blockIndex, "")];
    FeedLast(p, es + start, TextDelta(s1.blockIndex, content), k);
  }

  lemma LinkedText(s: Conv, ds: seq<ToolDelta>, id: string, content: string, near: Reply, p: Sink, k: string)
    requires Linked(s, ds, near, p)
    ensures Linked(OnText(s, id, content).0, ds, near.(text := near.text + content),
      Feed(p, OnText(s, id, content).1, k))
  {
    if content == "" {
      assert near.text + content == near.text;
      FeedSilent(p, [], k);
    } else {
      FeedText(s, id, content, p, k);
    }
  }

  lemma FeedFinish(s: Conv, finish: string, p: Sink, k: string)
    requires finish != ""
    ensures Feed(p, OnFinish(s, finish).1, k) == p.(reply := AddFinish(p.reply, FinishReason(StopReason(finish))))
  {
    var delta := MessageDelta(StopReason(finish));
    FeedLast(p, FinishStops(s), delta, k);
    assert OnFinish(s, finish).1 == (FinishStops(s) + [delta]) + [MessageStop];
    FeedAppend(p, FinishStops(s) + [delta], [MessageStop], k);
    FeedSilent(FeedOne(p, delta, k), [MessageStop], k);
    assert p.reply.text + "" == p.reply.text;
  }

  lemma LinkFinish(s: Conv, s1: Conv, seen: set<int>, disciplined: bool, near: Reply, p: Sink, n: string, f: string)
    requires Link(s, seen, disciplined, near, p)
    requires s1.toolIdx == s.toolIdx && s1.blockIndex == s.blockIndex && f == Carried(n)
    ensures Link(s1, seen, disciplined, near.(finish := n), p.(reply := p.reply.(finish := f)))
  {
  }

  lemma LinkedFinish(s: Conv, ds: seq<ToolDelta>, finish: string, near: Reply, p: Sink, k: string)
    requires Linked(s, ds, near, p)
    ensures Linked(OnFinish(s, finish).0, ds, AddFinish(near, finish), Feed(p, OnFinish(s, finish).1, k))
  {
    if finish == "" {
      FeedSilent(p, [], k);
    } else {
      FeedFinish(s, finish, p, k);
      LinkFinish(s, OnFinish(s, finish).0, OpenedIn(ds), Disciplined(ds), near, p, finish, Carried(finish));
      FinishNonEmpty(finish);
    }
  }

  lemma FinishNonEmpty(finish: string)
    ensures FinishReason(StopReason(finish)) != ""
  {
  }

  lemma LinkedChunk(s: Conv, ds: seq<ToolDelta>, c: Chunk, near: Reply, p: Sink, k: string)
    requires Linked(s, ds, near, p) && c.Chunk?
    ensures Linked(OnChunk(s, c).0, ds + c.calls, AddChunk(near, c), Feed(p, OnChunk(s, c).1, k))
  {
    var (s1, e1) := OnRole(s, c.id, c.role);
    var (s2, e2) := OnText(s1, c.id, c.content);
    var (s3, e3) := OnToolCalls(s2, c.id, c.calls);
    var (s4, e4) := OnFinish(s3, c.finish);
    FeedSilent(p, e1, k);
    LinkedText(s1, ds, c.id, c.content, near, p, k);
    var near2, p2 := near.(text := near.text + c.content), Feed(p, e2, k);
    LinkedToolCalls(s2, ds, c.id, c.calls, near2, p2, k);
    var near3, p3 := AddCalls(near2, c.calls), Feed(p2, e3, k);
    LinkedFinish(s3, ds + c.calls, c.finish, near3, p3, k);
    FeedAppend(p, e1 + e2 + e3, e4, k);
    FeedAppend(p, e1 + e2, e3, k);
    FeedAppend(p, e1, e2, k);
  }

  lemma {:induction false} PipedStream(cs: seq<Chunk>, k: string)
    ensures
      var j := Pipe(OnChunk, FeedStep(k), (FRESH, EMPTY_SINK), cs);
      Linked(j.0, Deltas(cs), ReadChunks(EMPTY, cs), j.1)
  {
    if cs != [] {
      var n := |cs| - 1;
      PipedStream(cs[..n], k);
      var j := Pipe(OnChunk, FeedStep(k), (FRESH, EMPTY_SINK), cs[..n]);
      if cs[n].NoChoices? {
        assert Deltas(cs) == Deltas(cs[..n]);
      } else {
        LinkedChunk(j.0, Deltas(cs[..n]), cs[n], ReadChunks(EMPTY, cs[..n]), j.1, k);
      }
    }
  }

  /** For every chunk stream: the text survives, the finish reason is carried, the calls
      come back numbered by opening order, and they are the same calls (identifier, name
      and full arguments) exactly when the tool fragments are disciplined. */
  lemma RoundTrip(cs: seq<Chunk>, clockId: string)
    ensures Roundtrip(cs, clockId).text == ReadChunks(EMPTY, cs).text
    ensures Roundtrip(cs, clockId).finish == Carried(ReadChunks(EMPTY, cs).finish)
    ensures Roundtrip(cs, clockId).calls == ReadChunks(EMPTY, cs).calls <==> Disciplined(Deltas(cs))
    ensures forall j :: j in Roundtrip(cs, clockId).slot <==> 0 <= j < |Roundtrip(cs, clockId).calls|
    ensures forall j :: j in Roundtrip(cs, clockId).slot ==> Roundtrip(cs, clockId).slot[j] == j
  {
    PipedStream(cs, clockId);
    PipeIsRunThenFold(OnChunk, FeedStep(clockId), FRESH, EMPTY_SINK, cs);
    FeedIsFrames(Events(cs), clockId);
  }

  /** Which reasons are told apart in each direction. */
  lemma ReasonsToldApart(finish: string, stop: string)
    ensures StopReason(finish) == "max_tokens" <==> finish == "length"
    ensures StopReason(finish) == "tool_use" <==> finish == "tool_calls"
    ensures StopReason(finish) == "end_turn" <==> finish != "length" && finish != "tool_calls"
    ensures FinishReason(stop) == "length" <==> stop == "max_tokens"
    ensures FinishReason(stop) == "tool_calls" <==> stop == "tool_use"
    ensures FinishReason(stop) == "content_filter" <==> stop == "refusal"
    ensures FinishReason(stop) == "stop" <==> stop != "max_tokens" && stop != "tool_use" && stop != "refusal"
  {
  }

  /** The finish reasons that come back unchanged. */
  lemma FinishSurvives(finish: string)
    ensures Carried(finish) == finish <==> finish in {"", "stop", "length", "tool_calls"}
  {
    if finish !in {"", "stop", "length", "tool_calls"} {
      assert StopReason(finish) == "end_turn";
    }
  }
}
