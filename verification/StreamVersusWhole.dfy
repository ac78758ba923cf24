/** Converting an Anthropic reply event by event against converting it whole. */
module StreamVersusWhole {
  import opened Folds
  import opened StreamConverter
  import opened ClientReply
  import opened StreamRoundTrip

  // ---------- The whole conversion ----------

  /** Tool input is kept as text; blocks of other types carry nothing that is converted. */
  datatype Block = TextBlock(text: string) | ToolBlock(id: string, name: string, input: string) | OtherBlock

  datatype Message = Message(content: seq<Block>, stop: string)

  datatype Content = Null | Text(text: string)

  datatype Response = Response(content: Content, calls: seq<Call>, finish: string)

  function WholeFinish(stop: string): string {
    match stop
    case "max_tokens" => "length"
    case "stop_sequence" => "stop"
    case "tool_use" => "tool_calls"
    case "end_turn" => "stop"
    case "refusal" => "content_filter"
    case _ => "stop"
  }

  function TextOf(content: seq<Block>): string {
    if content == [] then "" else
    var b := content[|content| - 1];
    TextOf(content[..|content| - 1]) + (if b.TextBlock? then b.text else "")
  }

  function CallsOf(content: seq<Block>): seq<Call> {
    if content == [] then [] else
    var b := content[|content| - 1];
    CallsOf(content[..|content| - 1]) + (if b.ToolBlock? then [Call(b.id, b.name, b.input)] else [])
  }

  function OrNull(text: string): Content {
    if text == "" then Null else Text(text)
  }

  method AnthropicToOpenAIResponse(src: Message) returns (dst: Response)
    ensures dst == Response(OrNull(TextOf(src.content)), CallsOf(src.content), WholeFinish(src.stop))
  {
    var contentText, toolCalls := "", [];
    var i := 0;
    while i < |src.content|
      invariant 0 <= i <= |src.content|
      invariant contentText == TextOf(src.content[..i])
      invariant toolCalls == CallsOf(src.content[..i])
    {
      assert src.content[..i + 1][..i] == src.content[..i];
      match src.content[i] {
        case TextBlock(t) => contentText := contentText + t;
        case ToolBlock(id, name, input) => toolCalls := toolCalls + [Call(id, name, input)];
        case OtherBlock =>
      }
      i := i + 1;
    }
    assert src.content[..i] == src.content;
    dst := Response(if contentText != "" then Text(contentText) else Null, toolCalls, WholeFinish(src.stop));
  }

  // ---------- The message that an event stream describes ----------

  /** `pos` maps a block index to its place in the content. */
  datatype Builder = Builder(content: seq<Block>, pos: map<int, int>, stop: string)

  const NOTHING := Builder([], map[], "")

  function StartBlock(m: Builder, i: int, b: Block): Builder {
    m.(content := m.content + [b], pos := m.pos[i := |m.content|])
  }

  function ExtendText(m: Builder, i: int, text: string): Builder {
    if i in m.pos && 0 <= m.pos[i] < |m.content| && m.content[m.pos[i]].TextBlock?
    then m.(content := m.content[m.pos[i] := TextBlock(m.content[m.pos[i]].text + text)])
    else m
  }

  function ExtendInput(m: Builder, i: int, json: string): Builder {
    if i in m.pos && 0 <= m.pos[i] < |m.content| && m.content[m.pos[i]].ToolBlock?
    then m.(content := m.content[m.pos[i] := m.content[m.pos[i]].(input := m.content[m.pos[i]].input + json)])
    else m
  }

  function BuildStep(m: Builder, e: Event): Builder {
    match e
    case TextStart(i, t) => StartBlock(m, i, TextBlock(t))
    case ToolStart(i, id, name) => StartBlock(m, i, ToolBlock(id, name, ""))
    case OtherStart(i) => StartBlock(m, i, OtherBlock)
    case TextDelta(i, t) => ExtendText(m, i, t)
    case JsonDelta(i, j) => ExtendInput(m, i, j)
    case MessageDelta(stop) => m.(stop := stop)
    case _ => m
  }

  function Build(es: seq<Event>): Builder {
    Fold(BuildStep, NOTHING, es)
  }

  /** Index `i` is the block started last. */
  predicate IsLast(m: Builder, i: int) {
    i in m.pos && m.pos[i] == |m.content| - 1
  }

  predicate Fits(m: Builder, e: Event) {
    match e
    case TextStart(i, _) => i !in m.pos
    case ToolStart(i, _, _) => i !in m.pos
    case OtherStart(i) => i !in m.pos
    case TextDelta(i, _) => m.content != [] && IsLast(m, i) && m.content[|m.content| - 1].TextBlock?
    case JsonDelta(i, _) => m.content != [] && IsLast(m, i) && m.content[|m.content| - 1].ToolBlock?
    case _ => true
  }

  /** Blocks are sent one after another: every start has a new index, and every delta
      belongs to the block started last and has its kind. */
  predicate InOrder(es: seq<Event>) {
    es == [] || (InOrder(es[..|es| - 1]) && Fits(Build(es[..|es| - 1]), es[|es| - 1]))
  }

  /** The characters of text that arrive inside `content_block_start` events. */
  function InitialText(es: seq<Event>): nat {
    if es == [] then 0 else
    InitialText(es[..|es| - 1]) + (if es[|es| - 1].TextStart? then |es[|es| - 1].initial| else 0)
  }

  /** The event stream says why the message stopped. */
  predicate HasStop(es: seq<Event>) {
    exists i :: 0 <= i < |es| && es[i].MessageDelta?
  }

  /** Every tool block that starts has an identifier and a name. */
  predicate AllNamed(es: seq<Event>) {
    forall e :: e in es && e.ToolStart? ==> e.callId != "" && e.name != ""
  }

  predicate Named(c: Call) {
    c.id != "" && c.name != ""
  }

  /** The calls that have an identifier and a name. */
  function NamedOf(calls: seq<Call>): (r: seq<Call>)
    ensures |r| <= |calls|
  {
    if calls == [] then [] else
    var c := calls[|calls| - 1];
    NamedOf(calls[..|calls| - 1]) + (if Named(c) then [c] else [])
  }

  lemma NamedOfSnoc(calls: seq<Call>, c: Call)
    ensures NamedOf(calls + [c]) == NamedOf(calls) + (if Named(c) then [c] else [])
  {
    assert (calls + [c])[..|calls|] == calls;
  }

  // ---------- Invariant ----------

  /** The call number of the tool block started last leads to the last call if the
      block is named, and to no call if it is not. */
  ghost predicate LastTool(m: Builder, p: Sink) {
    m.content != [] && m.content[|m.content| - 1].ToolBlock? ==>
      var b := m.content[|m.content| - 1];
      forall i :: IsLast(m, i) ==>
        && i in p.map0
        && (p.map0[i] in p.reply.slot <==> Named(Call(b.id, b.name, b.input)))
        && (p.map0[i] in p.reply.slot ==> p.reply.slot[p.map0[i]] == |p.reply.calls| - 1)
  }

  ghost predicate Mirrors(m: Builder, p: Sink) {
    && p.reply.calls == NamedOf(CallsOf(m.content))
    && p.map0.Keys <= m.pos.Keys
    && (forall j :: j in p.reply.slot ==> 0 <= j < |p.map0|)
    && LastTool(m, p)
    && (forall i :: i in m.pos ==> m.pos[i] < |m.content|)
  }

  lemma MirrorsStart(m: Builder, p: Sink, i: int, b: Block)
    requires Mirrors(m, p) && i !in m.pos && !b.ToolBlock?
    ensures Mirrors(StartBlock(m, i, b), p)
    ensures TextOf(StartBlock(m, i, b).content) == TextOf(m.content) + (if b.TextBlock? then b.text else "")
  {
    assert (m.content + [b])[..|m.content|] == m.content;
    assert CallsOf(m.content + [b]) == CallsOf(m.content);
  }

  /** The far side once a tool block has started there. */
  function FarStart(p: Sink, i: int, id: string, name: string): Sink {
    Sink(p.map0[i := |p.map0|], AddCall(p.reply, ToolDelta(|p.map0|, id, name, "")))
  }

  lemma FarStarted(p: Sink, i: int, id: string, name: string, k: string)
    requires i !in p.map0
    ensures FeedOne(p, ToolStart(i, id, name), k) == FarStart(p, i, id, name)
  {
    FoldOne(AddCall, p.reply, ToolDelta(|p.map0|, id, name, ""));
    assert p.reply.text + "" == p.reply.text;
  }

  lemma MirrorsTool(m: Builder, p: Sink, i: int, id: string, name: string)
    requires Mirrors(m, p) && i !in m.pos
    ensures Mirrors(StartBlock(m, i, ToolBlock(id, name, "")), FarStart(p, i, id, name))
    ensures TextOf(StartBlock(m, i, ToolBlock(id, name, "")).content) == TextOf(m.content)
  {
    assert (m.content + [ToolBlock(id, name, "")])[..|m.content|] == m.content;
    NamedOfSnoc(CallsOf(m.content), Call(id, name, ""));
  }

  lemma MirrorsText(m: Builder, p: Sink, i: int, text: string)
    requires Mirrors(m, p) && Fits(m, TextDelta(i, text))
    ensures Mirrors(ExtendText(m, i, text), p)
    ensures TextOf(ExtendText(m, i, text).content) == TextOf(m.content) + text
  {
    var n := |m.content| - 1;
    var c := ExtendText(m, i, text).content;
    assert c[..n] == m.content[..n];
    assert TextOf(c) == TextOf(m.content[..n]) + (m.content[n].text + text);
  }

  lemma MirrorsJson(m: Builder, p: Sink, i: int, json: string)
    requires Mirrors(m, p) && Fits(m, JsonDelta(i, json))
    ensures Mirrors(ExtendInput(m, i, json), FarArgs(p, i, json))
    ensures TextOf(ExtendInput(m, i, json).content) == TextOf(m.content)
  {
    var n := |m.content| - 1;
    var c, b := ExtendInput(m, i, json).content, m.content[n];
    assert c[..n] == m.content[..n];
    var front, calls := CallsOf(m.content[..n]), p.reply.calls;
    NamedOfSnoc(front, Call(b.id, b.name, b.input));
    NamedOfSnoc(front, Call(b.id, b.name, b.input + json));
    if Named(Call(b.id, b.name, b.input)) {
      assert Append(calls, |calls| - 1, json) == NamedOf(CallsOf(c));
    }
  }

  lemma FarPlain(p: Sink, e: Event, k: string)
    requires !e.ToolStart? && !e.JsonDelta?
    ensures FeedOne(p, e, k) == p.(reply := p.reply.(
      text := p.reply.text + (if e.TextDelta? then e.text else ""),
      finish := if e.MessageDelta? then FinishReason(e.stopReason) else p.reply.finish))
  {
    assert p.reply.text + "" == p.reply.text;
    if e.MessageDelta? {
      FinishSame(e.stopReason);
    }
  }

  ghost predicate Step(m: Builder, p: Sink, e: Event, m1: Builder, p1: Sink) {
    && Mirrors(m1, p1)
    && TextOf(m1.content) == TextOf(m.content) +
         (if e.TextStart? then e.initial else if e.TextDelta? then e.text else "")
    && p1.reply.text == p.reply.text + (if e.TextDelta? then e.text else "")
    && p1.reply.finish == (if e.MessageDelta? then FinishReason(e.stopReason) else p.reply.finish)
    && m1.stop == (if e.MessageDelta? then e.stopReason else m.stop)
  }

  lemma MirrorsPlain(m: Builder, p: Sink, e: Event)
    requires Mirrors(m, p) && Fits(m, e) && !e.ToolStart? && !e.JsonDelta?
    ensures Mirrors(BuildStep(m, e), p)
    ensures TextOf(BuildStep(m, e).content) == TextOf(m.content) +
              (if e.TextStart? then e.initial else if e.TextDelta? then e.text else "")
  {
    match e {
      case TextStart(i, t) => MirrorsStart(m, p, i, TextBlock(t));
      case OtherStart(i) => MirrorsStart(m, p, i, OtherBlock);
      case TextDelta(i, t) => MirrorsText(m, p, i, t);
      case _ =>
    }
  }

  lemma StepPlain(m: Builder, p: Sink, e: Event, k: string)
    requires Mirrors(m, p) && Fits(m, e) && !e.ToolStart? && !e.JsonDelta?
    ensures Step(m, p, e, BuildStep(m, e), FeedOne(p, e, k))
  {
    FarPlain(p, e, k);
    MirrorsPlain(m, p, e);
  }

  lemma StepTool(m: Builder, p: Sink, e: Event, k: string)
    requires Mirrors(m, p) && Fits(m, e) && e.ToolStart?
    ensures Step(m, p, e, BuildStep(m, e), FeedOne(p, e, k))
  {
    FarStarted(p, e.index, e.callId, e.name, k);
    MirrorsTool(m, p, e.index, e.callId, e.name);
  }

  lemma StepJson(m: Builder, p: Sink, e: Event, k: string)
    requires Mirrors(m, p) && Fits(m, e) && e.JsonDelta?
    ensures Step(m, p, e, BuildStep(m, e), FeedOne(p, e, k))
  {
    FarJson(p, e.index, e.json, k);
    MirrorsJson(m, p, e.index, e.json);
  }

  lemma MirrorsEvent(m: Builder, p: Sink, e: Event, k: string)
    requires Mirrors(m, p) && Fits(m, e)
    ensures Step(m, p, e, BuildStep(m, e), FeedOne(p, e, k))
  {
    match e {
      case ToolStart(_, _, _) => StepTool(m, p, e, k);
      case JsonDelta(_, _) => StepJson(m, p, e, k);
      case _ => StepPlain(m, p, e, k);
    }
  }

  /** Both tables of stop reasons agree. */
  lemma FinishSame(stop: string)
    ensures WholeFinish(stop) == FinishReason(stop) && FinishReason(stop) != ""
  {
  }

  lemma {:induction false} MirrorsStream(es: seq<Event>, k: string)
    requires InOrder(es)
    ensures
      var m, p := Build(es), Feed(EMPTY_SINK, es, k);
      && Mirrors(m, p)
      && (InitialText(es) == 0 ==> p.reply.text == TextOf(m.content))
      && |TextOf(m.content)| == |p.reply.text| + InitialText(es)
      && p.reply.finish == (if HasStop(es) then WholeFinish(m.stop) else "")
  {
    if es != [] {
      var n := |es| - 1;
      MirrorsStream(es[..n], k);
      MirrorsEvent(Build(es[..n]), Feed(EMPTY_SINK, es[..n], k), es[n], k);
      HasStopSnoc(es);
      if es[n].MessageDelta? {
        FinishSame(es[n].stopReason);
      }
    }
  }

  lemma HasStopSnoc(es: seq<Event>)
    requires es != []
    ensures HasStop(es) <==> HasStop(es[..|es| - 1]) || es[|es| - 1].MessageDelta?
  {
    if HasStop(es) {
      var i :| 0 <= i < |es| && es[i].MessageDelta?;
      assert i < |es| - 1 ==> es[..|es| - 1][i].MessageDelta?;
    }
    if HasStop(es[..|es| - 1]) {
      var i :| 0 <= i < |es| - 1 && es[..|es| - 1][i].MessageDelta?;
      assert es[i].MessageDelta?;
    }
  }

  predicate BlockNamed(b: Block) {
    b.ToolBlock? ==> b.id != "" && b.name != ""
  }

  predicate BlocksNamed(content: seq<Block>) {
    forall b :: b in content ==> BlockNamed(b)
  }

  lemma BlocksNamedSnoc(content: seq<Block>, b: Block)
    ensures BlocksNamed(content + [b]) <==> BlocksNamed(content) && BlockNamed(b)
  {
    assert b in content + [b];
  }

  lemma {:induction false} CallsNamed(content: seq<Block>)
    ensures NamedOf(CallsOf(content)) == CallsOf(content) <==> BlocksNamed(content)
  {
    if content != [] {
      var n := |content| - 1;
      var front, b := CallsOf(content[..n]), content[n];
      CallsNamed(content[..n]);
      assert content == content[..n] + [b];
      BlocksNamedSnoc(content[..n], b);
      if b.ToolBlock? {
        var c := Call(b.id, b.name, b.input);
        NamedOfSnoc(front, c);
        assert NamedOf(front) + [c] == front + [c] ==> NamedOf(front) == (front + [c])[..|front|] == front;
      } else {
        assert CallsOf(content) == front;
      }
    }
  }

  /** Deltas leave the names of the blocks alone. */
  lemma {:induction false} BuildNamed(es: seq<Event>)
    ensures BlocksNamed(Build(es).content) <==> AllNamed(es)
  {
    if es != [] {
      var n := |es| - 1;
      BuildNamed(es[..n]);
      assert es == es[..n] + [es[n]];
      StepNamed(Build(es[..n]), es[n]);
    }
  }

  lemma StepNamed(m: Builder, e: Event)
    ensures BlocksNamed(BuildStep(m, e).content) <==>
            BlocksNamed(m.content) && (e.ToolStart? ==> e.callId != "" && e.name != "")
  {
    var c, c1 := m.content, BuildStep(m, e).content;
    if e.ToolStart? || e.TextStart? || e.OtherStart? {
      BlocksNamedSnoc(c, c1[|c|]);
    } else {
      assert |c1| == |c|;
      assert forall j :: 0 <= j < |c| ==> c[j] in c && c1[j] in c1 && BlockNamed(c[j]) == BlockNamed(c1[j]);
    }
  }

  /** Streaming against the whole conversion: a client that reads the converted events
      gets the finish reason of the converted message, its named tool calls with all
      their arguments (hence all its calls exactly when every one is named), and its
      text exactly when no text arrives inside the block starts. */
  lemma StreamedIsWhole(es: seq<Event>, clockId: string)
    requires InOrder(es)
    ensures
      var r := ReadFrames(EMPTY, Frames(es, clockId));
      var m := Build(es);
      && r.calls == NamedOf(CallsOf(m.content))
      && (r.calls == CallsOf(m.content) <==> AllNamed(es))
      && (r.text == TextOf(m.content) <==> InitialText(es) == 0)
      && (HasStop(es) ==> r.finish == WholeFinish(m.stop))
      && (!HasStop(es) ==> r.finish == "")
  {
    MirrorsStream(es, clockId);
    FeedIsFrames(es, clockId);
    CallsNamed(Build(es).content);
    BuildNamed(es);
  }
}
