/** Which chat requests survive the conversion to the other protocol and back unchanged. */
module RequestRoundTrip {
  import opened Folds
  import opened Request
  import Names

  // ---------- Images ----------

  /** A data URL needs a media type before its first base64 mark; any other address only has to be there. */
  predicate GoodURL(url: string) {
    if DATA <= url then
      var i := Names.IndexOf(url[|DATA|..], BASE64);
      0 < i < |url| - |DATA| && BASE64 <= url[|DATA|..][i..]
    else url != ""
  }

  lemma SplitAtMark(rest: string, i: nat)
    requires i < |rest| && BASE64 <= rest[i..]
    ensures i + |BASE64| <= |rest| && rest == rest[..i] + BASE64 + rest[i + |BASE64|..]
  {
    assert rest[i..] == BASE64 + rest[i + |BASE64|..];
  }

  lemma PrintedLonger(mediaType: string, data: string)
    ensures mediaType == "" ==> |ImageURL(Base64(mediaType, data))| > |DATA + BASE64 + data|
    ensures mediaType != "" ==> ImageURL(Base64(mediaType, data)) == DATA + (mediaType + BASE64 + data)
  {
  }

  lemma DataURLIff(url: string)
    requires DATA <= url
    ensures ImageURL(Base64(ParseDataURL(url).0, ParseDataURL(url).1)) == url <==> GoodURL(url)
  {
    var rest := url[|DATA|..];
    var i := Names.IndexOf(rest, BASE64);
    assert url == DATA + rest;
    PrintedLonger(ParseDataURL(url).0, ParseDataURL(url).1);
    if i < |rest| && BASE64 <= rest[i..] {
      SplitAtMark(rest, i);
    }
  }

  /** An image survives exactly when its address is good: otherwise it is dropped or becomes longer. */
  lemma ImageIff(url: string)
    ensures Images(ImageBlocks(url)) == [ImagePart(url)] <==> GoodURL(url)
    ensures |ImageBlocks(url)| <= 1 && forall b :: b in ImageBlocks(url) ==> b.ImageBlock?
  {
    if DATA <= url {
      DataURLIff(url);
      var (mediaType, data) := ParseDataURL(url);
      OneImage(Base64(mediaType, data));
    } else if url != "" {
      OneImage(Url(url));
    }
  }

  lemma OneImage(s: Source)
    ensures Images([ImageBlock(s)]) == [ImagePart(ImageURL(s))]
  {
    CollectOne(ImageBlock(s), ImageIn);
  }

  // ---------- Content arrays ----------

  ghost predicate AllImages(ps: seq<Part>) {
    forall i :: 0 <= i < |ps| ==> ps[i].ImagePart?
  }

  ghost predicate AllGood(ps: seq<Part>) {
    forall i :: 0 <= i < |ps| ==> ps[i].ImagePart? && GoodURL(ps[i].url)
  }

  lemma ImagesAppend(a: seq<Block>, b: seq<Block>)
    ensures Images(a + b) == Images(a) + Images(b) && JoinedText(a + b) == JoinedText(a) + JoinedText(b)
    ensures CallsIn(a + b) == CallsIn(a) + CallsIn(b) && ToolMessages(a + b) == ToolMessages(a) + ToolMessages(b)
  {
    CollectAppend(a, b, ImageIn);
    CollectAppend(a, b, BlockText);
    CollectAppend(a, b, CallIn);
    CollectAppend(a, b, ResultIn);
  }

  /** Blocks of the content parts: texts and images only. */
  ghost predicate Plain(blocks: seq<Block>) {
    forall i :: 0 <= i < |blocks| ==> blocks[i].TextBlock? || blocks[i].ImageBlock?
  }

  lemma PlainNoCalls(blocks: seq<Block>)
    requires Plain(blocks)
    ensures CallsIn(blocks) == [] && ToolMessages(blocks) == []
  {
    CollectNone(blocks, CallIn);
    CollectNone(blocks, ResultIn);
  }

  lemma {:induction false} PartsPlain(ps: seq<Part>)
    ensures Plain(PartBlocks(ps))
  {
    if ps != [] {
      PartsPlain(ps[..|ps| - 1]);
      if ps[|ps| - 1].ImagePart? {
        ImageIff(ps[|ps| - 1].url);
        var blocks := ImageBlocks(ps[|ps| - 1].url);
        forall i | 0 <= i < |blocks| ensures blocks[i].ImageBlock? {
          assert blocks[i] in blocks;
        }
      }
    }
  }

  lemma ShortCollect(blocks: seq<Block>)
    requires |blocks| <= 1
    ensures |Images(blocks)| <= 1
  {
    if blocks != [] {
      assert blocks == [blocks[0]];
      CollectOne(blocks[0], ImageIn);
    }
  }

  lemma SameSnoc<T>(a: seq<T>, b: seq<T>, init: seq<T>, last: T)
    requires |a| <= |init| && |b| <= 1
    ensures a + b == init + [last] <==> a == init && b == [last]
  {
    if a + b == init + [last] {
      assert |a| == |init| && |b| == 1;
      assert a == (a + b)[..|init|] && init == (init + [last])[..|init|];
      assert b[0] == (a + b)[|init|] == last;
    }
  }

  /** The last image is kept apart from the others. */
  lemma LastImage(init: seq<Part>, last: Part)
    requires last.ImagePart?
    ensures Images(PartBlocks(init + [last])) == Images(PartBlocks(init)) + Images(ImageBlocks(last.url))
    ensures JoinedText(PartBlocks(init + [last])) == JoinedText(PartBlocks(init))
    ensures HasText(PartBlocks(init + [last])) == HasText(PartBlocks(init))
  {
    CollectAppend(init, [last], PartBlock);
    CollectOne(last, PartBlock);
    ImageIff(last.url);
    NoText(ImageBlocks(last.url));
    ImagesAppend(PartBlocks(init), ImageBlocks(last.url));
  }

  /** A list of images comes back unchanged exactly when every address is good. */
  lemma {:induction false} ImagesIff(ps: seq<Part>)
    requires AllImages(ps)
    ensures |Images(PartBlocks(ps))| <= |ps| && JoinedText(PartBlocks(ps)) == "" && !HasText(PartBlocks(ps))
    ensures Images(PartBlocks(ps)) == ps <==> AllGood(ps)
  {
    if ps != [] {
      var init, last := ps[..|ps| - 1], ps[|ps| - 1];
      ImagesIff(init);
      Snoc(ps);
      LastImage(init, last);
      ImageIff(last.url);
      ShortCollect(ImageBlocks(last.url));
      SameSnoc(Images(PartBlocks(init)), Images(ImageBlocks(last.url)), init, last);
      GoodSnoc(init, last);
    }
  }

  lemma GoodSnoc(init: seq<Part>, last: Part)
    ensures AllGood(init + [last]) <==> AllGood(init) && last.ImagePart? && GoodURL(last.url)
  {
    var ps := init + [last];
    if AllGood(ps) {
      assert ps[|init|] == last;
      forall i | 0 <= i < |init| ensures init[i].ImagePart? && GoodURL(init[i].url) {
        assert ps[i] == init[i];
      }
    }
  }

  lemma NoText(blocks: seq<Block>)
    requires forall b :: b in blocks ==> b.ImageBlock?
    ensures JoinedText(blocks) == "" && !HasText(blocks)
  {
    forall i | 0 <= i < |blocks| ensures BlockText(blocks[i]) == "" {
      assert blocks[i] in blocks;
    }
    CollectNone(blocks, BlockText);
  }

  /** At most one text, then at least one image with a good address. */
  ghost predicate GoodParts(ps: seq<Part>) {
    if ps != [] && ps[0].TextPart? then |ps| > 1 && AllGood(ps[1..]) else ps != [] && AllGood(ps)
  }

  lemma TextFirst(text: string, rest: seq<Part>)
    ensures PartBlocks([TextPart(text)] + rest) == [TextBlock(text)] + PartBlocks(rest)
    ensures Images(PartBlocks([TextPart(text)] + rest)) == Images(PartBlocks(rest))
    ensures JoinedText(PartBlocks([TextPart(text)] + rest)) == text + JoinedText(PartBlocks(rest))
    ensures HasText(PartBlocks([TextPart(text)] + rest))
  {
    CollectAppend([TextPart(text)], rest, PartBlock);
    CollectOne(TextPart(text), PartBlock);
    ImagesAppend([TextBlock(text)], PartBlocks(rest));
    CollectOne(TextBlock(text), ImageIn);
    CollectOne(TextBlock(text), BlockText);
    assert TextBlock(text) in [TextBlock(text)] + PartBlocks(rest);
  }

  lemma ImagesAreImages(blocks: seq<Block>)
    ensures AllImages(Images(blocks))
    decreases |blocks|
  {
    if blocks != [] {
      ImagesAreImages(blocks[..|blocks| - 1]);
    }
  }

  lemma PartsSurvive(ps: seq<Part>)
    requires GoodParts(ps)
    ensures ReplyContent(PartBlocks(ps)) == Parts(ps) && PartBlocks(ps) != []
  {
    if ps[0].TextPart? {
      assert ps == [TextPart(ps[0].text)] + ps[1..];
      ImagesIff(ps[1..]);
      TextFirst(ps[0].text, ps[1..]);
      assert ps[0].text + "" == ps[0].text;
    } else {
      ImagesIff(ps);
    }
  }

  lemma OnlyGoodPartsSurvive(ps: seq<Part>)
    requires ReplyContent(PartBlocks(ps)) == Parts(ps)
    ensures GoodParts(ps)
  {
    var blocks := PartBlocks(ps);
    ImagesAreImages(blocks);
    if HasText(blocks) {
      assert ps == [TextPart(JoinedText(blocks))] + Images(blocks);
      assert ps[1..] == Images(blocks);
      TextFirst(ps[0].text, ps[1..]);
      ImagesIff(ps[1..]);
    } else {
      assert ps == Images(blocks);
      ImagesIff(ps);
    }
  }

  lemma PartsIff(ps: seq<Part>)
    ensures ReplyContent(OrEmptyText(PartBlocks(ps))) == Parts(ps) <==> GoodParts(ps)
  {
    if PartBlocks(ps) == [] {
      CollectOne(TextBlock(""), ImageIn);
      assert Images([TextBlock("")]) == [];
      if GoodParts(ps) {
        PartsSurvive(ps);
      }
    } else {
      if GoodParts(ps) {
        PartsSurvive(ps);
      }
      if ReplyContent(PartBlocks(ps)) == Parts(ps) {
        OnlyGoodPartsSurvive(ps);
      }
    }
  }

  // ---------- Messages ----------

  ghost predicate GoodCalls(cs: seq<Call>, reprint: string -> string) {
    forall i :: 0 <= i < |cs| ==> reprint(cs[i].arguments) == cs[i].arguments
  }

  /** The messages that survive: tool results with text; texts and good content arrays without calls;
      calls with canonical arguments beside a null or non-empty text. */
  ghost predicate GoodMessage(m: Message, reprint: string -> string) {
    if m.role == "tool" then m.content.Text? && m.calls.None? && m.toolCallID.Some?
    else
      && m.toolCallID.None?
      && match m.calls
         case None => m.content.Text? || (m.content.Parts? && GoodParts(m.content.parts))
         case Some(cs) =>
           cs != [] && (m.content.Null? || (m.content.Text? && m.content.text != "")) && GoodCalls(cs, reprint)
  }

  lemma ContentPlain(c: Content)
    ensures Plain(ContentBlocks(c))
    ensures !c.Parts? ==>
      Images(ContentBlocks(c)) == [] && JoinedText(ContentBlocks(c)) == if c.Text? then c.text else ""
  {
    if c.Parts? {
      PartsPlain(c.parts);
    } else {
      var t := if c.Text? then c.text else "";
      CollectOne(TextBlock(t), ImageIn);
      CollectOne(TextBlock(t), BlockText);
    }
  }

  /** The texts kept before calls. */
  lemma {:induction false} TextsKept(blocks: seq<Block>)
    ensures Images(Texts(blocks)) == [] && JoinedText(Texts(blocks)) == JoinedText(blocks) && Plain(Texts(blocks))
    decreases |blocks|
  {
    if blocks != [] {
      var init, last := blocks[..|blocks| - 1], blocks[|blocks| - 1];
      TextsKept(init);
      ImagesAppend(Texts(init), TextIn(last));
      if TextIn(last) != [] {
        CollectOne(last, ImageIn);
        CollectOne(last, BlockText);
      }
    }
  }

  function Reprinted(cs: seq<Call>, reprint: string -> string): (r: seq<Call>)
    ensures |r| == |cs| && forall i :: 0 <= i < |r| ==> r[i] == cs[i].(arguments := reprint(cs[i].arguments))
  {
    seq(|cs|, i requires 0 <= i < |cs| => cs[i].(arguments := reprint(cs[i].arguments)))
  }

  lemma {:induction false} CallsKept(cs: seq<Call>, reprint: string -> string)
    ensures CallsIn(CallBlocks(cs, reprint)) == Reprinted(cs, reprint)
    ensures Images(CallBlocks(cs, reprint)) == [] && JoinedText(CallBlocks(cs, reprint)) == ""
    ensures ToolMessages(CallBlocks(cs, reprint)) == []
    decreases |cs|
  {
    if cs != [] {
      var init, c := cs[..|cs| - 1], cs[|cs| - 1];
      CallsKept(init, reprint);
      var b := ToolUse(c.id, c.name, reprint(c.arguments));
      assert CallBlocks(cs, reprint) == CallBlocks(init, reprint) + [b];
      ImagesAppend(CallBlocks(init, reprint), [b]);
      OneCall(b);
    }
  }

  lemma OneCall(b: Block)
    requires b.ToolUse?
    ensures CallsIn([b]) == [Call(b.id, b.name, b.input)] && Images([b]) == [] && JoinedText([b]) == ""
      && ToolMessages([b]) == []
  {
    CollectOne(b, CallIn);
    CollectOne(b, ImageIn);
    CollectOne(b, BlockText);
    CollectOne(b, ResultIn);
  }

  lemma ReprintIff(cs: seq<Call>, reprint: string -> string)
    ensures Reprinted(cs, reprint) == cs <==> GoodCalls(cs, reprint)
  {
    if Reprinted(cs, reprint) == cs {
      forall i | 0 <= i < |cs| ensures reprint(cs[i].arguments) == cs[i].arguments {
        assert Reprinted(cs, reprint)[i] == cs[i];
      }
    }
  }

  /** What becomes of a message: always one message again. */
  lemma MessageBack(m: Message, reprint: string -> string)
    requires m.role != "system" && m.role != "tool"
    ensures
      var blocks := ContentBlocks(m.content);
      MessagesOf(TurnOf(m, reprint)) == [
        match m.calls
        case None => Message(m.role, ReplyContent(blocks), None, None)
        case Some(cs) =>
          Message(m.role, if cs != [] && JoinedText(blocks) == "" then Null else Text(JoinedText(blocks)),
                  NonEmpty(Reprinted(cs, reprint)), None)]
  {
    var blocks := ContentBlocks(m.content);
    ContentPlain(m.content);
    match m.calls {
      case None => PlainNoCalls(blocks);
      case Some(cs) =>
        TextsKept(blocks);
        PlainNoCalls(Texts(blocks));
        CallsKept(cs, reprint);
        var all := Texts(blocks) + CallBlocks(cs, reprint);
        ImagesAppend(Texts(blocks), CallBlocks(cs, reprint));
        assert CallsIn(all) == Reprinted(cs, reprint) && Images(all) == [] && ToolMessages(all) == [];
        assert JoinedText(all) == JoinedText(blocks);
    }
  }

  /** The plain text of a content: a string itself, of parts the texts one after another, else nothing. */
  lemma PlainTextIs(text: string, ps: seq<Part>, p: Part)
    ensures PlainText(Text(text)) == text && PlainText(Parts([TextPart(text)])) == text
    ensures PlainText(Absent) == PlainText(Null) == PlainText(Parts([])) == ""
    ensures PlainText(Parts(ps + [p])) == if p.TextPart? then PlainText(Parts(ps)) + p.text else PlainText(Parts(ps))
  {
    CollectOne(p, PartText);
    CollectOne(TextPart(text), PartText);
    CollectAppend(ps, [p], PartText);
  }

  lemma ToolBack(m: Message, reprint: string -> string)
    requires m.role == "tool"
    ensures TurnOf(m, reprint).role == "user"
    ensures MessagesOf(TurnOf(m, reprint)) ==
      [Message("tool", Text(PlainText(m.content)), None, Some(if m.toolCallID.Some? then m.toolCallID.value else ""))]
  {
    CollectOne(ToolResult(OrBlank(m.toolCallID), m.content), ResultIn);
  }

  /** A string converts as one text block does; blocks convert as a string exactly when they are texts that
      join to it. */
  lemma StringIsOneBlock(role: string, text: string, blocks: seq<Block>)
    ensures MessagesOf(Turn(role, [TextBlock(text)])) == MessagesOf(TextTurn(role, text))
    ensures MessagesOf(Turn(role, blocks)) == MessagesOf(TextTurn(role, text)) <==>
      ToolMessages(blocks) == [] && Images(blocks) == [] && CallsIn(blocks) == [] && JoinedText(blocks) == text
  {
    CollectOne(TextBlock(text), BlockText);
    CollectOne(TextBlock(text), ImageIn);
    CollectOne(TextBlock(text), CallIn);
    CollectOne(TextBlock(text), ResultIn);
    if ToolMessages(blocks) != [] {
      ToolMessagesFirst(blocks);
    }
  }

  lemma {:induction false} ToolMessagesFirst(blocks: seq<Block>)
    requires ToolMessages(blocks) != []
    ensures ToolMessages(blocks)[0].toolCallID.Some?
    decreases |blocks|
  {
    var init := blocks[..|blocks| - 1];
    if ToolMessages(init) != [] {
      ToolMessagesFirst(init);
    }
  }

  /** A message survives exactly when it is good. */
  lemma MessageIff(m: Message, reprint: string -> string)
    requires m.role != "system"
    ensures |MessagesOf(TurnOf(m, reprint))| == 1 && MessagesOf(TurnOf(m, reprint))[0].role == m.role
    ensures MessagesOf(TurnOf(m, reprint)) == [m] <==> GoodMessage(m, reprint)
  {
    if m.role == "tool" {
      ToolBack(m, reprint);
    } else {
      MessageBack(m, reprint);
      ContentPlain(m.content);
      PlainNoCalls(ContentBlocks(m.content));
      match m.calls {
        case None =>
          match m.content {
            case Parts(ps) => PartsIff(ps);
            case _ =>
          }
        case Some(cs) => ReprintIff(cs, reprint);
      }
    }
  }

  // ---------- Whole requests ----------

  function Back(reprint: string -> string): Message -> seq<Message> {
    (m: Message) => if m.role == "system" then [] else MessagesOf(TurnOf(m, reprint))
  }

  lemma {:induction false} BackIs(ms: seq<Message>, reprint: string -> string)
    ensures AllMessages(Turns(ms, reprint)) == Collect(ms, Back(reprint))
    decreases |ms|
  {
    if ms != [] {
      var init, m := ms[..|ms| - 1], ms[|ms| - 1];
      BackIs(init, reprint);
      var t := TurnsOf(reprint)(m);
      CollectAppend(Turns(init, reprint), t, MessagesOf);
      if m.role != "system" {
        CollectOne(TurnOf(m, reprint), MessagesOf);
      }
    }
  }

  ghost predicate NoSystem(ms: seq<Message>) {
    forall i :: 0 <= i < |ms| ==> ms[i].role != "system"
  }

  ghost predicate AllSurvive(ms: seq<Message>, reprint: string -> string) {
    forall i :: 0 <= i < |ms| ==> GoodMessage(ms[i], reprint)
  }

  /** Messages without a system message come back one for one. */
  lemma {:induction false} BackIff(ms: seq<Message>, reprint: string -> string)
    requires NoSystem(ms)
    ensures |Collect(ms, Back(reprint))| == |ms|
    ensures Collect(ms, Back(reprint)) == ms <==> AllSurvive(ms, reprint)
    decreases |ms|
  {
    if ms != [] {
      var init, m := ms[..|ms| - 1], ms[|ms| - 1];
      BackIff(init, reprint);
      MessageIff(m, reprint);
      Snoc(ms);
      MessageSnoc(Collect(init, Back(reprint)), Back(reprint)(m), init, m);
      SurviveSnoc(init, m, reprint);
    }
  }

  lemma MessageSnoc(a: seq<Message>, b: seq<Message>, init: seq<Message>, last: Message)
    requires |a| == |init| && |b| == 1
    ensures a + b == init + [last] <==> a == init && b == [last]
  {
    SameSnoc(a, b, init, last);
  }

  lemma SurviveSnoc(init: seq<Message>, m: Message, reprint: string -> string)
    ensures AllSurvive(init + [m], reprint) <==> AllSurvive(init, reprint) && GoodMessage(m, reprint)
  {
    var ms := init + [m];
    if AllSurvive(ms, reprint) {
      assert ms[|init|] == m;
      forall i | 0 <= i < |init| ensures GoodMessage(init[i], reprint) {
        assert ms[i] == init[i];
      }
    }
  }

  lemma BackOfOne(m: Message, reprint: string -> string)
    ensures NoSystem(Back(reprint)(m))
  {
    if m.role != "system" {
      MessageIff(m, reprint);
    }
  }

  /** No message that comes back from a turn has the system role. */
  lemma {:induction false} BackHasNoSystem(ms: seq<Message>, reprint: string -> string)
    ensures NoSystem(Collect(ms, Back(reprint)))
    decreases |ms|
  {
    if ms != [] {
      BackHasNoSystem(ms[..|ms| - 1], reprint);
      hide Back;
      BackOfOne(ms[|ms| - 1], reprint);
    }
  }

  /** At most one system message, at the front, with non-empty text and nothing else; good messages after it. */
  ghost predicate GoodMessages(ms: seq<Message>, reprint: string -> string) {
    if ms != [] && ms[0].role == "system" then
      && ms[0].content.Text? && ms[0].content.text != "" && ms[0].calls.None? && ms[0].toolCallID.None?
      && NoSystem(ms[1..]) && AllSurvive(ms[1..], reprint)
    else NoSystem(ms) && AllSurvive(ms, reprint)
  }

  lemma {:induction false} NoSystemNone(ms: seq<Message>)
    ensures NoSystem(ms) ==> SystemOf(ms) == None
    decreases |ms|
  {
    if ms != [] {
      NoSystemNone(ms[..|ms| - 1]);
    }
  }

  lemma {:induction false} SystemFirst(m: Message, rest: seq<Message>)
    requires m.role == "system" && NoSystem(rest)
    ensures SystemOf([m] + rest) == Some(m.content)
    decreases |rest|
  {
    if rest == [] {
      assert [m] + rest == [m];
    } else {
      assert ([m] + rest)[..|[m] + rest| - 1] == [m] + rest[..|rest| - 1];
      SystemFirst(m, rest[..|rest| - 1]);
    }
  }

  lemma FrontDropped(m: Message, rest: seq<Message>, reprint: string -> string)
    requires m.role == "system"
    ensures Collect([m] + rest, Back(reprint)) == Collect(rest, Back(reprint))
  {
    CollectAppend([m], rest, Back(reprint));
    CollectOne(m, Back(reprint));
  }

  lemma AfterSystem(m: Message, rest: seq<Message>, reprint: string -> string)
    requires m.role == "system" && m.content.Text? && m.content.text != "" && m.calls.None? && m.toolCallID.None?
    requires NoSystem(rest) && AllSurvive(rest, reprint)
    ensures SystemMessage(SystemOf([m] + rest)) == [m] && Collect([m] + rest, Back(reprint)) == rest
  {
    SystemFirst(m, rest);
    FrontDropped(m, rest, reprint);
    BackIff(rest, reprint);
  }

  lemma MessagesSurvive(ms: seq<Message>, reprint: string -> string)
    requires GoodMessages(ms, reprint)
    ensures SystemMessage(SystemOf(ms)) + Collect(ms, Back(reprint)) == ms
  {
    if ms != [] && ms[0].role == "system" {
      assert ms == [ms[0]] + ms[1..];
      AfterSystem(ms[0], ms[1..], reprint);
    } else {
      NoSystemNone(ms);
      BackIff(ms, reprint);
    }
  }

  lemma OnlyGoodMessagesSurvive(ms: seq<Message>, reprint: string -> string)
    requires SystemMessage(SystemOf(ms)) + Collect(ms, Back(reprint)) == ms
    ensures GoodMessages(ms, reprint)
  {
    BackHasNoSystem(ms, reprint);
    var sys, back := SystemMessage(SystemOf(ms)), Collect(ms, Back(reprint));
    if sys == [] {
      assert back == ms;
      BackIff(ms, reprint);
    } else {
      assert ms[0] == sys[0] && ms[1..] == back;
      assert ms == [ms[0]] + ms[1..];
      FrontDropped(ms[0], ms[1..], reprint);
      BackIff(ms[1..], reprint);
    }
  }

  lemma MessagesIff(ms: seq<Message>, reprint: string -> string)
    ensures SystemMessage(SystemOf(ms)) + AllMessages(Turns(ms, reprint)) == ms <==> GoodMessages(ms, reprint)
  {
    BackIs(ms, reprint);
    if GoodMessages(ms, reprint) {
      MessagesSurvive(ms, reprint);
    }
    if SystemMessage(SystemOf(ms)) + Collect(ms, Back(reprint)) == ms {
      OnlyGoodMessagesSurvive(ms, reprint);
    }
  }

  // ---------- Tools ----------

  ghost predicate GoodTools(tools: seq<Tool>) {
    forall i :: 0 <= i < |tools| ==>
      tools[i].kind == "function" && tools[i].description.Some? && tools[i].parameters.Some?
  }

  function ToolBackOf(t: Tool): Tool {
    Tool("function", t.name, Some(if t.description.Some? then t.description.value else ""),
      Some(if t.parameters.Some? then t.parameters.value else "null"))
  }

  lemma {:induction false} ToolsBack(tools: seq<Tool>)
    ensures |ToolSpecs(tools)| == |tools| == |ToolsOf(ToolSpecs(tools))|
    ensures forall i :: 0 <= i < |tools| ==> ToolsOf(ToolSpecs(tools))[i] == ToolBackOf(tools[i])
    decreases |tools|
  {
    if tools != [] {
      var init, t := tools[..|tools| - 1], tools[|tools| - 1];
      ToolsBack(init);
      var spec := ToolSpec(t.name, OrBlank(t.description), t.parameters);
      assert ToolSpecs(tools) == ToolSpecs(init) + [spec];
      CollectAppend(ToolSpecs(init), [spec], ToolOf);
      CollectOne(spec, ToolOf);
    }
  }

  lemma ToolsIff(tools: seq<Tool>)
    ensures ToolsOf(ToolSpecs(tools)) == tools <==> GoodTools(tools)
    ensures ToolsOf(ToolSpecs(tools)) == [] <==> tools == []
    ensures ToolSpecs(tools) == [] <==> tools == []
  {
    ToolsBack(tools);
    if ToolsOf(ToolSpecs(tools)) == tools {
      forall i | 0 <= i < |tools| ensures tools[i] == ToolBackOf(tools[i]) {
        assert ToolsOf(ToolSpecs(tools))[i] == tools[i];
      }
    }
  }

  ghost predicate GoodChoice(c: Choice) {
    c.Function? || (c.Word? && c.word in {"auto", "required", "none"})
  }

  lemma ChoiceIff(c: Choice)
    ensures ChoiceOf(ToolChoiceOf(c)) == c <==> GoodChoice(c)
  {
  }

  // ---------- The round trip ----------

  /** Requests that the conversion to the other protocol and back leaves as they are. */
  ghost predicate RoundTrips(r: ChatRequest, model: string, reprint: string -> string) {
    && r.model == model && GoodMessages(r.messages, reprint)
    && (r.tools.Some? ==> r.tools.value != [] && GoodTools(r.tools.value))
    && (r.choice.Some? ==> GoodChoice(r.choice.value))
    && r.maxTokens.Some?
  }

  /** What comes back of the rest of any request: the model asked for, 32768 tokens where no maximum was given,
      "auto" for a choice that the other protocol does not know, and a system message in front if and only if the
      last one has text. */
  lemma RoundTripGives(r: ChatRequest, model: string, reprint: string -> string)
    ensures
      var back := ToChat(ToMessages(r, model, reprint));
      && back.model == model && back.stop == r.stop && back.options == r.options
      && back.maxTokens == Some(if r.maxTokens.Some? then r.maxTokens.value else 32768)
      && (r.choice.None? <==> back.choice.None?)
      && (r.choice.Some? ==> back.choice.value == match r.choice.value
            case Word(w) => Word(if w == "required" || w == "none" then w else "auto")
            case Function(name) => Function(name)
            case OtherChoice => Word("auto"))
  {
  }

  /** A data address without the mark of base64 comes back as a PNG with the mark. */
  lemma UnmarkedImage(url: string, rest: string)
    requires url == "data:" + rest && forall i :: 0 <= i <= |rest| ==> !(";base64," <= rest[i..])
    ensures Images(ImageBlocks(url)) == [ImagePart("data:" + "image/png" + ";base64," + rest)]
  {
    assert DATA <= url && url[|DATA|..] == rest;
    OneImage(Base64("image/png", rest));
  }

  lemma {:induction false} FirstMark(mediaType: string, rest: string, data: string)
    requires rest == mediaType + BASE64 + data && forall i :: 0 <= i < |mediaType| ==> !(BASE64 <= rest[i..])
    ensures Names.IndexOf(rest, BASE64) == |mediaType|
  {
    if mediaType == "" {
      assert rest == BASE64 + data;
    } else {
      assert rest[0..] == rest;
      assert rest[1..] == mediaType[1..] + BASE64 + data;
      forall i | 0 <= i < |mediaType| - 1 ensures !(BASE64 <= rest[1..][i..]) {
        assert rest[1..][i..] == rest[i + 1..];
      }
      FirstMark(mediaType[1..], rest[1..], data);
    }
  }

  /** The first mark separates the media type from the data, whatever marks the data hold. */
  lemma FirstMarkSplits(url: string, mediaType: string, data: string)
    requires
      var rest := mediaType + ";base64," + data;
      url == "data:" + rest && forall i :: 0 <= i < |mediaType| ==> !(";base64," <= rest[i..])
    ensures ParseDataURL(url) == (mediaType, data)
  {
    var rest := mediaType + ";base64," + data;
    assert DATA <= url && url[|DATA|..] == rest;
    FirstMark(mediaType, rest, data);
    assert rest[|mediaType|..] == BASE64 + data;
    assert rest[..|mediaType|] == mediaType && rest[|mediaType| + |BASE64|..] == data;
  }

  /** So does one with the mark and no media type before it. */
  lemma UntypedImage(url: string, data: string)
    requires url == "data:" + (";base64," + data)
    ensures Images(ImageBlocks(url)) == [ImagePart("data:" + "image/png" + ";base64," + data)]
  {
    var rest := url[|DATA|..];
    assert DATA <= url && rest == BASE64 + data;
    assert rest[0..] == rest;
    assert Names.IndexOf(rest, BASE64) == 0;
    assert rest[..0] == "" && rest[|BASE64|..] == data;
    OneImage(Base64("", data));
  }

  /** A request comes back unchanged exactly when it is in this class: `reprint` is what the tool
      arguments become when they are parsed and printed. */
  lemma RoundTripIff(r: ChatRequest, model: string, reprint: string -> string)
    ensures ToChat(ToMessages(r, model, reprint)) == r <==> RoundTrips(r, model, reprint)
  {
    MessagesIff(r.messages, reprint);
    if r.tools.Some? {
      ToolsIff(r.tools.value);
    }
    if r.choice.Some? {
      ChoiceIff(r.choice.value);
    }
  }
}
