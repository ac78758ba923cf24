/** Chat requests of the two protocols, decoded, and their conversion in both directions. */
module Request {
  import opened Folds
  import Names

  // ---------- OpenAI ----------

  datatype Part = TextPart(text: string) | ImagePart(url: string) | OtherPart

  /** `Absent` is a missing field, `Null` an explicit null. */
  datatype Content = Absent | Null | Text(text: string) | Parts(parts: seq<Part>)

  datatype Call = Call(id: string, name: string, arguments: string)

  datatype Message = Message(role: string, content: Content, calls: Option<seq<Call>>, toolCallID: Option<string>)

  datatype Tool = Tool(kind: string, name: string, description: Option<string>, parameters: Option<string>)

  datatype Choice = Word(word: string) | Function(name: string) | OtherChoice

  /** `options` stands for the fields that both protocols share under one name, `stop` for the stop sequences. */
  datatype ChatRequest = ChatRequest(
    model: string, messages: seq<Message>, tools: Option<seq<Tool>>, choice: Option<Choice>, maxTokens: Option<int>,
    stop: Option<string>, options: string)

  // ---------- Anthropic ----------

  datatype Source = Base64(mediaType: string, data: string) | Url(url: string)

  /** Tool input is held as the text that it prints to. */
  datatype Block =
    | TextBlock(text: string)
    | ImageBlock(source: Source)
    | ToolUse(id: string, name: string, input: string)
    | ToolResult(toolUseID: string, content: Content)

  /** The content is an array of blocks, a string, or something else: missing, null, ... */
  datatype Turn =
    | Turn(role: string, blocks: seq<Block>)
    | TextTurn(role: string, text: string)
    | BareTurn(role: string)

  datatype ToolSpec = ToolSpec(name: string, description: string, schema: Option<string>)

  datatype ToolChoice = Auto | Any | NoTool | OneTool(name: string)

  datatype MessagesRequest = MessagesRequest(
    model: string, system: Option<Content>, turns: seq<Turn>, tools: Option<seq<ToolSpec>>, choice: Option<ToolChoice>,
    maxTokens: int, stopSequences: Option<string>, options: string)

  const DEFAULT_MAX_TOKENS := 32768

  // ---------- Images ----------

  const DATA := "data:"
  const BASE64 := ";base64,"

  function ParseDataURL(url: string): (string, string)
    requires DATA <= url
  {
    var rest := url[|DATA|..];
    var i := Names.IndexOf(rest, BASE64);
    if i < |rest| && BASE64 <= rest[i..] then (rest[..i], rest[i + |BASE64|..]) else ("image/png", rest)
  }

  function ImageBlocks(url: string): seq<Block> {
    if DATA <= url then
      var (mediaType, data) := ParseDataURL(url);
      [ImageBlock(Base64(mediaType, data))]
    else if url != "" then [ImageBlock(Url(url))]
    else []
  }

  function ImageURL(s: Source): string {
    match s
    case Base64(mediaType, data) => DATA + (if mediaType == "" then "image/png" else mediaType) + BASE64 + data
    case Url(url) => url
  }

  // ---------- OpenAI to Anthropic ----------

  function PartBlock(p: Part): seq<Block> {
    match p
    case TextPart(text) => [TextBlock(text)]
    case ImagePart(url) => ImageBlocks(url)
    case OtherPart => []
  }

  function PartBlocks(parts: seq<Part>): seq<Block> {
    Collect(parts, PartBlock)
  }

  function OrEmptyText(blocks: seq<Block>): seq<Block> {
    if blocks == [] then [TextBlock("")] else blocks
  }

  function ContentBlocks(c: Content): seq<Block> {
    match c
    case Text(text) => [TextBlock(text)]
    case Parts(parts) => OrEmptyText(PartBlocks(parts))
    case _ => [TextBlock("")]
  }

  /** Before tool calls only non-empty texts are kept. */
  function TextIn(b: Block): seq<Block> {
    if b.TextBlock? && b.text != "" then [b] else []
  }

  function Texts(blocks: seq<Block>): seq<Block> {
    Collect(blocks, TextIn)
  }

  function CallBlock(reprint: string -> string): Call -> seq<Block> {
    (c: Call) => [ToolUse(c.id, c.name, reprint(c.arguments))]
  }

  function CallBlocks(calls: seq<Call>, reprint: string -> string): seq<Block> {
    Collect(calls, CallBlock(reprint))
  }

  function OrBlank(s: Option<string>): string {
    if s.Some? then s.value else ""
  }

  function TurnOf(m: Message, reprint: string -> string): Turn {
    if m.role == "tool" then Turn("user", [ToolResult(OrBlank(m.toolCallID), m.content)])
    else
      var blocks := ContentBlocks(m.content);
      Turn(m.role, if m.calls.Some? then Texts(blocks) + CallBlocks(m.calls.value, reprint) else blocks)
  }

  /** The last system message wins. */
  function SystemOf(ms: seq<Message>): Option<Content> {
    if ms == [] then None else
    var m := ms[|ms| - 1];
    if m.role == "system" then Some(m.content) else SystemOf(ms[..|ms| - 1])
  }

  function TurnsOf(reprint: string -> string): Message -> seq<Turn> {
    (m: Message) => if m.role == "system" then [] else [TurnOf(m, reprint)]
  }

  function Turns(ms: seq<Message>, reprint: string -> string): seq<Turn> {
    Collect(ms, TurnsOf(reprint))
  }

  function SpecOf(t: Tool): seq<ToolSpec> {
    [ToolSpec(t.name, OrBlank(t.description), t.parameters)]
  }

  function ToolSpecs(tools: seq<Tool>): seq<ToolSpec> {
    Collect(tools, SpecOf)
  }

  function NonEmpty<T>(s: seq<T>): Option<seq<T>> {
    if s == [] then None else Some(s)
  }

  function ToolChoiceOf(c: Choice): ToolChoice {
    match c
    case Word("auto") => Auto
    case Word("required") => Any
    case Word("none") => NoTool
    case Word(_) => Auto
    case Function(name) => OneTool(name)
    case OtherChoice => Auto
  }

  function MapOption<A, B>(o: Option<A>, f: A -> B): Option<B> {
    if o.Some? then Some(f(o.value)) else None
  }

  function ToMessages(r: ChatRequest, model: string, reprint: string -> string): MessagesRequest {
    MessagesRequest(
      model, SystemOf(r.messages), Turns(r.messages, reprint),
      if r.tools.Some? then NonEmpty(ToolSpecs(r.tools.value)) else None, MapOption(r.choice, ToolChoiceOf),
      if r.maxTokens.Some? then r.maxTokens.value else DEFAULT_MAX_TOKENS, r.stop, r.options)
  }

  // ---------- Anthropic to OpenAI ----------

  function BlockText(b: Block): string {
    if b.TextBlock? then b.text else ""
  }

  function JoinedText(blocks: seq<Block>): string {
    Collect(blocks, BlockText)
  }

  predicate HasText(blocks: seq<Block>) {
    exists b :: b in blocks && b.TextBlock?
  }

  function ImageIn(b: Block): seq<Part> {
    if b.ImageBlock? then [ImagePart(ImageURL(b.source))] else []
  }

  function Images(blocks: seq<Block>): seq<Part> {
    Collect(blocks, ImageIn)
  }

  function CallIn(b: Block): seq<Call> {
    if b.ToolUse? then [Call(b.id, b.name, b.input)] else []
  }

  function CallsIn(blocks: seq<Block>): seq<Call> {
    Collect(blocks, CallIn)
  }

  function PartText(p: Part): string {
    if p.TextPart? then p.text else ""
  }

  function PartsText(parts: seq<Part>): string {
    Collect(parts, PartText)
  }

  function PlainText(c: Content): string {
    match c
    case Text(text) => text
    case Parts(parts) => PartsText(parts)
    case _ => ""
  }

  function ResultIn(b: Block): seq<Message> {
    if b.ToolResult? then [Message("tool", Text(PlainText(b.content)), None, Some(b.toolUseID))] else []
  }

  function ToolMessages(blocks: seq<Block>): seq<Message> {
    Collect(blocks, ResultIn)
  }

  function ReplyContent(blocks: seq<Block>): Content {
    if Images(blocks) != [] then
      Parts((if HasText(blocks) then [TextPart(JoinedText(blocks))] else []) + Images(blocks))
    else if CallsIn(blocks) != [] && JoinedText(blocks) == "" then Null
    else Text(JoinedText(blocks))
  }

  /** Tool results become messages of their own and hide the rest of the turn. */
  function MessagesOf(t: Turn): seq<Message> {
    match t
    case Turn(role, blocks) =>
      if ToolMessages(blocks) != [] then ToolMessages(blocks)
      else [Message(role, ReplyContent(blocks), NonEmpty(CallsIn(blocks)), None)]
    case TextTurn(role, text) => [Message(role, Text(text), None, None)]
    case BareTurn(role) => [Message(role, Absent, None, None)]
  }

  function AllMessages(turns: seq<Turn>): seq<Message> {
    Collect(turns, MessagesOf)
  }

  function SystemMessage(system: Option<Content>): seq<Message> {
    if system.Some? && PlainText(system.value) != ""
    then [Message("system", Text(PlainText(system.value)), None, None)] else []
  }

  function ToolOf(t: ToolSpec): seq<Tool> {
    [Tool("function", t.name, Some(t.description), Some(if t.schema.Some? then t.schema.value else "null"))]
  }

  function ToolsOf(specs: seq<ToolSpec>): seq<Tool> {
    Collect(specs, ToolOf)
  }

  function ChoiceOf(c: ToolChoice): Choice {
    match c
    case Auto => Word("auto")
    case Any => Word("required")
    case NoTool => Word("none")
    case OneTool(name) => Function(name)
  }

  function ToChat(r: MessagesRequest): ChatRequest {
    ChatRequest(
      r.model, SystemMessage(r.system) + AllMessages(r.turns),
      if r.tools.Some? then NonEmpty(ToolsOf(r.tools.value)) else None, MapOption(r.choice, ChoiceOf),
      Some(r.maxTokens), r.stopSequences, r.options)
  }

  // ---------- The converters ----------

  method ConvertContentArray(parts: seq<Part>) returns (blocks: seq<Block>)
    ensures blocks == OrEmptyText(PartBlocks(parts))
  {
    blocks := [];
    var i := 0;
    while i < |parts|
      invariant 0 <= i <= |parts| && blocks == PartBlocks(parts[..i])
    {
      assert parts[..i + 1][..i] == parts[..i];
      match parts[i] {
        case TextPart(text) => blocks := blocks + [TextBlock(text)];
        case ImagePart(url) =>
          if DATA <= url {
            var (mediaType, data) := ParseDataURL(url);
            blocks := blocks + [ImageBlock(Base64(mediaType, data))];
          } else if url != "" {
            blocks := blocks + [ImageBlock(Url(url))];
          }
        case OtherPart =>
      }
      i := i + 1;
    }
    assert parts[..i] == parts;
    if |blocks| == 0 {
      blocks := blocks + [TextBlock("")];
    }
  }

  method AddCalls(existing: seq<Block>, calls: seq<Call>, reprint: string -> string) returns (blocks: seq<Block>)
    ensures blocks == Texts(existing) + CallBlocks(calls, reprint)
  {
    blocks := [];
    var i := 0;
    while i < |existing|
      invariant 0 <= i <= |existing| && blocks == Texts(existing[..i])
    {
      assert existing[..i + 1][..i] == existing[..i];
      if existing[i].TextBlock? && existing[i].text != "" {
        blocks := blocks + [existing[i]];
      }
      i := i + 1;
    }
    assert existing[..i] == existing;
    var j := 0;
    while j < |calls|
      invariant 0 <= j <= |calls| && blocks == Texts(existing) + CallBlocks(calls[..j], reprint)
    {
      assert calls[..j + 1][..j] == calls[..j];
      var c := calls[j];
      blocks := blocks + [ToolUse(c.id, c.name, reprint(c.arguments))];
      j := j + 1;
    }
    assert calls[..j] == calls;
  }

  method OpenaiToAnthropicRequest(src: ChatRequest, model: string,
      reprint: string -> string) returns (dst: MessagesRequest)
    ensures dst == ToMessages(src, model, reprint)
  {
    var system: Option<Content>, turns := None, [];
    var i := 0;
    while i < |src.messages|
      invariant 0 <= i <= |src.messages|
      invariant system == SystemOf(src.messages[..i]) && turns == Turns(src.messages[..i], reprint)
    {
      assert src.messages[..i + 1][..i] == src.messages[..i];
      var m := src.messages[i];
      if m.role == "system" {
        system := Some(m.content);
      } else if m.role == "tool" {
        turns := turns + [Turn("user", [ToolResult(OrBlank(m.toolCallID), m.content)])];
      } else {
        var blocks;
        match m.content {
          case Text(text) => blocks := [TextBlock(text)];
          case Parts(parts) => blocks := ConvertContentArray(parts);
          case _ => blocks := [TextBlock("")];
        }
        if m.calls.Some? {
          blocks := AddCalls(blocks, m.calls.value, reprint);
        }
        turns := turns + [Turn(m.role, blocks)];
      }
      i := i + 1;
    }
    assert src.messages[..i] == src.messages;
    var tools := None;
    if src.tools.Some? {
      var specs := ConvertTools(src.tools.value);
      if |specs| > 0 {
        tools := Some(specs);
      }
    }
    dst := MessagesRequest(
      model, system, turns, tools, MapOption(src.choice, ToolChoiceOf),
      if src.maxTokens.Some? then src.maxTokens.value else DEFAULT_MAX_TOKENS, src.stop, src.options);
  }

  method ConvertTools(tools: seq<Tool>) returns (specs: seq<ToolSpec>)
    ensures specs == ToolSpecs(tools)
  {
    specs := [];
    var i := 0;
    while i < |tools|
      invariant 0 <= i <= |tools| && specs == ToolSpecs(tools[..i])
    {
      assert tools[..i + 1][..i] == tools[..i];
      specs := specs + [ToolSpec(tools[i].name, OrBlank(tools[i].description), tools[i].parameters)];
      i := i + 1;
    }
    assert tools[..i] == tools;
  }

  lemma TurnStep(turns: seq<Turn>, i: nat, first: seq<Message>)
    requires i < |turns|
    ensures first + AllMessages(turns[..i + 1]) == first + AllMessages(turns[..i]) + MessagesOf(turns[i])
  {
    assert turns[..i + 1][..i] == turns[..i];
  }

  method AnthropicToOpenAIRequest(src: MessagesRequest) returns (dst: ChatRequest)
    ensures dst == ToChat(src)
  {
    var messages := SystemMessage(src.system);
    var i := 0;
    while i < |src.turns|
      invariant 0 <= i <= |src.turns| && messages == SystemMessage(src.system) + AllMessages(src.turns[..i])
    {
      TurnStep(src.turns, i, SystemMessage(src.system));
      var more := ConvertTurn(src.turns[i]);
      messages := messages + more;
      i := i + 1;
    }
    assert src.turns[..i] == src.turns;
    var tools := None;
    if src.tools.Some? {
      var openaiTools := ConvertSpecs(src.tools.value);
      if |openaiTools| > 0 {
        tools := Some(openaiTools);
      }
    }
    dst := ChatRequest(src.model, messages, tools, MapOption(src.choice, ChoiceOf), Some(src.maxTokens),
                       src.stopSequences, src.options);
  }

  method ConvertTurn(t: Turn) returns (ms: seq<Message>)
    ensures ms == MessagesOf(t)
  {
    match t {
      case Turn(role, blocks) => ms := ConvertBlocks(role, blocks);
      case TextTurn(role, text) => ms := [Message(role, Text(text), None, None)];
      case BareTurn(role) => ms := [Message(role, Absent, None, None)];
    }
  }

  method ConvertBlocks(role: string, blocks: seq<Block>) returns (ms: seq<Message>)
    ensures ms == MessagesOf(Turn(role, blocks))
  {
    var text, hasText, images, calls, results := "", false, [], [], [];
    var i := 0;
    while i < |blocks|
      invariant 0 <= i <= |blocks|
      invariant text == JoinedText(blocks[..i]) && hasText == HasText(blocks[..i])
      invariant images == Images(blocks[..i]) && calls == CallsIn(blocks[..i])
        && results == ToolMessages(blocks[..i])
    {
      assert blocks[..i + 1][..i] == blocks[..i];
      assert blocks[..i + 1] == blocks[..i] + [blocks[i]];
      match blocks[i] {
        case TextBlock(s) => text, hasText := text + s, true;
        case ImageBlock(source) => images := images + [ImagePart(ImageURL(source))];
        case ToolUse(id, name, input) => calls := calls + [Call(id, name, input)];
        case ToolResult(id, content) =>
          results := results + [Message("tool", Text(PlainText(content)), None, Some(id))];
      }
      i := i + 1;
    }
    assert blocks[..i] == blocks;
    if |results| > 0 {
      return results;
    }
    var content;
    if |images| > 0 {
      content := Parts((if hasText then [TextPart(text)] else []) + images);
    } else {
      content := Text(text);
    }
    if |calls| > 0 && content == Text("") {
      content := Null;
    }
    ms := [Message(role, content, NonEmpty(calls), None)];
  }

  method ConvertSpecs(specs: seq<ToolSpec>) returns (tools: seq<Tool>)
    ensures tools == ToolsOf(specs)
  {
    tools := [];
    var i := 0;
    while i < |specs|
      invariant 0 <= i <= |specs| && tools == ToolsOf(specs[..i])
    {
      assert specs[..i + 1][..i] == specs[..i];
      var t := specs[i];
      tools := tools + [Tool("function", t.name, Some(t.description),
        Some(if t.schema.Some? then t.schema.value else "null"))];
      i := i + 1;
    }
    assert specs[..i] == specs;
  }
}
