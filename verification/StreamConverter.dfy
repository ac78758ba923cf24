/** The two streaming converters of the gateway: OpenAI chunks to Anthropic
    events and back, one decoded event at a time.

    A field that the decoder reads through `getString`, or that is absent, is
    the empty string; an absent tool index is 0. */
module StreamConverter {
  import opened Folds

  // ---------- OpenAI side ----------

  /** One entry of `delta.tool_calls`. */
  datatype ToolDelta = ToolDelta(index: int, id: string, name: string, args: string)

  datatype Chunk =
    | NoChoices
    | Chunk(id: string, role: string, content: string, calls: seq<ToolDelta>, finish: string)

  /** One server-sent frame of an OpenAI stream. */
  datatype Frame = Data(chunk: Chunk) | Done

  /** The first fragment of a call carries both its id and its name. */
  predicate Opens(d: ToolDelta) {
    d.id != "" && d.name != ""
  }

  // ---------- Anthropic side ----------

  datatype Event =
    | MessageStart(msgId: string)
    | TextStart(index: int, initial: string)
    | ToolStart(index: int, callId: string, name: string)
    | OtherStart(index: int)
    | TextDelta(index: int, text: string)
    | JsonDelta(index: int, json: string)
    | OtherDelta(index: int)
    | BlockStop(index: int)
    | MessageDelta(stopReason: string)
    | MessageStop
    | Ping

  // ---------- OpenAI to Anthropic, as a function of the converter's fields ----------

  datatype Conv = Conv(msgStarted: bool, blockStarted: bool, blockIndex: int, toolOpen: bool, toolIdx: map<int, int>)

  const FRESH := Conv(false, false, 0, false, map[])

  /** The block of a call; Go's zero value when the call was never opened. */
  function BlockOf(m: map<int, int>, k: int): int {
    if k in m then m[k] else 0
  }

  function EnsureStart(s: Conv, id: string): (Conv, seq<Event>) {
    if s.msgStarted then (s, []) else (s.(msgStarted := true), [MessageStart(id)])
  }

  function OnRole(s: Conv, id: string, role: string): (Conv, seq<Event>) {
    if role == "" then (s, []) else EnsureStart(s, id)
  }

  function OnText(s: Conv, id: string, content: string): (Conv, seq<Event>) {
    if content == "" then (s, []) else
    var (s1, es) := EnsureStart(s, id);
    var start := if s1.blockStarted then [] else [TextStart(s1.blockIndex, "")];
    (s1.(blockStarted := true), es + start + [TextDelta(s1.blockIndex, content)])
  }

  /** Closing the text block moves on to the next block index. */
  function CloseText(s: Conv): (Conv, seq<Event>) {
    if s.blockStarted
    then (s.(blockStarted := false, blockIndex := s.blockIndex + 1), [BlockStop(s.blockIndex)])
    else (s, [])
  }

  /** Closing the open tool block looks the block up under the index of the call that is about to open. */
  function CloseTool(s: Conv, index: int): (Conv, seq<Event>) {
    if s.toolOpen
    then (s.(toolOpen := false),
          [BlockStop(if index in s.toolIdx && s.toolIdx[index] != s.blockIndex
                     then s.toolIdx[index] else s.blockIndex)])
    else (s, [])
  }

  function OpenTool(s: Conv, d: ToolDelta): (Conv, seq<Event>) {
    var (s1, e1) := CloseText(s);
    var (s2, e2) := CloseTool(s1, d.index);
    (s2.(toolIdx := s2.toolIdx[d.index := s2.blockIndex], blockIndex := s2.blockIndex + 1, toolOpen := true),
     e1 + e2 + [ToolStart(s2.blockIndex, d.id, d.name)])
  }

  function OnArgs(s: Conv, d: ToolDelta): seq<Event> {
    if d.args == "" then [] else [JsonDelta(BlockOf(s.toolIdx, d.index), d.args)]
  }

  function OnCall(s: Conv, d: ToolDelta): (Conv, seq<Event>) {
    if Opens(d) then
      var (s1, es) := OpenTool(s, d);
      (s1, es + OnArgs(s1, d))
    else
      (s, OnArgs(s, d))
  }

  function OnCalls(s: Conv, ds: seq<ToolDelta>): (Conv, seq<Event>) {
    Run(OnCall, s, ds)
  }

  function OnToolCalls(s: Conv, id: string, ds: seq<ToolDelta>): (Conv, seq<Event>) {
    if ds == [] then (s, []) else
    var (s1, e1) := EnsureStart(s, id);
    var (s2, e2) := OnCalls(s1, ds);
    (s2, e1 + e2)
  }

  function StopReason(finish: string): string {
    match finish
    case "length" => "max_tokens"
    case "tool_calls" => "tool_use"
    case _ => "end_turn"
  }

  function FinishStops(s: Conv): seq<Event> {
    (if s.blockStarted then [BlockStop(s.blockIndex)] else []) +
    (if s.toolOpen then [BlockStop(if s.blockIndex - 1 < 0 then 0 else s.blockIndex - 1)] else [])
  }

  function OnFinish(s: Conv, finish: string): (Conv, seq<Event>) {
    if finish == "" then (s, []) else
    (s.(blockStarted := false, toolOpen := false),
     FinishStops(s) + [MessageDelta(StopReason(finish)), MessageStop])
  }

  function OnChunk(s: Conv, c: Chunk): (Conv, seq<Event>) {
    if c.NoChoices? then (s, []) else
    var (s1, e1) := OnRole(s, c.id, c.role);
    var (s2, e2) := OnText(s1, c.id, c.content);
    var (s3, e3) := OnToolCalls(s2, c.id, c.calls);
    var (s4, e4) := OnFinish(s3, c.finish);
    (s4, e1 + e2 + e3 + e4)
  }

  /** All events sent for a stream of chunks. */
  function ToAnthropic(s: Conv, cs: seq<Chunk>): (Conv, seq<Event>) {
    Run(OnChunk, s, cs)
  }

  function Events(cs: seq<Chunk>): seq<Event> {
    ToAnthropic(FRESH, cs).1
  }

  // ---------- Anthropic to OpenAI, as a function of the index map ----------

  function FinishReason(stop: string): string {
    match stop
    case "max_tokens" => "length"
    case "tool_use" => "tool_calls"
    case "end_turn" => "stop"
    case "refusal" => "content_filter"
    case _ => "stop"
  }

  /** The call number of a block: reused when the block was seen before, else the next one. */
  function Numbered(m: map<int, int>, block: int): map<int, int> {
    if block in m then m else m[block := |m|]
  }

  /** `clockId` stands for the identifier the code derives from the clock. */
  function OnEvent(m: map<int, int>, e: Event, clockId: string): (map<int, int>, seq<Frame>) {
    match e
    case MessageStart(id) =>
      (m, [Data(Chunk(if id == "" then clockId else id, "assistant", "", [], ""))])
    case ToolStart(i, id, name) =>
      var m' := Numbered(m, i);
      (m', [Data(Chunk(clockId, "", "", [ToolDelta(m'[i], id, name, "")], ""))])
    case TextDelta(_, t) => (m, [Data(Chunk(clockId, "", t, [], ""))])
    case JsonDelta(i, j) =>
      (m, [Data(Chunk(clockId, "", "", [ToolDelta(BlockOf(m, i), "", "", j)], ""))])
    case MessageDelta(stop) => (m, [Data(Chunk(clockId, "", "", [], FinishReason(stop)))])
    case MessageStop => (m, [Done])
    case _ => (m, [])
  }

  function EventStep(clockId: string): (map<int, int>, Event) -> (map<int, int>, seq<Frame>) {
    (m, e) => OnEvent(m, e, clockId)
  }

  /** All frames sent for a stream of events. */
  function Frames(es: seq<Event>, clockId: string): seq<Frame> {
    Run(EventStep(clockId), map[], es).1
  }

  // ---------- The converter object ----------

  class Converter {
    var anthropicMsgStarted: bool
    var anthropicBlockStarted: bool
    var anthropicBlockIndex: int
    var anthropicToolOpen: bool
    var anthropicToolIdxMap: map<int, int>

    ghost function View(): Conv
      reads this
    {
      Conv(anthropicMsgStarted, anthropicBlockStarted, anthropicBlockIndex, anthropicToolOpen, anthropicToolIdxMap)
    }

    constructor ()
      ensures View() == FRESH
    {
      anthropicMsgStarted, anthropicBlockStarted, anthropicBlockIndex := false, false, 0;
      anthropicToolOpen, anthropicToolIdxMap := false, map[];
    }

    method ProcessCall(call: ToolDelta) returns (parts: seq<Event>)
      modifies this
      ensures View() == OnCall(old(View()), call).0
      ensures parts == OnCall(old(View()), call).1
      ensures (exists e :: e in parts && e.ToolStart?) <==> call.id != "" && call.name != ""
    {
      parts := [];
      if call.id != "" && call.name != "" {
        if anthropicBlockStarted {
          parts := parts + [BlockStop(anthropicBlockIndex)];
          anthropicBlockIndex := anthropicBlockIndex + 1;
          anthropicBlockStarted := false;
        }
        if anthropicToolOpen {
          if call.index in anthropicToolIdxMap && anthropicToolIdxMap[call.index] != anthropicBlockIndex {
            parts := parts + [BlockStop(anthropicToolIdxMap[call.index])];
          } else {
            parts := parts + [BlockStop(anthropicBlockIndex)];
          }
          anthropicToolOpen := false;
        }
        var blockIdx := anthropicBlockIndex;
        anthropicToolIdxMap := anthropicToolIdxMap[call.index := blockIdx];
        parts := parts + [ToolStart(blockIdx, call.id, call.name)];
        anthropicBlockIndex := anthropicBlockIndex + 1;
        anthropicToolOpen := true;
        assert parts[|parts| - 1].ToolStart?;
      }
      ghost var opening := parts;
      if call.args != "" {
        parts := parts + [JsonDelta(BlockOf(anthropicToolIdxMap, call.index), call.args)];
      }
      assert opening <= parts;
      assert opening != [] ==> opening[|opening| - 1] in parts;
    }

    method ProcessRole(id: string, role: string) returns (parts: seq<Event>)
      modifies this
      ensures View() == OnRole(old(View()), id, role).0
      ensures parts == OnRole(old(View()), id, role).1
    {
      parts := [];
      if role != "" && !anthropicMsgStarted {
        parts := parts + [MessageStart(id)];
        anthropicMsgStarted := true;
      }
    }

    method ProcessText(id: string, content: string) returns (parts: seq<Event>)
      modifies this
      ensures View() == OnText(old(View()), id, content).0
      ensures parts == OnText(old(View()), id, content).1
    {
      parts := [];
      if content != "" {
        if !anthropicMsgStarted {
          parts := parts + [MessageStart(id)];
          anthropicMsgStarted := true;
        }
        if !anthropicBlockStarted {
          parts := parts + [TextStart(anthropicBlockIndex, "")];
          anthropicBlockStarted := true;
        }
        parts := parts + [TextDelta(anthropicBlockIndex, content)];
      }
    }

    method ProcessToolCalls(id: string, calls: seq<ToolDelta>) returns (parts: seq<Event>)
      modifies this
      ensures View() == OnToolCalls(old(View()), id, calls).0
      ensures parts == OnToolCalls(old(View()), id, calls).1
    {
      parts := [];
      if calls != [] {
        if !anthropicMsgStarted {
          parts := parts + [MessageStart(id)];
          anthropicMsgStarted := true;
        }
        ghost var s0, p0 := View(), parts;
        var i := 0;
        while i < |calls|
          invariant 0 <= i <= |calls|
          invariant View() == OnCalls(s0, calls[..i]).0
          invariant parts == p0 + OnCalls(s0, calls[..i]).1
        {
          assert calls[..i + 1][..i] == calls[..i];
          var more := ProcessCall(calls[i]);
          parts := parts + more;
          i := i + 1;
        }
        assert calls[..i] == calls;
      }
    }

    method ProcessFinish(finish: string) returns (parts: seq<Event>)
      modifies this
      ensures View() == OnFinish(old(View()), finish).0
      ensures parts == OnFinish(old(View()), finish).1
    {
      parts := [];
      if finish != "" {
        if anthropicBlockStarted {
          parts := parts + [BlockStop(anthropicBlockIndex)];
          anthropicBlockStarted := false;
        }
        if anthropicToolOpen {
          var lastIdx := anthropicBlockIndex - 1;
          if lastIdx < 0 {
            lastIdx := 0;
          }
          parts := parts + [BlockStop(lastIdx)];
          anthropicToolOpen := false;
        }
        parts := parts + [MessageDelta(StopReason(finish)), MessageStop];
      }
    }

    method OpenaiChunkToAnthropic(chunk: Chunk) returns (parts: seq<Event>)
      modifies this
      ensures View() == OnChunk(old(View()), chunk).0
      ensures parts == OnChunk(old(View()), chunk).1
    {
      if chunk.NoChoices? {
        return [];
      }
      parts := ProcessRole(chunk.id, chunk.role);
      var text := ProcessText(chunk.id, chunk.content);
      var calls := ProcessToolCalls(chunk.id, chunk.calls);
      var finish := ProcessFinish(chunk.finish);
      parts := parts + text + calls + finish;
    }

    method AnthropicChunkToOpenAI(event: Event, clockId: string) returns (out: seq<Frame>)
      modifies this`anthropicToolIdxMap
      ensures anthropicToolIdxMap == OnEvent(old(anthropicToolIdxMap), event, clockId).0
      ensures out == OnEvent(old(anthropicToolIdxMap), event, clockId).1
    {
      match event {
        case MessageStart(id) =>
          out := [Data(Chunk(if id == "" then clockId else id, "assistant", "", [], ""))];
        case ToolStart(blockIdx, id, name) =>
          if blockIdx !in anthropicToolIdxMap {
            var next := |anthropicToolIdxMap|;
            anthropicToolIdxMap := anthropicToolIdxMap[blockIdx := next];
          }
          out := [Data(Chunk(clockId, "", "", [ToolDelta(anthropicToolIdxMap[blockIdx], id, name, "")], ""))];
        case TextDelta(_, text) =>
          out := [Data(Chunk(clockId, "", text, [], ""))];
        case JsonDelta(blockIdx, json) =>
          out := [Data(Chunk(clockId, "", "", [ToolDelta(BlockOf(anthropicToolIdxMap, blockIdx), "", "", json)], ""))];
        case MessageDelta(stop) =>
          out := [Data(Chunk(clockId, "", "", [], FinishReason(stop)))];
        case MessageStop =>
          out := [Done];
        case _ =>
          out := [];
      }
    }
  }
}
