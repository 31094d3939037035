/** Translating a stream of chat-completion chunks into content-block events. */
module StreamBridge {
  import opened Lists

  datatype Call = Call(index: int, id: string, name: string, arguments: string)

  /** One line of the upstream body: the end mark, the first choice of a chunk,
      or anything the translator skips. */
  datatype Line = Done | Chunk(content: string, calls: seq<Call>, finish: string) | Skipped

  datatype BlockKind = TextBlock | ToolBlock(id: string, name: string)

  datatype Event =
    | MessageStart
    | BlockStart(index: int, kind: BlockKind)
    | TextDelta(index: int, text: string)
    | ArgsDelta(index: int, partial: string)
    | BlockStop(index: int)
    | MessageDelta(stopReason: string)
    | MessageStop

  // ---------------------------------------------------------------- the translation, token by token

  datatype Token = Text(text: string) | ToolCall(call: Call) | ToolsFinish

  function CallTokens(calls: seq<Call>): (ts: seq<Token>)
    ensures |ts| == |calls| && forall i :: 0 <= i < |ts| ==> ts[i] == ToolCall(calls[i])
  {
    seq(|calls|, i requires 0 <= i < |calls| => ToolCall(calls[i]))
  }

  function ChunkTokens(c: Line): seq<Token>
    requires c.Chunk?
  {
    (if c.finish == "tool_calls" then [ToolsFinish] else []) + (if c.content != "" then [Text(c.content)] else [])
    + CallTokens(c.calls)
  }

  /** What the lines say, up to the end mark. */
  function Tokens(lines: seq<Line>): seq<Token> {
    if lines == [] || lines[0].Done? then []
    else (if lines[0].Chunk? then ChunkTokens(lines[0]) else []) + Tokens(lines[1..])
  }

  datatype State = State(started: bool, blocks: map<int, int>, order: seq<int>, stop: string, out: seq<Event>)

  const INITIAL := State(false, map[], [], "end_turn", [MessageStart])

  function OnText(s: State, text: string): State {
    s.(started := true,
       out := s.out + (if s.started then [] else [BlockStart(0, TextBlock)]) + [TextDelta(0, text)])
  }

  function Opened(s: State, call: Call): State {
    if call.index in s.blocks then s
    else
      var block := |s.blocks| + if s.started then 1 else 0;
      s.(blocks := s.blocks[call.index := block], order := s.order + [call.index],
         out := s.out + [BlockStart(block, ToolBlock(call.id, call.name))])
  }

  function OnCall(s: State, call: Call): State {
    var s' := Opened(s, call);
    if call.arguments == "" then s' else s'.(out := s'.out + [ArgsDelta(s'.blocks[call.index], call.arguments)])
  }

  function Step(s: State, t: Token): State {
    match t
    case Text(text) => OnText(s, text)
    case ToolCall(call) => OnCall(s, call)
    case ToolsFinish => s.(stop := "tool_use")
  }

  function After(ts: seq<Token>): State {
    if ts == [] then INITIAL else Step(After(ts[..|ts| - 1]), ts[|ts| - 1])
  }

  /** The stops of the tool blocks, in the order they were started. */
  function ToolStops(s: State, n: nat): (es: seq<Event>)
    requires n <= |s.order| && forall k :: 0 <= k < n ==> s.order[k] in s.blocks
    ensures |es| == n && forall k :: 0 <= k < n ==> es[k] == BlockStop(s.blocks[s.order[k]])
  {
    seq(n, k requires 0 <= k < n => BlockStop(s.blocks[s.order[k]]))
  }

  predicate OrderKnown(s: State) {
    forall k :: 0 <= k < |s.order| ==> s.order[k] in s.blocks
  }

  lemma {:induction false} OrderAlwaysKnown(ts: seq<Token>)
    ensures OrderKnown(After(ts))
  {
    if ts != [] {
      OrderAlwaysKnown(ts[..|ts| - 1]);
    }
  }

  function Ending(s: State): seq<Event>
    requires OrderKnown(s)
  {
    (if s.started then [BlockStop(0)] else []) + ToolStops(s, |s.order|) + [MessageDelta(s.stop), MessageStop]
  }

  function Stream(lines: seq<Line>): seq<Event> {
    var s := After(Tokens(lines));
    OrderAlwaysKnown(Tokens(lines));
    s.out + Ending(s)
  }

  lemma AfterAppend(ts: seq<Token>, t: Token)
    ensures After(ts + [t]) == Step(After(ts), t)
  {
  }

  /** The translator's state and output, updated event by event. */
  class Translator {
    var textStarted: bool
    var toolBlocks: map<int, int>
    var toolOrder: seq<int>
    var stopReason: string
    var out: seq<Event>

    function Value(): State
      reads this
    {
      State(textStarted, toolBlocks, toolOrder, stopReason, out)
    }

    constructor ()
      ensures Value() == INITIAL
    {
      textStarted, toolBlocks, toolOrder, stopReason, out := false, map[], [], "end_turn", [MessageStart];
    }

    method Emit(e: Event)
      modifies this`out
      ensures out == old(out) + [e]
    {
      out := out + [e];
    }

    method HandleText(text: string)
      modifies this
      ensures Value() == OnText(old(Value()), text)
    {
      if !textStarted {
        Emit(BlockStart(0, TextBlock));
        textStarted := true;
      }
      Emit(TextDelta(0, text));
    }

    method HandleCall(call: Call)
      modifies this
      ensures Value() == OnCall(old(Value()), call)
    {
      var block: int;
      if call.index in toolBlocks {
        block := toolBlocks[call.index];
      } else {
        block := |toolBlocks|;
        if textStarted {
          block := block + 1;
        }
        toolBlocks := toolBlocks[call.index := block];
        toolOrder := toolOrder + [call.index];
        Emit(BlockStart(block, ToolBlock(call.id, call.name)));
      }
      if call.arguments != "" {
        Emit(ArgsDelta(block, call.arguments));
      }
    }

    method HandleChunk(c: Line, ghost before: seq<Token>)
      requires c.Chunk? && Value() == After(before)
      modifies this
      ensures Value() == After(before + ChunkTokens(c))
    {
      hide After, OnText, OnCall;
      var finishing := c.finish == "tool_calls";
      if finishing {
        stopReason := "tool_use";
        AfterAppend(before, ToolsFinish);
      }
      ghost var first := if finishing then before + [ToolsFinish] else before;
      if c.content != "" {
        HandleText(c.content);
        AfterAppend(first, Text(c.content));
      }
      ghost var second := if c.content != "" then first + [Text(c.content)] else first;
      HandleCalls(c.calls, second);
      assert second + CallTokens(c.calls) == before + ChunkTokens(c);
    }

    method HandleCalls(calls: seq<Call>, ghost before: seq<Token>)
      requires Value() == After(before)
      modifies this
      ensures Value() == After(before + CallTokens(calls))
    {
      hide After, OnCall;
      assert before + CallTokens(calls)[..0] == before;
      for i := 0 to |calls|
        invariant Value() == After(before + CallTokens(calls)[..i])
      {
        HandleCall(calls[i]);
        AfterAppend(before + CallTokens(calls)[..i], ToolCall(calls[i]));
        assert before + CallTokens(calls)[..i] + [ToolCall(calls[i])] == before + CallTokens(calls)[..i + 1];
      }
      assert CallTokens(calls)[..|calls|] == CallTokens(calls);
    }

    method Finish()
      requires OrderKnown(Value())
      modifies this`out
      ensures out == old(out) + Ending(old(Value()))
    {
      ghost var s := Value();
      if textStarted {
        Emit(BlockStop(0));
      }
      ghost var head := out;
      for k := 0 to |toolOrder|
        invariant out == head + ToolStops(s, k)
      {
        Emit(BlockStop(toolBlocks[toolOrder[k]]));
        assert ToolStops(s, k) + [BlockStop(s.blocks[s.order[k]])] == ToolStops(s, k + 1);
      }
      Emit(MessageDelta(stopReason));
      Emit(MessageStop);
      assert out == s.out + Ending(s);
    }

    method Translate(lines: seq<Line>)
      requires Value() == INITIAL
      modifies this
      ensures out == Stream(lines)
    {
      hide ChunkTokens, Step, Ending, OrderKnown;
      ghost var seen: seq<Token> := [];
      var i := 0;
      assert lines[0..] == lines && seen + Tokens(lines) == Tokens(lines);
      while i < |lines|
        invariant 0 <= i <= |lines|
        invariant Value() == After(seen) && seen + Tokens(lines[i..]) == Tokens(lines)
      {
        var line := lines[i];
        assert lines[i..][1..] == lines[i + 1..];
        if line.Done? {
          break;
        }
        if line.Chunk? {
          HandleChunk(line, seen);
          assert seen + (ChunkTokens(line) + Tokens(lines[i + 1..])) == (seen + ChunkTokens(line)) + Tokens(lines[i + 1..]);
          seen := seen + ChunkTokens(line);
        }
        i := i + 1;
      }
      assert seen == Tokens(lines);
      OrderAlwaysKnown(seen);
      Finish();
    }
  }
}
