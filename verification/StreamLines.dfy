/** The stream against the upstream lines themselves: what they say up to the
    end mark is what the reader gets. */
module StreamLines {
  import opened Lists
  import opened StreamBridge
  import opened StreamEvents

  // ---------------------------------------------------------------- what the lines say

  /** The chunks before the end mark. */
  function Chunks(lines: seq<Line>): (cs: seq<Line>)
    ensures forall i :: 0 <= i < |cs| ==> cs[i].Chunk?
  {
    if lines == [] || lines[0].Done? then []
    else (if lines[0].Chunk? then [lines[0]] else []) + Chunks(lines[1..])
  }

  function SaidText(cs: seq<Line>): string
    requires forall i :: 0 <= i < |cs| ==> cs[i].Chunk?
  {
    if cs == [] then "" else cs[0].content + SaidText(cs[1..])
  }

  function CallText(calls: seq<Call>, index: int): string {
    if calls == [] then ""
    else (if calls[0].index == index then calls[0].arguments else "") + CallText(calls[1..], index)
  }

  function SaidArgs(cs: seq<Line>, index: int): string
    requires forall i :: 0 <= i < |cs| ==> cs[i].Chunk?
  {
    if cs == [] then "" else CallText(cs[0].calls, index) + SaidArgs(cs[1..], index)
  }

  function FirstCall(calls: seq<Call>, index: int): Option<Call> {
    if calls == [] then None else if calls[0].index == index then Some(calls[0]) else FirstCall(calls[1..], index)
  }

  /** The first fragment of an upstream call. */
  function SaidFirst(cs: seq<Line>, index: int): Option<Call>
    requires forall i :: 0 <= i < |cs| ==> cs[i].Chunk?
  {
    if cs == [] then None
    else if FirstCall(cs[0].calls, index).Some? then FirstCall(cs[0].calls, index) else SaidFirst(cs[1..], index)
  }

  /** Chunk `j` is the first with text. */
  predicate FirstText(cs: seq<Line>, j: nat)
    requires forall i :: 0 <= i < |cs| ==> cs[i].Chunk?
  {
    j < |cs| && cs[j].content != "" && forall k :: 0 <= k < j ==> cs[k].content == ""
  }

  /** A call comes in one of the first `j` chunks. */
  predicate CalledBefore(cs: seq<Line>, j: nat)
    requires forall i :: 0 <= i < |cs| ==> cs[i].Chunk?
  {
    exists i :: 0 <= i < j && i < |cs| && cs[i].calls != []
  }

  /** The first chunk with text comes after one with a call. */
  predicate SaidLate(cs: seq<Line>)
    requires forall i :: 0 <= i < |cs| ==> cs[i].Chunk?
  {
    exists j: nat :: j < |cs| && FirstText(cs, j) && CalledBefore(cs, j)
  }

  // ---------------------------------------------------------------- tokens say the same

  function AllTokens(cs: seq<Line>): seq<Token>
    requires forall i :: 0 <= i < |cs| ==> cs[i].Chunk?
  {
    if cs == [] then [] else ChunkTokens(cs[0]) + AllTokens(cs[1..])
  }

  lemma {:induction false} TokensOfChunks(lines: seq<Line>)
    ensures Tokens(lines) == AllTokens(Chunks(lines))
  {
    hide ChunkTokens;
    if lines != [] && !lines[0].Done? {
      TokensOfChunks(lines[1..]);
      if lines[0].Chunk? {
        assert Chunks(lines)[1..] == Chunks(lines[1..]);
      } else {
        assert [] + Tokens(lines[1..]) == Tokens(lines[1..]) && [] + Chunks(lines[1..]) == Chunks(lines[1..]);
      }
    }
  }

  lemma OneMore(ts: seq<Token>, t: Token, index: int)
    ensures TextIn(ts + [t]) == TextIn(ts) + if t.Text? then t.text else ""
    ensures ArgsIn(ts + [t], index) == ArgsIn(ts, index) + if t.ToolCall? && t.call.index == index then t.call.arguments else ""
    ensures FirstFragment(ts + [t], index)
            == if FirstFragment(ts, index).Some? then FirstFragment(ts, index)
               else if t.ToolCall? && t.call.index == index then Some(t.call) else None
  {
    assert (ts + [t])[..|ts + [t]| - 1] == ts;
  }

  /** What two stretches of tokens say together. */
  lemma {:induction false} Together(a: seq<Token>, b: seq<Token>, index: int)
    ensures TextIn(a + b) == TextIn(a) + TextIn(b)
    ensures ArgsIn(a + b, index) == ArgsIn(a, index) + ArgsIn(b, index)
    ensures FirstFragment(a + b, index)
            == if FirstFragment(a, index).Some? then FirstFragment(a, index) else FirstFragment(b, index)
  {
    if b == [] {
      assert a + b == a;
    } else {
      hide TextIn, ArgsIn, FirstFragment;
      var front, last := b[..|b| - 1], b[|b| - 1];
      assert b == front + [last] && a + b == (a + front) + [last];
      Together(a, front, index);
      OneMore(a + front, last, index);
      OneMore(front, last, index);
    }
  }

  lemma OneToken(t: Token, index: int)
    ensures TextIn([t]) == if t.Text? then t.text else ""
    ensures ArgsIn([t], index) == if t.ToolCall? && t.call.index == index then t.call.arguments else ""
    ensures FirstFragment([t], index) == if t.ToolCall? && t.call.index == index then Some(t.call) else None
  {
    assert [t] == [] + [t];
    OneMore([], t, index);
  }

  lemma {:induction false} CallsSay(calls: seq<Call>, index: int)
    ensures TextIn(CallTokens(calls)) == "" && ArgsIn(CallTokens(calls), index) == CallText(calls, index)
    ensures FirstFragment(CallTokens(calls), index) == FirstCall(calls, index)
  {
    if calls != [] {
      hide TextIn, ArgsIn, FirstFragment;
      var head, rest := [ToolCall(calls[0])], CallTokens(calls[1..]);
      CallsSay(calls[1..], index);
      assert CallTokens(calls) == head + rest;
      OneToken(head[0], index);
      Together(head, rest, index);
    }
  }

  lemma ChunkSays(c: Line, index: int)
    requires c.Chunk?
    ensures TextIn(ChunkTokens(c)) == c.content && ArgsIn(ChunkTokens(c), index) == CallText(c.calls, index)
    ensures FirstFragment(ChunkTokens(c), index) == FirstCall(c.calls, index)
  {
    var finish := if c.finish == "tool_calls" then [ToolsFinish] else [];
    var text := if c.content != "" then [Text(c.content)] else [];
    assert TextIn([]) == "" && ArgsIn([], index) == "" && FirstFragment([], index) == None;
    hide TextIn, ArgsIn, FirstFragment;
    OneToken(ToolsFinish, index);
    OneToken(Text(c.content), index);
    CallsSay(c.calls, index);
    Together(finish, text, index);
    Together(finish + text, CallTokens(c.calls), index);
  }

  lemma {:induction false} ChunksSay(cs: seq<Line>, index: int)
    requires forall i :: 0 <= i < |cs| ==> cs[i].Chunk?
    ensures TextIn(AllTokens(cs)) == SaidText(cs) && ArgsIn(AllTokens(cs), index) == SaidArgs(cs, index)
    ensures FirstFragment(AllTokens(cs), index) == SaidFirst(cs, index)
  {
    hide ChunkTokens;
    if cs != [] {
      ChunkSays(cs[0], index);
      ChunksSay(cs[1..], index);
      Together(ChunkTokens(cs[0]), AllTokens(cs[1..]), index);
    }
  }

  lemma {:induction false} FinishSaid(cs: seq<Line>)
    requires forall i :: 0 <= i < |cs| ==> cs[i].Chunk?
    ensures ToolsFinish in AllTokens(cs) <==> exists i :: 0 <= i < |cs| && cs[i].finish == "tool_calls"
  {
    if cs != [] {
      FinishSaid(cs[1..]);
      assert ToolsFinish in ChunkTokens(cs[0]) <==> cs[0].finish == "tool_calls";
      if i :| 0 <= i < |cs| && cs[i].finish == "tool_calls" {
        assert i > 0 ==> cs[1..][i - 1].finish == "tool_calls";
      }
      if j :| 0 <= j < |cs| - 1 && cs[1..][j].finish == "tool_calls" {
        assert cs[j + 1].finish == "tool_calls";
      }
    }
  }

  // ---------------------------------------------------------------- late text

  /** Whether the first text of a token sequence comes after a call, when one
      may have come before it. */
  predicate LateAfter(ts: seq<Token>, called: bool) {
    ts != [] && match ts[0]
                case Text(_) => called
                case ToolCall(_) => LateAfter(ts[1..], true)
                case ToolsFinish => LateAfter(ts[1..], called)
  }

  lemma {:induction false} LateAfterIs(before: seq<Token>, ts: seq<Token>)
    requires !HasText(before)
    ensures LateText(before + ts) <==> LateAfter(ts, HasCall(before))
    decreases ts
  {
    var all := before + ts;
    if ts == [] {
      assert all == before;
    } else {
      assert all == (before + [ts[0]]) + ts[1..];
      match ts[0] {
        case Text(_) => FirstTextDecides(before, ts);
        case _ =>
          OneMoreToken(before, ts[0]);
          LateAfterIs(before + [ts[0]], ts[1..]);
      }
    }
  }

  lemma OneMoreToken(before: seq<Token>, x: Token)
    ensures HasText(before + [x]) <==> HasText(before) || x.Text?
    ensures HasCall(before + [x]) <==> HasCall(before) || x.ToolCall?
  {
    var all := before + [x];
    assert all[|before|] == x;
    assert forall i :: 0 <= i < |before| ==> all[i] == before[i];
  }

  lemma FirstTextDecides(before: seq<Token>, ts: seq<Token>)
    requires !HasText(before) && ts != [] && ts[0].Text?
    ensures LateText(before + ts) <==> HasCall(before)
  {
    var all, n := before + ts, |before|;
    assert all[n] == ts[0] && all[..n] == before;
    assert HasCall(before) ==> LateAt(all, n);
    forall j: nat | LateAt(all, j)
      ensures HasCall(before)
    {
      if j < n {
        assert before[j].Text?;
      } else if j > n {
        assert all[..j][n].Text?;
      }
    }
  }

  lemma {:induction false} LateCalls(calls: seq<Call>, rest: seq<Token>, called: bool)
    ensures LateAfter(CallTokens(calls) + rest, called) == LateAfter(rest, called || calls != [])
  {
    if calls == [] {
      assert CallTokens(calls) + rest == rest;
    } else {
      var ts := CallTokens(calls) + rest;
      assert ts[0] == ToolCall(calls[0]) && ts[1..] == CallTokens(calls[1..]) + rest;
      LateCalls(calls[1..], rest, true);
    }
  }

  lemma LateChunk(c: Line, rest: seq<Token>, called: bool)
    requires c.Chunk?
    ensures LateAfter(ChunkTokens(c) + rest, called) == if c.content != "" then called else LateAfter(rest, called || c.calls != [])
  {
    var calls := CallTokens(c.calls) + rest;
    var texts := if c.content != "" then [Text(c.content)] + calls else calls;
    LateCalls(c.calls, rest, called);
    if c.finish == "tool_calls" {
      assert ChunkTokens(c) + rest == [ToolsFinish] + texts;
      assert ([ToolsFinish] + texts)[1..] == texts;
    } else {
      assert ChunkTokens(c) + rest == texts;
    }
  }

  /** As `SaidLate`, when a call may have come before. */
  predicate SaidLateAfter(cs: seq<Line>, called: bool)
    requires forall i :: 0 <= i < |cs| ==> cs[i].Chunk?
  {
    exists j: nat :: j < |cs| && FirstText(cs, j) && (called || CalledBefore(cs, j))
  }

  lemma Shifted(cs: seq<Line>, j: nat)
    requires cs != [] && (forall i :: 0 <= i < |cs| ==> cs[i].Chunk?) && cs[0].content == ""
    ensures FirstText(cs, j + 1) <==> FirstText(cs[1..], j)
    ensures CalledBefore(cs, j + 1) <==> cs[0].calls != [] || CalledBefore(cs[1..], j)
  {
    var rest := cs[1..];
    assert forall k :: 0 < k < |cs| ==> cs[k] == rest[k - 1];
    assert forall k :: 0 <= k < |rest| ==> rest[k] == cs[k + 1];
  }

  lemma SaidLateStep(cs: seq<Line>, called: bool)
    requires cs != [] && forall i :: 0 <= i < |cs| ==> cs[i].Chunk?
    ensures SaidLateAfter(cs, called)
            <==> if cs[0].content != "" then called else SaidLateAfter(cs[1..], called || cs[0].calls != [])
  {
    if cs[0].content != "" {
      assert FirstText(cs, 0) && !CalledBefore(cs, 0);
    } else {
      assert !FirstText(cs, 0);
      hide CalledBefore, FirstText;
      forall j: nat
        ensures FirstText(cs, j + 1) <==> FirstText(cs[1..], j)
        ensures CalledBefore(cs, j + 1) <==> cs[0].calls != [] || CalledBefore(cs[1..], j)
      {
        Shifted(cs, j);
      }
      if j: nat :| j < |cs| && FirstText(cs, j) && (called || CalledBefore(cs, j)) {
        var i: nat := j - 1;
        assert FirstText(cs[1..], i) && (called || cs[0].calls != [] || CalledBefore(cs[1..], i));
      }
      if i: nat :| i < |cs[1..]| && FirstText(cs[1..], i) && (called || cs[0].calls != [] || CalledBefore(cs[1..], i)) {
        assert FirstText(cs, i + 1) && (called || CalledBefore(cs, i + 1));
      }
    }
  }

  lemma {:induction false} LateChunks(cs: seq<Line>, called: bool)
    requires forall i :: 0 <= i < |cs| ==> cs[i].Chunk?
    ensures LateAfter(AllTokens(cs), called) <==> SaidLateAfter(cs, called)
  {
    hide ChunkTokens, SaidLateAfter, LateAfter;
    if cs == [] {
      NothingLate(called);
    } else {
      LateChunk(cs[0], AllTokens(cs[1..]), called);
      SaidLateStep(cs, called);
      LateChunks(cs[1..], called || cs[0].calls != []);
    }
  }

  lemma NothingLate(called: bool)
    ensures !LateAfter([], called) && !SaidLateAfter([], called)
  {
  }

  // ---------------------------------------------------------------- the theorems

  /** A reader accepts the stream if and only if the first chunk with text does
      not come after one with a call. */
  lemma AcceptedExactly(lines: seq<Line>)
    ensures WellFormed(Stream(lines)) <==> !SaidLate(Chunks(lines))
  {
    hide WellFormed, Stream, LateText, HasText, LateAfter;
    var ts := Tokens(lines);
    WellFormedExactly(lines);
    NoTextYet();
    LateAfterIs([], ts);
    assert [] + ts == ts;
    TokensOfChunks(lines);
    LateChunks(Chunks(lines), false);
  }

  lemma NoTextYet()
    ensures !HasText([]) && !HasCall([])
  {
  }

  /** The reader gets exactly the text of the chunks, and for every call exactly
      its arguments, in a block announced with its first fragment's id and name. */
  lemma LinesConserved(lines: seq<Line>, index: int)
    ensures TextOf(Stream(lines)) == SaidText(Chunks(lines))
    ensures SaidFirst(Chunks(lines), index).Some? ==>
              var first := SaidFirst(Chunks(lines), index).value;
              exists block :: BlockStart(block, ToolBlock(first.id, first.name)) in Stream(lines)
                              && ArgsOf(Stream(lines), block) == SaidArgs(Chunks(lines), index)
  {
    hide TextOf, ArgsOf, TextIn, ArgsIn, FirstFragment, SaidText, SaidArgs, SaidFirst, Ending;
    var ts := Tokens(lines);
    TokensOfChunks(lines);
    ChunksSay(Chunks(lines), index);
    StreamConserves(lines, index);
    CallAnnounced(ts, index);
    OrderAlwaysKnown(ts);
    if SaidFirst(Chunks(lines), index).Some? {
      var first, block := SaidFirst(Chunks(lines), index).value, After(ts).blocks[index];
      assert BlockStart(block, ToolBlock(first.id, first.name)) in Stream(lines);
      assert ArgsOf(Stream(lines), block) == SaidArgs(Chunks(lines), index);
    }
  }

  /** The stream starts with its start and ends with the stop reason, which is
      tool use exactly when some chunk finished for tool calls, and its stop. */
  lemma FramedExactly(lines: seq<Line>)
    ensures var es := Stream(lines);
            && |es| >= 3 && es[0] == MessageStart && es[|es| - 1] == MessageStop
            && es[|es| - 2]
               == MessageDelta(if exists i :: 0 <= i < |Chunks(lines)| && Chunks(lines)[i].finish == "tool_calls"
                               then "tool_use" else "end_turn")
  {
    hide After, Ending, Tokens, OrderKnown;
    var ts := Tokens(lines);
    TokensOfChunks(lines);
    FinishSaid(Chunks(lines));
    StopReasonTold(ts);
    OrderAlwaysKnown(ts);
    StartsWithStart(ts);
    EndsWithStop(After(ts));
  }

  lemma EndsWithStop(s: State)
    requires OrderKnown(s)
    ensures var es := Ending(s); |es| >= 2 && es[|es| - 2] == MessageDelta(s.stop) && es[|es| - 1] == MessageStop
  {
    hide ToolStops;
  }

  lemma {:induction false} StartsWithStart(ts: seq<Token>)
    ensures |After(ts).out| >= 1 && After(ts).out[0] == MessageStart
  {
    if ts != [] {
      StartsWithStart(ts[..|ts| - 1]);
    }
  }
}
