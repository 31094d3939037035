/** What the translated stream guarantees its reader: an automaton for
    well-formed block events, and conservation of text and arguments. */
module StreamEvents {
  import opened Lists
  import opened StreamBridge

  // ---------------------------------------------------------------- the reader

  /** What a reader of the stream has seen: the kind of every block started so
      far, and the blocks still open. */
  datatype Reader =
    | Waiting
    | Reading(kinds: map<int, BlockKind>, open: set<int>)
    | Ended
    | Complete
    | Broken

  function Read(r: Reader, e: Event): Reader {
    match e
    case MessageStart => if r.Waiting? then Reading(map[], {}) else Broken
    case BlockStart(i, kind) =>
      if r.Reading? && i !in r.kinds then Reading(r.kinds[i := kind], r.open + {i}) else Broken
    case TextDelta(i, _) => if r.Reading? && i in r.open && i in r.kinds && r.kinds[i].TextBlock? then r else Broken
    case ArgsDelta(i, _) => if r.Reading? && i in r.open && i in r.kinds && r.kinds[i].ToolBlock? then r else Broken
    case BlockStop(i) => if r.Reading? && i in r.open then r.(open := r.open - {i}) else Broken
    case MessageDelta(_) => if r.Reading? && r.open == {} then Ended else Broken
    case MessageStop => if r.Ended? then Complete else Broken
  }

  function ReadAll(r: Reader, es: seq<Event>): Reader
    decreases |es|
  {
    if es == [] then r else ReadAll(Read(r, es[0]), es[1..])
  }

  lemma {:induction false} ReadAppend(r: Reader, a: seq<Event>, b: seq<Event>)
    ensures ReadAll(r, a + b) == ReadAll(ReadAll(r, a), b)
    decreases |a|
  {
    if a == [] {
      assert a + b == b;
    } else {
      ReadAppend(Read(r, a[0]), a[1..], b);
      assert (a + b)[1..] == a[1..] + b;
    }
  }

  lemma ReadOne(r: Reader, a: seq<Event>, e: Event)
    ensures ReadAll(r, a + [e]) == Read(ReadAll(r, a), e)
  {
    ReadAppend(r, a, [e]);
    assert [e][1..] == [];
  }

  lemma {:induction false} BrokenStays(es: seq<Event>)
    ensures ReadAll(Broken, es) == Broken
  {
    if es != [] {
      BrokenStays(es[1..]);
    }
  }

  /** Every block is started once, gets deltas of its kind only while open and
      is stopped once, between one message start and one message stop. */
  predicate WellFormed(es: seq<Event>) {
    ReadAll(Waiting, es) == Complete
  }

  /** The indices of the blocks, in the order they are started. */
  function Starts(es: seq<Event>): seq<int> {
    if es == [] then []
    else Starts(es[..|es| - 1]) + if es[|es| - 1].BlockStart? then [es[|es| - 1].index] else []
  }

  function UpTo(n: nat): (s: seq<int>)
    ensures |s| == n && forall k :: 0 <= k < n ==> s[k] == k
  {
    seq(n, k => k)
  }

  // ---------------------------------------------------------------- streams whose text comes first

  predicate HasText(ts: seq<Token>) { exists i :: 0 <= i < |ts| && ts[i].Text? }

  predicate HasCall(ts: seq<Token>) { exists i :: 0 <= i < |ts| && ts[i].ToolCall? }

  /** The first text comes after a tool call. */
  predicate LateAt(ts: seq<Token>, j: nat) {
    j < |ts| && ts[j].Text? && !HasText(ts[..j]) && HasCall(ts[..j])
  }

  predicate LateText(ts: seq<Token>) {
    exists j :: 0 <= j < |ts| && LateAt(ts, j)
  }

  function Offset(s: State): nat { if s.started then 1 else 0 }

  /** Blocks 0 to `n` have been started and are open; only block 0 can be text. */
  ghost predicate HasOpened(r: Reader, n: nat, text: bool) {
    && r.Reading?
    && (forall i :: i in r.kinds <==> 0 <= i < n)
    && (forall i :: i in r.open <==> 0 <= i < n)
    && (forall i :: i in r.kinds ==> (r.kinds[i].TextBlock? <==> i == 0 && text))
  }

  ghost predicate Numbered(s: State) {
    && |s.order| == |s.blocks| && (forall i :: i in s.blocks <==> i in s.order)
    && OrderKnown(s)
    && forall k :: 0 <= k < |s.order| ==> s.blocks[s.order[k]] == k + Offset(s)
  }

  /** The blocks of a translator whose text, if any, came first. */
  ghost predicate InOrder(s: State) {
    && Numbered(s)
    && HasOpened(ReadAll(Waiting, s.out), |s.order| + Offset(s), s.started)
    && Starts(s.out) == UpTo(|s.order| + Offset(s))
  }

  lemma InitialInOrder()
    ensures InOrder(INITIAL)
  {
  }

  lemma StartsOne(es: seq<Event>, e: Event)
    ensures Starts(es + [e]) == Starts(es) + if e.BlockStart? then [e.index] else []
  {
  }

  /** Starting the next block, and a delta to a block of the right kind. */
  lemma ReadStart(es: seq<Event>, n: nat, text: bool, kind: BlockKind)
    requires HasOpened(ReadAll(Waiting, es), n, text) && Starts(es) == UpTo(n)
    requires (kind.TextBlock? ==> n == 0) && (text ==> n > 0)
    ensures var es' := es + [BlockStart(n, kind)];
            HasOpened(ReadAll(Waiting, es'), n + 1, text || kind.TextBlock?) && Starts(es') == UpTo(n + 1)
  {
    hide ReadAll, Starts;
    ReadOne(Waiting, es, BlockStart(n, kind));
    StartsOne(es, BlockStart(n, kind));
    assert UpTo(n) + [n] == UpTo(n + 1);
  }

  lemma ReadDelta(es: seq<Event>, n: nat, text: bool, e: Event)
    requires HasOpened(ReadAll(Waiting, es), n, text)
    requires (e.TextDelta? && e.index == 0 && text && n > 0)
             || (e.ArgsDelta? && (if text then 1 else 0) <= e.index < n)
    ensures ReadAll(Waiting, es + [e]) == ReadAll(Waiting, es) && Starts(es + [e]) == Starts(es)
  {
    hide ReadAll, Starts;
    ReadOne(Waiting, es, e);
    StartsOne(es, e);
  }

  lemma TextInOrder(s: State, text: string)
    requires InOrder(s) && (s.started || s.order == [])
    ensures InOrder(OnText(s, text))
  {
    hide ReadAll, Starts, HasOpened;
    var mid := if s.started then s.out else s.out + [BlockStart(0, TextBlock)];
    if !s.started {
      ReadStart(s.out, 0, false, TextBlock);
    }
    ReadDelta(mid, |s.order| + 1, true, TextDelta(0, text));
    assert OnText(s, text).out == mid + [TextDelta(0, text)];
  }

  lemma OpenedInOrder(s: State, call: Call)
    requires InOrder(s)
    ensures InOrder(Opened(s, call)) && call.index in Opened(s, call).blocks
  {
    hide ReadAll, Starts, HasOpened;
    if call.index !in s.blocks {
      ReadStart(s.out, |s.order| + Offset(s), s.started, ToolBlock(call.id, call.name));
      OpenedNumbered(s, call);
    }
  }

  lemma OpenedNumbered(s: State, call: Call)
    requires Numbered(s) && call.index !in s.blocks
    ensures Numbered(Opened(s, call))
  {
  }

  lemma CallBlock(s: State, index: int)
    requires Numbered(s) && index in s.blocks
    ensures Offset(s) <= s.blocks[index] < |s.order| + Offset(s)
  {
  }

  lemma SentNumbered(s: State, out: seq<Event>)
    requires Numbered(s)
    ensures Numbered(s.(out := out))
  {
  }

  lemma CallInOrder(s: State, call: Call)
    requires InOrder(s)
    ensures InOrder(OnCall(s, call))
  {
    OpenedInOrder(s, call);
    var s' := Opened(s, call);
    hide Opened, ReadAll, Starts, HasOpened, Numbered;
    if call.arguments != "" {
      CallBlock(s', call.index);
      SentNumbered(s', s'.out + [ArgsDelta(s'.blocks[call.index], call.arguments)]);
      ReadDelta(s'.out, |s'.order| + Offset(s'), s'.started, ArgsDelta(s'.blocks[call.index], call.arguments));
    }
  }

  lemma {:induction false} StateMirrors(ts: seq<Token>)
    ensures After(ts).started <==> HasText(ts)
    ensures After(ts).order != [] <==> HasCall(ts)
  {
    if ts != [] {
      var front, last := ts[..|ts| - 1], ts[|ts| - 1];
      StateMirrors(front);
      OrderNonEmpty(front);
      assert forall i :: 0 <= i < |front| ==> ts[i] == front[i];
      assert last.Text? ==> ts[|ts| - 1].Text?;
    }
  }

  /** Calls that were seen have a block, and blocks are in the order list. */
  lemma {:induction false} OrderNonEmpty(ts: seq<Token>)
    ensures After(ts).order == [] ==> After(ts).blocks == map[]
  {
    if ts != [] {
      OrderNonEmpty(ts[..|ts| - 1]);
    }
  }

  lemma LateFront(ts: seq<Token>)
    requires ts != [] && !LateText(ts)
    ensures !LateText(ts[..|ts| - 1])
    ensures ts[|ts| - 1].Text? ==> HasText(ts[..|ts| - 1]) || !HasCall(ts[..|ts| - 1])
  {
    var front := ts[..|ts| - 1];
    forall j | 0 <= j < |front|
      ensures !LateAt(front, j)
    {
      assert front[..j] == ts[..j] && !LateAt(ts, j);
    }
    assert !LateAt(ts, |ts| - 1);
  }

  lemma {:induction false} OrderlyInOrder(ts: seq<Token>)
    requires !LateText(ts)
    ensures InOrder(After(ts))
  {
    hide InOrder, HasText, HasCall, OnText, OnCall, LateText;
    if ts == [] {
      InitialInOrder();
    } else {
      var front := ts[..|ts| - 1];
      LateFront(ts);
      OrderlyInOrder(front);
      StateMirrors(front);
      match ts[|ts| - 1] {
        case Text(text) => TextInOrder(After(front), text);
        case ToolCall(call) => CallInOrder(After(front), call);
        case ToolsFinish => FinishInOrder(After(front));
      }
    }
  }

  lemma FinishInOrder(s: State)
    requires InOrder(s)
    ensures InOrder(s.(stop := "tool_use"))
  {
  }

  /** Stopping the tool blocks in order leaves nothing open. */
  lemma {:induction false} StopsClose(s: State, r: Reader, n: nat)
    requires Numbered(s) && n <= |s.order| && r.Reading?
    requires forall i :: i in r.open <==> Offset(s) <= i < |s.order| + Offset(s)
    ensures var r' := ReadAll(r, ToolStops(s, n));
            r'.Reading? && forall i :: i in r'.open <==> n + Offset(s) <= i < |s.order| + Offset(s)
  {
    if n > 0 {
      StopsClose(s, r, n - 1);
      assert ToolStops(s, n) == ToolStops(s, n - 1) + [BlockStop(s.blocks[s.order[n - 1]])];
      hide ReadAll;
      ReadOne(r, ToolStops(s, n - 1), BlockStop(s.blocks[s.order[n - 1]]));
    }
  }

  lemma EndingCompletes(s: State)
    requires InOrder(s)
    ensures WellFormed(s.out + Ending(s))
  {
    hide Starts;
    var r := ReadAll(Waiting, s.out);
    var first := if s.started then [BlockStop(0)] else [];
    var stops := ToolStops(s, |s.order|);
    var last := [MessageDelta(s.stop), MessageStop];
    ReadAppend(Waiting, s.out, Ending(s));
    assert Ending(s) == first + (stops + last);
    ReadAppend(r, first, stops + last);
    var r1 := ReadAll(r, first);
    TextStops(r, s);
    StopsClose(s, r1, |s.order|);
    ReadAppend(r1, stops, last);
    MessageEnds(ReadAll(r1, stops), s.stop);
  }

  lemma TextStops(r: Reader, s: State)
    requires HasOpened(r, |s.order| + Offset(s), s.started)
    ensures var r1 := ReadAll(r, if s.started then [BlockStop(0)] else []);
            r1.Reading? && forall i :: i in r1.open <==> Offset(s) <= i < |s.order| + Offset(s)
  {
  }

  lemma NoneLeft(open: set<int>)
    requires forall i: int :: i !in open
    ensures open == {}
  {
    var none: set<int> := {};
    forall i: int
      ensures i in open <==> i in none
    {
    }
    assert open == none;
  }

  lemma MessageEnds(r: Reader, stop: string)
    requires r.Reading? && forall i: int :: i !in r.open
    ensures ReadAll(r, [MessageDelta(stop), MessageStop]) == Complete
  {
    NoneLeft(r.open);
    var last := [MessageDelta(stop), MessageStop];
    assert last[1..] == [MessageStop] && [MessageStop][1..] == [];
  }

  // ---------------------------------------------------------------- streams whose text comes late

  lemma {:induction false} OutGrows(ts: seq<Token>, j: nat)
    requires j <= |ts|
    ensures After(ts[..j]).out <= After(ts).out
    decreases |ts| - j
  {
    if j < |ts| {
      AfterAppend(ts[..j], ts[j]);
      assert ts[..j] + [ts[j]] == ts[..j + 1];
      OutGrows(ts, j + 1);
    } else {
      assert ts[..j] == ts;
    }
  }

  /** The late text block takes an index a tool block already has. */
  lemma LateTextBreaks(ts: seq<Token>, j: nat)
    requires LateAt(ts, j)
    ensures ReadAll(Waiting, After(ts[..j + 1]).out) == Broken
  {
    var front := ts[..j];
    forall k | 0 <= k < |front|
      ensures !LateAt(front, k)
    {
    }
    OrderlyInOrder(front);
    StateMirrors(front);
    var s := After(front);
    AfterAppend(front, ts[j]);
    assert front + [ts[j]] == ts[..j + 1];
    assert s.blocks[s.order[0]] == 0;
    hide After, ReadAll;
    ReadOne(Waiting, s.out, BlockStart(0, TextBlock));
    var mid := s.out + [BlockStart(0, TextBlock)];
    ReadOne(Waiting, mid, TextDelta(0, ts[j].text));
    assert OnText(s, ts[j].text).out == mid + [TextDelta(0, ts[j].text)];
  }

  /** The stream is well formed, for every sequence of lines, exactly when text
      does not first appear after a tool call. */
  lemma WellFormedExactly(lines: seq<Line>)
    ensures WellFormed(Stream(lines)) <==> !LateText(Tokens(lines))
  {
    var ts := Tokens(lines);
    OrderAlwaysKnown(ts);
    if LateText(ts) {
      var j :| 0 <= j < |ts| && LateAt(ts, j);
      LateTextBreaks(ts, j);
      OutGrows(ts, j + 1);
      var early := After(ts[..j + 1]).out;
      var rest := Stream(lines)[|early|..];
      assert Stream(lines) == early + rest;
      ReadAppend(Waiting, early, rest);
      BrokenStays(rest);
    } else {
      OrderlyInOrder(ts);
      EndingCompletes(After(ts));
    }
  }

  /** A tool call and then the first text: both blocks start at index 0. */
  lemma LateTextCollides(id: string, name: string)
    ensures var lines := [Chunk("", [Call(0, id, name, "")], ""), Chunk("t", [], ""), Done];
            && !WellFormed(Stream(lines))
            && Stream(lines)
               == [MessageStart, BlockStart(0, ToolBlock(id, name)), BlockStart(0, TextBlock), TextDelta(0, "t"),
                   BlockStop(0), BlockStop(0), MessageDelta("end_turn"), MessageStop]
  {
    var call := Call(0, id, name, "");
    var lines := [Chunk("", [call], ""), Chunk("t", [], ""), Done];
    var ts := [ToolCall(call), Text("t")];
    assert lines[1..] == [Chunk("t", [], ""), Done] && lines[1..][1..] == [Done];
    assert ChunkTokens(lines[0]) == ts[..1] && ChunkTokens(lines[1]) == ts[1..];
    assert Tokens([Done]) == [] && Tokens(lines[1..]) == ts[1..] + [];
    assert Tokens(lines) == ts[..1] + ts[1..] == ts;
    assert ts[..1] == [] + [ToolCall(call)] && ts == ts[..1] + [Text("t")];
    AfterAppend([], ToolCall(call));
    AfterAppend(ts[..1], Text("t"));
    assert ts[..1][0].ToolCall?;
    assert LateAt(ts, 1);
    WellFormedExactly(lines);
    assert After(ts) == OnText(OnCall(INITIAL, call), "t");
  }

  lemma {:induction false} NoStarts(a: seq<Event>, b: seq<Event>)
    requires forall k :: 0 <= k < |b| ==> !b[k].BlockStart?
    ensures Starts(a + b) == Starts(a)
  {
    if b == [] {
      assert a + b == a;
    } else {
      NoStarts(a, b[..|b| - 1]);
      assert (a + b)[..|a + b| - 1] == a + b[..|b| - 1];
    }
  }

  /** Block indices are then 0, 1, 2, ... in the order the blocks start. */
  lemma IndicesContiguous(lines: seq<Line>)
    requires !LateText(Tokens(lines))
    ensures var s := After(Tokens(lines)); Starts(Stream(lines)) == UpTo(|s.order| + Offset(s))
  {
    var ts := Tokens(lines);
    OrderAlwaysKnown(ts);
    OrderlyInOrder(ts);
    NoStarts(After(ts).out, Ending(After(ts)));
  }

  // ---------------------------------------------------------------- conservation

  function TextOf(es: seq<Event>): string {
    if es == [] then ""
    else TextOf(es[..|es| - 1]) + if es[|es| - 1].TextDelta? then es[|es| - 1].text else ""
  }

  /** The partial arguments sent for one block. */
  function ArgsOf(es: seq<Event>, block: int): string {
    if es == [] then ""
    else ArgsOf(es[..|es| - 1], block)
         + if es[|es| - 1].ArgsDelta? && es[|es| - 1].index == block then es[|es| - 1].partial else ""
  }

  function TextIn(ts: seq<Token>): string {
    if ts == [] then ""
    else TextIn(ts[..|ts| - 1]) + if ts[|ts| - 1].Text? then ts[|ts| - 1].text else ""
  }

  /** The arguments received for one upstream call. */
  function ArgsIn(ts: seq<Token>, index: int): string {
    if ts == [] then ""
    else ArgsIn(ts[..|ts| - 1], index)
         + if ts[|ts| - 1].ToolCall? && ts[|ts| - 1].call.index == index then ts[|ts| - 1].call.arguments else ""
  }

  lemma TextOne(es: seq<Event>, e: Event)
    ensures TextOf(es + [e]) == TextOf(es) + if e.TextDelta? then e.text else ""
  {
  }

  lemma ArgsOne(es: seq<Event>, e: Event, block: int)
    ensures ArgsOf(es + [e], block) == ArgsOf(es, block) + if e.ArgsDelta? && e.index == block then e.partial else ""
  {
  }

  lemma OnTextSends(s: State, text: string, block: int)
    ensures TextOf(OnText(s, text).out) == TextOf(s.out) + text
    ensures ArgsOf(OnText(s, text).out, block) == ArgsOf(s.out, block)
  {
    var mid := if s.started then s.out else s.out + [BlockStart(0, TextBlock)];
    TextOne(s.out, BlockStart(0, TextBlock));
    ArgsOne(s.out, BlockStart(0, TextBlock), block);
    TextOne(mid, TextDelta(0, text));
    ArgsOne(mid, TextDelta(0, text), block);
    assert OnText(s, text).out == mid + [TextDelta(0, text)];
  }

  lemma OnCallSends(s: State, call: Call, block: int)
    ensures TextOf(OnCall(s, call).out) == TextOf(s.out)
    ensures ArgsOf(OnCall(s, call).out, block)
            == ArgsOf(s.out, block) + if Opened(s, call).blocks[call.index] == block then call.arguments else ""
  {
    var s' := Opened(s, call);
    if call.index !in s.blocks {
      var start := BlockStart(|s.blocks| + Offset(s), ToolBlock(call.id, call.name));
      TextOne(s.out, start);
      ArgsOne(s.out, start, block);
    }
    assert TextOf(s'.out) == TextOf(s.out) && ArgsOf(s'.out, block) == ArgsOf(s.out, block);
    TextOne(s'.out, ArgsDelta(s'.blocks[call.index], call.arguments));
    ArgsOne(s'.out, ArgsDelta(s'.blocks[call.index], call.arguments), block);
  }

  /** Block numbers stay below a bound that every new block takes, so no two
      calls share one, early or late text alike. */
  predicate Bounded(s: State) {
    && (forall i :: i in s.blocks ==> 0 <= s.blocks[i] < |s.blocks| + Offset(s))
    && (forall i, j :: i in s.blocks && j in s.blocks && i != j ==> s.blocks[i] != s.blocks[j])
  }

  lemma {:induction false} AlwaysBounded(ts: seq<Token>)
    ensures Bounded(After(ts))
  {
    if ts != [] {
      AlwaysBounded(ts[..|ts| - 1]);
    }
  }

  /** Nothing is sent for a block number that is not in use yet. */
  lemma {:induction false} UnusedIsSilent(ts: seq<Token>, block: int)
    requires block >= |After(ts).blocks| + Offset(After(ts))
    ensures ArgsOf(After(ts).out, block) == ""
  {
    if ts != [] {
      hide OnText, OnCall, ArgsOf;
      var front := ts[..|ts| - 1];
      BoundGrows(front, ts[|ts| - 1]);
      UnusedIsSilent(front, block);
      AlwaysBounded(ts);
      match ts[|ts| - 1] {
        case Text(text) => OnTextSends(After(front), text, block);
        case ToolCall(call) =>
          OnCallSends(After(front), call, block);
          OpenedBlocks(After(front), call);
        case ToolsFinish =>
      }
    } else {
      assert INITIAL.out[..0] == [];
    }
  }

  lemma OpenedBlocks(s: State, call: Call)
    ensures OnCall(s, call).blocks == Opened(s, call).blocks && OnCall(s, call).started == s.started
    ensures call.index in Opened(s, call).blocks
  {
  }

  lemma BoundGrows(ts: seq<Token>, t: Token)
    ensures var s, s' := After(ts), Step(After(ts), t);
            |s.blocks| + Offset(s) <= |s'.blocks| + Offset(s')
  {
  }

  /** The text the reader gets is the text the upstream sent. */
  lemma {:induction false} TextConserved(ts: seq<Token>)
    ensures TextOf(After(ts).out) == TextIn(ts)
  {
    hide OnText, OnCall;
    if ts == [] {
      assert INITIAL.out[..0] == [];
    } else {
      var front := ts[..|ts| - 1];
      TextConserved(front);
      match ts[|ts| - 1] {
        case Text(text) => OnTextSends(After(front), text, 0);
        case ToolCall(call) => OnCallSends(After(front), call, 0);
        case ToolsFinish =>
      }
    }
  }

  lemma {:induction false} UnseenHasNoArgs(ts: seq<Token>, index: int)
    requires index !in After(ts).blocks
    ensures ArgsIn(ts, index) == ""
  {
    if ts != [] {
      UnseenHasNoArgs(ts[..|ts| - 1], index);
    }
  }

  /** The arguments the reader gets for a call's block are the arguments the
      upstream sent for that call. */
  lemma {:induction false} ArgsConserved(ts: seq<Token>, index: int)
    requires index in After(ts).blocks
    ensures ArgsOf(After(ts).out, After(ts).blocks[index]) == ArgsIn(ts, index)
  {
    var front, last := ts[..|ts| - 1], ts[|ts| - 1];
    var s := After(front);
    var block := After(ts).blocks[index];
    AlwaysBounded(ts);
    AlwaysBounded(front);
    hide ArgsOf, OnText, Bounded;
    match last {
      case Text(text) =>
        OnTextSends(s, text, block);
        OnTextBlocks(s, text);
        ArgsConserved(front, index);
      case ToolCall(call) =>
        OnCallSends(s, call, block);
        OpenedBlocks(s, call);
        CallArgs(front, call, index);
        if index in s.blocks {
          ArgsConserved(front, index);
        } else {
          UnseenHasNoArgs(front, index);
          UnusedIsSilent(front, block);
        }
      case ToolsFinish => ArgsConserved(front, index);
    }
  }

  lemma OnTextBlocks(s: State, text: string)
    ensures OnText(s, text).blocks == s.blocks
  {
  }

  /** A call's delta goes to the block of `index` only if it is its own. */
  lemma CallArgs(front: seq<Token>, call: Call, index: int)
    requires Bounded(OnCall(After(front), call)) && index in OnCall(After(front), call).blocks
    ensures var blocks := Opened(After(front), call).blocks;
            && index in blocks && (blocks[call.index] == blocks[index] <==> call.index == index)
            && (index in After(front).blocks ==> blocks[index] == After(front).blocks[index])
            && (index !in After(front).blocks ==>
                  index == call.index && blocks[index] >= |After(front).blocks| + Offset(After(front)))
  {
  }

  lemma {:induction false} NoDeltas(a: seq<Event>, b: seq<Event>, block: int)
    requires forall k :: 0 <= k < |b| ==> !b[k].TextDelta? && !b[k].ArgsDelta?
    ensures TextOf(a + b) == TextOf(a) && ArgsOf(a + b, block) == ArgsOf(a, block)
  {
    if b == [] {
      assert a + b == a;
    } else {
      NoDeltas(a, b[..|b| - 1], block);
      assert (a + b)[..|a + b| - 1] == a + b[..|b| - 1];
    }
  }

  /** Over the whole stream, well formed or not: the text is the upstream text,
      and each call's block gets that call's arguments. */
  lemma StreamConserves(lines: seq<Line>, index: int)
    ensures TextOf(Stream(lines)) == TextIn(Tokens(lines))
    ensures index in After(Tokens(lines)).blocks ==>
              ArgsOf(Stream(lines), After(Tokens(lines)).blocks[index]) == ArgsIn(Tokens(lines), index)
  {
    var ts := Tokens(lines);
    OrderAlwaysKnown(ts);
    TextConserved(ts);
    NoDeltas(After(ts).out, Ending(After(ts)), 0);
    if index in After(ts).blocks {
      ArgsConserved(ts, index);
      NoDeltas(After(ts).out, Ending(After(ts)), After(ts).blocks[index]);
    }
  }

  /** The first fragment received for an upstream call. */
  function FirstFragment(ts: seq<Token>, index: int): Option<Call> {
    if ts == [] then None
    else
      var earlier := FirstFragment(ts[..|ts| - 1], index);
      if earlier.Some? then earlier
      else if ts[|ts| - 1].ToolCall? && ts[|ts| - 1].call.index == index then Some(ts[|ts| - 1].call) else None
  }

  /** Every call that was received is announced by a block start that carries
      the id and name of its first fragment. */
  lemma {:induction false} CallAnnounced(ts: seq<Token>, index: int)
    ensures index in After(ts).blocks <==> FirstFragment(ts, index).Some?
    ensures index in After(ts).blocks ==>
              var first := FirstFragment(ts, index).value;
              BlockStart(After(ts).blocks[index], ToolBlock(first.id, first.name)) in After(ts).out
  {
    if ts != [] {
      CallAnnounced(ts[..|ts| - 1], index);
    }
  }

  /** The stop reason says whether the upstream finished for a tool call. */
  lemma {:induction false} StopReasonTold(ts: seq<Token>)
    ensures After(ts).stop == if ToolsFinish in ts then "tool_use" else "end_turn"
  {
    if ts != [] {
      StopReasonTold(ts[..|ts| - 1]);
      assert ts == ts[..|ts| - 1] + [ts[|ts| - 1]];
    }
  }
}
