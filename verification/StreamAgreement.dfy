/**
 * Well-formed streams.  An event grammar accepts the output of the translator exactly when a
 * condition on the input chunks holds, and then the content a client collects from the events is
 * the content the non-streaming translator gives for the same completion.
 */
module StreamAgreement {
  import opened Prelude
  import opened JsonValues
  import opened EventTranslator
  import Chat = ChatResponse

  // ---------------------------------------------------------------------------
  // The grammar of an Anthropic event stream
  // ---------------------------------------------------------------------------

  /**
   * message_start (block_start delta* block_stop)* message_delta message_stop, where block n
   * carries index n in all its events and its deltas are of its own kind.
   */
  datatype Grammar =
    | Expecting
    | Between(index: nat)
    | InText(index: nat)
    | InTool(index: nat)
    | Closing
    | Complete
    | Rejected

  function Accept(g: Grammar, e: Event): Grammar {
    match (g, e)
    case (Expecting, MessageStart(_, _)) => Between(0)
    case (Between(n), BlockStart(i, kind)) =>
      if i != n then Rejected else if kind.TextBlock? then InText(n) else InTool(n)
    case (InText(n), BlockDelta(i, TextDelta(_))) => if i == n then g else Rejected
    case (InTool(n), BlockDelta(i, JsonDelta(_))) => if i == n then g else Rejected
    case (InText(n), BlockStop(i)) => if i == n then Between(n + 1) else Rejected
    case (InTool(n), BlockStop(i)) => if i == n then Between(n + 1) else Rejected
    case (Between(_), MessageDelta(_, _)) => Closing
    case (Closing, MessageStop) => Complete
    case _ => Rejected
  }

  function Read(g: Grammar, events: seq<Event>): Grammar { Fold(Accept, g, events) }

  lemma {:induction false} RejectedForGood(events: seq<Event>)
    ensures Read(Rejected, events) == Rejected
  {
    if events != [] { RejectedForGood(events[1..]); }
  }

  // ---------------------------------------------------------------------------
  // The condition on the input
  // ---------------------------------------------------------------------------

  /**
   * How far the input has come: no chunk yet; text may still come; a tool call has been opened, so
   * no more text; `[DONE]` was seen, so nothing that would be emitted; or the stream is misordered.
   */
  datatype Phase = Waiting | Texts | Tools | Finished | Misordered

  function AfterContent(p: Phase, content: Option<string>): Phase {
    if content.None? || p == Texts then p else Misordered
  }

  function AfterFragment(p: Phase, tc: ToolFragment): Phase {
    if tc.id.Some? then (if p == Texts || p == Tools then Tools else Misordered)
    else if tc.arguments.GetOr("") == "" || p == Tools then p
    else Misordered
  }

  function FragmentsIn(item: Item): seq<ToolFragment> {
    match CallsIn(item)
    case Some(tcs) => tcs
    case None => []
  }

  function AfterItem(p: Phase, item: Item): Phase {
    match item
    case Junk => p
    case Done => if p == Texts || p == Tools then Finished else Misordered
    case Data(chunk) =>
      var q := AfterContent(if p == Waiting then Texts else p, ContentIn(item));
      Fold(AfterFragment, q, FragmentsIn(item))
  }

  /**
   * At least one chunk, then one `[DONE]`; no text after the first tool call is opened; no
   * arguments before it; nothing to emit after `[DONE]`.
   */
  predicate WellOrdered(items: seq<Item>) { Fold(AfterItem, Waiting, items) == Finished }

  lemma {:induction false} MisorderedForGood(tcs: seq<ToolFragment>)
    ensures Fold(AfterFragment, Misordered, tcs) == Misordered
  {
    if tcs != [] { MisorderedForGood(tcs[1..]); }
  }

  // ---------------------------------------------------------------------------
  // The grammar theorem
  // ---------------------------------------------------------------------------

  predicate InStep(t: State, g: Grammar, p: Phase) {
    match p
    case Waiting => !t.started && !t.textOpen && !t.toolOpen && t.blockIndex == 0 && g == Expecting
    case Texts => t.started && !t.toolOpen && g == (if t.textOpen then InText(t.blockIndex) else Between(t.blockIndex))
    case Tools => t.started && t.toolOpen && !t.textOpen && g == InTool(t.blockIndex)
    case Finished => t.started && !t.toolOpen && !t.textOpen && g == Complete
    case Misordered => g == Rejected
  }

  lemma ContentInStep(t: State, g: Grammar, p: Phase, content: Option<string>)
    requires InStep(t, g, p) && p != Waiting
    ensures var r := TransformContent(t, content);
            InStep(r.state, Read(g, r.events), AfterContent(p, content))
  {
    if content.Some? {
      var delta := BlockDelta(t.blockIndex, TextDelta(content.value));
      FoldOne(Accept, g, delta);
      FoldTwo(Accept, g, BlockStart(t.blockIndex, TextBlock), delta);
    }
  }

  lemma CloseTextInStep(t: State, g: Grammar, p: Phase)
    requires InStep(t, g, p) && p != Waiting
    ensures var r := CloseTextBlock(t);
            InStep(r.state, Read(g, r.events), p) && !r.state.textOpen
  {
    FoldOne(Accept, g, BlockStop(t.blockIndex));
  }

  lemma ArgumentsInStep(t: State, g: Grammar, p: Phase, arguments: Option<string>)
    requires InStep(t, g, p) && p != Waiting && !t.textOpen
    ensures InStep(t, Read(g, EmitArguments(t, arguments).events),
                   AfterFragment(p, ToolFragment(0, None, None, arguments)))
  {
    FoldOne(Accept, g, BlockDelta(t.blockIndex, JsonDelta(arguments.GetOr(""))));
  }

  lemma ToolInStep(t: State, g: Grammar, p: Phase, tc: ToolFragment)
    requires InStep(t, g, p) && p != Waiting && !t.textOpen
    ensures var r := TransformToolDelta(t, tc);
            InStep(r.state, Read(g, r.events), AfterFragment(p, tc)) && !r.state.textOpen
  {
    if tc.id.None? {
      ArgumentsInStep(t, g, p, tc.arguments);
    } else {
      var close := CloseToolBlock(t);
      var open := EmitToolBlockStart(close.state, tc.id.value, tc.name.GetOr(""));
      var args := EmitArguments(open.state, tc.arguments);
      FoldOne(Accept, g, BlockStop(t.blockIndex));
      var g1 := Read(g, close.events);
      FoldOne(Accept, g1, open.events[0]);
      var g2 := Read(g1, open.events);
      FoldOne(Accept, g2, BlockDelta(t.blockIndex, JsonDelta(tc.arguments.GetOr(""))));
      FoldAppend(Accept, g, close.events, open.events);
      FoldAppend(Accept, g, close.events + open.events, args.events);
      if p == Texts || p == Tools {
        ArgumentsInStep(open.state, g2, Tools, tc.arguments);
      } else {
        RejectedForGood(args.events);
      }
    }
  }

  lemma {:induction false} ToolsInStep(t: State, g: Grammar, p: Phase, tcs: seq<ToolFragment>)
    requires InStep(t, g, p) && p != Waiting && !t.textOpen
    ensures var r := TransformToolDeltas(t, tcs);
            InStep(r.state, Read(g, r.events), Fold(AfterFragment, p, tcs))
    decreases |tcs|
  {
    if tcs != [] {
      var first := TransformToolDelta(t, tcs[0]);
      ToolInStep(t, g, p, tcs[0]);
      ToolsInStep(first.state, Read(g, first.events), AfterFragment(p, tcs[0]), tcs[1..]);
      FoldAppend(Accept, g, first.events, TransformToolDeltas(first.state, tcs[1..]).events);
    }
  }

  lemma DoneInStep(t: State, g: Grammar, p: Phase)
    requires InStep(t, g, p)
    ensures var r := EmitDone(t);
            InStep(r.state, Read(g, r.events), AfterItem(p, Done))
  {
    var text := CloseTextBlock(t);
    var tool := CloseToolBlock(text.state);
    FoldOne(Accept, g, BlockStop(t.blockIndex));
    var g1 := Read(g, text.events);
    FoldOne(Accept, g1, BlockStop(text.state.blockIndex));
    FoldAppend(Accept, g, text.events, tool.events);
    FoldAppend(Accept, g, text.events + tool.events, FinalEvents(t));
    FoldTwo(Accept, Read(g1, tool.events), FinalEvents(t)[0], FinalEvents(t)[1]);
  }

  lemma ItemInStep(id: string, t: State, g: Grammar, p: Phase, item: Item)
    requires InStep(t, g, p)
    ensures var r := TransformItem(id, t, item);
            InStep(r.state, Read(g, r.events), AfterItem(p, item))
  {
    match item {
      case Junk =>
      case Done => DoneInStep(t, g, p);
      case Data(chunk) =>
        if p == Misordered {
          RejectedForGood(TransformItem(id, t, item).events);
          MisorderedForGood(DeltaOf(chunk).toolCalls.GetOr([]));
        } else {
          ChunkInStep(id, t, g, p, chunk);
        }
    }
  }

  lemma ChunkInStep(id: string, t: State, g: Grammar, p: Phase, chunk: Chunk)
    requires InStep(t, g, p) && p != Misordered
    ensures var r := TransformChunk(id, t, chunk);
            InStep(r.state, Read(g, r.events), AfterItem(p, Data(chunk)))
  {
    var start := EmitMessageStart(id, t, chunk);
    FoldOne(Accept, g, MessageStart(id, chunk.model.GetOr("")));
    var g1 := Read(g, start.events);
    var p1 := if p == Waiting then Texts else p;
    var delta := DeltaOf(chunk);
    ContentInStep(start.state, g1, p1, delta.content);
    var text := TransformContent(start.state, delta.content);
    var g2, p2 := Read(g1, text.events), AfterContent(p1, delta.content);
    var tools := TransformToolCalls(text.state, delta.toolCalls);
    if delta.toolCalls.Some? {
      CloseTextInStep(text.state, g2, p2);
      var close := CloseTextBlock(text.state);
      ToolsInStep(close.state, Read(g2, close.events), p2, delta.toolCalls.value);
      FoldAppend(Accept, g2, close.events, TransformToolDeltas(close.state, delta.toolCalls.value).events);
    }
    FoldAppend(Accept, g1, text.events, tools.events);
    FoldAppend(Accept, g, start.events, text.events + tools.events);
  }

  lemma {:induction false} RunInStep(id: string, t: State, g: Grammar, p: Phase, items: seq<Item>)
    requires InStep(t, g, p)
    ensures var r := Transform(id, t, items);
            InStep(r.state, Read(g, r.events), Fold(AfterItem, p, items))
    decreases |items|
  {
    if items != [] {
      var first := TransformItem(id, t, items[0]);
      ItemInStep(id, t, g, p, items[0]);
      RunInStep(id, first.state, Read(g, first.events), AfterItem(p, items[0]), items[1..]);
      FoldAppend(Accept, g, first.events, Transform(id, first.state, items[1..]).events);
    }
  }

  /** The output is a well-formed event stream exactly when the input is well ordered. */
  lemma GrammarIff(id: string, items: seq<Item>)
    ensures Read(Expecting, Transform(id, INITIAL, items).events) == Complete <==> WellOrdered(items)
  {
    RunInStep(id, INITIAL, Expecting, Waiting, items);
  }

  function FirstModel(items: seq<Item>): string {
    if items == [] then ""
    else if items[0].Data? then items[0].chunk.model.GetOr("")
    else FirstModel(items[1..])
  }

  /** A well-ordered stream opens with the message id and the model of its first chunk, and never again. */
  lemma {:induction false} MessageIsNamed(id: string, items: seq<Item>)
    requires WellOrdered(items)
    ensures var events := Transform(id, INITIAL, items).events;
            && events != [] && events[0] == MessageStart(id, FirstModel(items))
            && forall i | 1 <= i < |events| :: !events[i].MessageStart?
  {
    GrammarIff(id, items);
    match items[0] {
      case Junk =>
        MessageIsNamed(id, items[1..]);
        var events := Transform(id, INITIAL, items[1..]).events;
        assert [] + events == events;
      case Done => MisorderedRun(items[1..]);
      case Data(chunk) =>
        var events := Transform(id, INITIAL, items).events;
        assert Read(Accept(Expecting, events[0]), events[1..]) == Complete;
        NoSecondStart(Between(0), events[1..]);
        assert forall i | 1 <= i < |events| :: events[i] == events[1..][i - 1];
    }
  }

  lemma {:induction false} NoSecondStart(g: Grammar, events: seq<Event>)
    requires g != Expecting && Read(g, events) == Complete
    ensures forall i | 0 <= i < |events| :: !events[i].MessageStart?
    decreases |events|
  {
    if events != [] {
      if Accept(g, events[0]) == Rejected { RejectedForGood(events[1..]); }
      NoSecondStart(Accept(g, events[0]), events[1..]);
    }
  }

  /** Text after a tool call has been opened starts a block inside a block. */
  lemma TextAfterToolIsRejected(id: string)
    ensures var fragment := ToolFragment(0, Some("call"), None, None);
            var tool := Chunk(None, Some(Choice(Some(ChunkDelta(None, Some([fragment]))), None)), None);
            var text := Chunk(None, Some(Choice(Some(ChunkDelta(Some("late"), None)), None)), None);
            Read(Expecting, Transform(id, INITIAL, [Data(tool), Data(text), Done]).events) == Rejected
  {
    var fragment := ToolFragment(0, Some("call"), None, None);
    var tool := Chunk(None, Some(Choice(Some(ChunkDelta(None, Some([fragment]))), None)), None);
    var text := Chunk(None, Some(Choice(Some(ChunkDelta(Some("late"), None)), None)), None);
    var items := [Data(tool), Data(text), Done];
    RunInStep(id, INITIAL, Expecting, Waiting, items);
    FoldOne(AfterFragment, Texts, fragment);
    assert AfterItem(Waiting, items[0]) == Tools;
    assert AfterItem(Tools, items[1]) == Misordered;
    assert items[1..][1..] == [Done];
    FoldOne(AfterItem, Misordered, Done);
    assert Fold(AfterItem, Tools, items[1..]) == Misordered;
    assert Fold(AfterItem, Waiting, items) == Misordered;
  }

  // ---------------------------------------------------------------------------
  // What a client collects, and what the non-streaming response would have been
  // ---------------------------------------------------------------------------

  datatype ClientBlock = ClientText(text: string) | ClientTool(id: string, name: string, json: string)

  datatype Collected = Collected(blocks: seq<ClientBlock>, stopReason: Option<string>, outputTokens: Option<nat>)

  const NOTHING := Collected([], None, None)

  function Collect(c: Collected, e: Event): Collected {
    match e
    case BlockStart(i, TextBlock) =>
      if i == |c.blocks| then c.(blocks := c.blocks + [ClientText("")]) else c
    case BlockStart(i, ToolBlock(id, name)) =>
      if i == |c.blocks| then c.(blocks := c.blocks + [ClientTool(id, name, "")]) else c
    case BlockDelta(i, TextDelta(s)) =>
      if i < |c.blocks| && c.blocks[i].ClientText? then c.(blocks := c.blocks[i := ClientText(c.blocks[i].text + s)])
      else c
    case BlockDelta(i, JsonDelta(s)) =>
      if i < |c.blocks| && c.blocks[i].ClientTool? then
        c.(blocks := c.blocks[i := c.blocks[i].(json := c.blocks[i].json + s)])
      else c
    case MessageDelta(reason, tokens) => c.(stopReason := Some(reason), outputTokens := Some(tokens))
    case _ => c
  }

  function CollectAll(c: Collected, events: seq<Event>): Collected { Fold(Collect, c, events) }

  /** Adjacent texts joined, empty ones dropped, tool arguments parsed. */
  datatype Joined = Joined(out: seq<Chat.ContentBlock>, text: string)

  function Join(parse: Parser, blocks: seq<ClientBlock>): Joined {
    if blocks == [] then Joined([], "")
    else
      var j := Join(parse, blocks[..|blocks| - 1]);
      match blocks[|blocks| - 1]
      case ClientText(s) => Joined(j.out, j.text + s)
      case ClientTool(id, name, json) =>
        Joined(j.out + Chat.TextBlocks(Some(j.text)) + [Chat.ToolUse(id, name, Chat.InputOf(parse, json))], "")
  }

  function Rendered(parse: Parser, blocks: seq<ClientBlock>): seq<Chat.ContentBlock> {
    var j := Join(parse, blocks);
    j.out + Chat.TextBlocks(Some(j.text))
  }

  /** The completion the chunks are pieces of, a tool call starting wherever a fragment has an id. */
  datatype Draft = Draft(content: string, calls: seq<Chat.ToolCall>, finish: Option<string>, tokens: Option<nat>)

  const BLANK_DRAFT := Draft("", [], None, None)

  function AddFragment(calls: seq<Chat.ToolCall>, tc: ToolFragment): seq<Chat.ToolCall> {
    var args := tc.arguments.GetOr("");
    if tc.id.Some? then calls + [Chat.ToolCall(tc.id, Some(tc.name.GetOr("")), Some(args))]
    else if calls == [] then calls
    else
      var last := calls[|calls| - 1];
      calls[|calls| - 1 := last.(arguments := Some(last.arguments.GetOr("") + args))]
  }

  function AddChunk(d: Draft, chunk: Chunk): Draft {
    var item := Data(chunk);
    Draft(
      d.content + ItemText(item),
      Fold(AddFragment, d.calls, FragmentsIn(item)),
      if FinishIn(item).Some? then FinishIn(item) else d.finish,
      if TokensIn(item).Some? then TokensIn(item) else d.tokens)
  }

  /** Chunks up to the first `[DONE]`. */
  function DraftOf(d: Draft, items: seq<Item>): Draft
    decreases |items|
  {
    if items == [] || items[0].Done? then d
    else DraftOf(if items[0].Data? then AddChunk(d, items[0].chunk) else d, items[1..])
  }

  function CompletionOf(d: Draft): Chat.Completion {
    Chat.Completion(
      Some(Chat.ChatChoice(Some(Chat.ChatMessage(Some(d.content), Some(d.calls))), d.finish)),
      Some(Chat.ChatUsage(None, d.tokens, None)))
  }

  // ---------------------------------------------------------------------------
  // The agreement theorem
  // ---------------------------------------------------------------------------

  function ClientToolOf(tc: Chat.ToolCall): ClientBlock {
    ClientTool(tc.id.GetOr(""), tc.name.GetOr(""), tc.arguments.GetOr(""))
  }

  predicate WholeCall(tc: Chat.ToolCall) { tc.id.Some? && tc.name.Some? && tc.arguments.Some? }

  /** The collected blocks are the draft's text, then its calls, the last of which may be growing. */
  predicate Mirrors(parse: Parser, t: State, p: Phase, blocks: seq<ClientBlock>, content: string,
                    calls: seq<Chat.ToolCall>)
  {
    && |blocks| == t.blockIndex + (if t.textOpen || t.toolOpen then 1 else 0)
    && match p
       case Waiting => blocks == [] && content == "" && calls == []
       case Texts =>
         && calls == []
         && !t.toolOpen
         && Join(parse, blocks) == Joined([], content)
         && (t.textOpen ==> blocks[|blocks| - 1].ClientText?)
       case Tools =>
         && calls != [] && blocks != [] && t.toolOpen && !t.textOpen
         && WholeCall(calls[|calls| - 1])
         && blocks[|blocks| - 1] == ClientToolOf(calls[|calls| - 1])
         && Rendered(parse, blocks[..|blocks| - 1]) ==
            Chat.TextBlocks(Some(content)) + Chat.ToolUses(parse, calls[..|calls| - 1])
       case _ => true
  }

  lemma ToolsRendered(parse: Parser, t: State, blocks: seq<ClientBlock>, content: string, calls: seq<Chat.ToolCall>)
    requires Mirrors(parse, t, Tools, blocks, content, calls)
    ensures Rendered(parse, blocks) == Chat.TextBlocks(Some(content)) + Chat.ToolUses(parse, calls)
  {
    var n := |calls| - 1;
    assert calls == calls[..n] + [calls[n]];
    Chat.ToolUsesAppend(parse, calls[..n], [calls[n]]);
    assert Chat.ToolUses(parse, [calls[n]]) == [Chat.ToolUseOf(parse, calls[n])] by { assert [calls[n]][1..] == []; }
    Assoc(Chat.TextBlocks(Some(content)), Chat.ToolUses(parse, calls[..n]), [Chat.ToolUseOf(parse, calls[n])]);
  }

  lemma GrowText(parse: Parser, blocks: seq<ClientBlock>, s: string)
    requires blocks != [] && blocks[|blocks| - 1].ClientText?
    ensures var n := |blocks| - 1;
            var grown := blocks[n := ClientText(blocks[n].text + s)];
            Join(parse, grown) == Join(parse, blocks).(text := Join(parse, blocks).text + s)
  {
    var n := |blocks| - 1;
    var grown := blocks[n := ClientText(blocks[n].text + s)];
    assert grown[..n] == blocks[..n];
    Assoc(Join(parse, blocks[..n]).text, blocks[n].text, s);
  }

  lemma ContentMirrors(parse: Parser, t: State, c: Collected, d: Draft, content: Option<string>)
    requires Mirrors(parse, t, Texts, c.blocks, d.content, d.calls)
    ensures var r := TransformContent(t, content);
            var c' := CollectAll(c, r.events);
            && Mirrors(parse, r.state, Texts, c'.blocks, d.content + content.GetOr(""), d.calls)
            && c' == c.(blocks := c'.blocks)
  {
    if content.None? {
      assert d.content + "" == d.content;
    } else {
      var i := t.blockIndex;
      var delta := BlockDelta(i, TextDelta(content.value));
      var withBlock := if t.textOpen then c.blocks else c.blocks + [ClientText("")];
      assert withBlock[..i] == c.blocks[..i];
      if !t.textOpen {
        assert withBlock[..i] == c.blocks;
        assert Join(parse, withBlock) == Join(parse, c.blocks) by {
          assert Join(parse, c.blocks).text + "" == Join(parse, c.blocks).text;
        }
        FoldTwo(Collect, c, BlockStart(i, TextBlock), delta);
      } else {
        FoldOne(Collect, c, delta);
      }
      GrowText(parse, withBlock, content.value);
    }
  }

  lemma CloseTextMirrors(parse: Parser, t: State, p: Phase, c: Collected, d: Draft)
    requires Mirrors(parse, t, p, c.blocks, d.content, d.calls) && (p == Texts || p == Tools)
    ensures var r := CloseTextBlock(t);
            && Mirrors(parse, r.state, p, c.blocks, d.content, d.calls)
            && CollectAll(c, r.events) == c
            && !r.state.textOpen
  {
    FoldOne(Collect, c, BlockStop(t.blockIndex));
  }

  lemma ArgumentsMirror(parse: Parser, t: State, c: Collected, content: string, calls: seq<Chat.ToolCall>,
                        tc: ToolFragment)
    requires Mirrors(parse, t, Tools, c.blocks, content, calls)
    ensures var c' := CollectAll(c, EmitArguments(t, tc.arguments).events);
            && Mirrors(parse, t, Tools, c'.blocks, content, AddFragment(calls, tc.(id := None)))
            && c' == c.(blocks := c'.blocks)
  {
    var args := tc.arguments.GetOr("");
    var n := |calls| - 1;
    var grown := AddFragment(calls, tc.(id := None));
    assert grown[..n] == calls[..n];
    FoldOne(Collect, c, BlockDelta(t.blockIndex, JsonDelta(args)));
    if args == "" {
      assert calls[n].arguments.GetOr("") + args == calls[n].arguments.GetOr("");
    } else {
      var i := |c.blocks| - 1;
      var blocks' := c.blocks[i := c.blocks[i].(json := c.blocks[i].json + args)];
      assert blocks'[..i] == c.blocks[..i];
    }
  }

  function FreshCall(tc: ToolFragment): Chat.ToolCall {
    Chat.ToolCall(tc.id, Some(tc.name.GetOr("")), Some(""))
  }

  /** Opening a tool block (after closing the previous one) starts an empty call. */
  lemma OpenToolMirrors(parse: Parser, t: State, p: Phase, c: Collected, content: string, calls: seq<Chat.ToolCall>,
                        tc: ToolFragment)
    requires Mirrors(parse, t, p, c.blocks, content, calls) && (p == Texts || p == Tools) && !t.textOpen
    requires tc.id.Some?
    ensures var close := CloseToolBlock(t);
            var open := EmitToolBlockStart(close.state, tc.id.value, tc.name.GetOr(""));
            var c1 := CollectAll(c, close.events + open.events);
            && Mirrors(parse, open.state, Tools, c1.blocks, content, calls + [FreshCall(tc)])
            && c1 == c.(blocks := c1.blocks)
  {
    hide Chat.TextBlocks, Chat.ToolUses, Join, CollectAll, Collect, Fold, Rendered;
    OpenedToolBlocks(t, c, tc);
    LastAdded(calls, FreshCall(tc));
    LastAdded(c.blocks, ClientTool(tc.id.value, tc.name.GetOr(""), ""));
    if p == Tools {
      ToolsRendered(parse, t, c.blocks, content, calls);
    } else {
      TextsRendered(parse, c.blocks, content);
    }
  }

  lemma TextsRendered(parse: Parser, blocks: seq<ClientBlock>, content: string)
    requires Join(parse, blocks) == Joined([], content)
    ensures Rendered(parse, blocks) == Chat.TextBlocks(Some(content)) + Chat.ToolUses(parse, [])
  {
    assert [] + Chat.TextBlocks(Some(content)) == Chat.TextBlocks(Some(content)) + Chat.ToolUses(parse, []);
  }

  /** Closing the previous tool block changes nothing collected, opening the next one adds an empty block. */
  lemma OpenedToolBlocks(t: State, c: Collected, tc: ToolFragment)
    requires tc.id.Some? && !t.textOpen && |c.blocks| == t.blockIndex + (if t.toolOpen then 1 else 0)
    ensures var close := CloseToolBlock(t);
            var open := EmitToolBlockStart(close.state, tc.id.value, tc.name.GetOr(""));
            CollectAll(c, close.events + open.events) ==
            c.(blocks := c.blocks + [ClientTool(tc.id.value, tc.name.GetOr(""), "")])
  {
    hide Fold;
    var close := CloseToolBlock(t);
    var open := EmitToolBlockStart(close.state, tc.id.value, tc.name.GetOr(""));
    FoldOne(Collect, c, BlockStop(t.blockIndex));
    FoldOne(Collect, c, open.events[0]);
    FoldAppend(Collect, c, close.events, open.events);
    NothingCollected(c);
  }

  lemma NothingCollected(c: Collected)
    ensures CollectAll(c, []) == c
  {
  }

  lemma ToolMirrors(parse: Parser, t: State, p: Phase, c: Collected, content: string, calls: seq<Chat.ToolCall>,
                    tc: ToolFragment)
    requires Mirrors(parse, t, p, c.blocks, content, calls) && (p == Texts || p == Tools) && !t.textOpen
    requires AfterFragment(p, tc) != Misordered
    ensures var r := TransformToolDelta(t, tc);
            var c' := CollectAll(c, r.events);
            && Mirrors(parse, r.state, AfterFragment(p, tc), c'.blocks, content, AddFragment(calls, tc))
            && c' == c.(blocks := c'.blocks)
            && !r.state.textOpen
  {
    hide Rendered, Join, Chat.TextBlocks, Chat.ToolUses;
    if tc.id.None? {
      if p == Tools { ArgumentsMirror(parse, t, c, content, calls, tc); }
    } else {
      var close := CloseToolBlock(t);
      var open := EmitToolBlockStart(close.state, tc.id.value, tc.name.GetOr(""));
      OpenToolMirrors(parse, t, p, c, content, calls, tc);
      var c1 := CollectAll(c, close.events + open.events);
      FoldAppend(Collect, c, close.events + open.events, EmitArguments(open.state, tc.arguments).events);
      ArgumentsMirror(parse, open.state, c1, content, calls + [FreshCall(tc)], tc);
      assert "" + tc.arguments.GetOr("") == tc.arguments.GetOr("");
      assert AddFragment(calls + [FreshCall(tc)], tc.(id := None)) == AddFragment(calls, tc);
    }
  }

  lemma {:induction false} ToolsMirror(parse: Parser, t: State, p: Phase, c: Collected, content: string,
                                       calls: seq<Chat.ToolCall>, tcs: seq<ToolFragment>)
    requires Mirrors(parse, t, p, c.blocks, content, calls) && (p == Texts || p == Tools) && !t.textOpen
    requires Fold(AfterFragment, p, tcs) != Misordered
    ensures var r := TransformToolDeltas(t, tcs);
            var c' := CollectAll(c, r.events);
            && Mirrors(parse, r.state, Fold(AfterFragment, p, tcs), c'.blocks, content, Fold(AddFragment, calls, tcs))
            && c' == c.(blocks := c'.blocks)
    decreases |tcs|
  {
    if tcs != [] {
      if AfterFragment(p, tcs[0]) == Misordered { MisorderedForGood(tcs[1..]); }
      var first := TransformToolDelta(t, tcs[0]);
      ToolMirrors(parse, t, p, c, content, calls, tcs[0]);
      ToolsMirror(parse, first.state, AfterFragment(p, tcs[0]), CollectAll(c, first.events), content,
                  AddFragment(calls, tcs[0]), tcs[1..]);
      FoldAppend(Collect, c, first.events, TransformToolDeltas(first.state, tcs[1..]).events);
    }
  }

  predicate Together(parse: Parser, t: State, p: Phase, c: Collected, d: Draft) {
    && Mirrors(parse, t, p, c.blocks, d.content, d.calls)
    && t.finishReason == d.finish && t.outputTokens == d.tokens
    && (p == Waiting ==> !t.textOpen && !t.toolOpen)
  }

  /** Starting the message, the finish reason and the token count do not touch the blocks. */
  lemma OtherFlagsMirror(parse: Parser, t: State, u: State, p: Phase, blocks: seq<ClientBlock>, content: string,
                         calls: seq<Chat.ToolCall>)
    requires Mirrors(parse, t, p, blocks, content, calls)
    requires u.textOpen == t.textOpen && u.toolOpen == t.toolOpen && u.blockIndex == t.blockIndex
    ensures Mirrors(parse, u, p, blocks, content, calls)
  {
  }

  lemma NothingMirrors(parse: Parser, t: State, blocks: seq<ClientBlock>, content: string, calls: seq<Chat.ToolCall>)
    requires Mirrors(parse, t, Waiting, blocks, content, calls) && !t.textOpen && !t.toolOpen
    ensures Mirrors(parse, t, Texts, blocks, content, calls)
  {
  }

  lemma DeltaMirrors(parse: Parser, t: State, p: Phase, c: Collected, d: Draft, delta: ChunkDelta)
    requires Mirrors(parse, t, p, c.blocks, d.content, d.calls) && (p == Texts || p == Tools)
    requires Fold(AfterFragment, AfterContent(p, delta.content), delta.toolCalls.GetOr([])) != Misordered
    ensures var r, tcs := TransformDelta(t, delta), delta.toolCalls.GetOr([]);
            var c' := CollectAll(c, r.events);
            && Mirrors(parse, r.state, Fold(AfterFragment, AfterContent(p, delta.content), tcs), c'.blocks,
                       d.content + delta.content.GetOr(""), Fold(AddFragment, d.calls, tcs))
            && c' == c.(blocks := c'.blocks)
  {
    hide Mirrors, TransformToolDeltas, TransformContent, CollectAll, Collect;
    var tcs, text := delta.toolCalls.GetOr([]), TransformContent(t, delta.content);
    var p2 := AfterContent(p, delta.content);
    if p2 == Misordered { MisorderedForGood(tcs); }
    var c1 := CollectAll(c, text.events);
    var d1 := d.(content := d.content + delta.content.GetOr(""));
    TextMirrors(parse, t, p, c, d, delta.content);
    var tools := TransformToolCalls(text.state, delta.toolCalls);
    if delta.toolCalls.Some? {
      CloseTextMirrors(parse, text.state, p2, c1, d1);
      var close := CloseTextBlock(text.state);
      ToolsMirror(parse, close.state, p2, c1, d1.content, d1.calls, tcs);
      CollectAppend(c1, close.events, TransformToolDeltas(close.state, tcs).events);
    } else {
      NothingCollected(c1);
    }
    CollectAppend(c, text.events, tools.events);
  }

  lemma CollectAppend(c: Collected, a: seq<Event>, b: seq<Event>)
    ensures CollectAll(c, a + b) == CollectAll(CollectAll(c, a), b)
  {
    FoldAppend(Collect, c, a, b);
  }

  lemma TextMirrors(parse: Parser, t: State, p: Phase, c: Collected, d: Draft, content: Option<string>)
    requires Mirrors(parse, t, p, c.blocks, d.content, d.calls) && (p == Texts || (p == Tools && content.None?))
    ensures var r := TransformContent(t, content);
            var c' := CollectAll(c, r.events);
            && Mirrors(parse, r.state, AfterContent(p, content), c'.blocks, d.content + content.GetOr(""), d.calls)
            && c' == c.(blocks := c'.blocks)
  {
    hide Mirrors;
    if p == Texts {
      ContentMirrors(parse, t, c, d, content);
    } else {
      assert d.content + "" == d.content;
    }
  }

  lemma ChunkMirrors(parse: Parser, id: string, t: State, p: Phase, c: Collected, d: Draft, chunk: Chunk)
    requires Together(parse, t, p, c, d) && (p == Waiting || p == Texts || p == Tools)
    requires AfterItem(p, Data(chunk)) != Misordered
    ensures var r := TransformChunk(id, t, chunk);
            Together(parse, r.state, AfterItem(p, Data(chunk)), CollectAll(c, r.events), AddChunk(d, chunk))
  {
    hide Mirrors, TransformDelta, CollectAll, AfterContent;
    var start, delta := EmitMessageStart(id, t, chunk), DeltaOf(chunk);
    var p1 := if p == Waiting then Texts else p;
    if p == Waiting { NothingMirrors(parse, t, c.blocks, d.content, d.calls); }
    OtherFlagsMirror(parse, t, start.state, p1, c.blocks, d.content, d.calls);
    StartCollected(id, t, c, chunk);
    DeltaMirrors(parse, start.state, p1, c, d, delta);
    CollectAppend(c, start.events, TransformDelta(start.state, delta).events);
    FlagsKept(start.state, delta);
    ChunkPhase(p, chunk);
    var r, c' := TransformChunk(id, t, chunk), CollectAll(c, TransformDelta(start.state, delta).events);
    var d' := AddChunk(d, chunk);
    OtherFlagsMirror(parse, TransformDelta(start.state, delta).state, r.state, AfterItem(p, Data(chunk)), c'.blocks,
                     d'.content, d'.calls);
  }

  lemma StartCollected(id: string, t: State, c: Collected, chunk: Chunk)
    ensures CollectAll(c, EmitMessageStart(id, t, chunk).events) == c
  {
    NothingCollected(c);
    FoldOne(Collect, c, MessageStart(id, chunk.model.GetOr("")));
  }

  lemma FlagsKept(t: State, delta: ChunkDelta)
    ensures TransformDelta(t, delta).state.finishReason == t.finishReason
    ensures TransformDelta(t, delta).state.outputTokens == t.outputTokens
  {
    var text := TransformContent(t, delta.content);
    if delta.toolCalls.Some? { ToolFlagsKept(CloseTextBlock(text.state).state, delta.toolCalls.value); }
  }

  lemma {:induction false} ToolFlagsKept(t: State, tcs: seq<ToolFragment>)
    ensures TransformToolDeltas(t, tcs).state.finishReason == t.finishReason
    ensures TransformToolDeltas(t, tcs).state.outputTokens == t.outputTokens
    decreases |tcs|
  {
    if tcs != [] { ToolFlagsKept(TransformToolDelta(t, tcs[0]).state, tcs[1..]); }
  }

  lemma {:induction false} MisorderedRun(items: seq<Item>)
    ensures Fold(AfterItem, Misordered, items) == Misordered
  {
    if items != [] {
      if items[0].Data? { MisorderedForGood(DeltaOf(items[0].chunk).toolCalls.GetOr([])); }
      MisorderedRun(items[1..]);
    }
  }

  lemma {:induction false} SilentFragments(t: State, tcs: seq<ToolFragment>)
    ensures Fold(AfterFragment, Finished, tcs) == Finished || Fold(AfterFragment, Finished, tcs) == Misordered
    ensures Fold(AfterFragment, Finished, tcs) == Finished ==> TransformToolDeltas(t, tcs) == Emitted(t, [])
  {
    if tcs != [] {
      if AfterFragment(Finished, tcs[0]) == Finished {
        SilentFragments(t, tcs[1..]);
      } else {
        MisorderedForGood(tcs[1..]);
      }
    }
  }

  lemma SilentItem(id: string, t: State, item: Item)
    requires t.started && !t.textOpen && !t.toolOpen
    ensures AfterItem(Finished, item) == Finished || AfterItem(Finished, item) == Misordered
    ensures AfterItem(Finished, item) == Finished ==>
              var r := TransformItem(id, t, item);
              r.events == [] && r.state.started && !r.state.textOpen && !r.state.toolOpen
  {
    if item.Data? {
      var delta := DeltaOf(item.chunk);
      SilentFragments(t, delta.toolCalls.GetOr([]));
      if delta.content.Some? { MisorderedForGood(delta.toolCalls.GetOr([])); }
    }
  }

  /** After `[DONE]` a well-ordered stream emits nothing. */
  lemma {:induction false} SilentTail(id: string, t: State, items: seq<Item>)
    requires t.started && !t.textOpen && !t.toolOpen
    requires Fold(AfterItem, Finished, items) == Finished
    ensures Transform(id, t, items).events == []
    decreases |items|
  {
    if items != [] {
      SilentItem(id, t, items[0]);
      if AfterItem(Finished, items[0]) == Misordered { MisorderedRun(items[1..]); }
      SilentTail(id, TransformItem(id, t, items[0]).state, items[1..]);
    }
  }

  // ---------------------------------------------------------------------------
  // The final events, from the chunks themselves
  // ---------------------------------------------------------------------------

  /** The last of the items that give a value gives `v`, or none gives one. */
  ghost predicate LastGiven<T>(given: Item -> Option<T>, items: seq<Item>, v: Option<T>) {
    match v
    case Some(_) =>
      exists k: nat :: k < |items| && given(items[k]) == v && forall j | k < j < |items| :: given(items[j]) == None
    case None => forall k | 0 <= k < |items| :: given(items[k]) == None
  }

  lemma GivenBefore<T>(given: Item -> Option<T>, init: seq<Item>, last: Item, v: Option<T>)
    requires LastGiven(given, init + [last], v)
    ensures if given(last).Some? then v == given(last) else LastGiven(given, init, v)
  {
    var items := init + [last];
    assert items[|init|] == last && forall k | 0 <= k < |init| :: items[k] == init[k];
    if v.Some? {
      var k: nat :| k < |items| && given(items[k]) == v && forall j | k < j < |items| :: given(items[j]) == None;
      if k < |init| { assert forall j | k < j < |init| :: given(items[j]) == None; }
    }
  }

  lemma ItemFlags(id: string, t: State, item: Item)
    requires !item.Done?
    ensures var u := TransformItem(id, t, item).state;
            && u.finishReason == (if FinishIn(item).Some? then FinishIn(item) else t.finishReason)
            && u.outputTokens == (if TokensIn(item).Some? then TokensIn(item) else t.outputTokens)
  {
    if item.Data? { FlagsKept(EmitMessageStart(id, t, item.chunk).state, DeltaOf(item.chunk)); }
  }

  lemma {:induction false} RunFinish(id: string, items: seq<Item>, finish: Option<string>)
    requires forall k | 0 <= k < |items| :: !items[k].Done?
    requires LastGiven(FinishIn, items, finish)
    ensures Transform(id, INITIAL, items).state.finishReason == finish
  {
    if items != [] {
      var init, last := items[..|items| - 1], items[|items| - 1];
      assert items == init + [last];
      GivenBefore(FinishIn, init, last, finish);
      RunSplit(id, init, last);
      ItemFlags(id, Transform(id, INITIAL, init).state, last);
      if FinishIn(last).None? { RunFinish(id, init, finish); }
    }
  }

  lemma {:induction false} RunTokens(id: string, items: seq<Item>, tokens: Option<nat>)
    requires forall k | 0 <= k < |items| :: !items[k].Done?
    requires LastGiven(TokensIn, items, tokens)
    ensures Transform(id, INITIAL, items).state.outputTokens == tokens
  {
    if items != [] {
      var init, last := items[..|items| - 1], items[|items| - 1];
      assert items == init + [last];
      GivenBefore(TokensIn, init, last, tokens);
      RunSplit(id, init, last);
      ItemFlags(id, Transform(id, INITIAL, init).state, last);
      if TokensIn(last).None? { RunTokens(id, init, tokens); }
    }
  }

  lemma RunSplit(id: string, init: seq<Item>, last: Item)
    ensures Transform(id, INITIAL, init + [last]).state ==
            TransformItem(id, Transform(id, INITIAL, init).state, last).state
  {
    TransformAppend(id, INITIAL, init, [last]);
    OneItem(id, Transform(id, INITIAL, init).state, last);
  }

  lemma OneItem(id: string, t: State, item: Item)
    ensures Transform(id, t, [item]) == TransformItem(id, t, item)
  {
    var first := TransformItem(id, t, item);
    assert [item][1..] == [];
    assert first.events + [] == first.events;
  }

  /** What a well-ordered stream emits is what it emits up to `[DONE]`, the final pair last. */
  lemma DoneIsLast(id: string, items: seq<Item>, n: nat)
    requires WellOrdered(items) && n < |items| && items[n].Done?
    ensures var t := Transform(id, INITIAL, items[..n]).state;
            Transform(id, INITIAL, items).events == Transform(id, INITIAL, items[..n]).events + EmitDone(t).events
  {
    hide Transform, EmitDone;
    var before, rest := items[..n], items[n + 1..];
    var x := Transform(id, INITIAL, before);
    var p := Fold(AfterItem, Waiting, before);
    assert items == before + ([Done] + rest) && ([Done] + rest)[1..] == rest;
    FoldAppend(AfterItem, Waiting, before, [Done] + rest);
    if AfterItem(p, Done) == Misordered { MisorderedRun(rest); }
    RunInStep(id, INITIAL, Expecting, Waiting, before);
    DoneInStep(x.state, Read(Expecting, x.events), p);
    var y := TransformItem(id, x.state, Done);
    SilentTail(id, y.state, rest);
    TransformAppend(id, INITIAL, before, [Done] + rest);
    TransformAppend(id, x.state, [Done], rest);
    OneItem(id, x.state, Done);
    assert y.events + [] == y.events;
  }

  function StopReasonFor(finishReason: string): string {
    match finishReason
    case "tool_calls" => "tool_use"
    case "length" => "max_tokens"
    case _ => "end_turn"
  }

  lemma FinalPair(t: State)
    ensures var events := EmitDone(t).events;
            && |events| >= 2 && events[|events| - 1] == MessageStop
            && events[|events| - 2] ==
               MessageDelta(if t.finishReason.Some? then StopReasonFor(t.finishReason.value) else "end_turn",
                            if t.outputTokens.Some? then t.outputTokens.value else 0)
  {
  }

  /**
   * The last two events of a well-ordered stream tell the stop reason for the last finish reason given
   * before `[DONE]`, and the last token count; "end_turn" and 0 if none was given.
   */
  lemma FinalEventsAre(id: string, items: seq<Item>, n: nat, finish: Option<string>, tokens: Option<nat>)
    requires WellOrdered(items) && n < |items| && items[n].Done? && forall k | 0 <= k < n :: !items[k].Done?
    requires LastGiven(FinishIn, items[..n], finish) && LastGiven(TokensIn, items[..n], tokens)
    ensures var events := Transform(id, INITIAL, items).events;
            && |events| >= 2 && events[|events| - 1] == MessageStop
            && events[|events| - 2] ==
               MessageDelta(if finish.Some? then StopReasonFor(finish.value) else "end_turn",
                            if tokens.Some? then tokens.value else 0)
  {
    hide Transform, EmitDone, WellOrdered, LastGiven, StopReasonFor;
    var before := items[..n];
    DoneIsLast(id, items, n);
    RunFinish(id, before, finish);
    RunTokens(id, before, tokens);
    var t := Transform(id, INITIAL, before).state;
    FinalPair(t);
    LastTwo(Transform(id, INITIAL, before).events, EmitDone(t).events);
  }

  lemma LastTwo<T>(a: seq<T>, b: seq<T>)
    requires |b| >= 2
    ensures var s := a + b; s[|s| - 1] == b[|b| - 1] && s[|s| - 2] == b[|b| - 2]
  {
  }

  /** The content, stop reason and output tokens the non-streaming translator gives for the draft. */
  predicate Matches(parse: Parser, c: Collected, d: Draft) {
    && Rendered(parse, c.blocks) == Chat.ContentBlocks(parse, CompletionOf(d))
    && c.stopReason == Some(Chat.MapFinishReason(CompletionOf(d)).0)
    && c.outputTokens == Some(Chat.BuildUsage(CompletionOf(d)).outputTokens)
  }

  lemma DoneMatches(parse: Parser, t: State, p: Phase, c: Collected, d: Draft)
    requires Together(parse, t, p, c, d) && (p == Texts || p == Tools)
    ensures Matches(parse, CollectAll(c, EmitDone(t).events), d)
  {
    hide Chat.TextBlocks, Chat.ToolUses, Join, CollectAll, Rendered, EmitDone;
    DoneCollected(t, c);
    if p == Tools {
      ToolsRendered(parse, t, c.blocks, d.content, d.calls);
    } else {
      TextsRendered(parse, c.blocks, d.content);
    }
  }

  lemma DoneCollected(t: State, c: Collected)
    ensures var stop := if t.finishReason.Some? then MapStopReason(t.finishReason.value) else "end_turn";
            CollectAll(c, EmitDone(t).events) ==
            c.(stopReason := Some(stop), outputTokens := Some(t.outputTokens.GetOr(0)))
  {
    hide Fold;
    var text := CloseTextBlock(t);
    var tool := CloseToolBlock(text.state);
    NothingCollected(c);
    FoldOne(Collect, c, BlockStop(t.blockIndex));
    FoldOne(Collect, c, BlockStop(text.state.blockIndex));
    FoldAppend(Collect, c, text.events, tool.events);
    FoldAppend(Collect, c, text.events + tool.events, FinalEvents(t));
    FoldTwo(Collect, c, FinalEvents(t)[0], FinalEvents(t)[1]);
  }

  lemma {:induction false} RunMatches(parse: Parser, id: string, t: State, g: Grammar, p: Phase, c: Collected,
                                      d: Draft, items: seq<Item>)
    requires Together(parse, t, p, c, d) && (p == Waiting || p == Texts || p == Tools)
    requires InStep(t, g, p)
    requires Fold(AfterItem, p, items) == Finished
    ensures Matches(parse, CollectAll(c, Transform(id, t, items).events), DraftOf(d, items))
    decreases |items|
  {
    hide Mirrors, Matches, EmitDone, TransformChunk, InStep, Collect, AddChunk;
    var first := TransformItem(id, t, items[0]);
    if AfterItem(p, items[0]) == Misordered { MisorderedRun(items[1..]); }
    var c1 := CollectAll(c, first.events);
    var rest := Transform(id, first.state, items[1..]);
    FoldAppend(Collect, c, first.events, rest.events);
    ItemInStep(id, t, g, p, items[0]);
    var g1 := Read(g, first.events);
    match items[0] {
      case Done =>
        DoneMatches(parse, t, p, c, d);
        SilentTail(id, first.state, items[1..]);
      case Data(chunk) =>
        ChunkMirrors(parse, id, t, p, c, d, chunk);
        ChunkPhase(p, chunk);
        RunMatches(parse, id, first.state, g1, AfterItem(p, items[0]), c1, AddChunk(d, chunk), items[1..]);
      case Junk =>
        RunMatches(parse, id, first.state, g1, p, c1, d, items[1..]);
    }
  }

  lemma {:induction false} FragmentPhase(p: Phase, tcs: seq<ToolFragment>)
    requires p == Texts || p == Tools
    ensures var q := Fold(AfterFragment, p, tcs); q == Texts || q == Tools || q == Misordered
    decreases |tcs|
  {
    if tcs != [] {
      if AfterFragment(p, tcs[0]) == Misordered { MisorderedForGood(tcs[1..]); }
      else { FragmentPhase(AfterFragment(p, tcs[0]), tcs[1..]); }
    }
  }

  lemma ChunkPhase(p: Phase, chunk: Chunk)
    requires p == Waiting || p == Texts || p == Tools
    ensures var q := AfterItem(p, Data(chunk)); q == Texts || q == Tools || q == Misordered
  {
    var delta := DeltaOf(chunk);
    var q := AfterContent(if p == Waiting then Texts else p, delta.content);
    if q == Misordered {
      MisorderedForGood(delta.toolCalls.GetOr([]));
    } else {
      FragmentPhase(q, delta.toolCalls.GetOr([]));
    }
  }

  /**
   * For every well-ordered stream, the blocks a client collects (adjacent texts joined, empty ones
   * dropped), the stop reason and the output tokens are those of the non-streaming translation of the
   * completion the chunks add up to, a tool call starting at each id.
   */
  lemma StreamingFollowsIds(parse: Parser, id: string, items: seq<Item>)
    requires WellOrdered(items)
    ensures Matches(parse, CollectAll(NOTHING, Transform(id, INITIAL, items).events), DraftOf(BLANK_DRAFT, items))
  {
    RunMatches(parse, id, INITIAL, Expecting, Waiting, NOTHING, BLANK_DRAFT, items);
  }

  // ---------------------------------------------------------------------------
  // When nothing needs joining
  // ---------------------------------------------------------------------------

  /** Once a delta carried a tool call array, even an empty one, no later delta carries content. */
  predicate TextBeforeTools(seen: bool, items: seq<Item>)
    decreases |items|
  {
    items == [] ||
    ((seen ==> ContentIn(items[0]).None?) && TextBeforeTools(seen || CallsIn(items[0]).Some?, items[1..]))
  }

  /** The collected blocks as they are, only dropping empty texts. */
  function Direct(parse: Parser, blocks: seq<ClientBlock>): seq<Chat.ContentBlock> {
    if blocks == [] then []
    else
      Direct(parse, blocks[..|blocks| - 1]) +
      match blocks[|blocks| - 1]
      case ClientText(s) => Chat.TextBlocks(Some(s))
      case ClientTool(id, name, json) => [Chat.ToolUse(id, name, Chat.InputOf(parse, json))]
  }

  predicate OneText(blocks: seq<ClientBlock>) { forall i | 1 <= i < |blocks| :: blocks[i].ClientTool? }

  lemma {:induction false} OneTextNeedsNoJoin(parse: Parser, blocks: seq<ClientBlock>)
    requires OneText(blocks)
    ensures Direct(parse, blocks) == Rendered(parse, blocks)
  {
    if blocks != [] {
      var init := blocks[..|blocks| - 1];
      OneTextNeedsNoJoin(parse, init);
      if blocks[|blocks| - 1].ClientText? {
        assert init == [];
        assert "" + blocks[0].text == blocks[0].text;
      } else {
        var tool := Rendered(parse, blocks);
        assert tool + [] == tool;
      }
    }
  }

  predicate StartsNoText(events: seq<Event>) { forall e | e in events :: e.BlockStart? ==> e.kind.ToolBlock? }

  lemma {:induction false} NoNewText(c: Collected, events: seq<Event>)
    requires OneText(c.blocks) && StartsNoText(events)
    ensures OneText(CollectAll(c, events).blocks)
    decreases |events|
  {
    if events != [] { NoNewText(Collect(c, events[0]), events[1..]); }
  }

  lemma {:induction false} ToolsStartNoText(t: State, tcs: seq<ToolFragment>)
    ensures StartsNoText(TransformToolDeltas(t, tcs).events)
    decreases |tcs|
  {
    if tcs != [] { ToolsStartNoText(TransformToolDelta(t, tcs[0]).state, tcs[1..]); }
  }

  lemma SilentTextStartsNoText(id: string, t: State, item: Item)
    requires item.Data? ==> DeltaOf(item.chunk).content.None?
    ensures StartsNoText(TransformItem(id, t, item).events)
  {
    if item.Data? && DeltaOf(item.chunk).toolCalls.Some? {
      var start := EmitMessageStart(id, t, item.chunk);
      ToolsStartNoText(CloseTextBlock(start.state).state, DeltaOf(item.chunk).toolCalls.value);
    }
  }

  /** Before the first tool call array: nothing yet, or block 0 open with text. */
  predicate OnlyText(t: State, blocks: seq<ClientBlock>) {
    !t.toolOpen && t.blockIndex == 0 && |blocks| == (if t.textOpen then 1 else 0)
  }

  lemma ContentOnlyText(t: State, c: Collected, content: Option<string>)
    requires OnlyText(t, c.blocks)
    ensures var r := TransformContent(t, content);
            OnlyText(r.state, CollectAll(c, r.events).blocks)
  {
    if content.Some? {
      var delta := BlockDelta(0, TextDelta(content.value));
      FoldOne(Collect, c, delta);
      FoldTwo(Collect, c, BlockStart(0, TextBlock), delta);
    }
  }

  lemma ChunkOneText(id: string, t: State, c: Collected, chunk: Chunk)
    requires OnlyText(t, c.blocks)
    ensures var r := TransformChunk(id, t, chunk);
            var c' := CollectAll(c, r.events);
            && OneText(c'.blocks)
            && (DeltaOf(chunk).toolCalls.None? ==> OnlyText(r.state, c'.blocks))
  {
    var start := EmitMessageStart(id, t, chunk);
    FoldOne(Collect, c, MessageStart(id, chunk.model.GetOr("")));
    var delta := DeltaOf(chunk);
    var text := TransformContent(start.state, delta.content);
    ContentOnlyText(start.state, c, delta.content);
    var tools := TransformToolCalls(text.state, delta.toolCalls);
    if delta.toolCalls.Some? { ToolsStartNoText(CloseTextBlock(text.state).state, delta.toolCalls.value); }
    NoNewText(CollectAll(c, text.events), tools.events);
    FoldAppend(Collect, c, text.events, tools.events);
    FoldAppend(Collect, c, start.events, text.events + tools.events);
  }

  lemma {:induction false} RunOneText(id: string, t: State, c: Collected, seen: bool, items: seq<Item>)
    requires TextBeforeTools(seen, items)
    requires OneText(c.blocks) && (!seen ==> OnlyText(t, c.blocks))
    requires forall i | 0 <= i < |items| - 1 :: !items[i].Done?
    ensures OneText(CollectAll(c, Transform(id, t, items).events).blocks)
    decreases |items|
  {
    if items != [] {
      var first := TransformItem(id, t, items[0]);
      var c1 := CollectAll(c, first.events);
      if items[0].Data? && !seen {
        ChunkOneText(id, t, c, items[0].chunk);
      } else {
        SilentTextStartsNoText(id, t, items[0]);
        NoNewText(c, first.events);
      }
      var seen' := seen || (items[0].Data? && DeltaOf(items[0].chunk).toolCalls.Some?);
      if |items| == 1 {
        assert items[1..] == [];
        assert first.events + [] == first.events;
      } else {
        RunOneText(id, first.state, c1, seen', items[1..]);
        FoldAppend(Collect, c, first.events, Transform(id, first.state, items[1..]).events);
      }
    }
  }

  /** With text strictly before tools and `[DONE]` last, those blocks need no joining. */
  lemma BlocksFollowIds(parse: Parser, id: string, items: seq<Item>)
    requires WellOrdered(items) && TextBeforeTools(false, items)
    requires forall i | 0 <= i < |items| - 1 :: !items[i].Done?
    ensures Direct(parse, CollectAll(NOTHING, Transform(id, INITIAL, items).events).blocks) ==
            Chat.ContentBlocks(parse, CompletionOf(DraftOf(BLANK_DRAFT, items)))
  {
    StreamingFollowsIds(parse, id, items);
    RunOneText(id, INITIAL, NOTHING, false, items);
    OneTextNeedsNoJoin(parse, CollectAll(NOTHING, Transform(id, INITIAL, items).events).blocks);
  }
}
