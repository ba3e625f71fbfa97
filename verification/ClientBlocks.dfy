/**
 * The blocks of a stream one by one, nothing joined or dropped: which chunk text goes into which block,
 * and where a new block starts.
 */
module ClientBlocks {
  import opened Prelude
  import opened EventTranslator
  import opened StreamAgreement

  /** The blocks so far, and whether the last one is a text that goes on. */
  datatype Reading = Reading(blocks: seq<ClientBlock>, goesOn: bool)

  function ReadContent(r: Reading, content: Option<string>): Reading {
    match content
    case None => r
    case Some(s) =>
      if !r.goesOn || r.blocks == [] then Reading(r.blocks + [ClientText(s)], true)
      else
        var n := |r.blocks| - 1;
        match r.blocks[n]
        case ClientText(text) => Reading(r.blocks[..n] + [ClientText(text + s)], true)
        case ClientTool(_, _, _) => r
  }

  /** An id starts a tool block; arguments without one go to the tool block begun last. */
  function ReadFragment(blocks: seq<ClientBlock>, tc: ToolFragment): seq<ClientBlock> {
    var arguments := match tc.arguments case Some(given) => given case None => "";
    match tc.id
    case Some(id) => blocks + [ClientTool(id, match tc.name { case Some(name) => name case None => "" }, arguments)]
    case None =>
      if blocks == [] then blocks
      else
        var n := |blocks| - 1;
        match blocks[n]
        case ClientTool(id, name, json) => blocks[..n] + [ClientTool(id, name, json + arguments)]
        case ClientText(_) => blocks
  }

  /** An array of tool calls, even an empty one, ends a text. */
  function ReadItem(r: Reading, item: Item): Reading {
    var c := ReadContent(r, ContentIn(item));
    match CallsIn(item)
    case None => c
    case Some(tcs) => Reading(Fold(ReadFragment, c.blocks, tcs), false)
  }

  predicate Reads(t: State, p: Phase, blocks: seq<ClientBlock>, r: Reading) {
    && r == Reading(blocks, t.textOpen)
    && |blocks| == t.blockIndex + (if t.textOpen || t.toolOpen then 1 else 0)
    && (t.textOpen ==> !t.toolOpen && blocks[|blocks| - 1].ClientText?)
    && (t.toolOpen ==> blocks[|blocks| - 1].ClientTool?)
    && match p
       case Waiting => blocks == [] && !t.started && !t.toolOpen
       case Texts => t.started && !t.toolOpen && forall i | 0 <= i < |blocks| :: blocks[i].ClientText?
       case Tools => t.started && t.toolOpen
       case _ => false
  }

  lemma TextCollected(t: State, c: Collected, r: Reading, content: Option<string>)
    requires Reads(t, Texts, c.blocks, r)
    ensures var e := TransformContent(t, content);
            var c' := CollectAll(c, e.events);
            Reads(e.state, Texts, c'.blocks, ReadContent(r, content)) && c' == c.(blocks := c'.blocks)
  {
    if content.Some? {
      var delta := BlockDelta(t.blockIndex, TextDelta(content.value));
      var start := BlockStart(t.blockIndex, TextBlock);
      FoldOne(Collect, c, delta);
      FoldTwo(Collect, c, start, delta);
      if !t.textOpen {
        LastAdded(c.blocks, ClientText(""));
        assert "" + content.value == content.value;
      }
    } else {
      NothingCollected(c);
    }
  }

  lemma CloseCollected(t: State, p: Phase, c: Collected, r: Reading)
    requires Reads(t, p, c.blocks, r) && p != Waiting
    ensures var e := CloseTextBlock(t);
            CollectAll(c, e.events) == c && Reads(e.state, p, c.blocks, Reading(r.blocks, false)) && !e.state.textOpen
  {
    NothingCollected(c);
    FoldOne(Collect, c, BlockStop(t.blockIndex));
  }
  /** Arguments go to the tool block begun last. */
  lemma ArgumentsCollected(t: State, c: Collected, arguments: Option<string>)
    requires Reads(t, Tools, c.blocks, Reading(c.blocks, false))
    ensures var e := EmitArguments(t, arguments);
            var blocks := ReadFragment(c.blocks, ToolFragment(0, None, None, arguments));
            CollectAll(c, e.events) == c.(blocks := blocks) && Reads(e.state, Tools, blocks, Reading(blocks, false))
  {
    NothingCollected(c);
    var n := |c.blocks| - 1;
    var tool := c.blocks[n];
    if arguments.GetOr("") == "" {
      assert tool.json + "" == tool.json;
      assert c.blocks == c.blocks[..n] + [tool];
    } else {
      FoldOne(Collect, c, BlockDelta(t.blockIndex, JsonDelta(arguments.value)));
      assert c.blocks[n := tool.(json := tool.json + arguments.value)] ==
             c.blocks[..n] + [tool.(json := tool.json + arguments.value)];
    }
  }

  lemma FragmentCollected(t: State, p: Phase, c: Collected, tc: ToolFragment)
    requires Reads(t, p, c.blocks, Reading(c.blocks, false)) && (p == Texts || p == Tools)
    requires AfterFragment(p, tc) != Misordered
    ensures var e := TransformToolDelta(t, tc);
            var blocks := ReadFragment(c.blocks, tc);
            && CollectAll(c, e.events) == c.(blocks := blocks)
            && Reads(e.state, AfterFragment(p, tc), blocks, Reading(blocks, false))
  {
    hide CollectAll, Collect, Fold;
    if tc.id.None? {
      if p == Tools { ArgumentsCollected(t, c, tc.arguments); } else { NoArgumentsCollected(t, c, tc); }
    } else {
      var close := CloseToolBlock(t);
      var open := EmitToolBlockStart(close.state, tc.id.value, tc.name.GetOr(""));
      OpenedToolBlocks(t, c, tc);
      var tool := ClientTool(tc.id.value, tc.name.GetOr(""), "");
      var c1 := c.(blocks := c.blocks + [tool]);
      LastAdded(c.blocks, tool);
      ArgumentsCollected(open.state, c1, tc.arguments);
      CollectAppend(c, close.events + open.events, EmitArguments(open.state, tc.arguments).events);
      assert "" + tc.arguments.GetOr("") == tc.arguments.GetOr("");
    }
  }

  lemma NoArgumentsCollected(t: State, c: Collected, tc: ToolFragment)
    requires Reads(t, Texts, c.blocks, Reading(c.blocks, false)) && tc.id.None? && tc.arguments.GetOr("") == ""
    ensures CollectAll(c, EmitArguments(t, tc.arguments).events) == c && ReadFragment(c.blocks, tc) == c.blocks
  {
    NothingCollected(c);
  }

  lemma {:induction false} FragmentsCollected(t: State, p: Phase, c: Collected, tcs: seq<ToolFragment>)
    requires Reads(t, p, c.blocks, Reading(c.blocks, false)) && (p == Texts || p == Tools)
    requires Fold(AfterFragment, p, tcs) != Misordered
    ensures var e := TransformToolDeltas(t, tcs);
            var blocks := Fold(ReadFragment, c.blocks, tcs);
            && CollectAll(c, e.events) == c.(blocks := blocks)
            && Reads(e.state, Fold(AfterFragment, p, tcs), blocks, Reading(blocks, false))
    decreases |tcs|
  {
    if tcs == [] {
      NothingCollected(c);
    } else {
      hide CollectAll, Collect, Reads, ReadFragment, TransformToolDelta;
      if AfterFragment(p, tcs[0]) == Misordered { MisorderedForGood(tcs[1..]); }
      FragmentCollected(t, p, c, tcs[0]);
      var first := TransformToolDelta(t, tcs[0]);
      FragmentsCollected(first.state, AfterFragment(p, tcs[0]), c.(blocks := ReadFragment(c.blocks, tcs[0])), tcs[1..]);
      CollectAppend(c, first.events, TransformToolDeltas(first.state, tcs[1..]).events);
    }
  }
  lemma CallsCollected(t: State, p: Phase, c: Collected, r: Reading, toolCalls: Option<seq<ToolFragment>>)
    requires Reads(t, p, c.blocks, r) && (p == Texts || p == Tools)
    requires toolCalls.Some? ==> Fold(AfterFragment, p, toolCalls.value) != Misordered
    ensures var e := TransformToolCalls(t, toolCalls);
            match toolCalls
            case None => CollectAll(c, e.events) == c && e.state == t
            case Some(tcs) =>
              var blocks := Fold(ReadFragment, c.blocks, tcs);
              && CollectAll(c, e.events) == c.(blocks := blocks)
              && Reads(e.state, Fold(AfterFragment, p, tcs), blocks, Reading(blocks, false))
  {
    hide CollectAll, Collect, Reads, ReadFragment, TransformToolDeltas, CloseTextBlock;
    match toolCalls {
      case None => NothingCollected(c);
      case Some(tcs) =>
        var close := CloseTextBlock(t);
        CloseCollected(t, p, c, r);
        ReadsAlone(t, p, c.blocks, r);
        FragmentsCollected(close.state, p, c, tcs);
        CollectAppend(c, close.events, TransformToolDeltas(close.state, tcs).events);
    }
  }

  lemma ReadsAlone(t: State, p: Phase, blocks: seq<ClientBlock>, r: Reading)
    requires Reads(t, p, blocks, r)
    ensures r.blocks == blocks
  {
  }

  lemma FlagsDoNotRead(t: State, p: Phase, blocks: seq<ClientBlock>, r: Reading, finish: Option<string>,
                       tokens: Option<nat>)
    requires Reads(t, p, blocks, r)
    ensures Reads(t.(finishReason := finish, outputTokens := tokens), p, blocks, r)
  {
  }

  lemma StartCollects(id: string, t: State, p: Phase, c: Collected, r: Reading, chunk: Chunk)
    requires Reads(t, p, c.blocks, r)
    ensures var e := EmitMessageStart(id, t, chunk);
            CollectAll(c, e.events) == c && Reads(e.state, if p == Waiting then Texts else p, c.blocks, r)
  {
    NothingCollected(c);
    FoldOne(Collect, c, MessageStart(id, chunk.model.GetOr("")));
  }

  lemma ContentCollected(t: State, p: Phase, c: Collected, r: Reading, content: Option<string>)
    requires Reads(t, p, c.blocks, r) && (p == Texts || p == Tools) && AfterContent(p, content) != Misordered
    ensures var e := TransformContent(t, content);
            var c' := CollectAll(c, e.events);
            Reads(e.state, p, c'.blocks, ReadContent(r, content)) && c' == c.(blocks := c'.blocks)
  {
    if p == Texts { TextCollected(t, c, r, content); } else { NothingCollected(c); }
  }

  lemma ChunkCollected(id: string, t: State, p: Phase, c: Collected, r: Reading, chunk: Chunk)
    requires Reads(t, p, c.blocks, r) && AfterItem(p, Data(chunk)) != Misordered
    ensures var e := TransformChunk(id, t, chunk);
            var c' := CollectAll(c, e.events);
            && Reads(e.state, AfterItem(p, Data(chunk)), c'.blocks, ReadItem(r, Data(chunk)))
            && c' == c.(blocks := c'.blocks)
  {
    hide CollectAll, Collect, Reads, ReadFragment, ReadContent, TransformToolDeltas, TransformContent,
         TransformToolCalls;
    var item, delta := Data(chunk), DeltaOf(chunk);
    var start := EmitMessageStart(id, t, chunk);
    StartCollects(id, t, p, c, r, chunk);
    var p1 := if p == Waiting then Texts else p;
    assert p1 == Texts || p1 == Tools by { PhaseOfReads(t, p, c.blocks, r); }
    if AfterContent(p1, delta.content) == Misordered { MisorderedForGood(FragmentsIn(item)); }
    var text := TransformContent(start.state, delta.content);
    ContentCollected(start.state, p1, c, r, delta.content);
    var c1 := CollectAll(c, text.events);
    var r1 := ReadContent(r, delta.content);
    CallsCollected(text.state, p1, c1, r1, delta.toolCalls);
    ReadsAlone(text.state, p1, c1.blocks, r1);
    var tools := TransformToolCalls(text.state, delta.toolCalls);
    CollectAppend(c, text.events, tools.events);
    CollectAppend(c, start.events, text.events + tools.events);
    var e := TransformChunk(id, t, chunk);
    FlagsDoNotRead(tools.state, AfterItem(p, item), CollectAll(c, e.events).blocks, ReadItem(r, item),
                   e.state.finishReason, e.state.outputTokens);
  }

  lemma PhaseOfReads(t: State, p: Phase, blocks: seq<ClientBlock>, r: Reading)
    requires Reads(t, p, blocks, r)
    ensures p == Waiting || p == Texts || p == Tools
  {
  }

  lemma {:induction false} RunCollected(id: string, t: State, p: Phase, c: Collected, r: Reading, items: seq<Item>)
    requires Reads(t, p, c.blocks, r)
    requires Fold(AfterItem, p, items) != Misordered && forall i | 0 <= i < |items| :: !items[i].Done?
    ensures CollectAll(c, Transform(id, t, items).events).blocks == Fold(ReadItem, r, items).blocks
    decreases |items|
  {
    hide CollectAll, Collect, Reads, ReadItem, TransformChunk;
    if items == [] {
      NothingCollected(c);
      ReadsAlone(t, p, c.blocks, r);
    } else {
      var first := TransformItem(id, t, items[0]);
      var c1 := CollectAll(c, first.events);
      if AfterItem(p, items[0]) == Misordered { MisorderedRun(items[1..]); }
      match items[0] {
        case Data(chunk) => ChunkCollected(id, t, p, c, r, chunk);
        case Junk => JunkReads(c, r);
      }
      RunCollected(id, first.state, AfterItem(p, items[0]), c1, ReadItem(r, items[0]), items[1..]);
      CollectAppend(c, first.events, Transform(id, first.state, items[1..]).events);
    }
  }

  lemma JunkReads(c: Collected, r: Reading)
    ensures CollectAll(c, []) == c && ReadItem(r, Junk) == r
  {
  }

  /** The blocks a client collects from a well-ordered stream are those read off its chunks, one by one. */
  lemma BlocksAreRead(id: string, items: seq<Item>, n: nat)
    requires WellOrdered(items) && n < |items| && items[n].Done? && forall k | 0 <= k < n :: !items[k].Done?
    ensures CollectAll(NOTHING, Transform(id, INITIAL, items).events).blocks ==
            Fold(ReadItem, Reading([], false), items[..n]).blocks
  {
    hide CollectAll, Collect, ReadItem, Transform, EmitDone;
    var before := items[..n];
    DoneIsLast(id, items, n);
    var x := Transform(id, INITIAL, before);
    assert before + items[n..] == items;
    FoldAppend(AfterItem, Waiting, before, items[n..]);
    MisorderedRun(items[n..]);
    RunCollected(id, INITIAL, Waiting, NOTHING, Reading([], false), before);
    CollectAppend(NOTHING, x.events, EmitDone(x.state).events);
    DoneCollected(x.state, CollectAll(NOTHING, x.events));
  }
}
