/**
 * The block state machine that turns Chat Completions stream chunks into Anthropic events.
 * JSON is already parsed: a chunk is the part of the parsed value the filter looks at, where a
 * member that is missing or of another JSON type is `None`.
 */
module EventTranslator {
  import opened Prelude

  /** The `index` says which call a fragment belongs to; the filter never looks at it. */
  datatype ToolFragment = ToolFragment(index: nat, id: Option<string>, name: Option<string>, arguments: Option<string>)

  datatype ChunkDelta = ChunkDelta(content: Option<string>, toolCalls: Option<seq<ToolFragment>>)

  datatype Choice = Choice(delta: Option<ChunkDelta>, finishReason: Option<string>)

  datatype Chunk = Chunk(model: Option<string>, choice: Option<Choice>, completionTokens: Option<nat>)

  /** A dispatched payload: a JSON chunk, the `[DONE]` sentinel, or text that is not JSON. */
  datatype Item = Data(chunk: Chunk) | Done | Junk

  datatype BlockKind = TextBlock | ToolBlock(id: string, name: string)

  datatype BlockContent = TextDelta(text: string) | JsonDelta(partialJson: string)

  datatype Event =
    | MessageStart(id: string, model: string)
    | BlockStart(index: nat, kind: BlockKind)
    | BlockDelta(index: nat, content: BlockContent)
    | BlockStop(index: nat)
    | MessageDelta(stopReason: string, outputTokens: nat)
    | MessageStop

  datatype State = State(
    started: bool,
    textOpen: bool,
    toolOpen: bool,
    blockIndex: nat,
    finishReason: Option<string>,
    outputTokens: Option<nat>)

  const INITIAL := State(false, false, false, 0, None, None)

  datatype Emitted = Emitted(state: State, events: seq<Event>)

  function EmitMessageStart(id: string, t: State, chunk: Chunk): Emitted {
    if t.started then Emitted(t, [])
    else Emitted(t.(started := true), [MessageStart(id, chunk.model.GetOr(""))])
  }

  function EmitTextDelta(t: State, content: string): Emitted {
    var delta := BlockDelta(t.blockIndex, TextDelta(content));
    if t.textOpen then Emitted(t, [delta])
    else Emitted(t.(textOpen := true), [BlockStart(t.blockIndex, TextBlock), delta])
  }

  function CloseTextBlock(t: State): Emitted {
    if !t.textOpen then Emitted(t, [])
    else Emitted(t.(textOpen := false, blockIndex := t.blockIndex + 1), [BlockStop(t.blockIndex)])
  }

  function CloseToolBlock(t: State): Emitted {
    if !t.toolOpen then Emitted(t, [])
    else Emitted(t.(toolOpen := false, blockIndex := t.blockIndex + 1), [BlockStop(t.blockIndex)])
  }

  function EmitToolBlockStart(t: State, id: string, name: string): Emitted {
    Emitted(t.(toolOpen := true), [BlockStart(t.blockIndex, ToolBlock(id, name))])
  }

  function EmitArguments(t: State, arguments: Option<string>): Emitted {
    if arguments.GetOr("") == "" then Emitted(t, [])
    else Emitted(t, [BlockDelta(t.blockIndex, JsonDelta(arguments.value))])
  }

  function TransformToolDelta(t: State, tc: ToolFragment): Emitted {
    if tc.id.None? then EmitArguments(t, tc.arguments)
    else
      var close := CloseToolBlock(t);
      var open := EmitToolBlockStart(close.state, tc.id.value, tc.name.GetOr(""));
      var args := EmitArguments(open.state, tc.arguments);
      Emitted(args.state, close.events + open.events + args.events)
  }

  function TransformToolDeltas(t: State, tcs: seq<ToolFragment>): Emitted
    decreases |tcs|
  {
    if tcs == [] then Emitted(t, [])
    else
      var first := TransformToolDelta(t, tcs[0]);
      var rest := TransformToolDeltas(first.state, tcs[1..]);
      Emitted(rest.state, first.events + rest.events)
  }

  function TransformContent(t: State, content: Option<string>): Emitted {
    if content.None? then Emitted(t, []) else EmitTextDelta(t, content.value)
  }

  function TransformToolCalls(t: State, toolCalls: Option<seq<ToolFragment>>): Emitted {
    if toolCalls.None? then Emitted(t, [])
    else
      var close := CloseTextBlock(t);
      var tools := TransformToolDeltas(close.state, toolCalls.value);
      Emitted(tools.state, close.events + tools.events)
  }

  function TransformDelta(t: State, delta: ChunkDelta): Emitted {
    var text := TransformContent(t, delta.content);
    var tools := TransformToolCalls(text.state, delta.toolCalls);
    Emitted(tools.state, text.events + tools.events)
  }

  function DeltaOf(chunk: Chunk): ChunkDelta {
    if chunk.choice.Some? && chunk.choice.value.delta.Some? then chunk.choice.value.delta.value
    else ChunkDelta(None, None)
  }

  function Latest<T>(new': Option<T>, old': Option<T>): Option<T> { if new'.Some? then new' else old' }

  function FinishOf(chunk: Chunk): Option<string> {
    if chunk.choice.Some? then chunk.choice.value.finishReason else None
  }

  function TransformChunk(id: string, t: State, chunk: Chunk): Emitted {
    var start := EmitMessageStart(id, t, chunk);
    var delta := TransformDelta(start.state, DeltaOf(chunk));
    Emitted(
      delta.state.(
      finishReason := Latest(FinishOf(chunk), delta.state.finishReason),
      outputTokens := Latest(chunk.completionTokens, delta.state.outputTokens)),
      start.events + delta.events)
  }

  function MapStopReason(reason: string): string {
    if reason == "tool_calls" then "tool_use"
    else if reason == "length" then "max_tokens"
    else "end_turn"
  }

  function FinalEvents(t: State): seq<Event> {
    var stop := if t.finishReason.Some? then MapStopReason(t.finishReason.value) else "end_turn";
    [MessageDelta(stop, t.outputTokens.GetOr(0)), MessageStop]
  }

  function EmitDone(t: State): Emitted {
    var text := CloseTextBlock(t);
    var tool := CloseToolBlock(text.state);
    Emitted(tool.state, text.events + tool.events + FinalEvents(t))
  }

  function TransformItem(id: string, t: State, item: Item): Emitted {
    match item
    case Data(chunk) => TransformChunk(id, t, chunk)
    case Done => EmitDone(t)
    case Junk => Emitted(t, [])
  }

  function Transform(id: string, t: State, items: seq<Item>): Emitted
    decreases |items|
  {
    if items == [] then Emitted(t, [])
    else
      var first := TransformItem(id, t, items[0]);
      var rest := Transform(id, first.state, items[1..]);
      Emitted(rest.state, first.events + rest.events)
  }

  lemma {:induction false} TransformAppend(id: string, t: State, a: seq<Item>, b: seq<Item>)
    ensures var x := Transform(id, t, a);
            var y := Transform(id, x.state, b);
            Transform(id, t, a + b) == Emitted(y.state, x.events + y.events)
    decreases |a|
  {
    if a == [] {
      assert a + b == b;
    } else {
      assert (a + b)[1..] == a[1..] + b;
      var first := TransformItem(id, t, a[0]);
      TransformAppend(id, first.state, a[1..], b);
      var x := Transform(id, first.state, a[1..]);
      Assoc(first.events, x.events, Transform(id, x.state, b).events);
    }
  }

  // ---------------------------------------------------------------------------
  // What holds for every input whatsoever
  // ---------------------------------------------------------------------------

  /** An outside tally of an event sequence. */
  datatype Tally = Tally(
    messageStarts: nat,
    startLate: bool,
    starts: nat,
    stops: seq<nat>,
    text: string,
    json: string)

  const NO_EVENTS := Tally(0, false, 0, [], "", "")

  function Count(o: Tally, e: Event): Tally {
    match e
    case MessageStart(_, _) => o.(messageStarts := o.messageStarts + 1)
    case BlockStart(_, _) => o.(startLate := o.startLate || o.messageStarts == 0, starts := o.starts + 1)
    case BlockStop(i) => o.(startLate := o.startLate || o.messageStarts == 0, stops := o.stops + [i])
    case BlockDelta(_, TextDelta(s)) => o.(startLate := o.startLate || o.messageStarts == 0, text := o.text + s)
    case BlockDelta(_, JsonDelta(s)) => o.(startLate := o.startLate || o.messageStarts == 0, json := o.json + s)
    case _ => o
  }

  function TallyOf(o: Tally, events: seq<Event>): Tally { Fold(Count, o, events) }

  predicate Tallies(t: State, o: Tally) {
    && o.messageStarts == (if t.started then 1 else 0)
    && !o.startLate
    && (t.textOpen || t.toolOpen ==> t.started)
    && o.starts == |o.stops| + (if t.textOpen then 1 else 0) + (if t.toolOpen then 1 else 0)
    && t.blockIndex == |o.stops|
    && forall i | 0 <= i < |o.stops| :: o.stops[i] == i
  }

  function ArgumentsOf(tcs: seq<ToolFragment>): string {
    if tcs == [] then ""
    else match tcs[0].arguments
         case Some(arguments) => arguments + ArgumentsOf(tcs[1..])
         case None => ArgumentsOf(tcs[1..])
  }

  // What an item says, read off the fields of its chunk.

  function ContentIn(item: Item): Option<string> {
    match item
    case Data(Chunk(_, Some(Choice(Some(ChunkDelta(content, _)), _)), _)) => content
    case _ => None
  }

  function CallsIn(item: Item): Option<seq<ToolFragment>> {
    match item
    case Data(Chunk(_, Some(Choice(Some(ChunkDelta(_, toolCalls)), _)), _)) => toolCalls
    case _ => None
  }

  function FinishIn(item: Item): Option<string> {
    match item
    case Data(Chunk(_, Some(Choice(_, finishReason)), _)) => finishReason
    case _ => None
  }

  function TokensIn(item: Item): Option<nat> {
    match item
    case Data(Chunk(_, _, completionTokens)) => completionTokens
    case _ => None
  }

  function ItemText(item: Item): string {
    match ContentIn(item)
    case Some(content) => content
    case None => ""
  }

  function ItemArguments(item: Item): string {
    match CallsIn(item)
    case Some(tcs) => ArgumentsOf(tcs)
    case None => ""
  }

  function TextOf(items: seq<Item>): string {
    if items == [] then "" else ItemText(items[0]) + TextOf(items[1..])
  }

  function JsonOf(items: seq<Item>): string {
    if items == [] then "" else ItemArguments(items[0]) + JsonOf(items[1..])
  }

  lemma CloseTallies(t: State, o: Tally, text: bool)
    requires Tallies(t, o)
    ensures var r := if text then CloseTextBlock(t) else CloseToolBlock(t);
            var p := TallyOf(o, r.events);
            Tallies(r.state, p) && p.text == o.text && p.json == o.json
  {
    FoldOne(Count, o, BlockStop(t.blockIndex));
  }

  lemma TextTallies(t: State, o: Tally, content: string)
    requires Tallies(t, o) && t.started
    ensures var r := EmitTextDelta(t, content);
            var p := TallyOf(o, r.events);
            Tallies(r.state, p) && p.text == o.text + content && p.json == o.json
  {
    var delta := BlockDelta(t.blockIndex, TextDelta(content));
    FoldOne(Count, o, delta);
    FoldTwo(Count, o, BlockStart(t.blockIndex, TextBlock), delta);
  }

  lemma ArgumentsTally(t: State, o: Tally, arguments: Option<string>)
    requires Tallies(t, o) && t.started
    ensures var p := TallyOf(o, EmitArguments(t, arguments).events);
            Tallies(t, p) && p.text == o.text && p.json == o.json + arguments.GetOr("")
  {
    FoldOne(Count, o, BlockDelta(t.blockIndex, JsonDelta(arguments.GetOr(""))));
  }

  lemma ToolTallies(t: State, o: Tally, tc: ToolFragment)
    requires Tallies(t, o) && t.started
    ensures var r := TransformToolDelta(t, tc);
            var p := TallyOf(o, r.events);
            Tallies(r.state, p) && r.state.started && p.text == o.text && p.json == o.json + tc.arguments.GetOr("")
  {
    if tc.id.None? {
      ArgumentsTally(t, o, tc.arguments);
    } else {
      var close := CloseToolBlock(t);
      var open := EmitToolBlockStart(close.state, tc.id.value, tc.name.GetOr(""));
      CloseTallies(t, o, false);
      var o1 := TallyOf(o, close.events);
      FoldOne(Count, o1, open.events[0]);
      var o2 := TallyOf(o1, open.events);
      ArgumentsTally(open.state, o2, tc.arguments);
      FoldAppend(Count, o, close.events, open.events);
      FoldAppend(Count, o, close.events + open.events, EmitArguments(open.state, tc.arguments).events);
    }
  }

  lemma {:induction false} ToolsTally(t: State, o: Tally, tcs: seq<ToolFragment>)
    requires Tallies(t, o) && t.started
    ensures var r := TransformToolDeltas(t, tcs);
            var p := TallyOf(o, r.events);
            Tallies(r.state, p) && r.state.started && p.text == o.text && p.json == o.json + ArgumentsOf(tcs)
    decreases |tcs|
  {
    if tcs != [] {
      var first := TransformToolDelta(t, tcs[0]);
      var rest := TransformToolDeltas(first.state, tcs[1..]);
      ToolTallies(t, o, tcs[0]);
      ToolsTally(first.state, TallyOf(o, first.events), tcs[1..]);
      FoldAppend(Count, o, first.events, rest.events);
      Assoc(o.json, tcs[0].arguments.GetOr(""), ArgumentsOf(tcs[1..]));
    }
  }

  lemma DeltaTallies(t: State, o: Tally, delta: ChunkDelta)
    requires Tallies(t, o) && t.started
    ensures var r := TransformDelta(t, delta);
            var p := TallyOf(o, r.events);
            && Tallies(r.state, p)
            && p.text == o.text + delta.content.GetOr("")
            && p.json == o.json + ArgumentsOf(delta.toolCalls.GetOr([]))
  {
    var text := TransformContent(t, delta.content);
    if delta.content.Some? { TextTallies(t, o, delta.content.value); }
    var o1 := TallyOf(o, text.events);
    var tools := TransformToolCalls(text.state, delta.toolCalls);
    if delta.toolCalls.Some? {
      var close := CloseTextBlock(text.state);
      CloseTallies(text.state, o1, true);
      ToolsTally(close.state, TallyOf(o1, close.events), delta.toolCalls.value);
      FoldAppend(Count, o1, close.events, TransformToolDeltas(close.state, delta.toolCalls.value).events);
    }
    FoldAppend(Count, o, text.events, tools.events);
  }

  lemma DoneTallies(t: State, o: Tally)
    requires Tallies(t, o)
    ensures var r := EmitDone(t);
            var p := TallyOf(o, r.events);
            && Tallies(r.state, p)
            && p.starts == |p.stops|
            && p.text == o.text && p.json == o.json
  {
    var text := CloseTextBlock(t);
    var tool := CloseToolBlock(text.state);
    CloseTallies(t, o, true);
    var o1 := TallyOf(o, text.events);
    CloseTallies(text.state, o1, false);
    FoldAppend(Count, o, text.events, tool.events);
    FoldAppend(Count, o, text.events + tool.events, FinalEvents(t));
    FoldTwo(Count, TallyOf(o1, tool.events), FinalEvents(t)[0], FinalEvents(t)[1]);
  }

  lemma ItemTallies(id: string, t: State, o: Tally, item: Item)
    requires Tallies(t, o)
    ensures var r := TransformItem(id, t, item);
            var p := TallyOf(o, r.events);
            && Tallies(r.state, p)
            && p.text == o.text + ItemText(item)
            && p.json == o.json + ItemArguments(item)
            && (item.Done? ==> p.starts == |p.stops|)
  {
    match item {
      case Data(chunk) =>
        var start := EmitMessageStart(id, t, chunk);
        FoldOne(Count, o, MessageStart(id, chunk.model.GetOr("")));
        var o1 := TallyOf(o, start.events);
        DeltaTallies(start.state, o1, DeltaOf(chunk));
        FoldAppend(Count, o, start.events, TransformDelta(start.state, DeltaOf(chunk)).events);
      case Done => DoneTallies(t, o);
      case Junk =>
    }
  }

  lemma {:induction false} RunTallies(id: string, t: State, o: Tally, items: seq<Item>)
    requires Tallies(t, o)
    ensures var r := Transform(id, t, items);
            var p := TallyOf(o, r.events);
            && Tallies(r.state, p)
            && p.text == o.text + TextOf(items)
            && p.json == o.json + JsonOf(items)
            && (items != [] && items[|items| - 1].Done? ==> p.starts == |p.stops|)
    decreases |items|
  {
    hide TransformItem, Count, Tallies, ItemText, ItemArguments;
    if items != [] {
      var first := TransformItem(id, t, items[0]);
      ItemTallies(id, t, o, items[0]);
      var o1 := TallyOf(o, first.events);
      RunTallies(id, first.state, o1, items[1..]);
      FoldAppend(Count, o, first.events, Transform(id, first.state, items[1..]).events);
      Assoc(o.text, ItemText(items[0]), TextOf(items[1..]));
      Assoc(o.json, ItemArguments(items[0]), JsonOf(items[1..]));
    }
  }

  /**
   * For every input whatsoever: starts minus stops is the number of open blocks, the block index is
   * the number of stops and stops carry 0, 1, 2, ..., the message starts at most once and before any
   * block event, and no character of content or arguments is lost, added or moved.
   */
  lemma EveryInputTallies(id: string, items: seq<Item>)
    ensures var r := Transform(id, INITIAL, items);
            var p := TallyOf(NO_EVENTS, r.events);
            && p.starts == |p.stops| + (if r.state.textOpen then 1 else 0) + (if r.state.toolOpen then 1 else 0)
            && r.state.blockIndex == |p.stops|
            && (forall i | 0 <= i < |p.stops| :: p.stops[i] == i)
            && p.messageStarts <= 1 && !p.startLate
            && p.text == TextOf(items) && p.json == JsonOf(items)
            && (items != [] && items[|items| - 1].Done? ==> p.starts == |p.stops|)
  {
    hide Transform, TallyOf, TextOf, JsonOf;
    RunTallies(id, INITIAL, NO_EVENTS, items);
    assert "" + TextOf(items) == TextOf(items) && "" + JsonOf(items) == JsonOf(items);
  }
}
