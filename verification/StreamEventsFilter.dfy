/** The filter in its own form: one object whose metadata each body call reads and overwrites. */
module StreamEventsFilter {
  import opened Prelude
  import opened SseFraming
  import opened EventTranslator
  import opened StreamPipeline
  import Decoder = StreamDecoder
  import Utf8

  lemma NothingToProcess()
    ensures PayloadsOf([]) == []
  {
  }

  /** What a text is cut into and what is kept, step by step. */
  lemma TextProcessed(b: Decoder.Buffers, text: Bytes, endOfStream: bool, limit: nat)
    ensures var r, combined := Decoder.ProcessText(b, text, endOfStream, limit), b.Leftover() + text;
            var pendingCr := DefersCr(combined, endOfStream);
            var normalized := NormalizeLineEndings(if pendingCr then combined[..|combined| - 1] else combined);
            var toBuffer := RestOf(normalized) + if pendingCr then [CR] else [];
            && (r.ok <==> |toBuffer| <= limit || toBuffer == [])
            && r.buffers == Decoder.Buffers(if r.ok && toBuffer != [] then Some(toBuffer) else None, b.utf8)
            && Decoder.PayloadsOfLog(r.log) == PayloadsOf(BlocksOf(normalized))
  {
    hide NormalizeLineEndings, BlocksOf, RestOf, PayloadsOf, Decoder.PayloadsOfLog, Decoder.BlockEntries;
    Decoder.ProcessTextShape(b, text, endOfStream, limit);
    var f := FrameChunk(b.Leftover(), text, endOfStream);
    assert f.buffer + [] == f.buffer;
  }

  class StreamEvents {
    const setup: Setup

    var lineBuffer: Option<Bytes>
    var utf8Buffer: Option<string>
    var started: bool
    var textOpen: bool
    var toolOpen: bool
    var blockIndex: nat
    var finishReason: Option<string>
    var outputTokens: Option<nat>

    constructor (setup: Setup)
      ensures this.setup == setup
      ensures Buffers() == Decoder.EMPTY && Translator() == INITIAL
    {
      this.setup := setup;
      lineBuffer, utf8Buffer := None, None;
      started, textOpen, toolOpen, blockIndex := false, false, false, 0;
      finishReason, outputTokens := None, None;
    }

    function Buffers(): Decoder.Buffers
      reads this
    {
      Decoder.Buffers(lineBuffer, utf8Buffer)
    }

    function Translator(): State
      reads this
    {
      State(started, textOpen, toolOpen, blockIndex, finishReason, outputTokens)
    }

    twostate predicate Advanced(e: Emitted, before: seq<Event>, after: seq<Event>)
      reads this
    {
      && Translator() == e.state
      && after == before + e.events
      && Buffers() == old(Buffers())
    }

    method CloseTextBlockIfOpen(output: seq<Event>) returns (out: seq<Event>)
      modifies this
      ensures Advanced(CloseTextBlock(old(Translator())), output, out)
    {
      out := output;
      if !textOpen {
        return;
      }
      out := out + [BlockStop(blockIndex)];
      blockIndex := blockIndex + 1;
      textOpen := false;
    }

    method CloseToolBlockIfOpen(output: seq<Event>) returns (out: seq<Event>)
      modifies this
      ensures Advanced(CloseToolBlock(old(Translator())), output, out)
    {
      out := output;
      if !toolOpen {
        return;
      }
      out := out + [BlockStop(blockIndex)];
      blockIndex := blockIndex + 1;
      toolOpen := false;
    }

    method EmitText(content: string, output: seq<Event>) returns (out: seq<Event>)
      modifies this
      ensures Advanced(EmitTextDelta(old(Translator()), content), output, out)
    {
      out := output;
      if !textOpen {
        out := out + [BlockStart(blockIndex, TextBlock)];
        textOpen := true;
      }
      out := out + [BlockDelta(blockIndex, TextDelta(content))];
    }

    method TransformTool(tc: ToolFragment, output: seq<Event>) returns (out: seq<Event>)
      modifies this
      ensures Advanced(TransformToolDelta(old(Translator()), tc), output, out)
    {
      out := output;
      if tc.id.Some? {
        out := CloseToolBlockIfOpen(out);
        var name := if tc.name.Some? then tc.name.value else "";
        out := out + [BlockStart(blockIndex, ToolBlock(tc.id.value, name))];
        toolOpen := true;
      }
      if tc.arguments.Some? && tc.arguments.value != "" {
        out := out + [BlockDelta(blockIndex, JsonDelta(tc.arguments.value))];
      }
    }

    method TransformTools(tcs: seq<ToolFragment>, output: seq<Event>) returns (out: seq<Event>)
      modifies this
      ensures Advanced(TransformToolDeltas(old(Translator()), tcs), output, out)
    {
      out := output;
      for i := 0 to |tcs|
        invariant var done := TransformToolDeltas(old(Translator()), tcs[..i]);
                  Translator() == done.state && out == output + done.events && Buffers() == old(Buffers())
      {
        ToolDeltasSnoc(old(Translator()), tcs, i);
        out := TransformTool(tcs[i], out);
      }
      assert tcs[..|tcs|] == tcs;
    }

    method TransformOneDelta(delta: ChunkDelta, output: seq<Event>) returns (out: seq<Event>)
      modifies this
      ensures Advanced(TransformDelta(old(Translator()), delta), output, out)
    {
      hide TransformToolDeltas;
      out := output;
      if delta.content.Some? {
        out := EmitText(delta.content.value, out);
      }
      if delta.toolCalls.Some? {
        out := CloseTextBlockIfOpen(out);
        out := TransformTools(delta.toolCalls.value, out);
      }
    }

    method TransformOneChunk(chunk: Chunk, output: seq<Event>) returns (out: seq<Event>)
      modifies this
      ensures Advanced(TransformChunk(setup.messageId, old(Translator()), chunk), output, out)
    {
      out := output;
      if !started {
        out := out + [MessageStart(setup.messageId, if chunk.model.Some? then chunk.model.value else "")];
        started := true;
      }
      var start := EmitMessageStart(setup.messageId, old(Translator()), chunk);
      assert Translator() == start.state && out == output + start.events;
      EmptyDelta(Translator());
      if chunk.choice.Some? {
        if chunk.choice.value.delta.Some? {
          out := TransformOneDelta(chunk.choice.value.delta.value, out);
        }
        if chunk.choice.value.finishReason.Some? {
          finishReason := chunk.choice.value.finishReason;
        }
      }
      if chunk.completionTokens.Some? {
        outputTokens := chunk.completionTokens;
      }
      Assoc(output, start.events, TransformDelta(start.state, DeltaOf(chunk)).events);
    }

    method FinishStream(output: seq<Event>) returns (out: seq<Event>)
      modifies this
      ensures Advanced(EmitDone(old(Translator())), output, out)
    {
      out := output;
      if textOpen {
        out := CloseTextBlockIfOpen(out);
      }
      if toolOpen {
        out := CloseToolBlockIfOpen(out);
      }
      var reason := if finishReason.Some? then MapStopReason(finishReason.value) else "end_turn";
      var tokens := if outputTokens.Some? then outputTokens.value else 0;
      out := out + [MessageDelta(reason, tokens)];
      out := out + [MessageStop];
    }

    method ProcessLine(line: Bytes, output: seq<Event>) returns (out: seq<Event>)
      modifies this
      ensures Advanced(Dispatch(setup, old(Translator()), PayloadsOfLine(line)), output, out)
    {
      out := output;
      var data := DataOf(line);
      NothingDispatched(setup, Translator());
      if data.Some? {
        DispatchOne(setup, Translator(), data.value);
        if data.value == DONE_SENTINEL {
          out := FinishStream(out);
        } else {
          var parsed := setup.parse(data.value);
          if parsed.Some? {
            out := TransformOneChunk(parsed.value, out);
          }
        }
      }
    }

    method ProcessEventBlock(block: Bytes, output: seq<Event>) returns (out: seq<Event>)
      modifies this
      ensures Advanced(Dispatch(setup, old(Translator()), PayloadsOfLines(Lines(block))), output, out)
    {
      out := output;
      var lines := Lines(block);
      ghost var t := Translator();
      NothingDispatched(setup, t);
      for i := 0 to |lines|
        invariant Translator() == Dispatch(setup, t, PayloadsOfLines(lines[..i])).state
        invariant out == output + Dispatch(setup, t, PayloadsOfLines(lines[..i])).events
        invariant Buffers() == old(Buffers())
      {
        LineDispatch(setup, t, lines, i);
        ghost var done := Dispatch(setup, t, PayloadsOfLines(lines[..i]));
        Assoc(output, done.events, Dispatch(setup, done.state, PayloadsOfLine(lines[i])).events);
        out := ProcessLine(lines[i], out);
      }
      assert lines[..|lines|] == lines;
    }

    /** Keep what is left of the text for the next call, unless it is empty or too long. */
    method StoreLineBuffer(buffer: Bytes) returns (ok: bool)
      modifies this`lineBuffer
      ensures ok <==> |buffer| <= setup.limit || buffer == []
      ensures lineBuffer == if ok && buffer != [] then Some(buffer) else None
    {
      if buffer == [] {
        lineBuffer := None;
        return true;
      }
      if |buffer| > setup.limit {
        lineBuffer := None;
        return false;
      }
      lineBuffer := Some(buffer);
      return true;
    }

    /** The split loop: every block ended by a blank line is processed, the rest is returned. */
    method ProcessBlocks(text: Bytes) returns (output: seq<Event>, rest: Bytes)
      modifies this
      ensures Advanced(Dispatch(setup, old(Translator()), PayloadsOf(BlocksOf(text))), [], output)
      ensures rest == RestOf(text)
    {
      hide Dispatch, PayloadsOf, BlocksOf, RestOf;
      output, rest := [], text;
      ghost var t := Translator();
      ghost var seen: seq<Bytes> := [];
      assert PayloadsOf(seen) == [] by { NothingToProcess(); }
      assert seen + BlocksOf(rest) == BlocksOf(text);
      NothingDispatched(setup, t);
      while BlankAt(rest).Some?
        invariant BlocksOf(text) == seen + BlocksOf(rest) && RestOf(text) == RestOf(rest)
        invariant Translator() == Dispatch(setup, t, PayloadsOf(seen)).state
        invariant output == Dispatch(setup, t, PayloadsOf(seen)).events
        invariant Buffers() == old(Buffers())
        decreases |rest|
      {
        var at := BlankAt(rest).value;
        var block := rest[..at];
        BlockDispatch(setup, t, seen, block);
        CutBlock(rest);
        Assoc(seen, [block], BlocksOf(rest[at + 2..]));
        rest := rest[at + 2..];
        seen := seen + [block];
        output := ProcessEventBlock(block, output);
      }
      CutBlock(rest);
      assert seen + [] == seen;
    }

    method ProcessSseChunk(text: Bytes, endOfStream: bool) returns (reply: Reply)
      modifies this
      ensures var r := Decoder.ProcessText(old(Buffers()), text, endOfStream, setup.limit);
              var e := Dispatch(setup, old(Translator()), Decoder.PayloadsOfLog(r.log));
              && Buffers() == r.buffers
              && Translator() == e.state
              && reply == if r.ok then Events(e.events) else TooLarge
    {
      hide Dispatch, BlocksOf, RestOf, ReplaceCr, ReplaceCrLf, Decoder.ProcessText, PayloadsOf;
      var leftover := if lineBuffer.Some? then lineBuffer.value else [];
      var combined := leftover + text;
      var pendingCr := DefersCr(combined, endOfStream);
      var toNormalize := if pendingCr then combined[..|combined| - 1] else combined;
      TwoReplacements(toNormalize);
      var normalized := ReplaceCr(ReplaceCrLf(toNormalize));
      var output, remaining := ProcessBlocks(normalized);
      var toBuffer := remaining + if pendingCr then [CR] else [];
      TextProcessed(old(Buffers()), text, endOfStream, setup.limit);
      var ok := StoreLineBuffer(toBuffer);
      reply := if ok then Events(output) else TooLarge;
    }

    /** Prefix the pending bytes, and keep an incomplete character at the end for the next call. */
    method DecodeChunk(bytes: Bytes, endOfStream: bool) returns (d: Decoder.Decoded)
      modifies this`utf8Buffer
      ensures d == Decoder.Decode(old(Buffers()), bytes, endOfStream)
      ensures utf8Buffer == if d.Text? then d.utf8 else None
    {
      var pending := if utf8Buffer.Some? then Utf8.DecodeHex(utf8Buffer.value) else [];
      utf8Buffer := None;
      var combined := pending + bytes;
      var check := Utf8.FromUtf8(combined);
      if check.WellFormed? {
        return Decoder.Text(None, combined);
      }
      if check.Malformed? || endOfStream {
        return Decoder.NotText(combined);
      }
      if |combined| - check.validUpTo > 3 {
        return Decoder.NotText(combined);
      }
      utf8Buffer := Some(Utf8.EncodeHex(combined[check.validUpTo..]));
      return Decoder.Text(utf8Buffer, combined[..check.validUpTo]);
    }

    method DecodeAndProcessChunk(bytes: Bytes, endOfStream: bool) returns (reply: Reply)
      modifies this
      ensures Called(Buffers(), Translator(), reply) ==
              Call(setup, old(Buffers()), old(Translator()), bytes, endOfStream)
    {
      var d := DecodeChunk(bytes, endOfStream);
      if d.NotText? {
        reply := Raw((if lineBuffer.Some? then lineBuffer.value else []) + d.bytes);
        lineBuffer := None;
        return;
      }
      if d.text == [] && !endOfStream {
        NothingDispatched(setup, Translator());
        return Events([]);
      }
      reply := ProcessSseChunk(d.text, endOfStream);
    }

    /** The body hook; a missing body only matters at the end of the stream. */
    method OnResponseBody(body: Option<Bytes>, endOfStream: bool) returns (reply: Option<Reply>)
      modifies this
      ensures body.None? && !endOfStream ==>
                reply.None? && Buffers() == old(Buffers()) && Translator() == old(Translator())
      ensures body.Some? || endOfStream ==>
                && reply.Some?
                && Called(Buffers(), Translator(), reply.value) ==
                   Call(setup, old(Buffers()), old(Translator()), body.GetOr([]), endOfStream)
    {
      if body.None? && !endOfStream {
        return None;
      }
      var r := DecodeAndProcessChunk(if body.Some? then body.value else [], endOfStream);
      reply := Some(r);
    }
  }

  lemma {:induction false} ToolDeltasSnoc(t: State, tcs: seq<ToolFragment>, i: nat)
    requires i < |tcs|
    ensures var done := TransformToolDeltas(t, tcs[..i]);
            var one := TransformToolDelta(done.state, tcs[i]);
            TransformToolDeltas(t, tcs[..i + 1]) == Emitted(one.state, done.events + one.events)
    decreases i
  {
    var first := TransformToolDelta(t, tcs[0]);
    if i == 0 {
      assert tcs[..1][1..] == [];
      assert first.events + [] == first.events && [] + first.events == first.events;
    } else {
      ToolDeltasSnoc(first.state, tcs[1..], i - 1);
      assert tcs[..i][1..] == tcs[1..][..i - 1] && tcs[..i + 1][1..] == tcs[1..][..i];
      var done := TransformToolDeltas(first.state, tcs[1..][..i - 1]);
      Assoc(first.events, done.events, TransformToolDelta(done.state, tcs[i]).events);
    }
  }

  lemma EmptyDelta(t: State)
    ensures TransformDelta(t, ChunkDelta(None, None)) == Emitted(t, [])
  {
  }

  lemma NothingDispatched(s: Setup, t: State)
    ensures Dispatch(s, t, []) == Emitted(t, [])
  {
  }

  lemma DispatchOne(s: Setup, t: State, payload: Bytes)
    ensures Dispatch(s, t, [payload]) == TransformItem(s.messageId, t, ItemOf(s.parse, payload))
  {
    var single: seq<Bytes>, items: seq<Item> := [payload], [ItemOf(s.parse, payload)];
    assert single[1..] == [] && items[1..] == [];
    assert ItemsOf(s.parse, single) == items;
    var e := TransformItem(s.messageId, t, items[0]);
    assert Transform(s.messageId, e.state, items[1..]) == Emitted(e.state, []);
    assert e.events + [] == e.events;
  }

  lemma {:induction false} PayloadsOfLinesAppend(a: seq<Bytes>, b: seq<Bytes>)
    ensures PayloadsOfLines(a + b) == PayloadsOfLines(a) + PayloadsOfLines(b)
  {
    if a == [] {
      assert a + b == b;
    } else {
      PayloadsOfLinesAppend(a[1..], b);
      assert (a + b)[1..] == a[1..] + b;
      Assoc(PayloadsOfLine(a[0]), PayloadsOfLines(a[1..]), PayloadsOfLines(b));
    }
  }

  lemma LineDispatch(s: Setup, t: State, lines: seq<Bytes>, i: nat)
    requires i < |lines|
    ensures var done := Dispatch(s, t, PayloadsOfLines(lines[..i]));
            var one := Dispatch(s, done.state, PayloadsOfLine(lines[i]));
            Dispatch(s, t, PayloadsOfLines(lines[..i + 1])) == Emitted(one.state, done.events + one.events)
  {
    assert lines[..i + 1] == lines[..i] + [lines[i]];
    PayloadsOfLinesAppend(lines[..i], [lines[i]]);
    var single := [lines[i]];
    assert single[1..] == [] && PayloadsOfLine(lines[i]) + [] == PayloadsOfLine(lines[i]);
    DispatchAppend(s, t, PayloadsOfLines(lines[..i]), PayloadsOfLine(lines[i]));
  }

  lemma BlockDispatch(s: Setup, t: State, seen: seq<Bytes>, block: Bytes)
    ensures var done := Dispatch(s, t, PayloadsOf(seen));
            var one := Dispatch(s, done.state, PayloadsOfLines(Lines(block)));
            Dispatch(s, t, PayloadsOf(seen + [block])) == Emitted(one.state, done.events + one.events)
  {
    PayloadsOfAppend(seen, [block]);
    var p := PayloadsOfLines(Lines(block));
    var single := [block];
    assert single[1..] == [] && p + [] == p;
    DispatchAppend(s, t, PayloadsOf(seen), p);
  }
}
