/**
 * What one response-body call does to the two buffers carried between calls (incomplete UTF-8 in
 * hexadecimal, incomplete event text), and what whole runs of such calls dispatch.
 */
module StreamDecoder {
  import opened Prelude
  import opened SseFraming
  import Utf8

  datatype Buffers = Buffers(line: Option<Bytes>, utf8: Option<string>) {
    function Leftover(): Bytes { line.GetOr([]) }
    function Pending(): Bytes { if utf8.Some? then Utf8.DecodeHex(utf8.value) else [] }
  }

  const EMPTY := Buffers(None, None)

  /** What left the buffers: an event block to be translated, or bytes passed through as they came. */
  datatype Entry = Block(text: Bytes) | Verbatim(bytes: Bytes)

  /** `text` is the string handed to the event splitter; `ok` is false when the size limit is hit. */
  datatype Outcome = Outcome(buffers: Buffers, text: Bytes, log: seq<Entry>, ok: bool)

  function BlockEntries(blocks: seq<Bytes>): (log: seq<Entry>)
    ensures |log| == |blocks| && forall i | 0 <= i < |log| :: log[i] == Block(blocks[i])
  {
    seq(|blocks|, i requires 0 <= i < |blocks| => Block(blocks[i]))
  }

  /** Malformed input: the buffered text and the bytes go out untouched. */
  function PassThrough(b: Buffers, combined: Bytes): Outcome {
    Outcome(EMPTY, [], [Verbatim(b.Leftover() + combined)], true)
  }

  function ProcessText(b: Buffers, text: Bytes, endOfStream: bool, limit: nat): Outcome {
    var f := FrameChunk(b.Leftover(), text, endOfStream);
    if f.buffer == [] then Outcome(b.(line := None), text, BlockEntries(f.blocks), true)
    else if |f.buffer| > limit then Outcome(b.(line := None), text, BlockEntries(f.blocks), false)
    else Outcome(b.(line := Some(f.buffer)), text, BlockEntries(f.blocks), true)
  }

  datatype Decoded = Text(utf8: Option<string>, text: Bytes) | NotText(bytes: Bytes)

  /** The valid prefix of pending and new bytes, and the incomplete character kept for the next call. */
  function Decode(b: Buffers, bytes: Bytes, endOfStream: bool): Decoded {
    var combined := b.Pending() + bytes;
    match Utf8.FromUtf8(combined)
    case WellFormed => Text(None, combined)
    case Truncated(v) =>
      if endOfStream || |combined| - v > 3 then NotText(combined)
      else Text(Some(Utf8.EncodeHex(combined[v..])), combined[..v])
    case Malformed(_) => NotText(combined)
  }

  function DecodeAndProcess(b: Buffers, bytes: Bytes, endOfStream: bool, limit: nat): Outcome {
    match Decode(b, bytes, endOfStream)
    case NotText(combined) => PassThrough(b, combined)
    case Text(utf8, text) =>
      if text == [] && !endOfStream then Outcome(b.(utf8 := utf8), [], [], true)
      else ProcessText(b.(utf8 := utf8), text, endOfStream, limit)
  }

  /** A whole response: the last chunk comes with the end-of-stream flag. */
  function Run(b: Buffers, chunks: seq<Bytes>, limit: nat): Outcome
    requires chunks != []
    decreases |chunks|
  {
    var r := DecodeAndProcess(b, chunks[0], |chunks| == 1, limit);
    if !r.ok || |chunks| == 1 then r
    else
      var s := Run(r.buffers, chunks[1..], limit);
      Outcome(s.buffers, r.text + s.text, r.log + s.log, s.ok)
  }

  function PayloadsOfLog(log: seq<Entry>): seq<Bytes> {
    if log == [] then []
    else (if log[0].Block? then PayloadsOfLines(Lines(log[0].text)) else []) + PayloadsOfLog(log[1..])
  }

  predicate NothingVerbatim(log: seq<Entry>) { forall e | e in log :: e.Block? }

  /** What a call may rely on and leaves behind. */
  predicate Bounded(b: Buffers, limit: nat) {
    && (b.line.Some? ==> 0 < |b.line.value| <= limit)
    && |b.Pending()| <= 3
  }

  // ---------------------------------------------------------------------------
  // One chunk against the line-at-a-time reading
  // ---------------------------------------------------------------------------

  lemma SplitDispatch(text: Bytes, more: Bytes)
    requires CR !in text
    ensures PayloadsOf(BlocksOf(text + more)) == PayloadsOf(BlocksOf(text)) + PayloadsOf(BlocksOf(RestOf(text) + more))
  {
    BlocksAppend(text, more);
    PayloadsOfAppend(BlocksOf(text), BlocksOf(RestOf(text) + more));
  }

  lemma RestHasNoCr(text: Bytes)
    requires CR !in text
    ensures CR !in RestOf(text)
  {
    RestIsTail(text);
  }

  /** Text read so far that does not end in CR: what follows is read as if from the start of the rest. */
  lemma DispatchInTwo(raw: Bytes, more: Bytes)
    requires !(EndsWith(raw, CR) && StartsWith(more, LF))
    ensures var n := NormalizeLineEndings(raw);
            ReadByLines(raw + more) == PayloadsOf(BlocksOf(n)) + ReadByLines(RestOf(n) + more)
  {
    hide NormalizeLineEndings, BlocksOf, RestOf, PayloadsOf, ReadByLines;
    var n, m := NormalizeLineEndings(raw), NormalizeLineEndings(more);
    NormalizeAppend(raw, more);
    NormalizeHasNoCr(raw);
    RestHasNoCr(n);
    NormalizeFixesCrFree(RestOf(n));
    NormalizeAppend(RestOf(n), more);
    SplitDispatch(n, m);
    NormalizedDispatch(raw + more);
    NormalizedDispatch(RestOf(n) + more);
  }

  lemma NormalizeCutPair(head: Bytes, tail: Bytes)
    requires EndsWith(head, CR)
    ensures NormalizeLineEndings(head + ([LF] + tail)) == NormalizeLineEndings(head) + NormalizeLineEndings(tail)
  {
    var init := head[..|head| - 1];
    assert head == init + [CR];
    Assoc(init, [CR], [LF] + tail);
    NormalizeAppend(init, [CR]);
    NormalizeAppend(init, [CR] + ([LF] + tail));
    assert ([CR] + ([LF] + tail))[2..] == tail && [CR][1..] == [];
    Assoc(NormalizeLineEndings(init), [LF], NormalizeLineEndings(tail));
  }

  /** A text ending in CR CR: the LF of a pair cut in two only adds a silent empty line. */
  lemma DispatchAfterDoubleCr(raw: Bytes, tail: Bytes)
    requires |raw| >= 2 && raw[|raw| - 2] == CR && raw[|raw| - 1] == CR
    ensures var n := NormalizeLineEndings(raw);
            ReadByLines(raw + ([LF] + tail)) ==
            PayloadsOf(BlocksOf(n)) + ReadByLines(RestOf(n) + ([LF] + tail))
  {
    hide NormalizeLineEndings, BlocksOf, RestOf, PayloadsOf, ReadByLines;
    var n := NormalizeLineEndings(raw);
    NormalizeCutPair(raw, tail);
    NormalizeHasNoCr(raw);
    SplitDispatch(n, NormalizeLineEndings(tail));
    NormalizedDispatch(raw + ([LF] + tail));
    EndsInTwoLf(raw);
    RestAfterBlank(n);
    RestAbsorbsLf(RestOf(n), tail);
  }

  lemma RestAbsorbsLf(rest: Bytes, tail: Bytes)
    requires rest == [] || rest == [LF]
    ensures PayloadsOf(BlocksOf(rest + NormalizeLineEndings(tail))) == ReadByLines(rest + ([LF] + tail))
  {
    NormalizeFixesCrFree(rest);
    NormalizeAppend(rest, tail);
    NormalizedDispatch(rest + tail);
    LeadingBlankIsSilent(tail);
    LeadingBlankIsSilent([LF] + tail);
    assert [] + tail == tail && [] + ([LF] + tail) == [LF] + tail;
  }

  lemma EndsInTwoLf(raw: Bytes)
    requires |raw| >= 2 && raw[|raw| - 2] == CR && raw[|raw| - 1] == CR
    ensures var n := NormalizeLineEndings(raw); |n| >= 2 && n[|n| - 2] == LF && n[|n| - 1] == LF
  {
    var head := raw[..|raw| - 2];
    assert raw == head + [CR, CR];
    NormalizeAppend(head, [CR, CR]);
    assert [CR, CR][1..] == [CR] && [CR][1..] == [];
  }

  /** One call before the end of the stream: dispatched now, plus read later, is the reading of the whole. */
  lemma ChunkStep(leftover: Bytes, chunk: Bytes, more: Bytes)
    ensures var f := FrameChunk(leftover, chunk, false);
            ReadByLines(leftover + chunk + more) == PayloadsOf(f.blocks) + ReadByLines(f.buffer + more)
  {
    hide NormalizeLineEndings, BlocksOf, RestOf, PayloadsOf, ReadByLines;
    var combined := leftover + chunk;
    if DefersCr(combined, false) {
      var head := combined[..|combined| - 1];
      assert combined + more == head + ([CR] + more);
      DispatchInTwo(head, [CR] + more);
      Assoc(RestOf(NormalizeLineEndings(head)), [CR], more);
    } else if EndsWith(combined, CR) && StartsWith(more, LF) {
      assert more == [LF] + more[1..];
      DispatchAfterDoubleCr(combined, more[1..]);
    } else {
      DispatchInTwo(combined, more);
    }
  }

  lemma FinalChunk(leftover: Bytes, chunk: Bytes)
    ensures PayloadsOf(FrameChunk(leftover, chunk, true).blocks) == ReadByLines(leftover + chunk)
  {
    NormalizedDispatch(leftover + chunk);
  }

  lemma {:induction false} BlockEntryPayloads(blocks: seq<Bytes>)
    ensures PayloadsOfLog(BlockEntries(blocks)) == PayloadsOf(blocks)
  {
    if blocks != [] {
      BlockEntryPayloads(blocks[1..]);
      assert BlockEntries(blocks)[1..] == BlockEntries(blocks[1..]);
    }
  }

  lemma {:induction false} PayloadsOfLogAppend(a: seq<Entry>, b: seq<Entry>)
    ensures PayloadsOfLog(a + b) == PayloadsOfLog(a) + PayloadsOfLog(b)
  {
    if a == [] {
      assert a + b == b;
    } else {
      PayloadsOfLogAppend(a[1..], b);
      assert (a + b)[1..] == a[1..] + b;
      Assoc(if a[0].Block? then PayloadsOfLines(Lines(a[0].text)) else [], PayloadsOfLog(a[1..]), PayloadsOfLog(b));
    }
  }

  // ---------------------------------------------------------------------------
  // Whole runs
  // ---------------------------------------------------------------------------

  /** UTF-8 reassembly in one call: nothing malformed, and no byte lost between text and pending. */
  lemma ReassembleStep(b: Buffers, bytes: Bytes, endOfStream: bool, future: Bytes)
    requires Utf8.Valid(b.Pending() + bytes + future)
    requires endOfStream ==> future == []
    ensures var d := Decode(b, bytes, endOfStream);
            && d.Text?
            && Utf8.Valid(d.text)
            && var pending := b.(utf8 := d.utf8).Pending();
              && d.text + pending == b.Pending() + bytes
              && Utf8.Valid(pending + future)
              && |pending| <= 3
              && (endOfStream ==> pending == [])
  {
    hide Utf8.Valid, Utf8.FromUtf8, Utf8.EncodeHex, Utf8.DecodeHex;
    var combined := b.Pending() + bytes;
    Utf8.CutValidText(combined, future);
    match Utf8.FromUtf8(combined) {
      case WellFormed =>
        assert [] + future == future && combined + [] == combined;
      case Truncated(v) => KeepTruncated(combined, v);
    }
  }

  /** At most three octets are held back, so the length guard never fires, and they come back intact. */
  lemma KeepTruncated(combined: Bytes, v: nat)
    requires Utf8.FromUtf8(combined) == Utf8.Truncated(v)
    ensures Utf8.Valid(combined[..v]) && |combined| - v <= 3
    ensures Utf8.DecodeHex(Utf8.EncodeHex(combined[v..])) == combined[v..]
    ensures combined[..v] + combined[v..] == combined
  {
    hide Utf8.Valid, Utf8.FromUtf8, Utf8.EncodeHex, Utf8.DecodeHex;
    Utf8.TruncatedSplit(combined);
    Utf8.HexRoundTrip(combined[v..]);
  }

  lemma ProcessTextShape(b: Buffers, text: Bytes, endOfStream: bool, limit: nat)
    ensures var r, f := ProcessText(b, text, endOfStream, limit), FrameChunk(b.Leftover(), text, endOfStream);
            && r.text == text
            && r.buffers.utf8 == b.utf8
            && NothingVerbatim(r.log)
            && PayloadsOfLog(r.log) == PayloadsOf(f.blocks)
            && (r.ok ==> r.buffers.Leftover() == f.buffer)
  {
    BlockEntryPayloads(FrameChunk(b.Leftover(), text, endOfStream).blocks);
  }

  /** What handing over one text dispatches, against the reading of everything to come. */
  lemma DispatchStep(b: Buffers, text: Bytes, endOfStream: bool, future: Bytes, limit: nat)
    requires endOfStream ==> future == []
    ensures var r := ProcessText(b, text, endOfStream, limit);
            r.ok ==> ReadByLines(b.Leftover() + text + future) ==
                     PayloadsOfLog(r.log) +
                     (if endOfStream then [] else ReadByLines(r.buffers.Leftover() + future))
  {
    hide FrameChunk, ProcessText, PayloadsOf, ReadByLines;
    ProcessTextShape(b, text, endOfStream, limit);
    if endOfStream {
      FinalChunk(b.Leftover(), text);
      assert b.Leftover() + text + [] == b.Leftover() + text;
    } else {
      ChunkStep(b.Leftover(), text, future);
    }
  }

  lemma CallKeepsPending(b: Buffers, bytes: Bytes, endOfStream: bool, limit: nat)
    requires Decode(b, bytes, endOfStream).Text?
    ensures DecodeAndProcess(b, bytes, endOfStream, limit).buffers.Pending() ==
            b.(utf8 := Decode(b, bytes, endOfStream).utf8).Pending()
  {
    hide Decode, FrameChunk, BlockEntries;
  }

  /** Both facts about one whole call. */
  lemma CallStep(b: Buffers, bytes: Bytes, endOfStream: bool, future: Bytes, limit: nat)
    requires Utf8.Valid(b.Pending() + bytes + future)
    requires endOfStream ==> future == []
    ensures var r := DecodeAndProcess(b, bytes, endOfStream, limit);
            && NothingVerbatim(r.log)
            && r.text + r.buffers.Pending() == b.Pending() + bytes
            && Utf8.Valid(r.buffers.Pending() + future)
            && (endOfStream ==> r.buffers.Pending() == [])
            && (r.ok ==>
                  ReadByLines(b.Leftover() + r.text + (r.buffers.Pending() + future)) ==
                  PayloadsOfLog(r.log) +
                  (if endOfStream then []
                   else ReadByLines(r.buffers.Leftover() + (r.buffers.Pending() + future))))
  {
    hide ReadByLines, Decode, Utf8.Valid;
    ReassembleStep(b, bytes, endOfStream, future);
    var d := Decode(b, bytes, endOfStream);
    var b' := b.(utf8 := d.utf8);
    if d.text == [] && !endOfStream {
      assert b.Leftover() + [] == b.Leftover();
    } else {
      DispatchStep(b', d.text, endOfStream, b'.Pending() + future, limit);
      ProcessTextShape(b', d.text, endOfStream, limit);
    }
  }

  /**
   * For every valid UTF-8 stream and every way of cutting it: the strings handed to the splitter
   * concatenate to the stream, nothing is passed through, and the dispatched `data:` payloads are
   * those of the line-at-a-time reading of the whole stream.
   */
  lemma {:induction false} RunDispatchesWhole(b: Buffers, chunks: seq<Bytes>, limit: nat)
    requires chunks != []
    requires Utf8.Valid(b.Pending() + Flatten(chunks))
    ensures var r := Run(b, chunks, limit);
            && NothingVerbatim(r.log)
            && (r.ok ==>
                  && r.text == b.Pending() + Flatten(chunks)
                  && r.buffers.Pending() == []
                  && PayloadsOfLog(r.log) == ReadByLines(b.Leftover() + (b.Pending() + Flatten(chunks))))
    decreases |chunks|
  {
    var last := |chunks| == 1;
    var r := DecodeAndProcess(b, chunks[0], last, limit);
    var future := Flatten(chunks[1..]);
    Assoc(b.Pending(), chunks[0], future);
    CallStep(b, chunks[0], last, future, limit);
    Assoc(r.text, r.buffers.Pending(), future);
    Assoc(b.Leftover(), r.text, r.buffers.Pending() + future);
    if last {
      assert r.text + [] == r.text && PayloadsOfLog(r.log) + [] == PayloadsOfLog(r.log);
      assert chunks[0] + [] == chunks[0];
    } else if r.ok {
      RunDispatchesWhole(r.buffers, chunks[1..], limit);
      PayloadsOfLogAppend(r.log, Run(r.buffers, chunks[1..], limit).log);
    }
  }

  /** The dispatched payloads do not depend on how the stream was cut. */
  lemma ChunkingIsInvisible(chunks: seq<Bytes>, otherChunks: seq<Bytes>, limit: nat)
    requires chunks != [] && otherChunks != []
    requires Flatten(chunks) == Flatten(otherChunks)
    requires Utf8.Valid(Flatten(chunks))
    requires Run(EMPTY, chunks, limit).ok && Run(EMPTY, otherChunks, limit).ok
    ensures PayloadsOfLog(Run(EMPTY, chunks, limit).log) == PayloadsOfLog(Run(EMPTY, otherChunks, limit).log)
    ensures Run(EMPTY, chunks, limit).text == Run(EMPTY, otherChunks, limit).text
  {
    assert [] + Flatten(chunks) == Flatten(chunks);
    RunDispatchesWhole(EMPTY, chunks, limit);
    RunDispatchesWhole(EMPTY, otherChunks, limit);
  }
}
