/**
 * The streaming filter as a whole: bytes in, events out.  One call decodes, splits and translates;
 * the theorems tie whole runs of calls to the line-at-a-time reading of the whole response.
 */
module StreamPipeline {
  import opened Prelude
  import opened SseFraming
  import opened EventTranslator
  import Decoder = StreamDecoder
  import Agreement = StreamAgreement
  import Indexed = IndexedCompletion
  import CutLimit
  import Utf8

  const DONE_SENTINEL: Bytes := [91, 68, 79, 78, 69, 93]  // "[DONE]"

  type ChunkParser = Bytes -> Option<Chunk>

  /** What a filter instance is set up with, and the message id its clock will give. */
  datatype Setup = Setup(parse: ChunkParser, messageId: string, limit: nat)

  function ItemOf(parse: ChunkParser, payload: Bytes): Item {
    if payload == DONE_SENTINEL then Done
    else match parse(payload)
         case Some(chunk) => Data(chunk)
         case None => Junk
  }

  /** ASCII text as it is sent. */
  function Ascii(text: string): Bytes { seq(|text|, i requires 0 <= i < |text| => text[i] as int % 0x80) }

  /** The octets the filter looks for are this text. */
  lemma WireText()
    ensures DONE_SENTINEL == Ascii("[DONE]") && DATA_FIELD == Ascii("data:") && [SPACE] == Ascii(" ")
    ensures [CR, LF] == Ascii("\r\n") && BLANK == Ascii("\n\n")
  {
  }

  /** `[DONE]`, and nothing else, ends the message; any other payload is the chunk it parses to, if it does. */
  lemma PayloadIsRead(parse: ChunkParser, payload: Bytes)
    ensures ItemOf(parse, payload) == Done <==> payload == Ascii("[DONE]")
    ensures ItemOf(parse, payload) == Junk <==> payload != Ascii("[DONE]") && parse(payload).None?
    ensures forall chunk :: ItemOf(parse, payload) == Data(chunk) <==>
                            payload != Ascii("[DONE]") && parse(payload) == Some(chunk)
  {
    WireText();
  }

  function ItemsOf(parse: ChunkParser, payloads: seq<Bytes>): seq<Item> {
    if payloads == [] then [] else [ItemOf(parse, payloads[0])] + ItemsOf(parse, payloads[1..])
  }

  lemma {:induction false} ItemsOfAppend(parse: ChunkParser, a: seq<Bytes>, b: seq<Bytes>)
    ensures ItemsOf(parse, a + b) == ItemsOf(parse, a) + ItemsOf(parse, b)
  {
    if a == [] {
      assert a + b == b;
    } else {
      assert (a + b)[1..] == a[1..] + b;
      ItemsOfAppend(parse, a[1..], b);
      Assoc([ItemOf(parse, a[0])], ItemsOf(parse, a[1..]), ItemsOf(parse, b));
    }
  }

  function Dispatch(s: Setup, t: State, payloads: seq<Bytes>): Emitted {
    Transform(s.messageId, t, ItemsOf(s.parse, payloads))
  }

  lemma DispatchAppend(s: Setup, t: State, a: seq<Bytes>, b: seq<Bytes>)
    ensures var x := Dispatch(s, t, a);
            var y := Dispatch(s, x.state, b);
            Dispatch(s, t, a + b) == Emitted(y.state, x.events + y.events)
  {
    ItemsOfAppend(s.parse, a, b);
    TransformAppend(s.messageId, t, ItemsOf(s.parse, a), ItemsOf(s.parse, b));
  }

  /** What the caller gets: events (possibly none), untouched bytes, or the size-limit error. */
  datatype Reply = Events(events: seq<Event>) | Raw(bytes: Bytes) | TooLarge

  datatype Called = Called(buffers: Decoder.Buffers, state: State, reply: Reply)

  function Call(s: Setup, b: Decoder.Buffers, t: State, bytes: Bytes, endOfStream: bool): Called {
    var d := Decoder.Decode(b, bytes, endOfStream);
    if d.NotText? then Called(Decoder.EMPTY, t, Raw(b.Leftover() + d.bytes))
    else
      var r := Decoder.DecodeAndProcess(b, bytes, endOfStream, s.limit);
      var e := Dispatch(s, t, Decoder.PayloadsOfLog(r.log));
      Called(r.buffers, e.state, if r.ok then Events(e.events) else TooLarge)
  }

  /** The replies to a whole response, the last chunk with the end-of-stream flag; errors end it. */
  function Replies(s: Setup, b: Decoder.Buffers, t: State, chunks: seq<Bytes>): seq<Reply>
    decreases |chunks|
  {
    if chunks == [] then []
    else
      var c := Call(s, b, t, chunks[0], |chunks| == 1);
      if c.reply.TooLarge? then [TooLarge]
      else [c.reply] + Replies(s, c.buffers, c.state, chunks[1..])
  }

  predicate AllEvents(replies: seq<Reply>) { forall r | r in replies :: r.Events? }

  predicate NoError(replies: seq<Reply>) { forall r | r in replies :: !r.TooLarge? }

  function EventsIn(replies: seq<Reply>): seq<Event> {
    if replies == [] then []
    else (if replies[0].Events? then replies[0].events else []) + EventsIn(replies[1..])
  }

  /** The bytes that went out untouched. */
  function RawIn(replies: seq<Reply>): seq<Bytes> {
    if replies == [] then []
    else (if replies[0].Raw? then [replies[0].bytes] else []) + RawIn(replies[1..])
  }

  function VerbatimIn(log: seq<Decoder.Entry>): seq<Bytes> {
    if log == [] then []
    else (if log[0].Verbatim? then [log[0].bytes] else []) + VerbatimIn(log[1..])
  }

  lemma {:induction false} VerbatimInAppend(a: seq<Decoder.Entry>, b: seq<Decoder.Entry>)
    ensures VerbatimIn(a + b) == VerbatimIn(a) + VerbatimIn(b)
  {
    if a == [] {
      assert a + b == b;
    } else {
      VerbatimInAppend(a[1..], b);
      assert (a + b)[1..] == a[1..] + b;
      Assoc(if a[0].Verbatim? then [a[0].bytes] else [], VerbatimIn(a[1..]), VerbatimIn(b));
    }
  }

  lemma {:induction false} NoVerbatimInBlocks(log: seq<Decoder.Entry>)
    ensures VerbatimIn(log) == [] <==> Decoder.NothingVerbatim(log)
  {
    if log != [] {
      NoVerbatimInBlocks(log[1..]);
      assert log[0] in log && forall e :: e in log <==> e == log[0] || e in log[1..];
    }
  }

  lemma RepliesCons(first: Reply, rest: seq<Reply>)
    ensures NoError([first] + rest) <==> !first.TooLarge? && NoError(rest)
    ensures EventsIn([first] + rest) == (if first.Events? then first.events else []) + EventsIn(rest)
    ensures RawIn([first] + rest) == (if first.Raw? then [first.bytes] else []) + RawIn(rest)
  {
    var all := [first] + rest;
    assert all[0] == first && all[1..] == rest;
    assert forall x :: x in all <==> x == first || x in rest;
    assert first in all;
  }

  /** One call, on any bytes: state, buffers and reply follow what the decoder logs. */
  lemma CallFollows(s: Setup, b: Decoder.Buffers, t: State, bytes: Bytes, endOfStream: bool)
    ensures var c, r := Call(s, b, t, bytes, endOfStream), Decoder.DecodeAndProcess(b, bytes, endOfStream, s.limit);
            var e := Dispatch(s, t, Decoder.PayloadsOfLog(r.log));
            && c.buffers == r.buffers
            && c.state == e.state
            && (c.reply.TooLarge? <==> !r.ok)
            && (r.ok ==> (if c.reply.Events? then c.reply.events else []) == e.events)
            && (r.ok ==> (if c.reply.Raw? then [c.reply.bytes] else []) == VerbatimIn(r.log))
  {
    hide Decoder.Decode, FrameChunk, Decoder.BlockEntries;
    var d, r := Decoder.Decode(b, bytes, endOfStream), Decoder.DecodeAndProcess(b, bytes, endOfStream, s.limit);
    if d.NotText? {
      var log := [Decoder.Verbatim(b.Leftover() + d.bytes)];
      assert r.log == log && log[1..] == [];
      assert Decoder.PayloadsOfLog(log) == [] + Decoder.PayloadsOfLog([]);
      assert VerbatimIn(log) == [b.Leftover() + d.bytes] + VerbatimIn([]);
    } else {
      NoVerbatimInBlocks(r.log);
      TextIsBlocks(b, bytes, endOfStream, s.limit);
    }
  }

  lemma TextIsBlocks(b: Decoder.Buffers, bytes: Bytes, endOfStream: bool, limit: nat)
    requires Decoder.Decode(b, bytes, endOfStream).Text?
    ensures Decoder.NothingVerbatim(Decoder.DecodeAndProcess(b, bytes, endOfStream, limit).log)
  {
    hide Decoder.Decode, FrameChunk;
  }

  /**
   * For every response, also malformed: the replies fail exactly when a buffer grows too large, and
   * otherwise carry the translation of the payloads dispatched and the bytes passed through.
   */
  lemma {:induction false} RepliesFollowRun(s: Setup, b: Decoder.Buffers, t: State, chunks: seq<Bytes>)
    requires chunks != []
    ensures var r := Decoder.Run(b, chunks, s.limit);
            var replies := Replies(s, b, t, chunks);
            && (NoError(replies) <==> r.ok)
            && (r.ok ==> EventsIn(replies) == Dispatch(s, t, Decoder.PayloadsOfLog(r.log)).events)
            && (r.ok ==> RawIn(replies) == VerbatimIn(r.log))
    decreases |chunks|
  {
    hide Call, Dispatch, Decoder.DecodeAndProcess, Decoder.PayloadsOfLog, VerbatimIn, NoError, EventsIn, RawIn;
    var last := |chunks| == 1;
    var c := Call(s, b, t, chunks[0], last);
    var r := Decoder.DecodeAndProcess(b, chunks[0], last, s.limit);
    CallFollows(s, b, t, chunks[0], last);
    NothingReplied();
    if !r.ok {
      RepliesCons(TooLarge, []);
      assert [TooLarge] + [] == [TooLarge];
    } else if last {
      assert Replies(s, c.buffers, c.state, chunks[1..]) == [];
      RepliesCons(c.reply, []);
      assert [c.reply] + [] == [c.reply];
      var events := Dispatch(s, t, Decoder.PayloadsOfLog(r.log)).events;
      assert events + [] == events && VerbatimIn(r.log) + [] == VerbatimIn(r.log);
    } else {
      var more := Decoder.Run(r.buffers, chunks[1..], s.limit);
      RepliesFollowRun(s, c.buffers, c.state, chunks[1..]);
      RepliesCons(c.reply, Replies(s, c.buffers, c.state, chunks[1..]));
      Decoder.PayloadsOfLogAppend(r.log, more.log);
      VerbatimInAppend(r.log, more.log);
      DispatchAppend(s, t, Decoder.PayloadsOfLog(r.log), Decoder.PayloadsOfLog(more.log));
    }
  }

  lemma NothingReplied()
    ensures NoError([]) && EventsIn([]) == [] && RawIn([]) == []
  {
  }

  lemma {:induction false} OnlyEvents(replies: seq<Reply>)
    requires NoError(replies)
    ensures AllEvents(replies) <==> RawIn(replies) == []
  {
    if replies != [] {
      OnlyEvents(replies[1..]);
      assert replies[0] in replies && forall x :: x in replies <==> x == replies[0] || x in replies[1..];
    }
  }

  /** The items a response carries, read line by line off the whole of it. */
  function ItemsInResponse(s: Setup, raw: Bytes): seq<Item> { ItemsOf(s.parse, ReadByLines(raw)) }

  /**
   * For every valid UTF-8 response and every way of cutting it that stays within the size limit,
   * the concatenated output is the translation of the items of the whole response.
   */
  lemma OutputIgnoresChunking(s: Setup, chunks: seq<Bytes>)
    requires chunks != [] && Utf8.Valid(Flatten(chunks))
    requires NoError(Replies(s, Decoder.EMPTY, INITIAL, chunks))
    ensures AllEvents(Replies(s, Decoder.EMPTY, INITIAL, chunks))
    ensures EventsIn(Replies(s, Decoder.EMPTY, INITIAL, chunks)) ==
            Transform(s.messageId, INITIAL, ItemsInResponse(s, Flatten(chunks))).events
  {
    assert [] + Flatten(chunks) == Flatten(chunks);
    hide Decoder.Run, Replies, RawIn, VerbatimIn;
    RepliesFollowRun(s, Decoder.EMPTY, INITIAL, chunks);
    Decoder.RunDispatchesWhole(Decoder.EMPTY, chunks, s.limit);
    NoVerbatimInBlocks(Decoder.Run(Decoder.EMPTY, chunks, s.limit).log);
    OnlyEvents(Replies(s, Decoder.EMPTY, INITIAL, chunks));
  }

  /** However the response is cut, all calls succeed and the output is the translation of the whole. */
  ghost predicate CutsAreInvisible(s: Setup, raw: Bytes) {
    forall chunks: seq<Bytes> | chunks != [] && Flatten(chunks) == raw ::
      && AllEvents(Replies(s, Decoder.EMPTY, INITIAL, chunks))
      && EventsIn(Replies(s, Decoder.EMPTY, INITIAL, chunks)) ==
         Transform(s.messageId, INITIAL, ItemsInResponse(s, raw)).events
  }

  /** For every valid UTF-8 response, that is so if and only if its cuts fit the limit. */
  lemma EveryCutSameOutputIff(s: Setup, raw: Bytes)
    requires Utf8.Valid(raw)
    ensures CutsAreInvisible(s, raw) <==> CutLimit.CutsFit(raw, s.limit)
  {
    hide Replies, Utf8.Valid, Decoder.Run, CutLimit.CutsFit, Flatten, AllEvents, NoError;
    CutLimit.EveryCutPassesIff(raw, s.limit);
    forall chunks: seq<Bytes> | chunks != [] && Flatten(chunks) == raw
      ensures AllEvents(Replies(s, Decoder.EMPTY, INITIAL, chunks)) <==> Decoder.Run(Decoder.EMPTY, chunks, s.limit).ok
      ensures Decoder.Run(Decoder.EMPTY, chunks, s.limit).ok ==>
                EventsIn(Replies(s, Decoder.EMPTY, INITIAL, chunks)) ==
                Transform(s.messageId, INITIAL, ItemsInResponse(s, raw)).events
    {
      RepliesFollowRun(s, Decoder.EMPTY, INITIAL, chunks);
      if AllEvents(Replies(s, Decoder.EMPTY, INITIAL, chunks)) {
        EventsAreNoErrors(Replies(s, Decoder.EMPTY, INITIAL, chunks));
      }
      if Decoder.Run(Decoder.EMPTY, chunks, s.limit).ok { OutputIgnoresChunking(s, chunks); }
    }
  }

  lemma EventsAreNoErrors(replies: seq<Reply>)
    requires AllEvents(replies)
    ensures NoError(replies)
  {
  }

  /**
   * End to end: the events of a response, however it was cut, form a well-formed Anthropic stream
   * exactly when its items are well ordered; and where tool calls are announced in order, a client
   * collects what the non-streaming translator would have answered exactly when they are not interleaved.
   */
  lemma StreamingIsFaithful(s: Setup, chunks: seq<Bytes>)
    requires chunks != [] && Utf8.Valid(Flatten(chunks))
    requires NoError(Replies(s, Decoder.EMPTY, INITIAL, chunks))
    ensures var events := EventsIn(Replies(s, Decoder.EMPTY, INITIAL, chunks));
            var items := ItemsInResponse(s, Flatten(chunks));
            var tcs, collected := Indexed.FragmentsOf(items), Agreement.CollectAll(Agreement.NOTHING, events);
            && (Agreement.Read(Agreement.Expecting, events) == Agreement.Complete <==> Agreement.WellOrdered(items))
            && (Agreement.WellOrdered(items) && Indexed.Announced(0, tcs) ==>
                  (Indexed.AgreesForAll(collected, Indexed.IndexedDraft(items)) <==> Indexed.Sequential(0, tcs)))
  {
    OutputIgnoresChunking(s, chunks);
    var items := ItemsInResponse(s, Flatten(chunks));
    Agreement.GrammarIff(s.messageId, items);
    if Agreement.WellOrdered(items) && Indexed.Announced(0, Indexed.FragmentsOf(items)) {
      Indexed.StreamingAgreesIff(s.messageId, items);
    }
  }
}
