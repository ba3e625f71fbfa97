/**
 * Byte accounting for arbitrary, also malformed, input.  Everything received is found again, in
 * order, in what left the filter or is still buffered, up to normalising line ends: exactly so,
 * except that each LF arriving after a chunk that ended in CR CR adds one line end of its own.
 */
module StreamAccounting {
  import opened Prelude
  import opened SseFraming
  import opened StreamDecoder
  import Utf8

  // ---------------------------------------------------------------------------
  // Extra line ends
  // ---------------------------------------------------------------------------

  function WithLfAt(x: Bytes, i: nat): Bytes
    requires i <= |x|
  {
    x[..i] + [LF] + x[i..]
  }

  ghost predicate OneMore(x: Bytes, y: Bytes) { exists i :: 0 <= i <= |x| && y == WithLfAt(x, i) }

  /** `y` is `x` with `k` line ends put in. */
  ghost predicate Padded(x: Bytes, y: Bytes, k: nat)
    decreases k
  {
    if k == 0 then x == y else exists w :: Padded(x, w, k - 1) && OneMore(w, y)
  }

  lemma {:induction false} PaddedIff(x: Bytes, y: Bytes, k: nat)
    requires Padded(x, y, k)
    ensures |y| == |x| + k && (x == y <==> k == 0)
    decreases k
  {
    if k > 0 {
      var w :| Padded(x, w, k - 1) && OneMore(w, y);
      PaddedIff(x, w, k - 1);
    }
  }

  /** How the input read so far ends, as far as a following LF is concerned. */
  datatype Ending = Other | OneCr | TwoCr

  /** A lone CR is held back and read again with what follows; two are not. */
  function EndingAfter(e: Ending, bytes: Bytes): Ending {
    if bytes == [] then e
    else if !EndsWith(bytes, CR) then Other
    else if EndsInTwoCr(bytes) || (|bytes| == 1 && e == OneCr) then TwoCr
    else OneCr
  }

  function ExtraAt(e: Ending, bytes: Bytes): nat { if e == TwoCr && StartsWith(bytes, LF) then 1 else 0 }

  /** The cuts of a stream that fall after CR CR and before LF, a CR already counted with another aside. */
  function ExtraLineEnds(e: Ending, chunks: seq<Bytes>): nat
    decreases |chunks|
  {
    if chunks == [] then 0
    else ExtraAt(e, chunks[0]) + ExtraLineEnds(EndingAfter(e, chunks[0]), chunks[1..])
  }

  // ---------------------------------------------------------------------------
  // One text
  // ---------------------------------------------------------------------------

  function LogText(log: seq<Entry>): Bytes {
    if log == [] then []
    else (if log[0].Block? then log[0].text + BLANK else log[0].bytes) + LogText(log[1..])
  }

  lemma {:induction false} LogTextAppend(a: seq<Entry>, b: seq<Entry>)
    ensures LogText(a + b) == LogText(a) + LogText(b)
  {
    if a == [] {
      assert a + b == b;
    } else {
      LogTextAppend(a[1..], b);
      assert (a + b)[1..] == a[1..] + b;
      Assoc(if a[0].Block? then a[0].text + BLANK else a[0].bytes, LogText(a[1..]), LogText(b));
    }
  }

  lemma FirstBlock(block: Bytes, blocks: seq<Bytes>)
    ensures LogText(BlockEntries([block] + blocks)) == block + BLANK + LogText(BlockEntries(blocks))
  {
    var log := BlockEntries([block] + blocks);
    assert log[0] == Block(block) && log[1..] == BlockEntries(blocks);
  }

  lemma NoBlocks()
    ensures LogText(BlockEntries([])) == []
  {
  }

  lemma {:induction false} BlocksRejoin(s: Bytes)
    ensures LogText(BlockEntries(BlocksOf(s))) + RestOf(s) == s
  {
    hide BlankAt, BlocksOf, RestOf, BlockEntries, LogText;
    CutBlock(s);
    NoBlocks();
    match BlankAt(s) {
      case None => assert [] + s == s;
      case Some(i) =>
        var rest := s[i + 2..];
        BlocksRejoin(rest);
        FirstBlock(s[..i], BlocksOf(rest));
        assert s == s[..i] + BLANK + rest;
        Assoc(s[..i] + BLANK, LogText(BlockEntries(BlocksOf(rest))), RestOf(rest));
    }
  }

  /** The blocks and the buffer of one text, written out again. */
  function Rejoined(f: Framed): Bytes { LogText(BlockEntries(f.blocks)) + f.buffer }

  lemma RejoinedIs(leftover: Bytes, chunk: Bytes, endOfStream: bool)
    ensures var combined := leftover + chunk;
            Rejoined(FrameChunk(leftover, chunk, endOfStream)) ==
            if DefersCr(combined, endOfStream) then NormalizeLineEndings(combined[..|combined| - 1]) + [CR]
            else NormalizeLineEndings(combined)
  {
    hide NormalizeLineEndings, BlocksOf, RestOf, LogText, BlockEntries;
    var combined := leftover + chunk;
    if DefersCr(combined, endOfStream) {
      var n := NormalizeLineEndings(combined[..|combined| - 1]);
      BlocksRejoin(n);
      Assoc(LogText(BlockEntries(BlocksOf(n))), RestOf(n), [CR]);
    } else {
      BlocksRejoin(NormalizeLineEndings(combined));
    }
  }

  lemma NormalizeTwice(s: Bytes)
    ensures NormalizeLineEndings(NormalizeLineEndings(s)) == NormalizeLineEndings(s)
    ensures !EndsWith(NormalizeLineEndings(s), CR)
  {
    hide NormalizeLineEndings;
    NormalizeHasNoCr(s);
    NormalizeFixesCrFree(NormalizeLineEndings(s));
  }

  /** Normalised text may stand for the text itself, unless a line end may be cut in two. */
  lemma NormalizedStandsFor(p: Bytes, s: Bytes, more: Bytes)
    requires !EndsWith(p, CR) && !(EndsWith(s, CR) && StartsWith(more, LF))
    ensures NormalizeLineEndings(p + (NormalizeLineEndings(s) + more)) == NormalizeLineEndings(p + (s + more))
  {
    hide NormalizeLineEndings;
    var n := NormalizeLineEndings(s);
    NormalizeTwice(s);
    NormalizeAppend(s, more);
    NormalizeAppend(n, more);
    NormalizeAppend(p, s + more);
    NormalizeAppend(p, n + more);
  }

  /** Where CR CR is cut off a following LF, normalising first leaves one line end more, right there. */
  lemma NormalizedPads(p: Bytes, s: Bytes, more: Bytes)
    requires !EndsWith(p, CR) && EndsWith(s, CR) && StartsWith(more, LF)
    ensures var x, i := NormalizeLineEndings(p + (s + more)), |NormalizeLineEndings(p)| + |NormalizeLineEndings(s)|;
            i <= |x| && NormalizeLineEndings(p + (NormalizeLineEndings(s) + more)) == WithLfAt(x, i)
  {
    hide NormalizeLineEndings;
    var n, tail := NormalizeLineEndings(s), more[1..];
    assert more == [LF] + tail;
    NormalizeTwice(s);
    NormalizeCutPair(s, tail);
    NormalizeAppend(p, s + more);
    NormalizeAppend(n, more);
    NormalizeAppend(p, n + more);
    NormalizeLf(tail);
    InsertAt(NormalizeLineEndings(p), n, NormalizeLineEndings(tail));
  }

  lemma NormalizeLf(tail: Bytes)
    ensures NormalizeLineEndings([LF] + tail) == [LF] + NormalizeLineEndings(tail)
  {
    assert ([LF] + tail)[1..] == tail;
  }

  lemma InsertAt(p: Bytes, n: Bytes, t: Bytes)
    ensures p + (n + ([LF] + t)) == WithLfAt(p + (n + t), |p| + |n|)
  {
    var x, i := p + (n + t), |p| + |n|;
    assert x[..i] == p + n && x[i..] == t;
  }

  ghost predicate Pads(x: Bytes, y: Bytes, k: nat) {
    if k == 0 then NormalizeLineEndings(x) == NormalizeLineEndings(y)
    else OneMore(NormalizeLineEndings(x), NormalizeLineEndings(y))
  }

  lemma PutOffPads(p: Bytes, head: Bytes, more: Bytes)
    requires !EndsWith(p, CR) && !EndsWith(head, CR)
    ensures NormalizeLineEndings(p + (NormalizeLineEndings(head) + [CR] + more)) ==
            NormalizeLineEndings(p + (head + [CR] + more))
  {
    hide NormalizeLineEndings;
    Assoc(head, [CR], more);
    Assoc(NormalizeLineEndings(head), [CR], more);
    NormalizedStandsFor(p, head, [CR] + more);
  }

  lemma NormalizedPadsOnce(p: Bytes, s: Bytes, more: Bytes)
    requires !EndsWith(p, CR) && EndsWith(s, CR) && StartsWith(more, LF)
    ensures OneMore(NormalizeLineEndings(p + (s + more)), NormalizeLineEndings(p + (NormalizeLineEndings(s) + more)))
  {
    hide NormalizeLineEndings, WithLfAt;
    NormalizedPads(p, s, more);
  }

  /**
   * The splitter's blocks and buffer, whatever blocks stand before them and whatever comes after them,
   * read like the text they were made of; only an LF after a text that ended in CR CR counts once more.
   */
  lemma FramingPads(p: Bytes, leftover: Bytes, chunk: Bytes, more: Bytes)
    requires !EndsWith(p, CR)
    ensures var combined := leftover + chunk;
            Pads(p + (combined + more), p + (Rejoined(FrameChunk(leftover, chunk, false)) + more),
                 if EndsInTwoCr(combined) && StartsWith(more, LF) then 1 else 0)
  {
    hide NormalizeLineEndings, FrameChunk, OneMore;
    var combined := leftover + chunk;
    RejoinedIs(leftover, chunk, false);
    if DefersCr(combined, false) {
      PutOffPads(p, combined[..|combined| - 1], more);
      assert combined == combined[..|combined| - 1] + [CR];
    } else if EndsInTwoCr(combined) && StartsWith(more, LF) {
      NormalizedPadsOnce(p, combined, more);
    } else {
      NormalizedStandsFor(p, combined, more);
    }
  }

  lemma FinalFramingPads(p: Bytes, leftover: Bytes, chunk: Bytes)
    requires !EndsWith(p, CR)
    ensures Pads(p + (leftover + chunk), p + Rejoined(FrameChunk(leftover, chunk, true)), 0)
  {
    hide NormalizeLineEndings, FrameChunk;
    RejoinedIs(leftover, chunk, true);
    NormalizedStandsFor(p, leftover + chunk, []);
    assert leftover + chunk + [] == leftover + chunk;
    assert NormalizeLineEndings(leftover + chunk) + [] == NormalizeLineEndings(leftover + chunk);
  }

  /**
   * In plain terms: blocks and buffer are the text up to line ends, and stay so under whatever follows
   * if and only if no line end was cut after CR CR, which puts exactly one LF in, where the text ended.
   */
  lemma FramingIsExactIff(leftover: Bytes, chunk: Bytes, more: Bytes)
    ensures var combined, out := leftover + chunk, Rejoined(FrameChunk(leftover, chunk, false));
            var x, y := NormalizeLineEndings(combined + more), NormalizeLineEndings(out + more);
            var end := |NormalizeLineEndings(combined)|;
            && NormalizeLineEndings(combined) == NormalizeLineEndings(out)
            && (x == y <==> !(EndsInTwoCr(combined) && StartsWith(more, LF)))
            && (x != y ==> end <= |x| && y == WithLfAt(x, end))
  {
    hide NormalizeLineEndings, FrameChunk, OneMore;
    var combined, out := leftover + chunk, Rejoined(FrameChunk(leftover, chunk, false));
    var nothing: Bytes := [];
    FramingPads(nothing, leftover, chunk, nothing);
    FramingPads(nothing, leftover, chunk, more);
    AloneIs(combined, more);
    AloneIs(out, more);
    if EndsInTwoCr(combined) && StartsWith(more, LF) {
      RejoinedIs(leftover, chunk, false);
      NormalizedPads(nothing, combined, more);
      NothingNormalized();
    }
  }

  lemma AloneIs(s: Bytes, more: Bytes)
    ensures [] + (s + []) == s && [] + (s + more) == s + more
  {
  }

  lemma NothingNormalized()
    ensures NormalizeLineEndings([]) == []
  {
  }

  // ---------------------------------------------------------------------------
  // One call
  // ---------------------------------------------------------------------------

  function Held(b: Buffers): Bytes { b.Leftover() + b.Pending() }

  lemma DecodeSplits(b: Buffers, bytes: Bytes, endOfStream: bool)
    requires Decode(b, bytes, endOfStream).Text?
    ensures var d := Decode(b, bytes, endOfStream);
            var pending := b.(utf8 := d.utf8).Pending();
            && d.text + pending == b.Pending() + bytes
            && |pending| <= 3
            && (endOfStream ==> pending == [])
  {
    var combined := b.Pending() + bytes;
    match Utf8.FromUtf8(combined) {
      case WellFormed => assert combined + [] == combined;
      case Truncated(v) => KeepTruncated(combined, v);
    }
  }

  /** What is held back is no line end, and does not end in one. */
  lemma {:induction false} HeldBackOctets(s: Bytes)
    requires Utf8.FromUtf8(s).Truncated?
    ensures var v := Utf8.FromUtf8(s).validUpTo;
            s[v] >= 0x80 && s[|s| - 1] >= 0x80
  {
    var w := Utf8.Width(s[0]);
    if |s| < w {
      if |s| > 1 { assert Utf8.Continues(s[0], |s| - 1, s[|s| - 1]); }
    } else {
      HeldBackOctets(s[w..]);
    }
  }

  /** The buffers a stream that ended like this left behind. */
  predicate Fits(b: Buffers, e: Ending) {
    && (b.Pending() != [] ==> e == Other && b.Pending()[|b.Pending()| - 1] >= 0x80)
    && (b.Pending() == [] ==> (EndsWith(b.Leftover(), CR) <==> e == OneCr))
  }

  /** The text of a call ends as its bytes say, unless octets are held back behind it. */
  lemma TextEnds(b: Buffers, bytes: Bytes, e: Ending)
    requires Fits(b, e) && Decode(b, bytes, false).Text?
    ensures var d := Decode(b, bytes, false);
            var pending, combined := b.(utf8 := d.utf8).Pending(), b.Leftover() + d.text;
            && (pending != [] ==>
                  EndingAfter(e, bytes) == Other && pending[0] >= 0x80 && pending[|pending| - 1] >= 0x80)
            && (pending == [] && d.text != [] ==>
                  && (EndsInTwoCr(combined) <==> EndingAfter(e, bytes) == TwoCr)
                  && (DefersCr(combined, false) <==> EndingAfter(e, bytes) == OneCr))
  {
    hide Decode, Utf8.FromUtf8, EndsInTwoCr, EndingAfter;
    var d := Decode(b, bytes, false);
    var pending := b.(utf8 := d.utf8).Pending();
    DecodeSplits(b, bytes, false);
    if pending != [] {
      HeldBack(b, bytes);
      EndsHeldBack(b.Pending(), bytes, d.text, pending, e);
    } else if d.text != [] {
      assert d.text == b.Pending() + bytes;
      EndsInText(b.Leftover(), b.Pending(), bytes, e);
    }
  }

  lemma HeldBack(b: Buffers, bytes: Bytes)
    requires Decode(b, bytes, false).Text?
    ensures var pending := b.(utf8 := Decode(b, bytes, false).utf8).Pending();
            pending != [] ==> pending[0] >= 0x80 && pending[|pending| - 1] >= 0x80
  {
    hide Utf8.FromUtf8;
    var all := b.Pending() + bytes;
    match Utf8.FromUtf8(all) {
      case Truncated(v) =>
        HeldBackOctets(all);
        Utf8.HexRoundTrip(all[v..]);
      case WellFormed =>
    }
  }

  lemma EndsHeldBack(held: Bytes, bytes: Bytes, text: Bytes, pending: Bytes, e: Ending)
    requires held + bytes == text + pending && pending != [] && pending[|pending| - 1] >= 0x80
    requires held != [] ==> e == Other
    ensures EndingAfter(e, bytes) == Other
  {
    var all := text + pending;
    assert all[|all| - 1] == pending[|pending| - 1];
    if bytes != [] { assert all[|all| - 1] == bytes[|bytes| - 1]; }
  }

  lemma EndsInText(leftover: Bytes, held: Bytes, bytes: Bytes, e: Ending)
    requires held + bytes != []
    requires held != [] ==> e == Other && held[|held| - 1] >= 0x80
    requires held == [] ==> (EndsWith(leftover, CR) <==> e == OneCr)
    ensures EndsInTwoCr(leftover + (held + bytes)) <==> EndingAfter(e, bytes) == TwoCr
    ensures DefersCr(leftover + (held + bytes), false) <==> EndingAfter(e, bytes) == OneCr
  {
    var s := leftover + (held + bytes);
    if bytes == [] {
      assert s[|s| - 1] == held[|held| - 1];
    } else {
      assert s[|s| - 1] == bytes[|bytes| - 1];
      if |bytes| >= 2 {
        assert s[|s| - 2] == bytes[|bytes| - 2];
      } else if held != [] {
        assert s[|s| - 2] == held[|held| - 1];
      } else if leftover != [] {
        assert s[|s| - 2] == leftover[|leftover| - 1];
      }
    }
  }

  lemma BufferEnds(b: Buffers, text: Bytes, limit: nat)
    requires ProcessText(b, text, false, limit).ok
    ensures EndsWith(ProcessText(b, text, false, limit).buffers.Leftover(), CR) <==>
            DefersCr(b.Leftover() + text, false)
  {
    hide NormalizeLineEndings, BlocksOf, RestOf, BlockEntries;
    var combined := b.Leftover() + text;
    var n := NormalizeLineEndings(if DefersCr(combined, false) then combined[..|combined| - 1] else combined);
    NormalizeHasNoCr(if DefersCr(combined, false) then combined[..|combined| - 1] else combined);
    RestHasNoCr(n);
  }

  lemma FitsAfter(b: Buffers, bytes: Bytes, e: Ending, limit: nat)
    requires Fits(b, e) && Decode(b, bytes, false).Text?
    requires DecodeAndProcess(b, bytes, false, limit).ok
    ensures Fits(DecodeAndProcess(b, bytes, false, limit).buffers, EndingAfter(e, bytes))
  {
    hide Decode, DefersCr, FrameChunk, BlockEntries;
    var d := Decode(b, bytes, false);
    var b' := b.(utf8 := d.utf8);
    TextEnds(b, bytes, e);
    DecodeSplits(b, bytes, false);
    if d.text == [] {
      if b'.Pending() == [] { assert bytes == []; }
    } else {
      BufferEnds(b', d.text, limit);
      assert b'.Leftover() == b.Leftover();
    }
  }

  /** Line ends this call adds before `more`. */
  function Added(b: Buffers, text: Bytes, more: Bytes): nat {
    if text != [] && EndsInTwoCr(b.Leftover() + text) && StartsWith(more, LF) then 1 else 0
  }

  lemma Regroup(leftover: Bytes, held: Bytes, bytes: Bytes, text: Bytes, pending: Bytes, more: Bytes)
    requires held + bytes == text + pending
    ensures leftover + held + (bytes + more) == leftover + text + (pending + more)
  {
    Assoc(leftover + held, bytes, more);
    Assoc(leftover, held, bytes);
    Assoc(leftover + text, pending, more);
    Assoc(leftover, text, pending);
  }

  /** One successful text call, after blocks `p` and before `more`. */
  lemma TextCallPads(p: Bytes, b: Buffers, bytes: Bytes, more: Bytes, limit: nat)
    requires !EndsWith(p, CR)
    requires Decode(b, bytes, false).Text?
    requires DecodeAndProcess(b, bytes, false, limit).ok
    ensures var r, d := DecodeAndProcess(b, bytes, false, limit), Decode(b, bytes, false);
            var after := b.(utf8 := d.utf8).Pending() + more;
            Pads(p + (Held(b) + (bytes + more)), p + LogText(r.log) + (Held(r.buffers) + more), Added(b, d.text, after))
  {
    hide Decode, FrameChunk, NormalizeLineEndings, OneMore, BlockEntries, EndsInTwoCr, Pads, LogText;
    var r, d := DecodeAndProcess(b, bytes, false, limit), Decode(b, bytes, false);
    var b' := b.(utf8 := d.utf8);
    var after := b'.Pending() + more;
    DecodeSplits(b, bytes, false);
    Regroup(b.Leftover(), b.Pending(), bytes, d.text, b'.Pending(), more);
    if d.text == [] {
      NothingLogged(p, b.Leftover());
      Assoc(b.Leftover(), b'.Pending(), more);
      SamePads(p + (b.Leftover() + after));
    } else {
      FramingPads(p, b.Leftover(), d.text, after);
      var f := FrameChunk(b.Leftover(), d.text, false);
      ProcessedText(b', d.text, false, limit);
      RegroupOut(p, LogText(r.log), f.buffer, b'.Pending(), more);
    }
  }

  lemma NothingLogged(p: Bytes, leftover: Bytes)
    ensures p + LogText([]) == p && leftover + [] == leftover
  {
  }

  lemma SamePads(x: Bytes)
    ensures Pads(x, x, 0)
  {
  }

  lemma RegroupOut(p: Bytes, log: Bytes, buffer: Bytes, pending: Bytes, more: Bytes)
    ensures p + log + (buffer + pending + more) == p + (log + buffer + (pending + more))
  {
    Assoc(buffer, pending, more);
    Assoc(log, buffer, pending + more);
    Assoc(p, log, buffer + (pending + more));
  }

  lemma ProcessedText(b: Buffers, text: Bytes, endOfStream: bool, limit: nat)
    requires ProcessText(b, text, endOfStream, limit).ok
    ensures var r, f := ProcessText(b, text, endOfStream, limit), FrameChunk(b.Leftover(), text, endOfStream);
            && r.log == BlockEntries(f.blocks)
            && r.buffers.Leftover() == f.buffer
            && r.buffers.utf8 == b.utf8
  {
  }

  lemma CallBounds(b: Buffers, bytes: Bytes, endOfStream: bool, limit: nat)
    requires Bounded(b, limit)
    ensures Bounded(DecodeAndProcess(b, bytes, endOfStream, limit).buffers, limit)
  {
    hide Decode, FrameChunk, BlockEntries;
    if Decode(b, bytes, endOfStream).Text? { DecodeSplits(b, bytes, endOfStream); }
  }

  lemma {:induction false} BlocksEndInLf(log: seq<Entry>)
    requires NothingVerbatim(log)
    ensures LogText(log) == [] || EndsWith(LogText(log), LF)
  {
    if log != [] {
      BlocksEndInLf(log[1..]);
      assert log[0].Block?;
    }
  }

  // ---------------------------------------------------------------------------
  // Whole runs
  // ---------------------------------------------------------------------------

  /**
   * A stretch of input, what left the filter for it, and the line ends cut after CR CR in it.  A call
   * that passes bytes through ends a stretch.
   */
  datatype Span = Span(raw: Bytes, log: seq<Entry>, extra: nat)

  datatype Ledger = Ledger(closed: seq<Span>, open: Span, ending: Ending, buffers: Buffers, ok: bool)

  const START := Ledger([], Span([], [], 0), Other, EMPTY, true)

  function Enter(l: Ledger, bytes: Bytes, endOfStream: bool, limit: nat): Ledger {
    var r := DecodeAndProcess(l.buffers, bytes, endOfStream, limit);
    var span := Span(l.open.raw + bytes, l.open.log + r.log, l.open.extra + ExtraAt(l.ending, bytes));
    if Decode(l.buffers, bytes, endOfStream).NotText? then
      Ledger(l.closed + [span], Span([], [], 0), Other, r.buffers, r.ok)
    else Ledger(l.closed, span, EndingAfter(l.ending, bytes), r.buffers, r.ok)
  }

  function EnterAll(l: Ledger, chunks: seq<Bytes>, limit: nat): Ledger
    decreases |chunks|
  {
    if chunks == [] || !l.ok then l else EnterAll(Enter(l, chunks[0], false, limit), chunks[1..], limit)
  }

  function RawOf(spans: seq<Span>): Bytes {
    if spans == [] then [] else spans[0].raw + RawOf(spans[1..])
  }

  /** Input and output of a stretch are the same text, but for its extra line ends. */
  ghost predicate SameText(raw: Bytes, out: Bytes, extra: nat) {
    Padded(NormalizeLineEndings(raw), NormalizeLineEndings(out), extra)
  }

  ghost predicate SpanBalanced(s: Span) { SameText(s.raw, LogText(s.log), s.extra) }

  ghost predicate BalancedBefore(l: Ledger, more: Bytes) {
    SameText(l.open.raw + more, LogText(l.open.log) + (Held(l.buffers) + more), l.open.extra + ExtraAt(l.ending, more))
  }

  ghost predicate Balanced(l: Ledger, limit: nat) {
    && (forall s | s in l.closed :: SpanBalanced(s))
    && (forall more: Bytes :: BalancedBefore(l, more))
    && !EndsWith(LogText(l.open.log), CR)
    && Fits(l.buffers, l.ending)
    && Bounded(l.buffers, limit)
  }

  lemma PadMore(x: Bytes, y: Bytes, z: Bytes, k: nat, more: nat)
    requires SameText(x, y, k) && more <= 1 && Pads(y, z, more)
    ensures SameText(x, z, k + more)
  {
    hide NormalizeLineEndings, OneMore;
  }

  lemma ExtraMatches(b: Buffers, bytes: Bytes, e: Ending, more: Bytes)
    requires Fits(b, e) && Decode(b, bytes, false).Text?
    ensures var d := Decode(b, bytes, false);
            ExtraAt(e, bytes + more) + Added(b, d.text, b.(utf8 := d.utf8).Pending() + more) ==
            ExtraAt(e, bytes) + ExtraAt(EndingAfter(e, bytes), more)
  {
    hide Decode;
    var d := Decode(b, bytes, false);
    var pending := b.(utf8 := d.utf8).Pending();
    TextEnds(b, bytes, e);
    DecodeSplits(b, bytes, false);
    if bytes == [] { assert bytes + more == more; }
    if pending == [] { assert pending + more == more; }
  }

  lemma TextCallBalances(l: Ledger, bytes: Bytes, more: Bytes, limit: nat)
    requires BalancedBefore(l, bytes + more)
    requires !EndsWith(LogText(l.open.log), CR) && Fits(l.buffers, l.ending)
    requires Decode(l.buffers, bytes, false).Text?
    requires DecodeAndProcess(l.buffers, bytes, false, limit).ok
    ensures BalancedBefore(Enter(l, bytes, false, limit), more)
  {
    hide Decode, DecodeAndProcess, NormalizeLineEndings, Padded, Pads, LogText, EndsInTwoCr;
    var b, p := l.buffers, LogText(l.open.log);
    var r, d := DecodeAndProcess(b, bytes, false, limit), Decode(b, bytes, false);
    var added := Added(b, d.text, b.(utf8 := d.utf8).Pending() + more);
    TextCallPads(p, b, bytes, more, limit);
    ExtraMatches(b, bytes, l.ending, more);
    LogTextAppend(l.open.log, r.log);
    Assoc(l.open.raw, bytes, more);
    PadMore(l.open.raw + (bytes + more), p + (Held(b) + (bytes + more)),
            p + LogText(r.log) + (Held(r.buffers) + more), l.open.extra + ExtraAt(l.ending, bytes + more), added);
  }

  lemma NoCrAtEnd(l: Ledger, bytes: Bytes, endOfStream: bool, limit: nat)
    requires !EndsWith(LogText(l.open.log), CR) && Decode(l.buffers, bytes, endOfStream).Text?
    ensures !EndsWith(LogText(l.open.log + DecodeAndProcess(l.buffers, bytes, endOfStream, limit).log), CR)
  {
    hide Decode, FrameChunk, LogText;
    var r := DecodeAndProcess(l.buffers, bytes, endOfStream, limit);
    LogTextAppend(l.open.log, r.log);
    BlocksEndInLf(r.log);
  }

  lemma VerbatimCloses(l: Ledger, bytes: Bytes, endOfStream: bool, limit: nat)
    requires BalancedBefore(l, bytes)
    requires Decode(l.buffers, bytes, endOfStream).NotText?
    ensures var e := Enter(l, bytes, endOfStream, limit);
            e.closed == l.closed + [e.closed[|l.closed|]] && SpanBalanced(e.closed[|l.closed|]) && e.buffers == EMPTY
  {
    hide NormalizeLineEndings, Padded;
    var out := l.buffers.Leftover() + (l.buffers.Pending() + bytes);
    LogTextAppend(l.open.log, [Verbatim(out)]);
    assert [Verbatim(out)][1..] == [] && out + [] == out;
    Assoc(l.buffers.Leftover(), l.buffers.Pending(), bytes);
  }

  lemma StartsBalanced(closed: seq<Span>, limit: nat, ok: bool)
    requires forall s | s in closed :: SpanBalanced(s)
    ensures Balanced(Ledger(closed, Span([], [], 0), Other, EMPTY, ok), limit)
  {
    hide NormalizeLineEndings, SpanBalanced;
    assert forall more: Bytes :: [] + more == more;
  }

  /** Every successful call keeps the books. */
  lemma EnterKeepsBalance(l: Ledger, bytes: Bytes, limit: nat)
    requires Balanced(l, limit) && Enter(l, bytes, false, limit).ok
    ensures Balanced(Enter(l, bytes, false, limit), limit)
  {
    hide Decode, DecodeAndProcess, BalancedBefore, SpanBalanced, LogText, Fits, Bounded;
    var next := Enter(l, bytes, false, limit);
    if Decode(l.buffers, bytes, false).Text? {
      forall more: Bytes ensures BalancedBefore(next, more) { TextCallBalances(l, bytes, more, limit); }
      NoCrAtEnd(l, bytes, false, limit);
      FitsAfter(l.buffers, bytes, l.ending, limit);
      CallBounds(l.buffers, bytes, false, limit);
    } else {
      VerbatimCloses(l, bytes, false, limit);
      StartsBalanced(next.closed, limit, next.ok);
    }
  }

  lemma {:induction false} RawOfAppend(a: seq<Span>, s: Span)
    ensures RawOf(a + [s]) == RawOf(a) + s.raw
  {
    if a == [] {
      assert a + [s] == [s] && s.raw + [] == s.raw;
    } else {
      RawOfAppend(a[1..], s);
      assert (a + [s])[1..] == a[1..] + [s];
      Assoc(a[0].raw, RawOf(a[1..]), s.raw);
    }
  }

  /**
   * After any number of successful calls on any bytes: the stretches concatenate to the input; each
   * closed one is, up to line ends, what was dispatched and passed through; the open one is what was
   * dispatched plus both buffers; each has one line end more for every cut between CR CR and LF.
   */
  lemma {:induction false} RunsBalance(l: Ledger, chunks: seq<Bytes>, limit: nat)
    requires l.ok && Balanced(l, limit) && EnterAll(l, chunks, limit).ok
    ensures var e := EnterAll(l, chunks, limit);
            && Balanced(e, limit)
            && RawOf(e.closed) + e.open.raw == RawOf(l.closed) + l.open.raw + Flatten(chunks)
    decreases |chunks|
  {
    hide Balanced, Decode, DecodeAndProcess, ExtraAt, EndingAfter;
    if chunks == [] {
      var all := RawOf(l.closed) + l.open.raw;
      assert all + [] == all;
    } else {
      var next := Enter(l, chunks[0], false, limit);
      EnterKeepsBalance(l, chunks[0], limit);
      RunsBalance(next, chunks[1..], limit);
      EnterKeepsRaw(l, chunks[0], false, limit);
      Assoc(RawOf(l.closed) + l.open.raw, chunks[0], Flatten(chunks[1..]));
    }
  }

  lemma EnterKeepsRaw(l: Ledger, bytes: Bytes, endOfStream: bool, limit: nat)
    ensures var e := Enter(l, bytes, endOfStream, limit);
            RawOf(e.closed) + e.open.raw == RawOf(l.closed) + l.open.raw + bytes
  {
    hide Decode, DecodeAndProcess, ExtraAt, EndingAfter;
    var e := Enter(l, bytes, endOfStream, limit);
    Assoc(RawOf(l.closed), l.open.raw, bytes);
    if Decode(l.buffers, bytes, endOfStream).NotText? {
      RawOfAppend(l.closed, e.closed[|l.closed|]);
      assert RawOf(e.closed) + [] == RawOf(e.closed);
    }
  }

  /** The open stretch, written out again. */
  function Open(l: Ledger): Bytes { LogText(l.open.log) + Held(l.buffers) }

  lemma FinalTextBalances(l: Ledger, bytes: Bytes, limit: nat)
    requires BalancedBefore(l, bytes) && !EndsWith(LogText(l.open.log), CR)
    requires Decode(l.buffers, bytes, true).Text? && Enter(l, bytes, true, limit).ok
    ensures var e := Enter(l, bytes, true, limit);
            SameText(e.open.raw, Open(e), e.open.extra) && e.buffers.Pending() == []
  {
    hide Decode, FrameChunk, NormalizeLineEndings, Padded, OneMore, LogText, BlockEntries;
    var b, p := l.buffers, LogText(l.open.log);
    var d, r := Decode(b, bytes, true), DecodeAndProcess(b, bytes, true, limit);
    var b' := b.(utf8 := d.utf8);
    DecodeSplits(b, bytes, true);
    ProcessedText(b', d.text, true, limit);
    FinalFramingPads(p, b.Leftover(), d.text);
    assert d.text == b.Pending() + bytes && Held(b) + bytes == b.Leftover() + d.text;
    LogTextAppend(l.open.log, r.log);
    assert Open(Enter(l, bytes, true, limit)) == p + Rejoined(FrameChunk(b.Leftover(), d.text, true));
    PadMore(l.open.raw + bytes, p + (Held(b) + bytes), p + Rejoined(FrameChunk(b.Leftover(), d.text, true)),
            l.open.extra + ExtraAt(l.ending, bytes), 0);
  }

  /** Two texts equal up to line ends exactly when there are no extra ones, and as many longer as there are. */
  ghost predicate Accounted(raw: Bytes, out: Bytes, extra: nat) {
    var x, y := NormalizeLineEndings(raw), NormalizeLineEndings(out);
    Padded(x, y, extra) && |y| == |x| + extra && (x == y <==> extra == 0)
  }

  lemma SameTextIsAccounted(raw: Bytes, out: Bytes, extra: nat)
    requires SameText(raw, out, extra)
    ensures Accounted(raw, out, extra)
  {
    hide Padded;
    PaddedIff(NormalizeLineEndings(raw), NormalizeLineEndings(out), extra);
  }

  /** A whole response, the last chunk with the end-of-stream flag. */
  function EnterWhole(l: Ledger, chunks: seq<Bytes>, limit: nat): Ledger
    requires chunks != []
    decreases |chunks|
  {
    var next := Enter(l, chunks[0], |chunks| == 1, limit);
    if |chunks| == 1 || !next.ok then next else EnterWhole(next, chunks[1..], limit)
  }

  ghost predicate FinallyBalanced(l: Ledger, limit: nat) {
    && (forall s | s in l.closed :: SpanBalanced(s))
    && SameText(l.open.raw, Open(l), l.open.extra)
    && l.buffers.Pending() == []
    && Bounded(l.buffers, limit)
  }

  lemma LastCallBalances(l: Ledger, bytes: Bytes, limit: nat)
    requires Balanced(l, limit) && Enter(l, bytes, true, limit).ok
    ensures FinallyBalanced(Enter(l, bytes, true, limit), limit)
  {
    hide Decode, DecodeAndProcess, SameText, BalancedBefore, SpanBalanced, LogText;
    var e := Enter(l, bytes, true, limit);
    CallBounds(l.buffers, bytes, true, limit);
    assert BalancedBefore(l, bytes);
    if Decode(l.buffers, bytes, true).Text? {
      FinalTextBalances(l, bytes, limit);
    } else {
      VerbatimCloses(l, bytes, true, limit);
      NothingIsSame();
    }
  }

  lemma {:induction false} WholeBalances(l: Ledger, chunks: seq<Bytes>, limit: nat)
    requires chunks != [] && Balanced(l, limit) && EnterWhole(l, chunks, limit).ok
    ensures var e := EnterWhole(l, chunks, limit);
            && FinallyBalanced(e, limit)
            && RawOf(e.closed) + e.open.raw == RawOf(l.closed) + l.open.raw + Flatten(chunks)
    decreases |chunks|
  {
    hide Balanced, FinallyBalanced, Enter, Accounted;
    EnterKeepsRaw(l, chunks[0], |chunks| == 1, limit);
    if |chunks| == 1 {
      LastCallBalances(l, chunks[0], limit);
      assert chunks[0] + [] == chunks[0];
    } else {
      EnterKeepsBalance(l, chunks[0], limit);
      WholeBalances(Enter(l, chunks[0], false, limit), chunks[1..], limit);
      Assoc(RawOf(l.closed) + l.open.raw, chunks[0], Flatten(chunks[1..]));
    }
  }

  /**
   * A whole response of successful calls, on any bytes whatsoever and however cut: nothing is lost,
   * added or moved, up to line ends and but for the extra ones.
   */
  lemma EveryByteAccountedFor(chunks: seq<Bytes>, limit: nat)
    requires chunks != [] && EnterWhole(START, chunks, limit).ok
    ensures var e := EnterWhole(START, chunks, limit);
            && RawOf(e.closed) + e.open.raw == Flatten(chunks)
            && (forall s | s in e.closed :: Accounted(s.raw, LogText(s.log), s.extra))
            && Accounted(e.open.raw, Open(e), e.open.extra)
            && e.buffers.Pending() == []
            && Bounded(e.buffers, limit)
  {
    hide SameText, Accounted, EnterWhole, LogText, Balanced;
    StartsBalanced([], limit, true);
    WholeBalances(START, chunks, limit);
    assert [] + Flatten(chunks) == Flatten(chunks);
    var e := EnterWhole(START, chunks, limit);
    SameTextIsAccounted(e.open.raw, Open(e), e.open.extra);
    forall s | s in e.closed ensures Accounted(s.raw, LogText(s.log), s.extra) {
      assert SpanBalanced(s);
      SameTextIsAccounted(s.raw, LogText(s.log), s.extra);
    }
  }

  lemma ValidCall(l: Ledger, bytes: Bytes, endOfStream: bool, future: Bytes, limit: nat)
    requires Utf8.Valid(l.buffers.Pending() + (bytes + future))
    requires endOfStream ==> future == []
    ensures var e, r := Enter(l, bytes, endOfStream, limit), DecodeAndProcess(l.buffers, bytes, endOfStream, limit);
            && e == Ledger(l.closed,
                           Span(l.open.raw + bytes, l.open.log + r.log, l.open.extra + ExtraAt(l.ending, bytes)),
                           EndingAfter(l.ending, bytes), r.buffers, r.ok)
            && Utf8.Valid(r.buffers.Pending() + future)
  {
    hide Decode, DecodeAndProcess, ExtraAt, EndingAfter, Utf8.Valid;
    Assoc(l.buffers.Pending(), bytes, future);
    ReassembleStep(l.buffers, bytes, endOfStream, future);
    CallKeepsPending(l.buffers, bytes, endOfStream, limit);
  }

  /** On valid UTF-8 there is one stretch, and its extra line ends can be read off the cuts. */
  lemma {:induction false} ValidRunLedger(l: Ledger, chunks: seq<Bytes>, limit: nat)
    requires chunks != [] && Utf8.Valid(l.buffers.Pending() + Flatten(chunks))
    requires Run(l.buffers, chunks, limit).ok
    ensures var e, r := EnterWhole(l, chunks, limit), Run(l.buffers, chunks, limit);
            && e.ok && e.closed == l.closed && e.buffers == r.buffers
            && e.open == Span(l.open.raw + Flatten(chunks), l.open.log + r.log,
                              l.open.extra + ExtraLineEnds(l.ending, chunks))
    decreases |chunks|
  {
    hide DecodeAndProcess, Enter, ExtraAt, EndingAfter, Utf8.Valid;
    var last, future := |chunks| == 1, Flatten(chunks[1..]);
    ValidCall(l, chunks[0], last, future, limit);
    if last {
      assert chunks[0] + [] == chunks[0] && ExtraLineEnds(EndingAfter(l.ending, chunks[0]), chunks[1..]) == 0;
    } else {
      var next := Enter(l, chunks[0], false, limit);
      ValidRunLedger(next, chunks[1..], limit);
      Assoc(l.open.raw, chunks[0], future);
      var first, more := DecodeAndProcess(l.buffers, chunks[0], false, limit), Run(next.buffers, chunks[1..], limit);
      Assoc(l.open.log, first.log, more.log);
    }
  }

  /**
   * For every valid UTF-8 stream and every way of cutting it within the limit: the dispatched blocks
   * and the final buffer are the stream, up to line ends, if and only if no cut falls between CR CR and
   * LF; and each such cut puts in exactly one LF.
   */
  lemma ValidStreamAccountedFor(chunks: seq<Bytes>, limit: nat)
    requires chunks != [] && Utf8.Valid(Flatten(chunks)) && Run(EMPTY, chunks, limit).ok
    ensures var r := Run(EMPTY, chunks, limit);
            Accounted(Flatten(chunks), LogText(r.log) + Held(r.buffers), ExtraLineEnds(Other, chunks))
  {
    hide Run, EnterWhole, Accounted, LogText, ExtraLineEnds;
    assert [] + Flatten(chunks) == Flatten(chunks);
    ValidRunLedger(START, chunks, limit);
    EveryByteAccountedFor(chunks, limit);
    var r := Run(EMPTY, chunks, limit);
    assert [] + r.log == r.log;
  }

  lemma NothingIsSame()
    ensures SameText([], LogText([]) + Held(EMPTY), 0)
  {
  }

  /** The extra line end can be a block of its own: CR CR LF LF cut after the second CR. */
  lemma CutPairAddsEmptyBlock()
    ensures FrameChunk([], [CR, CR, LF, LF], false) == Framed([[]], [LF])
    ensures FrameChunk([], [CR, CR], false) == Framed([[]], [])
    ensures FrameChunk([], [LF, LF], false) == Framed([[]], [])
  {
    hide NormalizeLineEndings, BlocksOf, RestOf;
    var whole: Bytes, cr2: Bytes, lf2: Bytes := [CR, CR, LF, LF], [CR, CR], [LF, LF];
    NormalizedCut();
    CutIntoBlocks();
    assert [] + whole == whole && [] + cr2 == cr2 && [] + lf2 == lf2;
  }

  lemma NormalizedCut()
    ensures NormalizeLineEndings([CR, CR]) == [LF, LF] && NormalizeLineEndings([LF, LF]) == [LF, LF]
    ensures NormalizeLineEndings([CR, CR, LF, LF]) == [LF, LF, LF]
  {
    var lf: Bytes, lf2: Bytes, cr: Bytes, cr2: Bytes := [LF], [LF, LF], [CR], [CR, CR];
    assert lf[1..] == [] && lf2[1..] == lf && cr[1..] == [] && cr2[1..] == cr;
    assert NormalizeLineEndings(lf) == lf && NormalizeLineEndings(cr) == lf;
    var cut: Bytes, whole: Bytes := [CR, LF, LF], [CR, CR, LF, LF];
    assert cut[2..] == lf && whole[1..] == cut;
    assert NormalizeLineEndings(cut) == lf2;
  }

  lemma CutIntoBlocks()
    ensures BlocksOf([LF, LF]) == [[]] && RestOf([LF, LF]) == []
    ensures BlocksOf([LF, LF, LF]) == [[]] && RestOf([LF, LF, LF]) == [LF]
  {
    var lf: Bytes, lf2: Bytes, lf3: Bytes := [LF], [LF, LF], [LF, LF, LF];
    assert BlankAt(lf2) == Some(0) && BlankAt(lf3) == Some(0);
    assert lf2[..0] == [] && lf2[2..] == [] && lf3[..0] == [] && lf3[2..] == lf;
    assert BlocksOf([]) == [] && BlocksOf(lf) == [];
    assert RestOf([]) == [] && RestOf(lf) == lf;
  }
}
