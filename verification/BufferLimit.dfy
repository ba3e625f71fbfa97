/**
 * When the bound on an incomplete event is met.  It is checked after each call, so whether a stream
 * stays within it depends on the cuts; a condition on the stream alone makes every way of cutting succeed.
 */
module BufferLimit {
  import opened Prelude
  import opened SseFraming
  import opened StreamDecoder
  import Utf8

  /** Every stretch that reads without a blank line, up to the end of a character, is shorter than the limit. */
  predicate EventsFit(raw: Bytes, limit: nat) {
    forall i, j | 0 <= i <= j <= |raw| && Utf8.Valid(raw[..j]) && BlankAt(NormalizeLineEndings(raw[i..j])).None? ::
      |NormalizeLineEndings(raw[i..j])| < limit
  }

  // ---------------------------------------------------------------------------
  // The buffer is the normalised end of what was read
  // ---------------------------------------------------------------------------

  /** `line` is what the last octets of `read` normalise to, and holds no blank line. */
  predicate EndOf(line: Bytes, read: Bytes) {
    BlankAt(line).None? && exists i :: 0 <= i <= |read| && line == NormalizeLineEndings(read[i..])
  }

  lemma {:induction false} NormalizedTail(s: Bytes, m: nat)
    requires m <= |NormalizeLineEndings(s)|
    ensures exists k :: 0 <= k <= |s| && NormalizeLineEndings(s)[m..] == NormalizeLineEndings(s[k..])
    decreases |s|
  {
    var n := NormalizeLineEndings(s);
    if m == 0 {
      assert n[0..] == n && s[0..] == s;
    } else {
      var w := if s[0] == CR && StartsWith(s[1..], LF) then 2 else 1;
      NormalizedTail(s[w..], m - 1);
      var k :| 0 <= k <= |s[w..]| && NormalizeLineEndings(s[w..])[m - 1..] == NormalizeLineEndings(s[w..][k..]);
      assert n[1..] == NormalizeLineEndings(s[w..]);
      assert n[m..] == n[1..][m - 1..] && s[w..][k..] == s[w + k..];
    }
  }

  lemma LastPart(line: Bytes, more: Bytes, i: nat, k: nat)
    requires |line| <= i <= |line + more| && k <= |line + more| - i
    ensures var tail := (line + more)[i..];
            k <= |more| && tail[|tail| - k..] == more[|more| - k..]
  {
  }

  /** With no blank line in `line`, the rest is all of it or starts in what was added. */
  lemma {:induction false} RestOfAdded(line: Bytes, more: Bytes)
    requires BlankAt(line).None?
    ensures RestOf(line + more) == line + more ||
            exists m :: 0 <= m <= |more| && RestOf(line + more) == more[m..]
  {
    hide BlankAt, RestOf;
    var s := line + more;
    CutBlock(s);
    match BlankAt(s) {
      case None =>
      case Some(i) =>
        if i + 2 <= |line| {
          assert line[i] == s[i] == LF && line[i + 1] == s[i + 1] == LF;
          BlankIsFound(line, i);
          assert false;
        } else {
          var tail := s[i + 2..];
          RestIsTail(tail);
          LastPart(line, more, i + 2, |RestOf(tail)|);
        }
    }
  }

  lemma {:induction false} BlankIsFound(s: Bytes, i: nat)
    requires i + 1 < |s| && s[i] == LF && s[i + 1] == LF
    ensures BlankAt(s).Some?
  {
    if i > 0 { BlankIsFound(s[1..], i - 1); }
  }

  lemma NormalizeAfterNormalized(line: Bytes, v: Bytes)
    requires CR !in line
    ensures NormalizeLineEndings(line + v) == line + NormalizeLineEndings(v)
  {
    hide NormalizeLineEndings;
    NormalizeAppend(line, v);
    NormalizeFixesCrFree(line);
  }

  lemma RestIsEnd(line: Bytes, read: Bytes, v: Bytes)
    requires EndOf(line, read)
    requires EndsWith(read, CR) && StartsWith(v, LF) ==> line == [] || line == [LF]
    ensures EndOf(RestOf(NormalizeLineEndings(line + v)), read + v)
  {
    hide NormalizeLineEndings, BlankAt, RestOf;
    var i :| 0 <= i <= |read| && line == NormalizeLineEndings(read[i..]);
    NormalizeHasNoCr(read[i..]);
    NormalizeAfterNormalized(line, v);
    var n := NormalizeLineEndings(v);
    RestOfAdded(line, n);
    RestIsTail(line + n);
    var rest := RestOf(line + n);
    assert (read + v)[i..] == read[i..] + v;
    if rest != line + n {
      var m :| 0 <= m <= |n| && rest == n[m..];
      EndInAdded(read, v, m);
    } else if EndsWith(read[i..], CR) && StartsWith(v, LF) {
      NormalizedStartsLf(v);
      if line == [LF] {
        BlankIsFound(line + n, 0);
      } else {
        assert rest == n[0..];
        EndInAdded(read, v, 0);
      }
    } else {
      NormalizeAppend(read[i..], v);
    }
  }

  lemma NormalizedStartsLf(v: Bytes)
    requires StartsWith(v, LF)
    ensures StartsWith(NormalizeLineEndings(v), LF)
  {
  }

  lemma EndInAdded(read: Bytes, v: Bytes, m: nat)
    requires m <= |NormalizeLineEndings(v)|
    ensures exists k :: 0 <= k <= |read + v| && NormalizeLineEndings(v)[m..] == NormalizeLineEndings((read + v)[k..])
  {
    hide NormalizeLineEndings;
    NormalizedTail(v, m);
    var k :| 0 <= k <= |v| && NormalizeLineEndings(v)[m..] == NormalizeLineEndings(v[k..]);
    assert (read + v)[|read| + k..] == v[k..];
  }

  // ---------------------------------------------------------------------------
  // One text
  // ---------------------------------------------------------------------------

  /** What the line buffer holds once `read` has been handed over: its end, a lone last CR aside. */
  predicate Holds(line: Bytes, read: Bytes) {
    if EndsWith(line, CR) then
      EndsWith(read, CR) && EndOf(line[..|line| - 1], read[..|read| - 1])
    else
      EndOf(line, read) && (EndsWith(read, CR) ==> line == [] || line == [LF])
  }

  /** What is not put off is the end of what was read. */
  lemma CombinedEnds(line: Bytes, read: Bytes, text: Bytes)
    requires Holds(line, read) && text != []
    ensures var combined := line + text;
            EndOf(RestOf(NormalizeLineEndings(combined)), read + text)
    ensures var combined := line + text;
            EndsWith(text, CR) ==>
              EndOf(RestOf(NormalizeLineEndings(combined[..|combined| - 1])), (read + text)[..|read + text| - 1])
  {
    hide NormalizeLineEndings, BlankAt, RestOf, EndOf;
    var combined := line + text;
    if EndsWith(line, CR) {
      var l0, r0 := line[..|line| - 1], read[..|read| - 1];
      var v := [CR] + text;
      assert combined == l0 + v && read + text == r0 + v;
      RestIsEnd(l0, r0, v);
      RestIsEnd(l0, r0, v[..|v| - 1]);
      assert combined[..|combined| - 1] == l0 + v[..|v| - 1];
      assert (read + text)[..|read + text| - 1] == r0 + v[..|v| - 1];
    } else {
      RestIsEnd(line, read, text);
      RestIsEnd(line, read, text[..|text| - 1]);
      assert combined[..|combined| - 1] == line + text[..|text| - 1];
      assert (read + text)[..|read + text| - 1] == read + text[..|text| - 1];
    }
  }

  lemma ProcessHolds(b: Buffers, text: Bytes, endOfStream: bool, read: Bytes, limit: nat)
    requires Holds(b.Leftover(), read) && text != []
    ensures var f := FrameChunk(b.Leftover(), text, endOfStream);
            !endOfStream ==> Holds(f.buffer, read + text)
    ensures var f := FrameChunk(b.Leftover(), text, endOfStream);
            var end := if EndsWith(f.buffer, CR) then f.buffer[..|f.buffer| - 1] else f.buffer;
            exists j :: 0 <= j <= |read + text|
                        && (j == |read + text| || (j + 1 == |read + text| && EndsWith(text, CR)))
                        && EndOf(end, (read + text)[..j])
  {
    hide NormalizeLineEndings, BlankAt, RestOf, EndOf, BlocksOf;
    var combined, all := b.Leftover() + text, read + text;
    CombinedEnds(b.Leftover(), read, text);
    assert all[..|all|] == all && EndsWith(text, CR) == EndsWith(combined, CR) == EndsWith(all, CR);
    if DefersCr(combined, endOfStream) {
      var rest := RestOf(NormalizeLineEndings(combined[..|combined| - 1]));
      var buffer := rest + [CR];
      assert buffer[..|buffer| - 1] == rest;
      assert EndOf(rest, all[..|all| - 1]);
    } else {
      var n := NormalizeLineEndings(combined);
      NormalizeHasNoCr(combined);
      RestHasNoCr(n);
      if !endOfStream && EndsWith(all, CR) {
        EndsInTwoLf(combined);
        RestAfterBlank(n);
      }
    }
  }

  /** So the buffer is bounded by the longest stretch without a blank line. */
  lemma BufferFits(b: Buffers, text: Bytes, endOfStream: bool, read: Bytes, raw: Bytes, limit: nat)
    requires Holds(b.Leftover(), read) && text != []
    requires read + text <= raw && Utf8.Valid(read + text) && EventsFit(raw, limit)
    ensures |FrameChunk(b.Leftover(), text, endOfStream).buffer| <= limit
  {
    hide NormalizeLineEndings, BlankAt, FrameChunk, Utf8.Valid, Holds, EndOf, EventsFit;
    ProcessHolds(b, text, endOfStream, read, limit);
    var f, all := FrameChunk(b.Leftover(), text, endOfStream), read + text;
    var end := if EndsWith(f.buffer, CR) then f.buffer[..|f.buffer| - 1] else f.buffer;
    var j :| 0 <= j <= |all| && (j == |all| || (j + 1 == |all| && EndsWith(text, CR))) && EndOf(end, all[..j]);
    ValidButCr(all, j);
    EndFits(end, all, j, raw, limit);
  }

  lemma ValidButCr(all: Bytes, j: nat)
    requires Utf8.Valid(all) && j <= |all| && (j == |all| || (j + 1 == |all| && EndsWith(all, CR)))
    ensures Utf8.Valid(all[..j])
  {
    if j < |all| {
      assert all == all[..j] + [CR];
      Utf8.DropLastAscii(all[..j], CR);
    } else {
      assert all[..j] == all;
    }
  }

  lemma EndFits(end: Bytes, all: Bytes, j: nat, raw: Bytes, limit: nat)
    requires all <= raw && j <= |all| && Utf8.Valid(all[..j]) && EndOf(end, all[..j]) && EventsFit(raw, limit)
    ensures |end| < limit
  {
    hide NormalizeLineEndings, BlankAt, Utf8.Valid;
    var i :| 0 <= i <= |all[..j]| && end == NormalizeLineEndings(all[..j][i..]);
    PrefixSlice(raw, all, i, j);
  }

  lemma PrefixSlice(raw: Bytes, all: Bytes, i: nat, j: nat)
    requires all <= raw && i <= j <= |all|
    ensures raw[..j] == all[..j] && raw[i..j] == all[..j][i..]
  {
  }

  // ---------------------------------------------------------------------------
  // Whole runs
  // ---------------------------------------------------------------------------

  lemma {:induction false} EveryCutFits(b: Buffers, read: Bytes, chunks: seq<Bytes>, raw: Bytes, limit: nat)
    requires chunks != [] && raw == read + (b.Pending() + Flatten(chunks))
    requires Utf8.Valid(read) && Utf8.Valid(b.Pending() + Flatten(chunks))
    requires Holds(b.Leftover(), read) && (b.line.Some? ==> |b.line.value| <= limit)
    requires EventsFit(raw, limit)
    ensures Run(b, chunks, limit).ok
    decreases |chunks|
  {
    hide Holds, EventsFit, Utf8.Valid, Decode, DecodeAndProcess;
    var last, future := |chunks| == 1, Flatten(chunks[1..]);
    Assoc(b.Pending(), chunks[0], future);
    ReassembleStep(b, chunks[0], last, future);
    CallKeepsPending(b, chunks[0], last, limit);
    var text := Decode(b, chunks[0], last).text;
    var next := DecodeAndProcess(b, chunks[0], last, limit);
    Assoc(text, next.buffers.Pending(), future);
    Assoc(read, text, next.buffers.Pending() + future);
    Utf8.ValidAppend(read, text);
    CallFits(b, chunks[0], last, read, raw, limit);
    if !last { EveryCutFits(next.buffers, read + text, chunks[1..], raw, limit); }
  }

  /** One call succeeds, and leaves the end of what was read in the buffer. */
  lemma CallFits(b: Buffers, bytes: Bytes, endOfStream: bool, read: Bytes, raw: Bytes, limit: nat)
    requires Decode(b, bytes, endOfStream).Text?
    requires Holds(b.Leftover(), read) && (b.line.Some? ==> |b.line.value| <= limit)
    requires var all := read + Decode(b, bytes, endOfStream).text;
             all <= raw && Utf8.Valid(all) && EventsFit(raw, limit)
    ensures var r := DecodeAndProcess(b, bytes, endOfStream, limit);
            && r.ok
            && (r.buffers.line.Some? ==> |r.buffers.line.value| <= limit)
            && (!endOfStream ==> Holds(r.buffers.Leftover(), read + Decode(b, bytes, endOfStream).text))
  {
    hide Holds, EventsFit, Utf8.Valid, Decode, FrameChunk, BlockEntries;
    var d := Decode(b, bytes, endOfStream);
    var b' := b.(utf8 := d.utf8);
    assert b'.Leftover() == b.Leftover();
    if d.text == [] {
      assert read + d.text == read;
      if endOfStream { NothingMore(b', limit); }
    } else {
      BufferFits(b', d.text, endOfStream, read, raw, limit);
      ProcessHolds(b', d.text, endOfStream, read, limit);
    }
  }

  /** A last call without text does not lengthen the buffer. */
  lemma NothingMore(b: Buffers, limit: nat)
    requires b.line.Some? ==> |b.line.value| <= limit
    ensures ProcessText(b, [], true, limit).ok
  {
    hide NormalizeLineEndings, RestOf, BlocksOf, BlockEntries;
    var line := b.Leftover();
    assert line + [] == line;
    NormalizeNoLonger(line);
    RestIsTail(NormalizeLineEndings(line));
  }

  lemma {:induction false} NormalizeNoLonger(s: Bytes)
    ensures |NormalizeLineEndings(s)| <= |s|
  {
    if s != [] { NormalizeNoLonger(s[if s[0] == CR && StartsWith(s[1..], LF) then 2 else 1..]); }
  }

  /** If no stretch without a blank line is as long as the limit, every way of cutting the stream succeeds. */
  lemma LimitSuffices(chunks: seq<Bytes>, limit: nat)
    requires chunks != [] && Utf8.Valid(Flatten(chunks)) && EventsFit(Flatten(chunks), limit)
    ensures Run(EMPTY, chunks, limit).ok
  {
    var raw := Flatten(chunks);
    assert [] + raw == raw;
    var nothing: Bytes := [];
    assert nothing == NormalizeLineEndings(nothing[0..]);
    EveryCutFits(EMPTY, [], chunks, raw, limit);
  }

  /** The buffer is no shorter than the unfinished event before it. */
  lemma BufferHoldsRest(read: Bytes)
    ensures |FrameChunk([], read, false).buffer| >= |RestOf(NormalizeLineEndings(read))|
  {
    hide NormalizeLineEndings, RestOf, BlocksOf;
    assert [] + read == read;
    if DefersCr(read, false) {
      var head := read[..|read| - 1];
      var n := NormalizeLineEndings(head);
      assert read == head + [CR];
      NormalizeAppend(head, [CR]);
      LoneCr();
      BlocksAppend(n, [LF]);
      RestIsTail(RestOf(n) + [LF]);
    }
  }

  lemma LoneCr()
    ensures NormalizeLineEndings([CR]) == [LF]
  {
    var s: Bytes := [CR];
    assert s[1..] == [];
  }

  /** Wherever an unfinished event is longer than the limit, a cut there fails. */
  lemma LongPartialFails(read: Bytes, more: Bytes, limit: nat)
    requires Utf8.Valid(read) && |RestOf(NormalizeLineEndings(read))| > limit
    ensures !Run(EMPTY, [read, more], limit).ok
  {
    hide Utf8.Valid, BlockEntries, RestOf, NormalizeLineEndings;
    var nothing: Bytes := [];
    assert nothing + read == read;
    BufferHoldsRest(read);
    if read == [] { NothingLeft(); }
  }

  lemma NothingLeft()
    ensures RestOf(NormalizeLineEndings([])) == []
  {
  }

  /** An event longer than the limit passes in one chunk with its blank line, and fails when cut off from it. */
  lemma CutDecides(event: Bytes, limit: nat)
    requires Utf8.Valid(event) && CR !in event && LF !in event && |event| > limit
    ensures Flatten([event + BLANK]) == Flatten([event, BLANK])
    ensures Run(EMPTY, [event + BLANK], limit).ok
    ensures !Run(EMPTY, [event, BLANK], limit).ok
  {
    FlattenOne(event + BLANK);
    FlattenTwo(event, BLANK);
    PassesWhole(event, limit);
    FailsCut(event, limit);
  }

  lemma PassesWhole(event: Bytes, limit: nat)
    requires Utf8.Valid(event) && CR !in event && LF !in event
    ensures Run(EMPTY, [event + BLANK], limit).ok
  {
    hide Utf8.Valid, BlockEntries, BlocksOf, RestOf, NormalizeLineEndings;
    var whole: Bytes, nothing: Bytes := event + BLANK, [];
    assert nothing + whole == whole;
    BlankIsValid();
    Utf8.ValidAppend(event, BLANK);
    WholeEventPasses(event);
  }

  lemma BlankIsValid()
    ensures Utf8.Valid(BLANK)
  {
    assert BLANK[1..] == [LF] && BLANK[1..][1..] == [];
    assert Utf8.Valid(BLANK[1..][1..]);
    assert Utf8.Valid(BLANK[1..]);
  }

  lemma FailsCut(event: Bytes, limit: nat)
    requires Utf8.Valid(event) && CR !in event && LF !in event && |event| > limit
    ensures !Run(EMPTY, [event, BLANK], limit).ok
  {
    CutEventStays(event);
    LongPartialFails(event, BLANK, limit);
  }

  lemma WholeEventPasses(event: Bytes)
    requires CR !in event && LF !in event
    ensures RestOf(NormalizeLineEndings(event + BLANK)) == []
  {
    var whole := event + BLANK;
    NormalizeFixesCrFree(whole);
    BlankIsFound(whole, |event|);
    var i := BlankAt(whole).value;
    assert i == |event| && whole[i + 2..] == [];
  }

  lemma CutEventStays(event: Bytes)
    requires CR !in event && LF !in event
    ensures RestOf(NormalizeLineEndings(event)) == event && !EndsWith(event, CR)
  {
    NormalizeFixesCrFree(event);
  }
}
