/**
 * Exactly when every way of cutting a stream stays within the limit on an incomplete event.  What is
 * buffered depends on the cuts only through CRs next to them, so three places to cut at tell it all.
 */
module CutLimit {
  import opened Prelude
  import opened SseFraming
  import opened StreamDecoder
  import BufferLimit
  import Utf8

  /** What a text that ends here leaves in the buffer, itself with what the buffer held before. */
  function Kept(combined: Bytes): Bytes { FrameChunk([], combined, false).buffer }

  function Unfinished(s: Bytes): Bytes { RestOf(NormalizeLineEndings(s)) }

  /** The buffer after three texts, the third ending at `k`. */
  function KeptAt(raw: Bytes, i: nat, j: nat, k: nat): Bytes
    requires i <= j <= k <= |raw|
  {
    Kept(Kept(Kept(raw[..i]) + raw[i..j]) + raw[j..k])
  }

  /** Nothing kept is too long, whichever places between characters the stream is cut at before. */
  predicate CutsFit(raw: Bytes, limit: nat) {
    forall i, j, k | 0 <= i <= j <= k <= |raw| &&
                     Utf8.Valid(raw[..i]) && Utf8.Valid(raw[..j]) && Utf8.Valid(raw[..k]) ::
      |KeptAt(raw, i, j, k)| <= limit
  }

  // ---------------------------------------------------------------------------
  // One text after another
  // ---------------------------------------------------------------------------

  lemma KeptIs(s: Bytes)
    ensures Kept(s) == if DefersCr(s, false) then Unfinished(s[..|s| - 1]) + [CR] else Unfinished(s)
  {
    hide NormalizeLineEndings, RestOf, BlocksOf;
    assert [] + s == s;
  }

  lemma FrameKeeps(leftover: Bytes, text: Bytes)
    ensures FrameChunk(leftover, text, false).buffer == Kept(leftover + text)
  {
    hide NormalizeLineEndings, RestOf, BlocksOf;
    assert [] + (leftover + text) == leftover + text;
  }

  lemma UnfinishedHasNoCr(s: Bytes)
    ensures CR !in Unfinished(s) && BlankAt(Unfinished(s)).None?
  {
    hide NormalizeLineEndings, RestOf;
    NormalizeHasNoCr(s);
    RestHasNoCr(NormalizeLineEndings(s));
    RestIsTail(NormalizeLineEndings(s));
  }

  /** What is unfinished may stand for the text it is left of, unless a line end is cut in two. */
  lemma UnfinishedStandsFor(s: Bytes, more: Bytes)
    requires !(EndsWith(s, CR) && StartsWith(more, LF))
    ensures Unfinished(Unfinished(s) + more) == Unfinished(s + more)
  {
    hide NormalizeLineEndings, RestOf, BlocksOf;
    UnfinishedHasNoCr(s);
    BufferLimit.NormalizeAfterNormalized(Unfinished(s), more);
    NormalizeAppend(s, more);
    BlocksAppend(NormalizeLineEndings(s), NormalizeLineEndings(more));
  }

  lemma LastOf(a: Bytes, v: Bytes)
    requires v != []
    ensures var s := a + v;
            && s[|s| - 1] == v[|v| - 1]
            && (|v| >= 2 ==> s[|s| - 2] == v[|v| - 2])
            && (|v| == 1 && a != [] ==> s[|s| - 2] == a[|a| - 1])
            && |s| == |a| + |v|
  {
  }

  /** Whether a CR is put off shows in the last two octets. */
  lemma DefersAlike(a: Bytes, b: Bytes, v: Bytes)
    requires v != [] && !EndsWith(a, CR) && (|v| >= 2 || v != [CR] || !EndsWith(b, CR))
    ensures DefersCr(a + v, false) <==> DefersCr(b + v, false)
  {
    LastOf(a, v);
    LastOf(b, v);
  }

  lemma DropLast(b: Bytes, v: Bytes)
    requires v != []
    ensures (b + v)[..|b + v| - 1] == b + v[..|v| - 1]
  {
  }

  lemma RestStandsFor(s: Bytes, v: Bytes)
    requires v != [] && !(EndsWith(s, CR) && (StartsWith(v, LF) || v == [CR]))
    ensures Kept(Unfinished(s) + v) == Kept(s + v)
  {
    hide Kept, Unfinished;
    var r := Unfinished(s);
    UnfinishedHasNoCr(s);
    KeptIs(r + v);
    KeptIs(s + v);
    DefersAlike(r, s, v);
    DropLast(r, v);
    DropLast(s, v);
    UnfinishedStandsFor(s, v);
    UnfinishedStandsFor(s, v[..|v| - 1]);
  }

  /** A cut leaves no trace, unless it falls after CR CR and before an LF, or a CR that comes alone. */
  lemma CutLeavesNoTrace(s: Bytes, text: Bytes)
    requires text != [] && !(EndsInTwoCr(s) && (StartsWith(text, LF) || text == [CR]))
    ensures Kept(Kept(s) + text) == Kept(s + text)
  {
    hide Kept, Unfinished;
    KeptIs(s);
    if DefersCr(s, false) {
      var head, v := s[..|s| - 1], [CR] + text;
      assert s == head + [CR];
      Assoc(head, [CR], text);
      Assoc(Unfinished(head), [CR], text);
      RestStandsFor(head, v);
    } else {
      RestStandsFor(s, text);
    }
  }

  lemma KeptTwice(s: Bytes)
    ensures Kept(Kept(s)) == Kept(s)
  {
    hide Kept, Unfinished;
    KeptIs(s);
    var r := Unfinished(if DefersCr(s, false) then s[..|s| - 1] else s);
    UnfinishedHasNoCr(if DefersCr(s, false) then s[..|s| - 1] else s);
    RestIsFinal(r);
    if DefersCr(s, false) { assert (r + [CR])[..|r + [CR]| - 1] == r; }
    KeptIs(Kept(s));
  }

  lemma RestIsFinal(r: Bytes)
    requires CR !in r && BlankAt(r).None?
    ensures Unfinished(r) == r
  {
    NormalizeFixesCrFree(r);
  }

  predicate OneLfAtMost(s: Bytes) { s == [] || s == [LF] }

  lemma AfterTwoCr(s: Bytes)
    requires EndsInTwoCr(s)
    ensures Kept(s) == Unfinished(s) && OneLfAtMost(Kept(s))
  {
    hide NormalizeLineEndings, RestOf, Kept;
    KeptIs(s);
    EndsInTwoLf(s);
    RestAfterBlank(NormalizeLineEndings(s));
  }

  /** Two cuts after CR CR and before LF undo each other. */
  lemma TwoCutsUndo(s: Bytes, kept: Bytes, text: Bytes)
    requires EndsInTwoCr(s) && StartsWith(text, LF)
    requires OneLfAtMost(kept) && kept != Kept(s)
    ensures Kept(kept + text) == Kept(s + text)
  {
    hide Kept, Unfinished;
    AfterTwoCr(s);
    KeptIs(kept + text);
    KeptIs(s + text);
    DefersAlike(kept, s, text);
    DropLast(kept, text);
    DropLast(s, text);
    LfUndone(s, kept, text[1..]);
    assert text == [LF] + text[1..];
    if DefersCr(kept + text, false) {
      var u := text[1..|text| - 1];
      assert text[..|text| - 1] == [LF] + u;
      LfUndone(s, kept, u);
    }
  }

  lemma LfUndone(s: Bytes, kept: Bytes, u: Bytes)
    requires EndsInTwoCr(s) && OneLfAtMost(kept) && OneLfAtMost(Unfinished(s)) && kept != Unfinished(s)
    ensures Unfinished(kept + ([LF] + u)) == Unfinished(s + ([LF] + u))
  {
    hide NormalizeLineEndings, RestOf, BlocksOf;
    var n, w := NormalizeLineEndings(u), Unfinished(s);
    NormalizeCutPair(s, u);
    BlocksAppend(NormalizeLineEndings(s), n);
    BufferLimit.NormalizeAfterNormalized(kept, [LF] + u);
    LfFirst(u);
    assert [] + n == n && [] + ([LF] + n) == [LF] + n;
    if kept == [LF] { BlankFirst(n); }
  }

  lemma LfFirst(u: Bytes)
    ensures NormalizeLineEndings([LF] + u) == [LF] + NormalizeLineEndings(u)
  {
    assert ([LF] + u)[1..] == u;
  }

  lemma BlankFirst(n: Bytes)
    ensures RestOf([LF] + ([LF] + n)) == RestOf(n)
  {
    var s := [LF] + ([LF] + n);
    assert s[2..] == n;
    CutBlock(s);
  }

  // ---------------------------------------------------------------------------
  // Everything a cut can leave behind
  // ---------------------------------------------------------------------------

  /** What is kept of `read` with one cut in it, after `i` octets. */
  function KeptOnce(read: Bytes, i: nat): Bytes
    requires i <= |read|
  {
    Kept(Kept(read[..i]) + read[i..])
  }

  predicate WithOneCut(read: Bytes, kept: Bytes) {
    exists i :: 0 <= i <= |read| && Utf8.Valid(read[..i]) && kept == KeptOnce(read, i)
  }

  /** With at most one cut, or one more right before a last CR. */
  predicate Reached(read: Bytes, kept: Bytes) {
    || WithOneCut(read, kept)
    || (EndsWith(read, CR) && EndsWith(kept, CR) &&
        OneLfAtMost(kept[..|kept| - 1]) && WithOneCut(read[..|read| - 1], kept[..|kept| - 1]))
  }

  lemma Uncut(read: Bytes)
    ensures WithOneCut(read, Kept(read))
  {
    hide Kept, NormalizeLineEndings, RestOf;
    NothingKept();
    assert read[..0] == [] && [] + read[0..] == read;
    assert Kept(read) == KeptOnce(read, 0);
  }

  lemma NothingKept()
    ensures Kept([]) == []
  {
    KeptIs([]);
  }

  /** If the last text and what was kept before end in CR CR, so does what was read. */
  lemma BothEndInTwoCr(read: Bytes, i: nat)
    requires i <= |read| && EndsInTwoCr(Kept(read[..i]) + read[i..])
    ensures EndsInTwoCr(read)
  {
    hide Kept, Unfinished;
    var head, last := read[..i], read[i..];
    var x := Kept(head) + last;
    KeptIs(head);
    UnfinishedHasNoCr(if DefersCr(head, false) then head[..|head| - 1] else head);
    var r := Unfinished(if DefersCr(head, false) then head[..|head| - 1] else head);
    assert read == head + last;
    if |last| >= 2 {
      assert x[|x| - 2] == last[|last| - 2];
    } else if |last| == 1 {
      assert x[|x| - 2] == Kept(head)[|Kept(head)| - 1];
      assert read[|read| - 2] == head[|head| - 1];
    }
  }

  lemma OnceMore(read: Bytes, i: nat, text: Bytes)
    requires i <= |read| && Utf8.Valid(read[..i])
    ensures (read + text)[..i] == read[..i] && (read + text)[i..] == read[i..] + text
    ensures Kept(Kept(read[..i]) + read[i..] + text) == KeptOnce(read + text, i)
    ensures WithOneCut(read + text, KeptOnce(read + text, i))
  {
    hide Kept, Utf8.Valid;
    assert (read + text)[..i] == read[..i] && (read + text)[i..] == read[i..] + text;
    Assoc(Kept(read[..i]), read[i..], text);
  }

  lemma OneCutGoesOn(read: Bytes, kept: Bytes, text: Bytes)
    requires WithOneCut(read, kept) && Utf8.Valid(read) && text != []
    ensures Reached(read + text, Kept(kept + text))
  {
    hide Kept, Utf8.Valid, WithOneCut, Unfinished;
    var i := CutOf(read, kept);
    var x := Kept(read[..i]) + read[i..];
    OnceMore(read, i, text);
    if !EndsInTwoCr(x) || !(StartsWith(text, LF) || text == [CR]) {
      CutLeavesNoTrace(x, text);
    } else {
      BothEndInTwoCr(read, i);
      AfterTwoCr(x);
      AfterTwoCr(read);
      if text == [CR] {
        CrPutOff(kept);
        assert (read + text)[..|read + text| - 1] == read;
      } else if kept == Kept(read) {
        CutHere(read, text);
      } else {
        TwoCutsUndo(read, kept, text);
        Uncut(read + text);
      }
    }
  }

  ghost function CutOf(read: Bytes, kept: Bytes): (i: nat)
    requires WithOneCut(read, kept)
    ensures i <= |read| && Utf8.Valid(read[..i]) && kept == KeptOnce(read, i)
  {
    var i :| 0 <= i <= |read| && Utf8.Valid(read[..i]) && kept == KeptOnce(read, i); i
  }

  lemma CutHere(read: Bytes, text: Bytes)
    requires Utf8.Valid(read)
    ensures WithOneCut(read + text, Kept(Kept(read) + text))
  {
    hide Kept, Utf8.Valid;
    var all := read + text;
    assert all[..|read|] == read && all[|read|..] == text;
    assert Kept(Kept(read) + text) == KeptOnce(all, |read|);
  }

  /** A CR that comes alone is put off, and merges with whatever comes next. */
  lemma CrPutOff(kept: Bytes)
    requires OneLfAtMost(kept)
    ensures Kept(kept + [CR]) == kept + [CR] && (kept + [CR])[..|kept + [CR]| - 1] == kept
  {
    hide Kept;
    var s := kept + [CR];
    assert s[..|s| - 1] == kept;
    KeptIs(s);
    LfIsUnfinished(kept);
  }

  lemma LfIsUnfinished(kept: Bytes)
    requires OneLfAtMost(kept)
    ensures Unfinished(kept) == kept
  {
    RestIsFinal(kept);
  }

  lemma ReachedGoesOn(read: Bytes, kept: Bytes, text: Bytes)
    requires Reached(read, kept) && Utf8.Valid(read) && text != []
    ensures Reached(read + text, Kept(kept + text))
  {
    hide Kept, Utf8.Valid, WithOneCut;
    if WithOneCut(read, kept) {
      OneCutGoesOn(read, kept, text);
    } else {
      var read0, kept0, v := read[..|read| - 1], kept[..|kept| - 1], [CR] + text;
      var i := CutOf(read0, kept0);
      assert read == read0 + [CR] && kept == kept0 + [CR];
      Assoc(read0, [CR], text);
      Assoc(kept0, [CR], text);
      CutLeavesNoTrace(Kept(read0[..i]) + read0[i..], v);
      OnceMore(read0, i, v);
      assert read + text == read0 + v && kept + text == kept0 + v;
    }
  }

  lemma ReachedFits(read: Bytes, kept: Bytes, raw: Bytes, limit: nat)
    requires Reached(read, kept) && read <= raw && Utf8.Valid(read) && CutsFit(raw, limit)
    ensures |kept| <= limit
  {
    hide Utf8.Valid, WithOneCut, CutsFit;
    if WithOneCut(read, kept) {
      OneCutFits(read, kept, raw, limit);
    } else {
      assert read == read[..|read| - 1] + [CR];
      PutOffFits(read[..|read| - 1], kept[..|kept| - 1], raw, limit);
    }
  }

  lemma OneCutFits(read: Bytes, kept: Bytes, raw: Bytes, limit: nat)
    requires WithOneCut(read, kept) && read <= raw && Utf8.Valid(read) && CutsFit(raw, limit)
    ensures |kept| <= limit
  {
    hide Kept, KeptAt, Utf8.Valid, WithOneCut;
    StartReached();
    var i := CutOf(read, kept);
    OneCutIsKeptAt(raw, i, |read|);
    Prefixes(read, raw, i);
  }

  lemma Prefixes(read: Bytes, raw: Bytes, i: nat)
    requires read <= raw && i <= |read|
    ensures raw[..0] == [] && raw[..|read|] == read && read[..i] == raw[..i] && read[i..] == raw[i..|read|]
  {
  }

  lemma PutOffFits(read: Bytes, kept: Bytes, raw: Bytes, limit: nat)
    requires WithOneCut(read, kept) && OneLfAtMost(kept)
    requires read + [CR] <= raw && Utf8.Valid(read + [CR]) && CutsFit(raw, limit)
    ensures |kept| + 1 <= limit
  {
    hide Kept, Utf8.Valid, WithOneCut;
    var i, k := CutOf(read, kept), |read|;
    Utf8.DropLastAscii(read, CR);
    Prefixes(read, raw, i);
    Prefixes(read + [CR], raw, k);
    assert raw[k..k + 1] == [CR];
    CrPutOff(kept);
    assert KeptAt(raw, i, k, k + 1) == kept + [CR];
  }

  lemma OneCutIsKeptAt(raw: Bytes, i: nat, k: nat)
    requires i <= k <= |raw|
    ensures KeptAt(raw, 0, i, k) == Kept(Kept(raw[..i]) + raw[i..k])
  {
    hide Kept;
    NothingKept();
    assert raw[..0] == [] && [] + raw[0..i] == raw[..i];
  }

  // ---------------------------------------------------------------------------
  // Enough: whole runs
  // ---------------------------------------------------------------------------

  lemma CallStays(b: Buffers, bytes: Bytes, endOfStream: bool, read: Bytes, raw: Bytes, limit: nat)
    requires Decode(b, bytes, endOfStream).Text?
    requires Reached(read, b.Leftover()) && (b.line.Some? ==> |b.line.value| <= limit) && Utf8.Valid(read)
    requires var all := read + Decode(b, bytes, endOfStream).text;
             all <= raw && Utf8.Valid(all) && CutsFit(raw, limit)
    ensures var r := DecodeAndProcess(b, bytes, endOfStream, limit);
            && r.ok
            && (r.buffers.line.Some? ==> |r.buffers.line.value| <= limit)
            && (!endOfStream ==> Reached(read + Decode(b, bytes, endOfStream).text, r.buffers.Leftover()))
  {
    hide Reached, CutsFit, Utf8.Valid, Decode, FrameChunk, BlockEntries, Kept;
    var d := Decode(b, bytes, endOfStream);
    var b' := b.(utf8 := d.utf8);
    assert b'.Leftover() == b.Leftover();
    if d.text == [] {
      assert read + d.text == read;
      if endOfStream { BufferLimit.NothingMore(b', limit); }
    } else {
      ReachedGoesOn(read, b.Leftover(), d.text);
      ReachedFits(read + d.text, Kept(b.Leftover() + d.text), raw, limit);
      FrameKeeps(b.Leftover(), d.text);
      if endOfStream { LastIsNoLonger(b.Leftover(), d.text); }
    }
  }

  lemma LastIsNoLonger(leftover: Bytes, text: Bytes)
    ensures |FrameChunk(leftover, text, true).buffer| <= |Kept(leftover + text)|
  {
    hide NormalizeLineEndings, RestOf, BlocksOf;
    BufferLimit.BufferHoldsRest(leftover + text);
  }

  lemma {:induction false} RunStays(b: Buffers, read: Bytes, chunks: seq<Bytes>, raw: Bytes, limit: nat)
    requires chunks != [] && raw == read + (b.Pending() + Flatten(chunks))
    requires Utf8.Valid(read) && Utf8.Valid(b.Pending() + Flatten(chunks))
    requires Reached(read, b.Leftover()) && (b.line.Some? ==> |b.line.value| <= limit)
    requires CutsFit(raw, limit)
    ensures Run(b, chunks, limit).ok
    decreases |chunks|
  {
    hide Reached, CutsFit, Utf8.Valid, Decode, DecodeAndProcess;
    var last, future := |chunks| == 1, Flatten(chunks[1..]);
    Assoc(b.Pending(), chunks[0], future);
    ReassembleStep(b, chunks[0], last, future);
    CallKeepsPending(b, chunks[0], last, limit);
    var text := Decode(b, chunks[0], last).text;
    var next := DecodeAndProcess(b, chunks[0], last, limit);
    Assoc(text, next.buffers.Pending(), future);
    Assoc(read, text, next.buffers.Pending() + future);
    Utf8.ValidAppend(read, text);
    CallStays(b, chunks[0], last, read, raw, limit);
    if !last { RunStays(next.buffers, read + text, chunks[1..], raw, limit); }
  }

  // ---------------------------------------------------------------------------
  // Needed: the cuts that show it
  // ---------------------------------------------------------------------------

  lemma WholeText(b: Buffers, text: Bytes, kept: Bytes, limit: nat)
    requires b.Pending() == [] && Utf8.Valid(text) && b.Leftover() == Kept(kept) && |Kept(kept)| <= limit
    requires DecodeAndProcess(b, text, false, limit).ok
    ensures var r := DecodeAndProcess(b, text, false, limit);
            && r.buffers.Pending() == []
            && r.buffers.Leftover() == Kept(Kept(kept) + text)
            && |r.buffers.Leftover()| <= limit
  {
    hide Kept, FrameChunk, BlockEntries, Utf8.Valid;
    assert [] + text == text;
    FrameKeeps(b.Leftover(), text);
    if text == [] {
      KeptTwice(kept);
      assert Kept(kept) + [] == Kept(kept);
    }
  }

  lemma RunOn(b: Buffers, chunk: Bytes, more: seq<Bytes>, limit: nat)
    requires more != [] && Run(b, [chunk] + more, limit).ok
    ensures DecodeAndProcess(b, chunk, false, limit).ok
    ensures Run(DecodeAndProcess(b, chunk, false, limit).buffers, more, limit).ok
  {
    hide DecodeAndProcess;
    assert ([chunk] + more)[1..] == more;
  }

  lemma ValidBetween(raw: Bytes, i: nat, j: nat)
    requires i <= j <= |raw| && Utf8.Valid(raw[..i]) && Utf8.Valid(raw[..j])
    ensures Utf8.Valid(raw[i..j])
  {
    hide Utf8.Valid;
    assert raw[..j] == raw[..i] + raw[i..j];
    Utf8.CutValidText(raw[..i], raw[i..j]);
  }

  function InFour(raw: Bytes, i: nat, j: nat, k: nat): seq<Bytes>
    requires i <= j <= k <= |raw|
  {
    var a: Bytes, b: Bytes, c: Bytes, d: Bytes := raw[..i], raw[i..j], raw[j..k], raw[k..];
    [a] + ([b] + ([c] + [d]))
  }

  lemma FlattenMore(a: Bytes, more: seq<Bytes>)
    ensures Flatten([a] + more) == a + Flatten(more)
  {
    assert ([a] + more)[1..] == more;
  }

  lemma FourFlatten(raw: Bytes, i: nat, j: nat, k: nat)
    requires i <= j <= k <= |raw|
    ensures Flatten(InFour(raw, i, j, k)) == raw
  {
    var a: Bytes, b: Bytes, c: Bytes, d: Bytes := raw[..i], raw[i..j], raw[j..k], raw[k..];
    FlattenOne(d);
    FlattenMore(c, [d]);
    FlattenMore(b, [c] + [d]);
    FlattenMore(a, [b] + ([c] + [d]));
    Pieces(raw, i, j, k);
  }

  lemma Pieces(raw: Bytes, i: nat, j: nat, k: nat)
    requires i <= j <= k <= |raw|
    ensures raw[..i] + (raw[i..j] + (raw[j..k] + raw[k..])) == raw
  {
    assert raw[j..k] + raw[k..] == raw[j..] && raw[i..j] + raw[j..] == raw[i..];
  }

  lemma FourTexts(raw: Bytes, i: nat, j: nat, k: nat, limit: nat)
    requires i <= j <= k <= |raw|
    requires Utf8.Valid(raw[..i]) && Utf8.Valid(raw[..j]) && Utf8.Valid(raw[..k])
    requires Run(EMPTY, InFour(raw, i, j, k), limit).ok
    ensures |KeptAt(raw, i, j, k)| <= limit
  {
    hide Kept, Run, DecodeAndProcess, Utf8.Valid;
    var x: Bytes, y: Bytes, z: Bytes, last: Bytes := raw[..i], raw[i..j], raw[j..k], raw[k..];
    NothingKept();
    assert [] + x == x;
    ValidBetween(raw, i, j);
    ValidBetween(raw, j, k);
    RunOn(EMPTY, x, [y] + ([z] + [last]), limit);
    WholeText(EMPTY, x, [], limit);
    var b1 := DecodeAndProcess(EMPTY, x, false, limit).buffers;
    RunOn(b1, y, [z] + [last], limit);
    WholeText(b1, y, x, limit);
    var b2 := DecodeAndProcess(b1, y, false, limit).buffers;
    RunOn(b2, z, [last], limit);
    WholeText(b2, z, Kept(x) + y, limit);
  }

  // ---------------------------------------------------------------------------
  // The result
  // ---------------------------------------------------------------------------

  ghost predicate EveryCutPasses(raw: Bytes, limit: nat) {
    forall chunks: seq<Bytes> | chunks != [] && Flatten(chunks) == raw :: Run(EMPTY, chunks, limit).ok
  }

  /** Every way of cutting a stream stays within the limit if and only if nothing kept at three cuts exceeds it. */
  lemma EveryCutPassesIff(raw: Bytes, limit: nat)
    requires Utf8.Valid(raw)
    ensures EveryCutPasses(raw, limit) <==> CutsFit(raw, limit)
  {
    hide EveryCutPasses, CutsFit, Utf8.Valid;
    if CutsFit(raw, limit) { FittingCutsPass(raw, limit); }
    if EveryCutPasses(raw, limit) { PassingCutsFit(raw, limit); }
  }

  lemma FittingCutsPass(raw: Bytes, limit: nat)
    requires Utf8.Valid(raw) && CutsFit(raw, limit)
    ensures EveryCutPasses(raw, limit)
  {
    hide Run, CutsFit, Utf8.Valid, Reached, Flatten;
    StartReached();
    assert [] + raw == raw;
    forall chunks: seq<Bytes> | chunks != [] && Flatten(chunks) == raw ensures Run(EMPTY, chunks, limit).ok {
      RunStays(EMPTY, [], chunks, raw, limit);
    }
  }

  lemma PassingCutsFit(raw: Bytes, limit: nat)
    requires Utf8.Valid(raw) && EveryCutPasses(raw, limit)
    ensures CutsFit(raw, limit)
  {
    hide Run, Kept, Utf8.Valid, KeptAt, Flatten, InFour;
    forall i, j, k | 0 <= i <= j <= k <= |raw| &&
                     Utf8.Valid(raw[..i]) && Utf8.Valid(raw[..j]) && Utf8.Valid(raw[..k])
      ensures |KeptAt(raw, i, j, k)| <= limit
    {
      FourFlatten(raw, i, j, k);
      FourIsSome(raw, i, j, k);
      FourTexts(raw, i, j, k, limit);
    }
  }

  lemma FourIsSome(raw: Bytes, i: nat, j: nat, k: nat)
    requires i <= j <= k <= |raw|
    ensures InFour(raw, i, j, k) != []
  {
  }

  lemma StartReached()
    ensures Reached([], []) && Utf8.Valid([])
  {
    NothingKept();
    Uncut([]);
  }

  // ---------------------------------------------------------------------------
  // Streams without CR
  // ---------------------------------------------------------------------------

  lemma PlainKept(s: Bytes)
    requires CR !in s
    ensures Kept(s) == RestOf(s)
  {
    hide Kept, NormalizeLineEndings, RestOf;
    KeptIs(s);
    NormalizeFixesCrFree(s);
  }

  lemma PlainKeptAt(raw: Bytes, i: nat, j: nat, k: nat)
    requires CR !in raw && i <= j <= k <= |raw|
    ensures KeptAt(raw, i, j, k) == RestOf(raw[..k])
  {
    hide Kept, RestOf;
    PlainJoin(raw[..i], raw[i..j]);
    PlainJoin(raw[..j], raw[j..k]);
    assert raw[..i] + raw[i..j] == raw[..j] && raw[..j] + raw[j..k] == raw[..k];
    PlainKept(raw[..k]);
  }

  lemma PlainJoin(a: Bytes, b: Bytes)
    requires CR !in a && CR !in b
    ensures Kept(Kept(a) + b) == Kept(a + b)
  {
    hide Kept;
    if b == [] {
      KeptTwice(a);
      assert a + b == a && Kept(a) + b == Kept(a);
    } else {
      CutLeavesNoTrace(a, b);
    }
  }

  /** Without CRs that means: no unfinished event is ever longer than the limit. */
  lemma PlainCutsIff(raw: Bytes, limit: nat)
    requires Utf8.Valid(raw) && CR !in raw
    ensures EveryCutPasses(raw, limit) <==>
            forall j | 0 <= j <= |raw| && Utf8.Valid(raw[..j]) :: |RestOf(raw[..j])| <= limit
  {
    hide RestOf, Kept, Utf8.Valid, KeptAt, EveryCutPasses;
    EveryCutPassesIff(raw, limit);
    forall i, j, k | 0 <= i <= j <= k <= |raw| ensures KeptAt(raw, i, j, k) == RestOf(raw[..k]) {
      PlainKeptAt(raw, i, j, k);
    }
    if CutsFit(raw, limit) {
      forall j | 0 <= j <= |raw| && Utf8.Valid(raw[..j]) ensures |RestOf(raw[..j])| <= limit {
        assert |KeptAt(raw, j, j, j)| <= limit;
      }
    }
  }

  /** A simpler bound, which asks for a little more room than any cut needs. */
  lemma EventsFitSuffices(raw: Bytes, limit: nat)
    requires Utf8.Valid(raw) && BufferLimit.EventsFit(raw, limit)
    ensures CutsFit(raw, limit)
  {
    hide Run, CutsFit, Utf8.Valid, BufferLimit.EventsFit, Flatten;
    forall chunks: seq<Bytes> | chunks != [] && Flatten(chunks) == raw ensures Run(EMPTY, chunks, limit).ok {
      BufferLimit.LimitSuffices(chunks, limit);
    }
    EveryCutPassesIff(raw, limit);
  }
}
