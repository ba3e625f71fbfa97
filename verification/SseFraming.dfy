/**
 * Cutting a stream of text chunks into server-sent-event blocks.
 *
 * The first half is what the filter does with one chunk: normalise line endings, split on blank
 * lines, read the `data:` lines of each block.  The second half is a line-at-a-time reading in the
 * manner of section 9.2.5 of the WHATWG HTML Living Standard, and the proof that blocks dispatch what
 * lines do.  Exactly when that is all the standard asks for is the subject of `EventStreamStandard`.
 */
module SseFraming {
  import opened Prelude

  const CR: byte := 13
  const LF: byte := 10
  const BLANK: Bytes := [LF, LF]
  const DATA_FIELD: Bytes := [100, 97, 116, 97, 58]  // "data:"
  const SPACE: byte := 32

  predicate EndsWith(s: Bytes, b: byte) { s != [] && s[|s| - 1] == b }

  predicate EndsInTwoCr(s: Bytes) { |s| >= 2 && s[|s| - 2] == CR && s[|s| - 1] == CR }

  predicate StartsWith(s: Bytes, b: byte) { s != [] && s[0] == b }

  // ---------------------------------------------------------------------------
  // Line endings
  // ---------------------------------------------------------------------------

  function ReplaceCrLf(s: Bytes): Bytes {
    if s == [] then []
    else if |s| >= 2 && s[0] == CR && s[1] == LF then [LF] + ReplaceCrLf(s[2..])
    else [s[0]] + ReplaceCrLf(s[1..])
  }

  function ReplaceCr(s: Bytes): Bytes {
    if s == [] then [] else [if s[0] == CR then LF else s[0]] + ReplaceCr(s[1..])
  }

  /** Every CRLF, lone CR and LF becomes one LF, in one pass. */
  function NormalizeLineEndings(s: Bytes): Bytes {
    if s == [] then []
    else if s[0] == CR && StartsWith(s[1..], LF) then [LF] + NormalizeLineEndings(s[2..])
    else [if s[0] == CR then LF else s[0]] + NormalizeLineEndings(s[1..])
  }

  /** The two `replace` calls of the filter amount to that single pass. */
  lemma {:induction false} TwoReplacements(s: Bytes)
    ensures ReplaceCr(ReplaceCrLf(s)) == NormalizeLineEndings(s)
  {
    if s != [] {
      var k := if s[0] == CR && StartsWith(s[1..], LF) then 2 else 1;
      TwoReplacements(s[k..]);
      assert ReplaceCrLf(s)[1..] == ReplaceCrLf(s[k..]);
    }
  }

  lemma {:induction false} NormalizeAppend(a: Bytes, b: Bytes)
    requires !(EndsWith(a, CR) && StartsWith(b, LF))
    ensures NormalizeLineEndings(a + b) == NormalizeLineEndings(a) + NormalizeLineEndings(b)
  {
    if a == [] {
      assert a + b == b;
    } else if a[0] == CR && StartsWith(a[1..], LF) {
      assert (a + b)[2..] == a[2..] + b;
      NormalizeAppend(a[2..], b);
      Assoc([LF], NormalizeLineEndings(a[2..]), NormalizeLineEndings(b));
    } else {
      assert (a + b)[1..] == a[1..] + b;
      NormalizeAppend(a[1..], b);
      Assoc([if a[0] == CR then LF else a[0]], NormalizeLineEndings(a[1..]), NormalizeLineEndings(b));
    }
  }

  lemma {:induction false} NormalizeHasNoCr(s: Bytes)
    ensures CR !in NormalizeLineEndings(s)
  {
    if s != [] {
      NormalizeHasNoCr(s[1..]);
      if |s| >= 2 { NormalizeHasNoCr(s[2..]); }
    }
  }

  lemma {:induction false} NormalizeFixesCrFree(s: Bytes)
    requires CR !in s
    ensures NormalizeLineEndings(s) == s
  {
    if s != [] { NormalizeFixesCrFree(s[1..]); }
  }

  // ---------------------------------------------------------------------------
  // Blocks
  // ---------------------------------------------------------------------------

  /** Position of the first blank line, where `split_once("\n\n")` cuts. */
  function BlankAt(s: Bytes): (r: Option<nat>)
    ensures r.Some? ==> r.value + 2 <= |s| && s[r.value] == LF && s[r.value + 1] == LF
  {
    if |s| < 2 then None
    else if s[0] == LF && s[1] == LF then Some(0)
    else match BlankAt(s[1..])
         case Some(i) => Some(i + 1)
         case None => None
  }

  function BlocksOf(s: Bytes): seq<Bytes> {
    match BlankAt(s)
    case Some(i) => [s[..i]] + BlocksOf(s[i + 2..])
    case None => []
  }

  function RestOf(s: Bytes): Bytes {
    match BlankAt(s)
    case Some(i) => RestOf(s[i + 2..])
    case None => s
  }

  /** The first block and the blank line after it come off. */
  lemma CutBlock(s: Bytes)
    ensures match BlankAt(s)
            case None => BlocksOf(s) == [] && RestOf(s) == s
            case Some(i) => BlocksOf(s) == [s[..i]] + BlocksOf(s[i + 2..]) && RestOf(s) == RestOf(s[i + 2..])
  {
  }

  lemma {:induction false} BlankAtAppend(s: Bytes, t: Bytes)
    requires BlankAt(s).Some?
    ensures BlankAt(s + t) == BlankAt(s)
  {
    if !(s[0] == LF && s[1] == LF) {
      assert (s + t)[1..] == s[1..] + t;
      BlankAtAppend(s[1..], t);
    }
  }

  lemma {:induction false} BlocksAppend(s: Bytes, t: Bytes)
    ensures BlocksOf(s + t) == BlocksOf(s) + BlocksOf(RestOf(s) + t)
    ensures RestOf(s + t) == RestOf(RestOf(s) + t)
  {
    match BlankAt(s) {
      case None =>
      case Some(i) =>
        BlankAtAppend(s, t);
        assert (s + t)[..i] == s[..i];
        assert (s + t)[i + 2..] == s[i + 2..] + t;
        BlocksAppend(s[i + 2..], t);
        Assoc([s[..i]], BlocksOf(s[i + 2..]), BlocksOf(RestOf(s) + t));
    }
  }

  /** What is left after splitting is the end of the text, holds no blank line and no stray CR. */
  lemma {:induction false} RestIsTail(s: Bytes)
    ensures BlankAt(RestOf(s)).None?
    ensures |RestOf(s)| <= |s| && RestOf(s) == s[|s| - |RestOf(s)|..]
  {
    match BlankAt(s) {
      case None =>
      case Some(i) => RestIsTail(s[i + 2..]);
    }
  }

  lemma {:induction false} BlankFreeEnd(s: Bytes)
    requires BlankAt(s).None? && |s| >= 2
    ensures !(s[|s| - 2] == LF && s[|s| - 1] == LF)
  {
    if |s| > 2 { BlankFreeEnd(s[1..]); }
  }

  lemma RestAfterBlank(s: Bytes)
    requires |s| >= 2 && s[|s| - 2] == LF && s[|s| - 1] == LF
    ensures RestOf(s) == [] || RestOf(s) == [LF]
  {
    RestIsTail(s);
    if |RestOf(s)| >= 2 { BlankFreeEnd(RestOf(s)); }
  }

  // ---------------------------------------------------------------------------
  // Data lines
  // ---------------------------------------------------------------------------

  function LfAt(s: Bytes): (r: Option<nat>)
    ensures r.Some? ==> r.value < |s| && s[r.value] == LF && LF !in s[..r.value]
    ensures r.None? ==> LF !in s
  {
    if s == [] then None
    else if s[0] == LF then Some(0)
    else match LfAt(s[1..])
         case Some(i) => Some(i + 1)
         case None => None
  }

  function StripCr(line: Bytes): Bytes {
    if EndsWith(line, CR) then line[..|line| - 1] else line
  }

  /** Rust's `str::lines`. */
  function Lines(s: Bytes): seq<Bytes> {
    if s == [] then []
    else match LfAt(s)
         case Some(i) => [StripCr(s[..i])] + Lines(s[i + 1..])
         case None => [s]
  }

  /** The value of a `data:` line, with one optional space after the colon removed. */
  function DataOf(line: Bytes): Option<Bytes> {
    if DATA_FIELD <= line then
      var d := line[|DATA_FIELD|..];
      Some(if StartsWith(d, SPACE) then d[1..] else d)
    else None
  }

  function PayloadsOfLine(line: Bytes): seq<Bytes> {
    match DataOf(line)
    case Some(d) => [d]
    case None => []
  }

  function PayloadsOfLines(lines: seq<Bytes>): seq<Bytes> {
    if lines == [] then []
    else PayloadsOfLine(lines[0]) + PayloadsOfLines(lines[1..])
  }

  function PayloadsOf(blocks: seq<Bytes>): seq<Bytes> {
    if blocks == [] then [] else PayloadsOfLines(Lines(blocks[0])) + PayloadsOf(blocks[1..])
  }

  lemma {:induction false} PayloadsOfAppend(a: seq<Bytes>, b: seq<Bytes>)
    ensures PayloadsOf(a + b) == PayloadsOf(a) + PayloadsOf(b)
  {
    if a == [] {
      assert a + b == b;
    } else {
      PayloadsOfAppend(a[1..], b);
      assert (a + b)[1..] == a[1..] + b;
      Assoc(PayloadsOfLines(Lines(a[0])), PayloadsOf(a[1..]), PayloadsOf(b));
    }
  }

  // ---------------------------------------------------------------------------
  // One chunk
  // ---------------------------------------------------------------------------

  datatype Framed = Framed(blocks: seq<Bytes>, buffer: Bytes)

  /** A lone trailing CR is held back: the next chunk may start with the LF of a CRLF pair. */
  predicate DefersCr(combined: Bytes, endOfStream: bool) {
    && !endOfStream
    && EndsWith(combined, CR)
    && !(|combined| >= 2 && combined[|combined| - 2] == CR)
  }

  function FrameChunk(leftover: Bytes, chunk: Bytes, endOfStream: bool): Framed {
    var combined := leftover + chunk;
    if DefersCr(combined, endOfStream) then
      var text := NormalizeLineEndings(combined[..|combined| - 1]);
      Framed(BlocksOf(text), RestOf(text) + [CR])
    else
      var text := NormalizeLineEndings(combined);
      Framed(BlocksOf(text), RestOf(text))
  }

  // ---------------------------------------------------------------------------
  // Reference: reading line by line
  // ---------------------------------------------------------------------------

  /** Lines ended by CR, LF or CRLF; `line` is the part of the current line already read. */
  function EndedLines(line: Bytes, s: Bytes): seq<Bytes>
    decreases |s|
  {
    if s == [] then []
    else if s[0] == CR then [line] + EndedLines([], if |s| > 1 && s[1] == LF then s[2..] else s[1..])
    else if s[0] == LF then [line] + EndedLines([], s[1..])
    else EndedLines(line + [s[0]], s[1..])
  }

  /** A blank line dispatches the data read since the previous one; data without one is dropped. */
  function DispatchLines(pending: seq<Bytes>, lines: seq<Bytes>): seq<Bytes>
    decreases |lines|
  {
    if lines == [] then []
    else if lines[0] == [] then pending + DispatchLines([], lines[1..])
    else DispatchLines(pending + PayloadsOfLine(lines[0]), lines[1..])
  }

  function ReadByLines(raw: Bytes): seq<Bytes> { DispatchLines([], EndedLines([], raw)) }

  lemma {:induction false} NormalizingKeepsLines(line: Bytes, s: Bytes)
    ensures EndedLines(line, NormalizeLineEndings(s)) == EndedLines(line, s)
    decreases |s|
  {
    if s != [] {
      var n := NormalizeLineEndings(s);
      if s[0] == CR && StartsWith(s[1..], LF) {
        assert n[1..] == NormalizeLineEndings(s[2..]);
        NormalizingKeepsLines([], s[2..]);
      } else {
        assert n[1..] == NormalizeLineEndings(s[1..]);
        NormalizingKeepsLines(if s[0] == CR || s[0] == LF then [] else line + [s[0]], s[1..]);
      }
    }
  }

  lemma {:induction false} LineThenLf(line: Bytes, x: Bytes, rest: Bytes)
    requires CR !in x && LF !in x
    ensures EndedLines(line, x + [LF] + rest) == [line + x] + EndedLines([], rest)
    decreases |x|
  {
    var s := x + [LF] + rest;
    if x == [] {
      assert s[1..] == rest && line + x == line;
    } else {
      assert s[0] == x[0] && s[1..] == x[1..] + [LF] + rest;
      LineThenLf(line + [x[0]], x[1..], rest);
      assert line + [x[0]] + x[1..] == line + x;
    }
  }

  lemma {:induction false} UnendedLine(line: Bytes, x: Bytes)
    requires CR !in x && LF !in x
    ensures EndedLines(line, x) == []
    decreases |x|
  {
    if x != [] { UnendedLine(line + [x[0]], x[1..]); }
  }

  lemma {:induction false} LfAtIsFirst(s: Bytes, j: nat)
    requires j < |s| && s[j] == LF
    ensures LfAt(s).Some? && LfAt(s).value <= j
  {
    if s[0] != LF { LfAtIsFirst(s[1..], j - 1); }
  }

  lemma LinesUnfold(x: Bytes, tail: Bytes)
    requires CR !in x && LF !in x
    ensures Lines(x + [LF] + tail) == [x] + Lines(tail)
  {
    var s := x + [LF] + tail;
    var i := LfAt(s).value;
    assert s[|x|] == LF;
    LfAtIsFirst(s, |x|);
    assert s[..i] == x && s[i + 1..] == tail;
  }

  lemma LinesOf(s: Bytes)
    requires s != []
    ensures LfAt(s).None? ==> Lines(s) == [s]
  {
  }

  lemma BlockCut(x: Bytes, tail: Bytes, rest: Bytes)
    ensures x + [LF] + tail + BLANK + rest == x + [LF] + (tail + BLANK + rest)
    ensures [] + x == x
  {
  }

  lemma BlankCut(block: Bytes, rest: Bytes)
    ensures block + BLANK + rest == block + [LF] + ([LF] + rest)
    ensures [] + block == block
  {
  }

  /** A block and the blank line after it end the block's own lines and an empty one. */
  lemma {:induction false} BlockLines(block: Bytes, rest: Bytes)
    requires CR !in block && block != [] && !EndsWith(block, LF)
    ensures EndedLines([], block + BLANK + rest) == Lines(block) + [[]] + EndedLines([], rest)
  {
    hide EndedLines, LfAt, Lines;
    LinesOf(block);
    match LfAt(block) {
      case Some(i) =>
        var x, tail := block[..i], block[i + 1..];
        var nothing: Bytes := [];
        assert block == x + [LF] + tail;
        LinesUnfold(x, tail);
        BlockCut(x, tail, rest);
        LineThenLf(nothing, x, tail + BLANK + rest);
        BlockLines(tail, rest);
        Assoc([x], Lines(tail) + [[]], EndedLines([], rest));
        Assoc([x], Lines(tail), [[]]);
      case None =>
        var nothing: Bytes := [];
        BlankCut(block, rest);
        LineThenLf(nothing, block, [LF] + rest);
        LineThenLf(nothing, nothing, rest);
        assert nothing + [LF] + rest == [LF] + rest && nothing + nothing == nothing;
        Assoc([block], [[]], EndedLines([], rest));
    }
  }

  lemma {:induction false} DispatchBlock(pending: seq<Bytes>, lines: seq<Bytes>, more: seq<Bytes>)
    ensures DispatchLines(pending, lines + [[]] + more) ==
            pending + PayloadsOfLines(lines) + DispatchLines([], more)
    decreases |lines|
  {
    hide DispatchLines, PayloadsOfLines, PayloadsOfLine;
    NothingPending();
    if lines == [] {
      assert lines + [[]] + more == [[]] + more && pending + [] == pending;
      DispatchCons(pending, [], more);
    } else {
      var line, tail := lines[0], lines[1..];
      var all := tail + [[]] + more;
      assert lines == [line] + tail && lines + [[]] + more == [line] + all;
      DispatchCons(pending, line, all);
      PayloadsCons(line, tail);
      if line == [] {
        DispatchBlock([], tail, more);
        Assoc(pending, PayloadsOfLines(tail), DispatchLines([], more));
        assert [] + PayloadsOfLines(tail) == PayloadsOfLines(tail);
      } else {
        DispatchBlock(pending + PayloadsOfLine(line), tail, more);
        Assoc(pending, PayloadsOfLine(line), PayloadsOfLines(tail));
      }
    }
  }

  lemma NothingPending()
    ensures PayloadsOfLines([]) == [] && PayloadsOfLine([]) == []
  {
  }

  lemma DispatchCons(pending: seq<Bytes>, line: Bytes, more: seq<Bytes>)
    ensures DispatchLines(pending, [line] + more) ==
            if line == [] then pending + DispatchLines([], more)
            else DispatchLines(pending + PayloadsOfLine(line), more)
  {
    assert ([line] + more)[1..] == more;
  }

  lemma PayloadsCons(line: Bytes, more: seq<Bytes>)
    ensures PayloadsOfLines([line] + more) == PayloadsOfLine(line) + PayloadsOfLines(more)
  {
    assert ([line] + more)[1..] == more;
  }

  lemma {:induction false} BlankAtIsFirst(s: Bytes)
    requires BlankAt(s).Some?
    ensures !EndsWith(s[..BlankAt(s).value], LF)
  {
    var i := BlankAt(s).value;
    if i > 0 {
      BlankAtIsFirst(s[1..]);
      assert s[..i][1..] == s[1..][..i - 1];
    }
  }

  lemma {:induction false} NothingWithoutBlank(pending: seq<Bytes>, s: Bytes)
    requires CR !in s && BlankAt(s).None? && !StartsWith(s, LF)
    ensures DispatchLines(pending, EndedLines([], s)) == []
    decreases |s|
  {
    match LfAt(s) {
      case None => UnendedLine([], s);
      case Some(i) =>
        var x, tail := s[..i], s[i + 1..];
        assert s == x + [LF] + tail;
        LineThenLf([], x, tail);
        assert [] + x == x;
        BlankFreeTail(s, i);
        NothingWithoutBlank(pending + PayloadsOfLine(x), tail);
    }
  }

  lemma {:induction false} BlankFreeTail(s: Bytes, i: nat)
    requires BlankAt(s).None? && i < |s| && s[i] == LF
    ensures !StartsWith(s[i + 1..], LF) && BlankAt(s[i + 1..]).None?
  {
    if i > 0 {
      BlankFreeTail(s[1..], i - 1);
      assert s[1..][i..] == s[i + 1..];
    }
  }

  lemma EmptyLineIsSilent(more: seq<Bytes>)
    ensures DispatchLines([], [[]] + more) == DispatchLines([], more)
  {
    assert ([[]] + more)[1..] == more;
  }

  lemma EmptyBlockLines(rest: Bytes)
    ensures EndedLines([], BLANK + rest) == [[]] + ([[]] + EndedLines([], rest))
  {
    LineThenLf([], [], [LF] + rest);
    LineThenLf([], [], rest);
    assert [] + [LF] + ([LF] + rest) == BLANK + rest;
    assert [] + [LF] + rest == [LF] + rest;
  }

  lemma NoLines()
    ensures PayloadsOfLines(Lines([])) == []
  {
  }

  lemma FirstBlockDispatch(block: Bytes, rest: Bytes)
    requires CR !in block && !EndsWith(block, LF)
    ensures DispatchLines([], EndedLines([], block + BLANK + rest)) ==
            PayloadsOfLines(Lines(block)) + DispatchLines([], EndedLines([], rest))
  {
    hide Lines, EndedLines, DispatchLines, PayloadsOfLines;
    var more := EndedLines([], rest);
    if block == [] {
      NoLines();
      assert block + BLANK + rest == BLANK + rest && [] + DispatchLines([], more) == DispatchLines([], more);
      EmptyBlockLines(rest);
      EmptyLineIsSilent(more);
      EmptyLineIsSilent([[]] + more);
    } else {
      BlockLines(block, rest);
      DispatchBlock([], Lines(block), more);
      assert [] + PayloadsOfLines(Lines(block)) == PayloadsOfLines(Lines(block));
    }
  }

  /** Splitting normalised text into blocks dispatches what reading it line by line does. */
  lemma {:induction false} BlocksDispatchAsLines(s: Bytes)
    requires CR !in s
    ensures PayloadsOf(BlocksOf(s)) == DispatchLines([], EndedLines([], s))
    decreases |s|
  {
    match BlankAt(s) {
      case None =>
        if StartsWith(s, LF) {
          BlankFreeTail(s, 0);
          NothingWithoutBlank([], s[1..]);
          EmptyLineIsSilent(EndedLines([], s[1..]));
        } else {
          NothingWithoutBlank([], s);
        }
      case Some(i) =>
        var block, rest := s[..i], s[i + 2..];
        assert s == block + BLANK + rest;
        BlankAtIsFirst(s);
        FirstBlockDispatch(block, rest);
        BlocksDispatchAsLines(rest);
        assert BlocksOf(s)[1..] == BlocksOf(rest);
    }
  }

  lemma NormalizedDispatch(raw: Bytes)
    ensures PayloadsOf(BlocksOf(NormalizeLineEndings(raw))) == ReadByLines(raw)
  {
    hide NormalizeLineEndings, BlocksOf, EndedLines, DispatchLines, PayloadsOf;
    NormalizeHasNoCr(raw);
    NormalizingKeepsLines([], raw);
    BlocksDispatchAsLines(NormalizeLineEndings(raw));
  }

  lemma LeadingBlankIsSilent(raw: Bytes)
    ensures ReadByLines([LF] + raw) == ReadByLines(raw)
  {
    assert ([LF] + raw)[1..] == raw;
  }
}
