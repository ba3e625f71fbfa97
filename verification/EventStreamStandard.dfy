/**
 * Event streams as sections 9.2.5 and 9.2.6 of the WHATWG HTML Living Standard read them, and exactly
 * when the filter, which looks at each `data:` line by itself, dispatches what the standard does.
 */
module EventStreamStandard {
  import opened Prelude
  import opened SseFraming
  import Decoder = StreamDecoder
  import Utf8

  const BOM: Bytes := [0xEF, 0xBB, 0xBF]
  const COLON: byte := 58
  const DATA: Bytes := [100, 97, 116, 97]  // "data"

  /** One leading byte order mark is dropped. */
  function StripBom(raw: Bytes): Bytes { if BOM <= raw then raw[|BOM|..] else raw }

  /** The lines of each event; a blank line ends it, and an event without one is dropped. */
  function Events(pending: seq<Bytes>, lines: seq<Bytes>): seq<seq<Bytes>>
    decreases |lines|
  {
    if lines == [] then []
    else if lines[0] == [] then [pending] + Events([], lines[1..])
    else Events(pending + [lines[0]], lines[1..])
  }

  datatype Field = Field(name: Bytes, value: Bytes)

  function ColonAt(s: Bytes): (r: Option<nat>)
    ensures r.Some? ==> r.value < |s| && s[r.value] == COLON
  {
    if s == [] then None
    else if s[0] == COLON then Some(0)
    else match ColonAt(s[1..])
         case Some(i) => Some(i + 1)
         case None => None
  }

  /** Without a colon the whole line is the name; a comment has the empty name. */
  function FieldOf(line: Bytes): Field {
    match ColonAt(line)
    case None => Field(line, [])
    case Some(i) =>
      var v := line[i + 1..];
      Field(line[..i], if StartsWith(v, SPACE) then v[1..] else v)
  }

  /** The values of an event's data fields. */
  function EventData(lines: seq<Bytes>): seq<Bytes> {
    if lines == [] then []
    else (if FieldOf(lines[0]).name == DATA then [FieldOf(lines[0]).value] else []) + EventData(lines[1..])
  }

  function JoinData(values: seq<Bytes>): Bytes {
    if values == [] then []
    else if |values| == 1 then values[0]
    else values[0] + [LF] + JoinData(values[1..])
  }

  /** Each event with a data field is dispatched once, with all its data joined. */
  function DispatchEvents(events: seq<seq<Bytes>>): seq<Bytes> {
    if events == [] then []
    else (if EventData(events[0]) == [] then [] else [JoinData(EventData(events[0]))]) + DispatchEvents(events[1..])
  }

  function EventsIn(raw: Bytes): seq<seq<Bytes>> { Events([], EndedLines([], StripBom(raw))) }

  /** What the standard dispatches. */
  function StandardReading(raw: Bytes): seq<Bytes> { DispatchEvents(EventsIn(raw)) }

  /**
   * What a stream must do without: several data fields in an event, a data field without a colon, and
   * a byte order mark right before a data field.
   */
  predicate PlainData(raw: Bytes) {
    && (forall e | e in EventsIn(raw) :: PlainEvent(e))
    && (BOM <= raw && EventsIn(raw) != [] && EventsIn(raw)[0] != [] ==> FieldOf(EventsIn(raw)[0][0]).name != DATA)
  }

  // ---------------------------------------------------------------------------
  // Single lines
  // ---------------------------------------------------------------------------

  lemma {:induction false} FirstColon(s: Bytes, i: nat)
    requires i < |s| && s[i] == COLON && forall j | 0 <= j < i :: s[j] != COLON
    ensures ColonAt(s) == Some(i)
  {
    if i > 0 { FirstColon(s[1..], i - 1); }
  }

  /** The filter's reading of a line is the standard's, unless the line is a bare `data`. */
  lemma LineReading(line: Bytes)
    ensures PayloadsOfLine(line) == if FieldOf(line).name == DATA && line != DATA then [FieldOf(line).value] else []
    ensures FieldOf(DATA) == Field(DATA, [])
  {
    BareData();
    if DATA_FIELD <= line {
      FirstColon(line, 4);
      assert line[..4] == DATA;
    }
  }

  lemma BareData()
    ensures ColonAt(DATA) == None
  {
    assert DATA[1..] == [97, 116, 97] && DATA[2..] == [116, 97] && DATA[3..] == [97] && DATA[4..] == [];
    assert ColonAt(DATA[4..]) == None;
    assert ColonAt(DATA[3..]) == None;
    assert ColonAt(DATA[2..]) == None;
    assert ColonAt(DATA[1..]) == None;
  }

  predicate LfFree(lines: seq<Bytes>) { forall l | l in lines :: LF !in l }

  lemma {:induction false} LinesAreLfFree(line: Bytes, s: Bytes)
    requires LF !in line
    ensures LfFree(EndedLines(line, s))
    decreases |s|
  {
    if s != [] {
      if s[0] == CR {
        LinesAreLfFree([], if |s| > 1 && s[1] == LF then s[2..] else s[1..]);
      } else if s[0] == LF {
        LinesAreLfFree([], s[1..]);
      } else {
        LinesAreLfFree(line + [s[0]], s[1..]);
      }
    }
  }

  lemma {:induction false} EventsAreLfFree(pending: seq<Bytes>, lines: seq<Bytes>)
    requires LfFree(pending) && LfFree(lines)
    ensures forall e | e in Events(pending, lines) :: LfFree(e)
    decreases |lines|
  {
    if lines != [] {
      assert lines[0] in lines;
      assert LfFree(lines[1..]);
      if lines[0] == [] { EventsAreLfFree([], lines[1..]); } else { EventsAreLfFree(pending + [lines[0]], lines[1..]); }
    }
  }

  lemma {:induction false} PayloadsAreLfFree(lines: seq<Bytes>)
    requires LfFree(lines)
    ensures LfFree(PayloadsOfLines(lines))
  {
    if lines != [] {
      assert lines[0] in lines;
      PayloadsAreLfFree(lines[1..]);
    }
  }

  /** The filter never finds more data in an event than the standard, and as much if no line is bare. */
  lemma {:induction false} EventReading(lines: seq<Bytes>)
    ensures |PayloadsOfLines(lines)| <= |EventData(lines)|
    ensures |PayloadsOfLines(lines)| == |EventData(lines)| <==> DATA !in lines
    ensures DATA !in lines ==> PayloadsOfLines(lines) == EventData(lines)
  {
    if lines != [] {
      LineReading(lines[0]);
      EventReading(lines[1..]);
    }
  }

  // ---------------------------------------------------------------------------
  // Lists of events
  // ---------------------------------------------------------------------------

  /** What the filter dispatches of events whose lines it sees as `seen`. */
  function LinePayloads(seen: seq<seq<Bytes>>): seq<Bytes> {
    if seen == [] then [] else PayloadsOfLines(seen[0]) + LinePayloads(seen[1..])
  }

  /** The filter sees of each event at most what the standard sees, and finds at most that data. */
  predicate Sees(seen: seq<Bytes>, event: seq<Bytes>) {
    && LfFree(seen)
    && |PayloadsOfLines(seen)| <= |EventData(event)|
    && (|PayloadsOfLines(seen)| == |EventData(event)| ==> PayloadsOfLines(seen) == EventData(event))
  }

  predicate SeesAll(seen: seq<seq<Bytes>>, events: seq<seq<Bytes>>) {
    |seen| == |events| && forall i | 0 <= i < |events| :: Sees(seen[i], events[i])
  }

  predicate AllSingle(seen: seq<seq<Bytes>>, events: seq<seq<Bytes>>)
    requires |seen| == |events|
  {
    forall i | 0 <= i < |events| :: |EventData(events[i])| <= 1 && |PayloadsOfLines(seen[i])| == |EventData(events[i])|
  }

  lemma {:induction false} NeverMore(seen: seq<seq<Bytes>>, events: seq<seq<Bytes>>)
    requires SeesAll(seen, events)
    requires LfFree(DispatchEvents(events))
    ensures |LinePayloads(seen)| <= |DispatchEvents(events)|
    ensures |LinePayloads(seen)| == |DispatchEvents(events)| ==> AllSingle(seen, events)
  {
    if events != [] {
      var data := EventData(events[0]);
      var more := DispatchEvents(events[1..]);
      assert Sees(seen[0], events[0]);
      assert SeesAll(seen[1..], events[1..]) by {
        forall i | 0 <= i < |events[1..]| ensures Sees(seen[1..][i], events[1..][i]) {
          assert Sees(seen[i + 1], events[i + 1]);
        }
      }
      assert forall p | p in more :: p in DispatchEvents(events);
      if data != [] { assert JoinData(data) in DispatchEvents(events); }
      NeverMore(seen[1..], events[1..]);
      if |LinePayloads(seen)| == |DispatchEvents(events)| {
        forall i | 0 <= i < |events|
          ensures |EventData(events[i])| <= 1 && |PayloadsOfLines(seen[i])| == |EventData(events[i])|
        {
          if i > 0 { assert events[i] == events[1..][i - 1] && seen[i] == seen[1..][i - 1]; }
        }
      }
    }
  }

  lemma SingleSame(seen: seq<Bytes>, event: seq<Bytes>)
    requires Sees(seen, event) && |EventData(event)| <= 1 && |PayloadsOfLines(seen)| == |EventData(event)|
    ensures PayloadsOfLines(seen) == if EventData(event) == [] then [] else [JoinData(EventData(event))]
  {
  }

  lemma {:induction false} SingleMeansSame(seen: seq<seq<Bytes>>, events: seq<seq<Bytes>>)
    requires SeesAll(seen, events) && AllSingle(seen, events)
    ensures LinePayloads(seen) == DispatchEvents(events)
  {
    if events != [] {
      hide Sees, EventData, PayloadsOfLines;
      SingleSame(seen[0], events[0]);
      assert SeesAll(seen[1..], events[1..]) by {
        forall i | 0 <= i < |events[1..]| ensures Sees(seen[1..][i], events[1..][i]) {
          assert Sees(seen[i + 1], events[i + 1]);
        }
      }
      forall i | 0 <= i < |events[1..]|
        ensures |EventData(events[1..][i])| <= 1 && |PayloadsOfLines(seen[1..][i])| == |EventData(events[1..][i])|
      {
        assert events[1..][i] == events[i + 1] && seen[1..][i] == seen[i + 1];
      }
      SingleMeansSame(seen[1..], events[1..]);
    }
  }

  lemma {:induction false} LinePayloadsLfFree(seen: seq<seq<Bytes>>)
    requires forall g | g in seen :: LfFree(g)
    ensures LfFree(LinePayloads(seen))
  {
    if seen != [] {
      assert seen[0] in seen;
      PayloadsAreLfFree(seen[0]);
      LinePayloadsLfFree(seen[1..]);
    }
  }

  lemma SameIff(seen: seq<seq<Bytes>>, events: seq<seq<Bytes>>)
    requires SeesAll(seen, events)
    ensures LinePayloads(seen) == DispatchEvents(events) <==> AllSingle(seen, events)
  {
    if AllSingle(seen, events) { SingleMeansSame(seen, events); }
    if LinePayloads(seen) == DispatchEvents(events) {
      forall g | g in seen ensures LfFree(g) {
        var i :| 0 <= i < |seen| && seen[i] == g;
        assert Sees(seen[i], events[i]);
      }
      LinePayloadsLfFree(seen);
      NeverMore(seen, events);
    }
  }

  // ---------------------------------------------------------------------------
  // The byte order mark
  // ---------------------------------------------------------------------------

  lemma {:induction false} GroupedPayloads(pending: seq<Bytes>, lines: seq<Bytes>)
    ensures DispatchLines(PayloadsOfLines(pending), lines) == LinePayloads(Events(pending, lines))
    decreases |lines|
  {
    if lines != [] {
      if lines[0] == [] {
        GroupedPayloads([], lines[1..]);
        var events := [pending] + Events([], lines[1..]);
        assert events[1..] == Events([], lines[1..]);
      } else {
        PayloadsSnoc(pending, lines[0]);
        GroupedPayloads(pending + [lines[0]], lines[1..]);
      }
    }
  }

  lemma {:induction false} PayloadsSnoc(lines: seq<Bytes>, line: Bytes)
    ensures PayloadsOfLines(lines + [line]) == PayloadsOfLines(lines) + PayloadsOfLine(line)
  {
    if lines == [] {
      assert [line][1..] == [] && lines + [line] == [line];
    } else {
      ConsAppend(lines, [line]);
      PayloadsSnoc(lines[1..], line);
      Assoc(PayloadsOfLine(lines[0]), PayloadsOfLines(lines[1..]), PayloadsOfLine(line));
    }
  }

  lemma {:induction false} LinesFrom(line: Bytes, s: Bytes)
    ensures var l := EndedLines([], s);
            EndedLines(line, s) == if l == [] then [] else [line + l[0]] + l[1..]
    decreases |s|
  {
    assert line + [] == line;
    if s != [] && s[0] != CR && s[0] != LF {
      assert [] + [s[0]] == [s[0]];
      LinesFrom(line + [s[0]], s[1..]);
      LinesFrom([s[0]], s[1..]);
      var l := EndedLines([], s[1..]);
      if l != [] { assert line + [s[0]] + l[0] == line + ([s[0]] + l[0]); }
    }
  }

  /** The first line is not looked at. */
  function Masked(events: seq<seq<Bytes>>): seq<seq<Bytes>> {
    if events == [] || events[0] == [] then events else [events[0][1..]] + events[1..]
  }

  lemma {:induction false} EventsFrom(pending: seq<Bytes>, lines: seq<Bytes>)
    ensures var g := Events([], lines);
            Events(pending, lines) == if g == [] then [] else [pending + g[0]] + g[1..]
    decreases |lines|
  {
    if lines != [] {
      if lines[0] == [] {
        assert pending + [] == pending;
      } else {
        EventsFrom(pending + [lines[0]], lines[1..]);
        EventsFrom([lines[0]], lines[1..]);
        assert [] + [lines[0]] == [lines[0]];
        var g := Events([], lines[1..]);
        if g != [] { assert pending + [lines[0]] + g[0] == pending + ([lines[0]] + g[0]); }
      }
    }
  }

  lemma MarkedLineIsNoData(line: Bytes)
    ensures PayloadsOfLine(BOM + line) == [] && BOM + line != []
  {
    assert (BOM + line)[0] == 0xEF;
  }

  lemma SkipFirst(l0: Bytes, rest: seq<Bytes>)
    ensures LinePayloads(Masked(Events([], [l0] + rest))) == LinePayloads(Events([], rest))
  {
    hide Events, LinePayloads;
    var g := Events([], rest);
    FirstLine(l0, rest);
    if l0 == [] {
      PayloadsOfNothing(g);
    } else {
      EventsFrom([l0], rest);
      if g != [] { MaskedFirst(l0, g); }
    }
  }

  lemma FirstLine(l0: Bytes, rest: seq<Bytes>)
    ensures Events([], [l0] + rest) == if l0 == [] then [[]] + Events([], rest) else Events([l0], rest)
  {
    var lines, nothing: seq<Bytes> := [l0] + rest, [];
    assert lines[1..] == rest && nothing + [l0] == [l0];
  }

  lemma PayloadsOfNothing(events: seq<seq<Bytes>>)
    ensures LinePayloads([[]] + events) == LinePayloads(events)
  {
    var all := [[]] + events;
    assert all[1..] == events;
  }

  lemma MaskedFirst(l0: Bytes, events: seq<seq<Bytes>>)
    requires events != []
    ensures Masked([[l0] + events[0]] + events[1..]) == events
  {
    var first := [l0] + events[0];
    assert first[1..] == events[0] && [events[0]] + events[1..] == events;
  }

  /** The filter reads the events the standard reads, but not the first line after a byte order mark. */
  lemma LinesAsEvents(raw: Bytes)
    ensures ReadByLines(raw) == LinePayloads(if BOM <= raw then Masked(EventsIn(raw)) else EventsIn(raw))
  {
    var s := StripBom(raw);
    var l := EndedLines([], s);
    GroupedPayloads([], EndedLines([], raw));
    if BOM <= raw {
      assert raw == BOM + s;
      MarkIsInLine(s);
      LinesFrom(BOM, s);
      if l != [] {
        var marked := [BOM + l[0]] + l[1..];
        MarkedLineIsNoData(l[0]);
        assert marked[1..] == l[1..] && [l[0]] + l[1..] == l;
        var none: seq<Bytes> := [];
        assert marked[0] == BOM + l[0] && none + PayloadsOfLine(marked[0]) == none;
        assert DispatchLines([], marked) == DispatchLines([], l[1..]);
        GroupedPayloads([], l[1..]);
        SkipFirst(l[0], l[1..]);
      }
    }
  }

  lemma MarkIsInLine(s: Bytes)
    ensures EndedLines([], BOM + s) == EndedLines(BOM, s)
  {
    var a: Bytes, b: Bytes, c: Bytes := BOM + s, [0xBB, 0xBF] + s, [0xBF] + s;
    assert a[1..] == b && b[1..] == c && c[1..] == s;
    var x: Bytes, y: Bytes := [0xEF], [0xEF, 0xBB];
    assert [] + [a[0]] == x && x + [b[0]] == y && y + [c[0]] == BOM;
    assert EndedLines([], a) == EndedLines(x, b) == EndedLines(y, c) == EndedLines(BOM, s);
  }

  // ---------------------------------------------------------------------------
  // The result
  // ---------------------------------------------------------------------------

  /** An event whose every line is single, with its colon. */
  predicate PlainEvent(event: seq<Bytes>) { |EventData(event)| <= 1 && DATA !in event }

  lemma SeesEvent(event: seq<Bytes>)
    requires LfFree(event)
    ensures Sees(event, event)
    ensures |PayloadsOfLines(event)| == |EventData(event)| <==> DATA !in event
  {
    EventReading(event);
  }

  lemma SeesMaskedEvent(event: seq<Bytes>)
    requires LfFree(event) && event != []
    ensures Sees(event[1..], event)
    ensures |PayloadsOfLines(event[1..])| == |EventData(event)| <==> DATA !in event && FieldOf(event[0]).name != DATA
  {
    hide PayloadsOfLines, EventData, LfFree, FieldOf, Sees;
    var rest := event[1..];
    assert forall l :: l in event <==> l == event[0] || l in rest;
    EventReading(rest);
    FirstLineData(event);
    RestIsLfFree(event);
    MaskedSees(rest, event);
  }

  lemma FirstLineData(event: seq<Bytes>)
    requires event != []
    ensures EventData(event) ==
            (if FieldOf(event[0]).name == DATA then [FieldOf(event[0]).value] else []) + EventData(event[1..])
    ensures event[0] == DATA ==> FieldOf(event[0]).name == DATA
  {
    LineReading(event[0]);
  }

  lemma RestIsLfFree(event: seq<Bytes>)
    requires event != [] && LfFree(event)
    ensures LfFree(event[1..])
  {
  }

  lemma MaskedSees(rest: seq<Bytes>, event: seq<Bytes>)
    requires LfFree(rest) && |PayloadsOfLines(rest)| <= |EventData(rest)|
    requires |PayloadsOfLines(rest)| == |EventData(rest)| ==> PayloadsOfLines(rest) == EventData(rest)
    requires EventData(event) == EventData(rest) || |EventData(event)| == 1 + |EventData(rest)|
    ensures Sees(rest, event)
  {
  }

  lemma SeesEvents(events: seq<seq<Bytes>>)
    requires forall e | e in events :: LfFree(e)
    ensures SeesAll(events, events)
    ensures AllSingle(events, events) <==> forall e | e in events :: PlainEvent(e)
  {
    hide Sees, EventData, LfFree;
    forall i | 0 <= i < |events|
      ensures Sees(events[i], events[i])
      ensures |PayloadsOfLines(events[i])| == |EventData(events[i])| <==> DATA !in events[i]
    {
      assert events[i] in events;
      SeesEvent(events[i]);
    }
    assert (forall e | e in events :: PlainEvent(e)) <==> forall i | 0 <= i < |events| :: PlainEvent(events[i]);
  }

  lemma SeesMaskedEvents(events: seq<seq<Bytes>>)
    requires forall e | e in events :: LfFree(e)
    ensures SeesAll(Masked(events), events)
    ensures AllSingle(Masked(events), events) <==>
            && (forall e | e in events :: PlainEvent(e))
            && (events != [] && events[0] != [] ==> FieldOf(events[0][0]).name != DATA)
  {
    hide Sees, EventData, LfFree, FieldOf, PayloadsOfLines;
    SeesEvents(events);
    if events != [] && events[0] != [] {
      assert events[0] in events;
      SeesMaskedEvent(events[0]);
      var seen := Masked(events);
      forall i | 0 <= i < |events|
        ensures Sees(seen[i], events[i])
        ensures |PayloadsOfLines(seen[i])| == |EventData(events[i])| <==>
                DATA !in events[i] && (i == 0 ==> FieldOf(events[0][0]).name != DATA)
        ensures |PayloadsOfLines(events[i])| == |EventData(events[i])| <==> DATA !in events[i]
      {
        assert events[i] in events;
        SeesEvent(events[i]);
        assert i > 0 ==> seen[i] == events[i];
      }
    }
  }

  /** The filter dispatches exactly what the standard does if and only if the stream's data is plain. */
  lemma ReadingIsStandardIff(raw: Bytes)
    ensures ReadByLines(raw) == StandardReading(raw) <==> PlainData(raw)
  {
    var events := EventsIn(raw);
    LinesAreLfFree([], StripBom(raw));
    EventsAreLfFree([], EndedLines([], StripBom(raw)));
    SeesEvents(events);
    SeesMaskedEvents(events);
    LinesAsEvents(raw);
    SameIff(if BOM <= raw then Masked(events) else events, events);
  }

  /** So for every valid UTF-8 stream, however it was cut. */
  lemma DispatchIsStandardIff(chunks: seq<Bytes>, limit: nat)
    requires chunks != [] && Utf8.Valid(Flatten(chunks)) && Decoder.Run(Decoder.EMPTY, chunks, limit).ok
    ensures var log := Decoder.Run(Decoder.EMPTY, chunks, limit).log;
            Decoder.PayloadsOfLog(log) == StandardReading(Flatten(chunks)) <==> PlainData(Flatten(chunks))
  {
    hide PlainData, StandardReading, ReadByLines;
    assert [] + Flatten(chunks) == Flatten(chunks);
    Decoder.RunDispatchesWhole(Decoder.EMPTY, chunks, limit);
    ReadingIsStandardIff(Flatten(chunks));
  }
}
