/**
 * The completion a stream's chunks add up to when tool call fragments are put together by their
 * index, and exactly when the filter, which goes by ids alone, puts together the same.
 */
module IndexedCompletion {
  import opened Prelude
  import opened JsonValues
  import opened EventTranslator
  import opened StreamAgreement
  import Chat = ChatResponse

  /** Tool call fragments up to the first `[DONE]`. */
  function FragmentsOf(items: seq<Item>): seq<ToolFragment> {
    if items == [] || items[0].Done? then []
    else FragmentsIn(items[0]) + FragmentsOf(items[1..])
  }

  const NO_CALL := Chat.ToolCall(None, Some(""), Some(""))

  /** A later id replaces the earlier one, names and arguments are appended. */
  function Merge(call: Chat.ToolCall, tc: ToolFragment): Chat.ToolCall {
    Chat.ToolCall(if tc.id.Some? then tc.id else call.id,
                  Some(call.name.GetOr("") + tc.name.GetOr("")),
                  Some(call.arguments.GetOr("") + tc.arguments.GetOr("")))
  }

  function Place(calls: seq<Chat.ToolCall>, tc: ToolFragment): seq<Chat.ToolCall> {
    var room := if tc.index < |calls| then calls else calls + seq(tc.index + 1 - |calls|, _ => NO_CALL);
    room[tc.index := Merge(room[tc.index], tc)]
  }

  /** The completion, its calls put together by index. */
  function IndexedDraft(items: seq<Item>): Draft {
    DraftOf(BLANK_DRAFT, items).(calls := Fold(Place, [], FragmentsOf(items)))
  }

  /** Calls are announced in order of index, each once, with its id and name, before more of it comes. */
  predicate Announced(n: nat, tcs: seq<ToolFragment>)
    decreases |tcs|
  {
    tcs == [] ||
    if tcs[0].id.Some? then tcs[0].index == n && Announced(n + 1, tcs[1..])
    else tcs[0].index < n && tcs[0].name.GetOr("") == "" && Announced(n, tcs[1..])
  }

  /** Arguments always belong to the call announced last. */
  predicate Sequential(n: nat, tcs: seq<ToolFragment>)
    decreases |tcs|
  {
    tcs == [] ||
    if tcs[0].id.Some? then Sequential(n + 1, tcs[1..])
    else (tcs[0].arguments.GetOr("") == "" || tcs[0].index + 1 == n) && Sequential(n, tcs[1..])
  }

  lemma {:induction false} DraftCalls(d: Draft, items: seq<Item>)
    ensures DraftOf(d, items).calls == Fold(AddFragment, d.calls, FragmentsOf(items))
    decreases |items|
  {
    if items != [] && !items[0].Done? {
      var first := FragmentsIn(items[0]);
      FoldAppend(AddFragment, d.calls, first, FragmentsOf(items[1..]));
      DraftCalls(if items[0].Data? then AddChunk(d, items[0].chunk) else d, items[1..]);
    }
  }

  predicate AllWhole(calls: seq<Chat.ToolCall>) { forall c | c in calls :: WholeCall(c) }

  lemma NewCallAlike(calls: seq<Chat.ToolCall>, tc: ToolFragment)
    requires AllWhole(calls) && tc.id.Some? && tc.index == |calls|
    ensures AddFragment(calls, tc) == Place(calls, tc) && AllWhole(Place(calls, tc))
  {
    var name, args := tc.name.GetOr(""), tc.arguments.GetOr("");
    assert "" + name == name && "" + args == args;
    var call := Merge(NO_CALL, tc);
    assert call == Chat.ToolCall(tc.id, Some(name), Some(args));
    var room := calls + seq(1, _ => NO_CALL);
    assert room[tc.index := call] == calls + [call];
  }

  lemma MergeArguments(call: Chat.ToolCall, tc: ToolFragment)
    requires WholeCall(call) && tc.id.None? && tc.name.GetOr("") == ""
    ensures Merge(call, tc) == call.(arguments := Some(call.arguments.value + tc.arguments.GetOr("")))
    ensures tc.arguments.GetOr("") == "" ==> Merge(call, tc) == call
  {
    assert call.name.value + "" == call.name.value && call.arguments.value + "" == call.arguments.value;
  }

  lemma MoreArgumentsAlike(calls: seq<Chat.ToolCall>, tc: ToolFragment)
    requires AllWhole(calls) && tc.id.None? && tc.name.GetOr("") == "" && tc.index < |calls|
    requires tc.arguments.GetOr("") == "" || tc.index + 1 == |calls|
    ensures AddFragment(calls, tc) == Place(calls, tc) && AllWhole(Place(calls, tc))
  {
    hide Merge;
    var last := |calls| - 1;
    assert calls[tc.index] in calls && calls[last] in calls;
    MergeArguments(calls[tc.index], tc);
    MergeArguments(calls[last], tc);
    var call := Merge(calls[tc.index], tc);
    assert calls[last := Merge(calls[last], tc)] == calls[tc.index := call];
    forall c | c in calls[tc.index := call] ensures WholeCall(c) { assert c == call || c in calls; }
  }

  function ArgumentLength(call: Chat.ToolCall): nat { |call.arguments.GetOr("")| }

  /** Once a call that is not the last one anymore got arguments of its own, the two never meet again. */
  lemma {:induction false} NeverMeet(a: seq<Chat.ToolCall>, b: seq<Chat.ToolCall>, i: nat, tcs: seq<ToolFragment>)
    requires |a| == |b| && i + 1 < |a| && ArgumentLength(a[i]) < ArgumentLength(b[i])
    requires Announced(|a|, tcs)
    ensures Fold(AddFragment, a, tcs) != Fold(Place, b, tcs)
    decreases |tcs|
  {
    if tcs != [] {
      var a', b' := AddFragment(a, tcs[0]), Place(b, tcs[0]);
      assert a'[i] == a[i] && ArgumentLength(b[i]) <= ArgumentLength(b'[i]);
      NeverMeet(a', b', i, tcs[1..]);
    }
  }

  lemma {:induction false} MergedAlikeIff(calls: seq<Chat.ToolCall>, tcs: seq<ToolFragment>)
    requires AllWhole(calls) && Announced(|calls|, tcs)
    ensures Fold(AddFragment, calls, tcs) == Fold(Place, calls, tcs) <==> Sequential(|calls|, tcs)
    decreases |tcs|
  {
    if tcs != [] {
      var tc := tcs[0];
      if tc.id.Some? || tc.arguments.GetOr("") == "" || tc.index + 1 == |calls| {
        if tc.id.Some? { NewCallAlike(calls, tc); } else { MoreArgumentsAlike(calls, tc); }
        MergedAlikeIff(Place(calls, tc), tcs[1..]);
      } else {
        NeverMeet(AddFragment(calls, tc), Place(calls, tc), tc.index, tcs[1..]);
      }
    }
  }

  /**
   * For every stream that announces its calls in order: going by ids puts together the completion that
   * going by indices does, if and only if arguments always belong to the call announced last.
   */
  lemma SameCompletionIff(items: seq<Item>)
    requires Announced(0, FragmentsOf(items))
    ensures DraftOf(BLANK_DRAFT, items) == IndexedDraft(items) <==> Sequential(0, FragmentsOf(items))
  {
    DraftCalls(BLANK_DRAFT, items);
    MergedAlikeIff([], FragmentsOf(items));
  }

  /** Without that order the two can meet again by coincidence, so there is no such equivalence for all streams. */
  lemma CoincidenceOutOfOrder()
    ensures var a, x0 := ToolFragment(0, Some("a"), None, None), ToolFragment(0, None, None, Some("x"));
            var b, x1 := ToolFragment(1, Some("b"), None, None), ToolFragment(1, None, None, Some("x"));
            var tcs := [a, x1, x0, b, x0];
            Fold(AddFragment, [], tcs) == Fold(Place, [], tcs) && !Announced(0, tcs) && !Sequential(0, tcs)
  {
    hide AddFragment, Place;
    var a, x0 := ToolFragment(0, Some("a"), None, None), ToolFragment(0, None, None, Some("x"));
    var b, x1 := ToolFragment(1, Some("b"), None, None), ToolFragment(1, None, None, Some("x"));
    var tcs := [a, x1, x0, b, x0];
    assert tcs[1..] == [x1, x0, b, x0];
    OutOfOrderById(a, x1, x0, b);
    OutOfOrderByIndex(a, x1, x0, b);
  }

  lemma FiveSteps<S, E>(step: (S, E) -> S, s: S, a: E, b: E, c: E, d: E, e: E)
    ensures Fold(step, s, [a, b, c, d, e]) == step(step(step(step(step(s, a), b), c), d), e)
  {
    assert [a, b, c, d, e] == [a] + [b, c] + [d, e];
    FoldOne(step, s, a);
    FoldTwo(step, step(s, a), b, c);
    FoldTwo(step, step(step(step(s, a), b), c), d, e);
    FoldAppend(step, s, [a], [b, c]);
    FoldAppend(step, s, [a] + [b, c], [d, e]);
  }

  function TwoCalls(): seq<Chat.ToolCall> {
    [Chat.ToolCall(Some("a"), Some(""), Some("xx")), Chat.ToolCall(Some("b"), Some(""), Some("x"))]
  }

  lemma OutOfOrderById(a: ToolFragment, x1: ToolFragment, x0: ToolFragment, b: ToolFragment)
    requires a == ToolFragment(0, Some("a"), None, None) && x0 == ToolFragment(0, None, None, Some("x"))
    requires b == ToolFragment(1, Some("b"), None, None) && x1 == ToolFragment(1, None, None, Some("x"))
    ensures Fold(AddFragment, [], [a, x1, x0, b, x0]) == TwoCalls()
  {
    FiveSteps(AddFragment, [], a, x1, x0, b, x0);
    var one := AddFragment([], a);
    assert one == [Chat.ToolCall(Some("a"), Some(""), Some(""))];
    var two := AddFragment(AddFragment(one, x1), x0);
    assert two == [Chat.ToolCall(Some("a"), Some(""), Some("xx"))] by { assert "" + "x" + "x" == "xx"; }
    var three := AddFragment(two, b);
    assert "" + "x" == "x";
    assert AddFragment(three, x0) == TwoCalls();
  }

  lemma OutOfOrderByIndex(a: ToolFragment, x1: ToolFragment, x0: ToolFragment, b: ToolFragment)
    requires a == ToolFragment(0, Some("a"), None, None) && x0 == ToolFragment(0, None, None, Some("x"))
    requires b == ToolFragment(1, Some("b"), None, None) && x1 == ToolFragment(1, None, None, Some("x"))
    ensures Fold(Place, [], [a, x1, x0, b, x0]) == TwoCalls()
  {
    hide Place;
    FiveSteps(Place, [], a, x1, x0, b, x0);
    assert "" + "" == "" && "" + "x" == "x" && "x" + "" == "x" && "x" + "x" == "xx";
    PlaceNext([], a);
    assert [] + [Merge(NO_CALL, a)] == [Merge(NO_CALL, a)];
    var one := [Chat.ToolCall(Some("a"), Some(""), Some(""))];
    PlaceNext(one, x1);
    var two := one + [Chat.ToolCall(None, Some(""), Some("x"))];
    PlaceAt(two, x0);
    var three := two[0 := Chat.ToolCall(Some("a"), Some(""), Some("x"))];
    PlaceAt(three, b);
    var four := three[1 := Chat.ToolCall(Some("b"), Some(""), Some("x"))];
    PlaceAt(four, x0);
    assert Place([], a) == one && Place(one, x1) == two && Place(two, x0) == three && Place(three, b) == four;
    assert four[0 := TwoCalls()[0]] == TwoCalls();
  }

  lemma PlaceNext(calls: seq<Chat.ToolCall>, tc: ToolFragment)
    requires tc.index == |calls|
    ensures Place(calls, tc) == calls + [Merge(NO_CALL, tc)]
  {
  }

  lemma PlaceAt(calls: seq<Chat.ToolCall>, tc: ToolFragment)
    requires tc.index < |calls|
    ensures Place(calls, tc) == calls[tc.index := Merge(calls[tc.index], tc)]
  {
  }

  /**
   * Streaming agrees with non-streaming: for every well-ordered stream whose calls are announced in
   * order and not interleaved, a client collects the content, stop reason and output tokens of the
   * non-streaming translation of the completion, its calls put together by index.
   */
  lemma StreamingAgrees(parse: Parser, id: string, items: seq<Item>)
    requires WellOrdered(items)
    requires Announced(0, FragmentsOf(items)) && Sequential(0, FragmentsOf(items))
    ensures Matches(parse, CollectAll(NOTHING, Transform(id, INITIAL, items).events), IndexedDraft(items))
  {
    SameCompletionIff(items);
    StreamingFollowsIds(parse, id, items);
  }

  // ---------------------------------------------------------------------------
  // Interleaved calls come out wrong
  // ---------------------------------------------------------------------------

  /** A parser that loses nothing of the arguments it is given. */
  ghost predicate TellsApart(parse: Parser) {
    forall a, b :: Chat.InputOf(parse, a) == Chat.InputOf(parse, b) ==> a == b
  }

  lemma {:induction false} UsesTellCalls(parse: Parser, a: seq<Chat.ToolCall>, b: seq<Chat.ToolCall>)
    requires TellsApart(parse) && AllWhole(a) && AllWhole(b)
    requires Chat.ToolUses(parse, a) == Chat.ToolUses(parse, b)
    ensures a == b
  {
    var x, y := Chat.ToolUses(parse, a), Chat.ToolUses(parse, b);
    assert |a| == |x| == |y| == |b|;
    if a != [] {
      assert a[0] in a && b[0] in b;
      assert x[0] == Chat.ToolUseOf(parse, a[0]) && y[0] == Chat.ToolUseOf(parse, b[0]);
      assert x[1..] == Chat.ToolUses(parse, a[1..]) && y[1..] == Chat.ToolUses(parse, b[1..]);
      UsesTellCalls(parse, a[1..], b[1..]);
      assert a == [a[0]] + a[1..] && b == [b[0]] + b[1..];
    }
  }

  /** Whichever way announced fragments are put together, the calls are whole. */
  lemma {:induction false} CallsAreWhole(a: seq<Chat.ToolCall>, b: seq<Chat.ToolCall>, tcs: seq<ToolFragment>)
    requires |a| == |b| && AllWhole(a) && AllWhole(b) && Announced(|a|, tcs)
    ensures AllWhole(Fold(AddFragment, a, tcs)) && AllWhole(Fold(Place, b, tcs))
    decreases |tcs|
  {
    if tcs != [] {
      OneMoreWhole(a, b, tcs[0]);
      CallsAreWhole(AddFragment(a, tcs[0]), Place(b, tcs[0]), tcs[1..]);
    }
  }

  lemma OneMoreWhole(a: seq<Chat.ToolCall>, b: seq<Chat.ToolCall>, tc: ToolFragment)
    requires |a| == |b| && AllWhole(a) && AllWhole(b)
    requires if tc.id.Some? then tc.index == |a| else tc.index < |a|
    ensures AllWhole(AddFragment(a, tc)) && AllWhole(Place(b, tc))
    ensures |AddFragment(a, tc)| == |Place(b, tc)| == if tc.id.Some? then |a| + 1 else |a|
  {
    if tc.id.Some? {
      PlaceNext(b, tc);
    } else {
      assert a[|a| - 1] in a && b[tc.index] in b;
      PlaceAt(b, tc);
    }
  }

  /**
   * The completion put together by index is what a client collects, under a parser that loses nothing,
   * if and only if arguments always belong to the call announced last.
   */
  lemma AgreesUnderIff(parse: Parser, id: string, items: seq<Item>)
    requires TellsApart(parse) && WellOrdered(items) && Announced(0, FragmentsOf(items))
    ensures Matches(parse, CollectAll(NOTHING, Transform(id, INITIAL, items).events), IndexedDraft(items)) <==>
            Sequential(0, FragmentsOf(items))
  {
    hide Transform, CollectAll, Chat.ToolUses, Chat.TextBlocks, Rendered, Sequential, Announced, FragmentsOf, DraftOf;
    var c := CollectAll(NOTHING, Transform(id, INITIAL, items).events);
    var own, indexed := DraftOf(BLANK_DRAFT, items), IndexedDraft(items);
    SameCompletionIff(items);
    StreamingFollowsIds(parse, id, items);
    if Matches(parse, c, indexed) {
      Cancel(Chat.TextBlocks(Some(own.content)), Chat.ToolUses(parse, own.calls), Chat.ToolUses(parse, indexed.calls));
      DraftCalls(BLANK_DRAFT, items);
      CallsAreWhole([], [], FragmentsOf(items));
      UsesTellCalls(parse, own.calls, indexed.calls);
    }
  }

  /**
   * Streaming agrees with non-streaming, exactly: for every well-ordered stream that announces its
   * calls in order, a client collects, whatever the parser, the non-streaming translation of the
   * completion put together by index, if and only if calls are not interleaved.
   */
  lemma StreamingAgreesIff(id: string, items: seq<Item>)
    requires WellOrdered(items) && Announced(0, FragmentsOf(items))
    ensures AgreesForAll(CollectAll(NOTHING, Transform(id, INITIAL, items).events), IndexedDraft(items)) <==>
            Sequential(0, FragmentsOf(items))
  {
    hide Transform, CollectAll, Matches, Sequential, Announced, FragmentsOf, IndexedDraft;
    var verbatim: Parser := s => Some(Str(s));
    assert TellsApart(verbatim);
    AgreesUnderIff(verbatim, id, items);
    if Sequential(0, FragmentsOf(items)) {
      forall parse: Parser
        ensures Matches(parse, CollectAll(NOTHING, Transform(id, INITIAL, items).events), IndexedDraft(items))
      {
        StreamingAgrees(parse, id, items);
      }
    }
  }

  ghost predicate AgreesForAll(c: Collected, d: Draft) { forall parse: Parser :: Matches(parse, c, d) }

  /** With text strictly before tools and `[DONE]` last, the blocks agree one for one, empty texts aside. */
  lemma StreamingAgreesBlockForBlock(parse: Parser, id: string, items: seq<Item>)
    requires WellOrdered(items) && TextBeforeTools(false, items)
    requires Announced(0, FragmentsOf(items)) && Sequential(0, FragmentsOf(items))
    requires forall i | 0 <= i < |items| - 1 :: !items[i].Done?
    ensures Direct(parse, CollectAll(NOTHING, Transform(id, INITIAL, items).events).blocks) ==
            Chat.ContentBlocks(parse, CompletionOf(IndexedDraft(items)))
  {
    SameCompletionIff(items);
    BlocksFollowIds(parse, id, items);
  }
}
