/** Turning a (non-streaming) chat completion into the content of an Anthropic message. */
module ChatResponse {
  import opened Prelude
  import opened JsonValues

  datatype ToolCall = ToolCall(id: Option<string>, name: Option<string>, arguments: Option<string>)

  datatype ChatMessage = ChatMessage(content: Option<string>, toolCalls: Option<seq<ToolCall>>)

  datatype ChatChoice = ChatChoice(message: Option<ChatMessage>, finishReason: Option<string>)

  datatype ChatUsage = ChatUsage(
    promptTokens: Option<nat>,
    completionTokens: Option<nat>,
    cachedTokens: Option<nat>)

  /** A completion: its first choice, if any, and its usage member. */
  datatype Completion = Completion(choice: Option<ChatChoice>, usage: Option<ChatUsage>)

  datatype ContentBlock = Text(text: string) | ToolUse(id: string, name: string, input: Json)

  datatype Usage = Usage(inputTokens: nat, outputTokens: nat, cacheReadInputTokens: Option<nat>)

  function TextBlocks(content: Option<string>): seq<ContentBlock> {
    if content.GetOr("") == "" then [] else [Text(content.value)]
  }

  /** Arguments that are missing, or are not JSON, become an empty object. */
  function InputOf(parse: Parser, arguments: string): Json { parse(arguments).GetOr(EMPTY_OBJECT) }

  function ToolUseOf(parse: Parser, tc: ToolCall): ContentBlock {
    ToolUse(tc.id.GetOr(""), tc.name.GetOr(""), InputOf(parse, tc.arguments.GetOr("{}")))
  }

  function ToolUses(parse: Parser, tcs: seq<ToolCall>): (r: seq<ContentBlock>)
    ensures |r| == |tcs|
  {
    if tcs == [] then [] else [ToolUseOf(parse, tcs[0])] + ToolUses(parse, tcs[1..])
  }

  lemma {:induction false} ToolUsesAppend(parse: Parser, a: seq<ToolCall>, b: seq<ToolCall>)
    ensures ToolUses(parse, a + b) == ToolUses(parse, a) + ToolUses(parse, b)
  {
    if a == [] {
      assert a + b == b;
    } else {
      assert (a + b)[1..] == a[1..] + b;
      ToolUsesAppend(parse, a[1..], b);
      Assoc([ToolUseOf(parse, a[0])], ToolUses(parse, a[1..]), ToolUses(parse, b));
    }
  }

  lemma ToolUsesSnoc(parse: Parser, tcs: seq<ToolCall>, i: nat)
    requires i < |tcs|
    ensures ToolUses(parse, tcs[..i + 1]) == ToolUses(parse, tcs[..i]) + [ToolUseOf(parse, tcs[i])]
  {
    assert tcs[..i + 1] == tcs[..i] + [tcs[i]];
    ToolUsesAppend(parse, tcs[..i], [tcs[i]]);
    assert [tcs[i]][1..] == [];
  }

  function MessageBlocks(parse: Parser, m: ChatMessage): seq<ContentBlock> {
    TextBlocks(m.content) + ToolUses(parse, m.toolCalls.GetOr([]))
  }

  function ContentBlocks(parse: Parser, c: Completion): seq<ContentBlock> {
    if c.choice.Some? && c.choice.value.message.Some? then MessageBlocks(parse, c.choice.value.message.value)
    else []
  }

  /** The Anthropic stop reason, and the original reason kept beside it. */
  function MapFinishReason(c: Completion): (string, string) {
    var reason := if c.choice.Some? then c.choice.value.finishReason.GetOr("stop") else "stop";
    (if reason == "tool_calls" then "tool_use" else if reason == "length" then "max_tokens" else "end_turn", reason)
  }

  function BuildUsage(c: Completion): Usage {
    match c.usage
    case None => Usage(0, 0, None)
    case Some(u) => Usage(u.promptTokens.GetOr(0), u.completionTokens.GetOr(0), u.cachedTokens)
  }

  /** The loop of the code: blocks are pushed one by one onto a shared vector. */
  method BuildContentBlocks(parse: Parser, c: Completion) returns (blocks: seq<ContentBlock>)
    ensures blocks == ContentBlocks(parse, c)
  {
    blocks := [];
    if c.choice.None? || c.choice.value.message.None? {
      return;
    }
    var message := c.choice.value.message.value;
    if message.content.Some? && message.content.value != "" {
      blocks := blocks + [Text(message.content.value)];
    }
    if message.toolCalls.None? {
      return;
    }
    var tcs := message.toolCalls.value;
    for i := 0 to |tcs|
      invariant blocks == TextBlocks(message.content) + ToolUses(parse, tcs[..i])
    {
      var tc := tcs[i];
      var arguments := if tc.arguments.Some? then tc.arguments.value else "{}";
      var parsed := parse(arguments);
      var input := if parsed.Some? then parsed.value else EMPTY_OBJECT;
      blocks := blocks + [ToolUse(tc.id.GetOr(""), tc.name.GetOr(""), input)];
      ToolUsesSnoc(parse, tcs, i);
      Assoc(TextBlocks(message.content), ToolUses(parse, tcs[..i]), [ToolUseOf(parse, tc)]);
    }
    assert tcs[..|tcs|] == tcs;
  }
  // ---------------------------------------------------------------------------
  // The answer, from the fields of the completion
  // ---------------------------------------------------------------------------

  function SaidIn(c: Completion): string {
    match c
    case Completion(Some(ChatChoice(Some(ChatMessage(Some(content), _)), _)), _) => content
    case _ => ""
  }

  function AskedIn(c: Completion): seq<ToolCall> {
    match c
    case Completion(Some(ChatChoice(Some(ChatMessage(_, Some(tcs))), _)), _) => tcs
    case _ => []
  }

  /** The block asks for this call: missing names are empty, arguments that are not JSON an empty object. */
  predicate AsksFor(parse: Parser, b: ContentBlock, tc: ToolCall) {
    && b.ToolUse?
    && b.id == (match tc.id { case Some(id) => id case None => "" })
    && b.name == (match tc.name { case Some(name) => name case None => "" })
    && match parse(match tc.arguments { case Some(arguments) => arguments case None => "{}" })
       case Some(input) => b.input == input
       case None => b.input == Obj([])
  }

  lemma {:induction false} CallsAreAskedFor(parse: Parser, tcs: seq<ToolCall>)
    ensures forall i | 0 <= i < |tcs| :: AsksFor(parse, ToolUses(parse, tcs)[i], tcs[i])
  {
    if tcs != [] {
      CallsAreAskedFor(parse, tcs[1..]);
      var rest := ToolUses(parse, tcs[1..]);
      assert ToolUses(parse, tcs)[1..] == rest;
      forall i | 0 <= i < |tcs| ensures AsksFor(parse, ToolUses(parse, tcs)[i], tcs[i]) {
        if i > 0 { assert ToolUses(parse, tcs)[i] == rest[i - 1] && tcs[i] == tcs[1..][i - 1]; }
      }
    }
  }

  /** The text first, if there is any, then one block for each call, in their order, and nothing else. */
  lemma BlocksAreListed(parse: Parser, c: Completion)
    ensures var blocks := ContentBlocks(parse, c);
            var first := if SaidIn(c) == "" then 0 else 1;
            && |blocks| == first + |AskedIn(c)|
            && (first == 1 ==> blocks[0] == Text(SaidIn(c)))
            && forall i | 0 <= i < |AskedIn(c)| :: AsksFor(parse, blocks[first + i], AskedIn(c)[i])
  {
    hide AsksFor;
    CallsAreAskedFor(parse, AskedIn(c));
  }

  /** The stop reason and usage are those the completion's own members tell. */
  lemma EndIsTold(c: Completion)
    ensures MapFinishReason(c) ==
            match c
            case Completion(Some(ChatChoice(_, Some("tool_calls"))), _) => ("tool_use", "tool_calls")
            case Completion(Some(ChatChoice(_, Some("length"))), _) => ("max_tokens", "length")
            case Completion(Some(ChatChoice(_, Some(reason))), _) => ("end_turn", reason)
            case _ => ("end_turn", "stop")
    ensures match c
            case Completion(_, None) => BuildUsage(c) == Usage(0, 0, None)
            case Completion(_, Some(ChatUsage(prompt, completion, cached))) =>
              && BuildUsage(c).inputTokens == (match prompt { case Some(n) => n case None => 0 })
              && BuildUsage(c).outputTokens == (match completion { case Some(n) => n case None => 0 })
              && BuildUsage(c).cacheReadInputTokens == cached
  {
  }
}
