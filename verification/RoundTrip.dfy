/** A chat completion's message, answered to an Anthropic client and sent back in the next request. */
module RoundTrip {
  import opened Prelude
  import opened JsonValues
  import opened ChatRequest
  import Chat = ChatResponse

  /** The block a client sends back for a block it received. */
  function SentBack(b: Chat.ContentBlock): Block {
    match b
    case Text(t) => TextBlock(Some(t))
    case ToolUse(id, name, input) => ToolUseBlock(Some(id), Some(name), Some(input))
  }

  function AllSentBack(blocks: seq<Chat.ContentBlock>): seq<Block> {
    if blocks == [] then [] else [SentBack(blocks[0])] + AllSentBack(blocks[1..])
  }

  function Returned(parse: Parser, show: Printer, m: Chat.ChatMessage): seq<Message> {
    Converted(show, "assistant", AllSentBack(Chat.MessageBlocks(parse, m)))
  }

  /** Text and calls of an assistant turn, however it is written. */
  function Reading(messages: seq<Message>): (string, seq<FunctionCall>) {
    if |messages| != 1 then ("", [])
    else match messages[0]
         case Turn(_, Plain(t)) => (t, [])
         case CallTurn(text, calls) => (text.GetOr(""), calls)
         case _ => ("", [])
  }

  function OriginalCall(tc: Chat.ToolCall): FunctionCall {
    FunctionCall(tc.id.GetOr(""), tc.name.GetOr(""), tc.arguments.GetOr("{}"))
  }

  function CallsInMessage(tcs: seq<Chat.ToolCall>): seq<FunctionCall> {
    if tcs == [] then [] else [OriginalCall(tcs[0])] + CallsInMessage(tcs[1..])
  }

  function OriginalReading(m: Chat.ChatMessage): (string, seq<FunctionCall>) {
    (m.content.GetOr(""), CallsInMessage(m.toolCalls.GetOr([])))
  }

  /** Arguments as the JSON printer itself would write them. */
  predicate Canonical(parse: Parser, show: Printer, arguments: string) {
    match parse(arguments)
    case Some(value) => show(value) == arguments
    case None => show(Obj([])) == arguments
  }

  predicate AllCanonical(parse: Parser, show: Printer, tcs: seq<Chat.ToolCall>) {
    forall tc | tc in tcs :: Canonical(parse, show, tc.arguments.GetOr("{}"))
  }

  lemma {:induction false} SentBackAppend(a: seq<Chat.ContentBlock>, b: seq<Chat.ContentBlock>)
    ensures AllSentBack(a + b) == AllSentBack(a) + AllSentBack(b)
  {
    if a == [] {
      assert a + b == b;
    } else {
      assert (a + b)[1..] == a[1..] + b;
      SentBackAppend(a[1..], b);
      Assoc([SentBack(a[0])], AllSentBack(a[1..]), AllSentBack(b));
    }
  }

  lemma {:induction false} CallsSentBack(parse: Parser, show: Printer, tcs: seq<Chat.ToolCall>)
    ensures var blocks := AllSentBack(Chat.ToolUses(parse, tcs));
            var calls := CallsIn(show, blocks);
            && NoResults(blocks)
            && TextsIn(blocks) == []
            && |calls| == |tcs|
            && (calls == CallsInMessage(tcs) <==> AllCanonical(parse, show, tcs))
  {
    if tcs != [] {
      var uses := Chat.ToolUses(parse, tcs);
      assert uses[1..] == Chat.ToolUses(parse, tcs[1..]);
      CallsSentBack(parse, show, tcs[1..]);
      var blocks := AllSentBack(uses);
      assert blocks[1..] == AllSentBack(uses[1..]);
      assert forall b | b in blocks :: b == blocks[0] || b in blocks[1..];
      var calls := CallsIn(show, blocks);
      assert calls == [CallOf(show, blocks[0])] + calls[1..];
      assert CallsInMessage(tcs)[1..] == CallsInMessage(tcs[1..]);
      assert calls == CallsInMessage(tcs) <==>
             calls[0] == OriginalCall(tcs[0]) && calls[1..] == CallsInMessage(tcs[1..]);
      assert AllCanonical(parse, show, tcs) <==>
             Canonical(parse, show, tcs[0].arguments.GetOr("{}")) && AllCanonical(parse, show, tcs[1..]);
    }
  }

  lemma ReturnedText(show: Printer, text: string)
    requires text != ""
    ensures Converted(show, "assistant", [TextBlock(Some(text))]) == [Turn("assistant", Plain(text))]
  {
    var blocks := [TextBlock(Some(text))];
    assert blocks[1..] == [];
    var a := ConvertBlocks(show, "assistant", EMPTY_ACC, blocks);
    assert a == ConvertBlocks(show, "assistant", ConvertBlock(show, "assistant", EMPTY_ACC, blocks[0]), []);
    var texts := [text];
    assert texts[1..] == [] && Flatten(texts) == text + Flatten([]) && text + [] == text;
    assert a == Acc([], texts, [TextPart(text)], []);
  }

  /**
   * Response, then request: the assistant turn that comes back has the same text and the same tool
   * calls (id, name, arguments) in order, exactly when every call's arguments are canonical JSON.
   */
  lemma ResponseThenRequest(parse: Parser, show: Printer, m: Chat.ChatMessage)
    ensures Reading(Returned(parse, show, m)) == OriginalReading(m) <==>
            AllCanonical(parse, show, m.toolCalls.GetOr([]))
  {
    var tcs := m.toolCalls.GetOr([]);
    var texts, uses := Chat.TextBlocks(m.content), Chat.ToolUses(parse, tcs);
    SentBackAppend(texts, uses);
    CallsSentBack(parse, show, tcs);
    var head, tail := AllSentBack(texts), AllSentBack(uses);
    if texts == [] {
      assert head + tail == tail;
      if tcs != [] { SingleCallMessage(show, tail); }
    } else {
      var text := m.content.value;
      assert texts[1..] == [] && head == [TextBlock(Some(text))];
      if tcs == [] {
        assert head + tail == head;
        ReturnedText(show, text);
      } else {
        TextThenCalls(show, text, tail);
      }
    }
  }

  lemma TextThenCalls(show: Printer, text: string, tail: seq<Block>)
    requires NoResults(tail) && TextsIn(tail) == [] && CallsIn(show, tail) != []
    ensures Converted(show, "assistant", [TextBlock(Some(text))] + tail) == [CallTurn(Some(text), CallsIn(show, tail))]
  {
    var head := [TextBlock(Some(text))];
    var blocks := head + tail;
    assert blocks[1..] == tail;
    var single := [text];
    assert TextsIn(blocks) == single + [] == single && single[1..] == [];
    assert Flatten(single) == text + Flatten([]) == text;
    assert CallsIn(show, blocks) == [] + CallsIn(show, tail) == CallsIn(show, tail);
    assert forall b | b in blocks :: b == blocks[0] || b in tail;
    SingleCallMessage(show, blocks);
  }

  /** Nothing comes back for a message with neither text nor calls; otherwise exactly one message. */
  lemma OneMessageUnlessEmpty(parse: Parser, show: Printer, m: Chat.ChatMessage)
    ensures |Returned(parse, show, m)| ==
            if m.content.GetOr("") == "" && m.toolCalls.GetOr([]) == [] then 0 else 1
  {
    var tcs := m.toolCalls.GetOr([]);
    var texts, uses := Chat.TextBlocks(m.content), Chat.ToolUses(parse, tcs);
    SentBackAppend(texts, uses);
    CallsSentBack(parse, show, tcs);
    var head, tail := AllSentBack(texts), AllSentBack(uses);
    var blocks := head + tail;
    if texts == [] {
      assert blocks == tail;
      if tcs != [] { SingleCallMessage(show, tail); }
    } else {
      assert texts[1..] == [] && head == [TextBlock(Some(m.content.value))];
      if tcs == [] {
        assert blocks == head;
        ReturnedText(show, m.content.value);
      } else {
        TextThenCalls(show, m.content.value, tail);
      }
    }
  }
}
