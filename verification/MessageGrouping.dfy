/**
 * How the pieces of one Anthropic message are grouped into chat messages: tool results stand alone and
 * every stretch between them is one message.
 */
module MessageGrouping {
  import opened Prelude
  import opened JsonValues
  import opened ChatRequest

  function PartsOf(pieces: seq<Piece>): seq<Part> {
    if pieces == [] then []
    else (match pieces[0]
          case SaidText(_, text) => [TextPart(text)]
          case SaidImage(_, url) => [ImagePart(url)]
          case Answered(_, _) => []) + PartsOf(pieces[1..])
  }

  /** The message a stretch of texts and images is: a lone text is written plainly. */
  function OneTurn(role: string, pieces: seq<Piece>): seq<Message> {
    if pieces == [] then []
    else if |pieces| == 1 && pieces[0].SaidText? then [Turn(role, Plain(pieces[0].text))]
    else [Turn(role, Parts(PartsOf(pieces)))]
  }

  /** The messages a tool result is: the answer, then a user's message with all its images. */
  function AnswerTurns(b: Block): seq<Message>
    requires b.ToolResultBlock?
  {
    var pieces := AnswerPieces(b.toolUseId, b.content);
    [ToolTurn(pieces[0].id, pieces[0].result)] +
    if |pieces| == 1 then [] else [Turn("user", Parts(PartsOf(pieces[1..])))]
  }

  lemma {:induction false} PartsReadBack(role: string, parts: seq<Part>)
    ensures PartsOf(PartPieces(role, parts)) == parts && |PartPieces(role, parts)| == |parts|
  {
    if parts != [] {
      PartsReadBack(role, parts[1..]);
      assert PartPieces(role, parts)[1..] == PartPieces(role, parts[1..]);
    }
  }

  lemma ResultIsAnswered(b: Block)
    requires b.ToolResultBlock?
    ensures ResultMessages(b) == AnswerTurns(b)
  {
    hide ResultImagesOf, AnswerImages, PartsOf, PartPieces;
    AnswerIsSpelled(b.content, "");
    var pieces := AnswerPieces(b.toolUseId, b.content);
    if b.content.ResultParts? {
      ImagesAreShown(b.content.parts);
      PartsReadBack("user", ResultImagesOf(b.content.parts));
      assert pieces[1..] == AnswerImages(b.content.parts);
    }
  }

  lemma FlushedIsOneTurn(role: string, a: Acc)
    requires Paired(a)
    ensures Flush(role, a).messages == a.messages + OneTurn(role, PartPieces(role, a.parts))
  {
    hide PartsOf;
    PartsReadBack(role, a.parts);
    if |a.parts| == 1 {
      assert a.parts[1..] == [];
      assert TextsOf(a.parts[1..]) == [];
      if a.parts[0].TextPart? { FlattenOne(a.parts[0].text); }
    }
  }

  /** Without tool results and gathered calls there is one message, or none if nothing is supported. */
  lemma StretchIsOneTurn(show: Printer, role: string, blocks: seq<Block>)
    requires NoResults(blocks) && (role != "assistant" || CallsIn(show, blocks) == [])
    ensures Converted(show, role, blocks) == OneTurn(role, SupportedPieces(role, blocks))
  {
    hide ConvertBlocks, SupportedPieces, CallsIn, PartPieces, Flush, OneTurn, Pieces;
    var r := ConvertBlocks(show, role, EMPTY_ACC, blocks);
    BlocksKeepPieces(show, role, EMPTY_ACC, blocks);
    NoResultsAccumulate(show, role, EMPTY_ACC, blocks);
    FlushedIsOneTurn(role, r);
    NothingRead(role);
    var pieces, read := PartPieces(role, r.parts), SupportedPieces(role, blocks);
    assert [] + pieces == pieces && [] + read == read;
    assert [] + CallsIn(show, blocks) == CallsIn(show, blocks);
    var turns := OneTurn(role, pieces);
    assert [] + turns == turns;
  }

  lemma NothingRead(role: string)
    ensures Pieces([]) == [] && AccPieces(role, EMPTY_ACC) == []
  {
  }

  /** What was converted before stays in front. */
  function Before(m: seq<Message>, calls: seq<FunctionCall>, a: Acc): Acc {
    Acc(m + a.messages, a.texts, a.parts, calls + a.calls)
  }

  lemma FlushBefore(role: string, m: seq<Message>, calls: seq<FunctionCall>, a: Acc)
    ensures Flush(role, Before(m, calls, a)) == Before(m, calls, Flush(role, a))
  {
  }

  lemma BlockBefore(show: Printer, role: string, m: seq<Message>, calls: seq<FunctionCall>, a: Acc, b: Block)
    ensures ConvertBlock(show, role, Before(m, calls, a), b) == Before(m, calls, ConvertBlock(show, role, a, b))
  {
    FlushBefore(role, m, calls, a);
  }

  lemma {:induction false} BlocksBefore(show: Printer, role: string, m: seq<Message>, calls: seq<FunctionCall>,
                                        a: Acc, blocks: seq<Block>)
    ensures ConvertBlocks(show, role, Before(m, calls, a), blocks) ==
            Before(m, calls, ConvertBlocks(show, role, a, blocks))
    decreases |blocks|
  {
    if blocks != [] {
      BlockBefore(show, role, m, calls, a, blocks[0]);
      BlocksBefore(show, role, m, calls, ConvertBlock(show, role, a, blocks[0]), blocks[1..]);
    }
  }

  /** A tool result ends the message before it and stands alone; what follows it starts afresh. */
  lemma ResultsStandAlone(show: Printer, role: string, x: seq<Block>, b: Block, y: seq<Block>)
    requires b.ToolResultBlock?
    requires role != "assistant" || CallsIn(show, x + [b] + y) == []
    ensures Converted(show, role, x + [b] + y) == Converted(show, role, x) + AnswerTurns(b) + Converted(show, role, y)
  {
    hide ConvertBlocks, CallsIn, Flush, AnswerTurns, SupportedPieces;
    var h := ConvertBlocks(show, role, EMPTY_ACC, x);
    var r := ConvertBlocks(show, role, EMPTY_ACC, y);
    AfterResult(show, role, x, b, y);
    BlocksKeepPieces(show, role, EMPTY_ACC, x);
    BlocksKeepPieces(show, role, EMPTY_ACC, y);
    CallsInAppend(show, x + [b], y);
    CallsInAppend(show, x, [b]);
    assert [] + CallsIn(show, x) == CallsIn(show, x) && [] + CallsIn(show, y) == CallsIn(show, y);
    FlushBefore(role, Flush(role, h).messages + AnswerTurns(b), h.calls, r);
  }

  lemma AfterResult(show: Printer, role: string, x: seq<Block>, b: Block, y: seq<Block>)
    requires b.ToolResultBlock?
    ensures var h := ConvertBlocks(show, role, EMPTY_ACC, x);
            ConvertBlocks(show, role, EMPTY_ACC, x + [b] + y) ==
            Before(Flush(role, h).messages + AnswerTurns(b), h.calls, ConvertBlocks(show, role, EMPTY_ACC, y))
  {
    hide ConvertBlocks, AnswerTurns, SupportedPieces, CallsIn;
    var h := ConvertBlocks(show, role, EMPTY_ACC, x);
    BlocksKeepPieces(show, role, EMPTY_ACC, x);
    FlushKeepsPieces(role, h);
    ResultIsAnswered(b);
    var f := ConvertBlock(show, role, h, b);
    ConvertBlocksAppend(show, role, EMPTY_ACC, x + [b], y);
    ConvertBlocksAppend(show, role, EMPTY_ACC, x, [b]);
    OneBlock(show, role, h, b);
    var m := Flush(role, h).messages + AnswerTurns(b);
    assert m + [] == m && h.calls + [] == h.calls;
    assert f == Before(m, h.calls, EMPTY_ACC);
    BlocksBefore(show, role, m, h.calls, EMPTY_ACC, y);
  }

  lemma OneBlock(show: Printer, role: string, a: Acc, b: Block)
    ensures ConvertBlocks(show, role, a, [b]) == ConvertBlock(show, role, a, b)
  {
    assert [b][1..] == [];
  }

  /** A string is one plain message, anything that is neither a string nor a list an empty one. */
  lemma BodiesAreTurns(show: Printer, m: AnthropicMessage)
    ensures match m
            case AnthropicMessage(Some(role), BodyText(t)) => ConvertMessage(show, m) == [Turn(role, Plain(t))]
            case AnthropicMessage(Some(role), OtherBody) => ConvertMessage(show, m) == [Turn(role, Plain(""))]
            case AnthropicMessage(Some(role), BodyBlocks(blocks)) =>
              NoResults(blocks) && (role != "assistant" || CallsIn(show, blocks) == []) ==>
                ConvertMessage(show, m) == OneTurn(role, SupportedPieces(role, blocks))
            case AnthropicMessage(None, _) => ConvertMessage(show, m) == []
  {
    hide Converted;
    if m.role.Some? && m.body.BodyBlocks? && NoResults(m.body.blocks) {
      if m.role.value != "assistant" || CallsIn(show, m.body.blocks) == [] {
        StretchIsOneTurn(show, m.role.value, m.body.blocks);
      }
    }
  }

  /** Messages are converted one by one, in their order. */
  lemma {:induction false} MessagesInTurn(show: Printer, a: seq<AnthropicMessage>, m: AnthropicMessage,
                                          b: seq<AnthropicMessage>)
    ensures ConvertMessages(show, a + [m] + b) ==
            ConvertMessages(show, a) + ConvertMessage(show, m) + ConvertMessages(show, b)
  {
    hide ConvertMessage;
    if a == [] {
      assert a + [m] + b == [m] + b && ([m] + b)[1..] == b;
      assert [] + ConvertMessage(show, m) == ConvertMessage(show, m);
    } else {
      assert (a + [m] + b)[1..] == a[1..] + [m] + b;
      MessagesInTurn(show, a[1..], m, b);
      Assoc(ConvertMessage(show, a[0]), ConvertMessages(show, a[1..]), ConvertMessage(show, m));
      Assoc(ConvertMessage(show, a[0]), ConvertMessages(show, a[1..]) + ConvertMessage(show, m),
            ConvertMessages(show, b));
    }
  }

  // ---------------------------------------------------------------------------
  // Calls are set aside until the end and change nothing else
  // ---------------------------------------------------------------------------

  function Uncalled(blocks: seq<Block>): seq<Block> {
    if blocks == [] then []
    else if blocks[0].ToolUseBlock? then Uncalled(blocks[1..])
    else [blocks[0]] + Uncalled(blocks[1..])
  }

  function CallsAside(a: Acc): Acc { a.(calls := []) }

  lemma {:induction false} UncalledAlike(show: Printer, role: string, a: Acc, blocks: seq<Block>)
    ensures CallsAside(ConvertBlocks(show, role, a, blocks)) ==
            ConvertBlocks(show, role, CallsAside(a), Uncalled(blocks))
    decreases |blocks|
  {
    if blocks != [] {
      var b := blocks[0];
      UncalledAlike(show, role, ConvertBlock(show, role, a, b), blocks[1..]);
      if !b.ToolUseBlock? {
        BlockAside(show, role, a, b);
        assert ([b] + Uncalled(blocks[1..]))[1..] == Uncalled(blocks[1..]);
      }
    }
  }

  lemma BlockAside(show: Printer, role: string, a: Acc, b: Block)
    requires !b.ToolUseBlock?
    ensures CallsAside(ConvertBlock(show, role, a, b)) == ConvertBlock(show, role, CallsAside(a), b)
  {
  }

  /**
   * Up to the last tool result an assistant's message with calls is what it would be without them; the
   * one message after that carries them.
   */
  lemma CallsComeLast(show: Printer, head: seq<Block>, tail: seq<Block>)
    requires head == [] || head[|head| - 1].ToolResultBlock?
    requires NoResults(tail)
    requires CallsIn(show, head + tail) != []
    ensures var texts := TextsIn(tail);
            Converted(show, "assistant", head + tail) ==
            Converted(show, "assistant", Uncalled(head)) +
            [CallTurn(if texts == [] then None else Some(Flatten(texts)), CallsIn(show, head + tail))]
  {
    hide ConvertBlocks, CallsIn, TextsIn, Uncalled, SupportedPieces;
    var role := "assistant";
    var h := ConvertBlocks(show, role, EMPTY_ACC, head);
    ConvertBlocksAppend(show, role, EMPTY_ACC, head, tail);
    HeadIsFlushed(show, role, head);
    NoResultsAccumulate(show, role, h, tail);
    CallsInAppend(show, head, tail);
    UncalledAlike(show, role, EMPTY_ACC, head);
    assert [] + TextsIn(tail) == TextsIn(tail);
  }
}
