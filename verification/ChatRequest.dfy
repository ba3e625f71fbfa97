/**
 * Turning an Anthropic request into Chat Completions messages.  JSON members the code looks up are
 * `None` when missing or of another type.
 */
module ChatRequest {
  import opened Prelude
  import opened JsonValues
  import opened Spelling

  datatype ImageSource =
    | Base64(mediaType: Option<string>, data: Option<string>)
    | Url(url: Option<string>)
    | OtherSource

  datatype ResultPart = ResultText(text: Option<string>) | ResultImage(source: Option<ImageSource>) | OtherPart

  datatype ResultContent = ResultString(text: string) | ResultParts(parts: seq<ResultPart>) | NoResult

  datatype Block =
    | TextBlock(text: Option<string>)
    | ImageBlock(source: Option<ImageSource>)
    | ToolUseBlock(id: Option<string>, name: Option<string>, input: Option<Json>)
    | ToolResultBlock(toolUseId: Option<string>, content: ResultContent)
    | UnsupportedBlock

  datatype Part = TextPart(text: string) | ImagePart(url: string)

  datatype Content = Plain(text: string) | Parts(parts: seq<Part>)

  datatype FunctionCall = FunctionCall(id: string, name: string, arguments: string)

  /** A chat message: an ordinary turn, an assistant turn with tool calls, or a tool's answer. */
  datatype Message =
    | Turn(role: string, content: Content)
    | CallTurn(text: Option<string>, calls: seq<FunctionCall>)
    | ToolTurn(toolCallId: string, result: string)

  // ---------------------------------------------------------------------------
  // Single blocks
  // ---------------------------------------------------------------------------

  function ImageUrl(source: Option<ImageSource>): Option<string> {
    match source
    case Some(Base64(Some(mediaType), Some(data))) => Some("data:" + mediaType + ";base64," + data)
    case Some(Url(url)) => url
    case _ => None
  }

  function ImageParts(source: Option<ImageSource>): seq<Part> {
    match ImageUrl(source)
    case Some(url) => [ImagePart(url)]
    case None => []
  }

  function JoinLines(lines: seq<string>): string {
    if lines == [] then ""
    else if |lines| == 1 then lines[0]
    else lines[0] + "\n" + JoinLines(lines[1..])
  }

  function ResultTexts(parts: seq<ResultPart>): seq<string> {
    if parts == [] then []
    else (if parts[0].ResultText? && parts[0].text.Some? then [parts[0].text.value] else []) + ResultTexts(parts[1..])
  }

  function ResultOf(content: ResultContent): string {
    match content
    case ResultString(s) => s
    case ResultParts(parts) => JoinLines(ResultTexts(parts))
    case NoResult => ""
  }

  function ResultImagesOf(parts: seq<ResultPart>): seq<Part> {
    if parts == [] then []
    else (if parts[0].ResultImage? then ImageParts(parts[0].source) else []) + ResultImagesOf(parts[1..])
  }

  function ResultImages(content: ResultContent): seq<Part> {
    if content.ResultParts? then ResultImagesOf(content.parts) else []
  }

  function CallOf(show: Printer, b: Block): FunctionCall
    requires b.ToolUseBlock?
  {
    FunctionCall(b.id.GetOr(""), b.name.GetOr(""), show(b.input.GetOr(EMPTY_OBJECT)))
  }

  // ---------------------------------------------------------------------------
  // The accumulators of one message's conversion
  // ---------------------------------------------------------------------------

  datatype Acc = Acc(messages: seq<Message>, texts: seq<string>, parts: seq<Part>, calls: seq<FunctionCall>)

  const EMPTY_ACC := Acc([], [], [], [])

  /** The message flushing the accumulated parts gives, if any. */
  function Flushed(role: string, texts: seq<string>, parts: seq<Part>): seq<Message> {
    if |parts| == 1 && parts[0].TextPart? then [Turn(role, Plain(Flatten(texts)))]
    else if parts != [] then [Turn(role, Parts(parts))]
    else []
  }

  function Flush(role: string, a: Acc): Acc {
    if a.parts == [] && a.texts == [] then a
    else Acc(a.messages + Flushed(role, a.texts, a.parts), [], [], a.calls)
  }

  function ResultMessages(b: Block): seq<Message>
    requires b.ToolResultBlock?
  {
    var images := ResultImages(b.content);
    [ToolTurn(b.toolUseId.GetOr(""), ResultOf(b.content))] +
    (if images == [] then [] else [Turn("user", Parts(images))])
  }

  function ConvertBlock(show: Printer, role: string, a: Acc, b: Block): Acc {
    match b
    case TextBlock(Some(t)) => a.(texts := a.texts + [t], parts := a.parts + [TextPart(t)])
    case TextBlock(None) => a
    case ImageBlock(source) => a.(parts := a.parts + ImageParts(source))
    case ToolUseBlock(_, _, _) => a.(calls := a.calls + [CallOf(show, b)])
    case ToolResultBlock(_, _) =>
      var f := Flush(role, a);
      f.(messages := f.messages + ResultMessages(b))
    case UnsupportedBlock => a
  }

  function ConvertBlocks(show: Printer, role: string, a: Acc, blocks: seq<Block>): Acc
    decreases |blocks|
  {
    if blocks == [] then a else ConvertBlocks(show, role, ConvertBlock(show, role, a, blocks[0]), blocks[1..])
  }

  function Finalize(role: string, a: Acc): seq<Message> {
    if role == "assistant" && a.calls != [] then
      a.messages + [CallTurn(if a.texts == [] then None else Some(Flatten(a.texts)), a.calls)]
    else Flush(role, a).messages
  }

  /** The messages one Anthropic message with a block list becomes. */
  function Converted(show: Printer, role: string, blocks: seq<Block>): seq<Message> {
    Finalize(role, ConvertBlocks(show, role, EMPTY_ACC, blocks))
  }

  // ---------------------------------------------------------------------------
  // The loops of the code
  // ---------------------------------------------------------------------------

  method FlushTextParts(role: string, a: Acc) returns (r: Acc)
    ensures r == Flush(role, a)
  {
    if a.parts == [] && a.texts == [] {
      return a;
    }
    var messages := a.messages;
    if |a.parts| == 1 && a.parts[0].TextPart? {
      messages := messages + [Turn(role, Plain(Flatten(a.texts)))];
    } else if a.parts != [] {
      messages := messages + [Turn(role, Parts(a.parts))];
    }
    return Acc(messages, [], [], a.calls);
  }

  lemma ResultTextsFrom(parts: seq<ResultPart>, i: nat, before: seq<string>)
    requires i < |parts|
    ensures var found := if parts[i].ResultText? && parts[i].text.Some? then [parts[i].text.value] else [];
            before + ResultTexts(parts[i..]) == before + found + ResultTexts(parts[i + 1..])
  {
    assert parts[i..][1..] == parts[i + 1..];
    var found := if parts[i].ResultText? && parts[i].text.Some? then [parts[i].text.value] else [];
    Assoc(before, found, ResultTexts(parts[i + 1..]));
  }

  method ExtractToolResultContent(content: ResultContent) returns (text: string)
    ensures text == ResultOf(content)
  {
    if content.ResultString? {
      return content.text;
    }
    if content.NoResult? {
      return "";
    }
    hide ResultTexts, JoinLines;
    var parts := content.parts;
    var texts: seq<string> := [];
    assert parts[0..] == parts && texts + ResultTexts(parts) == ResultTexts(parts);
    for i := 0 to |parts|
      invariant texts + ResultTexts(parts[i..]) == ResultTexts(parts)
    {
      ResultTextsFrom(parts, i, texts);
      assert texts + [] == texts;
      if parts[i].ResultText? && parts[i].text.Some? {
        texts := texts + [parts[i].text.value];
      }
    }
    NoMoreTexts(parts, texts);
    return JoinLines(texts);
  }

  lemma NoMoreTexts(parts: seq<ResultPart>, texts: seq<string>)
    ensures texts + ResultTexts(parts[|parts|..]) == texts
  {
    assert parts[|parts|..] == [];
  }

  lemma ResultImagesFrom(parts: seq<ResultPart>, i: nat, before: seq<Part>)
    requires i < |parts|
    ensures var found := if parts[i].ResultImage? then ImageParts(parts[i].source) else [];
            before + ResultImagesOf(parts[i..]) == before + found + ResultImagesOf(parts[i + 1..])
  {
    assert parts[i..][1..] == parts[i + 1..];
    Assoc(before, if parts[i].ResultImage? then ImageParts(parts[i].source) else [], ResultImagesOf(parts[i + 1..]));
  }

  method ExtractToolResultImages(content: ResultContent) returns (images: seq<Part>)
    ensures images == ResultImages(content)
  {
    if !content.ResultParts? {
      return [];
    }
    hide ResultImagesOf;
    var parts := content.parts;
    images := [];
    assert parts[0..] == parts && images + ResultImagesOf(parts) == ResultImagesOf(parts);
    for i := 0 to |parts|
      invariant images + ResultImagesOf(parts[i..]) == ResultImagesOf(parts)
    {
      ResultImagesFrom(parts, i, images);
      assert images + [] == images;
      if parts[i].ResultImage? {
        var url := ImageUrl(parts[i].source);
        if url.Some? {
          images := images + [ImagePart(url.value)];
        }
      }
    }
    NoMoreImages(parts, images);
  }

  lemma NoMoreImages(parts: seq<ResultPart>, images: seq<Part>)
    ensures images + ResultImagesOf(parts[|parts|..]) == images
  {
    assert parts[|parts|..] == [];
  }

  method ConvertContentBlocks(show: Printer, role: string, blocks: seq<Block>) returns (messages: seq<Message>)
    ensures messages == Converted(show, role, blocks)
  {
    var a := EMPTY_ACC;
    for i := 0 to |blocks|
      invariant ConvertBlocks(show, role, a, blocks[i..]) == ConvertBlocks(show, role, EMPTY_ACC, blocks)
    {
      var b := blocks[i];
      assert blocks[i..][1..] == blocks[i + 1..];
      ghost var before := a;
      match b {
        case TextBlock(text) =>
          if text.Some? {
            a := a.(texts := a.texts + [text.value], parts := a.parts + [TextPart(text.value)]);
          }
        case ImageBlock(source) =>
          var url := ImageUrl(source);
          if url.Some? {
            a := a.(parts := a.parts + [ImagePart(url.value)]);
          }
        case ToolUseBlock(id, name, input) =>
          var arguments := show(if input.Some? then input.value else EMPTY_OBJECT);
          a := a.(calls := a.calls + [FunctionCall(id.GetOr(""), name.GetOr(""), arguments)]);
        case ToolResultBlock(toolUseId, content) =>
          a := FlushTextParts(role, a);
          var text := ExtractToolResultContent(content);
          var images := ExtractToolResultImages(content);
          var answers := [ToolTurn(toolUseId.GetOr(""), text)];
          if images != [] {
            answers := answers + [Turn("user", Parts(images))];
          }
          a := a.(messages := a.messages + answers);
        case UnsupportedBlock =>
      }
      assert before.parts + [] == before.parts;
      assert a == ConvertBlock(show, role, before, b);
    }
    assert blocks[|blocks|..] == [];
    if role == "assistant" && a.calls != [] {
      var text := if a.texts == [] then None else Some(Flatten(a.texts));
      messages := a.messages + [CallTurn(text, a.calls)];
    } else {
      a := FlushTextParts(role, a);
      messages := a.messages;
    }
  }

  // ---------------------------------------------------------------------------
  // Order is preserved
  // ---------------------------------------------------------------------------

  /** What a reader of the conversation sees, in order, and under which role. */
  datatype Piece =
    | SaidText(role: string, text: string)
    | SaidImage(role: string, url: string)
    | Answered(id: string, result: string)

  function PartPieces(role: string, parts: seq<Part>): seq<Piece> {
    if parts == [] then []
    else [if parts[0].TextPart? then SaidText(role, parts[0].text) else SaidImage(role, parts[0].url)] +
         PartPieces(role, parts[1..])
  }

  function MessagePieces(m: Message): seq<Piece> {
    match m
    case Turn(role, Plain(t)) => [SaidText(role, t)]
    case Turn(role, Parts(parts)) => PartPieces(role, parts)
    case CallTurn(text, _) => if text.Some? then [SaidText("assistant", text.value)] else []
    case ToolTurn(id, result) => [Answered(id, result)]
  }

  function Pieces(messages: seq<Message>): seq<Piece> {
    if messages == [] then [] else MessagePieces(messages[0]) + Pieces(messages[1..])
  }

  // The same, read off the fields of the Anthropic blocks.

  function ShownImage(role: string, source: Option<ImageSource>): seq<Piece> {
    match source
    case Some(Base64(Some(mediaType), Some(data))) => [SaidImage(role, "data:" + mediaType + ";base64," + data)]
    case Some(Url(Some(url))) => [SaidImage(role, url)]
    case _ => []
  }

  function GivenTexts(parts: seq<ResultPart>): seq<Option<string>> {
    if parts == [] then []
    else [match parts[0] { case ResultText(text) => text case _ => None }] + GivenTexts(parts[1..])
  }

  /** A string answers as it is, a list of parts by its texts on lines of their own. */
  function AnswerIn(content: ResultContent): string {
    match content
    case ResultString(s) => s
    case ResultParts(parts) => Spelt(GivenTexts(parts)).GetOr("")
    case NoResult => ""
  }

  function AnswerImages(parts: seq<ResultPart>): seq<Piece> {
    if parts == [] then []
    else (match parts[0] { case ResultImage(source) => ShownImage("user", source) case _ => [] }) +
         AnswerImages(parts[1..])
  }

  function AnswerPieces(toolUseId: Option<string>, content: ResultContent): seq<Piece> {
    [Answered(match toolUseId { case Some(id) => id case None => "" }, AnswerIn(content))] +
    match content
    case ResultParts(parts) => AnswerImages(parts)
    case _ => []
  }

  /** Images of a tool result are the user's. */
  function BlockPieces(role: string, b: Block): seq<Piece> {
    match b
    case TextBlock(Some(t)) => [SaidText(role, t)]
    case ImageBlock(source) => ShownImage(role, source)
    case ToolResultBlock(toolUseId, content) => AnswerPieces(toolUseId, content)
    case _ => []
  }

  lemma ImageIsShown(role: string, source: Option<ImageSource>)
    ensures PartPieces(role, ImageParts(source)) == ShownImage(role, source)
    ensures TextsOf(ImageParts(source)) == []
  {
    match source {
      case Some(Base64(Some(mediaType), Some(data))) => OnePart(role, ImageParts(source)[0]);
      case Some(Url(Some(url))) => OnePart(role, ImageParts(source)[0]);
      case _ => NoParts(role);
    }
  }

  lemma {:induction false} ImagesAreShown(parts: seq<ResultPart>)
    ensures PartPieces("user", ResultImagesOf(parts)) == AnswerImages(parts)
  {
    if parts != [] {
      ImagesAreShown(parts[1..]);
      match parts[0] {
        case ResultImage(source) =>
          ImageIsShown("user", source);
          PartPiecesAppend("user", ImageParts(source), ResultImagesOf(parts[1..]));
        case _ =>
          assert [] + ResultImagesOf(parts[1..]) == ResultImagesOf(parts[1..]);
      }
    }
  }

  lemma {:induction false} JoinedAppend(lines: seq<string>, t: string)
    ensures JoinLines(lines + [t]) == if lines == [] then t else JoinLines(lines) + "\n" + t
  {
    if lines == [] {
      assert lines + [t] == [t];
    } else {
      assert (lines + [t])[1..] == lines[1..] + [t];
      JoinedAppend(lines[1..], t);
      if |lines| > 1 { Assoc(lines[0] + "\n", JoinLines(lines[1..]), "\n" + t); }
    }
  }

  function Found(text: Option<string>): seq<string> { if text.Some? then [text.value] else [] }

  lemma {:induction false} PresentAppend(texts: seq<Option<string>>, last: Option<string>)
    ensures Present(texts + [last]) == Present(texts) + Found(last)
  {
    hide Found;
    if texts == [] {
      assert texts + [last] == [last] && [last][1..] == [];
      assert Found(last) + [] == [] + Found(last);
    } else {
      ConsAppend(texts, [last]);
      PresentAppend(texts[1..], last);
      Assoc(Found(texts[0]), Present(texts[1..]), Found(last));
    }
  }

  /** Joining the texts that are there writes them one after another, a line feed between neighbours. */
  lemma {:induction false} JoinedIsSpelt(texts: seq<Option<string>>)
    ensures JoinLines(Present(texts)) == Spelt(texts).GetOr("")
    ensures Present(texts) == [] <==> Spelt(texts).None?
  {
    if texts != [] {
      var init, last := texts[..|texts| - 1], texts[|texts| - 1];
      assert texts == init + [last];
      JoinedIsSpelt(init);
      PresentAppend(init, last);
      if last.Some? {
        JoinedAppend(Present(init), last.value);
      } else {
        assert Present(init) + [] == Present(init);
      }
    }
  }

  lemma {:induction false} TextsArePresent(parts: seq<ResultPart>)
    ensures ResultTexts(parts) == Present(GivenTexts(parts))
  {
    if parts != [] {
      TextsArePresent(parts[1..]);
      assert GivenTexts(parts)[1..] == GivenTexts(parts[1..]);
    }
  }

  /**
   * The answer of a tool: the string itself; of a list of parts, and of nothing else, the one string that
   * spells out the texts given; otherwise nothing.
   */
  lemma AnswerIsSpelled(content: ResultContent, s: string)
    ensures ResultOf(content) == AnswerIn(content)
    ensures s == ResultOf(content) <==>
            match content
            case ResultString(text) => s == text
            case ResultParts(parts) => SpellsOut(GivenTexts(parts), s)
            case NoResult => s == ""
  {
    if content.ResultParts? {
      TextsArePresent(content.parts);
      JoinedIsSpelt(GivenTexts(content.parts));
      SpelledIff(GivenTexts(content.parts), s);
    }
  }

  function SupportedPieces(role: string, blocks: seq<Block>): seq<Piece> {
    if blocks == [] then [] else BlockPieces(role, blocks[0]) + SupportedPieces(role, blocks[1..])
  }

  function TextsOf(parts: seq<Part>): seq<string> {
    if parts == [] then [] else (if parts[0].TextPart? then [parts[0].text] else []) + TextsOf(parts[1..])
  }

  lemma {:induction false} TextsOfAppend(a: seq<Part>, b: seq<Part>)
    ensures TextsOf(a + b) == TextsOf(a) + TextsOf(b)
  {
    if a == [] {
      assert a + b == b;
    } else {
      assert (a + b)[1..] == a[1..] + b;
      TextsOfAppend(a[1..], b);
      Assoc(if a[0].TextPart? then [a[0].text] else [], TextsOf(a[1..]), TextsOf(b));
    }
  }

  lemma {:induction false} PartPiecesAppend(role: string, a: seq<Part>, b: seq<Part>)
    ensures PartPieces(role, a + b) == PartPieces(role, a) + PartPieces(role, b)
  {
    if a == [] {
      assert a + b == b;
    } else {
      assert (a + b)[1..] == a[1..] + b;
      PartPiecesAppend(role, a[1..], b);
      var head := [if a[0].TextPart? then SaidText(role, a[0].text) else SaidImage(role, a[0].url)];
      Assoc(head, PartPieces(role, a[1..]), PartPieces(role, b));
    }
  }

  lemma {:induction false} PiecesAppend(a: seq<Message>, b: seq<Message>)
    ensures Pieces(a + b) == Pieces(a) + Pieces(b)
  {
    if a == [] {
      assert a + b == b;
    } else {
      assert (a + b)[1..] == a[1..] + b;
      PiecesAppend(a[1..], b);
      Assoc(MessagePieces(a[0]), Pieces(a[1..]), Pieces(b));
    }
  }

  lemma OneMessage(m: Message)
    ensures Pieces([m]) == MessagePieces(m)
  {
    assert [m][1..] == [];
    assert MessagePieces(m) + [] == MessagePieces(m);
  }

  /** The text accumulator always lists exactly the texts among the parts. */
  predicate Paired(a: Acc) { a.texts == TextsOf(a.parts) }

  /** What the accumulators will be read as, once flushed. */
  function AccPieces(role: string, a: Acc): seq<Piece> { Pieces(a.messages) + PartPieces(role, a.parts) }

  lemma FlushKeepsPieces(role: string, a: Acc)
    requires Paired(a)
    ensures var f := Flush(role, a);
            && Pieces(f.messages) == AccPieces(role, a)
            && f.parts == [] && f.texts == [] && f.calls == a.calls
  {
    var out := Flushed(role, a.texts, a.parts);
    PiecesAppend(a.messages, out);
    if a.parts == [] {
      assert Pieces(a.messages) + [] == Pieces(a.messages);
    } else {
      OneMessage(out[0]);
      if |a.parts| == 1 && a.parts[0].TextPart? {
        assert a.parts[1..] == [];
        assert TextsOf(a.parts[1..]) == [];
        assert a.texts == [a.parts[0].text] && a.texts[1..] == [];
        assert Flatten(a.texts) == a.parts[0].text + [] == a.parts[0].text;
        assert PartPieces(role, a.parts[1..]) == [];
      }
    }
  }

  lemma ResultMessagePieces(role: string, b: Block)
    requires b.ToolResultBlock?
    ensures Pieces(ResultMessages(b)) == BlockPieces(role, b)
  {
    hide Spelt, JoinLines, ResultTexts, GivenTexts, ResultImagesOf, AnswerImages;
    var images := ResultImages(b.content);
    var answer := ToolTurn(b.toolUseId.GetOr(""), ResultOf(b.content));
    OneMessage(answer);
    AnswerIsSpelled(b.content, "");
    if b.content.ResultParts? { ImagesAreShown(b.content.parts); }
    NoParts("user");
    if images == [] {
      assert [answer] + [] == [answer];
    } else {
      OneMessage(Turn("user", Parts(images)));
      PiecesAppend([answer], [Turn("user", Parts(images))]);
    }
  }

  lemma PartKeepsPieces(role: string, a: Acc, more: seq<Part>)
    requires Paired(a)
    ensures var r := a.(texts := a.texts + TextsOf(more), parts := a.parts + more);
            Paired(r) && AccPieces(role, r) == AccPieces(role, a) + PartPieces(role, more)
  {
    TextsOfAppend(a.parts, more);
    PartPiecesAppend(role, a.parts, more);
    Assoc(Pieces(a.messages), PartPieces(role, a.parts), PartPieces(role, more));
  }

  lemma ResultKeepsPieces(show: Printer, role: string, a: Acc, b: Block)
    requires Paired(a) && b.ToolResultBlock?
    ensures var r := ConvertBlock(show, role, a, b);
            Paired(r) && AccPieces(role, r) == AccPieces(role, a) + BlockPieces(role, b) && r.calls == a.calls
  {
    hide Flush;
    FlushKeepsPieces(role, a);
    var f := Flush(role, a);
    PiecesAppend(f.messages, ResultMessages(b));
    ResultMessagePieces(role, b);
    assert AccPieces(role, a) + BlockPieces(role, b) + [] == AccPieces(role, a) + BlockPieces(role, b);
  }

  lemma OnePart(role: string, part: Part)
    ensures TextsOf([part]) == if part.TextPart? then [part.text] else []
    ensures PartPieces(role, [part]) ==
            [if part.TextPart? then SaidText(role, part.text) else SaidImage(role, part.url)]
  {
    assert [part][1..] == [];
  }

  lemma BlockKeepsPieces(show: Printer, role: string, a: Acc, b: Block)
    requires Paired(a)
    ensures var r := ConvertBlock(show, role, a, b);
            && Paired(r)
            && AccPieces(role, r) == AccPieces(role, a) + BlockPieces(role, b)
            && r.calls == a.calls + CallIn(show, b)
  {
    hide TextsOf, PartPieces, Pieces, Flush;
    assert a.calls + [] == a.calls;
    match b {
      case TextBlock(Some(text)) =>
        OnePart(role, TextPart(text));
        PartKeepsPieces(role, a, [TextPart(text)]);
      case ImageBlock(source) =>
        ImageIsShown(role, source);
        PartKeepsPieces(role, a, ImageParts(source));
        assert a.texts + [] == a.texts;
        assert ConvertBlock(show, role, a, b) == a.(parts := a.parts + ImageParts(source));
      case ToolResultBlock(_, _) => ResultKeepsPieces(show, role, a, b);
      case _ => assert AccPieces(role, a) + [] == AccPieces(role, a);
    }
  }

  lemma NoParts(role: string)
    ensures TextsOf([]) == [] && PartPieces(role, []) == []
  {
  }

  function CallsIn(show: Printer, blocks: seq<Block>): seq<FunctionCall> {
    if blocks == [] then []
    else CallIn(show, blocks[0]) + CallsIn(show, blocks[1..])
  }

  lemma {:induction false} BlocksKeepPieces(show: Printer, role: string, a: Acc, blocks: seq<Block>)
    requires Paired(a)
    ensures var r := ConvertBlocks(show, role, a, blocks);
            && Paired(r)
            && AccPieces(role, r) == AccPieces(role, a) + SupportedPieces(role, blocks)
            && r.calls == a.calls + CallsIn(show, blocks)
    decreases |blocks|
  {
    if blocks == [] {
      assert AccPieces(role, a) + [] == AccPieces(role, a);
    } else {
      var b := blocks[0];
      var n := ConvertBlock(show, role, a, b);
      BlockKeepsPieces(show, role, a, b);
      BlocksKeepPieces(show, role, n, blocks[1..]);
      Assoc(AccPieces(role, a), BlockPieces(role, b), SupportedPieces(role, blocks[1..]));
      Assoc(a.calls, CallIn(show, b), CallsIn(show, blocks[1..]));
    }
  }

  /** Unless it is an assistant's message with tool calls, everything supported is kept, in order. */
  lemma OrderPreserved(show: Printer, role: string, blocks: seq<Block>)
    requires role != "assistant" || CallsIn(show, blocks) == []
    ensures Pieces(Converted(show, role, blocks)) == SupportedPieces(role, blocks)
  {
    BlocksKeepPieces(show, role, EMPTY_ACC, blocks);
    FlushKeepsPieces(role, ConvertBlocks(show, role, EMPTY_ACC, blocks));
  }

  // ---------------------------------------------------------------------------
  // Assistant messages with tool calls
  // ---------------------------------------------------------------------------

  predicate NoResults(blocks: seq<Block>) { forall b | b in blocks :: !b.ToolResultBlock? }

  function TextsIn(blocks: seq<Block>): seq<string> {
    if blocks == [] then []
    else TextIn(blocks[0]) + TextsIn(blocks[1..])
  }

  function TextIn(b: Block): seq<string> {
    match b
    case TextBlock(Some(text)) => [text]
    case _ => []
  }

  /** The call a block asks for; what it leaves out is empty. */
  function CallIn(show: Printer, b: Block): seq<FunctionCall> {
    match b
    case ToolUseBlock(id, name, input) =>
      [FunctionCall(
         match id { case Some(given) => given case None => "" },
         match name { case Some(given) => given case None => "" },
         match input { case Some(given) => show(given) case None => show(Obj([])) })]
    case _ => []
  }

  lemma NoResultAccumulates(show: Printer, role: string, a: Acc, b: Block)
    requires !b.ToolResultBlock?
    ensures var r := ConvertBlock(show, role, a, b);
            && r.messages == a.messages
            && r.texts == a.texts + TextIn(b)
            && r.calls == a.calls + CallIn(show, b)
  {
  }

  lemma {:induction false} NoResultsAccumulate(show: Printer, role: string, a: Acc, blocks: seq<Block>)
    requires NoResults(blocks)
    ensures var r := ConvertBlocks(show, role, a, blocks);
            && r.messages == a.messages
            && r.texts == a.texts + TextsIn(blocks)
            && r.calls == a.calls + CallsIn(show, blocks)
    decreases |blocks|
  {
    if blocks != [] {
      var b := blocks[0];
      NoResultAccumulates(show, role, a, b);
      NoResultsAccumulate(show, role, ConvertBlock(show, role, a, b), blocks[1..]);
      Assoc(a.texts, TextIn(b), TextsIn(blocks[1..]));
      Assoc(a.calls, CallIn(show, b), CallsIn(show, blocks[1..]));
    }
  }

  lemma {:induction false} ConvertBlocksAppend(show: Printer, role: string, a: Acc, x: seq<Block>, y: seq<Block>)
    ensures ConvertBlocks(show, role, a, x + y) == ConvertBlocks(show, role, ConvertBlocks(show, role, a, x), y)
    decreases |x|
  {
    if x == [] {
      assert x + y == y;
    } else {
      assert (x + y)[1..] == x[1..] + y;
      ConvertBlocksAppend(show, role, ConvertBlock(show, role, a, x[0]), x[1..], y);
    }
  }

  lemma {:induction false} CallsInAppend(show: Printer, x: seq<Block>, y: seq<Block>)
    ensures CallsIn(show, x + y) == CallsIn(show, x) + CallsIn(show, y)
  {
    if x == [] {
      assert x + y == y;
    } else {
      assert (x + y)[1..] == x[1..] + y;
      CallsInAppend(show, x[1..], y);
      Assoc(CallIn(show, x[0]), CallsIn(show, x[1..]), CallsIn(show, y));
    }
  }

  /**
   * An assistant message with tool calls, in full generality: up to and including the last tool
   * result (`head` ends in one, or is empty) everything supported is kept in order, calls aside; then one
   * message has the text after it, joined, and all calls of the whole message in order.
   */
  lemma CallsGatheredAtEnd(show: Printer, head: seq<Block>, tail: seq<Block>)
    requires head == [] || head[|head| - 1].ToolResultBlock?
    requires NoResults(tail)
    requires CallsIn(show, head + tail) != []
    ensures var messages := Converted(show, "assistant", head + tail);
            var texts := TextsIn(tail);
            && messages != []
            && messages[|messages| - 1] ==
               CallTurn(if texts == [] then None else Some(Flatten(texts)), CallsIn(show, head + tail))
            && Pieces(messages[..|messages| - 1]) == SupportedPieces("assistant", head)
  {
    var role := "assistant";
    var h := ConvertBlocks(show, role, EMPTY_ACC, head);
    ConvertBlocksAppend(show, role, EMPTY_ACC, head, tail);
    HeadIsFlushed(show, role, head);
    NoResultsAccumulate(show, role, h, tail);
    CallsInAppend(show, head, tail);
    var messages := Converted(show, role, head + tail);
    assert messages[..|messages| - 1] == h.messages;
    assert [] + TextsIn(tail) == TextsIn(tail);
  }

  lemma {:induction false} EndsFlushed(show: Printer, role: string, a: Acc, head: seq<Block>)
    requires Paired(a) && head != [] && head[|head| - 1].ToolResultBlock?
    ensures var h := ConvertBlocks(show, role, a, head);
            h.texts == [] && h.parts == []
    decreases |head|
  {
    BlockKeepsPieces(show, role, a, head[0]);
    if |head| == 1 {
      FlushKeepsPieces(role, a);
      assert head[1..] == [];
    } else {
      EndsFlushed(show, role, ConvertBlock(show, role, a, head[0]), head[1..]);
    }
  }

  lemma NothingToConvert(show: Printer, role: string)
    ensures ConvertBlocks(show, role, EMPTY_ACC, []) == EMPTY_ACC
  {
  }

  lemma HeadIsFlushed(show: Printer, role: string, head: seq<Block>)
    requires head == [] || head[|head| - 1].ToolResultBlock?
    ensures var h := ConvertBlocks(show, role, EMPTY_ACC, head);
            && h.texts == [] && h.parts == []
            && h.calls == CallsIn(show, head)
            && Pieces(h.messages) == SupportedPieces(role, head)
  {
    hide ConvertBlocks, CallsIn, SupportedPieces;
    var h := ConvertBlocks(show, role, EMPTY_ACC, head);
    BlocksKeepPieces(show, role, EMPTY_ACC, head);
    if head == [] { NothingToConvert(show, role); } else { EndsFlushed(show, role, EMPTY_ACC, head); }
    assert Pieces(h.messages) + [] == Pieces(h.messages);
    assert AccPieces(role, EMPTY_ACC) == [];
    assert [] + SupportedPieces(role, head) == SupportedPieces(role, head);
    assert [] + CallsIn(show, head) == CallsIn(show, head);
  }

  /** With no tool result there is one message: all text concatenated, all calls in order. */
  lemma SingleCallMessage(show: Printer, blocks: seq<Block>)
    requires NoResults(blocks) && CallsIn(show, blocks) != []
    ensures Converted(show, "assistant", blocks) ==
            [CallTurn(if TextsIn(blocks) == [] then None else Some(Flatten(TextsIn(blocks))), CallsIn(show, blocks))]
  {
    NoResultsAccumulate(show, "assistant", EMPTY_ACC, blocks);
    assert [] + TextsIn(blocks) == TextsIn(blocks) && [] + CallsIn(show, blocks) == CallsIn(show, blocks);
  }

  function ImageIn(b: Block): seq<Piece> {
    match b
    case ImageBlock(source) => ShownImage("assistant", source)
    case _ => []
  }

  function ImagesIn(blocks: seq<Block>): seq<Piece> {
    if blocks == [] then [] else ImageIn(blocks[0]) + ImagesIn(blocks[1..])
  }

  lemma {:induction false} PiecesCounted(role: string, blocks: seq<Block>)
    requires NoResults(blocks)
    ensures |SupportedPieces(role, blocks)| == |TextsIn(blocks)| + |ImagesIn(blocks)|
    ensures ImagesIn(blocks) == [] && |TextsIn(blocks)| == 1 ==>
              SupportedPieces(role, blocks) == [SaidText(role, TextsIn(blocks)[0])]
  {
    if blocks != [] {
      hide BlockPieces, ShownImage, TextIn, ImageIn;
      PiecesCounted(role, blocks[1..]);
      BlockCounted(role, blocks[0]);
    }
  }

  lemma BlockCounted(role: string, b: Block)
    requires !b.ToolResultBlock?
    ensures |BlockPieces(role, b)| == |TextIn(b)| + |ImageIn(b)|
    ensures TextIn(b) != [] ==> BlockPieces(role, b) == [SaidText(role, TextIn(b)[0])]
  {
  }

  lemma {:induction false} SupportedAppend(role: string, x: seq<Block>, y: seq<Block>)
    ensures SupportedPieces(role, x + y) == SupportedPieces(role, x) + SupportedPieces(role, y)
  {
    if x == [] {
      assert x + y == y;
    } else {
      assert (x + y)[1..] == x[1..] + y;
      SupportedAppend(role, x[1..], y);
      Assoc(BlockPieces(role, x[0]), SupportedPieces(role, x[1..]), SupportedPieces(role, y));
    }
  }

  /**
   * With tool calls everything supported is still kept, piece by piece and in order, exactly when no
   * image and at most one text come after the last tool result: images there are dropped, texts joined.
   */
  lemma CallMessageKeepsAllIff(show: Printer, head: seq<Block>, tail: seq<Block>)
    requires head == [] || head[|head| - 1].ToolResultBlock?
    requires NoResults(tail)
    requires CallsIn(show, head + tail) != []
    ensures Pieces(Converted(show, "assistant", head + tail)) == SupportedPieces("assistant", head + tail) <==>
            ImagesIn(tail) == [] && |TextsIn(tail)| <= 1
  {
    hide Converted, CallsIn, SupportedPieces, TextsIn, ImagesIn, Pieces, Flatten;
    var role := "assistant";
    CallsGatheredAtEnd(show, head, tail);
    SupportedAppend(role, head, tail);
    PiecesCounted(role, tail);
    var messages, texts := Converted(show, role, head + tail), TextsIn(tail);
    var last := messages[|messages| - 1];
    assert messages == messages[..|messages| - 1] + [last];
    PiecesAppend(messages[..|messages| - 1], [last]);
    OneMessage(last);
    var kept := MessagePieces(last);
    Cancel(SupportedPieces(role, head), kept, SupportedPieces(role, tail));
    if |texts| == 1 {
      assert texts == [texts[0]];
      FlattenOne(texts[0]);
    }
  }

  /** An image beside a tool call is dropped. */
  lemma ImageBesideCallIsLost(show: Printer)
    ensures var image := ImageBlock(Some(Url(Some("u"))));
            var call := ToolUseBlock(Some("c"), Some("f"), None);
            && SupportedPieces("assistant", [image, call]) == [SaidImage("assistant", "u")]
            && Pieces(Converted(show, "assistant", [image, call])) == []
  {
    var image, call := ImageBlock(Some(Url(Some("u")))), ToolUseBlock(Some("c"), Some("f"), None);
    var blocks, rest, part := [image, call], [call], [ImagePart("u")];
    assert blocks[1..] == rest && rest[1..] == [] && part[1..] == [];
    assert PartPieces("assistant", part) == [SaidImage("assistant", "u")] + PartPieces("assistant", []);
    assert SupportedPieces("assistant", rest) == [] + SupportedPieces("assistant", []);
    assert CallsIn(show, rest) == [CallOf(show, call)] + CallsIn(show, []);
    assert TextsIn(rest) == [] + TextsIn([]);
    SingleCallMessage(show, blocks);
    OneMessage(CallTurn(None, CallsIn(show, blocks)));
  }

  // ---------------------------------------------------------------------------
  // Whole requests
  // ---------------------------------------------------------------------------

  datatype System = SystemText(text: string) | SystemBlocks(texts: seq<Option<string>>) | NoSystem

  datatype Body = BodyText(text: string) | BodyBlocks(blocks: seq<Block>) | OtherBody

  datatype AnthropicMessage = AnthropicMessage(role: Option<string>, body: Body)

  function Present(texts: seq<Option<string>>): seq<string> {
    if texts == [] then [] else Found(texts[0]) + Present(texts[1..])
  }

  function HoistSystem(system: System): seq<Message> {
    var content := match system
      case SystemText(s) => s
      case SystemBlocks(texts) => JoinLines(Present(texts))
      case NoSystem => "";
    if content == "" then [] else [Turn("system", Plain(content))]
  }

  /** The system prompt, read off the request. */
  function SystemIn(system: System): string {
    match system
    case SystemText(s) => s
    case SystemBlocks(texts) => Spelt(texts).GetOr("")
    case NoSystem => ""
  }

  /**
   * An ordinary message of role system comes first unless it would be empty; it has the string itself, or
   * of a list of blocks the one string that spells out the texts given.
   */
  lemma SystemIsHoisted(system: System, s: string)
    ensures HoistSystem(system) == if SystemIn(system) == "" then [] else [Turn("system", Plain(SystemIn(system)))]
    ensures s == SystemIn(system) <==>
            match system
            case SystemText(text) => s == text
            case SystemBlocks(texts) => SpellsOut(texts, s)
            case NoSystem => s == ""
  {
    if system.SystemBlocks? {
      JoinedIsSpelt(system.texts);
      SpelledIff(system.texts, s);
    }
  }

  function ConvertMessage(show: Printer, m: AnthropicMessage): seq<Message> {
    match m.role
    case None => []
    case Some(role) =>
      match m.body
      case BodyText(t) => [Turn(role, Plain(t))]
      case BodyBlocks(blocks) => Converted(show, role, blocks)
      case OtherBody => [Turn(role, Plain(""))]
  }

  function ConvertMessages(show: Printer, ms: seq<AnthropicMessage>): seq<Message> {
    if ms == [] then [] else ConvertMessage(show, ms[0]) + ConvertMessages(show, ms[1..])
  }

  function SourcePieces(m: AnthropicMessage): seq<Piece> {
    match m.role
    case None => []
    case Some(role) =>
      match m.body
      case BodyText(t) => [SaidText(role, t)]
      case BodyBlocks(blocks) => SupportedPieces(role, blocks)
      case OtherBody => [SaidText(role, "")]
  }

  function AllSourcePieces(ms: seq<AnthropicMessage>): seq<Piece> {
    if ms == [] then [] else SourcePieces(ms[0]) + AllSourcePieces(ms[1..])
  }

  predicate CallFree(show: Printer, m: AnthropicMessage) {
    m.role == Some("assistant") && m.body.BodyBlocks? ==> CallsIn(show, m.body.blocks) == []
  }

  lemma MessagesFrom(show: Printer, ms: seq<AnthropicMessage>, i: nat, before: seq<Message>)
    requires i < |ms|
    ensures before + ConvertMessages(show, ms[i..]) ==
            before + ConvertMessage(show, ms[i]) + ConvertMessages(show, ms[i + 1..])
  {
    assert ms[i..][1..] == ms[i + 1..];
    Assoc(before, ConvertMessage(show, ms[i]), ConvertMessages(show, ms[i + 1..]));
  }

  lemma NoMoreMessages(show: Printer, ms: seq<AnthropicMessage>, messages: seq<Message>)
    ensures messages + ConvertMessages(show, ms[|ms|..]) == messages && ms[0..] == ms
  {
    assert ms[|ms|..] == [];
  }

  /** The `messages` array of the request: the system prompt, then every message in turn. */
  method TransformMessages(show: Printer, system: System, ms: seq<AnthropicMessage>) returns (messages: seq<Message>)
    ensures messages == HoistSystem(system) + ConvertMessages(show, ms)
  {
    hide ConvertMessages, Converted, HoistSystem;
    messages := HoistSystem(system);
    NoMoreMessages(show, ms, messages);
    for i := 0 to |ms|
      invariant messages + ConvertMessages(show, ms[i..]) == HoistSystem(system) + ConvertMessages(show, ms)
    {
      MessagesFrom(show, ms, i, messages);
      assert messages + [] == messages;
      if ms[i].role.Some? {
        var role := ms[i].role.value;
        match ms[i].body {
          case BodyText(t) => messages := messages + [Turn(role, Plain(t))];
          case BodyBlocks(blocks) =>
            var converted := ConvertContentBlocks(show, role, blocks);
            messages := messages + converted;
          case OtherBody => messages := messages + [Turn(role, Plain(""))];
        }
      }
    }
    NoMoreMessages(show, ms, messages);
  }

  /** A conversation without tool calls keeps every supported piece of every message in order. */
  lemma {:induction false} ConversationOrderPreserved(show: Printer, ms: seq<AnthropicMessage>)
    requires forall m | m in ms :: CallFree(show, m)
    ensures Pieces(ConvertMessages(show, ms)) == AllSourcePieces(ms)
  {
    if ms != [] {
      var m := ms[0];
      assert CallFree(show, m);
      if m.role.Some? {
        match m.body {
          case BodyText(t) => OneMessage(Turn(m.role.value, Plain(t)));
          case BodyBlocks(blocks) => OrderPreserved(show, m.role.value, blocks);
          case OtherBody => OneMessage(Turn(m.role.value, Plain("")));
        }
      }
      PiecesAppend(ConvertMessage(show, m), ConvertMessages(show, ms[1..]));
      ConversationOrderPreserved(show, ms[1..]);
    }
  }
  function SystemPieces(system: System): seq<Piece> {
    if SystemIn(system) == "" then [] else [SaidText("system", SystemIn(system))]
  }

  /** Neither does the whole request lose or move anything: the system prompt, then every message. */
  lemma RequestOrderPreserved(show: Printer, system: System, ms: seq<AnthropicMessage>)
    requires forall m | m in ms :: CallFree(show, m)
    ensures Pieces(HoistSystem(system) + ConvertMessages(show, ms)) == SystemPieces(system) + AllSourcePieces(ms)
  {
    hide ConvertMessages, AllSourcePieces, HoistSystem, SystemIn;
    SystemIsHoisted(system, "");
    ConversationOrderPreserved(show, ms);
    PiecesAppend(HoistSystem(system), ConvertMessages(show, ms));
    if SystemIn(system) != "" { OneMessage(Turn("system", Plain(SystemIn(system)))); }
  }
}
