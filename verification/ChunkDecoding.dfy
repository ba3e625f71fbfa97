/** When a call reads its bytes as text, in terms of the UTF-8 standard alone. */
module ChunkDecoding {
  import opened Prelude
  import opened Utf8
  import opened Utf8Standard
  import opened StreamDecoder
  import Pipeline = StreamPipeline
  import Events = EventTranslator

  /** More octets may still make a text of it. */
  ghost predicate MayBecomeText(s: Bytes) { exists t: Bytes :: IsText(s + t) }

  ghost predicate LongestText(s: Bytes, v: nat) {
    v <= |s| && IsText(s[..v]) && forall k | 0 <= k <= |s| && IsText(s[..k]) :: k <= v
  }

  lemma OutcomeIff(s: Bytes)
    ensures FromUtf8(s).WellFormed? <==> IsText(s)
    ensures !FromUtf8(s).Malformed? <==> MayBecomeText(s)
  {
    hide Valid, FromUtf8, IsText;
    TextIff(s);
    MalformedIff(s);
    if t: Bytes :| Valid(s + t) { TextIff(s + t); }
    if t: Bytes :| IsText(s + t) { TextIff(s + t); }
    CheckIsValid(s);
  }

  lemma CheckIsValid(s: Bytes)
    ensures FromUtf8(s).WellFormed? <==> Valid(s)
  {
  }

  lemma TextIff(s: Bytes)
    ensures Valid(s) <==> IsText(s)
  {
    ValidIff(s);
  }

  lemma LongestIsText(s: Bytes, v: nat)
    requires LongestValid(s, v)
    ensures LongestText(s, v)
  {
    hide Valid, IsText;
    forall k | 0 <= k <= |s| ensures Valid(s[..k]) <==> IsText(s[..k]) { TextIff(s[..k]); }
  }

  /**
   * Pending and new bytes are all text, or text with an unfinished character behind it, which is kept,
   * or, when none may follow or none could help, not text at all.
   */
  lemma DecodeIff(b: Buffers, bytes: Bytes, endOfStream: bool)
    ensures var all, d := b.Pending() + bytes, Decode(b, bytes, endOfStream);
            if IsText(all) then d == Text(None, all)
            else if endOfStream || !MayBecomeText(all) then d == NotText(all)
            else
              && d.Text? && d.utf8.Some?
              && |d.text| <= |all| && d.text == all[..|d.text|] && LongestText(all, |d.text|)
              && DecodeHex(d.utf8.value) == all[|d.text|..]
  {
    hide Valid, FromUtf8, IsText, EncodeHex, DecodeHex, MayBecomeText;
    var all := b.Pending() + bytes;
    OutcomeIff(all);
    match FromUtf8(all) {
      case Truncated(v) =>
        TruncatedSplit(all);
        StopsAtLongest(all);
        LongestIsText(all, v);
        HexRoundTrip(all[v..]);
      case _ =>
    }
  }

  /** Exactly then the call passes everything on as it came, the kept text first, and keeps nothing. */
  lemma PassedOnIff(s: Pipeline.Setup, b: Buffers, t: Events.State, bytes: Bytes, endOfStream: bool)
    ensures var all, c := b.Pending() + bytes, Pipeline.Call(s, b, t, bytes, endOfStream);
            && (c.reply.Raw? <==> !IsText(all) && (endOfStream || !MayBecomeText(all)))
            && (c.reply.Raw? ==>
                  c.reply.bytes == b.Leftover() + all && c.buffers == Buffers(None, None) && c.state == t)
  {
    hide IsText, MayBecomeText, Decode;
    DecodeIff(b, bytes, endOfStream);
  }
}
