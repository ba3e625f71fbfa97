/**
 * UTF-8 as section 4 of RFC 3629 defines it, the outcome of Rust's `str::from_utf8`,
 * and the hexadecimal form in which an incomplete sequence is kept between chunks.
 */
module Utf8 {
  import opened Prelude

  /** Number of octets in the sequence a lead octet announces; 0 if it cannot lead. */
  function Width(lead: byte): nat {
    if lead < 0x80 then 1
    else if 0xC2 <= lead <= 0xDF then 2
    else if 0xE0 <= lead <= 0xEF then 3
    else if 0xF0 <= lead <= 0xF4 then 4
    else 0
  }

  /** Whether `b` may stand at offset `i` of a sequence led by `lead`. */
  predicate Continues(lead: byte, i: nat, b: byte) {
    if i == 1 && lead == 0xE0 then 0xA0 <= b <= 0xBF
    else if i == 1 && lead == 0xED then 0x80 <= b <= 0x9F
    else if i == 1 && lead == 0xF0 then 0x90 <= b <= 0xBF
    else if i == 1 && lead == 0xF4 then 0x80 <= b <= 0x8F
    else 0x80 <= b <= 0xBF
  }

  /** `s` starts with a character, or is what a truncated character looks like. */
  predicate Opens(s: Bytes) {
    && s != []
    && Width(s[0]) > 0
    && forall i | 1 <= i < |s| && i < Width(s[0]) :: Continues(s[0], i, s[i])
  }

  predicate Valid(s: Bytes) {
    s == [] || (Opens(s) && Width(s[0]) <= |s| && Valid(s[Width(s[0])..]))
  }

  /** The three outcomes of `str::from_utf8`; `Truncated` is an error whose `error_len()` is `None`. */
  datatype Check = WellFormed | Truncated(validUpTo: nat) | Malformed(validUpTo: nat)

  function FromUtf8(s: Bytes): (r: Check)
    ensures r.WellFormed? <==> Valid(s)
    ensures r.Truncated? ==> r.validUpTo < |s|
  {
    if s == [] then WellFormed
    else if !Opens(s) then Malformed(0)
    else if |s| < Width(s[0]) then Truncated(0)
    else
      var w := Width(s[0]);
      match FromUtf8(s[w..])
      case WellFormed => WellFormed
      case Truncated(v) => Truncated(w + v)
      case Malformed(v) => Malformed(w + v)
  }

  /** A truncated text is a valid head followed by at most three octets. */
  lemma {:induction false} TruncatedSplit(s: Bytes)
    requires FromUtf8(s).Truncated?
    ensures var v := FromUtf8(s).validUpTo;
            Valid(s[..v]) && |s| <= v + 3
  {
    var w := Width(s[0]);
    if |s| < w {
      assert s[0..] == s;
    } else {
      TruncatedSplit(s[w..]);
      var u := FromUtf8(s[w..]).validUpTo;
      var head := s[..w + u];
      TakeOfDrop(s, w, u);
      assert Opens(head) by {
        forall i | 1 <= i < |head| && i < w ensures Continues(head[0], i, head[i]) {
          assert head[i] == s[i];
        }
      }
    }
  }

  lemma OpensCut(a: Bytes, b: Bytes)
    requires Opens(a + b) && a != []
    ensures Opens(a) && a[0] == (a + b)[0]
  {
    forall i | 1 <= i < |a| && i < Width(a[0]) ensures Continues(a[0], i, a[i]) {
      assert (a + b)[i] == a[i];
    }
  }

  /** A check goes on behind the first character. */
  lemma CheckFrom(s: Bytes)
    requires Opens(s)
    ensures var w := Width(s[0]);
            if |s| < w then FromUtf8(s) == Truncated(0) && !Valid(s)
            else
              && (Valid(s) <==> Valid(s[w..]))
              && (FromUtf8(s).WellFormed? <==> FromUtf8(s[w..]).WellFormed?)
              && (FromUtf8(s).Malformed? <==> FromUtf8(s[w..]).Malformed?)
              && (FromUtf8(s).Truncated? ==> FromUtf8(s).validUpTo == w + FromUtf8(s[w..]).validUpTo)
              && (FromUtf8(s).Malformed? ==> FromUtf8(s).validUpTo == w + FromUtf8(s[w..]).validUpTo)
  {
  }

  lemma ValidOpens(s: Bytes)
    requires Valid(s) && s != []
    ensures Opens(s)
  {
  }

  lemma CutInFirst(a: Bytes, b: Bytes)
    requires Opens(a) && |a| < Width(a[0]) && a[0] == (a + b)[0] && Valid(a + b)
    ensures FromUtf8(a) == Truncated(0) && b != [] && Valid(a[0..] + b)
  {
    hide Opens, FromUtf8;
    CheckFrom(a);
    assert a[0..] == a && |a + b| == |a| + |b|;
  }

  lemma CutLater(a: Bytes, b: Bytes)
    requires Opens(a) && Width(a[0]) <= |a| && a[0] == (a + b)[0] && Valid(a + b)
    ensures Valid(a[Width(a[0])..] + b)
  {
    DropAppend(a, b, Width(a[0]));
  }

  lemma TruncatedLater(a: Bytes)
    requires Opens(a) && Width(a[0]) <= |a| && FromUtf8(a).Truncated?
    ensures var more := a[Width(a[0])..];
            FromUtf8(more).Truncated? && a[FromUtf8(a).validUpTo..] == more[FromUtf8(more).validUpTo..]
  {
    var w := Width(a[0]);
    DropDrop(a, w, FromUtf8(a[w..]).validUpTo);
  }

  /** Cutting a valid text anywhere leaves a valid head, at most three odd octets, and a valid remainder. */
  lemma {:induction false} CutValidText(a: Bytes, b: Bytes)
    requires Valid(a + b)
    ensures FromUtf8(a).WellFormed? ==> Valid(b)
    ensures !FromUtf8(a).Malformed?
    ensures FromUtf8(a).Truncated? ==> b != [] && Valid(a[FromUtf8(a).validUpTo..] + b)
  {
    if a == [] {
      assert a + b == b;
    } else {
      hide Valid, Opens, FromUtf8, Width;
      ValidOpens(a + b);
      OpensCut(a, b);
      if Width(a[0]) <= |a| {
        CheckFrom(a);
        CutLater(a, b);
        CutValidText(a[Width(a[0])..], b);
        if FromUtf8(a).Truncated? { TruncatedLater(a); }
      } else {
        CutInFirst(a, b);
      }
    }
  }

  lemma {:induction false} ValidAppend(a: Bytes, b: Bytes)
    requires Valid(a) && Valid(b)
    ensures Valid(a + b)
  {
    if a == [] {
      assert a + b == b;
    } else {
      var w := Width(a[0]);
      ValidAppend(a[w..], b);
      var s := a + b;
      assert s[0] == a[0];
      DropAppend(a, b, w);
      forall i | 1 <= i < |s| && i < w ensures Continues(s[0], i, s[i]) { assert s[i] == a[i]; }
    }
  }

  lemma {:induction false} DropLastAscii(a: Bytes, c: byte)
    requires Valid(a + [c]) && c < 0x80
    ensures Valid(a)
    decreases |a|
  {
    if a != [] {
      var s := a + [c];
      var w := Width(a[0]);
      assert s[0] == a[0];
      assert w == |s| ==> Continues(s[0], |s| - 1, s[|s| - 1]);
      DropAppend(a, [c], w);
      DropLastAscii(a[w..], c);
      forall i | 1 <= i < |a| && i < w ensures Continues(a[0], i, a[i]) { assert s[i] == a[i]; }
    }
  }

  // ---------------------------------------------------------------------------
  // Hexadecimal buffer
  // ---------------------------------------------------------------------------

  function HexDigit(n: int): char
    requires 0 <= n < 16
  {
    "0123456789abcdef"[n]
  }

  function EncodeHex(bytes: Bytes): string {
    if bytes == [] then ""
    else [HexDigit(bytes[0] / 16), HexDigit(bytes[0] % 16)] + EncodeHex(bytes[1..])
  }

  function HexNibble(c: char): Option<int> {
    if '0' <= c <= '9' then Some(c as int - '0' as int)
    else if 'a' <= c <= 'f' then Some(c as int - 'a' as int + 10)
    else None
  }

  /** Pairs that are not two lowercase digits are skipped, and so is an odd last digit. */
  function DecodeHex(hex: string): Bytes {
    if |hex| < 2 then []
    else
      match (HexNibble(hex[0]), HexNibble(hex[1]))
      case (Some(hi), Some(lo)) => [16 * hi + lo] + DecodeHex(hex[2..])
      case _ => DecodeHex(hex[2..])
  }

  lemma HexNibbleInverts(n: int)
    requires 0 <= n < 16
    ensures HexNibble(HexDigit(n)) == Some(n)
  {
  }

  lemma DropPair(pair: string, more: string)
    requires |pair| == 2
    ensures (pair + more)[2..] == more && (pair + more)[0] == pair[0] && (pair + more)[1] == pair[1]
  {
  }

  lemma {:induction false} HexRoundTrip(bytes: Bytes)
    ensures DecodeHex(EncodeHex(bytes)) == bytes
    ensures |EncodeHex(bytes)| == 2 * |bytes|
  {
    if bytes != [] {
      HexNibbleInverts(bytes[0] / 16);
      HexNibbleInverts(bytes[0] % 16);
      HexRoundTrip(bytes[1..]);
      var pair, more := [HexDigit(bytes[0] / 16), HexDigit(bytes[0] % 16)], EncodeHex(bytes[1..]);
      DropPair(pair, more);
      assert bytes == [bytes[0]] + bytes[1..];
    }
  }
}
