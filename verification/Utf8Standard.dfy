/**
 * What valid UTF-8 is: the characters of the table in section 3 of RFC 3629, one after another.  The
 * check the filter relies on is measured against that table here.
 */
module Utf8Standard {
  import opened Prelude
  import opened Utf8

  predicate Scalar(c: int) { 0 <= c <= 0x10FFFF && !(0xD800 <= c <= 0xDFFF) }

  /** The octets of a character: its bits, six at a time, behind the marks of the table. */
  function Encoded(c: int): Bytes
    requires Scalar(c)
  {
    if c <= 0x7F then [c]
    else if c <= 0x7FF then [0xC0 + c / 0x40, 0x80 + c % 0x40]
    else if c <= 0xFFFF then [0xE0 + c / 0x1000, 0x80 + c / 0x40 % 0x40, 0x80 + c % 0x40]
    else [0xF0 + c / 0x40000, 0x80 + c / 0x1000 % 0x40, 0x80 + c / 0x40 % 0x40, 0x80 + c % 0x40]
  }

  predicate Scalars(cs: seq<int>) { forall i | 0 <= i < |cs| :: Scalar(cs[i]) }

  function EncodedText(cs: seq<int>): Bytes
    requires Scalars(cs)
  {
    if cs == [] then [] else Encoded(cs[0]) + EncodedText(cs[1..])
  }

  // ---------------------------------------------------------------------------
  // One character
  // ---------------------------------------------------------------------------

  lemma EncodedOpens(c: int, more: Bytes)
    requires Scalar(c)
    ensures var s := Encoded(c) + more;
            Opens(s) && Width(s[0]) == |Encoded(c)| && s[|Encoded(c)|..] == more
  {
    assert (Encoded(c) + more)[|Encoded(c)|..] == more;
    if c <= 0x7F {
      FewOctetsOpen([c], more);
    } else if c <= 0x7FF {
      FewOctetsOpen([0xC0 + c / 0x40, 0x80 + c % 0x40], more);
    } else if c <= 0xFFFF {
      ThreeOctets(c);
      ThreeOctetsOpen([0xE0 + c / 0x1000, 0x80 + c / 0x40 % 0x40, 0x80 + c % 0x40], more);
    } else {
      FourOctets(c);
      FourOctetsOpen([0xF0 + c / 0x40000, 0x80 + c / 0x1000 % 0x40, 0x80 + c / 0x40 % 0x40, 0x80 + c % 0x40], more);
    }
  }

  lemma FewOctetsOpen(s: Bytes, more: Bytes)
    requires || (|s| == 1 && s[0] <= 0x7F)
             || (|s| == 2 && 0xC2 <= s[0] <= 0xDF && 0x80 <= s[1] <= 0xBF)
    ensures Opens(s + more) && Width((s + more)[0]) == |s|
  {
  }

  lemma ThreeOctetsOpen(s: Bytes, more: Bytes)
    requires |s| == 3 && 0xE0 <= s[0] <= 0xEF && 0x80 <= s[1] <= 0xBF && 0x80 <= s[2] <= 0xBF
    requires (s[0] == 0xE0 ==> s[1] >= 0xA0) && (s[0] == 0xED ==> s[1] <= 0x9F)
    ensures Opens(s + more) && Width((s + more)[0]) == 3
  {
  }

  lemma FourOctetsOpen(s: Bytes, more: Bytes)
    requires |s| == 4 && 0xF0 <= s[0] <= 0xF4 && 0x80 <= s[1] <= 0xBF && 0x80 <= s[2] <= 0xBF && 0x80 <= s[3] <= 0xBF
    requires (s[0] == 0xF0 ==> s[1] >= 0x90) && (s[0] == 0xF4 ==> s[1] <= 0x8F)
    ensures Opens(s + more) && Width((s + more)[0]) == 4
  {
  }

  lemma ThreeOctets(c: int)
    requires 0x800 <= c <= 0xFFFF && Scalar(c)
    ensures var x, y := c / 0x1000, c / 0x40 % 0x40;
            && 0 <= x <= 0xF && (x == 0 ==> y >= 0x20) && (x == 0xD ==> y <= 0x1F)
            && c == (x * 0x40 + y) * 0x40 + c % 0x40
  {
    var h := c / 0x40;
    assert h / 0x40 == c / 0x1000;
    assert h == h / 0x40 * 0x40 + h % 0x40;
  }

  lemma FourOctets(c: int)
    requires 0x10000 <= c <= 0x10FFFF
    ensures var x, y := c / 0x40000, c / 0x1000 % 0x40;
            && 0 <= x <= 4 && (x == 0 ==> y >= 0x10) && (x == 4 ==> y <= 0xF)
            && c == ((x * 0x40 + y) * 0x40 + c / 0x40 % 0x40) * 0x40 + c % 0x40
  {
    var h := c / 0x40;
    var g := h / 0x40;
    assert g == c / 0x1000 && g / 0x40 == c / 0x40000;
    assert h == g * 0x40 + h % 0x40 && g == g / 0x40 * 0x40 + g % 0x40;
  }

  /** The octets of an open character are those of the character with the bits behind their marks. */
  lemma OpensIsEncoded(s: Bytes) returns (c: int)
    requires Opens(s) && Width(s[0]) <= |s|
    ensures Scalar(c) && Encoded(c) == s[..Width(s[0])]
  {
    hide Encoded, Scalar;
    var w := Width(s[0]);
    var a: int := s[0];
    if w == 1 {
      c := a;
      OneOctet(c);
      assert s[..1] == [s[0]];
      return;
    }
    var b: int := s[1];
    assert Continues(s[0], 1, s[1]);
    if w == 2 {
      c := (a - 0xC0) * 0x40 + (b - 0x80);
      TwoBack(a - 0xC0, b - 0x80);
      assert s[..2] == [s[0], s[1]];
    } else if w == 3 {
      assert Continues(s[0], 2, s[2]);
      c := ((a - 0xE0) * 0x40 + (b - 0x80)) * 0x40 + (s[2] as int - 0x80);
      ThreeBack(a - 0xE0, b - 0x80, s[2] as int - 0x80);
      assert s[..3] == [s[0], s[1], s[2]];
    } else {
      assert Continues(s[0], 2, s[2]) && Continues(s[0], 3, s[3]);
      c := (((a - 0xF0) * 0x40 + (b - 0x80)) * 0x40 + (s[2] as int - 0x80)) * 0x40 + (s[3] as int - 0x80);
      FourBack(a - 0xF0, b - 0x80, s[2] as int - 0x80, s[3] as int - 0x80);
      assert s[..4] == [s[0], s[1], s[2], s[3]];
    }
  }

  lemma OneOctet(c: int)
    requires 0 <= c <= 0x7F
    ensures Scalar(c) && Encoded(c) == [c]
  {
  }

  lemma TwoBack(x: int, y: int)
    requires 2 <= x <= 0x1F && 0 <= y < 0x40
    ensures var c := x * 0x40 + y; Scalar(c) && Encoded(c) == [0xC0 + x, 0x80 + y]
  {
  }

  lemma ThreeBack(x: int, y: int, z: int)
    requires 0 <= x <= 0xF && 0 <= y < 0x40 && 0 <= z < 0x40
    requires (x == 0 ==> y >= 0x20) && (x == 0xD ==> y <= 0x1F)
    ensures var c := (x * 0x40 + y) * 0x40 + z;
            Scalar(c) && Encoded(c) == [0xE0 + x, 0x80 + y, 0x80 + z]
  {
    var c, h := (x * 0x40 + y) * 0x40 + z, x * 0x40 + y;
    assert c / 0x40 == h && h / 0x40 == x && h % 0x40 == y;
    assert c / 0x1000 == h / 0x40 && c % 0x40 == z;
    assert 0x800 <= c <= 0xFFFF && !(0xD800 <= c <= 0xDFFF);
  }

  lemma FourBack(x: int, y: int, z: int, u: int)
    requires 0 <= x <= 4 && 0 <= y < 0x40 && 0 <= z < 0x40 && 0 <= u < 0x40
    requires (x == 0 ==> y >= 0x10) && (x == 4 ==> y <= 0xF)
    ensures var c := ((x * 0x40 + y) * 0x40 + z) * 0x40 + u;
            Scalar(c) && Encoded(c) == [0xF0 + x, 0x80 + y, 0x80 + z, 0x80 + u]
  {
    var g := x * 0x40 + y;
    var h := g * 0x40 + z;
    var c := h * 0x40 + u;
    assert c / 0x40 == h && h / 0x40 == g && g / 0x40 == x;
    assert c / 0x1000 == g && c / 0x40000 == x && c % 0x40 == u && h % 0x40 == z && g % 0x40 == y;
    assert 0x10000 <= c <= 0x10FFFF;
  }

  // ---------------------------------------------------------------------------
  // Texts
  // ---------------------------------------------------------------------------

  ghost predicate IsText(s: Bytes) { exists cs: seq<int> :: Scalars(cs) && s == EncodedText(cs) }

  lemma {:induction false} EncodedTextIsValid(cs: seq<int>)
    requires Scalars(cs)
    ensures Valid(EncodedText(cs))
  {
    if cs != [] {
      EncodedTextIsValid(cs[1..]);
      EncodedOpens(cs[0], EncodedText(cs[1..]));
    }
  }

  lemma {:induction false} ValidIsEncodedText(s: Bytes)
    requires Valid(s)
    ensures IsText(s)
  {
    hide IsText, Width, Encoded;
    if s == [] {
      NothingIsText();
    } else {
      var w := Width(s[0]);
      ValidIsEncodedText(s[w..]);
      var c := OpensIsEncoded(s);
      CharacterFirst(c, s[w..]);
      assert s == s[..w] + s[w..];
    }
  }

  lemma NothingIsText()
    ensures IsText([])
  {
    assert EncodedText([]) == [];
  }

  lemma CharacterFirst(c: int, rest: Bytes)
    requires Scalar(c) && IsText(rest)
    ensures IsText(Encoded(c) + rest)
  {
    hide Encoded;
    var cs: seq<int> :| Scalars(cs) && rest == EncodedText(cs);
    var all := [c] + cs;
    assert all[1..] == cs;
    assert EncodedText(all) == Encoded(c) + rest;
  }

  /** Octets are valid if and only if they are a sequence of characters as the table writes them. */
  lemma ValidIff(s: Bytes)
    ensures Valid(s) <==> exists cs: seq<int> :: Scalars(cs) && s == EncodedText(cs)
  {
    if Valid(s) { ValidIsEncodedText(s); }
    if cs: seq<int> :| Scalars(cs) && s == EncodedText(cs) { EncodedTextIsValid(cs); }
  }

  // ---------------------------------------------------------------------------
  // Outcomes of the check
  // ---------------------------------------------------------------------------

  /** The least octet that may come next. */
  function LeastNext(lead: byte, i: nat): byte {
    if i == 1 && lead == 0xE0 then 0xA0 else if i == 1 && lead == 0xF0 then 0x90 else 0x80
  }

  lemma {:induction false} CharacterCompletes(s: Bytes)
    requires Opens(s) && |s| <= Width(s[0])
    ensures exists t :: Valid(s + t)
    decreases Width(s[0]) - |s|
  {
    var w := Width(s[0]);
    var nothing: Bytes := [];
    if |s| == w {
      assert s + nothing == s && s[w..] == nothing;
      assert Valid(s + nothing);
    } else {
      var b := LeastNext(s[0], |s|);
      var longer := s + [b];
      OneMoreOpens(s, b);
      CharacterCompletes(longer);
      var t :| Valid(longer + t);
      assert longer + t == s + ([b] + t);
    }
  }

  lemma OneMoreOpens(s: Bytes, b: byte)
    requires Opens(s) && |s| < Width(s[0]) && Continues(s[0], |s|, b)
    ensures Opens(s + [b]) && (s + [b])[0] == s[0]
  {
    var longer := s + [b];
    forall i | 1 <= i < |longer| && i < Width(longer[0]) ensures Continues(longer[0], i, longer[i]) {
      if i < |s| { assert longer[i] == s[i]; }
    }
  }

  lemma {:induction false} NotMalformedCompletes(s: Bytes)
    requires !FromUtf8(s).Malformed?
    ensures exists t :: Valid(s + t)
  {
    var nothing: Bytes := [];
    if s == [] {
      assert Valid(s + nothing);
    } else {
      hide Opens, Continues;
      CheckFrom(s);
      var w := Width(s[0]);
      if |s| < w {
        CharacterCompletes(s);
      } else {
        NotMalformedCompletes(s[w..]);
        var t :| Valid(s[w..] + t);
        ValidFrom(s, t);
      }
    }
  }

  lemma ValidFrom(s: Bytes, t: Bytes)
    requires Opens(s) && Width(s[0]) <= |s| && Valid(s[Width(s[0])..] + t)
    ensures Valid(s + t)
  {
    var w := Width(s[0]);
    DropAppend(s, t, w);
    forall i | 1 <= i < |s + t| && i < w ensures Continues((s + t)[0], i, (s + t)[i]) { assert (s + t)[i] == s[i]; }
  }

  /** A text is malformed if and only if nothing that follows can make it valid. */
  lemma MalformedIff(s: Bytes)
    ensures !FromUtf8(s).Malformed? <==> exists t :: Valid(s + t)
  {
    if !FromUtf8(s).Malformed? { NotMalformedCompletes(s); }
    if t :| Valid(s + t) { CutValidText(s, t); }
  }

  predicate LongestValid(s: Bytes, v: nat) {
    v <= |s| && Valid(s[..v]) && forall k | 0 <= k <= |s| && Valid(s[..k]) :: k <= v
  }

  function StoppedAt(c: Check): nat
    requires !c.WellFormed?
  {
    c.validUpTo
  }

  /** Where the check stops, the valid part is the longest there is. */
  lemma {:induction false} StopsAtLongest(s: Bytes)
    requires !FromUtf8(s).WellFormed?
    ensures LongestValid(s, StoppedAt(FromUtf8(s)))
  {
    hide Continues, Valid, Width;
    if !Opens(s) || |s| < Width(s[0]) {
      StopsAtOnce(s);
    } else {
      var w := Width(s[0]);
      hide FromUtf8, Opens;
      CheckFrom(s);
      NeverTwoOutcomes(s[w..]);
      NeverTwoOutcomes(s);
      StopsAtLongest(s[w..]);
      LongestFrom(s, StoppedAt(FromUtf8(s[w..])));
    }
  }

  lemma NeverTwoOutcomes(s: Bytes)
    ensures FromUtf8(s).WellFormed? <==> !FromUtf8(s).Truncated? && !FromUtf8(s).Malformed?
  {
  }

  lemma StopsAtOnce(s: Bytes)
    requires !FromUtf8(s).WellFormed? && (Opens(s) ==> |s| < Width(s[0]))
    ensures LongestValid(s, 0) && StoppedAt(FromUtf8(s)) == 0
  {
    hide Continues;
    assert s[..0] == [];
    forall k | 0 < k <= |s| && Valid(s[..k]) ensures false { PrefixOpens(s, k); }
  }

  lemma LongestFrom(s: Bytes, v: nat)
    requires Opens(s) && Width(s[0]) <= |s| && LongestValid(s[Width(s[0])..], v)
    ensures LongestValid(s, Width(s[0]) + v)
  {
    hide Continues, FromUtf8, Valid, Width;
    var w := Width(s[0]);
    ValidLonger(s, v);
    forall k | 0 <= k <= |s| && Valid(s[..k]) ensures k <= w + v {
      if k > 0 {
        PrefixOpens(s, k);
        ValidShorter(s, k);
      }
    }
  }

  lemma ValidShorter(s: Bytes, k: nat)
    requires Opens(s) && 0 < k <= |s| && Width(s[0]) <= k && Valid(s[..k])
    ensures Valid(s[Width(s[0])..][..k - Width(s[0])])
  {
    hide Continues, FromUtf8;
    TakeOfDrop(s, Width(s[0]), k - Width(s[0]));
  }

  lemma ValidLonger(s: Bytes, u: nat)
    requires Opens(s) && Width(s[0]) + u <= |s| && Valid(s[Width(s[0])..][..u])
    ensures Valid(s[..Width(s[0]) + u])
  {
    hide Valid, FromUtf8, Continues;
    var w := Width(s[0]);
    var head := s[..w + u];
    assert head + s[w + u..] == s;
    TakeOfDrop(s, w, u);
    OpensCut(head, s[w + u..]);
    CheckFrom(head);
  }

  lemma PrefixOpens(s: Bytes, k: nat)
    requires 0 < k <= |s| && Valid(s[..k])
    ensures Opens(s) && Width(s[0]) <= k
  {
    assert s == s[..k] + s[k..];
    var head := s[..k];
    forall i | 1 <= i < |s| && i < Width(s[0]) ensures Continues(s[0], i, s[i]) { assert head[i] == s[i]; }
  }
}
