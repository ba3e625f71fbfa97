/**
 * What a legacy IPv4 host denotes, written down without the parser: numerals by their digits and place
 * values, parts by the bits they fill.  The parser accepts exactly these hosts.
 */
module Ipv4Notation {
  import opened Prelude
  import opened LegacyIpv4

  function Power(base: nat, n: nat): nat { if n == 0 then 1 else base * Power(base, n - 1) }

  /** Digit values at their places, the first weighing most. */
  function PlaceSum(base: nat, values: seq<nat>): nat {
    if values == [] then 0 else values[0] * Power(base, |values| - 1) + PlaceSum(base, values[1..])
  }

  predicate IsDigit(c: char, v: int) {
    0 <= v < 16 && (c == "0123456789abcdef"[v] || c == "0123456789ABCDEF"[v])
  }

  predicate AreDigits(digits: string, base: nat, values: seq<nat>) {
    && |values| == |digits|
    && forall i | 0 <= i < |digits| :: values[i] < base && IsDigit(digits[i], values[i])
  }

  /** At least one digit, and less than 2^32. */
  ghost predicate Numeral(digits: string, base: nat, n: int) {
    digits != "" && n < 0x1_0000_0000 && exists values :: AreDigits(digits, base, values) && PlaceSum(base, values) == n
  }

  /** `0x...` and `0X...` are hexadecimal, `0...` with more behind it octal, and the rest decimal. */
  ghost predicate Denotes(part: string, n: int) {
    if |part| >= 2 && part[..2] in {"0x", "0X"} then Numeral(part[2..], 16, n)
    else if |part| >= 2 && part[0] == '0' then Numeral(part[1..], 8, n)
    else Numeral(part, 10, n)
  }

  lemma DigitIff(c: char, v: int, base: nat)
    requires base <= 16 && v < base
    ensures IsDigit(c, v) <==> 0 <= v && DigitValue(c) == v
  {
  }

  lemma {:induction false} PlaceSumSnoc(base: nat, values: seq<nat>, v: nat)
    ensures PlaceSum(base, values + [v]) == PlaceSum(base, values) * base + v
  {
    if values == [] {
      assert (values + [v])[1..] == [];
    } else {
      assert (values + [v])[1..] == values[1..] + [v];
      PlaceSumSnoc(base, values[1..], v);
      Distribute(values[0], Power(base, |values| - 1), PlaceSum(base, values[1..]), base);
    }
  }

  lemma Distribute(v: nat, power: nat, rest: nat, base: nat)
    ensures (v * power + rest) * base == v * (base * power) + rest * base
  {
  }

  /** Reading digit by digit gives the place-value sum. */
  lemma {:induction false} DigitsAreRead(digits: string, base: nat, values: seq<nat>)
    requires base <= 16 && AreDigits(digits, base, values)
    ensures AllDigits(digits, base) && ValueOf(digits, base) == PlaceSum(base, values)
  {
    if digits != "" {
      hide PlaceSum, DigitValue, AreDigits, ValueOf, AllDigits;
      LastRead(digits, base, values);
      var n := |digits| - 1;
      DigitsAreRead(digits[..n], base, values[..n]);
      PlaceSumSnoc(base, values[..n], values[n]);
      DigitAppended(digits[..n], digits[n], base);
    } else {
      NoDigits(base);
      assert PlaceSum(base, values) == 0;
    }
  }

  lemma LastRead(digits: string, base: nat, values: seq<nat>)
    requires base <= 16 && digits != "" && AreDigits(digits, base, values)
    ensures var n := |digits| - 1;
            && |values| == n + 1
            && values == values[..n] + [values[n]] && digits == digits[..n] + [digits[n]]
            && AreDigits(digits[..n], base, values[..n])
            && DigitValue(digits[n]) == values[n] < base
  {
    var n := |digits| - 1;
    DigitIff(digits[n], values[n], base);
  }

  lemma DigitValuesExist(digits: string, base: nat) returns (values: seq<nat>)
    requires base <= 16 && AllDigits(digits, base)
    ensures AreDigits(digits, base, values)
  {
    values := seq(|digits|, i requires 0 <= i < |digits| => DigitValue(digits[i]));
    forall i | 0 <= i < |digits| ensures IsDigit(digits[i], values[i]) { DigitIff(digits[i], values[i], base); }
  }

  lemma NumeralIff(digits: string, base: nat, n: int)
    requires base <= 16
    ensures Numeral(digits, base, n) <==>
            digits != "" && AllDigits(digits, base) && ValueOf(digits, base) == n < U32
  {
    if Numeral(digits, base, n) {
      var values :| AreDigits(digits, base, values) && PlaceSum(base, values) == n;
      DigitsAreRead(digits, base, values);
    }
    if AllDigits(digits, base) {
      var values := DigitValuesExist(digits, base);
      DigitsAreRead(digits, base, values);
    }
  }

  lemma PrefixIff(p: string, s: string)
    requires |p| <= |s|
    ensures p <= s <==> s[..|p|] == p
  {
  }

  /** A part is accepted, and read as n, exactly when it denotes n. */
  lemma NumberIff(part: string, n: int)
    ensures ParseNumber(part) == Some(n) <==> Denotes(part, n)
  {
    hide Numeral, AllDigits, ValueOf;
    if |part| >= 2 {
      PrefixIff("0x", part);
      PrefixIff("0X", part);
      NumeralIff(part[2..], 16, n);
      NumeralIff(part[1..], 8, n);
    }
    NumeralIff(part, 10, n);
  }

  // ---------------------------------------------------------------------------
  // The host
  // ---------------------------------------------------------------------------

  function Dotted(parts: seq<string>): string
    requires parts != []
  {
    if |parts| == 1 then parts[0] else parts[0] + "." + Dotted(parts[1..])
  }

  /** All parts but the last fill one octet, the last one the octets that remain. */
  predicate Fits(numbers: seq<int>) {
    && 1 <= |numbers| <= 4
    && (forall i | 0 <= i < |numbers| - 1 :: 0 <= numbers[i] < 0x100)
    && 0 <= numbers[|numbers| - 1] < Power(0x100, 5 - |numbers|)
  }

  ghost predicate HostReads(host: string, parts: seq<string>, dots: string, numbers: seq<int>) {
    && parts != [] && |numbers| == |parts|
    && host == Dotted(parts) + dots
    && (forall c | c in dots :: c == '.')
    && (forall i | 0 <= i < |parts| :: Denotes(parts[i], numbers[i]))
    && Fits(numbers)
  }

  lemma PowersOf256()
    ensures Power(0x100, 1) == 0x100 && Power(0x100, 2) == 0x1_0000
    ensures Power(0x100, 3) == 0x100_0000 && Power(0x100, 4) == 0x1_0000_0000
  {
    assert Power(0x100, 1) == 0x100 * Power(0x100, 0);
    assert Power(0x100, 2) == 0x100 * Power(0x100, 1);
  }

  lemma FitsIff(numbers: seq<int>)
    ensures Fits(numbers) <==> InRange(numbers)
  {
    PowersOf256();
    if |numbers| == 4 { assert Fits(numbers) <==> InRange(numbers); }
  }

  lemma {:induction false} NumbersIff(parts: seq<string>, numbers: seq<int>)
    ensures ParseNumbers(parts) == Some(numbers) <==>
            |numbers| == |parts| && forall i | 0 <= i < |parts| :: Denotes(parts[i], numbers[i])
  {
    hide ParseNumber, Denotes;
    if parts != [] {
      if numbers != [] {
        NumberIff(parts[0], numbers[0]);
        NumbersIff(parts[1..], numbers[1..]);
        assert numbers == [numbers[0]] + numbers[1..];
        assert forall i | 0 <= i < |parts[1..]| :: parts[1..][i] == parts[i + 1];
        assert forall i | 0 <= i < |numbers[1..]| :: numbers[1..][i] == numbers[i + 1];
      }
    }
  }
  lemma {:induction false} SplitRejoins(s: string)
    ensures Dotted(SplitDots(s)) == s
    ensures forall p | p in SplitDots(s) :: '.' !in p
  {
    if s != "" {
      SplitRejoins(s[1..]);
      hide SplitDots, Dotted;
      var rest := SplitDots(s[1..]);
      assert s == [s[0]] + s[1..];
      if s[0] == '.' {
        SplitOnDot(s);
        DottedCons("", rest);
      } else {
        SplitOnOther(s);
        assert forall p | p in [[s[0]] + rest[0]] + rest[1..] :: p == [s[0]] + rest[0] || p in rest;
        DottedGrows(s[0], rest);
      }
    }
  }

  lemma SplitOnDot(s: string)
    requires s != "" && s[0] == '.'
    ensures SplitDots(s) == [""] + SplitDots(s[1..])
  {
  }

  lemma SplitOnOther(s: string)
    requires s != "" && s[0] != '.'
    ensures var rest := SplitDots(s[1..]);
            SplitDots(s) == [[s[0]] + rest[0]] + rest[1..]
  {
  }

  lemma DottedCons(first: string, rest: seq<string>)
    requires rest != []
    ensures Dotted([first] + rest) == first + "." + Dotted(rest)
  {
    assert ([first] + rest)[1..] == rest;
  }

  lemma DottedGrows(c: char, parts: seq<string>)
    requires parts != []
    ensures Dotted([[c] + parts[0]] + parts[1..]) == [c] + Dotted(parts)
  {
    var all := [[c] + parts[0]] + parts[1..];
    assert all[1..] == parts[1..];
    if |parts| > 1 {
      Assoc([c], parts[0], "." + Dotted(parts[1..]));
      Assoc(parts[0], ".", Dotted(parts[1..]));
      Assoc([c] + parts[0], ".", Dotted(parts[1..]));
    }
  }

  lemma {:induction false} TrimmedDots(s: string) returns (dots: string)
    ensures s == TrimDots(s) + dots && forall c | c in dots :: c == '.'
  {
    dots := "";
    if s != "" && s[|s| - 1] == '.' {
      dots := TrimmedDots(s[..|s| - 1]);
      assert s == TrimDots(s) + (dots + ".");
      dots := dots + ".";
    }
  }

  lemma DigitsHaveNoDot(digits: string, base: nat)
    requires base <= 16 && AllDigits(digits, base)
    ensures '.' !in digits
  {
  }

  lemma DropKeepsDots(part: string, n: nat)
    requires n <= |part| && '.' !in part[..n] && '.' !in part[n..]
    ensures '.' !in part
  {
    assert part == part[..n] + part[n..];
  }

  lemma DenotesFacts(part: string, n: int)
    requires Denotes(part, n)
    ensures part != "" && '.' !in part
  {
    hide AllDigits, ValueOf, Numeral;
    if |part| >= 2 && part[..2] in {"0x", "0X"} {
      NumeralIff(part[2..], 16, n);
      DigitsHaveNoDot(part[2..], 16);
      DropKeepsDots(part, 2);
    } else if |part| >= 2 && part[0] == '0' {
      NumeralIff(part[1..], 8, n);
      DigitsHaveNoDot(part[1..], 8);
      DropKeepsDots(part, 1);
    } else {
      NumeralIff(part, 10, n);
      DigitsHaveNoDot(part, 10);
    }
  }

  lemma {:induction false} DottedSplits(parts: seq<string>)
    requires parts != [] && forall p | p in parts :: '.' !in p && p != ""
    ensures SplitDots(Dotted(parts)) == parts
    ensures var s := Dotted(parts); s != "" && s[|s| - 1] != '.'
  {
    assert parts[0] in parts;
    if |parts| == 1 {
      SplitDotFree(parts[0]);
    } else {
      var rest := parts[1..];
      assert forall p | p in rest :: p in parts;
      DottedSplits(rest);
      SplitAtDot(parts[0], Dotted(parts[1..]));
      var s := Dotted(parts);
      assert s == parts[0] + "." + Dotted(parts[1..]);
      assert s[|s| - 1] == Dotted(parts[1..])[|Dotted(parts[1..])| - 1];
    }
  }

  lemma HostIsRead(host: string, parts: seq<string>, dots: string, numbers: seq<int>)
    requires HostReads(host, parts, dots, numbers)
    ensures ParseHost(host) == Some(Weighted(numbers))
  {
    hide Denotes, ParseNumbers, ShiftOr, Weighted, Fits, InRange, TrimDots, SplitDots, Dotted;
    forall i | 0 <= i < |parts| ensures '.' !in parts[i] && parts[i] != "" { DenotesFacts(parts[i], numbers[i]); }
    DottedSplits(parts);
    TrimAdded(Dotted(parts), dots);
    NumbersIff(parts, numbers);
    FitsIff(numbers);
    ShiftOrIsWeighted(numbers);
    assert |numbers| <= 4 by { FitsCount(numbers); }
  }

  lemma FitsCount(numbers: seq<int>)
    requires Fits(numbers)
    ensures |numbers| <= 4
  {
  }

  /**
   * A host is accepted as an address exactly when it is one to four numerals between dots, and dots at
   * the end, whose numbers fit their octets, and the address is their weighted sum.
   */
  lemma HostIff(host: string, address: int)
    ensures ParseHost(host) == Some(address) <==>
            exists parts, dots, numbers :: HostReads(host, parts, dots, numbers) && Weighted(numbers) == address
  {
    hide Denotes, ParseNumbers, ShiftOr, Weighted, Fits, InRange, TrimDots, SplitDots, Dotted;
    if exists parts, dots, numbers :: HostReads(host, parts, dots, numbers) && Weighted(numbers) == address {
      var parts, dots, numbers :| HostReads(host, parts, dots, numbers) && Weighted(numbers) == address;
      HostIsRead(host, parts, dots, numbers);
    }
    if ParseHost(host) == Some(address) {
      var parts := SplitDots(TrimDots(host));
      var numbers := ParseNumbers(parts).value;
      var dots := TrimmedDots(host);
      SplitRejoins(TrimDots(host));
      NumbersIff(parts, numbers);
      FitsIff(numbers);
      ShiftOrIsWeighted(numbers);
      assert HostReads(host, parts, dots, numbers);
    }
  }
}
