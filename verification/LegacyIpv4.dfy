/** Legacy IPv4 literals: one to four parts, each decimal, octal or hexadecimal (section 3.1.1 of RFC 6943). */
module LegacyIpv4 {
  import opened Prelude

  const U32: int := 0x1_0000_0000

  // ---------------------------------------------------------------------------
  // One part
  // ---------------------------------------------------------------------------

  function DigitValue(c: char): int {
    if '0' <= c <= '9' then c as int - '0' as int
    else if 'a' <= c <= 'f' then c as int - 'a' as int + 10
    else if 'A' <= c <= 'F' then c as int - 'A' as int + 10
    else 99
  }

  predicate AllDigits(s: string, radix: nat) { forall i | 0 <= i < |s| :: DigitValue(s[i]) < radix }

  function ValueOf(digits: string, radix: nat): int {
    if digits == "" then 0
    else ValueOf(digits[..|digits| - 1], radix) * radix + DigitValue(digits[|digits| - 1])
  }

  /** A prefix `0x` or `0X` makes it hexadecimal, a leading zero with more behind it octal. */
  function ParseNumber(part: string): Option<int> {
    var radix := if "0x" <= part || "0X" <= part then 16 else if |part| > 1 && part[0] == '0' then 8 else 10;
    var digits := if radix == 16 then part[2..] else if radix == 8 then part[1..] else part;
    if digits == "" || !AllDigits(digits, radix) || ValueOf(digits, radix) >= U32 then None
    else Some(ValueOf(digits, radix))
  }

  datatype Form = Decimal | Octal | Hexadecimal

  function Radix(f: Form): nat { match f case Decimal => 10 case Octal => 8 case Hexadecimal => 16 }

  function PrintDigits(n: nat, f: Form): string
    decreases n
  {
    var digit := "0123456789abcdef"[n % Radix(f)];
    if n < Radix(f) then [digit] else PrintDigits(n / Radix(f), f) + [digit]
  }

  function PrintNumber(n: nat, f: Form): string {
    (match f case Decimal => "" case Octal => "0" case Hexadecimal => "0x") + PrintDigits(n, f)
  }

  lemma PrintedDigit(n: nat)
    requires n < 16
    ensures DigitValue("0123456789abcdef"[n]) == n && "0123456789abcdef"[n] != '.'
    ensures "0123456789abcdef"[n] == '0' <==> n == 0
  {
  }

  lemma DigitAppended(s: string, c: char, radix: nat)
    requires AllDigits(s, radix) && DigitValue(c) < radix
    ensures AllDigits(s + [c], radix) && ValueOf(s + [c], radix) == ValueOf(s, radix) * radix + DigitValue(c)
  {
    var t := s + [c];
    assert t[..|t| - 1] == s;
    assert forall i | 0 <= i < |s| :: t[i] == s[i];
  }

  lemma NoDigits(radix: nat)
    ensures AllDigits("", radix) && ValueOf("", radix) == 0
  {
  }

  lemma LastDigit(n: nat, r: nat)
    requires r > 0
    ensures n / r * r + n % r == n && (n < r ==> n % r == n)
  {
    if n < r { assert n / r == 0; }
  }

  /** Printed digits read back as the number. */
  lemma {:induction false} PrintedValue(n: nat, f: Form)
    ensures AllDigits(PrintDigits(n, f), Radix(f)) && ValueOf(PrintDigits(n, f), Radix(f)) == n
    decreases n
  {
    hide AllDigits, ValueOf, DigitValue;
    var r := Radix(f);
    var digit := "0123456789abcdef"[n % r];
    PrintedDigit(n % r);
    LastDigit(n, r);
    if n >= r {
      PrintedValue(n / r, f);
      DigitAppended(PrintDigits(n / r, f), digit, r);
    } else {
      NoDigits(r);
      DigitAppended("", digit, r);
      assert "" + [digit] == PrintDigits(n, f);
    }
  }

  /** They hold no dot, and only zero starts with a zero. */
  lemma {:induction false} PrintedShape(n: nat, f: Form)
    ensures var s := PrintDigits(n, f);
            && s != ""
            && '.' !in s
            && (s[0] == '0' <==> n == 0)
            && (n == 0 ==> s == "0")
    decreases n
  {
    var r := Radix(f);
    PrintedDigit(n % r);
    LastDigit(n, r);
    if n >= r { PrintedShape(n / r, f); }
  }

  /** What a part denotes once its prefix is read. */
  lemma ReadPart(part: string, digits: string, radix: nat, n: nat)
    requires AllDigits(digits, radix) && ValueOf(digits, radix) == n < U32 && digits != ""
    requires || (radix == 16 && part == "0x" + digits)
             || (radix == 8 && part == "0" + digits && digits[0] != 'x' && digits[0] != 'X')
             || (radix == 10 && part == digits && (|part| > 1 ==> part[0] != '0'))
    ensures ParseNumber(part) == Some(n)
  {
    if radix == 16 {
      assert part[2..] == digits;
    } else if radix == 8 {
      assert part[1..] == digits && part[1] == digits[0];
    } else if |part| > 1 {
      assert part[0] != '0';
    }
  }

  lemma NumberRoundTrip(n: nat, f: Form)
    requires n < U32
    ensures ParseNumber(PrintNumber(n, f)) == Some(n)
    ensures PrintNumber(n, f) != "" && '.' !in PrintNumber(n, f)
  {
    hide ParseNumber, PrintDigits, ValueOf;
    PrintedValue(n, f);
    PrintedShape(n, f);
    var s := PrintDigits(n, f);
    assert f == Octal ==> DigitValue(s[0]) < 8;
    assert f == Decimal ==> "" + s == s;
    ReadPart(PrintNumber(n, f), s, Radix(f), n);
  }

  // ---------------------------------------------------------------------------
  // The host
  // ---------------------------------------------------------------------------

  function TrimDots(s: string): string {
    if s != "" && s[|s| - 1] == '.' then TrimDots(s[..|s| - 1]) else s
  }

  function SplitDots(s: string): (parts: seq<string>)
    ensures parts != []
  {
    if s == "" then [""]
    else
      var rest := SplitDots(s[1..]);
      if s[0] == '.' then [""] + rest else [[s[0]] + rest[0]] + rest[1..]
  }

  function ParseNumbers(parts: seq<string>): Option<seq<int>> {
    if parts == [] then Some([])
    else
      match ParseNumber(parts[0])
      case None => None
      case Some(n) =>
        match ParseNumbers(parts[1..])
        case None => None
        case Some(rest) => Some([n] + rest)
  }

  /** Bitwise or, and a 32-bit left shift. */
  function Or(x: nat, y: nat): nat {
    if x == 0 && y == 0 then 0
    else (if x % 2 == 1 || y % 2 == 1 then 1 else 0) + 2 * Or(x / 2, y / 2)
  }

  function Pow2(n: nat): nat { if n == 0 then 1 else 2 * Pow2(n - 1) }

  function Shl(x: nat, n: nat): nat { x * Pow2(n) % U32 }

  predicate InRange(numbers: seq<int>) {
    && (forall i | 0 <= i < |numbers| :: 0 <= numbers[i] < U32)
    && match |numbers|
       case 1 => true
       case 2 => numbers[0] <= 0xFF && numbers[1] <= 0x00FF_FFFF
       case 3 => numbers[0] <= 0xFF && numbers[1] <= 0xFF && numbers[2] <= 0xFFFF
       case 4 => forall i | 0 <= i < 4 :: numbers[i] <= 0xFF
       case _ => false
  }

  function ShiftOr(numbers: seq<int>): int
    requires InRange(numbers)
  {
    match |numbers|
    case 1 => numbers[0]
    case 2 => Or(Shl(numbers[0], 24), numbers[1])
    case 3 => Or(Or(Shl(numbers[0], 24), Shl(numbers[1], 16)), numbers[2])
    case _ => Or(Or(Or(Shl(numbers[0], 24), Shl(numbers[1], 16)), Shl(numbers[2], 8)), numbers[3])
  }

  function Address(numbers: seq<int>): Option<int> {
    if InRange(numbers) then Some(ShiftOr(numbers)) else None
  }

  function ParseHost(host: string): Option<int> {
    var parts := SplitDots(TrimDots(host));
    if |parts| > 4 || "" in parts then None
    else match ParseNumbers(parts)
         case None => None
         case Some(numbers) => Address(numbers)
  }

  lemma AppendedNone(read: Option<seq<int>>)
    ensures read == match read case None => None case Some(rest) => Some([] + rest)
  {
    assert read.Some? ==> [] + read.value == read.value;
  }

  /** The loop of the code: numbers are pushed until one is refused. */
  method ParseLegacyIpv4Host(host: string) returns (address: Option<int>)
    ensures address == ParseHost(host)
  {
    hide ParseNumber, SplitDots, TrimDots, Address;
    var parts := SplitDots(TrimDots(host));
    if |parts| > 4 || "" in parts {
      return None;
    }
    var numbers: seq<int> := [];
    assert parts[0..] == parts;
    AppendedNone(ParseNumbers(parts));
    for i := 0 to |parts|
      invariant ParseNumbers(parts) ==
                match ParseNumbers(parts[i..]) case None => None case Some(rest) => Some(numbers + rest)
    {
      assert parts[i..][1..] == parts[i + 1..];
      var n := ParseNumber(parts[i]);
      if n.None? {
        return None;
      }
      ghost var tail := ParseNumbers(parts[i + 1..]);
      assert tail.Some? ==> numbers + ([n.value] + tail.value) == numbers + [n.value] + tail.value;
      numbers := numbers + [n.value];
    }
    assert parts[|parts|..] == [] && numbers + [] == numbers;
    return Address(numbers);
  }

  // ---------------------------------------------------------------------------
  // Shift-or is the weighted sum
  // ---------------------------------------------------------------------------

  lemma {:induction false} OrZero(x: nat)
    ensures Or(x, 0) == x
  {
    if x != 0 { OrZero(x / 2); }
  }

  lemma {:induction false} OrIsSum(high: nat, n: nat, low: nat)
    requires low < Pow2(n)
    ensures Or(high * Pow2(n), low) == high * Pow2(n) + low
    decreases n
  {
    if n == 0 {
      OrZero(high);
    } else {
      var half := high * Pow2(n - 1);
      assert high * Pow2(n) == 2 * half;
      OrIsSum(high, n - 1, low / 2);
    }
  }

  lemma Powers()
    ensures Pow2(8) == 0x100 && Pow2(16) == 0x1_0000 && Pow2(24) == 0x100_0000
  {
    assert Pow2(8) == 0x100;
    assert Pow2(16) == 0x1_0000;
  }

  function Weighted(numbers: seq<int>): int {
    match |numbers|
    case 1 => numbers[0]
    case 2 => numbers[0] * 0x100_0000 + numbers[1]
    case 3 => numbers[0] * 0x100_0000 + numbers[1] * 0x1_0000 + numbers[2]
    case 4 => numbers[0] * 0x100_0000 + numbers[1] * 0x1_0000 + numbers[2] * 0x100 + numbers[3]
    case _ => 0
  }

  lemma Shifts(x: nat)
    ensures x < 0x100 ==> Shl(x, 24) == x * 0x100_0000 && Shl(x, 16) == x * 0x1_0000 && Shl(x, 8) == x * 0x100
  {
    hide Pow2;
    Powers();
  }

  lemma TwoParts(a: nat, b: nat)
    requires a <= 0xFF && b <= 0x00FF_FFFF
    ensures Or(Shl(a, 24), b) == a * 0x100_0000 + b
  {
    hide Pow2, Shl, Or;
    Powers();
    Shifts(a);
    OrIsSum(a, 24, b);
  }

  lemma ThreeParts(a: nat, b: nat, c: nat)
    requires a <= 0xFF && b <= 0xFF && c <= 0xFFFF
    ensures Or(Or(Shl(a, 24), Shl(b, 16)), c) == a * 0x100_0000 + b * 0x1_0000 + c
  {
    hide Pow2, Shl, Or;
    Powers();
    Shifts(b);
    TwoParts(a, b * 0x1_0000);
    OrIsSum(a * 0x100 + b, 16, c);
  }

  lemma FourParts(a: nat, b: nat, c: nat, d: nat)
    requires a <= 0xFF && b <= 0xFF && c <= 0xFF && d <= 0xFF
    ensures Or(Or(Or(Shl(a, 24), Shl(b, 16)), Shl(c, 8)), d) == a * 0x100_0000 + b * 0x1_0000 + c * 0x100 + d
  {
    hide Pow2, Shl, Or;
    Powers();
    Shifts(c);
    ThreeParts(a, b, c * 0x100);
    OrIsSum(a * 0x1_0000 + b * 0x100 + c, 8, d);
  }

  lemma ShiftOrIsWeighted(numbers: seq<int>)
    requires InRange(numbers)
    ensures ShiftOr(numbers) == Weighted(numbers) && 0 <= Weighted(numbers) < U32
  {
    hide Pow2, Shl, Or;
    if |numbers| == 4 {
      FourParts(numbers[0], numbers[1], numbers[2], numbers[3]);
    } else if |numbers| == 3 {
      ThreeParts(numbers[0], numbers[1], numbers[2]);
    } else if |numbers| == 2 {
      TwoParts(numbers[0], numbers[1]);
    }
  }

  /** Every accepted host denotes the weighted sum of its parts, which fits 32 bits. */
  lemma AcceptedIsWeightedSum(host: string)
    requires ParseHost(host).Some?
    ensures var numbers := ParseNumbers(SplitDots(TrimDots(host)));
            && numbers.Some?
            && InRange(numbers.value)
            && ParseHost(host).value == Weighted(numbers.value)
            && 0 <= ParseHost(host).value < U32
  {
    ShiftOrIsWeighted(ParseNumbers(SplitDots(TrimDots(host))).value);
  }

  // ---------------------------------------------------------------------------
  // Round trip
  // ---------------------------------------------------------------------------

  /** The parts of an address written with one to four numbers. */
  function PartsOf(address: nat, count: nat): seq<nat>
    requires 1 <= count <= 4
  {
    match count
    case 1 => [address]
    case 2 => [address / 0x100_0000, address % 0x100_0000]
    case 3 => [address / 0x100_0000, address / 0x1_0000 % 0x100, address % 0x1_0000]
    case _ => [address / 0x100_0000, address / 0x1_0000 % 0x100, address / 0x100 % 0x100, address % 0x100]
  }

  function PrintParts(parts: seq<nat>, forms: seq<Form>): string
    requires |parts| == |forms| > 0
  {
    PrintNumber(parts[0], forms[0]) + if |parts| == 1 then "" else "." + PrintParts(parts[1..], forms[1..])
  }

  lemma {:induction false} SplitDotFree(p: string)
    requires '.' !in p
    ensures SplitDots(p) == [p]
  {
    if p != "" {
      SplitDotFree(p[1..]);
      assert [p[0]] + p[1..] == p;
    }
  }

  lemma {:induction false} SplitAtDot(p: string, rest: string)
    requires '.' !in p
    ensures SplitDots(p + "." + rest) == [p] + SplitDots(rest)
  {
    var s := p + "." + rest;
    if p == "" {
      assert s[1..] == rest;
    } else {
      SplitAtDot(p[1..], rest);
      assert s[1..] == p[1..] + "." + rest;
      assert [p[0]] + p[1..] == p;
    }
  }

  lemma OneNumber(parts: seq<string>, n: int)
    requires |parts| == 1 && ParseNumber(parts[0]) == Some(n)
    ensures ParseNumbers(parts) == Some([n])
  {
    hide ParseNumber;
    var rest := ParseNumbers(parts[1..]);
    assert rest.Some? && rest.value == [];
    assert [n] + rest.value == [n];
  }

  lemma {:induction false} PrintedParts(parts: seq<nat>, forms: seq<Form>)
    requires |parts| == |forms| > 0
    requires forall i | 0 <= i < |parts| :: parts[i] < U32
    ensures var s := PrintParts(parts, forms);
            && s != "" && s[|s| - 1] != '.'
            && |SplitDots(s)| == |parts|
            && "" !in SplitDots(s)
            && ParseNumbers(SplitDots(s)) == Some(parts)
    decreases |parts|
  {
    hide PrintNumber, ParseNumber, SplitDots;
    var p := PrintNumber(parts[0], forms[0]);
    NumberRoundTrip(parts[0], forms[0]);
    var s := PrintParts(parts, forms);
    if |parts| == 1 {
      assert s == p;
      SplitDotFree(p);
      OneNumber(SplitDots(s), parts[0]);
      assert parts == [parts[0]];
    } else {
      var rest := PrintParts(parts[1..], forms[1..]);
      PrintedParts(parts[1..], forms[1..]);
      SplitAtDot(p, rest);
      assert s == p + "." + rest;
      assert SplitDots(s)[1..] == SplitDots(rest);
      assert parts == [parts[0]] + parts[1..];
    }
  }

  lemma {:induction false} TrimAdded(s: string, dots: string)
    requires s != "" && s[|s| - 1] != '.' && forall c | c in dots :: c == '.'
    ensures TrimDots(s + dots) == s
  {
    if dots == "" {
      assert s + dots == s;
    } else {
      var t := s + dots;
      assert t[..|t| - 1] == s + dots[..|dots| - 1];
      var shorter := dots[..|dots| - 1];
      assert forall c | c in shorter :: c in dots;
      assert dots[|dots| - 1] in dots && t[|t| - 1] == dots[|dots| - 1];
      TrimAdded(s, shorter);
    }
  }

  lemma Digits(address: nat, a: nat, b: nat, c: nat, d: nat)
    requires address < U32
    requires a == address / 0x100_0000 && b == address / 0x1_0000 % 0x100
    requires c == address / 0x100 % 0x100 && d == address % 0x100
    ensures a < 0x100 && address == ((a * 0x100 + b) * 0x100 + c) * 0x100 + d
    ensures address % 0x1_0000 == c * 0x100 + d
    ensures address % 0x100_0000 == (b * 0x100 + c) * 0x100 + d
  {
    var x := address / 0x100;
    var y := x / 0x100;
    assert address / 0x1_0000 == y;
    assert address / 0x100_0000 == y / 0x100;
  }

  lemma PartsFacts(address: nat, count: nat)
    requires address < U32 && 1 <= count <= 4
    ensures InRange(PartsOf(address, count)) && Weighted(PartsOf(address, count)) == address
    ensures |PartsOf(address, count)| == count
  {
    var a, b, c, d := address / 0x100_0000, address / 0x1_0000 % 0x100, address / 0x100 % 0x100, address % 0x100;
    Digits(address, a, b, c, d);
  }

  /**
   * For every 32-bit address and each one- to four-part form with each part printed in decimal,
   * octal or hexadecimal, also with trailing dots, parsing returns that address.
   */
  lemma AddressRoundTrip(address: nat, forms: seq<Form>, dots: string)
    requires address < U32 && 1 <= |forms| <= 4
    requires forall c | c in dots :: c == '.'
    ensures |PartsOf(address, |forms|)| == |forms|
    ensures ParseHost(PrintParts(PartsOf(address, |forms|), forms) + dots) == Some(address)
  {
    var parts := PartsOf(address, |forms|);
    PartsFacts(address, |forms|);
    PrintedParts(parts, forms);
    TrimAdded(PrintParts(parts, forms), dots);
    ShiftOrIsWeighted(parts);
  }
}
