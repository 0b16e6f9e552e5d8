/**
 * The three duration parsers: the stored token lifetime in AuthService, the cookie
 * max-age in AuthController and the access-token lifetime in AuthModule.
 * A JavaScript number that may be NaN is an Option; NaN is None.
 */
module Durations {
  import opened Common

  predicate IsDigit(c: char) { '0' <= c <= '9' }

  predicate IsSpace(c: char) {
    || c == ' ' || '\U{0009}' <= c <= '\U{000D}' || c == '\U{00A0}' || c == '\U{1680}'
    || '\U{2000}' <= c <= '\U{200A}' || c == '\U{2028}' || c == '\U{2029}' || c == '\U{202F}'
    || c == '\U{205F}' || c == '\U{3000}' || c == '\U{FEFF}'
  }

  function DigitValue(c: char): nat
    requires IsDigit(c)
  {
    c as int - '0' as int
  }

  function SkipSpace(s: string): string {
    if |s| > 0 && IsSpace(s[0]) then SkipSpace(s[1..]) else s
  }

  /** The longest prefix made of digits. */
  function DigitPrefix(s: string): (r: string)
    ensures r <= s && forall c | c in r :: IsDigit(c)
    ensures |r| < |s| ==> !IsDigit(s[|r|])
  {
    if |s| > 0 && IsDigit(s[0]) then [s[0]] + DigitPrefix(s[1..]) else []
  }

  function DecimalValue(s: string): nat
    requires forall c | c in s :: IsDigit(c)
  {
    if |s| == 0 then 0 else 10 * DecimalValue(s[..|s| - 1]) + DigitValue(s[|s| - 1])
  }

  /** `parseInt(s, 10)`: leading white space, an optional sign, then a prefix of digits. */
  function ParseInt(s: string): Option<int> {
    var t := SkipSpace(s);
    var negative := |t| > 0 && t[0] == '-';
    var signed := |t| > 0 && (t[0] == '-' || t[0] == '+');
    var digits := DigitPrefix(if signed then t[1..] else t);
    var value: int := DecimalValue(digits);
    if |digits| == 0 then None else Some(if negative then -value else value)
  }

  /** `s.slice(-1)` and `s.slice(0, -1)`. */
  function UnitPart(s: string): string { if |s| == 0 then "" else s[|s| - 1..] }
  function CountPart(s: string): string { if |s| == 0 then "" else s[..|s| - 1] }

  /** `table[unit] ?? 0`. */
  function Lookup(table: map<string, int>, unit: string): int {
    if unit in table then table[unit] else 0
  }

  /** Multiplication where NaN absorbs. */
  function Times(value: Option<int>, factor: int): Option<int> {
    match value
    case None => None
    case Some(v) => Some(v * factor)
  }

  /** AuthService.parseExpiry: the instant a token created at `now` expires. */
  function ParseExpiry(now: int, s: string): Option<int> {
    var multipliers := map["s" := 1_000, "m" := 60_000, "h" := 3_600_000, "d" := 86_400_000];
    match Times(ParseInt(CountPart(s)), Lookup(multipliers, UnitPart(s)))
    case None => None
    case Some(ms) => Some(now + ms)
  }

  /** AuthController.parseMaxAgeMs. */
  function ParseMaxAgeMs(s: string): Option<int> {
    var multipliers := map["s" := 1_000, "m" := 60_000, "h" := 3_600_000, "d" := 86_400_000];
    Times(ParseInt(CountPart(s)), Lookup(multipliers, UnitPart(s)))
  }

  /** AuthModule's parseExpiryToSeconds. */
  function ParseExpiryToSeconds(s: string): Option<int> {
    var units := map["s" := 1, "m" := 60, "h" := 3_600, "d" := 86_400];
    Times(ParseInt(CountPart(s)), Lookup(units, UnitPart(s)))
  }

  /** The pattern the environment schema demands: digits, then one of s, m, h, d. */
  predicate WellFormed(s: string) {
    && |s| >= 2
    && s[|s| - 1] in {'s', 'm', 'h', 'd'}
    && forall i | 0 <= i < |s| - 1 :: IsDigit(s[i])
  }

  /** Decimal digits of a count, without leading zeros. */
  function Print(n: nat): (s: string)
    ensures |s| > 0 && forall c | c in s :: IsDigit(c)
  {
    var digit := ('0' as int + n % 10) as char;
    if n < 10 then [digit] else Print(n / 10) + [digit]
  }

  function UnitMs(unit: char): int {
    match unit
    case 's' => 1_000
    case 'm' => 60_000
    case 'h' => 3_600_000
    case _ => 86_400_000
  }

  lemma {:induction false} AllDigitsPrefix(s: string)
    requires forall c | c in s :: IsDigit(c)
    ensures DigitPrefix(s) == s
  {
  }

  lemma ParseIntOfDigits(s: string)
    requires |s| > 0 && forall c | c in s :: IsDigit(c)
    ensures ParseInt(s) == Some(DecimalValue(s))
  {
    assert s[0] in s && !IsSpace(s[0]);
    AllDigitsPrefix(s);
  }

  lemma {:induction false} SkipSpaces(spaces: string, rest: string)
    requires (forall c | c in spaces :: IsSpace(c)) && (|rest| > 0 ==> !IsSpace(rest[0]))
    ensures SkipSpace(spaces + rest) == rest
  {
    if |spaces| == 0 {
      assert spaces + rest == rest;
    } else {
      assert spaces[0] in spaces && (spaces + rest)[1..] == spaces[1..] + rest;
      SkipSpaces(spaces[1..], rest);
    }
  }

  /** Whatever follows the digits does not matter. */
  lemma {:induction false} DigitPrefixThen(digits: string, rest: string)
    requires (forall c | c in digits :: IsDigit(c)) && (|rest| > 0 ==> !IsDigit(rest[0]))
    ensures DigitPrefix(digits + rest) == digits
  {
    if |digits| > 0 {
      assert digits[0] in digits && (digits + rest)[1..] == digits[1..] + rest;
      DigitPrefixThen(digits[1..], rest);
    } else {
      assert digits + rest == rest;
    }
  }

  /** `parseInt` skips white space, ... */
  lemma ParseIntSkips(spaces: string, rest: string)
    requires (forall c | c in spaces :: IsSpace(c)) && (|rest| > 0 ==> !IsSpace(rest[0]))
    ensures ParseInt(spaces + rest) == ParseInt(rest)
  {
    SkipSpaces(spaces, rest);
    SkipSpaces("", rest);
    assert "" + rest == rest;
  }

  /** ... reads a sign, and takes the digits up to the first other character (`DigitPrefix`). */
  lemma ParseIntSigned(s: string)
    requires |s| > 0 && (s[0] == '+' || s[0] == '-')
    ensures var digits := DigitPrefix(s[1..]);
      if |digits| == 0 then ParseInt(s) == None
      else ParseInt(s) == Some(if s[0] == '-' then 0 - DecimalValue(digits) else DecimalValue(digits))
  {
    assert SkipSpace(s) == s;
  }

  /** A unit the table does not know counts as zero, and a count without a digit is not a number. */
  lemma UnknownUnit(count: string, unit: char)
    requires unit !in {'s', 'm', 'h', 'd'}
    ensures ParseMaxAgeMs(count + [unit]) == if ParseInt(count).None? then None else Some(0)
  {
    var s := count + [unit];
    assert s[..|s| - 1] == count && s[|s| - 1..] == [unit];
  }

  lemma {:induction false} PrintThenValue(n: nat)
    ensures DecimalValue(Print(n)) == n
  {
    var s := Print(n);
    if n >= 10 {
      PrintThenValue(n / 10);
      assert s[..|s| - 1] == Print(n / 10);
    }
  }

  /**
   * On every string, well formed or not, the cookie's max-age is 1000 times the
   * seconds form, and a token stored at `now` expires exactly one max-age later.
   */
  lemma ParsersAgree(now: int, s: string)
    ensures ParseMaxAgeMs(s) == Times(ParseExpiryToSeconds(s), 1_000)
    ensures ParseExpiry(now, s) == match ParseMaxAgeMs(s) case None => None case Some(ms) => Some(now + ms)
  {
  }

  /** A lifetime the environment schema accepts is always a number, and never negative. */
  lemma WellFormedIsNumber(s: string)
    requires WellFormed(s)
    ensures ParseMaxAgeMs(s) == Some(DecimalValue(s[..|s| - 1]) * UnitMs(s[|s| - 1]))
    ensures ParseMaxAgeMs(s).value >= 0
  {
    ParseIntOfDigits(s[..|s| - 1]);
    assert UnitPart(s) == [s[|s| - 1]];
  }

  /** Writing a count and a unit and parsing the text gives back count times unit. */
  lemma PrintThenParse(n: nat, unit: char)
    requires unit in {'s', 'm', 'h', 'd'}
    ensures WellFormed(Print(n) + [unit])
    ensures ParseMaxAgeMs(Print(n) + [unit]) == Some(n * UnitMs(unit))
  {
    var s := Print(n) + [unit];
    assert s[..|s| - 1] == Print(n);
    PrintThenValue(n);
    WellFormedIsNumber(s);
  }

  /** The four units in milliseconds. */
  lemma UnitsInMs(n: nat)
    ensures ParseMaxAgeMs(Print(n) + ['s']) == Some(n * 1_000)
    ensures ParseMaxAgeMs(Print(n) + ['m']) == Some(n * 60_000)
    ensures ParseMaxAgeMs(Print(n) + ['h']) == Some(n * 3_600_000)
    ensures ParseMaxAgeMs(Print(n) + ['d']) == Some(n * 86_400_000)
  {
    PrintThenParse(n, 's');
    PrintThenParse(n, 'm');
    PrintThenParse(n, 'h');
    PrintThenParse(n, 'd');
  }
}
