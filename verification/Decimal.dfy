// Decimal text: what the formatting verbs print, and that reading it gives the number back.
module Decimal {
  import opened Strings

  function DigitOf(d: int): char
    requires 0 <= d <= 9
  {
    d as char + '0'
  }

  function Digits(n: nat): string {
    if n < 10 then [DigitOf(n)] else Digits(n / 10) + [DigitOf(n % 10)]
  }

  function FormatInt(n: int): string {
    if n < 0 then "-" + Digits(-n) else Digits(n)
  }

  lemma {:induction false} DigitsAreDigits(n: nat)
    ensures Digits(n) != [] && forall c | c in Digits(n) :: IsDigit(c)
  {
    if n >= 10 {
      DigitsAreDigits(n / 10);
    }
  }

  lemma {:induction false} DigitsDenote(n: nat)
    ensures Digits(n) != [] && (forall c | c in Digits(n) :: IsDigit(c)) && Number(Digits(n)) == n
  {
    DigitsAreDigits(n);
    if n >= 10 {
      DigitsDenote(n / 10);
      assert Digits(n)[..|Digits(n)| - 1] == Digits(n / 10);
    }
  }

  // The longest prefix of digits.
  function DigitRun(s: string): (k: nat)
    ensures k <= |s| && (forall c | c in s[..k] :: IsDigit(c)) && (k < |s| ==> !IsDigit(s[k]))
  {
    if s == [] || !IsDigit(s[0]) then 0 else
      var k := 1 + DigitRun(s[1..]);
      assert s[..k] == [s[0]] + s[1..][..k - 1];
      k
  }

  lemma {:induction false} RunOf(digits: string, rest: string)
    requires (forall c | c in digits :: IsDigit(c)) && (rest != [] ==> !IsDigit(rest[0]))
    ensures DigitRun(digits + rest) == |digits|
  {
    if digits == [] {
      assert digits + rest == rest;
    } else {
      assert digits[0] in digits;
      assert (digits + rest)[1..] == digits[1..] + rest;
      RunOf(digits[1..], rest);
    }
  }

  // Scanning an integer from the front of a text: leading blanks, a sign, digits. On any failure
  // the caller's variable keeps its zero.
  function ScanInt(s: string): int {
    if s != [] && s[0] != '\n' && IsSpace(s[0]) then ScanInt(s[1..])
    else
      var signed := s != [] && (s[0] == '-' || s[0] == '+');
      var text := if signed then s[1..] else s;
      var k := DigitRun(text);
      if k == 0 then 0
      else
        var n := if signed && s[0] == '-' then -Number(text[..k]) else Number(text[..k]);
        if MIN_INT <= n <= MAX_INT then n else 0
  }

  lemma ScanFormatted(n: int)
    requires MIN_INT <= n <= MAX_INT
    ensures FormatInt(n) != [] && !IsSpace(FormatInt(n)[0]) && ScanInt(FormatInt(n)) == n
  {
    var digits := Digits(if n < 0 then -n else n);
    DigitsDenote(if n < 0 then -n else n);
    RunOf(digits, []);
    assert digits + [] == digits && digits[0] in digits && digits[..|digits|] == digits;
    if n < 0 {
      assert FormatInt(n)[1..] == digits;
    }
  }
}
