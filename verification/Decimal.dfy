/** Decimal: `strconv.FormatInt` and `strconv.ParseInt`, base 10, 64 bits. */
module Decimal {
  import opened Strings

  const MIN_INT64 := -0x8000_0000_0000_0000
  const MAX_INT64 := 0x7FFF_FFFF_FFFF_FFFF

  function Digit(d: nat): char
    requires d < 10
  {
    '0' + d as char
  }

  predicate IsDigit(c: char) { '0' <= c <= '9' }

  function Digits(n: nat): (s: string)
    ensures s != "" && IsDigit(s[0])
  {
    if n < 10 then [Digit(n)] else Digits(n / 10) + [Digit(n % 10)]
  }

  function FormatInt(n: int): string {
    if n < 0 then "-" + Digits(-n) else Digits(n)
  }

  /** The value of a nonempty text of digits. */
  function DigitsValue(s: string): Option<nat> {
    if s == "" || !IsDigit(s[|s| - 1]) then None
    else
      var last: nat := s[|s| - 1] as nat - '0' as nat;
      if |s| == 1 then Some(last)
      else match DigitsValue(s[..|s| - 1])
        case None => None
        case Some(n) => Some(10 * n + last)
  }

  function InRange(n: int): Option<int> {
    if MIN_INT64 <= n <= MAX_INT64 then Some(n) else None
  }

  function ParseInt(s: string): Option<int> {
    var signed := s != "" && (s[0] == '-' || s[0] == '+');
    match DigitsValue(if signed then s[1..] else s)
    case None => None
    case Some(n) =>
      var value: int := n;
      InRange(if signed && s[0] == '-' then -value else value)
  }

  lemma {:induction false} DigitsParse(n: nat)
    ensures DigitsValue(Digits(n)) == Some(n)
  {
    var s := Digits(n);
    if n >= 10 {
      DigitsParse(n / 10);
      assert s[..|s| - 1] == Digits(n / 10) && s[|s| - 1] == Digit(n % 10);
    }
  }

  /** What is formatted parses back, if it fits into 64 bits. */
  lemma FormatParse(n: int)
    ensures ParseInt(FormatInt(n)) ==
      if -9223372036854775808 <= n <= 9223372036854775807 then Some(n) else None
  {
    if n < 0 {
      DigitsParse(-n);
      assert FormatInt(n)[1..] == Digits(-n);
    } else {
      DigitsParse(n);
    }
  }

  /******* What any text is parsed as *******/

  predicate OnlyZeros(s: string) {
    forall i | 0 <= i < |s| :: s[i] == '0'
  }

  lemma {:induction false} LeadingZeros(zeros: string, n: nat)
    requires OnlyZeros(zeros)
    ensures DigitsValue(zeros + Digits(n)) == Some(n)
    decreases n
  {
    var s := zeros + Digits(n);
    if n < 10 {
      ZerosThenDigit(zeros, n);
    } else {
      LeadingZeros(zeros, n / 10);
      assert s[..|s| - 1] == zeros + Digits(n / 10) && s[|s| - 1] == Digit(n % 10);
    }
  }

  lemma {:induction false} ZerosThenDigit(zeros: string, d: nat)
    requires OnlyZeros(zeros) && d < 10
    ensures DigitsValue(zeros + [Digit(d)]) == Some(d)
    decreases |zeros|
  {
    var s := zeros + [Digit(d)];
    if zeros != [] {
      ZerosThenDigit(zeros[..|zeros| - 1], 0);
      assert s[..|s| - 1] == zeros == zeros[..|zeros| - 1] + [Digit(0)];
    }
  }

  lemma SignThenDigits(sign: string, digits: string, n: nat)
    requires sign == "" || sign == "+" || sign == "-"
    requires digits != "" && IsDigit(digits[0]) && DigitsValue(digits) == Some(n)
    ensures ParseInt(sign + digits) ==
      if sign == "-" then (if n <= 9223372036854775808 then Some(0 - n) else None)
      else if n <= 9223372036854775807 then Some(n) else None
  {
    assert sign == "" ==> sign + digits == digits;
    assert sign != "" ==> (sign + digits)[1..] == digits;
  }

  /** A number may have a sign and leading zeros; it is an error if it does not fit into 64 bits. */
  lemma ParseIntExactly(sign: string, zeros: string, n: nat)
    requires (sign == "" || sign == "+" || sign == "-") && OnlyZeros(zeros)
    ensures ParseInt(sign + (zeros + Digits(n))) ==
      if sign == "-" then (if n <= 9223372036854775808 then Some(0 - n) else None)
      else if n <= 9223372036854775807 then Some(n) else None
  {
    LeadingZeros(zeros, n);
    SignThenDigits(sign, zeros + Digits(n), n);
  }

  lemma {:induction false} NotOnlyDigits(s: string)
    requires s == "" || exists i :: 0 <= i < |s| && !IsDigit(s[i])
    ensures DigitsValue(s) == None
  {
    if |s| > 1 && IsDigit(s[|s| - 1]) {
      var i :| 0 <= i < |s| && !IsDigit(s[i]);
      assert s[..|s| - 1][i] == s[i];
      NotOnlyDigits(s[..|s| - 1]);
    }
  }

  /** And everything else is an error. */
  lemma NotANumber(s: string)
    requires var digits := if s != "" && (s[0] == '+' || s[0] == '-') then s[1..] else s;
      digits == "" || exists i :: 0 <= i < |digits| && !IsDigit(digits[i])
    ensures ParseInt(s) == None
  {
    NotOnlyDigits(if s != "" && (s[0] == '+' || s[0] == '-') then s[1..] else s);
  }

  /** What is printed has a minus sign exactly if the number is negative, and no zeros in front. */
  lemma {:induction false} FormatIsCanonical(n: int)
    ensures (FormatInt(n)[0] == '-' <==> n < 0) && FormatInt(n)[0] != '+'
    ensures FormatInt(n)[0] == '0' ==> FormatInt(n) == "0"
  {
    if n >= 10 {
      FormatIsCanonical(n / 10);
    }
  }
}
