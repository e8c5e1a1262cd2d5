/** Decimal text of integers: Python's `str` and `int`. */
module Decimal {
  import opened Wrappers

  function Digit(n: nat): char
    requires n < 10
  {
    ('0' as int + n) as char
  }

  function Digits(n: nat): (s: string)
    ensures s != "" && forall i :: 0 <= i < |s| ==> '0' <= s[i] <= '9'
  {
    if n < 10 then [Digit(n)] else Digits(n / 10) + [Digit(n % 10)]
  }

  /** Python's `str` of an integer. */
  function Text(n: int): string {
    if n < 0 then "-" + Digits(-n) else Digits(n)
  }

  function ParseDigits(s: string): Option<nat> {
    if s == "" || !('0' <= s[|s| - 1] <= '9') then None
    else
      var last := s[|s| - 1] as int - '0' as int;
      if |s| == 1 then Some(last)
      else
        match ParseDigits(s[..|s| - 1])
        case None => None
        case Some(n) => Some(10 * n + last)
  }

  /** Python's `int` of a text, on plain decimal forms. */
  function Parse(s: string): Option<int> {
    if s != "" && s[0] == '-' then
      match ParseDigits(s[1..])
      case None => None
      case Some(n) => var absolute: int := n; Some(-absolute)
    else
      match ParseDigits(s)
      case None => None
      case Some(n) => Some(n)
  }

  lemma {:induction false} DigitsRoundTrip(n: nat)
    ensures ParseDigits(Digits(n)) == Some(n)
  {
    if n >= 10 {
      DigitsRoundTrip(n / 10);
      assert Digits(n)[..|Digits(n)| - 1] == Digits(n / 10);
    }
  }

  lemma RoundTrip(n: int)
    ensures Parse(Text(n)) == Some(n)
  {
    DigitsRoundTrip(if n < 0 then -n else n);
    if n < 0 {
      assert Text(n)[1..] == Digits(-n);
    }
  }

  lemma Examples()
    ensures Text(0) == "0" && Text(7) == "7" && Text(120) == "120" && Text(-45) == "-45"
  {
    assert Digits(12) == "12";
    assert Digits(120) == "120" && Digits(45) == "45";
  }
}
