/**
 Decimal offsets as the gateway stores and reads them: strconv.FormatInt and strconv.ParseInt
 in base 10, the error of the latter ignored.
 */
module Decimal {
  const MAX_INT64 := 0x7FFF_FFFF_FFFF_FFFF
  const MIN_INT64 := -0x8000_0000_0000_0000

  predicate Digit(ch: char) {
    '0' <= ch <= '9'
  }

  function Shown(d: nat): (ch: char)
    requires d < 10
    ensures Digit(ch) && (ch as int) - ('0' as int) == d
  {
    (d + ('0' as int)) as char
  }

  function FormatInt(n: nat): (s: string)
    ensures s != ""
    decreases n
  {
    if n < 10 then [Shown(n)] else FormatInt(n / 10) + [Shown(n % 10)]
  }

  predicate AllDigits(s: string) {
    forall i :: 0 <= i < |s| ==> Digit(s[i])
  }

  /** The number digits stand for. */
  function Value(s: string): nat
    requires AllDigits(s)
  {
    if s == "" then 0 else Value(s[..|s| - 1]) * 10 + (s[|s| - 1] as int) - ('0' as int)
  }

  function Clamp(n: int): int {
    if n > MAX_INT64 then MAX_INT64 else if n < MIN_INT64 then MIN_INT64 else n
  }

  /** Nothing readable is 0; a number out of range is the nearest one in range. */
  function ParseInt(s: string): (n: int)
    ensures MIN_INT64 <= n <= MAX_INT64
  {
    var signed := s != "" && (s[0] == '+' || s[0] == '-');
    var digits := if signed then s[1..] else s;
    if digits == "" || !AllDigits(digits) then 0
    else if s[0] == '-' then Clamp(0 - Value(digits) as int)
    else Clamp(Value(digits))
  }

  lemma {:induction false} FormatIsDigits(n: nat)
    ensures AllDigits(FormatInt(n)) && Value(FormatInt(n)) == n
  {
    if n >= 10 {
      FormatIsDigits(n / 10);
      assert FormatInt(n)[..|FormatInt(n)| - 1] == FormatInt(n / 10);
    } else {
      assert FormatInt(n)[..0] == "";
    }
  }

  /** An offset stored is the offset read. */
  lemma OffsetRoundTrip(n: nat)
    requires n <= MAX_INT64
    ensures ParseInt(FormatInt(n)) == n
  {
    FormatIsDigits(n);
    assert Digit(FormatInt(n)[0]);
  }
}
