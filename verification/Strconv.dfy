/**
 The part of Go's `strconv` that the retry counters and the query parser rely on:
 decimal printing, and parsing with the sign, syntax and 64-bit range rules.
 */
module Strconv {
  import opened Prelude

  const MAX_INT64: int := 0x7FFF_FFFF_FFFF_FFFF
  const MAX_UINT64: int := 0xFFFF_FFFF_FFFF_FFFF

  predicate IsDigit(c: char) {
    '0' <= c <= '9'
  }

  predicate AllDigits(s: string) {
    forall i :: 0 <= i < |s| ==> IsDigit(s[i])
  }

  function DigitsValue(s: string): nat
    requires AllDigits(s)
  {
    if s == "" then 0 else 10 * DigitsValue(s[..|s| - 1]) + (s[|s| - 1] as int - '0' as int)
  }

  /** `strconv.ParseUint(s, 10, 64)`. */
  function ParseUint(s: string): Option<nat> {
    if s == "" || !AllDigits(s) then None
    else if DigitsValue(s) > MAX_UINT64 then None
    else Some(DigitsValue(s))
  }

  function SignOf(negative: bool, magnitude: int): int {
    if negative then -magnitude else magnitude
  }

  /** `strconv.ParseInt(s, 10, 64)`; `strconv.Atoi` is the same function on a 64-bit machine. */
  function ParseInt(s: string): Option<int> {
    if s == "" then None
    else
      var negative := s[0] == '-';
      match ParseUint(if s[0] == '-' || s[0] == '+' then s[1..] else s)
      case None => None
      case Some(u) =>
        if !negative && u > MAX_INT64 then None
        else if negative && u > MAX_INT64 + 1 then None
        else Some(SignOf(negative, u))
  }

  /** Decimal digits of a natural number, without leading zeros. */
  function FormatUint(n: nat): string {
    (if n < 10 then "" else FormatUint(n / 10)) + [('0' as int + n % 10) as char]
  }

  /** `strconv.Itoa` and the `%d` rendering of a 64-bit integer. */
  function FormatInt(n: int): string {
    if n < 0 then "-" + FormatUint(-n) else FormatUint(n)
  }

  lemma {:induction false} FormatUintDigits(n: nat)
    ensures FormatUint(n) != "" && AllDigits(FormatUint(n))
    ensures DigitsValue(FormatUint(n)) == n
  {
    var last := ('0' as int + n % 10) as char;
    if n < 10 {
      assert FormatUint(n) == [last];
      assert DigitsValue([last][..0]) == 0;
    } else {
      FormatUintDigits(n / 10);
      assert FormatUint(n)[..|FormatUint(n)| - 1] == FormatUint(n / 10);
    }
  }

  /** Printing then parsing an unsigned 64-bit integer gives it back; wider numbers are refused. */
  lemma UintRoundTrip(n: nat)
    ensures ParseUint(FormatUint(n)) == if n <= MAX_UINT64 then Some(n) else None
  {
    FormatUintDigits(n);
  }

  lemma ParseDigits(digits: string, u: nat)
    requires digits != "" && AllDigits(digits) && DigitsValue(digits) == u
    ensures ParseInt(digits) == if u <= MAX_INT64 then Some(SignOf(false, u)) else None
    ensures ParseInt("-" + digits) == if u <= MAX_INT64 + 1 then Some(SignOf(true, u)) else None
  {
    assert IsDigit(digits[0]);
    var negated := "-" + digits;
    assert negated[0] == '-' && negated[1..] == digits;
  }

  /** Printing then parsing a signed 64-bit integer gives it back; numbers out of range are refused. */
  lemma IntRoundTrip(n: int)
    ensures ParseInt(FormatInt(n)) == if -MAX_INT64 - 1 <= n <= MAX_INT64 then Some(n) else None
  {
    var u := if n < 0 then -n else n;
    FormatUintDigits(u);
    ParseDigits(FormatUint(u), u);
  }

  /** Different numbers have different renderings. */
  lemma FormatInjective(m: nat, n: nat)
    requires FormatInt(m) == FormatInt(n)
    ensures m == n
  {
    FormatUintDigits(m);
    FormatUintDigits(n);
  }

  /** A plus sign is accepted before digits, and changes nothing. */
  lemma PlusSign(digits: string)
    requires digits != "" && AllDigits(digits)
    ensures ParseInt("+" + digits) == ParseInt(digits)
  {
    var signed := "+" + digits;
    assert IsDigit(digits[0]) && signed[0] == '+' && signed[1..] == digits;
  }

  /** A character other than the ten digits, a first sign aside, is refused; so is the empty text. */
  lemma OnlyDigits(s: string, i: nat)
    requires i < |s| && !('0' <= s[i] <= '9') && (i == 0 ==> s[0] != '-' && s[0] != '+')
    ensures ParseInt(s) == None && ParseUint(s) == None && ParseInt("") == None == ParseUint("")
  {
    if i > 0 {
      assert s[1..][i - 1] == s[i];
    }
  }
}
