/** Decimal text of natural numbers, as %d prints it and as a signed 64-bit parse reads it. */
module Decimals {
  import opened Wrappers

  const INT64_MAX: int := 0x7FFF_FFFF_FFFF_FFFF

  function DigitChar(d: nat): char
    requires d < 10
  {
    (d + '0' as int) as char
  }

  function Decimal(n: nat): string {
    if n < 10 then [DigitChar(n)] else Decimal(n / 10) + [DigitChar(n % 10)]
  }

  predicate IsDigit(c: char) {
    '0' <= c <= '9'
  }

  function ParseDigits(s: string): Option<nat> {
    if s == "" then Some(0)
    else
      var last := s[|s| - 1];
      match ParseDigits(s[..|s| - 1])
      case None => None
      case Some(high) => if IsDigit(last) then Some(10 * high + (last as int - '0' as int)) else None
  }

  /** Go's strconv.ParseInt(s, 10, 64): an optional sign, digits, and the int64 range. */
  function ParseInt64(s: string): Option<int> {
    var signed := s != "" && (s[0] == '-' || s[0] == '+');
    var digits := if signed then s[1..] else s;
    if digits == "" then None
    else match ParseDigits(digits)
      case None => None
      case Some(n) =>
        var value := if signed && s[0] == '-' then 0 - (n as int) else n as int;
        if -INT64_MAX - 1 <= value <= INT64_MAX then Some(value) else None
  }

  lemma {:induction false} DecimalDigits(n: nat)
    ensures var s := Decimal(n); s != "" && (forall c :: c in s ==> IsDigit(c)) && ParseDigits(s) == Some(n)
  {
    if n >= 10 {
      DecimalDigits(n / 10);
      assert Decimal(n)[..|Decimal(n)| - 1] == Decimal(n / 10);
    } else {
      assert Decimal(n)[..0] == "";
    }
  }

  /** A printed number reads back as itself exactly when it fits in a signed 64-bit integer. */
  lemma DecimalRoundTrip(n: nat)
    ensures ParseInt64(Decimal(n)) == if n <= INT64_MAX then Some(n) else None
  {
    DecimalDigits(n);
    assert Decimal(n)[0] in Decimal(n);
  }
}
