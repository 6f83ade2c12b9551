/** Decimal numerals as bytes: strconv's FormatUint, Itoa and ParseUint in base 10. */
module Decimal {
  import opened Prelude

  function Ascii(s: string): (b: Bytes)
    ensures |b| == |s|
  {
    seq(|s|, i requires 0 <= i < |s| => if (s[i] as int) < 128 then s[i] as int else 63)
  }

  const ZERO: Byte := 48
  const NINE: Byte := 57

  predicate IsDigit(b: Byte) {
    ZERO <= b <= NINE
  }

  function Digits(n: nat): (d: Bytes)
    ensures |d| > 0
    ensures forall i | 0 <= i < |d| :: IsDigit(d[i])
  {
    if n < 10 then [ZERO + n] else Digits(n / 10) + [ZERO + n % 10]
  }

  /** The number a run of digits denotes; None when empty or when a byte is not a digit. */
  function Numeral(d: Bytes): Option<nat> {
    if d == [] then None
    else if !(forall i | 0 <= i < |d| :: IsDigit(d[i])) then None
    else Some(Accumulate(d))
  }

  function Accumulate(d: Bytes): nat
    requires forall i | 0 <= i < |d| :: IsDigit(d[i])
  {
    if d == [] then 0
    else
      assert IsDigit(d[|d| - 1]);
      Accumulate(d[..|d| - 1]) * 10 + (d[|d| - 1] - ZERO)
  }

  lemma {:induction false} NumeralOfDigits(n: nat)
    ensures Numeral(Digits(n)) == Some(n)
  {
    var d := Digits(n);
    if n < 10 {
      assert d[..|d| - 1] == [] && d[|d| - 1] == ZERO + n;
      assert Accumulate(d) == Accumulate([]) * 10 + n;
    } else {
      NumeralOfDigits(n / 10);
      assert d[..|d| - 1] == Digits(n / 10);
    }
  }

  /** strconv.ParseUint(d, 10, 0) on a 64-bit platform. */
  function ParseUint64(d: Bytes): Option<nat> {
    match Numeral(d)
    case Some(n) => if n < TWO64 then Some(n) else None
    case None => None
  }
}
