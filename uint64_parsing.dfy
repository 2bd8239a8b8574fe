/**
  Swift's `UInt64(_ text: String)` on the decimal strings a node returns for token amounts:
  a non-empty run of ASCII digits whose value fits in 64 bits.
*/
module UInt64Parsing {
  import opened Wrappers

  const UInt64Max: nat := 0xFFFF_FFFF_FFFF_FFFF

  predicate IsDigit(c: char) {
    '0' <= c <= '9'
  }

  predicate AllDigits(s: string) {
    forall i :: 0 <= i < |s| ==> IsDigit(s[i])
  }

  function DigitValue(c: char): nat
    requires IsDigit(c)
  {
    c as int - '0' as int
  }

  function DigitChar(d: nat): (c: char)
    requires d < 10
    ensures IsDigit(c) && DigitValue(c) == d
  {
    ('0' as int + d) as char
  }

  /** The number a string of decimal digits spells, most significant digit first. */
  function DecimalValue(s: string): nat
    requires AllDigits(s)
    decreases |s|
  {
    if |s| == 0 then 0 else DecimalValue(s[..|s| - 1]) * 10 + DigitValue(s[|s| - 1])
  }

  /** `UInt64(s)`: the value of `s` when it is a decimal numeral in the range of `UInt64`, else nil. */
  function ParseUInt64(s: string): (r: Option<nat>)
    ensures r.Some? <==> |s| > 0 && AllDigits(s) && DecimalValue(s) <= UInt64Max
    ensures r.Some? ==> r.value == DecimalValue(s) && r.value <= UInt64Max
  {
    if |s| > 0 && AllDigits(s) && DecimalValue(s) <= UInt64Max then Some(DecimalValue(s)) else None
  }

  /** The decimal numeral of `n`, without leading zeros (`String(n)`). */
  function DecimalString(n: nat): (s: string)
    decreases n
    ensures |s| > 0 && AllDigits(s)
  {
    if n < 10 then [DigitChar(n)] else DecimalString(n / 10) + [DigitChar(n % 10)]
  }

  lemma {:induction false} DecimalValueOfString(n: nat)
    ensures DecimalValue(DecimalString(n)) == n
    decreases n
  {
    if n >= 10 {
      var s := DecimalString(n);
      assert s[..|s| - 1] == DecimalString(n / 10);
      DecimalValueOfString(n / 10);
    }
  }

  /**
    `UInt64(String(n))` gives `n` back exactly when `n` fits in 64 bits: every amount a 64-bit
    counter can hold is accepted, and every larger one is refused.
  */
  lemma ParseDecimalString(n: nat)
    ensures ParseUInt64(DecimalString(n)) == (if n <= UInt64Max then Some(n) else None)
  {
    DecimalValueOfString(n);
  }

  /** Text that is empty or holds a character other than a digit is never an amount. */
  lemma ParseRejectsNonNumerals(s: string)
    requires |s| == 0 || exists i :: 0 <= i < |s| && !IsDigit(s[i])
    ensures ParseUInt64(s) == None
  {
  }
}
