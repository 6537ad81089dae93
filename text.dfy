/** The two numeric conversions `keycode_name` formats with: `%hhu` (decimal) and `%04hx` (four lower-case hex digits). */
module Text {
  import opened Bytes

  /** The character of digit `d` in base 16 or lower: '0'-'9', then 'a'-'f'. */
  function DigitChar(d: nat): char
    requires d < 16
  {
    if d < 10 then (d + '0' as int) as char else (d - 10 + 'a' as int) as char
  }

  /** The value of a digit character; the inverse of DigitChar. */
  function DigitValue(c: char): nat {
    if '0' <= c <= '9' then c as int - '0' as int
    else if 'a' <= c <= 'f' then c as int - 'a' as int + 10
    else 0
  }

  predicate IsDecimalDigit(c: char) {
    '0' <= c <= '9'
  }

  /** `%u`: the decimal digits of `n`, without leading zeros. */
  function Decimal(n: nat): string
    decreases n
  {
    if n < 10 then [DigitChar(n)] else Decimal(n / 10) + [DigitChar(n % 10)]
  }

  /** The number a string of digits in `base` denotes, most significant digit first. */
  function ValueIn(base: nat, s: string): nat {
    if s == [] then 0 else base * ValueIn(base, s[..|s| - 1]) + DigitValue(s[|s| - 1])
  }

  /** `%04hx` of a 16-bit value. */
  function Hex4(v: u16): string {
    [DigitChar(v / 0x1000), DigitChar((v / 0x100) % 0x10), DigitChar((v / 0x10) % 0x10), DigitChar(v % 0x10)]
  }

  /**
   * Decimal is read back as the number it printed; it uses decimal digits only, has no leading zero,
   * and a byte value takes at most three characters.
   */
  lemma {:induction false} DecimalRoundTrip(n: nat)
    ensures ValueIn(10, Decimal(n)) == n
    ensures forall i :: 0 <= i < |Decimal(n)| ==> IsDecimalDigit(Decimal(n)[i])
    ensures 1 <= |Decimal(n)| && (Decimal(n)[0] == '0' ==> n == 0)
    ensures n < 10 ==> |Decimal(n)| == 1
    ensures n < 100 ==> |Decimal(n)| <= 2
    ensures n < 1000 ==> |Decimal(n)| <= 3
    decreases n
  {
    if n >= 10 {
      DecimalRoundTrip(n / 10);
      var s := Decimal(n);
      assert s[..|s| - 1] == Decimal(n / 10);
      assert s[0] == Decimal(n / 10)[0];
    }
  }

  /** Hex4 is read back as the value it printed, in exactly four zero-padded lower-case hex digits. */
  lemma Hex4RoundTrip(v: u16)
    ensures |Hex4(v)| == 4
    ensures forall i :: 0 <= i < 4 ==> Hex4(v)[i] in "0123456789abcdef"
    ensures ValueIn(16, Hex4(v)) == v
  {
    var s := Hex4(v);
    assert s[..1][..0] == [] && s[..2][..1] == s[..1] && s[..3][..2] == s[..2] && s[..3] == s[..|s| - 1];
    assert ValueIn(16, s[..1]) == v / 0x1000;
    assert ValueIn(16, s[..2]) == 16 * (v / 0x1000) + (v / 0x100) % 0x10 == v / 0x100;
    assert ValueIn(16, s[..3]) == 16 * (v / 0x100) + (v / 0x10) % 0x10 == v / 0x10;
  }
}
