/** Decimal printing (`strconv.FormatInt(n, 10)`) and parsing (`strconv.ParseInt(s, 10, 0)` on a
    64-bit platform, error ignored), over all integers. */
module Decimal {

  const MAX_INT64: int := 0x7fff_ffff_ffff_ffff
  const MIN_INT64: int := -0x8000_0000_0000_0000

  function DigitChar(d: nat): (c: char)
    requires d < 10
    ensures '0' <= c <= '9' && DigitValue(c) == d
  {
    '0' + d as char
  }

  function DigitValue(c: char): (d: nat)
    requires '0' <= c <= '9'
    ensures d < 10
  {
    (c - '0') as nat
  }

  predicate AllDigits(s: string) {
    forall i :: 0 <= i < |s| ==> '0' <= s[i] <= '9'
  }

  function PrintNat(n: nat): (s: string)
    ensures s != "" && AllDigits(s)
  {
    if n < 10 then [DigitChar(n)] else PrintNat(n / 10) + [DigitChar(n % 10)]
  }

  function PrintInt(n: int): string {
    if n < 0 then "-" + PrintNat(-n) else PrintNat(n)
  }

  function DigitsValue(s: string): nat
    requires AllDigits(s)
  {
    if s == "" then 0 else 10 * DigitsValue(s[..|s| - 1]) + DigitValue(s[|s| - 1])
  }

  function Clamp(n: int): (r: int)
    ensures MIN_INT64 <= r <= MAX_INT64
    ensures MIN_INT64 <= n <= MAX_INT64 ==> r == n
  {
    if n < MIN_INT64 then MIN_INT64 else if n > MAX_INT64 then MAX_INT64 else n
  }

  /** `parseInt64`: a syntax error gives 0, a value out of range saturates. */
  function ParseInt64(s: string): (r: int)
    ensures MIN_INT64 <= r <= MAX_INT64
  {
    var signed := s != "" && (s[0] == '-' || s[0] == '+');
    var digits := if signed then s[1..] else s;
    if digits == "" || !AllDigits(digits) then 0
    else Clamp(if s[0] == '-' then 0 - DigitsValue(digits) else DigitsValue(digits))
  }

  /** Any text at all: an optional sign and digits are read as that number, saturated; anything else as 0. */
  lemma ParseMeaning(digits: string)
    ensures digits != "" && AllDigits(digits) ==>
      && ParseInt64(digits) == ParseInt64("+" + digits) == Clamp(DigitsValue(digits))
      && ParseInt64("-" + digits) == Clamp(0 - DigitsValue(digits))
    ensures digits == "" || !AllDigits(digits) ==>
      && ParseInt64("+" + digits) == 0 && ParseInt64("-" + digits) == 0
      && (digits == "" || (digits[0] != '+' && digits[0] != '-') ==> ParseInt64(digits) == 0)
  {
    assert ("+" + digits)[1..] == digits && ("-" + digits)[1..] == digits;
  }

  lemma {:induction false} DigitsValuePrintNat(n: nat)
    ensures DigitsValue(PrintNat(n)) == n
  {
    if n < 10 {
      assert PrintNat(n)[..0] == "";
    } else {
      var s := PrintNat(n);
      assert s[..|s| - 1] == PrintNat(n / 10);
      DigitsValuePrintNat(n / 10);
    }
  }

  /** Reading a printed integer gives it back, saturated to int64. */
  lemma ParsePrint(n: int)
    ensures ParseInt64(PrintInt(n)) == Clamp(n)
    ensures n > 9223372036854775807 ==> ParseInt64(PrintInt(n)) == 9223372036854775807
    ensures n < -9223372036854775808 ==> ParseInt64(PrintInt(n)) == -9223372036854775808
  {
    var m := if n < 0 then -n else n;
    DigitsValuePrintNat(m);
    assert ("-" + PrintNat(m))[1..] == PrintNat(m);
  }

  lemma PrintIntInjective(m: int, n: int)
    requires PrintInt(m) == PrintInt(n)
    ensures m == n
  {
    var a, b := if m < 0 then -m else m, if n < 0 then -n else n;
    DigitsValuePrintNat(a);
    DigitsValuePrintNat(b);
    assert PrintInt(m)[0] == '-' <==> m < 0;
    assert PrintInt(n)[0] == '-' <==> n < 0;
    assert ("-" + PrintNat(a))[1..] == PrintNat(a);
    assert ("-" + PrintNat(b))[1..] == PrintNat(b);
  }

  /** A printed integer holds only digits and a sign, so none of the separators used here. */
  lemma PrintIntCharacters(n: int)
    ensures forall c :: c in PrintInt(n) ==> c == '-' || '0' <= c <= '9'
  {
    var s := PrintInt(n);
    forall c | c in s ensures c == '-' || '0' <= c <= '9' {
      var i :| 0 <= i < |s| && s[i] == c;
    }
  }
}
