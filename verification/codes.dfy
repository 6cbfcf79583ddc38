/** Decimal rendering of numbers (JavaScript's `${n}` and `String(n)` on a
    non-negative integer) and the `#NNNNN` public code of a request. */
module Codes {

  function DigitChar(d: nat): (c: char)
    requires d < 10
    ensures '0' <= c <= '9'
  {
    ('0' as int + d) as char
  }

  function DigitValue(c: char): nat
  {
    if '0' <= c <= '9' then c as int - '0' as int else 0
  }

  /** The decimal digits of `n`, most significant first, no leading zero. */
  function Decimal(n: nat): (s: string)
    ensures |s| >= 1
    ensures forall i :: 0 <= i < |s| ==> '0' <= s[i] <= '9'
    decreases n
  {
    if n < 10 then [DigitChar(n)] else Decimal(n / 10) + [DigitChar(n % 10)]
  }

  /** Reads a string of decimal digits back into a number. */
  function ParseDecimal(s: string): nat
    decreases |s|
  {
    if s == [] then 0 else ParseDecimal(s[..|s| - 1]) * 10 + DigitValue(s[|s| - 1])
  }

  lemma {:induction false} ParseDecimalOfDecimal(n: nat)
    ensures ParseDecimal(Decimal(n)) == n
    decreases n
  {
    var s := Decimal(n);
    if n >= 10 {
      ParseDecimalOfDecimal(n / 10);
      assert s[..|s| - 1] == Decimal(n / 10);
    }
  }

  lemma {:induction false} DecimalLength(n: nat, k: nat)
    requires Pow10(k) <= n < Pow10(k + 1)
    ensures |Decimal(n)| == k + 1
    decreases k
  {
    if k > 0 {
      DecimalLength(n / 10, k - 1);
    }
  }

  function Pow10(k: nat): (p: nat)
    ensures p >= 1
  {
    if k == 0 then 1 else 10 * Pow10(k - 1)
  }

  /** `generateCodigo`: `"#"` followed by `Math.floor(Math.random() * 90000) + 10000`.
      `draw` is that floor, which `Math.random() < 1` keeps below 90000. */
  function GenerateCodigo(draw: nat): (code: string)
    requires draw < 90000
    ensures |code| == 6 && code[0] == '#'
    ensures forall i :: 1 <= i < 6 ==> '0' <= code[i] <= '9'
    ensures 10000 <= ParseDecimal(code[1..]) <= 99999
    ensures ParseDecimal(code[1..]) == draw + 10000
  {
    DecimalLength(draw + 10000, 4);
    ParseDecimalOfDecimal(draw + 10000);
    assert ("#" + Decimal(draw + 10000))[1..] == Decimal(draw + 10000);
    "#" + Decimal(draw + 10000)
  }

  /** Distinct draws give distinct codes: the code determines its draw. */
  lemma GenerateCodigoInjective(d1: nat, d2: nat)
    requires d1 < 90000 && d2 < 90000
    requires GenerateCodigo(d1) == GenerateCodigo(d2)
    ensures d1 == d2
  {
  }
}
