/** Account numbers: the fixed institutional prefix followed by the decimal
    rendering of an eight-digit random number. */
module AccountNumber {

  /** The prefix every generated account number starts with. */
  const Prefix: string := "40817810"

  predicate IsDigits(s: string) {
    forall i :: 0 <= i < |s| ==> '0' <= s[i] <= '9'
  }

  function Pow10(k: nat): nat {
    if k == 0 then 1 else 10 * Pow10(k - 1)
  }

  function DigitChar(d: nat): char
    requires d < 10
  {
    ('0' as int + d) as char
  }

  /** The decimal rendering of `n`, without leading zeros. */
  function Decimal(n: nat): string
    decreases n
  {
    if n < 10 then [DigitChar(n)] else Decimal(n / 10) + [DigitChar(n % 10)]
  }

  /** The value of a string of decimal digits. */
  function ParseDecimal(s: string): nat
    requires IsDigits(s)
    decreases |s|
  {
    if s == [] then 0 else 10 * ParseDecimal(s[..|s| - 1]) + (s[|s| - 1] as int - '0' as int)
  }

  /** Rendering is undone by parsing. */
  lemma {:induction false} DecimalRoundTrip(n: nat)
    ensures IsDigits(Decimal(n)) && ParseDecimal(Decimal(n)) == n
    decreases n
  {
    if n >= 10 {
      DecimalRoundTrip(n / 10);
      var s := Decimal(n);
      assert s[..|s| - 1] == Decimal(n / 10);
    }
  }

  /** A number with k + 1 digits renders to k + 1 characters. */
  lemma {:induction false} DecimalLength(n: nat, k: nat)
    requires Pow10(k) <= n < 10 * Pow10(k)
    ensures |Decimal(n)| == k + 1
    decreases k
  {
    if k > 0 {
      assert Pow10(k - 1) <= n / 10 < 10 * Pow10(k - 1);
      DecimalLength(n / 10, k - 1);
    }
  }

  /** The account number built from the random part `random`, which the
      source draws from 10000000..99999999: sixteen digits, the prefix, then
      the random part read back exactly, so distinct draws give distinct
      numbers. */
  function GenerateAccountNumber(random: int): (r: string)
    requires 10000000 <= random <= 99999999
    ensures |r| == 16 && r[..8] == Prefix && IsDigits(r)
    ensures ParseDecimal(r[8..]) == random
  {
    DecimalLength(random, 7);
    DecimalRoundTrip(random);
    var r := Prefix + Decimal(random);
    assert r[8..] == Decimal(random);
    r
  }

  /** Two draws give the same account number exactly when they are equal. */
  lemma GeneratedNumbersDistinct(a: int, b: int)
    requires 10000000 <= a <= 99999999 && 10000000 <= b <= 99999999
    ensures GenerateAccountNumber(a) == GenerateAccountNumber(b) <==> a == b
  {
  }
}
