/** Decimal conversions as Go's `strconv.Itoa` / `fmt.Sprintf("%d")` and
    `strconv.Atoi` perform them on a 64-bit platform. */
module Strconv {

  import opened Common

  const MinInt64: int := -0x8000_0000_0000_0000
  const MaxInt64: int := 0x7fff_ffff_ffff_ffff

  predicate IsDigit(c: char) {
    '0' <= c <= '9'
  }

  predicate AllDigits(s: string) {
    forall i :: 0 <= i < |s| ==> IsDigit(s[i])
  }

  function DigitChar(d: nat): (c: char)
    requires d < 10
    ensures IsDigit(c) && c as int - '0' as int == d
  {
    ('0' as int + d) as char
  }

  /** The decimal digits of `n`, most significant first, without leading zeros. */
  function NatToString(n: nat): (s: string)
    ensures |s| > 0 && AllDigits(s)
    ensures n > 0 ==> s[0] != '0'
    decreases n
  {
    if n < 10 then [DigitChar(n)] else NatToString(n / 10) + [DigitChar(n % 10)]
  }

  /** The value of a string of decimal digits (leading zeros allowed). */
  function DigitsValue(s: string): nat
    requires AllDigits(s)
    decreases |s|
  {
    if s == [] then 0
    else DigitsValue(s[..|s| - 1]) * 10 + (s[|s| - 1] as int - '0' as int)
  }

  /** `strconv.Itoa(n)`, also what `%d` prints. */
  function Itoa(n: int): (s: string)
    ensures |s| > 0
    ensures s[0] == '-' <==> n < 0
  {
    if n < 0 then "-" + NatToString(-n) else NatToString(n)
  }

  /** The text after an optional leading '+' or '-'. */
  function Unsigned(s: string): string {
    if |s| > 0 && (s[0] == '+' || s[0] == '-') then s[1..] else s
  }

  /** The value of an optionally signed run of digits. */
  function SignedValue(s: string): int
    requires AllDigits(Unsigned(s))
  {
    if |s| > 0 && s[0] == '-' then 0 - DigitsValue(Unsigned(s)) else DigitsValue(Unsigned(s))
  }

  /** `strconv.Atoi(s)`: an optional sign followed by at least one decimal digit,
      with the value inside the 64-bit range; anything else is a syntax or
      range error (None). */
  function Atoi(s: string): (r: Option<int>)
    ensures r.Some? <==> Unsigned(s) != "" && AllDigits(Unsigned(s)) && MinInt64 <= SignedValue(s) <= MaxInt64
    ensures r.Some? ==> r.value == SignedValue(s)
    ensures r.Some? ==> MinInt64 <= r.value <= MaxInt64
    ensures s == "" ==> r.None?
  {
    var neg := |s| > 0 && s[0] == '-';
    var body := if |s| > 0 && (s[0] == '+' || s[0] == '-') then s[1..] else s;
    if body == [] || !AllDigits(body) then None
    else
      var v: int := if neg then 0 - DigitsValue(body) as int else DigitsValue(body);
      if MinInt64 <= v <= MaxInt64 then Some(v) else None
  }

  /** Go's `+` on two `int`s of a 64-bit platform: the sum wraps around
      modulo 2^64 into the 64-bit range. */
  function AddInt64(a: int, b: int): (r: int)
    ensures MinInt64 <= r <= MaxInt64
    ensures MinInt64 <= a + b <= MaxInt64 ==> r == a + b
    ensures MaxInt64 < a + b <= 2 * MaxInt64 + 1 ==> r == a + b - 0x1_0000_0000_0000_0000
    ensures 2 * MinInt64 <= a + b < MinInt64 ==> r == a + b + 0x1_0000_0000_0000_0000
  {
    (a + b - MinInt64) % 0x1_0000_0000_0000_0000 + MinInt64
  }

  lemma {:induction false} DigitsValueOfNatToString(n: nat)
    ensures DigitsValue(NatToString(n)) == n
    decreases n
  {
    if n >= 10 {
      var prefix := NatToString(n / 10);
      var s := prefix + [DigitChar(n % 10)];
      assert s[..|s| - 1] == prefix;
      DigitsValueOfNatToString(n / 10);
    }
  }

  /** Printing then parsing a 64-bit integer gives it back. */
  lemma AtoiItoa(n: int)
    requires MinInt64 <= n <= MaxInt64
    ensures Atoi(Itoa(n)) == Some(n)
  {
    if n < 0 {
      var s := Itoa(n);
      assert s[1..] == NatToString(-n);
      DigitsValueOfNatToString(-n);
    } else {
      DigitsValueOfNatToString(n);
    }
  }

  /** Two different integers never print the same. */
  lemma ItoaInjective(a: int, b: int)
    requires MinInt64 <= a <= MaxInt64 && MinInt64 <= b <= MaxInt64
    requires Itoa(a) == Itoa(b)
    ensures a == b
  {
    AtoiItoa(a);
    AtoiItoa(b);
  }
}
