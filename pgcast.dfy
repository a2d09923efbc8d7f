/**
 * How Postgres reads a text value bound to an `integer` column (the input function of
 * `int4`): blanks around it are allowed, then an optional sign and at least one decimal
 * digit; anything else, or a value outside 32 bits, raises. This is the input function of
 * Postgres 15 and earlier, which reads decimal digits only.
 */
module PgCast {
  import opened Wrappers

  const INT4_MIN: int := -0x8000_0000
  const INT4_MAX: int := 0x7FFF_FFFF

  /** The blanks `isspace` accepts in the C locale. */
  predicate PgSpace(c: char) {
    c == ' ' || c == '\t' || c == '\n' || c == '\r' || c == '\U{B}' || c == '\U{C}'
  }

  predicate IsDigit(c: char) {
    '0' <= c <= '9'
  }

  predicate AllDigits(d: string) {
    forall k :: 0 <= k < |d| ==> IsDigit(d[k])
  }

  /** The first position at or after `i` that holds no blank, or `|s|`. */
  function SkipBlanks(s: string, i: nat): (r: nat)
    requires i <= |s|
    decreases |s| - i
    ensures i <= r <= |s|
    ensures forall k :: i <= k < r ==> PgSpace(s[k])
    ensures r < |s| ==> !PgSpace(s[r])
  {
    if i == |s| || !PgSpace(s[i]) then i else SkipBlanks(s, i + 1)
  }

  /** The end of `s[lo..j]` once the blanks at its end are dropped. */
  function TrimBlanksEnd(s: string, lo: nat, j: nat): (r: nat)
    requires lo <= j <= |s|
    decreases j
    ensures lo <= r <= j
    ensures forall k :: r <= k < j ==> PgSpace(s[k])
    ensures r > lo ==> !PgSpace(s[r - 1])
  {
    if j == lo || !PgSpace(s[j - 1]) then j else TrimBlanksEnd(s, lo, j - 1)
  }

  /** `s` without its leading and trailing blanks. */
  function TrimBlanks(s: string): string {
    var i := SkipBlanks(s, 0);
    s[i..TrimBlanksEnd(s, i, |s|)]
  }

  /** The number a string of decimal digits spells. */
  function DigitsValue(d: string): nat
    requires AllDigits(d)
  {
    if d == [] then 0 else DigitsValue(d[..|d| - 1]) * 10 + (d[|d| - 1] as int - '0' as int)
  }

  /** The text `str(n)` of a natural number. */
  function Decimal(n: nat): (r: string)
    ensures r != [] && AllDigits(r)
  {
    if n < 10 then [('0' as int + n) as char]
    else Decimal(n / 10) + [('0' as int + n % 10) as char]
  }

  /** The text `str(n)` of an integer. */
  function Render(n: int): string {
    if n < 0 then "-" + Decimal(-n) else Decimal(n)
  }

  /** The sign and digits of a trimmed literal: whether it is negative, and the digit part. */
  function SignAndDigits(t: string): (bool, string) {
    if t != [] && (t[0] == '-' || t[0] == '+') then (t[0] == '-', t[1..]) else (false, t)
  }

  /** `'<s>'::integer`: the value, or `None` where Postgres raises. */
  function PgIntCast(s: string): (r: Option<int>)
    ensures r.Some? ==> INT4_MIN <= r.value <= INT4_MAX
  {
    var (neg, d) := SignAndDigits(TrimBlanks(s));
    if d == [] || !AllDigits(d) then None
    else
      var v: int := if neg then -(DigitsValue(d) as int) else DigitsValue(d);
      if INT4_MIN <= v <= INT4_MAX then Some(v) else None
  }

  /** Reading back a rendered number gives the number. */
  lemma {:induction false} DigitsOfDecimal(n: nat)
    ensures DigitsValue(Decimal(n)) == n
  {
    if n >= 10 {
      var d := Decimal(n);
      var init := Decimal(n / 10);
      assert d[..|d| - 1] == init;
      DigitsOfDecimal(n / 10);
    }
  }

  /** A text with no blank at either end is its own trimmed form. */
  lemma TrimUnpadded(s: string)
    requires s != [] && !PgSpace(s[0]) && !PgSpace(s[|s| - 1])
    ensures TrimBlanks(s) == s
  {
  }

  /** Round trip: every 32-bit integer, written out in decimal, is read back as itself. */
  lemma CastRender(n: int)
    requires INT4_MIN <= n <= INT4_MAX
    ensures PgIntCast(Render(n)) == Some(n)
  {
    var r := Render(n);
    var d := Decimal(if n < 0 then -n else n);
    assert !PgSpace(d[0]) && !PgSpace(d[|d| - 1]);
    TrimUnpadded(r);
    DigitsOfDecimal(if n < 0 then -n else n);
    if n < 0 {
      assert r[1..] == d;
    } else {
      assert !IsDigit('-') && !IsDigit('+');
    }
  }

  /** A text holding a letter anywhere is not an integer: `'comida'::integer` raises. */
  lemma CastRejectsLetter(s: string, k: int)
    requires 0 <= k < |s| && ('a' <= s[k] <= 'z' || 'A' <= s[k] <= 'Z')
    ensures PgIntCast(s) == None
  {
    var i := SkipBlanks(s, 0);
    var j := TrimBlanksEnd(s, i, |s|);
    var t := TrimBlanks(s);
    assert i <= k < j;
    var (neg, d) := SignAndDigits(t);
    if t[0] == '-' || t[0] == '+' {
      assert k > i && d[k - i - 1] == s[k];
    } else {
      assert d[k - i] == s[k];
    }
  }
}
