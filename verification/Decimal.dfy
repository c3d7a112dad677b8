// The decimal printer of stream.go: a 20-byte buffer filled from the back, over
// 64-bit integers with their wrap-around negation.
module Decimal {
  import opened Wrappers

  const MIN := -0x8000_0000_0000_0000
  const MAX := 0x7fff_ffff_ffff_ffff

  type Int64 = x: int | MIN <= x <= MAX

  /** Two's complement negation: the smallest value is its own negation. */
  function Negate(x: Int64): Int64 {
    if x == MIN then MIN else -x
  }

  function Digit(d: nat): char
    requires d < 10
  {
    ('0' as int + d) as char
  }

  /** The decimal digits of n, most significant first. */
  function Digits(n: nat): (s: string)
    ensures |s| >= 1
  {
    if n < 10 then [Digit(n)] else Digits(n / 10) + [Digit(n % 10)]
  }

  function Text(x: int): string {
    if x < 0 then "-" + Digits(-x) else Digits(x)
  }

  /** What itoa prints. */
  function Printed(x: Int64): string {
    if x == MIN then "-" else Text(x)
  }

  ghost function Pow10(k: nat): nat {
    if k == 0 then 1 else 10 * Pow10(k - 1)
  }

  lemma {:induction false} DigitsFit(n: nat, k: nat)
    requires n < Pow10(k) && k > 0
    ensures |Digits(n)| <= k
  {
    if n >= 10 {
      DigitsFit(n / 10, k - 1);
    }
  }

  /** No 64-bit integer has more than nineteen digits. */
  lemma Nineteen(n: nat)
    requires n <= MAX
    ensures |Digits(n)| <= 19
  {
    assert Pow10(4) == 10_000;
    assert Pow10(8) == 100_000_000;
    assert Pow10(12) == 1_000_000_000_000;
    assert Pow10(16) == 10_000_000_000_000_000;
    DigitsFit(n, 19);
  }

  /** What is still to be printed before the text so far. */
  function Rest(i: int): string {
    if i > 0 then Digits(i) else ""
  }

  /** One digit moved from the number to the text already printed. */
  lemma MoveDigit(i: int, tail: string)
    requires i > 0
    ensures Rest(i) + tail == Rest(i / 10) + ([Digit(i % 10)] + tail)
    ensures |Rest(i)| == |Rest(i / 10)| + 1
  {
  }

  /** What the whole number and its sign come to. */
  lemma SignAndDigits(x: Int64, n: int, text: string)
    requires x != 0 && n == (if x < 0 then Negate(x) else x) && text == Rest(n)
    ensures Printed(x) == if x < 0 then ['-'] + text else text
  {
  }

  /** Writing one character in front of the text so far. */
  method Write(buf: array<char>, pos: nat, c: char) returns (pos': nat)
    requires 0 < pos <= buf.Length
    modifies buf
    ensures pos' == pos - 1 && buf[pos'..] == [c] + old(buf[pos..])
  {
    pos' := pos - 1;
    buf[pos'] := c;
  }

  /** itoa: no write outside the buffer for any input, and the text it prints. */
  method Itoa(x: Int64) returns (s: string)
    ensures s == Printed(x)
  {
    if x == 0 { return "0"; }
    var i: int := x;
    var neg := i < 0;
    if neg { i := Negate(i); }
    ghost var n := i;
    if n > 0 { Nineteen(n); }
    var buf := new char[20];
    var pos := buf.Length;
    while i > 0
      invariant |Rest(i)| < pos <= buf.Length
      invariant Rest(n) == Rest(i) + buf[pos..]
      decreases i
    {
      MoveDigit(i, buf[pos..]);
      pos := Write(buf, pos, Digit(i % 10));
      i := i / 10;
    }
    SignAndDigits(x, n, buf[pos..]);
    if neg { pos := Write(buf, pos, '-'); }
    return buf[pos..];
  }

  // ---- digit by digit ----

  /** n without its last k decimal places. */
  ghost function Shifted(n: nat, k: nat): nat {
    if k == 0 then n else Shifted(n / 10, k - 1)
  }

  /** The k-th digit from the right is the one decimal notation has there. */
  lemma {:induction false} DigitAt(n: nat, k: nat)
    requires k < |Digits(n)|
    ensures Digits(n)[|Digits(n)| - 1 - k] as int == '0' as int + Shifted(n, k) % 10
    decreases k
  {
    if k > 0 && n >= 10 {
      DigitAt(n / 10, k - 1);
    }
  }

  /** And there are just as many digits as the number needs. */
  lemma {:induction false} DigitCount(n: nat)
    ensures n < Pow10(|Digits(n)|) && (n > 0 ==> Pow10(|Digits(n)| - 1) <= n)
  {
    if n >= 10 {
      DigitCount(n / 10);
    }
  }

  /** Everything itoa prints, character by character, for every 64-bit integer but the smallest. */
  lemma PrintedAt(x: Int64, k: nat)
    requires x != MIN && k < |Printed(x)| - if x < 0 then 1 else 0
    ensures x < 0 ==> Printed(x)[0] == '-'
    ensures var n := if x < 0 then -x else x;
            && Printed(x)[|Printed(x)| - 1 - k] as int == '0' as int + Shifted(n, k) % 10
            && n < Pow10(|Printed(x)| - if x < 0 then 1 else 0)
  {
    var n: nat := if x < 0 then -x else x;
    var digits := Digits(n);
    DigitAt(n, k);
    DigitCount(n);
    assert Printed(x) == if x < 0 then ['-'] + digits else digits;
    assert Printed(x)[|Printed(x)| - 1 - k] == digits[|digits| - 1 - k];
  }

  // ---- reading it back ----

  function ValueOf(c: char): Option<nat> {
    if '0' <= c <= '9' then Some(c as int - '0' as int) else None
  }

  /** The value of a string of digits. */
  function Value(s: string): Option<nat> {
    if s == "" then None
    else
      match ValueOf(s[|s| - 1])
      case None => None
      case Some(d) =>
        if |s| == 1 then Some(d)
        else match Value(s[..|s| - 1])
             case None => None
             case Some(v) => Some(10 * v + d)
  }

  function Parse(s: string): Option<int> {
    if s != "" && s[0] == '-' then
      match Value(s[1..])
      case None => None
      case Some(v) => var x: int := v; Some(-x)
    else
      match Value(s)
      case None => None
      case Some(v) => var x: int := v; Some(x)
  }

  lemma {:induction false} DigitsCanonical(n: nat)
    ensures Value(Digits(n)) == Some(n)
    ensures Digits(n)[0] != '-'
    ensures n > 0 ==> Digits(n)[0] != '0'
  {
    if n >= 10 {
      DigitsCanonical(n / 10);
      assert Digits(n)[..|Digits(n)| - 1] == Digits(n / 10);
    }
  }

  /** Canonical: an optional sign, then digits with no leading zero. */
  predicate Canonical(s: string) {
    s == "0" || (s != "" && s[0] != '0' && Value(s).Some?)
    || (|s| > 1 && s[0] == '-' && s[1] != '0' && Value(s[1..]).Some?)
  }

  lemma NaturalPrintsBack(n: nat)
    ensures Parse(Digits(n)) == Some(n) && Canonical(Digits(n))
  {
    DigitsCanonical(n);
  }

  lemma NegativePrintsBack(n: int)
    requires n > 0
    ensures Parse("-" + Digits(n)) == Some(-n) && Canonical("-" + Digits(n))
  {
    DigitsCanonical(n);
    assert ("-" + Digits(n))[1..] == Digits(n);
  }

  lemma BareSign()
    ensures Parse("-") == None && !Canonical("-")
  {
    assert "-"[1..] == "";
  }

  /**
   * What itoa prints reads back as the integer, in canonical form, for every
   * 64-bit integer except the smallest, which prints as a bare sign.
   */
  lemma PrintsBackIff(x: Int64)
    ensures Parse(Printed(x)) == Some(x) <==> x != MIN
    ensures Canonical(Printed(x)) <==> x != MIN
    ensures x == MIN ==> Parse(Printed(x)) == None
  {
    if x == MIN {
      BareSign();
    } else if x < 0 {
      NegativePrintsBack(-x);
    } else {
      NaturalPrintsBack(x);
    }
  }
}
