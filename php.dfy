/**
 * The small part of PHP's value semantics that the Turnstile class relies on:
 * `empty()`, the string cast used by `.` and `esc_attr`, integer-to-decimal
 * conversion, and PHP 8's loose `==` against a plain lower-case word (which is
 * what `in_array` without the strict flag uses).
 */
module Php {

  /** A scalar PHP value, as returned by an option lookup or read from `$_SERVER`. */
  datatype Value = Null | Bool(b: bool) | Int(i: int) | Str(s: string)

  /** PHP's `empty()`: null, false, 0, "" and "0" are empty; everything else is not. */
  predicate Empty(v: Value) {
    match v
    case Null => true
    case Bool(b) => !b
    case Int(i) => i == 0
    case Str(s) => s == "" || s == "0"
  }

  /** Truthiness of a string under PHP's bool cast. */
  predicate StrTruthy(s: string) {
    s != "" && s != "0"
  }

  predicate IsDigit(c: char) {
    '0' <= c <= '9'
  }

  predicate AllDigits(s: string) {
    forall i :: 0 <= i < |s| ==> IsDigit(s[i])
  }

  function DigitChar(d: nat): (c: char)
    requires d < 10
    ensures IsDigit(c)
  {
    (48 + d) as char
  }

  function DigitValue(c: char): nat
    requires IsDigit(c)
  {
    c as int - 48
  }

  /** Decimal rendering of a natural number, without leading zeros. */
  function NatToString(n: nat): (s: string)
    ensures |s| > 0 && AllDigits(s)
    ensures s[0] == '0' ==> n == 0
    decreases n
  {
    if n < 10 then [DigitChar(n)] else NatToString(n / 10) + [DigitChar(n % 10)]
  }

  /** The number a string of decimal digits denotes. */
  function DigitsValue(s: string): nat
    requires AllDigits(s)
  {
    if s == [] then 0 else 10 * DigitsValue(s[..|s| - 1]) + DigitValue(s[|s| - 1])
  }

  /** Reading back the digits of `NatToString(n)` gives `n`. */
  lemma {:induction false} NatToStringValue(n: nat)
    ensures DigitsValue(NatToString(n)) == n
    decreases n
  {
    var s := NatToString(n);
    if n < 10 {
      assert s[..|s| - 1] == [];
    } else {
      NatToStringValue(n / 10);
      assert s[..|s| - 1] == NatToString(n / 10);
    }
  }

  /** Different numbers never render to the same decimal string. */
  lemma NatToStringInjective(m: nat, n: nat)
    ensures NatToString(m) == NatToString(n) <==> m == n
  {
    NatToStringValue(m);
    NatToStringValue(n);
  }

  /** PHP's conversion of an `int` to its decimal string (as done by `.` and string interpolation). */
  function IntToString(i: int): (s: string)
    ensures |s| > 0 && IsDigit(s[|s| - 1])
    ensures forall k :: 0 <= k < |s| ==> IsDigit(s[k]) || (k == 0 && s[k] == '-')
  {
    if i < 0 then "-" + NatToString(-i) else NatToString(i)
  }

  /** Different integers never render to the same string. */
  lemma IntToStringInjective(i: int, j: int)
    ensures IntToString(i) == IntToString(j) <==> i == j
  {
    var a, b := IntToString(i), IntToString(j);
    assert a[0] == '-' <==> i < 0;
    assert b[0] == '-' <==> j < 0;
    if a == b && i < 0 && j < 0 {
      assert NatToString(-i) == a[1..] && NatToString(-j) == b[1..];
      NatToStringInjective(-i, -j);
    } else if i >= 0 && j >= 0 {
      NatToStringInjective(i, j);
    }
  }

  /** PHP's `(string)` cast, which `esc_attr` applies to its argument. */
  function ToString(v: Value): string {
    match v
    case Null => ""
    case Bool(b) => if b then "1" else ""
    case Int(i) => IntToString(i)
    case Str(s) => s
  }

  /** A non-empty word of lower-case ASCII letters; never a numeric string in PHP's sense. */
  predicate IsLowerWord(w: string) {
    |w| > 0 && forall k :: 0 <= k < |w| ==> 'a' <= w[k] <= 'z'
  }

  /**
   * PHP 8's loose `$v == $w` for a lower-case word `$w`: null compares as "",
   * a bool compares against the word's truthiness, an int is compared as its
   * decimal string (the word is not numeric), a string compares byte by byte.
   */
  predicate LooseEqualsWord(v: Value, w: string)
    requires IsLowerWord(w)
  {
    match v
    case Null => w == ""
    case Bool(b) => b == StrTruthy(w)
    case Int(i) => IntToString(i) == w
    case Str(s) => s == w
  }

  /** `in_array($v, $words)` without the strict flag, over lower-case words. */
  predicate LooseInArray(v: Value, words: seq<string>)
    requires forall k :: 0 <= k < |words| ==> IsLowerWord(words[k])
  {
    exists k :: 0 <= k < |words| && LooseEqualsWord(v, words[k])
  }

  /** An integer never loosely equals a lower-case word: its string ends in a digit. */
  lemma IntNeverEqualsWord(i: int, w: string)
    requires IsLowerWord(w)
    ensures !LooseEqualsWord(Int(i), w)
  {
    var s := IntToString(i);
    assert IsDigit(s[|s| - 1]) && !IsDigit(w[|w| - 1]);
  }

  /** `true` loosely equals every lower-case word; it is the only non-string value that does. */
  lemma LooseEqualsWordCases(v: Value, w: string)
    requires IsLowerWord(w)
    ensures LooseEqualsWord(v, w) <==> v == Str(w) || v == Bool(true)
  {
    assert 'a' <= w[0] <= 'z';
    if v.Int? {
      IntNeverEqualsWord(v.i, w);
    }
  }
}
