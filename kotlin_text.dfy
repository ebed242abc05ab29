/**
 * The parts of Kotlin's String and Int API that the calculator uses, stated on
 * `seq<char>`: `Int.toString` (what `String + Int` appends), `dropLast(1)`,
 * `take(n)`, `isNotBlank()` and `contains(".")`.
 */
module KotlinText {

  predicate IsDigit(c: char) {
    '0' <= c <= '9'
  }

  /** Every character of `s` is a decimal digit. */
  predicate AllDigits(s: string) {
    forall i :: 0 <= i < |s| ==> IsDigit(s[i])
  }

  function DigitChar(d: int): (c: char)
    requires 0 <= d <= 9
    ensures IsDigit(c) && c as int - '0' as int == d
  {
    ('0' as int + d) as char
  }

  function DigitValue(c: char): (d: int)
    requires IsDigit(c)
    ensures 0 <= d <= 9 && DigitChar(d) == c
  {
    c as int - '0' as int
  }

  /** The shortest decimal numeral of a non-negative number. */
  function NatText(n: nat): (r: string)
    ensures |r| >= 1 && AllDigits(r)
    ensures (|r| == 1) == (n <= 9)
    ensures r[0] == '0' ==> n == 0
    decreases n
  {
    if n <= 9 then [DigitChar(n)] else NatText(n / 10) + [DigitChar(n % 10)]
  }

  /** The number a string of digits denotes, most significant digit first. */
  function NatValue(s: string): nat
    requires AllDigits(s)
  {
    if s == [] then 0 else NatValue(s[..|s| - 1]) * 10 + DigitValue(s[|s| - 1])
  }

  /** Reading back the numeral of `n` gives `n`. */
  lemma {:induction false} NatValueOfNatText(n: nat)
    ensures NatValue(NatText(n)) == n
  {
    if n > 9 {
      var r := NatText(n);
      assert r[..|r| - 1] == NatText(n / 10);
      NatValueOfNatText(n / 10);
    }
  }

  /** Kotlin's `Int.toString()`: a minus sign for negative values, then the numeral. */
  function IntText(n: int): (r: string)
    ensures |r| >= 1
    ensures n >= 0 <==> AllDigits(r)
    ensures (|r| == 1) == (0 <= n <= 9)
  {
    if n < 0 then
      var r := "-" + NatText(-n);
      assert !IsDigit(r[0]);
      r
    else
      NatText(n)
  }

  /** `IntText` loses nothing: the sign and the magnitude can be read back. */
  lemma IntTextRoundTrip(n: int)
    ensures n >= 0 ==> AllDigits(IntText(n)) && NatValue(IntText(n)) == n
    ensures n < 0 ==> IntText(n)[0] == '-' && AllDigits(IntText(n)[1..])
                      && NatValue(IntText(n)[1..]) == -n
  {
    if n >= 0 {
      NatValueOfNatText(n);
    } else {
      assert IntText(n)[1..] == NatText(-n);
      NatValueOfNatText(-n);
    }
  }

  /** A single decimal digit is written as that one character. */
  lemma DigitIntText(d: int)
    requires 0 <= d <= 9
    ensures IntText(d) == [DigitChar(d)]
  {
  }

  /** `dropLast(1)`: everything but the last character; the empty string stays empty. */
  function DropLast(s: string): (r: string)
    ensures s == [] ==> r == []
    ensures s != [] ==> r + [s[|s| - 1]] == s
  {
    if s == [] then [] else s[..|s| - 1]
  }

  /** `take(n)`: the longest prefix of `s` that has at most `n` characters. */
  function Take(s: string, n: nat): (r: string)
    ensures |r| <= n && r <= s
    ensures |r| == n || r == s
  {
    if |s| <= n then s else s[..n]
  }

  /**
   * `isNotBlank()`, as the model uses it: the string is not empty. It agrees with
   * Kotlin's own definition (`KotlinNotBlank`) on every string without whitespace
   * (`NotBlankAgrees`), and keypad text has none (`TypedNoWhitespace`).
   */
  predicate IsNotBlank(s: string) {
    s != []
  }

  /**
   * Kotlin's `Char.isWhitespace()` on the JVM: Java's whitespace characters and
   * its space separators — tab to carriage return, U+001C to U+0020 and the
   * Unicode space, line and paragraph separators.
   */
  predicate IsWhitespace(c: char) {
    || '\t' <= c <= '\r'
    || '\U{001C}' <= c <= ' '
    || c == '\U{00A0}' || c == '\U{1680}'
    || '\U{2000}' <= c <= '\U{200A}'
    || c == '\U{2028}' || c == '\U{2029}' || c == '\U{202F}' || c == '\U{205F}'
    || c == '\U{3000}'
  }

  /** Kotlin's `isNotBlank()`: some character is not whitespace. */
  predicate KotlinNotBlank(s: string) {
    exists i :: 0 <= i < |s| && !IsWhitespace(s[i])
  }

  predicate NoWhitespace(s: string) {
    forall i :: 0 <= i < |s| ==> !IsWhitespace(s[i])
  }

  /** On text without whitespace, "not empty" is exactly Kotlin's `isNotBlank()`. */
  lemma NotBlankAgrees(s: string)
    requires NoWhitespace(s)
    ensures IsNotBlank(s) <==> KotlinNotBlank(s)
  {
    if s != [] {
      assert !IsWhitespace(s[0]);
    }
  }

  /** How many decimal points `s` holds. */
  function DotCount(s: string): nat {
    multiset(s)['.']
  }

  /**
   * Text the keypad can produce for an operand: digits and at most one decimal
   * point, never leading.
   */
  predicate IsTypedNumeral(s: string) {
    && (forall i :: 0 <= i < |s| ==> IsDigit(s[i]) || s[i] == '.')
    && DotCount(s) <= 1
    && (s != [] ==> IsDigit(s[0]))
  }

  /** Appending one digit keeps a typed numeral typed. */
  lemma AppendDigitTyped(s: string, d: int)
    requires IsTypedNumeral(s) && 0 <= d <= 9
    ensures IsTypedNumeral(s + IntText(d))
  {
    DigitIntText(d);
    assert multiset(s + IntText(d)) == multiset(s) + multiset{DigitChar(d)};
  }

  /** Appending a point to a non-empty typed numeral without one keeps it typed. */
  lemma AppendDotTyped(s: string)
    requires IsTypedNumeral(s) && s != [] && '.' !in s
    ensures IsTypedNumeral(s + ".")
  {
    assert multiset(s + ".") == multiset(s) + multiset{'.'};
  }

  /** Dropping the last character keeps a typed numeral typed. */
  lemma DropLastTyped(s: string)
    requires IsTypedNumeral(s)
    ensures IsTypedNumeral(DropLast(s))
  {
    if s != [] {
      assert s == DropLast(s) + [s[|s| - 1]];
      assert multiset(s) == multiset(DropLast(s)) + multiset{s[|s| - 1]};
    }
  }

  /** Keypad text holds no whitespace, so `isNotBlank()` on it means "not empty". */
  lemma TypedNoWhitespace(s: string)
    requires IsTypedNumeral(s)
    ensures NoWhitespace(s)
    ensures IsNotBlank(s) <==> KotlinNotBlank(s)
  {
    NotBlankAgrees(s);
  }
}
