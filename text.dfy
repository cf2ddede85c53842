/**
 * String helpers shared by the ledger: decimal rendering as Kotlin's `toString`
 * and `String.format("%02d")` produce it, SQLite's `SUBSTR`, the byte-wise
 * ordering SQLite uses for `ORDER BY` on text, and the small `kotlin.text`
 * functions the screens call (`substringBefore`, `replace`, `contains`).
 */
module Text {

  predicate IsDigit(c: char) {
    '0' <= c <= '9'
  }

  predicate AllDigits(s: string) {
    forall i :: 0 <= i < |s| ==> IsDigit(s[i])
  }

  function DigitChar(d: nat): (c: char)
    requires d < 10
    ensures IsDigit(c) && c as int - '0' as int == d
  {
    ('0' as int + d) as char
  }

  /** The value of a string of decimal digits, most significant first. */
  function DigitsValue(s: string): nat
    requires AllDigits(s)
  {
    if s == [] then 0 else DigitsValue(s[..|s| - 1]) * 10 + (s[|s| - 1] as int - '0' as int)
  }

  /** Kotlin's `Int.toString()` for a non-negative value. */
  function NatToString(n: nat): (r: string)
    ensures |r| >= 1 && AllDigits(r)
    ensures n < 10 ==> |r| == 1
    ensures 10 <= n < 100 ==> |r| == 2
    ensures 1000 <= n < 10000 ==> |r| == 4
  {
    if n < 10 then [DigitChar(n)] else NatToString(n / 10) + [DigitChar(n % 10)]
  }

  /** Reading the digits back gives the number: `toString` loses nothing. */
  lemma {:induction false} NatToStringRoundTrip(n: nat)
    ensures DigitsValue(NatToString(n)) == n
  {
    if n >= 10 {
      var r := NatToString(n);
      assert r[..|r| - 1] == NatToString(n / 10);
      NatToStringRoundTrip(n / 10);
    }
  }

  lemma NatToStringInjective(m: nat, n: nat)
    requires NatToString(m) == NatToString(n)
    ensures m == n
  {
    NatToStringRoundTrip(m);
    NatToStringRoundTrip(n);
  }

  /** Kotlin's `Int.toString()`. */
  function IntToString(n: int): (r: string)
    ensures |r| >= 1
    ensures n >= 0 ==> r == NatToString(n)
    ensures n < 0 ==> r[0] == '-'
  {
    if n >= 0 then NatToString(n) else "-" + NatToString(-n)
  }

  /**
   * `String.format("%02d", n)`: at least two characters, zero-padded on the
   * left; a negative value keeps its sign and is padded after it only if it
   * would otherwise be shorter than two characters (which cannot happen).
   */
  function Format02(n: int): (r: string)
    ensures |r| >= 2
    ensures 0 <= n < 100 ==> |r| == 2 && AllDigits(r) && DigitsValue(r) == n
    ensures n < 0 ==> r[0] == '-'
  {
    if n < 0 then "-" + NatToString(-n)
    else if n < 10 then
      assert DigitsValue("0" + NatToString(n)) == DigitsValue("0") * 10 + n;
      "0" + NatToString(n)
    else (NatToStringRoundTrip(n); NatToString(n))
  }

  lemma Format02Injective(m: int, n: int)
    requires 0 <= m < 100 && 0 <= n < 100
    requires Format02(m) == Format02(n)
    ensures m == n
  {
  }

  /**
   * SQLite `SUBSTR(s, start, len)` for a 1-based `start >= 1` and `len >= 0`:
   * the characters from position `start` on, at most `len` of them, and fewer
   * (possibly none) when the text is too short.
   */
  function Substr(s: string, start: nat, len: nat): (r: string)
    requires start >= 1
    ensures |r| <= len
    ensures start - 1 + len <= |s| ==> r == s[start - 1..start - 1 + len]
    ensures start - 1 + len > |s| && len > 0 ==> |r| < len
  {
    if start - 1 >= |s| then []
    else if start - 1 + len <= |s| then s[start - 1..start - 1 + len]
    else s[start - 1..]
  }

  /**
   * SQLite's BINARY collation on text: code-point order character by
   * character, a proper prefix first. This is the order `ORDER BY date` uses.
   */
  predicate LexLeq(a: string, b: string) {
    a == [] || (b != [] && (a[0] < b[0] || (a[0] == b[0] && LexLeq(a[1..], b[1..]))))
  }

  lemma {:induction false} LexLeqTotal(a: string, b: string)
    ensures LexLeq(a, b) || LexLeq(b, a)
  {
    if a != [] && b != [] && a[0] == b[0] {
      LexLeqTotal(a[1..], b[1..]);
    }
  }

  lemma {:induction false} LexLeqTransitive(a: string, b: string, c: string)
    requires LexLeq(a, b) && LexLeq(b, c)
    ensures LexLeq(a, c)
  {
    if a != [] && b != [] && c != [] && a[0] == b[0] && b[0] == c[0] {
      LexLeqTransitive(a[1..], b[1..], c[1..]);
    }
  }

  lemma {:induction false} LexLeqAntisymmetric(a: string, b: string)
    requires LexLeq(a, b) && LexLeq(b, a)
    ensures a == b
  {
    if a != [] && b != [] {
      LexLeqAntisymmetric(a[1..], b[1..]);
      assert a == [a[0]] + a[1..] && b == [b[0]] + b[1..];
    }
  }

  /** Kotlin's `s.substringBefore(c)`: everything before the first `c`, or all of `s`. */
  function SubstringBefore(s: string, c: char): (r: string)
    ensures |r| <= |s| && r == s[..|r|]
    ensures c !in r
    ensures |r| < |s| ==> s[|r|] == c
    ensures c !in s ==> r == s
  {
    if s == [] then []
    else if s[0] == c then []
    else [s[0]] + SubstringBefore(s[1..], c)
  }

  /** The text before the first `c` of `a + [c] + b` is `a`, when `a` holds no `c`. */
  lemma {:induction false} SubstringBeforeSplit(a: string, c: char, b: string)
    requires c !in a
    ensures SubstringBefore(a + [c] + b, c) == a
  {
    if a != [] {
      assert (a + [c] + b)[1..] == a[1..] + [c] + b;
      SubstringBeforeSplit(a[1..], c, b);
    }
  }

  /** Kotlin's `s.replace(a, b)` for one-character strings `a` and `b`. */
  function ReplaceChar(s: string, a: char, b: char): (r: string)
    ensures |r| == |s|
    ensures forall i :: 0 <= i < |s| ==> r[i] == (if s[i] == a then b else s[i])
  {
    if s == [] then [] else [if s[0] == a then b else s[0]] + ReplaceChar(s[1..], a, b)
  }

  /** How many times `c` occurs in `s`. */
  function Count(s: string, c: char): (n: nat)
    ensures n <= |s|
    ensures n == 0 <==> c !in s
  {
    if s == [] then 0 else (if s[0] == c then 1 else 0) + Count(s[1..], c)
  }

  lemma {:induction false} CountAppend(s: string, t: string, c: char)
    ensures Count(s + t, c) == Count(s, c) + Count(t, c)
  {
    if s != [] {
      assert (s + t)[0] == s[0] && (s + t)[1..] == s[1..] + t;
      CountAppend(s[1..], t, c);
    } else {
      assert s + t == t;
    }
  }

  /** Kotlin's `take(n)`: the first `n` characters, or all of them. */
  function Take(s: string, n: nat): (r: string)
    ensures |r| == if |s| < n then |s| else n
    ensures r == s[..|r|]
  {
    if |s| <= n then s else s[..n]
  }
}
