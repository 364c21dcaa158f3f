/** The few PHP string and number primitives the data mapper relies on, with
    PHP's semantics written out: `empty()`, the `?:` operator, `trim`,
    `stripos`, `substr($s, 0, $n)`, `is_numeric` and `(int)` on integer
    numerals, integer-to-string conversion and `round()` of a quotient. */
module PhpText {
  import opened Wrappers

  /** PHP's `empty()` on a string: the empty string and "0" are empty. */
  predicate Empty(s: string)
  {
    s == "" || s == "0"
  }

  /** PHP's `$a ?: $b` on strings: `$a` when it is truthy, else `$b`. */
  function Elvis(a: string, b: string): (r: string)
    ensures !Empty(a) ==> r == a
    ensures Empty(a) ==> r == b
  {
    if !Empty(a) then a else b
  }

  // ---------------------------------------------------------------- trim

  /** The characters PHP's `trim` strips by default. */
  predicate IsTrimmed(c: char)
  {
    c == ' ' || c == '\t' || c == '\n' || c == '\r' || c == '\0' || c == '\U{B}'
  }

  /** Length of the longest prefix of `s` made of strippable characters. */
  function LeadingBlanks(s: string): (k: nat)
    ensures k <= |s|
    ensures forall i :: 0 <= i < k ==> IsTrimmed(s[i])
    ensures k < |s| ==> !IsTrimmed(s[k])
  {
    if s == [] || !IsTrimmed(s[0]) then 0 else 1 + LeadingBlanks(s[1..])
  }

  /** Length of the longest suffix of `s` made of strippable characters. */
  function TrailingBlanks(s: string): (k: nat)
    ensures k <= |s|
    ensures forall i :: |s| - k <= i < |s| ==> IsTrimmed(s[i])
    ensures k < |s| ==> !IsTrimmed(s[|s| - 1 - k])
  {
    if s == [] || !IsTrimmed(s[|s| - 1]) then 0 else 1 + TrailingBlanks(s[..|s| - 1])
  }

  /** PHP's `trim($s)`: `s` without its strippable prefix and suffix. The
      result is a contiguous slice of `s`, everything removed is strippable,
      and the result neither starts nor ends with a strippable character. */
  function Trim(s: string): (r: string)
    ensures exists i, j {:trigger s[i..j]} ::
              0 <= i <= j <= |s| && r == s[i..j] &&
              (forall k :: 0 <= k < i ==> IsTrimmed(s[k])) &&
              (forall k :: j <= k < |s| ==> IsTrimmed(s[k]))
    ensures r != [] ==> !IsTrimmed(r[0]) && !IsTrimmed(r[|r| - 1])
  {
    var i := LeadingBlanks(s);
    var rest := s[i..];
    var t := TrailingBlanks(rest);
    assert rest[..|rest| - t] == s[i..|s| - t];
    assert t < |rest| ==> s[i] == rest[0];
    s[i..|s| - t]
  }

  // ------------------------------------------------------------- stripos

  /** ASCII case folding, as PHP 8 applies it in `stripos`. */
  function Lower(c: char): (r: char)
    ensures 'A' <= c <= 'Z' ==> r != c && 'a' <= r <= 'z'
    ensures !('A' <= c <= 'Z') ==> r == c
  {
    if 'A' <= c <= 'Z' then (c as int + 32) as char else c
  }

  /** `needle` occurs in `hay` at position `k`, ignoring ASCII case. */
  predicate MatchesAt(hay: string, needle: string, k: nat)
  {
    k + |needle| <= |hay| &&
    forall t :: 0 <= t < |needle| ==> Lower(hay[k + t]) == Lower(needle[t])
  }

  /** PHP's `stripos($hay, $needle, $from)`: the first position at or after
      `from` where `needle` occurs ignoring case, or None (PHP's false). */
  function FindFrom(hay: string, needle: string, from: nat): (r: Option<nat>)
    requires from <= |hay|
    decreases |hay| - from
    ensures r.Some? ==> from <= r.value && MatchesAt(hay, needle, r.value)
    ensures r.Some? ==> forall j :: from <= j < r.value ==> !MatchesAt(hay, needle, j)
    ensures r.None? ==> forall j :: from <= j ==> !MatchesAt(hay, needle, j)
  {
    if from + |needle| > |hay| then None
    else if MatchesAt(hay, needle, from) then Some(from)
    else FindFrom(hay, needle, from + 1)
  }

  /** `stripos($hay, $needle) !== false`. */
  predicate ContainsIgnoringCase(hay: string, needle: string)
  {
    FindFrom(hay, needle, 0).Some?
  }

  // -------------------------------------------------------------- substr

  /** PHP's `substr($s, 0, $n)` for `n >= 0`: the first `n` characters of `s`,
      or all of `s` when it is shorter. */
  function Prefix(s: string, n: nat): (r: string)
    ensures |r| == if |s| < n then |s| else n
    ensures r == s[..|r|]
  {
    if |s| <= n then s else s[..n]
  }

  // ----------------------------------------------- integers and numerals

  predicate IsDigit(c: char)
  {
    '0' <= c <= '9'
  }

  predicate AllDigits(s: string)
  {
    forall i :: 0 <= i < |s| ==> IsDigit(s[i])
  }

  function DigitChar(d: nat): (c: char)
    requires d < 10
    ensures IsDigit(c) && c as int - '0' as int == d
  {
    ('0' as int + d) as char
  }

  /** The value of a string of decimal digits (most significant first). */
  function DigitsValue(s: string): (n: nat)
    requires AllDigits(s)
  {
    if s == [] then 0
    else DigitsValue(s[..|s| - 1]) * 10 + (s[|s| - 1] as int - '0' as int)
  }

  /** PHP's string conversion of a non-negative integer: its decimal digits,
      without leading zeros. */
  function DecimalString(n: nat): (s: string)
    ensures |s| > 0 && AllDigits(s)
    ensures |s| > 1 ==> s[0] != '0'
  {
    if n < 10 then [DigitChar(n)] else DecimalString(n / 10) + [DigitChar(n % 10)]
  }

  /** Reading back the decimal string of `n` gives `n`. */
  lemma {:induction false} DecimalStringRoundTrip(n: nat)
    ensures DigitsValue(DecimalString(n)) == n
  {
    var s := DecimalString(n);
    if n < 10 {
      assert s[..0] == [];
    } else {
      DecimalStringRoundTrip(n / 10);
      assert s[..|s| - 1] == DecimalString(n / 10);
    }
  }

  /** Distinct integers have distinct decimal strings. */
  lemma DecimalStringInjective(a: nat, b: nat)
    ensures DecimalString(a) == DecimalString(b) ==> a == b
  {
    DecimalStringRoundTrip(a);
    DecimalStringRoundTrip(b);
  }

  /** PHP's `is_numeric` restricted to integer numerals: an optional sign
      followed by at least one decimal digit. */
  predicate IsNumeric(s: string)
  {
    if |s| > 0 && (s[0] == '+' || s[0] == '-') then |s| > 1 && AllDigits(s[1..])
    else |s| > 0 && AllDigits(s)
  }

  /** PHP's `(int)` cast of an integer numeral. */
  function IntValue(s: string): (n: int)
    requires IsNumeric(s)
    ensures s[0] == '-' ==> n <= 0
    ensures s[0] != '-' ==> n >= 0
  {
    if s[0] == '-' then 0 - DigitsValue(s[1..])
    else if s[0] == '+' then DigitsValue(s[1..])
    else DigitsValue(s)
  }

  /** `(int)` reads back a printed integer, with or without a minus sign. */
  lemma IntValueOfDecimal(n: nat)
    ensures IsNumeric(DecimalString(n)) && IntValue(DecimalString(n)) == n
    ensures IsNumeric("-" + DecimalString(n)) && IntValue("-" + DecimalString(n)) == -(n as int)
  {
    var s := DecimalString(n);
    DecimalStringRoundTrip(n);
    assert ("-" + s)[1..] == s;
  }

  // --------------------------------------------------------------- round

  function Abs(x: int): int
  {
    if x < 0 then -x else x
  }

  /** PHP's `round($p / $q)`: the quotient rounded half away from zero. */
  function RoundDiv(p: int, q: int): int
    requires q != 0
  {
    var m := (2 * Abs(p) + Abs(q)) / (2 * Abs(q));
    if (p < 0) == (q < 0) then m else -m
  }

  /** `RoundDiv(p, q)` is the integer nearest to p / q: within half a unit,
      and exactly half a unit only on the side away from zero. */
  lemma RoundDivNearest(p: int, q: int)
    requires q != 0
    ensures var r := RoundDiv(p, q);
            2 * Abs(r * q - p) <= Abs(q) &&
            (2 * Abs(r * q - p) == Abs(q) ==> Abs(r * q) > Abs(p))
  {
    var a, b := Abs(p), Abs(q);
    var m := (2 * a + b) / (2 * b);
    RoundHalfUpBounds(a, b, m);
    RoundSign(p, q, m, RoundDiv(p, q));
  }

  /** An exact quotient is not rounded: `round(b * q / q) == b`. */
  lemma RoundDivExact(b: int, q: int)
    requires q != 0
    ensures RoundDiv(b * q, q) == b
  {
    var k := 2 * Abs(q);
    AbsMul(b, q);
    assert 2 * Abs(b * q) + Abs(q) == Abs(b) * k + Abs(q);
    DivSplit(Abs(b), k, Abs(q));
  }

  lemma AbsMul(x: int, y: int)
    ensures Abs(x * y) == Abs(x) * Abs(y)
  {
    if x < 0 && y < 0 {
      assert x * y == (-x) * (-y);
    } else if x < 0 {
      assert -(x * y) == (-x) * y;
    } else if y < 0 {
      assert -(x * y) == x * (-y);
    }
  }

  lemma DivSplit(m: int, k: int, x: int)
    requires k > 0 && 0 <= x < k
    ensures (m * k + x) / k == m
  {
    var d, rest := (m * k + x) / k, (m * k + x) % k;
    assert m * k + x == d * k + rest && 0 <= rest < k;
    assert (m - d) * k == rest - x;
    SmallMultipleIsZero(m - d, k);
  }

  /** The only multiple of k strictly between -k and k is 0. */
  lemma SmallMultipleIsZero(t: int, k: int)
    requires k > 0 && -k < t * k < k
    ensures t == 0
  {
    if t != 0 {
      AbsMul(t, k);
      MulAtLeast(Abs(t), k);
      assert false;
    }
  }

  lemma MulAtLeast(t: int, k: int)
    requires t >= 1 && k > 0
    ensures t * k >= k
  {
    assert t * k == (t - 1) * k + k;
  }

  /** m = floor((2a + b) / 2b) lies within half a unit of a / b, and exactly
      half a unit only above it. */
  lemma RoundHalfUpBounds(a: int, b: int, m: int)
    requires a >= 0 && b > 0 && m == (2 * a + b) / (2 * b)
    ensures m >= 0
    ensures -b < 2 * (m * b - a) <= b
  {
    var k := 2 * b;
    var x := 2 * a + b;
    assert x == k * m + x % k && 0 <= x % k < k;
    assert m * k == 2 * (m * b);
  }

  /** Giving the rounded magnitude the quotient's sign preserves the error. */
  lemma RoundSign(p: int, q: int, m: int, r: int)
    requires q != 0 && m >= 0
    requires -Abs(q) < 2 * (m * Abs(q) - Abs(p)) <= Abs(q)
    requires r == if (p < 0) == (q < 0) then m else -m
    ensures 2 * Abs(r * q - p) <= Abs(q)
    ensures 2 * Abs(r * q - p) == Abs(q) ==> Abs(r * q) > Abs(p)
  {
    assert r * q == (if p < 0 then -1 else 1) * (m * Abs(q));
    assert Abs(r * q - p) == Abs(m * Abs(q) - Abs(p));
    assert Abs(r * q) == m * Abs(q);
  }
}
