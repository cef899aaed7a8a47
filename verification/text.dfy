/** String helpers the source gets from Python's `str`, SQLite's text collation
    and JavaScript's `String.replace`. */
module Text {

  /** Number of occurrences of `c` in `s`. */
  function Count(s: string, c: char): nat
  {
    if s == [] then 0 else (if s[0] == c then 1 else 0) + Count(s[1..], c)
  }

  /** `s.replace(from, to)` for single characters (Python `str.replace`). */
  function ReplaceChar(s: string, from: char, to: char): (r: string)
    ensures |r| == |s|
    ensures forall i :: 0 <= i < |s| && s[i] != from ==> r[i] == s[i]
    ensures forall i :: 0 <= i < |s| && s[i] == from ==> r[i] == to
    ensures from != to ==> from !in r
  {
    seq(|s|, i requires 0 <= i < |s| => if s[i] == from then to else s[i])
  }

  /** Python's `s[:n]`. */
  function Prefix(s: string, n: nat): (r: string)
    ensures |r| <= n
    ensures |r| == (if |s| < n then |s| else n)
    ensures r <= s
  {
    if |s| <= n then s else s[..n]
  }

  /** Python's `sep.join(xs)`. */
  function Join(xs: seq<string>, sep: string): string
  {
    if |xs| == 0 then "" else if |xs| == 1 then xs[0] else xs[0] + sep + Join(xs[1..], sep)
  }

  /** A slice inside the right operand of a concatenation. */
  lemma SliceRight<T>(a: seq<T>, b: seq<T>, lo: nat, hi: nat)
    requires lo <= hi <= |b|
    ensures (a + b)[|a| + lo..|a| + hi] == b[lo..hi]
  {
  }

  /** A slice inside the left operand of a concatenation. */
  lemma SliceLeft<T>(a: seq<T>, b: seq<T>, lo: nat, hi: nat)
    requires lo <= hi <= |a|
    ensures (a + b)[lo..hi] == a[lo..hi]
  {
  }

  /** Where `xs[i]` starts in `Join(xs, sep)`. */
  function JoinOffset(xs: seq<string>, sep: string, i: nat): nat
    requires i < |xs|
  {
    if i == 0 then 0 else |xs[0]| + |sep| + JoinOffset(xs[1..], sep, i - 1)
  }

  /** Each element stands unchanged at its offset in the joined text, and the
      next one starts right after it and one separator. */
  lemma {:induction false} JoinKeepsElements(xs: seq<string>, sep: string, i: nat)
    requires i < |xs|
    ensures JoinOffset(xs, sep, i) + |xs[i]| <= |Join(xs, sep)|
    ensures Join(xs, sep)[JoinOffset(xs, sep, i)..JoinOffset(xs, sep, i) + |xs[i]|] == xs[i]
    ensures i + 1 < |xs| ==> JoinOffset(xs, sep, i + 1) == JoinOffset(xs, sep, i) + |xs[i]| + |sep|
  {
    if i == 0 {
      JoinKeepsFirst(xs, sep);
    } else {
      JoinKeepsElements(xs[1..], sep, i - 1);
      var k := JoinOffset(xs[1..], sep, i - 1);
      assert xs[1..][i - 1] == xs[i];
      JoinTail(xs, sep, k, k + |xs[i]|);
    }
  }

  lemma JoinKeepsFirst(xs: seq<string>, sep: string)
    requires |xs| > 0
    ensures |xs[0]| <= |Join(xs, sep)| && Join(xs, sep)[..|xs[0]|] == xs[0]
  {
    if |xs| > 1 {
      assert Join(xs, sep) == xs[0] + (sep + Join(xs[1..], sep));
      SliceLeft(xs[0], sep + Join(xs[1..], sep), 0, |xs[0]|);
    }
  }

  /** Past the first element and its separator, the joined text is the join
      of the rest. */
  lemma JoinTail(xs: seq<string>, sep: string, lo: nat, hi: nat)
    requires |xs| > 1 && lo <= hi <= |Join(xs[1..], sep)|
    ensures var d := |xs[0]| + |sep|;
      d + hi <= |Join(xs, sep)| && Join(xs, sep)[d + lo..d + hi] == Join(xs[1..], sep)[lo..hi]
  {
    assert Join(xs, sep) == (xs[0] + sep) + Join(xs[1..], sep);
    SliceRight(xs[0] + sep, Join(xs[1..], sep), lo, hi);
  }

  /** Python's `str(n)` for a non-negative integer. */
  function Decimal(n: nat): (r: string)
    ensures |r| >= 1
    ensures forall i :: 0 <= i < |r| ==> '0' <= r[i] <= '9'
  {
    if n < 10 then [DigitChar(n)] else Decimal(n / 10) + [DigitChar(n % 10)]
  }

  function DigitChar(d: nat): (c: char)
    requires d < 10
    ensures '0' <= c <= '9'
  {
    ('0' as int + d) as char
  }

  predicate AllDigits(s: string)
  {
    forall i :: 0 <= i < |s| ==> '0' <= s[i] <= '9'
  }

  /** Python's `int(s)` on a string of decimal digits; the inverse of `Decimal`. */
  function ParseDecimal(s: string): nat
    requires AllDigits(s)
  {
    if s == [] then 0 else ParseDecimal(s[..|s| - 1]) * 10 + (s[|s| - 1] as int - '0' as int)
  }

  lemma {:induction false} DecimalRoundTrip(n: nat)
    ensures ParseDecimal(Decimal(n)) == n
  {
    if n >= 10 {
      var d := Decimal(n);
      assert d[..|d| - 1] == Decimal(n / 10);
      DecimalRoundTrip(n / 10);
    }
  }

  /** SQLite's BINARY collation on TEXT: code-point-wise lexicographic order,
      a proper prefix sorting first. */
  predicate TextLe(a: string, b: string)
  {
    |a| == 0 || (|b| > 0 && (a[0] < b[0] || (a[0] == b[0] && TextLe(a[1..], b[1..]))))
  }

  lemma {:induction false} TextLeTotal(a: string, b: string)
    ensures TextLe(a, b) || TextLe(b, a)
  {
    if |a| > 0 && |b| > 0 && a[0] == b[0] {
      TextLeTotal(a[1..], b[1..]);
    }
  }

  lemma {:induction false} TextLeTransitive(a: string, b: string, c: string)
    requires TextLe(a, b) && TextLe(b, c)
    ensures TextLe(a, c)
  {
    if |a| > 0 && a[0] == b[0] && b[0] == c[0] {
      TextLeTransitive(a[1..], b[1..], c[1..]);
    }
  }

  lemma {:induction false} TextLeAntisymmetric(a: string, b: string)
    requires TextLe(a, b) && TextLe(b, a)
    ensures a == b
  {
    if |a| > 0 {
      TextLeAntisymmetric(a[1..], b[1..]);
      assert a == [a[0]] + a[1..];
      assert b == [b[0]] + b[1..];
    }
  }
}
