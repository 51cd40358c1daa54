/**
 * String operations the core relies on, each with the property that makes
 * it usable: prefixes, JavaScript's single-occurrence `replace`, decimal
 * rendering of a number inside a template literal.
 */
module Text {

  /** JavaScript's `s.startsWith(prefix)`. */
  predicate StartsWith(s: string, prefix: string)
  {
    |prefix| <= |s| && s[..|prefix|] == prefix
  }

  /**
   * JavaScript's `s.replace(from, to)` when `from` is a one-character string:
   * a string pattern replaces only its FIRST occurrence.
   */
  function ReplaceFirst(s: string, from: char, to: char): (r: string)
    ensures |r| == |s|
  {
    if s == [] then []
    else if s[0] == from then [to] + s[1..]
    else [s[0]] + ReplaceFirst(s[1..], from, to)
  }

  /** With no occurrence of `from`, nothing is replaced. */
  lemma {:induction false} ReplaceFirstAbsent(s: string, from: char, to: char)
    requires from !in s
    ensures ReplaceFirst(s, from, to) == s
  {
    if s != [] {
      assert s[0] in s;
      assert forall c :: c in s[1..] ==> c in s;
      ReplaceFirstAbsent(s[1..], from, to);
    }
  }

  /** At the first occurrence `i` of `from`, that character alone is replaced. */
  lemma {:induction false} ReplaceFirstAt(s: string, from: char, to: char, i: nat)
    requires i < |s| && s[i] == from && from !in s[..i]
    ensures ReplaceFirst(s, from, to) == s[..i] + [to] + s[i + 1..]
  {
    if i > 0 {
      assert s[0] in s[..i];
      assert s[1..][..i - 1] == s[1..i];
      assert forall c :: c in s[1..i] ==> c in s[..i];
      ReplaceFirstAt(s[1..], from, to, i - 1);
      assert s[..i] == [s[0]] + s[1..i];
      assert s[1..][i..] == s[i + 1..];
    }
  }

  /** A result without `to` means there was no `from` to replace. */
  lemma {:induction false} ReplaceFirstWithoutTarget(s: string, from: char, to: char)
    ensures to !in ReplaceFirst(s, from, to) ==> from !in s
  {
    if s != [] && s[0] != from {
      ReplaceFirstWithoutTarget(s[1..], from, to);
      assert s == [s[0]] + s[1..];
    }
  }

  /** The same, stated on the split around that first occurrence. */
  lemma ReplaceFirstSplit(a: string, b: string, from: char, to: char)
    requires from !in a
    ensures ReplaceFirst(a + [from] + b, from, to) == a + [to] + b
  {
    var s := a + [from] + b;
    assert s[..|a|] == a && s[|a| + 1..] == b;
    ReplaceFirstAt(s, from, to, |a|);
  }

  /** Every occurrence of `from` replaced: what a display label evidently wants. */
  function ReplaceAll(s: string, from: char, to: char): (r: string)
    ensures |r| == |s|
    ensures forall i :: 0 <= i < |s| ==> r[i] == (if s[i] == from then to else s[i])
  {
    if s == [] then []
    else [if s[0] == from then to else s[0]] + ReplaceAll(s[1..], from, to)
  }

  /** After ReplaceAll no occurrence of `from` is left, and `to` stands exactly where `from` stood. */
  lemma ReplaceAllRemovesEvery(s: string, from: char, to: char)
    requires from != to
    ensures from !in ReplaceAll(s, from, to)
    ensures forall i :: 0 <= i < |s| ==> (ReplaceAll(s, from, to)[i] == to <==> s[i] == from || s[i] == to)
  {
  }

  /** Index of the first `c` in `s`, or `|s|` when there is none. */
  function IndexOfChar(s: string, c: char): (k: nat)
    ensures k <= |s|
    ensures c !in s[..k]
    ensures k < |s| ==> s[k] == c
  {
    if s == [] then 0
    else if s[0] == c then 0
    else 1 + IndexOfChar(s[1..], c)
  }

  /** In `a + [c] + rest` with no `c` in `a`, the first `c` sits right after `a`. */
  lemma {:induction false} SeparatorIndex(a: string, c: char, rest: string)
    requires c !in a
    ensures IndexOfChar(a + [c] + rest, c) == |a|
  {
    if a != [] {
      assert a[0] in a;
      assert forall x :: x in a[1..] ==> x in a;
      assert (a + [c] + rest)[1..] == a[1..] + [c] + rest;
      SeparatorIndex(a[1..], c, rest);
    }
  }

  /** Splitting at the first separator recovers both halves. */
  lemma SplitAtSeparator(a1: string, r1: string, a2: string, r2: string, c: char)
    requires c !in a1 && c !in a2
    requires a1 + [c] + r1 == a2 + [c] + r2
    ensures a1 == a2 && r1 == r2
  {
    var s := a1 + [c] + r1;
    SeparatorIndex(a1, c, r1);
    SeparatorIndex(a2, c, r2);
    assert a1 == s[..|a1|];
    assert a2 == s[..|a2|];
    assert r1 == s[|a1| + 1..];
    assert r2 == s[|a2| + 1..];
  }

  predicate IsDigit(c: char)
  {
    '0' <= c <= '9'
  }

  function DigitChar(d: nat): (c: char)
    requires d < 10
    ensures IsDigit(c)
  {
    (d + '0' as int) as char
  }

  /** The decimal digits of `n`, as a JavaScript template literal renders an integral number. */
  function Decimal(n: nat): (s: string)
    ensures |s| >= 1
    ensures forall i :: 0 <= i < |s| ==> IsDigit(s[i])
  {
    if n < 10 then [DigitChar(n)] else Decimal(n / 10) + [DigitChar(n % 10)]
  }

  /** Reads decimal digits back, most significant first. */
  function ParseDecimal(s: string): int
  {
    if s == [] then 0
    else ParseDecimal(s[..|s| - 1]) * 10 + (s[|s| - 1] as int - '0' as int)
  }

  /** Decimal rendering loses nothing: reading the digits back gives the number. */
  lemma {:induction false} DecimalRoundTrip(n: nat)
    ensures ParseDecimal(Decimal(n)) == n
  {
    if n >= 10 {
      var d := Decimal(n / 10);
      var s := d + [DigitChar(n % 10)];
      assert s[..|s| - 1] == d;
      DecimalRoundTrip(n / 10);
    } else {
      assert [DigitChar(n)][..0] == [];
    }
  }

  /** So two numbers with the same rendering are equal. */
  lemma DecimalInjective(m: nat, n: nat)
    requires Decimal(m) == Decimal(n)
    ensures m == n
  {
    DecimalRoundTrip(m);
    DecimalRoundTrip(n);
  }
}
