/**
 * The string operations the source takes from its runtimes: decimal rendering of
 * integers (Python `str(int)`, JavaScript template literals), `Array.join` with a
 * one-character separator and its inverse, and JavaScript `String.prototype.trim`.
 */
module Strings {

  predicate IsDigit(c: char) {
    '0' <= c <= '9'
  }

  predicate AllDigits(s: string) {
    forall i :: 0 <= i < |s| ==> IsDigit(s[i])
  }

  function DigitChar(d: nat): (c: char)
    requires d < 10
    ensures IsDigit(c) && DigitValue(c) == d
  {
    "0123456789"[d]
  }

  function DigitValue(c: char): nat
    requires IsDigit(c)
  {
    (c as int - '0' as int) as nat
  }

  /** Decimal rendering of a natural number, most significant digit first, no leading zeros. */
  function NatStr(n: nat): (s: string)
    ensures |s| >= 1 && AllDigits(s)
    ensures n >= 10 ==> |s| >= 2
    ensures s[0] == '0' ==> n == 0
  {
    if n < 10 then [DigitChar(n)] else NatStr(n / 10) + [DigitChar(n % 10)]
  }

  /** The number a string of decimal digits denotes. */
  function DigitsValue(s: string): nat
    requires AllDigits(s)
  {
    if s == [] then 0 else DigitsValue(s[..|s| - 1]) * 10 + DigitValue(s[|s| - 1])
  }

  lemma {:induction false} NatStrRoundTrip(n: nat)
    ensures DigitsValue(NatStr(n)) == n
  {
    if n >= 10 {
      NatStrRoundTrip(n / 10);
      var s := NatStr(n);
      assert s[..|s| - 1] == NatStr(n / 10);
    }
  }

  lemma NatStrInjective(a: nat, b: nat)
    ensures NatStr(a) == NatStr(b) ==> a == b
  {
    if NatStr(a) == NatStr(b) {
      NatStrRoundTrip(a);
      NatStrRoundTrip(b);
    }
  }

  /** Decimal rendering of an integer, with a leading '-' for negative values. */
  function IntStr(i: int): (s: string)
    ensures |s| >= 1
  {
    if i < 0 then "-" + NatStr(-i) else NatStr(i)
  }

  lemma IntStrInjective(a: int, b: int)
    ensures IntStr(a) == IntStr(b) ==> a == b
  {
    if IntStr(a) == IntStr(b) {
      assert IntStr(a)[0] == '-' <==> a < 0;
      assert IntStr(b)[0] == '-' <==> b < 0;
      if a < 0 {
        assert NatStr(-a) == IntStr(a)[1..];
        assert NatStr(-b) == IntStr(b)[1..];
        NatStrInjective(-a, -b);
      } else {
        NatStrInjective(a, b);
      }
    }
  }

  /** `xs.join(sep)`: the parts with one separator between neighbours. */
  function Join(xs: seq<string>, sep: char): string {
    if |xs| == 0 then ""
    else if |xs| == 1 then xs[0]
    else xs[0] + [sep] + Join(xs[1..], sep)
  }

  /** The inverse of `Join`: the pieces between separators (always at least one piece). */
  function Split(s: string, sep: char): (parts: seq<string>)
    ensures |parts| >= 1
  {
    if s == [] then [""]
    else if s[0] == sep then [""] + Split(s[1..], sep)
    else
      var rest := Split(s[1..], sep);
      [[s[0]] + rest[0]] + rest[1..]
  }

  lemma {:induction false} SplitNoSeparator(x: string, sep: char)
    requires sep !in x
    ensures Split(x, sep) == [x]
  {
    if x != [] {
      assert sep !in x[1..];
      SplitNoSeparator(x[1..], sep);
      assert [x[0]] + x[1..] == x;
    }
  }

  lemma {:induction false} SplitAtSeparator(x: string, sep: char, rest: string)
    requires sep !in x
    ensures Split(x + [sep] + rest, sep) == [x] + Split(rest, sep)
  {
    if x == [] {
      assert x + [sep] + rest == [sep] + rest;
      assert ([sep] + rest)[1..] == rest;
    } else {
      assert sep !in x[1..];
      SplitAtSeparator(x[1..], sep, rest);
      assert (x + [sep] + rest)[0] == x[0];
      assert (x + [sep] + rest)[1..] == x[1..] + [sep] + rest;
      assert [x[0]] + x[1..] == x;
    }
  }

  /** Splitting a join gives back the parts when no part contains the separator. */
  lemma {:induction false} SplitJoin(xs: seq<string>, sep: char)
    requires |xs| >= 1
    requires forall i :: 0 <= i < |xs| ==> sep !in xs[i]
    ensures Split(Join(xs, sep), sep) == xs
  {
    if |xs| == 1 {
      SplitNoSeparator(xs[0], sep);
    } else {
      SplitJoin(xs[1..], sep);
      SplitAtSeparator(xs[0], sep, Join(xs[1..], sep));
      assert [xs[0]] + xs[1..] == xs;
    }
  }

  /** Every part is no longer than the join. */
  lemma {:induction false} JoinLength(xs: seq<string>, sep: char)
    ensures forall k :: 0 <= k < |xs| ==> |xs[k]| <= |Join(xs, sep)|
  {
    if |xs| >= 2 {
      JoinLength(xs[1..], sep);
      forall k | 1 <= k < |xs| ensures |xs[k]| <= |Join(xs, sep)| {
        assert xs[k] == xs[1..][k - 1];
      }
    }
  }

  /** A join is empty exactly when there is nothing to join, or one empty part. */
  lemma JoinEmpty(xs: seq<string>, sep: char)
    ensures Join(xs, sep) == "" <==> |xs| == 0 || (|xs| == 1 && xs[0] == "")
  {
    if |xs| >= 2 {
      assert |Join(xs, sep)| >= 1;
    }
  }

  /** The characters JavaScript's `trim` removes (WhiteSpace and LineTerminator). */
  predicate IsSpace(c: char) {
    c == ' ' || c == '\t' || c == '\n' || c == '\r' || c == '\U{000B}' || c == '\U{000C}'
    || c == '\U{00A0}' || c == '\U{1680}' || ('\U{2000}' <= c <= '\U{200A}')
    || c == '\U{2028}' || c == '\U{2029}' || c == '\U{202F}' || c == '\U{205F}'
    || c == '\U{3000}' || c == '\U{FEFF}'
  }

  predicate AllSpace(s: string) {
    forall i :: 0 <= i < |s| ==> IsSpace(s[i])
  }

  /** Number of leading whitespace characters. */
  function LeadingSpace(s: string): (k: nat)
    ensures k <= |s|
    ensures forall i :: 0 <= i < k ==> IsSpace(s[i])
    ensures k < |s| ==> !IsSpace(s[k])
  {
    if s == [] || !IsSpace(s[0]) then 0
    else 1 + LeadingSpace(s[1..])
  }

  /** Number of trailing whitespace characters. */
  function TrailingSpace(s: string): (k: nat)
    ensures k <= |s|
    ensures forall i :: |s| - k <= i < |s| ==> IsSpace(s[i])
    ensures k < |s| ==> !IsSpace(s[|s| - k - 1])
  {
    if s == [] || !IsSpace(s[|s| - 1]) then 0
    else 1 + TrailingSpace(s[..|s| - 1])
  }

  /** `s.trim()`: `s` without its leading and trailing whitespace. */
  function Trim(s: string): (r: string)
    ensures |r| <= |s|
  {
    var i := LeadingSpace(s);
    s[i..|s| - TrailingSpace(s[i..])]
  }

  /** The leading white space is all white space. */
  lemma LeadingSpaceAll(s: string)
    ensures AllSpace(s[..LeadingSpace(s)])
  {
    var k := LeadingSpace(s);
    forall x | 0 <= x < k ensures IsSpace(s[..k][x]) {
      assert s[..k][x] == s[x];
    }
  }

  /** The trailing white space is all white space. */
  lemma TrailingSpaceAll(s: string)
    ensures AllSpace(s[|s| - TrailingSpace(s)..])
  {
    var k := TrailingSpace(s);
    var t := s[|s| - k..];
    forall x | 0 <= x < |t| ensures IsSpace(t[x]) {
      assert t[x] == s[|s| - k + x];
    }
  }

  /** `Trim(s)` is the slice of `s` between its leading and its trailing white space. */
  lemma TrimSlice(s: string, i: nat, j: nat)
    requires i == LeadingSpace(s) && j == i + |Trim(s)|
    ensures j <= |s| && Trim(s) == s[i..j]
    ensures AllSpace(s[..i]) && AllSpace(s[j..])
    ensures Trim(s) != [] ==> !IsSpace(s[i]) && !IsSpace(s[j - 1])
  {
    var rest := s[i..];
    var k := TrailingSpace(rest);
    assert j == |s| - k && Trim(s) == s[i..j] by {
      assert |rest| == |s| - i;
      assert Trim(s) == s[i..|s| - k];
    }
    assert AllSpace(s[..i]) by {
      LeadingSpaceAll(s);
    }
    assert AllSpace(s[j..]) by {
      assert s[j..] == rest[|rest| - k..];
      TrailingSpaceAll(rest);
    }
    if j > i {
      assert !IsSpace(s[j - 1]) by {
        assert s[j - 1] == rest[|rest| - k - 1];
      }
    }
  }

  /**
   * The trimmed string is a slice of `s` with only white space outside it, starts and ends
   * with a non-space character, and is empty exactly when `s` is all white space.
   */
  lemma TrimProperties(s: string)
    ensures var r := Trim(s);
      (exists i, j :: 0 <= i <= j <= |s| && r == s[i..j] && AllSpace(s[..i]) && AllSpace(s[j..]))
      && (r != [] ==> !IsSpace(r[0]) && !IsSpace(r[|r| - 1]))
      && (r == [] <==> AllSpace(s))
  {
    var r := Trim(s);
    var i := LeadingSpace(s);
    var j := i + |r|;
    TrimSlice(s, i, j);
    if r == [] {
      forall x | 0 <= x < |s| ensures IsSpace(s[x]) {
        assert s[..i][x] == s[x];
      }
    } else {
      assert r[0] == s[i] && r[|r| - 1] == s[j - 1];
    }
  }

  lemma TrimIdempotent(s: string)
    ensures Trim(Trim(s)) == Trim(s)
  {
    var r := Trim(s);
    TrimProperties(s);
    if r != [] {
      assert LeadingSpace(r) == 0;
      assert TrailingSpace(r) == 0;
      assert r[0..][..|r| - 0] == r;
    }
  }
}
