/** ASCII text: decimal numerals, separator splitting, code-point order. */
module Text {
  predicate IsDigit(c: char) { '0' <= c <= '9' }

  /** What Python strips and what a pattern's blank class matches, on ASCII text. */
  predicate IsSpace(c: char) {
    c == ' ' || '\t' <= c <= '\r' || '\U{1c}' <= c <= '\U{1f}'
  }

  /** Python's str.isdigit on ASCII text: false for the empty string. */
  predicate IsNumeral(s: string) {
    s != "" && forall i :: 0 <= i < |s| ==> IsDigit(s[i])
  }

  function ToDecimal(n: nat): (s: string)
    ensures IsNumeral(s)
    ensures |s| > 1 ==> s[0] != '0'
    ensures n > 0 ==> s[0] != '0'
  {
    if n < 10 then [('0' as int + n) as char] else ToDecimal(n / 10) + [('0' as int + n % 10) as char]
  }

  function OfDecimal(s: string): nat
    requires forall i :: 0 <= i < |s| ==> IsDigit(s[i])
  {
    if s == "" then 0
    else
      assert IsDigit(s[|s| - 1]);
      OfDecimal(s[..|s| - 1]) * 10 + (s[|s| - 1] as int - '0' as int)
  }

  lemma {:induction false} DecimalRoundTrip(n: nat)
    ensures OfDecimal(ToDecimal(n)) == n
  {
    var s := ToDecimal(n);
    if n < 10 {
      assert s[..0] == "";
    } else {
      DecimalRoundTrip(n / 10);
      assert s[..|s| - 1] == ToDecimal(n / 10);
    }
  }

  /** A numeral without a leading zero is the numeral of its value. */
  lemma {:induction false} NumeralRoundTrip(s: string)
    requires IsNumeral(s) && (|s| > 1 ==> s[0] != '0')
    ensures ToDecimal(OfDecimal(s)) == s
    ensures s[0] != '0' ==> OfDecimal(s) > 0
  {
    var last := s[|s| - 1] as int - '0' as int;
    var front := s[..|s| - 1];
    if |s| == 1 {
      assert front == "";
      assert OfDecimal(s) == last;
    } else {
      NumeralRoundTrip(front);
      var n := OfDecimal(front);
      assert (n * 10 + last) / 10 == n && (n * 10 + last) % 10 == last;
      assert s == front + [s[|s| - 1]];
    }
  }

  // ---------------------------------------------------------------------

  function Join(parts: seq<string>, sep: char): string {
    if parts == [] then ""
    else if |parts| == 1 then parts[0]
    else parts[0] + [sep] + Join(parts[1..], sep)
  }

  function Split(s: string, sep: char): (parts: seq<string>)
    ensures |parts| >= 1
  {
    if s == "" then [""]
    else
      var rest := Split(s[1..], sep);
      if s[0] == sep then [""] + rest else [[s[0]] + rest[0]] + rest[1..]
  }

  lemma {:induction false} SplitAt(a: string, sep: char, rest: string)
    requires sep !in a
    ensures Split(a, sep) == [a]
    ensures Split(a + [sep] + rest, sep) == [a] + Split(rest, sep)
  {
    var all := a + [sep] + rest;
    if a == "" {
      assert all[1..] == rest;
    } else {
      SplitAt(a[1..], sep, rest);
      assert all[1..] == a[1..] + [sep] + rest;
      assert [a[0]] + a[1..] == a;
    }
  }

  lemma {:induction false} JoinRoundTrip(parts: seq<string>, sep: char)
    requires parts != [] && forall i :: 0 <= i < |parts| ==> sep !in parts[i]
    ensures Split(Join(parts, sep), sep) == parts
  {
    var rest := parts[1..];
    if rest == [] {
      SplitAt(parts[0], sep, "");
    } else {
      JoinRoundTrip(rest, sep);
      SplitAt(parts[0], sep, Join(rest, sep));
      assert [parts[0]] + rest == parts;
    }
  }

  // ---------------------------------------------------------------------

  /** Length of the longest prefix whose characters all satisfy p. */
  function Span(s: string, p: char -> bool): (n: nat)
    ensures n <= |s|
    ensures forall i :: 0 <= i < n ==> p(s[i])
    ensures n < |s| ==> !p(s[n])
  {
    if s == "" || !p(s[0]) then 0 else 1 + Span(s[1..], p)
  }

  /** A prefix that satisfies p and is followed by nothing or by a character that
      does not is exactly the longest one. */
  lemma {:induction false} SpanIs(a: string, rest: string, p: char -> bool)
    requires forall i :: 0 <= i < |a| ==> p(a[i])
    requires rest == "" || !p(rest[0])
    ensures Span(a + rest, p) == |a|
  {
    if a == "" {
      assert a + rest == rest;
    } else {
      assert (a + rest)[1..] == a[1..] + rest;
      SpanIs(a[1..], rest, p);
    }
  }

  /** Code-point order of strings, as Python compares them. */
  function CompareText(a: string, b: string): int {
    if a == "" && b == "" then 0
    else if a == "" then -1
    else if b == "" then 1
    else if a[0] != b[0] then (if a[0] < b[0] then -1 else 1)
    else CompareText(a[1..], b[1..])
  }

  /** The same order, declaratively: b extends a, or is greater at the first difference. */
  ghost predicate TextLess(a: string, b: string) {
    exists k :: TextDiffersAt(a, b, k)
  }

  ghost predicate TextDiffersAt(a: string, b: string, k: int) {
    && 0 <= k <= |a| && k < |b| && a[..k] == b[..k]
    && (k < |a| ==> a[k] < b[k])
  }

  lemma {:induction false} CompareTextIsOrder(a: string, b: string)
    ensures CompareText(a, b) < 0 <==> TextLess(a, b)
    ensures CompareText(a, b) == 0 <==> a == b
    ensures CompareText(a, b) == -CompareText(b, a)
  {
    if a == "" || b == "" {
      if a == "" && b != "" {
        assert TextDiffersAt(a, b, 0);
      }
    } else if a[0] != b[0] {
      if a[0] < b[0] {
        assert TextDiffersAt(a, b, 0);
      } else {
        forall k
          ensures !TextDiffersAt(a, b, k)
        {
          if 0 < k <= |a| && k < |b| {
            assert a[..k][0] == a[0] && b[..k][0] == b[0];
          }
        }
      }
    } else {
      CompareTextIsOrder(a[1..], b[1..]);
      assert a == [a[0]] + a[1..] && b == [b[0]] + b[1..];
      forall k | 0 <= k
        ensures TextDiffersAt(a, b, k + 1) <==> TextDiffersAt(a[1..], b[1..], k)
      {
        if k + 1 <= |a| && k + 1 < |b| {
          assert a[..k + 1] == [a[0]] + a[1..][..k] && b[..k + 1] == [b[0]] + b[1..][..k];
          assert a[..k + 1][1..] == a[1..][..k] && b[..k + 1][1..] == b[1..][..k];
        }
      }
      assert !TextDiffersAt(a, b, 0);
      if TextLess(a, b) {
        var k :| TextDiffersAt(a, b, k);
        assert TextDiffersAt(a[1..], b[1..], k - 1);
      }
      if TextLess(a[1..], b[1..]) {
        var k :| TextDiffersAt(a[1..], b[1..], k);
        assert TextDiffersAt(a, b, k + 1);
      }
    }
  }

  lemma {:induction false} CompareTextTransitive(a: string, b: string, c: string)
    requires CompareText(a, b) <= 0 && CompareText(b, c) <= 0
    ensures CompareText(a, c) <= 0
  {
    if a != "" && b != "" && c != "" && a[0] == b[0] == c[0] {
      CompareTextTransitive(a[1..], b[1..], c[1..]);
    }
  }
}
