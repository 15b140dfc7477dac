/** Version parsing and order for gateway self-updates. */
module Versioning {
  import opened Wrappers
  import opened Text

  datatype Version = Version(major: nat, minor: nat, patch: nat, pre: seq<string>)

  /** What text that is no version at all is read as. */
  const NO_VERSION := Version(0, 0, 0, [])

  predicate IsFiller(c: char) { c != '-' && c != '+' }

  predicate NotPlus(c: char) { c != '+' }

  /** The build part: no line break except one at the very end. */
  predicate BuildOk(s: string) {
    forall i :: 0 <= i < |s| - 1 ==> s[i] != '\n'
  }

  function DropMark(s: string): string {
    if s != "" && (s[0] == 'v' || s[0] == 'V') then s[1..] else s
  }

  /** An optional ".digits": its value, 0 when absent, and what follows. */
  function DotNumber(s: string): (nat, string) {
    if s != "" && s[0] == '.' && Span(s[1..], IsDigit) > 0 then
      var n := Span(s[1..], IsDigit);
      (OfDecimal(s[1..][..n]), s[1..][n..])
    else (0, s)
  }

  /** The prerelease identifiers after the numbers; None when the text does not match. */
  function Prerelease(s: string): Option<seq<string>> {
    var (pre, build) := CutBuild(s[Span(s, IsFiller)..]);
    if build != "" && !BuildOk(build[1..]) then None
    else Some(if pre == "" then [] else Split(pre, '.'))
  }

  /** An optional "-prerelease" up to the first plus sign, and what follows. */
  function CutBuild(s: string): (string, string) {
    if s != "" && s[0] == '-' then
      var n := Span(s[1..], NotPlus);
      (s[1..][..n], s[1..][n..])
    else ("", s)
  }

  function Parse(text: string): Version {
    var s := DropMark(text[Span(text, IsSpace)..]);
    var n := Span(s, IsDigit);
    if n == 0 then NO_VERSION
    else
      var (minor, s2) := DotNumber(s[n..]);
      var (patch, s3) := DotNumber(s2);
      match Prerelease(s3)
      case None => NO_VERSION
      case Some(pre) => Version(OfDecimal(s[..n]), minor, patch, pre)
  }

  // ---------------------------------------------------------------------
  // Parsing recovers what was written

  function RenderPre(ids: seq<string>): string {
    if ids == [] then "" else "-" + Join(ids, '.')
  }

  function RenderBuild(build: Option<string>): string {
    match build case None => "" case Some(b) => "+" + b
  }

  function Render(lead: string, mark: string, v: Version, build: Option<string>): string {
    lead + (mark + (ToDecimal(v.major) + ("." + ToDecimal(v.minor) + ("." + ToDecimal(v.patch)
      + (RenderPre(v.pre) + RenderBuild(build))))))
  }

  lemma SpanSplits(a: string, rest: string, p: char -> bool)
    requires forall i :: 0 <= i < |a| ==> p(a[i])
    requires rest == "" || !p(rest[0])
    ensures Span(a + rest, p) == |a| && (a + rest)[..|a|] == a && (a + rest)[|a|..] == rest
  {
    SpanIs(a, rest, p);
  }

  lemma DotNumberReads(n: nat, rest: string)
    requires rest == "" || !IsDigit(rest[0])
    ensures DotNumber("." + ToDecimal(n) + rest) == (n, rest)
  {
    var s := "." + ToDecimal(n) + rest;
    assert s[1..] == ToDecimal(n) + rest;
    SpanSplits(ToDecimal(n), rest, IsDigit);
    DecimalRoundTrip(n);
  }

  lemma {:induction false} JoinAvoids(ids: seq<string>, sep: char, bad: char)
    requires sep != bad && forall i :: 0 <= i < |ids| ==> bad !in ids[i]
    ensures bad !in Join(ids, sep)
    ensures Join(ids, sep) == "" <==> ids == [] || ids == [""]
  {
    if |ids| > 1 {
      JoinAvoids(ids[1..], sep, bad);
    }
  }

  lemma CutBuildReads(pre: string, tail: string)
    requires '+' !in pre && (tail == "" || tail[0] == '+')
    ensures CutBuild("-" + pre + tail) == (pre, tail)
  {
    var s := "-" + pre + tail;
    assert s[1..] == pre + tail;
    assert forall i :: 0 <= i < |pre| ==> pre[i] in pre;
    SpanSplits(pre, tail, NotPlus);
  }

  lemma LeadDrops(lead: string, mark: string, body: string)
    requires forall i :: 0 <= i < |lead| ==> IsSpace(lead[i])
    requires mark == "" || mark == "v" || mark == "V"
    requires body != "" && IsDigit(body[0])
    ensures DropMark((lead + (mark + body))[Span(lead + (mark + body), IsSpace)..]) == body
  {
    SpanSplits(lead, mark + body, IsSpace);
    if mark != "" {
      assert (mark + body)[1..] == body;
    } else {
      assert mark + body == body;
    }
  }

  /** A build part with a line break before its last character. */
  ghost predicate Broken(build: Option<string>) {
    build.Some? && exists i :: 0 <= i < |build.value| - 1 && build.value[i] == '\n'
  }

  lemma PrereleaseReads(ids: seq<string>, build: Option<string>)
    requires forall i :: 0 <= i < |ids| ==> '.' !in ids[i] && '+' !in ids[i]
    ensures Prerelease(RenderPre(ids) + RenderBuild(build))
         == if Broken(build) then None else Some(if ids == [""] then [] else ids)
  {
    var tail := RenderBuild(build);
    var s := RenderPre(ids) + tail;
    assert tail != "" ==> tail[0] == '+' && tail[1..] == build.value;
    assert s != "" ==> s[0] == '-' || s[0] == '+';
    assert s[Span(s, IsFiller)..] == s;
    if ids == [] {
      assert s == tail;
    } else {
      JoinAvoids(ids, '.', '+');
      CutBuildReads(Join(ids, '.'), tail);
      if ids != [""] {
        JoinRoundTrip(ids, '.');
      }
    }
  }

  /** Main result: parsing a written version gives back its numbers and identifiers,
      whatever the leading blanks, the v and the build part, unless that is broken over
      lines: then the text reads as no version. The one list of identifiers that is
      lost is the single empty one, which reads as a release. */
  lemma ParseRoundTrip(lead: string, mark: string, v: Version, build: Option<string>)
    requires forall i :: 0 <= i < |lead| ==> IsSpace(lead[i])
    requires mark == "" || mark == "v" || mark == "V"
    requires forall i :: 0 <= i < |v.pre| ==> '.' !in v.pre[i] && '+' !in v.pre[i]
    ensures Parse(Render(lead, mark, v, build))
         == if Broken(build) then Version(0, 0, 0, []) else if v.pre == [""] then v.(pre := []) else v
    ensures !Broken(build) ==> (Parse(Render(lead, mark, v, build)) == v <==> v.pre != [""])
  {
    var r3 := RenderPre(v.pre) + RenderBuild(build);
    var r2 := "." + ToDecimal(v.patch) + r3;
    var r1 := "." + ToDecimal(v.minor) + r2;
    var digits := ToDecimal(v.major);
    var body := digits + r1;
    assert body[0] == digits[0] && IsDigit(digits[0]);
    LeadDrops(lead, mark, body);
    SpanSplits(digits, r1, IsDigit);
    DecimalRoundTrip(v.major);
    assert r1[0] == '.';
    DotNumberReads(v.minor, r2);
    DotNumberReads(v.patch, r3);
    PrereleaseReads(v.pre, build);
  }

  lemma FillerPasses(rest: string)
    requires forall i :: 0 <= i < |rest| ==> rest[i] != '-' && rest[i] != '+'
    requires rest != "" ==> rest[0] != '.'
    ensures DotNumber(rest) == (0, rest) && Prerelease(rest) == Some([])
  {
    assert rest + "" == rest;
    SpanIs(rest, "", IsFiller);
    assert rest[|rest|..] == "";
  }

  lemma MajorReads(major: nat, rest: string)
    requires rest != "" ==> !IsDigit(rest[0])
    ensures var s := ToDecimal(major) + rest;
            && Span(s, IsDigit) == |ToDecimal(major)| > 0
            && s[Span(s, IsDigit)..] == rest && OfDecimal(s[..Span(s, IsDigit)]) == major
  {
    SpanSplits(ToDecimal(major), rest, IsDigit);
    DecimalRoundTrip(major);
  }

  /** Missing numbers read as 0, and whatever follows the numbers, up to a dash or a plus
      sign, is passed over. */
  lemma ShortVersionReads(lead: string, mark: string, major: nat, rest: string)
    requires forall i :: 0 <= i < |lead| ==> IsSpace(lead[i])
    requires mark == "" || mark == "v" || mark == "V"
    requires forall i :: 0 <= i < |rest| ==> rest[i] != '-' && rest[i] != '+'
    requires rest != "" ==> !IsDigit(rest[0]) && rest[0] != '.'
    ensures Parse(lead + (mark + (ToDecimal(major) + rest))) == Version(major, 0, 0, [])
  {
    var body := ToDecimal(major) + rest;
    assert body[0] == ToDecimal(major)[0] && IsDigit(body[0]);
    hide ToDecimal, OfDecimal, Span, DotNumber, Prerelease;
    LeadDrops(lead, mark, body);
    MajorReads(major, rest);
    FillerPasses(rest);
  }

  /** Text that does not begin with a number, blanks and a v aside, reads as version 0.0.0. */
  lemma NoNumberReads(lead: string, mark: string, rest: string)
    requires forall i :: 0 <= i < |lead| ==> IsSpace(lead[i])
    requires mark == "" || mark == "v" || mark == "V"
    requires rest != "" ==> !IsDigit(rest[0])
    requires mark == "" && rest != "" ==> !IsSpace(rest[0]) && rest[0] != 'v' && rest[0] != 'V'
    ensures Parse(lead + (mark + rest)) == Version(0, 0, 0, [])
  {
    hide Prerelease, DotNumber, OfDecimal;
    var body := mark + rest;
    SpanSplits(lead, body, IsSpace);
    assert DropMark(body) == rest by {
      if mark != "" {
        assert body[1..] == rest;
      } else {
        assert body == rest;
      }
    }
  }

  // ---------------------------------------------------------------------
  // Order

  function CompareNat(a: nat, b: nat): int { if a < b then -1 else if a > b then 1 else 0 }

  function CompareIdentifier(a: string, b: string): int {
    if IsNumeral(a) && IsNumeral(b) then CompareNat(OfDecimal(a), OfDecimal(b))
    else if IsNumeral(a) then -1
    else if IsNumeral(b) then 1
    else CompareText(a, b)
  }

  /** Lexicographic order on identifier lists. */
  function CompareLists(a: seq<string>, b: seq<string>): int {
    if a == [] || b == [] then CompareNat(|a|, |b|)
    else
      var first := CompareIdentifier(a[0], b[0]);
      if first != 0 then first else CompareLists(a[1..], b[1..])
  }

  function ComparePre(a: seq<string>, b: seq<string>): int {
    if a == [] || b == [] then (if a == [] then 1 else 0) - (if b == [] then 1 else 0)
    else CompareLists(a, b)
  }

  function CompareCore(v: Version, w: Version): int {
    if v.major != w.major then CompareNat(v.major, w.major)
    else if v.minor != w.minor then CompareNat(v.minor, w.minor)
    else CompareNat(v.patch, w.patch)
  }

  function Sign(x: int): int { if x < 0 then -1 else if x > 0 then 1 else 0 }

  function Compare(v: Version, w: Version): int {
    if CompareCore(v, w) != 0 then CompareCore(v, w) else ComparePre(v.pre, w.pre)
  }

  /** The comparison as the program runs it on parsed versions: a scan of the zipped
      identifier lists, then their lengths. */
  method CompareParsed(v: Version, w: Version) returns (result: int)
    ensures result == Sign(Compare(v, w))
  {
    CompareListsIsSign(v.pre, w.pre);
    if (v.major, v.minor, v.patch) != (w.major, w.minor, w.patch) {
      if v.major > w.major || (v.major == w.major && (v.minor > w.minor || (v.minor == w.minor && v.patch > w.patch))) {
        return 1;
      }
      return -1;
    }
    if v.pre == [] || w.pre == [] {
      return (if v.pre == [] then 1 else 0) - (if w.pre == [] then 1 else 0);
    }
    var i := 0;
    while i < |v.pre| && i < |w.pre|
      invariant i <= |v.pre| && i <= |w.pre|
      invariant CompareLists(v.pre, w.pre) == CompareLists(v.pre[i..], w.pre[i..])
    {
      result := CompareIdentifier(v.pre[i], w.pre[i]);
      if result != 0 { return; }
      i := i + 1;
    }
    return CompareNat(|v.pre|, |w.pre|);
  }

  method CompareVersions(a: string, b: string) returns (result: int)
    ensures result == Sign(Compare(Parse(a), Parse(b)))
  {
    var v, w := Parse(a), Parse(b);
    result := CompareParsed(v, w);
  }

  method IsNewerVersion(candidate: string, current: string) returns (newer: bool)
    ensures newer <==> Compare(Parse(candidate), Parse(current)) > 0
  {
    var r := CompareVersions(candidate, current);
    return r > 0;
  }

  lemma {:induction false} CompareTextIsSign(a: string, b: string)
    ensures -1 <= CompareText(a, b) <= 1
  {
    if a != "" && b != "" && a[0] == b[0] {
      CompareTextIsSign(a[1..], b[1..]);
    }
  }

  lemma {:induction false} CompareListsIsSign(a: seq<string>, b: seq<string>)
    ensures -1 <= CompareLists(a, b) <= 1
  {
    if a != [] && b != [] {
      CompareTextIsSign(a[0], b[0]);
      CompareListsIsSign(a[1..], b[1..]);
    }
  }

  lemma IdentifiersAntisymmetric(a: string, b: string)
    ensures CompareIdentifier(a, b) == -CompareIdentifier(b, a)
  {
    CompareTextIsOrder(a, b);
  }

  lemma IdentifiersTransitive(a: string, b: string, c: string)
    requires CompareIdentifier(a, b) <= 0 && CompareIdentifier(b, c) <= 0
    ensures CompareIdentifier(a, c) <= 0
  {
    if !IsNumeral(a) && !IsNumeral(b) && !IsNumeral(c) {
      CompareTextTransitive(a, b, c);
    }
  }

  lemma {:induction false} ListsAntisymmetric(a: seq<string>, b: seq<string>)
    ensures CompareLists(a, b) == -CompareLists(b, a)
  {
    if a != [] && b != [] {
      IdentifiersAntisymmetric(a[0], b[0]);
      ListsAntisymmetric(a[1..], b[1..]);
    }
  }

  lemma {:induction false} ListsTransitive(a: seq<string>, b: seq<string>, c: seq<string>)
    requires CompareLists(a, b) <= 0 && CompareLists(b, c) <= 0
    ensures CompareLists(a, c) <= 0
  {
    if a != [] && b != [] && c != [] {
      IdentifiersTransitive(a[0], b[0], c[0]);
      IdentifiersAntisymmetric(a[0], b[0]);
      IdentifiersAntisymmetric(b[0], c[0]);
      IdentifiersAntisymmetric(a[0], c[0]);
      if CompareIdentifier(a[0], c[0]) == 0 {
        IdentifiersTransitive(b[0], c[0], a[0]);
        IdentifiersTransitive(c[0], a[0], b[0]);
        ListsTransitive(a[1..], b[1..], c[1..]);
      }
    }
  }

  lemma CompareAntisymmetric(v: Version, w: Version)
    ensures Compare(v, w) == -Compare(w, v)
  {
    ListsAntisymmetric(v.pre, w.pre);
  }

  lemma CompareTransitive(u: Version, v: Version, w: Version)
    requires Compare(u, v) <= 0 && Compare(v, w) <= 0
    ensures Compare(u, w) <= 0
  {
    if u.pre != [] && v.pre != [] && w.pre != [] && CompareLists(u.pre, v.pre) <= 0 && CompareLists(v.pre, w.pre) <= 0 {
      ListsTransitive(u.pre, v.pre, w.pre);
    }
  }

  /** Main result: the comparison is a total preorder on all version texts. */
  lemma CompareIsTotalPreorder(a: string, b: string, c: string)
    ensures Compare(Parse(a), Parse(b)) == -Compare(Parse(b), Parse(a))
    ensures Compare(Parse(a), Parse(b)) <= 0 && Compare(Parse(b), Parse(c)) <= 0 ==> Compare(Parse(a), Parse(c)) <= 0
  {
    var u, v, w := Parse(a), Parse(b), Parse(c);
    CompareAntisymmetric(u, v);
    if Compare(u, v) <= 0 && Compare(v, w) <= 0 {
      CompareTransitive(u, v, w);
    }
  }

  // ---------------------------------------------------------------------
  // Semantic Versioning 2.0.0, section 11

  /** 11.4.1-11.4.3: numbers by value, below everything else; the rest by ASCII order. */
  ghost predicate IdentifierPrecedes(a: string, b: string) {
    if IsNumeral(a) then !IsNumeral(b) || OfDecimal(a) < OfDecimal(b)
    else !IsNumeral(b) && TextLess(a, b)
  }

  /** 11.4 and 11.4.4: the first difference decides; a longer list wins if there is none. */
  ghost predicate ListPrecedes(a: seq<string>, b: seq<string>) {
    exists k :: ListDiffersAt(a, b, k)
  }

  ghost predicate ListDiffersAt(a: seq<string>, b: seq<string>, k: int) {
    && 0 <= k <= |a| && k < |b|
    && (forall i :: 0 <= i < k ==> a[i] == b[i])
    && (k < |a| ==> IdentifierPrecedes(a[k], b[k]))
  }

  /** 11.2 and 11.3. */
  ghost predicate Precedes(v: Version, w: Version) {
    || v.major < w.major
    || (v.major == w.major && v.minor < w.minor)
    || (v.major == w.major && v.minor == w.minor && v.patch < w.patch)
    || (v.major == w.major && v.minor == w.minor && v.patch == w.patch && v.pre != []
        && (w.pre == [] || ListPrecedes(v.pre, w.pre)))
  }

  /** Section 9: identifiers are not empty and numeric ones have no leading zero. */
  predicate CanonicalIdentifier(s: string) {
    s != "" && (IsNumeral(s) && |s| > 1 ==> s[0] != '0')
  }

  predicate Canonical(v: Version) {
    forall i :: 0 <= i < |v.pre| ==> CanonicalIdentifier(v.pre[i])
  }

  lemma IdentifierOrderIsSemver(a: string, b: string)
    requires CanonicalIdentifier(a) && CanonicalIdentifier(b)
    ensures CompareIdentifier(a, b) < 0 <==> IdentifierPrecedes(a, b)
    ensures CompareIdentifier(a, b) == 0 <==> a == b
  {
    CompareTextIsOrder(a, b);
    if IsNumeral(a) && IsNumeral(b) {
      NumeralRoundTrip(a);
      NumeralRoundTrip(b);
    }
  }

  lemma {:induction false} ListOrderIsSemver(a: seq<string>, b: seq<string>)
    requires forall i :: 0 <= i < |a| ==> CanonicalIdentifier(a[i])
    requires forall i :: 0 <= i < |b| ==> CanonicalIdentifier(b[i])
    ensures CompareLists(a, b) < 0 <==> ListPrecedes(a, b)
    ensures CompareLists(a, b) == 0 <==> a == b
  {
    if a == [] || b == [] {
      assert b != [] ==> ListDiffersAt(a, b, 0);
    } else {
      IdentifierOrderIsSemver(a[0], b[0]);
      ListOrderIsSemver(a[1..], b[1..]);
      assert a == [a[0]] + a[1..] && b == [b[0]] + b[1..];
      assert ListDiffersAt(a, b, 0) <==> IdentifierPrecedes(a[0], b[0]);
      if a[0] == b[0] {
        ShiftDifference(a, b);
      }
    }
  }

  lemma ShiftDifference(a: seq<string>, b: seq<string>)
    requires a != [] && b != [] && a[0] == b[0] && !IdentifierPrecedes(a[0], b[0])
    ensures ListPrecedes(a, b) <==> ListPrecedes(a[1..], b[1..])
  {
    if ListPrecedes(a, b) {
      var k :| ListDiffersAt(a, b, k);
      assert ListDiffersAt(a[1..], b[1..], k - 1);
    }
    if ListPrecedes(a[1..], b[1..]) {
      var k :| ListDiffersAt(a[1..], b[1..], k);
      forall i | 0 <= i < k + 1
        ensures a[i] == b[i]
      {
        assert i > 0 ==> a[1..][i - 1] == b[1..][i - 1];
      }
      assert ListDiffersAt(a, b, k + 1);
    }
  }

  /** Main result: on canonical versions the comparison is exactly the precedence of
      section 11, and only equal versions compare equal. */
  lemma CompareIsSemver(v: Version, w: Version)
    requires Canonical(v) && Canonical(w)
    ensures Compare(v, w) < 0 <==> Precedes(v, w)
    ensures Compare(v, w) > 0 <==> Precedes(w, v)
    ensures Compare(v, w) == 0 <==> v == w
  {
    ListOrderIsSemver(v.pre, w.pre);
    ListOrderIsSemver(w.pre, v.pre);
    ListsAntisymmetric(v.pre, w.pre);
  }
}
