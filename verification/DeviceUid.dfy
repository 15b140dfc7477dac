/** Device uids: the two spellings of a key, and where they agree. */
module DeviceUid {
  import opened Text

  /** The uid of a device that has none. */
  predicate AllZeros(s: string) { |s| == 12 && forall i :: 0 <= i < |s| ==> s[i] == '0' }

  predicate IsSeparator(c: char) { c == ':' || c == '-' || c == ' ' }

  function UpperChar(c: char): char {
    if 'a' <= c <= 'z' then (c as int - 'a' as int + 'A' as int) as char else c
  }

  function Upper(s: string): (u: string)
    ensures |u| == |s|
  {
    if s == "" then "" else [UpperChar(s[0])] + Upper(s[1..])
  }

  function Remove(s: string): string {
    if s == "" then "" else (if IsSeparator(s[0]) then "" else [s[0]]) + Remove(s[1..])
  }

  function StripEnd(s: string): string {
    if s != "" && IsSpace(s[|s| - 1]) then StripEnd(s[..|s| - 1]) else s
  }

  function Strip(s: string): string { StripEnd(s[Span(s, IsSpace)..]) }

  /** The dispatcher's key for a uid. */
  function Normalize(value: string): string {
    var uid := Upper(Strip(Remove(value)));
    if AllZeros(uid) then "" else uid
  }

  /** The presence table's key for a uid. */
  function TableKey(value: string): string { Upper(Strip(value)) }

  // ---------------------------------------------------------------------

  ghost predicate Blank(s: string) { forall i :: 0 <= i < |s| ==> IsSpace(s[i]) }

  ghost predicate Unseparated(s: string) { forall i :: 0 <= i < |s| ==> !IsSeparator(s[i]) }

  ghost predicate Trimmed(s: string) { s != "" ==> !IsSpace(s[0]) && !IsSpace(s[|s| - 1]) }

  lemma {:induction false} StripEndIs(core: string, trail: string)
    requires Blank(trail) && (core != "" ==> !IsSpace(core[|core| - 1]))
    ensures StripEnd(core + trail) == core
  {
    if trail == "" {
      assert core + trail == core;
    } else {
      assert (core + trail)[..|core + trail| - 1] == core + trail[..|trail| - 1];
      StripEndIs(core, trail[..|trail| - 1]);
    }
  }

  lemma StripIs(lead: string, core: string, trail: string)
    requires Blank(lead) && Trimmed(core) && Blank(trail)
    ensures Strip(lead + core + trail) == core
  {
    if core == "" {
      assert lead + core + trail == (lead + trail) + "";
      SpanIs(lead + trail, "", IsSpace);
    } else {
      assert lead + core + trail == lead + (core + trail);
      SpanIs(lead, core + trail, IsSpace);
      StripEndIs(core, trail);
    }
  }

  lemma {:induction false} StripEndSplits(s: string) returns (trail: string)
    ensures s == StripEnd(s) + trail && Blank(trail)
    ensures StripEnd(s) != "" ==> !IsSpace(StripEnd(s)[|StripEnd(s)| - 1])
  {
    if s != "" && IsSpace(s[|s| - 1]) {
      var rest := StripEndSplits(s[..|s| - 1]);
      trail := rest + [s[|s| - 1]];
    } else {
      trail := "";
    }
  }

  lemma StripSplits(s: string) returns (lead: string, trail: string)
    ensures s == lead + Strip(s) + trail && Blank(lead) && Blank(trail) && Trimmed(Strip(s))
  {
    var n := Span(s, IsSpace);
    lead := s[..n];
    trail := StripEndSplits(s[n..]);
    assert s[n..][..|Strip(s)|] == Strip(s);
  }

  lemma {:induction false} UpperJoins(a: string, b: string)
    ensures Upper(a + b) == Upper(a) + Upper(b)
  {
    if a == "" {
      assert a + b == b;
    } else {
      assert (a + b)[1..] == a[1..] + b;
      UpperJoins(a[1..], b);
    }
  }

  lemma {:induction false} RemoveJoins(a: string, b: string)
    ensures Remove(a + b) == Remove(a) + Remove(b)
  {
    if a == "" {
      assert a + b == b;
    } else {
      assert (a + b)[1..] == a[1..] + b;
      RemoveJoins(a[1..], b);
      var kept := if IsSeparator(a[0]) then "" else [a[0]];
      assert kept + (Remove(a[1..]) + Remove(b)) == kept + Remove(a[1..]) + Remove(b);
    }
  }

  lemma {:induction false} RemoveLeaves(s: string)
    ensures Unseparated(Remove(s))
    ensures Unseparated(s) ==> Remove(s) == s
    ensures Blank(s) ==> Blank(Remove(s))
  {
    if s != "" {
      RemoveLeaves(s[1..]);
    }
  }

  lemma {:induction false} UpperAt(s: string, i: nat)
    requires i < |s|
    ensures Upper(s)[i] == UpperChar(s[i])
  {
    if i > 0 {
      UpperAt(s[1..], i - 1);
    }
  }

  lemma UpperKeeps(s: string)
    ensures Blank(Upper(s)) <==> Blank(s)
    ensures Unseparated(Upper(s)) <==> Unseparated(s)
    ensures Trimmed(Upper(s)) <==> Trimmed(s)
    ensures AllZeros(Upper(s)) <==> AllZeros(s)
    ensures Upper(Upper(s)) == Upper(s)
  {
    forall i | 0 <= i < |s|
      ensures Upper(s)[i] == UpperChar(s[i]) && Upper(Upper(s))[i] == UpperChar(UpperChar(s[i]))
    {
      UpperAt(s, i);
      UpperAt(Upper(s), i);
    }
  }

  lemma {:induction false} RemoveUpper(s: string)
    ensures Remove(Upper(s)) == Upper(Remove(s))
  {
    if s != "" {
      var head, rest := if IsSeparator(s[0]) then "" else [s[0]], Remove(s[1..]);
      RemoveUpper(s[1..]);
      UpperJoins(head, rest);
      assert Upper(s)[1..] == Upper(s[1..]);
      assert Upper(head) == if IsSeparator(s[0]) then "" else [UpperChar(s[0])];
    }
  }

  lemma StripUpper(s: string)
    ensures Strip(Upper(s)) == Upper(Strip(s))
  {
    var lead, trail := StripSplits(s);
    UpperJoins(lead + Strip(s), trail);
    UpperJoins(lead, Strip(s));
    UpperKeeps(lead);
    UpperKeeps(Strip(s));
    UpperKeeps(trail);
    StripIs(Upper(lead), Upper(Strip(s)), Upper(trail));
  }

  lemma StripUnseparated(s: string)
    requires Unseparated(s)
    ensures Unseparated(Strip(s))
  {
    var lead, trail := StripSplits(s);
    forall i | 0 <= i < |Strip(s)|
      ensures !IsSeparator(Strip(s)[i])
    {
      assert (lead + Strip(s) + trail)[|lead| + i] == Strip(s)[i];
    }
  }

  /** Separators anywhere make no difference to the device meant. */
  lemma SeparatorsDoNotMatter(a: string, c: char, b: string)
    requires c == ':' || c == '-' || c == ' '
    ensures Normalize(a + [c] + b) == Normalize(a + b)
  {
    assert Remove(a + [c] + b) == Remove(a + b) by {
      RemoveJoins(a + [c], b);
      RemoveJoins(a, [c]);
      RemoveJoins(a, b);
      assert Remove([c]) == "";
    }
  }

  lemma NormalizeUpper(value: string)
    ensures Normalize(Upper(value)) == Normalize(value) && TableKey(Upper(value)) == TableKey(value)
  {
    RemoveUpper(value);
    StripUpper(Remove(value));
    StripUpper(value);
    UpperKeeps(Strip(Remove(value)));
    UpperKeeps(Strip(value));
  }

  /** Nor does letter case, for either table. */
  lemma CaseDoesNotMatter(a: string, c: char, b: string)
    requires 'a' <= c <= 'z'
    ensures var other := (c as int - 32) as char;
            Normalize(a + [c] + b) == Normalize(a + [other] + b) && TableKey(a + [c] + b) == TableKey(a + [other] + b)
  {
    var other := (c as int - 32) as char;
    assert Upper([c]) == [other] == Upper([other]);
    assert Upper(a + [c] + b) == Upper(a + [other] + b) by {
      UpperJoins(a + [c], b);
      UpperJoins(a, [c]);
      UpperJoins(a + [other], b);
      UpperJoins(a, [other]);
    }
    NormalizeUpper(a + [c] + b);
    NormalizeUpper(a + [other] + b);
  }

  /** What normalising leaves: upper case, no separators, no blanks at the ends. */
  lemma NormalizeIsClean(value: string)
    ensures Unseparated(Normalize(value)) && Trimmed(Normalize(value)) && Upper(Normalize(value)) == Normalize(value)
  {
    var _, _ := StripSplits(Remove(value));
    RemoveLeaves(value);
    StripUnseparated(Remove(value));
    UpperKeeps(Strip(Remove(value)));
  }

  /** A normalised uid is its own key in both tables, so the dispatcher and the presence
      table mean the same device by it. */
  lemma NormalizedIsAKey(value: string)
    ensures Normalize(Normalize(value)) == Normalize(value) == TableKey(Normalize(value))
  {
    var uid := Normalize(value);
    NormalizeIsClean(value);
    RemoveLeaves(uid);
    assert "" + uid + "" == uid;
    StripIs("", uid, "");
  }

  /** The two keys of one raw spelling differ exactly when it has a separator between
      its first and last characters, blanks aside, or is the all-zero uid. */
  lemma KeysAgreeExactly(value: string)
    ensures TableKey(value) == Normalize(value) <==> Unseparated(Strip(value)) && !AllZeros(Strip(value))
  {
    var core := Strip(value);
    var lead, trail := StripSplits(value);
    UpperKeeps(core);
    NormalizeIsClean(value);
    if Unseparated(core) {
      RemoveJoins(lead + core, trail);
      RemoveJoins(lead, core);
      RemoveLeaves(lead);
      RemoveLeaves(core);
      RemoveLeaves(trail);
      StripIs(Remove(lead), core, Remove(trail));
    }
  }
}
