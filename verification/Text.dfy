/** Lines, stripping and searching, as Python's string methods do them. */
module Text {

  predicate IsBreak(c: char) {
    c == '\n' || c == '\r' || c == '\U{0B}' || c == '\U{0C}' || c == '\U{1C}' || c == '\U{1D}' || c == '\U{1E}'
    || c == '\U{85}' || c == '\U{2028}' || c == '\U{2029}'
  }

  predicate IsSpace(c: char) {
    IsBreak(c) || c == ' ' || c == '\t' || c == '\U{1F}' || c == '\U{A0}' || c == '\U{1680}'
    || ('\U{2000}' <= c <= '\U{200A}') || c == '\U{202F}' || c == '\U{205F}' || c == '\U{3000}'
  }

  /** CRLF and lone CR become LF. */
  function Normalize(s: string): string {
    if s == "" then ""
    else if s[0] != '\r' then [s[0]] + Normalize(s[1..])
    else if |s| > 1 && s[1] == '\n' then "\n" + Normalize(s[2..])
    else "\n" + Normalize(s[1..])
  }

  predicate Occurs(s: string, tag: string, i: int) {
    0 <= i && i + |tag| <= |s| && s[i..i + |tag|] == tag
  }

  predicate Contains(s: string, tag: string) {
    exists i | 0 <= i <= |s| :: Occurs(s, tag, i)
  }

  /** The first occurrence at or after i, or -1. */
  function FindFrom(s: string, tag: string, i: nat): (r: int)
    ensures r >= 0 ==> i <= r && Occurs(s, tag, r) && forall j | i <= j < r :: !Occurs(s, tag, j)
    ensures r < 0 ==> forall j | i <= j :: !Occurs(s, tag, j)
    decreases |s| - i
  {
    if i + |tag| > |s| then -1
    else if Occurs(s, tag, i) then i
    else FindFrom(s, tag, i + 1)
  }

  function TrimNewlines(s: string): string {
    if s != "" && s[|s| - 1] == '\n' then TrimNewlines(s[..|s| - 1]) else s
  }

  function TrimLeadingNewlines(s: string): string {
    if s != "" && s[0] == '\n' then TrimLeadingNewlines(s[1..]) else s
  }

  function StripStart(s: string): string {
    if s != "" && IsSpace(s[0]) then StripStart(s[1..]) else s
  }

  function StripEnd(s: string): string {
    if s != "" && IsSpace(s[|s| - 1]) then StripEnd(s[..|s| - 1]) else s
  }

  function Strip(s: string): string {
    StripEnd(StripStart(s))
  }

  function FirstBreak(s: string): (n: nat)
    ensures n <= |s| && (forall k | 0 <= k < n :: !IsBreak(s[k])) && (n < |s| ==> IsBreak(s[n]))
  {
    if s == "" || IsBreak(s[0]) then 0 else 1 + FirstBreak(s[1..])
  }

  function SplitLines(s: string): seq<string>
    decreases |s|
  {
    if s == "" then []
    else
      var n := FirstBreak(s);
      if n < |s| then [s[..n]] + SplitLines(s[n + 1..]) else [s]
  }

  function Join(lines: seq<string>): string {
    if lines == [] then ""
    else if |lines| == 1 then lines[0]
    else lines[0] + "\n" + Join(lines[1..])
  }

  function StripAll(lines: seq<string>): seq<string> {
    if lines == [] then [] else [Strip(lines[0])] + StripAll(lines[1..])
  }

  predicate NoBreaks(s: string) {
    forall k | 0 <= k < |s| :: !IsBreak(s[k])
  }

  ghost predicate NoTag(s: string, tag: string) {
    forall i :: !Occurs(s, tag, i)
  }

  /** A line as stripping leaves it. */
  predicate Tidy(s: string) {
    NoBreaks(s) && Strip(s) == s
  }

  // ----- Lemmas --------------------------------------------------------------------------------

  lemma {:induction false} NormalizeLeavesNoReturns(s: string)
    ensures '\r' !in Normalize(s)
    decreases |s|
  {
    if s != "" {
      NormalizeLeavesNoReturns(s[1..]);
      if |s| > 1 {
        NormalizeLeavesNoReturns(s[2..]);
      }
    }
  }

  lemma {:induction false} NormalizeIsIdentity(s: string)
    requires '\r' !in s
    ensures Normalize(s) == s
  {
    if s != "" {
      assert s[0] in s;
      assert forall c | c in s[1..] :: c in s;
      NormalizeIsIdentity(s[1..]);
    }
  }

  lemma {:induction false} OccursInPart(s: string, tag: string, lo: nat, hi: nat, i: int)
    requires lo <= hi <= |s|
    ensures Occurs(s[lo..hi], tag, i) ==> Occurs(s, tag, lo + i)
  {
    if 0 <= i && lo + i + |tag| <= hi {
      var part := s[lo..hi];
      var there, here := part[i..i + |tag|], s[lo + i..lo + i + |tag|];
      assert forall k | 0 <= k < |tag| :: there[k] == part[i + k] == here[k];
      assert there == here;
    }
  }

  lemma {:induction false} PartHasNoTag(s: string, tag: string, lo: nat, hi: nat)
    requires NoTag(s, tag) && lo <= hi <= |s|
    ensures NoTag(s[lo..hi], tag)
  {
    hide Occurs;
    forall i
      ensures !Occurs(s[lo..hi], tag, i)
    {
      OccursInPart(s, tag, lo, hi, i);
    }
  }

  /** Stripping cuts off a prefix and a suffix. */
  lemma {:induction false} StripStartCuts(s: string)
    ensures |StripStart(s)| <= |s| && StripStart(s) == s[|s| - |StripStart(s)|..]
    ensures StripStart(s) != "" ==> !IsSpace(StripStart(s)[0])
  {
    if s != "" && IsSpace(s[0]) {
      StripStartCuts(s[1..]);
    }
  }

  lemma {:induction false} StripEndCuts(s: string)
    ensures |StripEnd(s)| <= |s| && StripEnd(s) == s[..|StripEnd(s)|]
    ensures StripEnd(s) != "" ==> !IsSpace(StripEnd(s)[|StripEnd(s)| - 1])
  {
    if s != "" && IsSpace(s[|s| - 1]) {
      StripEndCuts(s[..|s| - 1]);
    }
  }

  lemma {:induction false} StripCuts(s: string) returns (lo: nat, hi: nat)
    ensures lo <= hi <= |s| && Strip(s) == s[lo..hi]
    ensures Strip(s) != "" ==> !IsSpace(Strip(s)[0]) && !IsSpace(Strip(s)[|Strip(s)| - 1])
  {
    StripStartCuts(s);
    StripEndCuts(StripStart(s));
    lo := |s| - |StripStart(s)|;
    hi := lo + |Strip(s)|;
  }

  lemma {:induction false} StripLeavesTrimmed(s: string)
    requires s != "" ==> !IsSpace(s[0]) && !IsSpace(s[|s| - 1])
    ensures Strip(s) == s
  {
  }

  lemma {:induction false} StrippedIsTidy(s: string, tag: string)
    requires NoBreaks(s) && NoTag(s, tag)
    ensures Tidy(Strip(s)) && NoTag(Strip(s), tag)
  {
    var lo, hi := StripCuts(s);
    StripLeavesTrimmed(Strip(s));
    PartHasNoTag(s, tag, lo, hi);
  }

  ghost predicate AllTidy(lines: seq<string>, tag: string) {
    forall l | l in lines :: Tidy(l) && NoTag(l, tag)
  }

  lemma {:induction false} SplitLinesAreTidy(s: string, tag: string)
    requires NoTag(s, tag)
    ensures AllTidy(StripAll(SplitLines(s)), tag)
    decreases |s|
  {
    hide Tidy, NoTag, Strip;
    if s != "" {
      var n := FirstBreak(s);
      PartHasNoTag(s, tag, 0, n);
      assert s[0..n] == s[..n];
      StrippedIsTidy(s[..n], tag);
      if n < |s| {
        PartHasNoTag(s, tag, n + 1, |s|);
        assert s[n + 1..|s|] == s[n + 1..];
        SplitLinesAreTidy(s[n + 1..], tag);
        StripAllCons(s[..n], SplitLines(s[n + 1..]));
      } else {
        assert s[..n] == s;
        StripAllCons(s, []);
      }
    }
  }

  lemma {:induction false} StripAllCons(l: string, lines: seq<string>)
    ensures StripAll([l] + lines) == [Strip(l)] + StripAll(lines)
  {
    assert ([l] + lines)[1..] == lines;
  }

  lemma {:induction false} StripAllOfTidy(lines: seq<string>, tag: string)
    requires AllTidy(lines, tag)
    ensures StripAll(lines) == lines
  {
    hide Strip, NoTag;
    if lines != [] {
      assert lines[0] in lines;
      assert forall l | l in lines[1..] :: l in lines;
      StripAllOfTidy(lines[1..], tag);
    }
  }

  lemma {:induction false} FirstBreakIs(s: string, n: nat)
    requires n < |s| && NoBreaks(s[..n]) && IsBreak(s[n])
    ensures FirstBreak(s) == n
  {
    assert forall k | 0 <= k < n :: s[..n][k] == s[k];
  }

  /** Splitting undoes joining, when no line has a break in it and the last is not empty. */
  lemma {:induction false} SplitJoin(lines: seq<string>)
    requires lines != [] && lines[|lines| - 1] != ""
    requires forall l | l in lines :: NoBreaks(l)
    ensures SplitLines(Join(lines)) == lines
  {
    hide IsBreak;
    assert lines[0] in lines;
    if |lines| == 1 {
      assert FirstBreak(lines[0]) == |lines[0]|;
    } else {
      var s := Join(lines);
      assert IsBreak('\n') by {
        NewlineIsBreak();
      }
      assert s[..|lines[0]|] == lines[0];
      assert s[|lines[0]|] == '\n';
      FirstBreakIs(s, |lines[0]|);
      assert s[|lines[0]| + 1..] == Join(lines[1..]);
      assert forall l | l in lines[1..] :: l in lines;
      SplitJoin(lines[1..]);
    }
  }

  lemma {:induction false} NewlineIsBreak()
    ensures IsBreak('\n')
  {
  }

  lemma {:induction false} OccursAcrossLines(a: string, b: string, tag: string, i: int)
    requires '\n' !in tag && |tag| > 0
    ensures Occurs(a + "\n" + b, tag, i) ==> Occurs(a, tag, i) || Occurs(b, tag, i - |a| - 1)
  {
    var s := a + "\n" + b;
    if 0 <= i && i + |tag| <= |a| {
      assert s[i..i + |tag|] == a[i..i + |tag|];
    } else if 0 <= i <= |a| && i + |tag| <= |s| {
      assert s[i..i + |tag|][|a| - i] == '\n';
    } else if |a| < i && i + |tag| <= |s| {
      assert s[i..i + |tag|] == b[i - |a| - 1..i - |a| - 1 + |tag|];
    }
  }

  /** Putting a line in front does not create an occurrence of a tag without newlines. */
  lemma {:induction false} NoTagAcrossLines(a: string, b: string, tag: string, k: nat)
    requires NoTag(a, tag) && '\n' !in tag && |tag| > 0
    requires forall i | i < k :: !Occurs(b, tag, i)
    ensures forall i | i < |a| + 1 + k :: !Occurs(a + "\n" + b, tag, i)
  {
    hide Occurs;
    forall i | i < |a| + 1 + k
      ensures !Occurs(a + "\n" + b, tag, i)
    {
      OccursAcrossLines(a, b, tag, i);
    }
  }

  lemma {:induction false} NoTagInLines(lines: seq<string>, rest: string, tag: string)
    requires lines != [] && forall l | l in lines :: NoTag(l, tag)
    requires '\n' !in tag && |tag| > 0
    ensures forall i | i <= |Join(lines)| :: !Occurs(Join(lines) + "\n" + rest, tag, i)
  {
    hide Occurs;
    assert lines[0] in lines;
    if |lines| == 1 {
      assert forall i | i < 0 :: !Occurs(rest, tag, i) by {
        NothingBeforeStart(rest, tag);
      }
      NoTagAcrossLines(lines[0], rest, tag, 0);
    } else {
      assert forall l | l in lines[1..] :: l in lines;
      NoTagInLines(lines[1..], rest, tag);
      var b := Join(lines[1..]) + "\n" + rest;
      NoTagAcrossLines(lines[0], b, tag, |Join(lines[1..])| + 1);
      assert Join(lines) + "\n" + rest == lines[0] + "\n" + b;
    }
  }

  lemma {:induction false} NothingBeforeStart(s: string, tag: string)
    ensures forall i | i < 0 :: !Occurs(s, tag, i)
  {
  }
}
