/** The string operations of the standard library that the code relies on. */
module Text {
  import opened Wrappers

  /** The Unicode White_Space property. */
  predicate IsWhitespace(c: char) {
    || '\U{0009}' <= c <= '\U{000D}'
    || c == ' ' || c == '\U{0085}' || c == '\U{00A0}' || c == '\U{1680}'
    || '\U{2000}' <= c <= '\U{200A}'
    || c == '\U{2028}' || c == '\U{2029}' || c == '\U{202F}' || c == '\U{205F}' || c == '\U{3000}'
  }

  function TrimStart(s: string): string {
    if s != [] && IsWhitespace(s[0]) then TrimStart(s[1..]) else s
  }

  function TrimEnd(s: string): string {
    if s != [] && IsWhitespace(s[|s| - 1]) then TrimEnd(s[..|s| - 1]) else s
  }

  function Trim(s: string): string { TrimEnd(TrimStart(s)) }

  /** The property by its code points. */
  lemma WhitespaceCodes(c: char)
    ensures IsWhitespace(c)
            <==> c as int in {9, 10, 11, 12, 13, 32, 133, 160, 5760, 8192, 8193, 8194, 8195, 8196, 8197, 8198, 8199,
                              8200, 8201, 8202, 8232, 8233, 8239, 8287, 12288}
  {
  }

  predicate IsBlank(s: string) { forall k :: 0 <= k < |s| ==> IsWhitespace(s[k]) }

  /** No white space at either end. */
  predicate IsBare(s: string) { s == "" || (!IsWhitespace(s[0]) && !IsWhitespace(s[|s| - 1])) }

  /** `s` is `core` with white space around it. */
  ghost predicate Wraps(s: string, core: string) {
    IsBare(core) && exists lead, trail :: IsBlank(lead) && IsBlank(trail) && s == lead + core + trail
  }

  lemma {:induction false} TrimEndCuts(s: string) returns (trail: string)
    ensures IsBlank(trail) && s == TrimEnd(s) + trail
    ensures TrimEnd(s) != "" ==> !IsWhitespace(TrimEnd(s)[|TrimEnd(s)| - 1])
  {
    trail := "";
    if s != "" && IsWhitespace(s[|s| - 1]) {
      trail := TrimEndCuts(s[..|s| - 1]);
      assert s == s[..|s| - 1] + [s[|s| - 1]];
      trail := trail + [s[|s| - 1]];
    }
  }

  lemma {:induction false} TrimStartCuts(s: string) returns (lead: string)
    ensures IsBlank(lead) && s == lead + TrimStart(s)
    ensures TrimStart(s) != "" ==> !IsWhitespace(TrimStart(s)[0])
  {
    lead := "";
    if s != "" && IsWhitespace(s[0]) {
      lead := TrimStartCuts(s[1..]);
      lead := [s[0]] + lead;
    }
  }

  lemma {:induction false} TrimStartBlank(lead: string, rest: string)
    requires IsBlank(lead) && (rest == "" || !IsWhitespace(rest[0]))
    ensures TrimStart(lead + rest) == rest
  {
    if lead != "" {
      TrimStartBlank(lead[1..], rest);
      assert (lead + rest)[1..] == lead[1..] + rest;
    } else {
      assert lead + rest == rest;
    }
  }

  lemma {:induction false} TrimEndBlank(rest: string, trail: string)
    requires IsBlank(trail) && (rest == "" || !IsWhitespace(rest[|rest| - 1]))
    ensures TrimEnd(rest + trail) == rest
  {
    if trail != "" {
      TrimEndBlank(rest, trail[..|trail| - 1]);
      assert (rest + trail)[..|rest + trail| - 1] == rest + trail[..|trail| - 1];
    } else {
      assert rest + trail == rest;
    }
  }

  lemma BlankTrims(s: string)
    requires IsBlank(s)
    ensures Trim(s) == ""
  {
    TrimStartBlank(s, "");
    assert s + "" == s;
  }

  /** Trimming takes away exactly the white space around a text. */
  lemma TrimExactly(s: string, core: string)
    ensures Wraps(s, core) <==> core == Trim(s)
  {
    TrimWraps(s);
    if Wraps(s, core) {
      var before, after :| IsBlank(before) && IsBlank(after) && s == before + core + after;
      WrappedTrims(before, core, after);
    }
  }

  lemma TrimWraps(s: string)
    ensures Wraps(s, Trim(s))
  {
    var lead := TrimStartCuts(s);
    var trail := TrimEndCuts(TrimStart(s));
    assert s == lead + Trim(s) + trail;
    if Trim(s) != "" { assert Trim(s)[0] == TrimStart(s)[0]; }
  }

  lemma WrappedTrims(before: string, core: string, after: string)
    requires IsBlank(before) && IsBlank(after) && IsBare(core)
    ensures Trim(before + core + after) == core
  {
    if core == "" {
      BlankTrims(before + core + after);
    } else {
      TrimStartBlank(before, core + after);
      assert before + core + after == before + (core + after);
      TrimEndBlank(core, after);
    }
  }

  // ---------------------------------------------------------------------
  // Splitting strings.
  // ---------------------------------------------------------------------

  function FirstIndexOf(s: string, c: char): (r: Option<nat>)
    ensures r.Some? ==> r.value < |s| && s[r.value] == c && c !in s[..r.value]
    ensures r.None? ==> c !in s
  {
    if s == "" then None
    else if s[0] == c then Some(0)
    else match FirstIndexOf(s[1..], c)
      case None => None
      case Some(i) =>
        assert s[..i + 1] == [s[0]] + s[1..][..i];
        Some(i + 1)
  }

  function ReplaceFirst(s: string, c: char, to: string): string {
    match FirstIndexOf(s, c)
    case None => s
    case Some(i) => s[..i] + to + s[i + 1..]
  }

  function SplitOnce(s: string, c: char): Option<(string, string)> {
    match FirstIndexOf(s, c)
    case None => None
    case Some(i) => Some((s[..i], s[i + 1..]))
  }

  function Split(s: string, c: char): (parts: seq<string>)
    ensures parts != []
    decreases |s|
  {
    match FirstIndexOf(s, c)
    case None => [s]
    case Some(i) => [s[..i]] + Split(s[i + 1..], c)
  }

  // ---------------------------------------------------------------------
  // Splitting undoes joining.
  // ---------------------------------------------------------------------

  lemma {:induction false} FirstIndexAfter(a: string, c: char, b: string)
    requires c !in a
    ensures FirstIndexOf(a + [c] + b, c) == Some(|a|)
  {
    if a != "" {
      FirstIndexAfter(a[1..], c, b);
      assert (a + [c] + b)[1..] == a[1..] + [c] + b;
    }
  }

  lemma SplitOnceJoined(a: string, c: char, b: string)
    requires c !in a
    ensures SplitOnce(a + [c] + b, c) == Some((a, b))
  {
    FirstIndexAfter(a, c, b);
    assert (a + [c] + b)[..|a|] == a && (a + [c] + b)[|a| + 1..] == b;
  }

  lemma SplitJoined(a: string, c: char, b: string)
    requires c !in a
    ensures Split(a + [c] + b, c) == [a] + Split(b, c)
  {
    FirstIndexAfter(a, c, b);
    assert (a + [c] + b)[..|a|] == a && (a + [c] + b)[|a| + 1..] == b;
  }

  lemma ReplaceJoined(a: string, c: char, b: string, to: string)
    requires c !in a
    ensures ReplaceFirst(a + [c] + b, c, to) == a + to + b
  {
    FirstIndexAfter(a, c, b);
  }
}
