/** Reading a forked session file back: the reader keeps transcript entries
    only, so it never sees the fork's title. */
module DiskFork {
  import opened Wrappers
  import opened Json
  import opened ParentGraph
  import opened Transcript
  import opened Chain
  import opened Summary
  import opened Fork
  import opened ForkTheorems
  import opened ForkReadBack

  const TRANSCRIPT_KINDS: set<string> := {"user", "assistant", "progress", "system", "attachment"}

  /** Objects of a transcript kind that carry a uuid. */
  predicate IsTranscriptEntry(e: Value) {
    e.Obj? && Kind(e).Some? && Kind(e).value in TRANSCRIPT_KINDS && Uuid(e).Some?
  }

  /** The entries of a session file; lines that do not parse are skipped. */
  function ParseTranscriptEntries(parse: string -> Option<Value>, lines: seq<string>): (es: Entries)
    ensures forall i :: 0 <= i < |es| ==> IsTranscriptEntry(es[i])
  {
    KeptEntries(ParsedEntries(parse, lines))
  }

  function KeptEntries(es: Entries): (r: Entries)
    ensures forall i :: 0 <= i < |r| ==> IsTranscriptEntry(r[i])
  {
    var idx := Select(es, IsTranscriptEntry);
    assert forall k :: 0 <= k < |idx| ==> idx[k] in idx;
    Gather(es, idx)
  }

  /** What the reader keeps, field by field. */
  ghost predicate IsKept(e: Value) {
    && (|| Get(e, "type") == Some(Str("user")) || Get(e, "type") == Some(Str("assistant"))
        || Get(e, "type") == Some(Str("progress")) || Get(e, "type") == Some(Str("system"))
        || Get(e, "type") == Some(Str("attachment")))
    && exists u :: Get(e, "uuid") == Some(Str(u))
  }

  lemma KeptExactly(e: Value)
    ensures IsTranscriptEntry(e) <==> IsKept(e)
  {
  }

  /** The entries of a file are those of its lines that parse to an entry that
      is kept, in order. */
  lemma {:induction false} FileEntries(parse: string -> Option<Value>, lines: seq<string>) returns (idx: seq<nat>)
    ensures Ascending(idx, |lines|)
    ensures forall i :: 0 <= i < |lines| ==> (i in idx <==> parse(lines[i]).Some? && IsKept(parse(lines[i]).value))
    ensures var es := ParseTranscriptEntries(parse, lines);
            |es| == |idx| && forall k :: 0 <= k < |idx| ==> parse(lines[idx[k]]) == Some(es[k])
  {
    idx := [];
    if lines != [] {
      var init, line := lines[..|lines| - 1], lines[|lines| - 1];
      idx := FileEntries(parse, init);
      NextFileEntry(parse, init, line);
      assert lines == init + [line];
      if parse(line).Some? && IsKept(parse(line).value) {
        OneMoreEntry(lines, idx);
        idx := idx + [|init|];
      }
    }
  }

  lemma NextFileEntry(parse: string -> Option<Value>, lines: seq<string>, line: string)
    ensures ParseTranscriptEntries(parse, lines + [line])
            == ParseTranscriptEntries(parse, lines)
               + if parse(line).Some? && IsKept(parse(line).value) then [parse(line).value] else []
  {
    var es := ParsedEntries(parse, lines);
    assert (lines + [line])[..|lines|] == lines;
    if parse(line).Some? {
      KeptSnoc(es, parse(line).value);
      KeptExactly(parse(line).value);
    } else {
      assert es + [] == es;
    }
  }

  lemma OneMoreEntry(lines: seq<string>, idx: seq<nat>)
    requires lines != [] && Ascending(idx, |lines| - 1)
    ensures Ascending(idx + [|lines| - 1], |lines|)
    ensures forall i :: i in idx + [|lines| - 1] <==> i in idx || i == |lines| - 1
  {
  }

  lemma {:induction false} AllKept(es: Entries)
    requires forall i :: 0 <= i < |es| ==> IsTranscriptEntry(es[i])
    ensures KeptEntries(es) == es
  {
    if es != [] {
      KeptSnoc(es[..|es| - 1], es[|es| - 1]);
      AllKept(es[..|es| - 1]);
      assert es == es[..|es| - 1] + [es[|es| - 1]];
    }
  }

  lemma KeptSnoc(es: Entries, e: Value)
    ensures KeptEntries(es + [e]) == KeptEntries(es) + (if IsTranscriptEntry(e) then [e] else [])
  {
    assert (es + [e])[..|es|] == es;
  }

  // ---------------------------------------------------------------------
  // An entry that is no message, has no parent and is nobody's parent.
  // ---------------------------------------------------------------------

  ghost predicate Inert(es: Entries, t: Value) {
    && !IsMessage(t) && Parent(t).None? && Uuid(t).Some?
    && forall i :: 0 <= i < |es| ==> Uuid(es[i]) != Uuid(t) && Parent(es[i]) != Uuid(t)
  }

  lemma InertParents(es: Entries, t: Value)
    requires Inert(es, t)
    ensures ParentsOf(es + [t]) == ParentsOf(es) + [None]
  {
    var all := es + [t];
    assert all[..|es|] == es;
    forall i | 0 <= i < |es| ensures ParentIndex(all, i) == ParentIndex(es, i) {
      assert all[i] == es[i];
    }
  }

  lemma {:induction false} InertAncestors(es: Entries, t: Value, i: nat, k: nat)
    requires Inert(es, t) && i < |es|
    ensures Ancestor(ParentsOf(es + [t]), i, k) == Ancestor(ParentsOf(es), i, k)
  {
    InertParents(es, t);
    if k > 0 { InertAncestors(es, t, i, k - 1); }
  }

  lemma InertNearest(es: Entries, t: Value, i: nat, c: nat)
    requires Inert(es, t) && i < |es|
    ensures NearestMessage(es + [t], i, c) <==> NearestMessage(es, i, c)
  {
    forall k: nat ensures ReachesMessageAt(es + [t], i, c, k) <==> ReachesMessageAt(es, i, c, k) {
      forall j: nat ensures Ancestor(ParentsOf(es + [t]), i, j) == Ancestor(ParentsOf(es), i, j) {
        InertAncestors(es, t, i, j);
      }
    }
  }

  lemma InertReachesNothing(es: Entries, t: Value, c: nat)
    requires Inert(es, t)
    ensures !NearestMessage(es + [t], |es|, c)
  {
    InertParents(es, t);
    var ps := ParentsOf(es + [t]);
    forall k: nat ensures !ReachesMessageAt(es + [t], |es|, c, k) {
      assert Ancestor(ps, |es|, 0) == Some(|es|);
      if k > 0 {
        assert Ancestor(ps, |es|, 1).None?;
        NoneStaysNone(ps, |es|, 1, k);
      }
    }
  }

  lemma InertTerminal(es: Entries, t: Value, i: nat)
    requires Inert(es, t) && i < |es|
    ensures IsTerminal(es + [t], i) <==> IsTerminal(es, i)
  {
    var all := es + [t];
    assert all[i] == es[i] && all[|es|] == t;
    if IsTerminal(all, i) {
      forall j | 0 <= j < |es| ensures Parent(es[j]) != Uuid(es[i]) { assert all[j] == es[j]; }
    }
  }

  lemma InertCandidate(es: Entries, t: Value, c: nat)
    requires Inert(es, t)
    ensures IsCandidate(es + [t], c) <==> IsCandidate(es, c)
  {
    InertReachesNothing(es, t, c);
    forall i: nat | i < |es|
      ensures IsTerminal(es + [t], i) && NearestMessage(es + [t], i, c)
              <==> IsTerminal(es, i) && NearestMessage(es, i, c)
    {
      InertTerminal(es, t, i);
      InertNearest(es, t, i, c);
    }
  }

  lemma CandidateIsEntry(es: Entries, c: nat)
    requires IsCandidate(es, c)
    ensures c < |es|
  {
    var i :| 0 <= i < |es| && IsTerminal(es, i) && NearestMessage(es, i, c);
    var k: nat :| ReachesMessageAt(es, i, c, k);
  }

  lemma InertLeaf(es: Entries, t: Value, c: nat)
    requires Inert(es, t)
    ensures IsLeaf(es + [t], c) <==> IsLeaf(es, c)
  {
    forall d: nat
      ensures IsCandidate(es + [t], d) <==> IsCandidate(es, d)
      ensures IsMainCandidate(es + [t], d) <==> IsMainCandidate(es, d)
    {
      InertCandidate(es, t, d);
      if IsCandidate(es, d) { CandidateIsEntry(es, d); }
    }
  }

  lemma InertClimb(ps: Parents, s: seq<nat>)
    requires Closed(ps) && s != [] && s[0] < |ps|
    ensures IsClimb(ps + [None], s) <==> IsClimb(ps, s)
  {
    if IsClimb(ps + [None], s) {
      forall k: nat | k < |s| ensures s[k] < |ps| { ClimbStaysBelow(ps, s, k); }
    }
  }

  lemma {:induction false} ClimbStaysBelow(ps: Parents, s: seq<nat>, k: nat)
    requires Closed(ps) && IsClimb(ps + [None], s) && s[0] < |ps| && k < |s|
    ensures s[k] < |ps|
  {
    if k > 0 {
      ClimbStaysBelow(ps, s, k - 1);
      assert (ps + [None])[s[k - 1]] == ps[s[k - 1]];
    }
  }

  /** It does not show in the conversation. */
  lemma InertDoesNotShow(es: Entries, t: Value, q: seq<nat>)
    requires Inert(es, t)
    ensures IsConversationPath(es + [t], q) <==> IsConversationPath(es, q)
  {
    InertParents(es, t);
    forall c: nat ensures IsCandidate(es + [t], c) <==> IsCandidate(es, c) { InertCandidate(es, t, c); }
    if q != [] {
      var leaf := q[|q| - 1];
      InertLeaf(es, t, leaf);
      if IsLeaf(es, leaf) {
        CandidateIsEntry(es, leaf);
        InertClimb(ParentsOf(es), Reverse(q));
      }
    }
  }

  // ---------------------------------------------------------------------
  // The fork.
  // ---------------------------------------------------------------------

  lemma TitleIsInertIn(cut: Entries, draw: nat -> string, lines: Entries)
    requires ForkShape(cut, draw, lines)
    ensures Inert(lines[..|lines| - 1], lines[|lines| - 1])
  {
    var ws := Select(cut, NotProgress);
    forall k | 0 <= k < |ws|
      ensures Uuid(lines[k]) != Uuid(lines[|ws|]) && Parent(lines[k]) != Uuid(lines[|ws|])
    {
      assert LineShape(cut, draw, ws[k], lines[k]);
    }
  }

  /** The reader keeps every forked entry and drops the title. */
  lemma ForkKept(cut: Entries, draw: nat -> string, names: ForkNames, title: string, lines: Entries)
    requires ClimbsEnd(cut) && IsForkOf(lines, cut, draw, names, title)
    requires forall i :: 0 <= i < |cut| ==> IsTranscriptEntry(cut[i])
    ensures KeptEntries(lines) == lines[..|lines| - 1]
  {
    var ws := Select(cut, NotProgress);
    var front, last := lines[..|ws|], lines[|ws|];
    ForkFrontKept(cut, draw, names, title, lines);
    TitleIsNoEntry(names, draw(|cut|), title);
    KeptSnoc(front, last);
    assert lines == front + [last];
  }

  lemma ForkFrontKept(cut: Entries, draw: nat -> string, names: ForkNames, title: string, lines: Entries)
    requires ClimbsEnd(cut) && IsForkOf(lines, cut, draw, names, title)
    requires forall i :: 0 <= i < |cut| ==> IsTranscriptEntry(cut[i])
    ensures KeptEntries(lines[..|lines| - 1]) == lines[..|lines| - 1]
  {
    var ws := Select(cut, NotProgress);
    var front := lines[..|ws|];
    forall k | 0 <= k < |front| ensures IsTranscriptEntry(front[k]) {
      assert ws[k] in ws;
      RemapIsEntry(lines[k], cut, ws[k], draw, names, k == |ws| - 1);
    }
    AllKept(front);
  }

  lemma RemapIsEntry(line: Value, cut: Entries, i: nat, draw: nat -> string, names: ForkNames, isLast: bool)
    requires i < |cut| && IsTranscriptEntry(cut[i])
    requires ClimbEnds(cut, Parent(cut[i])) && IsRemapOf(line, cut[i], cut, draw, names, isLast)
    ensures IsTranscriptEntry(line)
  {
    RemapLooksLike(line, cut[i], cut, draw, names, isLast);
    assert LastIndex(cut, Uuid(cut[i]).value).Some?;
  }

  lemma TitleIsNoEntry(names: ForkNames, uuid: string, title: string)
    ensures !IsTranscriptEntry(TitleEntry(names, uuid, title))
  {
    TitleEntryFields(names, uuid, title);
    assert "custom-title"[0] == 'c';
  }

  lemma {:induction false} PrintedLines(parse: string -> Option<Value>, texts: seq<string>, lines: Entries)
    requires |texts| == |lines| && forall k :: 0 <= k < |lines| ==> parse(texts[k]) == Some(lines[k])
    ensures ParseTranscriptEntries(parse, texts) == KeptEntries(lines)
  {
    PrintedEntries(parse, texts, lines);
  }

  lemma {:induction false} PrintedEntries(parse: string -> Option<Value>, texts: seq<string>, lines: Entries)
    requires |texts| == |lines| && forall k :: 0 <= k < |lines| ==> parse(texts[k]) == Some(lines[k])
    ensures ParsedEntries(parse, texts) == lines
  {
    if lines != [] {
      PrintedEntries(parse, texts[..|texts| - 1], lines[..|lines| - 1]);
      assert lines == lines[..|lines| - 1] + [lines[|lines| - 1]];
    }
  }

  /** From file to file: the entries read from the source file, forked, printed
      one a line and read back. */
  lemma FileForkReadsBack(parse: string -> Option<Value>, source: seq<string>, target: seq<string>,
                          upTo: Option<string>, i: nat, draw: nat -> string, names: ForkNames, title: string,
                          lines: Entries, q: seq<nat>)
    requires WellOrdered(ParseTranscriptEntries(parse, source)) && Injective(draw)
    requires Forks(ParseTranscriptEntries(parse, source), upTo, draw, names, title, lines)
    requires EndsAtMessage(ParseTranscriptEntries(parse, source), upTo, i)
    requires |target| == |lines| && forall k :: 0 <= k < |lines| ==> parse(target[k]) == Some(lines[k])
    requires IsConversationPath(ParseTranscriptEntries(parse, target), q)
    ensures forall k :: 0 <= k < |q| ==> q[k] < |ParseTranscriptEntries(parse, target)|
    ensures Retells(ForkSource(ParseTranscriptEntries(parse, source), upTo).value, draw,
                    Gather(ParseTranscriptEntries(parse, target), q),
                    MainStory(ParseTranscriptEntries(parse, source), i))
  {
    PrintedLines(parse, target, lines);
    DiskForkReadsBack(ParseTranscriptEntries(parse, source), upTo, i, draw, names, title, lines, q);
  }

  /** Forking a session file and reading the new file gives what forking in
      memory promises, although the reader drops the title. */
  lemma DiskForkReadsBack(es: Entries, upTo: Option<string>, i: nat, draw: nat -> string,
                          names: ForkNames, title: string, lines: Entries, q: seq<nat>)
    requires forall j :: 0 <= j < |es| ==> IsTranscriptEntry(es[j])
    requires WellOrdered(es) && Injective(draw)
    requires Forks(es, upTo, draw, names, title, lines) && EndsAtMessage(es, upTo, i)
    requires IsConversationPath(KeptEntries(lines), q)
    ensures forall k :: 0 <= k < |q| ==> q[k] < |KeptEntries(lines)|
    ensures Retells(ForkSource(es, upTo).value, draw, Gather(KeptEntries(lines), q), MainStory(es, i))
  {
    CutIsWellFormed(es, upTo);
    KeptForkReadsTheSame(ForkSource(es, upTo).value, draw, names, title, lines, q);
    ForkReadsBack(es, upTo, i, draw, names, title, lines, q);
  }

  lemma CutIsWellFormed(es: Entries, upTo: Option<string>)
    requires ForkSource(es, upTo).Ok? && WellOrdered(es)
    requires forall j :: 0 <= j < |es| ==> IsTranscriptEntry(es[j])
    ensures WellOrdered(ForkSource(es, upTo).value)
    ensures forall k :: 0 <= k < |ForkSource(es, upTo).value| ==> IsTranscriptEntry(ForkSource(es, upTo).value[k])
  {
    SourceIsSelection(es, upTo);
    SelectionIsWellOrdered(es, KeptPositions(es, upTo));
  }

  /** The lines without the title have the conversation that all lines have. */
  lemma KeptForkReadsTheSame(cut: Entries, draw: nat -> string, names: ForkNames, title: string, lines: Entries,
                             q: seq<nat>)
    requires WellOrdered(cut) && Injective(draw) && ClimbsEnd(cut) && IsForkOf(lines, cut, draw, names, title)
    requires forall k :: 0 <= k < |cut| ==> IsTranscriptEntry(cut[k])
    requires IsConversationPath(KeptEntries(lines), q)
    ensures IsConversationPath(lines, q)
    ensures forall k :: 0 <= k < |q| ==> q[k] < |KeptEntries(lines)| <= |lines|
    ensures Gather(KeptEntries(lines), q) == Gather(lines, q)
  {
    ForkHasShape(cut, lines, draw, names, title);
    ForkKept(cut, draw, names, title, lines);
    TitleIsInertIn(cut, draw, lines);
    FrontReadsTheSame(lines, q);
  }

  lemma FrontReadsTheSame(lines: Entries, q: seq<nat>)
    requires lines != [] && Inert(lines[..|lines| - 1], lines[|lines| - 1])
    requires IsConversationPath(lines[..|lines| - 1], q)
    ensures IsConversationPath(lines, q)
    ensures forall k :: 0 <= k < |q| ==> q[k] < |lines| - 1
    ensures Gather(lines[..|lines| - 1], q) == Gather(lines, q)
  {
    var front, last := lines[..|lines| - 1], lines[|lines| - 1];
    assert lines == front + [last];
    InertDoesNotShow(front, last, q);
    PathWithin(front, q);
    GatherFront(front, last, q);
  }

  lemma PathWithin(es: Entries, q: seq<nat>)
    requires IsConversationPath(es, q)
    ensures forall k :: 0 <= k < |q| ==> q[k] < |es|
  {
    if q != [] { AncestorPathShape(ParentsOf(es), q); }
  }

  lemma GatherFront(front: Entries, last: Value, q: seq<nat>)
    requires forall k :: 0 <= k < |q| ==> q[k] < |front|
    ensures Gather(front + [last], q) == Gather(front, q)
  {
  }
}
