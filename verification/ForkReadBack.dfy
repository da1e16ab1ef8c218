/** Forking a session and reading the fork back. */
module ForkReadBack {
  import opened Wrappers
  import opened Json
  import opened ParentGraph
  import opened Transcript
  import opened Chain
  import opened Fork
  import opened ForkTheorems
  import opened SessionMessages

  // ---------------------------------------------------------------------
  // The forked entries as a selection of the source's.
  // ---------------------------------------------------------------------

  /** `kept` selects entries off the sidechains, and with an entry its parent
      whenever that one is off the sidechains too. */
  ghost predicate MainSelection(es: Entries, kept: seq<nat>) {
    && Ascending(kept, |es|)
    && (forall k :: 0 <= k < |kept| ==> !IsSidechain(es[kept[k]]))
    && (forall k :: 0 <= k < |kept| ==>
          var up := ParentIndex(es, kept[k]);
          up.Some? && !IsSidechain(es[up.value]) ==> up.value in kept)
  }

  /** Which positions `ForkSource` keeps. */
  function KeptPositions(es: Entries, upTo: Option<string>): (kept: seq<nat>)
    requires ForkSource(es, upTo).Ok?
  {
    var main := Select(es, NotSidechain);
    if upTo.None? then main else main[..FirstIndex(Gather(es, main), upTo.value).value + 1]
  }

  lemma SourceIsSelection(es: Entries, upTo: Option<string>)
    requires ForkSource(es, upTo).Ok? && ParentsFirst(es)
    ensures MainSelection(es, KeptPositions(es, upTo))
    ensures ForkSource(es, upTo).value == Gather(es, KeptPositions(es, upTo))
  {
    var main := Select(es, NotSidechain);
    MainIsSelection(es);
    if upTo.Some? {
      var n := FirstIndex(Gather(es, main), upTo.value).value + 1;
      PrefixIsSelection(es, main, n);
      assert Gather(es, main)[..n] == Gather(es, main[..n]);
    }
  }

  lemma MainIsSelection(es: Entries)
    ensures MainSelection(es, Select(es, NotSidechain))
  {
    var main := Select(es, NotSidechain);
    forall k | 0 <= k < |main| ensures !IsSidechain(es[main[k]]) { assert main[k] in main; }
  }

  /** What is cut off is later, so never a parent of what is kept. */
  lemma PrefixIsSelection(es: Entries, main: seq<nat>, n: nat)
    requires ParentsFirst(es) && MainSelection(es, main) && n <= |main|
    ensures MainSelection(es, main[..n])
  {
    var kept := main[..n];
    forall k | 0 <= k < |kept| && ParentIndex(es, kept[k]).Some? && !IsSidechain(es[ParentIndex(es, kept[k]).value])
      ensures ParentIndex(es, kept[k]).value in kept
    {
      var j := ParentIndex(es, main[k]).value;
      assert j in main;
      var l :| 0 <= l < |main| && main[l] == j;
      assert l < k && kept[l] == j;
    }
  }

  lemma SelectionParent(es: Entries, kept: seq<nat>, k: nat)
    requires Ordered(es) && MainSelection(es, kept) && k < |kept|
    requires DistinctUuids(Gather(es, kept))
    ensures var up, p := ParentIndex(es, kept[k]), ParentIndex(Gather(es, kept), k);
            if up.None? || IsSidechain(es[up.value]) then p.None?
            else p.Some? && p.value < k && kept[p.value] == up.value
  {
    var cut := Gather(es, kept);
    var up := ParentIndex(es, kept[k]);
    if Parent(cut[k]).Some? {
      SelectedName(es, kept, Parent(cut[k]).value);
      if up.Some? && !IsSidechain(es[up.value]) {
        var l :| 0 <= l < |kept| && kept[l] == up.value;
        DistinctIndex(cut, l);
      }
    }
  }

  /** A name found in the selection is found at the same entry in the source. */
  lemma SelectedName(es: Entries, kept: seq<nat>, u: string)
    requires DistinctUuids(es) && forall k :: 0 <= k < |kept| ==> kept[k] < |es|
    ensures var l := LastIndex(Gather(es, kept), u);
            l.Some? ==> LastIndex(es, u) == Some(kept[l.value])
  {
    var l := LastIndex(Gather(es, kept), u);
    if l.Some? { DistinctIndex(es, kept[l.value]); }
  }

  lemma SelectionIsWellOrdered(es: Entries, kept: seq<nat>)
    requires Ordered(es) && MainSelection(es, kept)
    ensures Ordered(Gather(es, kept))
    ensures NoEmptyUuid(es) ==> NoEmptyUuid(Gather(es, kept))
    ensures Grounded(es) ==> Grounded(Gather(es, kept))
  {
    var cut := Gather(es, kept);
    if Grounded(es) {
      forall k | 0 <= k < |cut| && !HasUuid(cut[k]) ensures ParentIndex(cut, k).None? { SelectionParent(es, kept, k); }
    }
    forall k | 0 <= k < |cut| && ParentIndex(cut, k).Some? ensures ParentIndex(cut, k).value < k {
      SelectionParent(es, kept, k);
    }
  }

  /** The ancestors of `i` below its nearest sidechain ancestor, newest first. */
  ghost function MainAncestors(es: Entries, i: nat): (s: seq<nat>)
    requires ParentsFirst(es) && i < |es|
    ensures s != [] && forall k :: 0 <= k < |s| ==> s[k] < |es|
    decreases i
  {
    match ParentIndex(es, i)
    case None => [i]
    case Some(j) => if IsSidechain(es[j]) then [i] else [i] + MainAncestors(es, j)
  }

  /** What a reader should get of entry `i`: those ancestors in chronological
      order, without progress entries. */
  ghost function MainStory(es: Entries, i: nat): Entries
    requires ParentsFirst(es) && i < |es|
  {
    Gather(es, DropProgress(es, Reverse(MainAncestors(es, i))))
  }

  lemma {:induction false} SelectionAncestors(es: Entries, kept: seq<nat>, k: nat)
    requires Ordered(es) && MainSelection(es, kept) && k < |kept|
    requires Ordered(Gather(es, kept))
    ensures Through(kept, AncestorsOf(Gather(es, kept), k)) == MainAncestors(es, kept[k])
    decreases k
  {
    var cut := Gather(es, kept);
    SelectionParent(es, kept, k);
    if ParentIndex(cut, k).Some? {
      var l := ParentIndex(cut, k).value;
      SelectionAncestors(es, kept, l);
      assert Through(kept, AncestorsOf(cut, k)) == [kept[k]] + Through(kept, AncestorsOf(cut, l));
    }
  }

  ghost predicate OffSidechains(es: Entries, s: seq<nat>) {
    forall k :: 0 <= k < |s| ==> s[k] < |es| && !IsSidechain(es[s[k]])
  }

  /** Nothing is lost exactly when no ancestor is on a sidechain. */
  lemma {:induction false} MainAncestorsAreAll(es: Entries, i: nat)
    requires ParentsFirst(es) && i < |es| && !IsSidechain(es[i])
    ensures MainAncestors(es, i) == AncestorsOf(es, i) <==> OffSidechains(es, AncestorsOf(es, i))
    ensures |MainAncestors(es, i)| <= |AncestorsOf(es, i)|
    decreases i
  {
    var up := ParentIndex(es, i);
    if up.Some? {
      var s, t := AncestorsOf(es, i), AncestorsOf(es, up.value);
      assert s[1..] == t;
      if IsSidechain(es[up.value]) {
        assert s[1] == up.value;
      } else {
        MainAncestorsAreAll(es, up.value);
        assert MainAncestors(es, i)[1..] == MainAncestors(es, up.value);
        assert OffSidechains(es, t) ==> OffSidechains(es, s) by {
          forall k | 0 <= k < |s| && OffSidechains(es, t) ensures !IsSidechain(es[s[k]]) {
            if k > 0 { assert s[k] == t[k - 1]; }
          }
        }
        assert OffSidechains(es, s) ==> OffSidechains(es, t) by {
          forall k | 0 <= k < |t| && OffSidechains(es, s) ensures !IsSidechain(es[t[k]]) {
            assert s[k + 1] == t[k];
          }
        }
      }
    }
  }

  /** Read upwards: at and above the first sidechain entry there are only
      progress entries. */
  ghost predicate LosesOnlyProgressUp(es: Entries, s: seq<nat>) {
    forall j, k :: 0 <= j <= k < |s| && s[j] < |es| && s[k] < |es| && IsSidechain(es[s[j]]) ==> IsProgress(es[s[k]])
  }

  /** Every entry of a chronological path at or above a sidechain entry is a
      progress entry. */
  ghost predicate LosesOnlyProgress(es: Entries, p: seq<nat>) {
    forall j, k :: 0 <= k <= j < |p| && p[j] < |es| && p[k] < |es| && IsSidechain(es[p[j]]) ==> IsProgress(es[p[k]])
  }

  lemma LosesReverse(es: Entries, s: seq<nat>)
    ensures LosesOnlyProgress(es, Reverse(s)) <==> LosesOnlyProgressUp(es, s)
  {
    var r, n := Reverse(s), |s|;
    if LosesOnlyProgress(es, r) {
      forall j, k | 0 <= j <= k < n && s[j] < |es| && s[k] < |es| && IsSidechain(es[s[j]])
        ensures IsProgress(es[s[k]])
      {
        assert r[n - 1 - j] == s[j] && r[n - 1 - k] == s[k];
      }
    }
  }

  lemma LosesCons(es: Entries, i: nat, t: seq<nat>)
    requires i < |es| && !IsSidechain(es[i])
    ensures LosesOnlyProgressUp(es, [i] + t) <==> LosesOnlyProgressUp(es, t)
  {
    var s := [i] + t;
    if LosesOnlyProgressUp(es, s) {
      forall j, k | 0 <= j <= k < |t| && t[j] < |es| && t[k] < |es| && IsSidechain(es[t[j]])
        ensures IsProgress(es[t[k]])
      {
        assert s[j + 1] == t[j] && s[k + 1] == t[k];
      }
    }
  }

  lemma LosesFromSidechain(es: Entries, t: seq<nat>)
    requires t != [] && (forall k :: 0 <= k < |t| ==> t[k] < |es|) && IsSidechain(es[t[0]])
    ensures LosesOnlyProgressUp(es, t) <==> DropProgress(es, t) == []
  {
    NothingLeft(es, t);
  }

  lemma {:induction false} NothingLeft(es: Entries, t: seq<nat>)
    requires forall k :: 0 <= k < |t| ==> t[k] < |es|
    ensures DropProgress(es, t) == [] <==> forall k :: 0 <= k < |t| ==> IsProgress(es[t[k]])
  {
    if t != [] {
      NothingLeft(es, t[1..]);
      assert forall k :: 1 <= k < |t| ==> t[k] == t[1..][k - 1];
    }
  }

  /** Dropping progress entries leaves all ancestors in the main ones exactly
      when only progress entries are lost. */
  lemma {:induction false} MainAncestorsKeepStory(es: Entries, i: nat)
    requires ParentsFirst(es) && i < |es| && !IsSidechain(es[i])
    ensures DropProgress(es, MainAncestors(es, i)) <= DropProgress(es, AncestorsOf(es, i))
    ensures DropProgress(es, MainAncestors(es, i)) == DropProgress(es, AncestorsOf(es, i))
            <==> LosesOnlyProgressUp(es, AncestorsOf(es, i))
    decreases i
  {
    match ParentIndex(es, i)
    case None =>
    case Some(j) =>
      LosesCons(es, i, AncestorsOf(es, j));
      DropProgressCons(es, i, AncestorsOf(es, j));
      if IsSidechain(es[j]) {
        StoryStops(es, i, j);
      } else {
        DropProgressCons(es, i, MainAncestors(es, j));
        MainAncestorsKeepStory(es, j);
      }
  }

  lemma StoryStops(es: Entries, i: nat, j: nat)
    requires ParentsFirst(es) && i < |es| && ParentIndex(es, i) == Some(j) && IsSidechain(es[j])
    ensures DropProgress(es, MainAncestors(es, i)) == IfKept(es, i)
    ensures LosesOnlyProgressUp(es, AncestorsOf(es, j)) <==> DropProgress(es, AncestorsOf(es, j)) == []
  {
    LosesFromSidechain(es, AncestorsOf(es, j));
    DropProgressCons(es, i, []);
    assert [i] + [] == [i];
  }

  /** The main story of an entry is all of its chain, progress entries dropped,
      exactly when every ancestor at or above a sidechain is a progress entry. */
  lemma MainStoryIsWhole(es: Entries, i: nat)
    requires ParentsFirst(es) && i < |es| && !IsSidechain(es[i])
    ensures MainStory(es, i) == Story(es, i) <==> LosesOnlyProgress(es, Reverse(AncestorsOf(es, i)))
    ensures |MainStory(es, i)| == |Story(es, i)| ==> MainStory(es, i) == Story(es, i)
  {
    var main, all := MainAncestors(es, i), AncestorsOf(es, i);
    MainAncestorsKeepStory(es, i);
    DropProgressReverse(es, main);
    DropProgressReverse(es, all);
    LosesReverse(es, all);
  }

  lemma {:induction false} DropProgressThrough(es: Entries, kept: seq<nat>, s: seq<nat>)
    requires forall k :: 0 <= k < |kept| ==> kept[k] < |es|
    requires forall k :: 0 <= k < |s| ==> s[k] < |kept|
    ensures Through(kept, DropProgress(Gather(es, kept), s)) == DropProgress(es, Through(kept, s))
  {
    if s != [] {
      DropProgressThrough(es, kept, s[1..]);
      assert Through(kept, s)[1..] == Through(kept, s[1..]);
    }
  }

  // ---------------------------------------------------------------------
  // The chain read from a fork.
  // ---------------------------------------------------------------------

  /** `copies` retells `originals`: same order, kind and content, every uuid
      renamed, each entry linked to the one before it and the first to none. */
  ghost predicate Retells(cut: Entries, draw: nat -> string, copies: Entries, originals: Entries) {
    && |copies| == |originals|
    && forall k :: 0 <= k < |copies| ==> RetellsAt(cut, draw, copies, originals, k)
  }

  ghost predicate RetellsAt(cut: Entries, draw: nat -> string, copies: Entries, originals: Entries, k: nat)
    requires k < |copies| == |originals|
  {
    && IsCopyOf(copies[k], originals[k])
    && Uuid(originals[k]).Some? && Uuid(copies[k]).Some?
    && Uuid(copies[k]) == NewName(cut, draw, Uuid(originals[k]).value)
    && Parent(copies[k]) == if k == 0 then None else Uuid(copies[k - 1])
  }

  /** Entry `m` and its ancestors in chronological order, without progress entries. */
  ghost function Story(cut: Entries, m: nat): Entries
    requires ParentsFirst(cut) && m < |cut|
  {
    Gather(cut, DropProgress(cut, Reverse(AncestorsOf(cut, m))))
  }

  lemma LinkedToPrevious(lines: Entries, q: seq<nat>, k: nat)
    requires Ordered(lines) && IsAncestorPath(ParentsOf(lines), q) && k < |q|
    requires forall i :: 0 <= i < |q| ==> q[i] < |lines|
    requires Parent(lines[q[k]]).Some? ==> ParentIndex(lines, q[k]).Some?
    ensures Parent(lines[q[k]]) == if k == 0 then None else Uuid(lines[q[k - 1]])
  {
    AncestorPathShape(ParentsOf(lines), q);
    if k == 0 {
      if ParentIndex(lines, q[0]).Some? {
        HeadIsOldest(lines, q);
      }
    }
  }

  lemma {:induction false} PathAscends(lines: Entries, q: seq<nat>, k: nat)
    requires ParentsFirst(lines) && k < |q|
    requires forall i :: 0 <= i < |q| ==> q[i] < |lines|
    requires forall i :: 0 < i < |q| ==> ParentIndex(lines, q[i]) == Some(q[i - 1])
    ensures q[0] <= q[k]
  {
    if k > 0 { PathAscends(lines, q, k - 1); }
  }

  lemma HeadIsOldest(lines: Entries, q: seq<nat>)
    requires ParentsFirst(lines) && IsAncestorPath(ParentsOf(lines), q)
    requires q != [] && forall i :: 0 <= i < |q| ==> q[i] < |lines|
    ensures ParentIndex(lines, q[0]).None?
  {
    AncestorPathShape(ParentsOf(lines), q);
    if ParentIndex(lines, q[0]).Some? {
      var k :| 0 <= k < |q| && q[k] == ParentIndex(lines, q[0]).value;
      PathAscends(lines, q, k);
    }
  }

  lemma CopyNamed(cut: Entries, draw: nat -> string, lines: Entries, k: nat)
    requires ForkShape(cut, draw, lines) && k < |Select(cut, NotProgress)| && HasUuid(lines[k])
    ensures var e := cut[Select(cut, NotProgress)[k]];
            && IsCopyOf(lines[k], e) && Uuid(e).Some? && Uuid(lines[k]).Some?
            && Uuid(lines[k]) == NewName(cut, draw, Uuid(e).value)
            && (Parent(lines[k]).Some? ==> ParentIndex(lines, k).Some?)
  {
    var i := Select(cut, NotProgress)[k];
    assert LineShape(cut, draw, i, lines[k]);
    DistinctIndex(cut, i);
    ForkParent(cut, draw, lines, k);
  }

  /** Whatever a path leads through is named: each entry by the next. */
  lemma PathIsNamed(lines: Entries, q: seq<nat>)
    requires IsAncestorPath(ParentsOf(lines), q) && q[|q| - 1] < |lines| && HasUuid(lines[q[|q| - 1]])
    ensures forall k :: 0 <= k < |q| ==> q[k] < |lines| && HasUuid(lines[q[k]])
  {
    AncestorPathShape(ParentsOf(lines), q);
    forall k | 0 <= k < |q| ensures q[k] < |lines| && HasUuid(lines[q[k]]) {
      if k < |q| - 1 { assert ParentsOf(lines)[q[k + 1]] == Some(q[k]); }
    }
  }

  /** Reading a fork of `cut`: the story of the entry its leaf was made from. */
  lemma LeafRetold(cut: Entries, draw: nat -> string, lines: Entries, q: seq<nat>)
    requires ForkShape(cut, draw, lines) && IsConversationPath(lines, q) && q != []
    ensures forall k :: 0 <= k < |q| ==> q[k] < |Select(cut, NotProgress)|
    ensures Retells(cut, draw, Gather(lines, q), Story(cut, Select(cut, NotProgress)[q[|q| - 1]]))
  {
    ForkPath(cut, draw, lines, q);
    ForkIsOrdered(cut, draw, lines);
    CandidateIsMessage(lines, q[|q| - 1]);
    PathIsNamed(lines, q);
    RetoldAlong(cut, draw, lines, q);
  }

  /** Reading a fork of `cut`: its last message's ancestors, retold. */
  lemma ForkRetells(cut: Entries, draw: nat -> string, lines: Entries, m: nat, q: seq<nat>)
    requires ForkShape(cut, draw, lines) && Grounded(cut) && IsLastNamed(cut, m)
    requires !IsMeta(cut[m]) || !HasMainCandidate(lines)
    requires IsConversationPath(lines, q)
    ensures (forall k :: 0 <= k < |q| ==> q[k] < |lines|)
    ensures Retells(cut, draw, Gather(lines, q), Story(cut, m))
  {
    ForkIsOrdered(cut, draw, lines);
    var k := ForkLastMessage(cut, draw, lines, m);
    LastMessageIsCandidate(lines, k);
    LeafIsLastMessage(lines, k, q[|q| - 1]);
    LeafRetold(cut, draw, lines, q);
  }

  lemma RetoldAlong(cut: Entries, draw: nat -> string, lines: Entries, q: seq<nat>)
    requires ForkShape(cut, draw, lines) && Ordered(lines) && IsAncestorPath(ParentsOf(lines), q)
    requires forall k :: 0 <= k < |q| ==> q[k] < |Select(cut, NotProgress)| && HasUuid(lines[q[k]])
    ensures Retells(cut, draw, Gather(lines, q), Gather(cut, Through(Select(cut, NotProgress), q)))
  {
    var kept := Through(Select(cut, NotProgress), q);
    forall k: nat | k < |q| ensures RetellsAt(cut, draw, Gather(lines, q), Gather(cut, kept), k) {
      RetoldAt(cut, draw, lines, q, kept, k);
    }
  }

  lemma RetoldAt(cut: Entries, draw: nat -> string, lines: Entries, q: seq<nat>, kept: seq<nat>, k: nat)
    requires ForkShape(cut, draw, lines) && Ordered(lines)
    requires IsAncestorPath(ParentsOf(lines), q) && (forall j :: 0 <= j < |q| ==> q[j] < |lines|)
    requires |kept| == |q| && k < |q| && forall j :: 0 <= j < |q| ==> kept[j] < |cut|
    requires q[k] < |Select(cut, NotProgress)| && HasUuid(lines[q[k]]) && kept[k] == Select(cut, NotProgress)[q[k]]
    ensures RetellsAt(cut, draw, Gather(lines, q), Gather(cut, kept), k)
  {
    CopyNamed(cut, draw, lines, q[k]);
    LinkedToPrevious(lines, q, k);
  }

  // ---------------------------------------------------------------------
  // The theorems.
  // ---------------------------------------------------------------------

  /** There is always something to fork at a message off the sidechains, and
      that message is the last entry forked. */
  lemma ForkSourceAt(es: Entries, i: nat)
    requires Ordered(es) && i < |es| && !IsSidechain(es[i]) && IsMessage(es[i]) && HasUuid(es[i])
    ensures ForkSource(es, Uuid(es[i])).Ok?
    ensures var kept := KeptPositions(es, Uuid(es[i])); kept != [] && kept[|kept| - 1] == i
  {
    var k := PlaceInMain(es, i);
    CutHasMessage(Gather(es, Select(es, NotSidechain)), k);
    ForkSourceIs(es, Uuid(es[i]).value, k);
  }

  /** Where the cut falls, when the uuid is found and something is left. */
  lemma ForkSourceIs(es: Entries, u: string, k: nat)
    requires var transcript := Gather(es, Select(es, NotSidechain));
             FirstIndex(transcript, u) == Some(k) && k < |transcript| && Select(transcript[..k + 1], NotProgress) != []
    ensures ForkSource(es, Some(u)) == Ok(Gather(es, Select(es, NotSidechain))[..k + 1])
    ensures KeptPositions(es, Some(u)) == Select(es, NotSidechain)[..k + 1]
  {
  }

  lemma CutHasMessage(es: Entries, k: nat)
    requires k < |es| && IsMessage(es[k])
    ensures Select(es[..k + 1], NotProgress) != []
  {
    CutHasEntry(es, k);
  }

  lemma PlaceInMain(es: Entries, i: nat) returns (k: nat)
    requires Ordered(es) && i < |es| && !IsSidechain(es[i]) && HasUuid(es[i])
    ensures var main := Select(es, NotSidechain);
            k < |main| && main[k] == i && FirstIndex(Gather(es, main), Uuid(es[i]).value) == Some(k)
  {
    var main := Select(es, NotSidechain);
    assert i in main;
    k :| 0 <= k < |main| && main[k] == i;
    SelectionIsDistinct(es, main);
    DistinctIndex(Gather(es, main), k);
  }

  lemma SelectionIsDistinct(es: Entries, kept: seq<nat>)
    requires DistinctUuids(es) && Ascending(kept, |es|)
    ensures DistinctUuids(Gather(es, kept))
  {
  }

  lemma SelectHas(es: Entries, k: nat)
    requires k < |es| && NotProgress(es[k])
    ensures Select(es, NotProgress) != []
  {
    assert k in Select(es, NotProgress);
  }

  lemma {:induction false} SelectAll(es: Entries, keep: Value -> bool)
    requires forall i :: 0 <= i < |es| ==> keep(es[i])
    ensures Select(es, keep) == seq(|es|, i => i) && Gather(es, Select(es, keep)) == es
  {
    if es != [] { SelectAll(es[..|es| - 1], keep); }
  }

  /** Without sidechains a full fork forks everything. */
  lemma ForksWhole(es: Entries, k: nat)
    requires (forall i :: 0 <= i < |es| ==> NotSidechain(es[i])) && k < |es| && NotProgress(es[k])
    ensures ForkSource(es, None) == Ok(es) && KeptPositions(es, None) == seq(|es|, i => i)
  {
    SelectAll(es, NotSidechain);
    SelectHas(es, k);
  }

  /** So does a fork at the last entry. */
  lemma ForksWholeAtLast(es: Entries)
    requires DistinctUuids(es) && es != [] && forall i :: 0 <= i < |es| ==> NotSidechain(es[i])
    requires NotProgress(es[|es| - 1]) && HasUuid(es[|es| - 1])
    ensures ForkSource(es, Uuid(es[|es| - 1])) == Ok(es)
  {
    var k: nat := |es| - 1;
    var u := Uuid(es[k]).value;
    SelectAll(es, NotSidechain);
    CutHasEntry(es, k);
    DistinctIndex(es, k);
    ForkSourceIs(es, u, k);
    assert es[..k + 1] == es;
  }

  lemma CutHasEntry(es: Entries, k: nat)
    requires k < |es| && NotProgress(es[k])
    ensures Select(es[..k + 1], NotProgress) != []
  {
    SelectHas(es[..k + 1], k);
  }

  /** The ancestors of a selected entry, through the selection. */
  lemma SelectionRetold(es: Entries, kept: seq<nat>, m: nat)
    requires Ordered(es) && MainSelection(es, kept) && m < |kept|
    requires Ordered(Gather(es, kept))
    ensures Story(Gather(es, kept), m)
            == MainStory(es, kept[m])
  {
    var cut := Gather(es, kept);
    var a := AncestorsOf(cut, m);
    SelectionAncestors(es, kept, m);
    ThroughReverse(kept, a);
    DropProgressThrough(es, kept, Reverse(a));
    var d := DropProgress(cut, Reverse(a));
    assert Gather(cut, d) == Gather(es, Through(kept, d));
  }

  lemma SelectedForkReadsBack(es: Entries, kept: seq<nat>, i: nat, draw: nat -> string, lines: Entries, q: seq<nat>)
    requires WellOrdered(es) && MainSelection(es, kept) && ForkShape(Gather(es, kept), draw, lines)
    requires IsLastKept(es, kept, i) && !IsMeta(es[i])
    requires IsConversationPath(lines, q)
    ensures forall k :: 0 <= k < |q| ==> q[k] < |lines|
    ensures Retells(Gather(es, kept), draw, Gather(lines, q), MainStory(es, i))
  {
    var m := LastKeptMessage(es, kept, i);
    SelectionIsWellOrdered(es, kept);
    ForkRetells(Gather(es, kept), draw, lines, m, q);
    SelectionRetold(es, kept, m);
  }

  /** The session forks to these lines. */
  ghost predicate Forks(es: Entries, upTo: Option<string>, draw: nat -> string, names: ForkNames, title: string,
                        lines: Entries)
  {
    && ForkSource(es, upTo).Ok? && ClimbsEnd(ForkSource(es, upTo).value)
    && IsForkOf(lines, ForkSource(es, upTo).value, draw, names, title)
  }

  /** Entry `i` is the last message with a uuid among those kept. */
  ghost predicate IsLastKept(es: Entries, kept: seq<nat>, i: nat) {
    && i < |es| && i in kept && IsMessage(es[i]) && HasUuid(es[i])
    && forall j :: j in kept && i < j < |es| ==> !(IsMessage(es[j]) && HasUuid(es[j]))
  }

  /** Entry `i` is the last message forked, and is not meta. */
  ghost predicate EndsAtMessage(es: Entries, upTo: Option<string>, i: nat)
    requires ForkSource(es, upTo).Ok?
  {
    IsLastKept(es, KeptPositions(es, upTo), i) && !IsMeta(es[i])
  }

  /** A fork of any well-ordered session, wherever it is cut: what is read
      back is the last forked message's main ancestors, retold. */
  lemma ForkReadsBack(es: Entries, upTo: Option<string>, i: nat, draw: nat -> string,
                      names: ForkNames, title: string, lines: Entries, q: seq<nat>)
    requires WellOrdered(es) && Injective(draw)
    requires Forks(es, upTo, draw, names, title, lines) && EndsAtMessage(es, upTo, i)
    requires IsConversationPath(lines, q)
    ensures forall k :: 0 <= k < |q| ==> q[k] < |lines|
    ensures Retells(ForkSource(es, upTo).value, draw, Gather(lines, q), MainStory(es, i))
  {
    var kept := KeptPositions(es, upTo);
    var cut := Gather(es, kept);
    SourceIsSelection(es, upTo);
    SelectionIsWellOrdered(es, kept);
    ForkHasShape(cut, lines, draw, names, title);
    SelectedForkReadsBack(es, kept, i, draw, lines, q);
  }

  lemma LastKeptMessage(es: Entries, kept: seq<nat>, i: nat) returns (m: nat)
    requires Ascending(kept, |es|) && IsLastKept(es, kept, i)
    ensures m < |kept| && kept[m] == i && IsLastNamed(Gather(es, kept), m)
  {
    m :| 0 <= m < |kept| && kept[m] == i;
    forall j | m < j < |kept| ensures !(IsMessage(es[kept[j]]) && HasUuid(es[kept[j]])) {
      assert kept[j] in kept && kept[j] > i;
    }
  }

  /** Forking at a message. The fork retells that message's ancestors, back to
      the nearest sidechain; that is its whole chain, progress entries dropped,
      exactly when every ancestor at or above a sidechain is a progress entry,
      and in particular when no ancestor is on a sidechain. */
  lemma ForkAtMessage(es: Entries, i: nat, draw: nat -> string, names: ForkNames, title: string,
                      lines: Entries, q: seq<nat>, p: seq<nat>)
    requires WellOrdered(es) && Injective(draw)
    requires i < |es| && IsMessage(es[i]) && HasUuid(es[i]) && !IsSidechain(es[i]) && !IsMeta(es[i])
    requires ForkSource(es, Uuid(es[i])).Ok? ==>
      var cut := ForkSource(es, Uuid(es[i])).value;
      ClimbsEnd(cut) ==> IsForkOf(lines, cut, draw, names, title)
    requires IsConversationPath(lines, q)
    requires IsAncestorPath(ParentsOf(es), p) && p[|p| - 1] == i
    ensures ForkSource(es, Uuid(es[i])).Ok? && ClimbsEnd(ForkSource(es, Uuid(es[i])).value)
    ensures forall k :: 0 <= k < |q| ==> q[k] < |lines|
    ensures Retells(ForkSource(es, Uuid(es[i])).value, draw, Gather(lines, q), MainStory(es, i))
    ensures p == Reverse(AncestorsOf(es, i))
    ensures Retells(ForkSource(es, Uuid(es[i])).value, draw, Gather(lines, q), Story(es, i))
            <==> LosesOnlyProgress(es, p)
    ensures Reverse(MainAncestors(es, i)) == p <==> OffSidechains(es, p)
    ensures OffSidechains(es, p) ==> LosesOnlyProgress(es, p)
  {
    ForkSourceAt(es, i);
    CutClimbsEnd(es, Uuid(es[i]));
    EndsThere(es, i);
    ForkReadsBack(es, Uuid(es[i]), i, draw, names, title, lines, q);
    PathIsAncestors(es, p, i);
    StoryRetold(ForkSource(es, Uuid(es[i])).value, draw, Gather(lines, q), es, i);
    PathOffSidechains(es, i);
  }

  /** Who retells an entry's main story retells its whole story exactly when
      only progress entries are lost. */
  lemma StoryRetold(cut: Entries, draw: nat -> string, copies: Entries, es: Entries, i: nat)
    requires ParentsFirst(es) && i < |es| && !IsSidechain(es[i]) && Retells(cut, draw, copies, MainStory(es, i))
    ensures Retells(cut, draw, copies, Story(es, i)) <==> LosesOnlyProgress(es, Reverse(AncestorsOf(es, i)))
  {
    MainStoryIsWhole(es, i);
  }

  lemma PathOffSidechains(es: Entries, i: nat)
    requires ParentsFirst(es) && i < |es| && !IsSidechain(es[i])
    ensures var p := Reverse(AncestorsOf(es, i));
            && (Reverse(MainAncestors(es, i)) == p <==> OffSidechains(es, p))
            && (OffSidechains(es, p) ==> LosesOnlyProgress(es, p))
  {
    MainAncestorsAreAll(es, i);
    ReverseTwice(MainAncestors(es, i));
    ReverseTwice(AncestorsOf(es, i));
    OffSidechainsReverse(es, AncestorsOf(es, i));
  }

  /** Forks at a message and reads the fork: every well-ordered session has
      such a fork, and this is what its reader gets. */
  method ForkAndRead(es: Entries, i: nat, names: ForkNames, title: Option<string>, derived: Option<string>,
                     draw: nat -> string)
    returns (chain: Entries)
    requires WellOrdered(es) && Injective(draw)
    requires i < |es| && IsMessage(es[i]) && HasUuid(es[i]) && !IsSidechain(es[i]) && !IsMeta(es[i])
    ensures ForkSource(es, Uuid(es[i])).Ok?
    ensures Retells(ForkSource(es, Uuid(es[i])).value, draw, chain, MainStory(es, i))
  {
    ForkSourceAt(es, i);
    CutClimbsEnd(es, Uuid(es[i]));
    var lines := BuildForkLines(es, names, Uuid(es[i]), title, derived, draw);
    var path;
    chain, path := BuildConversationChain(lines.value);
    EndsThere(es, i);
    ForkReadsBack(es, Uuid(es[i]), i, draw, names, ForkTitle(title, derived), lines.value, path);
  }

  lemma CutClimbsEnd(es: Entries, upTo: Option<string>)
    requires Ordered(es) && ForkSource(es, upTo).Ok?
    ensures ClimbsEnd(ForkSource(es, upTo).value)
  {
    SourceIsSelection(es, upTo);
    SelectionIsWellOrdered(es, KeptPositions(es, upTo));
    ClimbsEndWhenOrdered(ForkSource(es, upTo).value);
  }

  lemma EndsThere(es: Entries, i: nat)
    requires Ordered(es) && i < |es| && IsMessage(es[i]) && HasUuid(es[i]) && !IsSidechain(es[i]) && !IsMeta(es[i])
    requires ForkSource(es, Uuid(es[i])).Ok?
    ensures EndsAtMessage(es, Uuid(es[i]), i)
  {
    ForkSourceAt(es, i);
    SourceIsSelection(es, Uuid(es[i]));
  }

  lemma OffSidechainsReverse(es: Entries, s: seq<nat>)
    ensures OffSidechains(es, Reverse(s)) <==> OffSidechains(es, s)
  {
    var r := Reverse(s);
    if OffSidechains(es, r) {
      forall k | 0 <= k < |s| ensures s[k] < |es| && !IsSidechain(es[s[k]]) { assert s[k] == r[|s| - 1 - k]; }
    }
  }

  /** Forking a whole session commutes with building its chain: the chain of
      the fork retells the chain of the source without its progress entries. */
  lemma FullFork(es: Entries, m: nat, draw: nat -> string, names: ForkNames, title: string,
                 lines: Entries, q: seq<nat>, p: seq<nat>)
    requires WellOrdered(es) && Injective(draw)
    requires IsLastNamed(es, m) && IsMain(es[m])
    requires ForkSource(es, None).Ok? ==>
      var cut := ForkSource(es, None).value;
      ClimbsEnd(cut) ==> IsForkOf(lines, cut, draw, names, title)
    requires IsConversationPath(lines, q) && IsConversationPath(es, p)
    requires OffSidechains(es, p)
    ensures ForkSource(es, None).Ok? && ClimbsEnd(ForkSource(es, None).value)
    ensures forall k :: 0 <= k < |q| ==> q[k] < |lines|
    ensures Retells(ForkSource(es, None).value, draw, Gather(lines, q), Gather(es, DropProgress(es, p)))
  {
    var kept := Select(es, NotSidechain);
    var cut := Gather(es, kept);
    assert m in kept;
    var k :| 0 <= k < |kept| && kept[k] == m;
    assert NotProgress(cut[k]);
    assert k in Select(cut, NotProgress);
    assert KeptPositions(es, None) == kept;
    SourceIsSelection(es, None);
    SelectionIsWellOrdered(es, kept);
    ClimbsEndWhenOrdered(cut);
    ForkReadsBack(es, None, m, draw, names, title, lines, q);
    ConversationIsAncestors(es, p, m);
    OffSidechainsReverse(es, AncestorsOf(es, m));
    MainAncestorsAreAll(es, m);
  }

  // ---------------------------------------------------------------------
  // The same, at the level of the messages a caller reads.
  // ---------------------------------------------------------------------

  ghost function RenameMessages(cut: Entries, draw: nat -> string, forked: string,
                                ms: seq<SessionMessage>): seq<SessionMessage>
  {
    if ms == [] then []
    else
      var name := NewName(cut, draw, ms[0].uuid);
      [SessionMessage(ms[0].kind, if name.Some? then name.value else ms[0].uuid, forked, ms[0].message)]
      + RenameMessages(cut, draw, forked, ms[1..])
  }

  ghost predicate OffSideAndTeam(chain: Entries) {
    forall k :: 0 <= k < |chain| ==> !IsSidechain(chain[k]) && !InTeam(chain[k])
  }

  ghost predicate RetoldContents(cut: Entries, draw: nat -> string, copies: Entries, originals: Entries) {
    && |copies| == |originals|
    && forall k :: 0 <= k < |copies| ==>
         && IsCopyOf(copies[k], originals[k])
         && Uuid(originals[k]).Some? && Uuid(copies[k]).Some?
         && Uuid(copies[k]) == NewName(cut, draw, Uuid(originals[k]).value)
  }

  lemma {:induction false} RetoldMessages(cut: Entries, draw: nat -> string, copies: Entries, originals: Entries,
                                          source: string, forked: string)
    requires RetoldContents(cut, draw, copies, originals) && OffSideAndTeam(originals)
    ensures ReadMessages(copies, forked) == RenameMessages(cut, draw, forked, ReadMessages(originals, source))
  {
    if copies != [] {
      RetoldMessages(cut, draw, copies[1..], originals[1..], source, forked);
      assert IsVisible(copies[0]) == IsVisible(originals[0]);
    }
  }

  lemma {:induction false} ProgressIsInvisible(es: Entries, s: seq<nat>, sessionId: string)
    requires forall k :: 0 <= k < |s| ==> s[k] < |es|
    ensures ReadMessages(Gather(es, DropProgress(es, s)), sessionId) == ReadMessages(Gather(es, s), sessionId)
  {
    if s != [] {
      ProgressIsInvisible(es, s[1..], sessionId);
      assert Gather(es, s)[1..] == Gather(es, s[1..]);
      var d := DropProgress(es, s);
      if IsProgress(es[s[0]]) {
      } else {
        assert Gather(es, d)[1..] == Gather(es, DropProgress(es, s[1..]));
      }
    }
  }

  /** Whoever reads the fork reads the source's messages, uuids renamed. */
  lemma FullForkReadsTheSameMessages(es: Entries, m: nat, draw: nat -> string, names: ForkNames, title: string,
                                     lines: Entries, q: seq<nat>, p: seq<nat>)
    requires WellOrdered(es) && Injective(draw)
    requires IsLastNamed(es, m) && IsMain(es[m])
    requires ForkSource(es, None).Ok? ==>
      var cut := ForkSource(es, None).value;
      ClimbsEnd(cut) ==> IsForkOf(lines, cut, draw, names, title)
    requires IsConversationPath(lines, q) && IsConversationPath(es, p)
    requires forall k :: 0 <= k < |p| && p[k] < |es| ==> !IsSidechain(es[p[k]]) && !InTeam(es[p[k]])
    ensures ForkSource(es, None).Ok?
    ensures (forall k :: 0 <= k < |q| ==> q[k] < |lines|) && (forall k :: 0 <= k < |p| ==> p[k] < |es|)
    ensures ReadMessages(Gather(lines, q), names.forked)
         == RenameMessages(ForkSource(es, None).value, draw, names.forked, ReadMessages(Gather(es, p), names.source))
  {
    ConversationIsAncestors(es, p, m);
    assert forall k :: 0 <= k < |p| ==> p[k] < |es|;
    FullFork(es, m, draw, names, title, lines, q, p);
    var cut, copies, originals := ForkSource(es, None).value, Gather(lines, q), Gather(es, DropProgress(es, p));
    RetoldContent(cut, draw, copies, originals);
    StaysOffSideAndTeam(es, p);
    RetoldMessages(cut, draw, copies, originals, names.source, names.forked);
    ProgressIsInvisible(es, p, names.source);
  }

  lemma RetoldContent(cut: Entries, draw: nat -> string, copies: Entries, originals: Entries)
    requires Retells(cut, draw, copies, originals)
    ensures RetoldContents(cut, draw, copies, originals)
  {
    forall k | 0 <= k < |copies|
      ensures IsCopyOf(copies[k], originals[k]) && Uuid(originals[k]).Some? && Uuid(copies[k]).Some?
           && Uuid(copies[k]) == NewName(cut, draw, Uuid(originals[k]).value)
    {
      assert RetellsAt(cut, draw, copies, originals, k);
    }
  }

  lemma StaysOffSideAndTeam(es: Entries, p: seq<nat>)
    requires forall k :: 0 <= k < |p| ==> p[k] < |es| && !IsSidechain(es[p[k]]) && !InTeam(es[p[k]])
    ensures OffSideAndTeam(Gather(es, DropProgress(es, p)))
  {
    var d := DropProgress(es, p);
    DropProgressFrom(es, p);
    forall k | 0 <= k < |d| ensures !IsSidechain(es[d[k]]) && !InTeam(es[d[k]]) { assert d[k] in p; }
  }

  lemma DropProgressFrom(es: Entries, s: seq<nat>)
    requires forall k :: 0 <= k < |s| ==> s[k] < |es|
    ensures forall k :: 0 <= k < |DropProgress(es, s)| ==> DropProgress(es, s)[k] in s
  {
  }
}
