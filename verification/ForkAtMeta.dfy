/** Forks whose last message is meta: chain building may then prefer another
    leaf. When it does is read off the transcript that is forked. */
module ForkAtMeta {
  import opened Wrappers
  import opened Json
  import opened ParentGraph
  import opened Transcript
  import opened Chain
  import opened Fork
  import opened ForkTheorems
  import opened ForkReadBack

  // ---------------------------------------------------------------------
  // The branches of a transcript without its progress entries.
  // ---------------------------------------------------------------------

  ghost function KeptUp(cut: Entries, i: nat, n: nat): (r: Option<nat>)
    requires ParentsFirst(cut) && i < |cut|
    ensures r.Some? ==> r.value < |cut|
  {
    if n == 0 then Some(i)
    else match KeptUp(cut, i, n - 1)
      case None => None
      case Some(j) => KeptParent(cut, j)
  }

  /** `t` has a uuid and no kept entry hangs below it. */
  ghost predicate EndsBranch(cut: Entries, t: nat)
    requires ParentsFirst(cut)
  {
    && t < |cut| && NotProgress(cut[t]) && HasUuid(cut[t])
    && forall i :: 0 <= i < |cut| && NotProgress(cut[i]) ==> KeptParent(cut, i) != Some(t)
  }

  ghost predicate ReachesKept(cut: Entries, t: nat, c: nat, n: nat)
    requires ParentsFirst(cut) && t < |cut|
  {
    KeptUp(cut, t, n) == Some(c) && IsMessage(cut[c]) && PassesKept(cut, t, n)
  }

  /** `c` is the message that ends a branch. */
  ghost predicate EndsABranch(cut: Entries, c: nat)
    requires ParentsFirst(cut)
  {
    c < |cut| && exists t: nat, n: nat :: EndsBranch(cut, t) && ReachesKept(cut, t, c, n)
  }

  /** `c` is the message that ends a branch, and is not meta. */
  ghost predicate EndsPlainBranch(cut: Entries, c: nat)
    requires ParentsFirst(cut)
  {
    EndsABranch(cut, c) && !IsMeta(cut[c])
  }

  ghost predicate HasPlainBranch(cut: Entries)
    requires ParentsFirst(cut)
  {
    exists c: nat :: EndsPlainBranch(cut, c)
  }

  // ---------------------------------------------------------------------
  // They are the candidates of the fork.
  // ---------------------------------------------------------------------

  /** A position of the fork as a position of what was forked. */
  function Lift(ws: seq<nat>, k: Option<nat>): Option<nat> {
    if k.Some? && k.value < |ws| then Some(ws[k.value]) else None
  }

  lemma ForkAncestorAt(cut: Entries, draw: nat -> string, lines: Entries, k: nat, n: nat)
    requires ForkShape(cut, draw, lines) && k < |Select(cut, NotProgress)|
    ensures var ws, a := Select(cut, NotProgress), Ancestor(ParentsOf(lines), k, n);
            KeptUp(cut, ws[k], n) == Lift(ws, a) && (a.Some? ==> a.value < |ws|)
  {
    var ws := Select(cut, NotProgress);
    forall l: nat | l < |ws| ensures SameParent(cut, lines, ws, l) { ForkUp(cut, draw, lines, l); }
    AncestorsAlike(cut, lines, ws, k, n);
  }

  /** Line `k` hangs below the line of its entry's kept parent. */
  ghost predicate SameParent(cut: Entries, lines: Entries, ws: seq<nat>, k: nat)
    requires ParentsFirst(cut) && k < |ws| && ws[k] < |cut| && k < |lines|
  {
    var up := ParentIndex(lines, k);
    KeptParent(cut, ws[k]) == Lift(ws, up) && (up.Some? ==> up.value < |ws|)
  }

  lemma {:induction false} AncestorsAlike(cut: Entries, lines: Entries, ws: seq<nat>, k: nat, n: nat)
    requires ParentsFirst(cut) && k < |ws| <= |lines| && forall l :: 0 <= l < |ws| ==> ws[l] < |cut|
    requires forall l: nat :: l < |ws| ==> SameParent(cut, lines, ws, l)
    ensures var a := Ancestor(ParentsOf(lines), k, n);
            KeptUp(cut, ws[k], n) == Lift(ws, a) && (a.Some? ==> a.value < |ws|)
  {
    if n > 0 {
      AncestorsAlike(cut, lines, ws, k, n - 1);
      OneStepUp(lines, k, n);
      OneKeptUp(cut, ws[k], n);
      var a := Ancestor(ParentsOf(lines), k, n - 1);
      if a.Some? { assert SameParent(cut, lines, ws, a.value); }
    }
  }

  lemma OneKeptUp(cut: Entries, t: nat, n: nat)
    requires ParentsFirst(cut) && t < |cut| && n > 0
    ensures var up := KeptUp(cut, t, n - 1);
            KeptUp(cut, t, n) == if up.None? then None else KeptParent(cut, up.value)
  {
  }

  lemma OneStepUp(lines: Entries, k: nat, n: nat)
    requires k < |lines| && n > 0
    ensures var a := Ancestor(ParentsOf(lines), k, n - 1);
            Ancestor(ParentsOf(lines), k, n) == if a.None? then None else ParentIndex(lines, a.value)
  {
  }

  lemma ForkUp(cut: Entries, draw: nat -> string, lines: Entries, k: nat)
    requires ForkShape(cut, draw, lines) && k < |Select(cut, NotProgress)|
    ensures var ws, up := Select(cut, NotProgress), ParentIndex(lines, k);
            KeptParent(cut, ws[k]) == Lift(ws, up) && (up.Some? ==> up.value < |ws|)
  {
    ForkParent(cut, draw, lines, k);
  }

  lemma SameMessage(cut: Entries, draw: nat -> string, lines: Entries, k: nat)
    requires ForkShape(cut, draw, lines) && k < |Select(cut, NotProgress)|
    ensures var i := Select(cut, NotProgress)[k];
            IsMessage(lines[k]) == IsMessage(cut[i]) && IsMain(lines[k]) == !IsMeta(cut[i])
  {
    assert LineShape(cut, draw, Select(cut, NotProgress)[k], lines[k]);
  }

  lemma ForkReaches(cut: Entries, draw: nat -> string, lines: Entries, k: nat, c: nat, n: nat)
    requires ForkShape(cut, draw, lines)
    requires var ws := Select(cut, NotProgress); k < |ws| && c < |ws|
    ensures var ws := Select(cut, NotProgress);
            ReachesMessageAt(lines, k, c, n) <==> ReachesKept(cut, ws[k], ws[c], n)
  {
    var ws := Select(cut, NotProgress);
    ForkAncestorAt(cut, draw, lines, k, n);
    LiftIs(ws, |cut|, Ancestor(ParentsOf(lines), k, n), c);
    SameMessage(cut, draw, lines, c);
    PassesAlike(cut, draw, lines, k, n);
    ReachesAlike(cut, lines, k, c, ws[k], ws[c], n);
  }

  lemma LiftIs(ws: seq<nat>, bound: nat, a: Option<nat>, c: nat)
    requires Ascending(ws, bound) && c < |ws| && (a.Some? ==> a.value < |ws|)
    ensures Lift(ws, a) == Some(ws[c]) <==> a == Some(c)
  {
  }

  lemma ReachesAlike(cut: Entries, lines: Entries, k: nat, c: nat, t: nat, d: nat, n: nat)
    requires ParentsFirst(cut) && k < |lines| && c < |lines| && t < |cut| && d < |cut|
    requires Ancestor(ParentsOf(lines), k, n) == Some(c) <==> KeptUp(cut, t, n) == Some(d)
    requires IsMessage(lines[c]) <==> IsMessage(cut[d])
    requires Passes(lines, k, n) <==> PassesKept(cut, t, n)
    ensures ReachesMessageAt(lines, k, c, n) <==> ReachesKept(cut, t, d, n)
  {
    ReachesByPassing(lines, k, c, n);
  }

  /** Step `j` of the climb from `i` is there and is no message. */
  ghost predicate PassesAt(lines: Entries, i: nat, j: nat)
    requires i < |lines|
  {
    var a := Ancestor(ParentsOf(lines), i, j);
    a.Some? && !IsMessage(lines[a.value])
  }

  /** The climb from `i` meets no message in its first `n` steps. */
  ghost predicate Passes(lines: Entries, i: nat, n: nat)
    requires i < |lines|
  {
    forall j: nat :: j < n ==> PassesAt(lines, i, j)
  }

  lemma ReachesByPassing(lines: Entries, i: nat, c: nat, n: nat)
    requires i < |lines|
    ensures ReachesMessageAt(lines, i, c, n)
            <==> Ancestor(ParentsOf(lines), i, n) == Some(c) && IsMessage(lines[c]) && Passes(lines, i, n)
  {
    if ReachesMessageAt(lines, i, c, n) {
      forall j: nat | j < n ensures PassesAt(lines, i, j) { }
    }
    if Passes(lines, i, n) {
      forall j: nat | j < n
        ensures Ancestor(ParentsOf(lines), i, j).Some? && !IsMessage(lines[Ancestor(ParentsOf(lines), i, j).value])
      {
        assert PassesAt(lines, i, j);
      }
    }
  }

  ghost predicate PassesKeptAt(cut: Entries, t: nat, j: nat)
    requires ParentsFirst(cut) && t < |cut|
  {
    var a := KeptUp(cut, t, j);
    a.Some? && !IsMessage(cut[a.value])
  }

  ghost predicate PassesKept(cut: Entries, t: nat, n: nat)
    requires ParentsFirst(cut) && t < |cut|
  {
    forall j: nat :: j < n ==> PassesKeptAt(cut, t, j)
  }

  lemma PassesAlike(cut: Entries, draw: nat -> string, lines: Entries, k: nat, n: nat)
    requires ForkShape(cut, draw, lines) && k < |Select(cut, NotProgress)|
    ensures Passes(lines, k, n) <==> PassesKept(cut, Select(cut, NotProgress)[k], n)
  {
    forall j: nat ensures PassesAt(lines, k, j) <==> PassesKeptAt(cut, Select(cut, NotProgress)[k], j) {
      SameStep(cut, draw, lines, k, j);
    }
  }

  lemma SameStep(cut: Entries, draw: nat -> string, lines: Entries, k: nat, j: nat)
    requires ForkShape(cut, draw, lines) && k < |Select(cut, NotProgress)|
    ensures PassesAt(lines, k, j) <==> PassesKeptAt(cut, Select(cut, NotProgress)[k], j)
  {
    ForkAncestorAt(cut, draw, lines, k, j);
    var a := Ancestor(ParentsOf(lines), k, j);
    if a.Some? { SameMessage(cut, draw, lines, a.value); }
  }

  lemma NamesParent(lines: Entries, i: nat, k: nat)
    requires DistinctUuids(lines) && i < |lines| && k < |lines| && HasUuid(lines[k])
    ensures Parent(lines[i]) == Uuid(lines[k]) <==> ParentIndex(lines, i) == Some(k)
  {
    DistinctIndex(lines, k);
  }

  lemma ForkTerminal(cut: Entries, draw: nat -> string, lines: Entries, k: nat)
    requires ForkShape(cut, draw, lines) && k < |Select(cut, NotProgress)|
    ensures IsTerminal(lines, k) <==> EndsBranch(cut, Select(cut, NotProgress)[k])
  {
    var ws := Select(cut, NotProgress);
    ForkUuids(cut, draw, lines);
    assert ws[k] in ws;
    if !HasUuid(lines[k]) { return; }
    forall i: nat | i < |lines|
      ensures Parent(lines[i]) == Uuid(lines[k]) <==> i < |ws| && KeptParent(cut, ws[i]) == Some(ws[k])
    {
      NamesParent(lines, i, k);
      ForkParent(cut, draw, lines, i);
    }
    if IsTerminal(lines, k) {
      forall i | 0 <= i < |cut| && NotProgress(cut[i]) ensures KeptParent(cut, i) != Some(ws[k]) {
        assert i in ws;
        var l :| 0 <= l < |ws| && ws[l] == i;
      }
    }
    if EndsBranch(cut, ws[k]) {
      forall i | 0 <= i < |lines| ensures Parent(lines[i]) != Uuid(lines[k]) {
        if i < |ws| { assert ws[i] in ws; }
      }
    }
  }

  lemma TitleReachesNothing(cut: Entries, draw: nat -> string, lines: Entries, c: nat, n: nat)
    requires ForkShape(cut, draw, lines)
    ensures !ReachesMessageAt(lines, |lines| - 1, c, n)
  {
    var t: nat, ps := |lines| - 1, ParentsOf(lines);
    ForkParent(cut, draw, lines, t);
    assert Ancestor(ps, t, 0) == Some(t);
    if n > 0 {
      assert Ancestor(ps, t, 1).None?;
      NoneStaysNone(ps, t, 1, n);
    }
  }

  lemma BranchIsCandidate(cut: Entries, draw: nat -> string, lines: Entries, d: nat)
    requires ForkShape(cut, draw, lines)
    requires d < |Select(cut, NotProgress)| && EndsABranch(cut, Select(cut, NotProgress)[d])
    ensures IsCandidate(lines, d)
  {
    var ws := Select(cut, NotProgress);
    var t: nat, n: nat :| EndsBranch(cut, t) && ReachesKept(cut, t, ws[d], n);
    assert t in ws;
    var k: nat :| k < |ws| && ws[k] == t;
    ForkTerminal(cut, draw, lines, k);
    ForkReaches(cut, draw, lines, k, d, n);
    assert NearestMessage(lines, k, d);
  }

  lemma CandidateIsBranch(cut: Entries, draw: nat -> string, lines: Entries, d: nat)
    requires ForkShape(cut, draw, lines) && IsCandidate(lines, d)
    ensures d < |Select(cut, NotProgress)| && EndsABranch(cut, Select(cut, NotProgress)[d])
  {
    var ws := Select(cut, NotProgress);
    var k: nat :| k < |lines| && IsTerminal(lines, k) && NearestMessage(lines, k, d);
    var n: nat :| ReachesMessageAt(lines, k, d, n);
    if k == |ws| { TitleReachesNothing(cut, draw, lines, d, n); }
    TerminalIsBranch(cut, draw, lines, k, d, n);
  }

  lemma TerminalIsBranch(cut: Entries, draw: nat -> string, lines: Entries, k: nat, d: nat, n: nat)
    requires ForkShape(cut, draw, lines) && k < |Select(cut, NotProgress)|
    requires IsTerminal(lines, k) && ReachesMessageAt(lines, k, d, n)
    ensures d < |Select(cut, NotProgress)| && EndsABranch(cut, Select(cut, NotProgress)[d])
  {
    ForkAncestorAt(cut, draw, lines, k, n);
    ForkTerminal(cut, draw, lines, k);
    ForkReaches(cut, draw, lines, k, d, n);
  }

  /** The candidates of the fork are the messages that end branches, and the
      main ones those that are not meta. */
  lemma ForkCandidate(cut: Entries, draw: nat -> string, lines: Entries, d: nat)
    requires ForkShape(cut, draw, lines)
    ensures var ws := Select(cut, NotProgress);
            && (IsCandidate(lines, d) <==> d < |ws| && EndsABranch(cut, ws[d]))
            && (IsMainCandidate(lines, d) <==> d < |ws| && EndsPlainBranch(cut, ws[d]))
  {
    if IsCandidate(lines, d) { CandidateIsBranch(cut, draw, lines, d); }
    if d < |Select(cut, NotProgress)| {
      SameMessage(cut, draw, lines, d);
      if EndsABranch(cut, Select(cut, NotProgress)[d]) { BranchIsCandidate(cut, draw, lines, d); }
    }
  }

  lemma BranchIsKept(cut: Entries, c: nat) returns (d: nat)
    requires ParentsFirst(cut) && EndsABranch(cut, c)
    ensures d < |Select(cut, NotProgress)| && Select(cut, NotProgress)[d] == c
  {
    assert c in Select(cut, NotProgress);
    d :| 0 <= d < |Select(cut, NotProgress)| && Select(cut, NotProgress)[d] == c;
  }

  lemma PlainBranchesAreCandidates(cut: Entries, draw: nat -> string, lines: Entries)
    requires ForkShape(cut, draw, lines)
    ensures HasMainCandidate(lines) <==> HasPlainBranch(cut)
  {
    if c: nat :| EndsPlainBranch(cut, c) {
      var d := BranchIsKept(cut, c);
      ForkCandidate(cut, draw, lines, d);
    }
    if d: nat :| IsMainCandidate(lines, d) { ForkCandidate(cut, draw, lines, d); }
  }

  // ---------------------------------------------------------------------
  // The exact condition.
  // ---------------------------------------------------------------------

  lemma StoryEndsWith(cut: Entries, m: nat)
    requires ParentsFirst(cut) && m < |cut| && NotProgress(cut[m])
    ensures var kept := DropProgress(cut, Reverse(AncestorsOf(cut, m))); kept != [] && kept[|kept| - 1] == m
  {
    var above := AncestorsOf(cut, m)[1..];
    assert AncestorsOf(cut, m) == [m] + above;
    DropProgressConcat(cut, Reverse(above), [m]);
    assert Reverse([m] + above) == Reverse(above) + [m];
    DropProgressCons(cut, m, []);
    assert [m] + [] == [m];
  }

  lemma OtherLeafTellsAnother(cut: Entries, draw: nat -> string, lines: Entries, m: nat, q: seq<nat>)
    requires ForkShape(cut, draw, lines) && Grounded(cut) && IsLastNamed(cut, m) && IsMeta(cut[m])
    requires HasMainCandidate(lines)
    requires IsConversationPath(lines, q) && forall k :: 0 <= k < |q| ==> q[k] < |lines|
    ensures !Retells(cut, draw, Gather(lines, q), Story(cut, m))
  {
    ForkUuids(cut, draw, lines);
    ForkIsOrdered(cut, draw, lines);
    var k := ForkLastMessage(cut, draw, lines, m);
    if Retells(cut, draw, Gather(lines, q), Story(cut, m)) {
      StoryNamesLast(cut, draw, lines, m, q);
      SameName(cut, draw, lines, m, k, q[|q| - 1]);
      LeafIsLastMessage(lines, k, k);
      assert false;
    }
  }

  lemma StoryNamesLast(cut: Entries, draw: nat -> string, lines: Entries, m: nat, q: seq<nat>)
    requires ParentsFirst(cut) && m < |cut| && NotProgress(cut[m]) && HasUuid(cut[m])
    requires forall k :: 0 <= k < |q| ==> q[k] < |lines|
    requires Retells(cut, draw, Gather(lines, q), Story(cut, m))
    ensures q != [] && Uuid(lines[q[|q| - 1]]) == NewName(cut, draw, Uuid(cut[m]).value)
  {
    StoryEndsWith(cut, m);
    LastNamed(cut, draw, Gather(lines, q), Story(cut, m));
  }

  lemma LastNamed(cut: Entries, draw: nat -> string, copies: Entries, originals: Entries)
    requires Retells(cut, draw, copies, originals) && originals != []
    ensures copies != [] && Uuid(originals[|originals| - 1]).Some?
    ensures Uuid(copies[|copies| - 1]) == NewName(cut, draw, Uuid(originals[|originals| - 1]).value)
  {
    assert RetellsAt(cut, draw, copies, originals, |copies| - 1);
  }

  lemma SameName(cut: Entries, draw: nat -> string, lines: Entries, m: nat, k: nat, leaf: nat)
    requires ForkShape(cut, draw, lines) && m < |cut| && HasUuid(cut[m]) && leaf < |lines|
    requires k < |Select(cut, NotProgress)| && Select(cut, NotProgress)[k] == m
    requires Uuid(lines[leaf]) == Some(draw(DrawnFor(cut, leaf)))
    requires Uuid(lines[leaf]) == NewName(cut, draw, Uuid(cut[m]).value)
    ensures leaf == k
  {
    DistinctIndex(cut, m);
    assert DrawnFor(cut, leaf) == m;
  }

  /** Reading a fork back gives the story of its last message exactly when that
      message is not meta, or no branch of the forked entries ends in a message
      that is not meta. */
  lemma MetaForkExactly(cut: Entries, draw: nat -> string, lines: Entries, m: nat, q: seq<nat>)
    requires ForkShape(cut, draw, lines) && Grounded(cut) && IsLastNamed(cut, m) && IsConversationPath(lines, q)
    ensures forall k :: 0 <= k < |q| ==> q[k] < |lines|
    ensures Retells(cut, draw, Gather(lines, q), Story(cut, m))
            <==> !IsMeta(cut[m]) || !HasPlainBranch(cut)
  {
    PlainBranchesAreCandidates(cut, draw, lines);
    if q != [] { AncestorPathShape(ParentsOf(lines), q); }
    if IsMeta(cut[m]) && HasMainCandidate(lines) {
      OtherLeafTellsAnother(cut, draw, lines, m, q);
    } else {
      ForkRetells(cut, draw, lines, m, q);
    }
  }

  /** The same for a fork of any well-ordered session, wherever it is cut. */
  lemma ForkReadsBackExactly(es: Entries, upTo: Option<string>, i: nat, draw: nat -> string,
                             names: ForkNames, title: string, lines: Entries, q: seq<nat>)
    requires WellOrdered(es) && Injective(draw) && Forks(es, upTo, draw, names, title, lines)
    requires IsLastKept(es, KeptPositions(es, upTo), i)
    requires IsConversationPath(lines, q)
    ensures forall k :: 0 <= k < |q| ==> q[k] < |lines|
    ensures ParentsFirst(ForkSource(es, upTo).value)
    ensures Retells(ForkSource(es, upTo).value, draw, Gather(lines, q), MainStory(es, i))
            <==> !IsMeta(es[i]) || !HasPlainBranch(ForkSource(es, upTo).value)
  {
    var kept := KeptPositions(es, upTo);
    var cut := ForkSource(es, upTo).value;
    SourceIsSelection(es, upTo);
    SelectionIsWellOrdered(es, kept);
    ForkHasShape(cut, lines, draw, names, title);
    var m := LastKeptMessage(es, kept, i);
    SelectionRetold(es, kept, m);
    MetaForkExactly(cut, draw, lines, m, q);
  }

  /** A message and, as another root, a meta message. */
  const TWO_ROOTS: Entries := [
    Obj(map["uuid" := Str("a"), "type" := Str("user")]),
    Obj(map["uuid" := Str("b"), "type" := Str("user"), "isMeta" := Bool(true)])
  ]

  /** Forked at the meta message, it reads back as something else. */
  lemma MetaCanStray(draw: nat -> string, names: ForkNames, title: string, lines: Entries, q: seq<nat>)
    requires Injective(draw) && Forks(TWO_ROOTS, Some("b"), draw, names, title, lines) && IsConversationPath(lines, q)
    ensures ForkSource(TWO_ROOTS, Some("b")) == Ok(TWO_ROOTS) && ParentsFirst(TWO_ROOTS)
    ensures forall k :: 0 <= k < |q| ==> q[k] < |lines|
    ensures !Retells(TWO_ROOTS, draw, Gather(lines, q), Story(TWO_ROOTS, 1))
  {
    TwoRootsShape();
    TwoRootsFork();
    TwoRootsBranch();
    ForkHasShape(TWO_ROOTS, lines, draw, names, title);
    MetaForkExactly(TWO_ROOTS, draw, lines, 1, q);
  }

  lemma TwoRootsFork()
    ensures WellOrdered(TWO_ROOTS) && ForkSource(TWO_ROOTS, Some("b")) == Ok(TWO_ROOTS)
  {
    TwoRootsShape();
    TwoRootsOrdered(TWO_ROOTS);
    ForksWholeAtLast(TWO_ROOTS);
  }

  lemma TwoRootsOrdered(es: Entries)
    requires |es| == 2 && HasUuid(es[0]) && HasUuid(es[1]) && Uuid(es[0]) != Uuid(es[1])
    requires Parent(es[0]).None? && Parent(es[1]).None?
    ensures WellOrdered(es)
  {
    assert Ordered(es);
  }

  lemma TwoRootsShape()
    ensures IsLastNamed(TWO_ROOTS, 1) && IsMeta(TWO_ROOTS[1]) && !IsMeta(TWO_ROOTS[0]) && IsMessage(TWO_ROOTS[0])
    ensures NotProgress(TWO_ROOTS[0]) && NotProgress(TWO_ROOTS[1])
    ensures Parent(TWO_ROOTS[0]).None? && Parent(TWO_ROOTS[1]).None?
    ensures Uuid(TWO_ROOTS[0]) == Some("a") && Uuid(TWO_ROOTS[1]) == Some("b")
    ensures NotSidechain(TWO_ROOTS[0]) && NotSidechain(TWO_ROOTS[1])
  {
    assert "progress"[0] == 'p' && "user"[0] == 'u';
    assert Kind(TWO_ROOTS[0]) == Some("user") && Kind(TWO_ROOTS[1]) == Some("user");
  }

  lemma TwoRootsBranch()
    requires ParentsFirst(TWO_ROOTS)
    ensures HasPlainBranch(TWO_ROOTS)
  {
    TwoRootsShape();
    assert ParentIndex(TWO_ROOTS, 0).None? && ParentIndex(TWO_ROOTS, 1).None?;
    assert EndsBranch(TWO_ROOTS, 0);
    assert ReachesKept(TWO_ROOTS, 0, 0, 0);
    assert EndsPlainBranch(TWO_ROOTS, 0);
  }
}
