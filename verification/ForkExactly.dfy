/** When the chain of a fork is the renamed chain of its source: both choose
    the same leaf, and dropping sidechains loses only progress entries. */
module ForkExactly {
  import opened Wrappers
  import opened Json
  import opened Transcript
  import opened Chain
  import opened SessionMessages
  import opened ParentGraph
  import opened Fork
  import opened ForkTheorems
  import opened ForkReadBack
  import opened ForkAtMeta

  // ---------------------------------------------------------------------
  // The leaf of a fork, read off what is forked.
  // ---------------------------------------------------------------------

  /** The latest branch end that is not meta, else the latest branch end. */
  ghost predicate IsForkLeaf(cut: Entries, c: nat)
    requires ParentsFirst(cut)
  {
    && EndsABranch(cut, c)
    && if HasPlainBranch(cut)
       then EndsPlainBranch(cut, c) && forall d: nat :: EndsPlainBranch(cut, d) ==> d <= c
       else forall d: nat :: EndsABranch(cut, d) ==> d <= c
  }

  lemma ForkLeaf(cut: Entries, draw: nat -> string, lines: Entries, k: nat)
    requires ForkShape(cut, draw, lines) && k < |Select(cut, NotProgress)|
    ensures IsLeaf(lines, k) <==> IsForkLeaf(cut, Select(cut, NotProgress)[k])
  {
    ForkCandidate(cut, draw, lines, k);
    PlainBranchesAreCandidates(cut, draw, lines);
    LatestBranch(cut, draw, lines, k);
    LatestPlainBranch(cut, draw, lines, k);
  }

  /** Positions and the ascending positions they stand for have corresponding
      latest members. */
  lemma SameLatest(ws: seq<nat>, bound: nat, here: nat -> bool, there: nat -> bool, k: nat)
    requires Ascending(ws, bound) && k < |ws|
    requires forall d: nat :: here(d) <==> d < |ws| && there(ws[d])
    requires forall c: nat :: there(c) ==> c in ws
    ensures (forall d: nat :: here(d) ==> d <= k) <==> (forall c: nat :: there(c) ==> c <= ws[k])
  {
    if forall d: nat :: here(d) ==> d <= k {
      forall c: nat | there(c) ensures c <= ws[k] {
        var d: nat :| d < |ws| && ws[d] == c;
        assert here(d);
      }
    }
  }

  lemma LatestBranch(cut: Entries, draw: nat -> string, lines: Entries, k: nat)
    requires ForkShape(cut, draw, lines) && k < |Select(cut, NotProgress)|
    ensures (forall d: nat :: IsCandidate(lines, d) ==> d <= k)
            <==> (forall c: nat :: EndsABranch(cut, c) ==> c <= Select(cut, NotProgress)[k])
  {
    forall c: nat | EndsABranch(cut, c) ensures c in Select(cut, NotProgress) { var d := BranchIsKept(cut, c); }
    forall d: nat
      ensures IsCandidate(lines, d)
              <==> d < |Select(cut, NotProgress)| && EndsABranch(cut, Select(cut, NotProgress)[d])
    {
      ForkCandidate(cut, draw, lines, d);
    }
    SameLatest(Select(cut, NotProgress), |cut|, (d: nat) => IsCandidate(lines, d), (c: nat) => EndsABranch(cut, c), k);
  }

  lemma LatestPlainBranch(cut: Entries, draw: nat -> string, lines: Entries, k: nat)
    requires ForkShape(cut, draw, lines) && k < |Select(cut, NotProgress)|
    ensures (forall d: nat :: IsMainCandidate(lines, d) ==> d <= k)
            <==> (forall c: nat :: EndsPlainBranch(cut, c) ==> c <= Select(cut, NotProgress)[k])
  {
    forall c: nat | EndsPlainBranch(cut, c) ensures c in Select(cut, NotProgress) { var d := BranchIsKept(cut, c); }
    forall d: nat
      ensures IsMainCandidate(lines, d)
              <==> d < |Select(cut, NotProgress)| && EndsPlainBranch(cut, Select(cut, NotProgress)[d])
    {
      ForkCandidate(cut, draw, lines, d);
    }
    SameLatest(Select(cut, NotProgress), |cut|,
               (d: nat) => IsMainCandidate(lines, d), (c: nat) => EndsPlainBranch(cut, c), k);
  }

  lemma ForkLeafUnique(cut: Entries, c: nat, d: nat)
    requires ParentsFirst(cut) && IsForkLeaf(cut, c) && IsForkLeaf(cut, d)
    ensures c == d
  {
  }

  // ---------------------------------------------------------------------
  // Chains.
  // ---------------------------------------------------------------------

  /** The fork's leaf is made from entry `l` of the source. */
  ghost predicate SameLeaf(es: Entries, upTo: Option<string>, l: nat)
    requires ForkSource(es, upTo).Ok? && ParentsFirst(ForkSource(es, upTo).value)
  {
    exists m: nat :: m < |KeptPositions(es, upTo)| && KeptPositions(es, upTo)[m] == l
                     && IsForkLeaf(ForkSource(es, upTo).value, m)
  }

  /** The fork tells what the source tells along `p`. */
  ghost predicate SameStory(es: Entries, upTo: Option<string>, p: seq<nat>)
    requires ForkSource(es, upTo).Ok? && ParentsFirst(ForkSource(es, upTo).value)
  {
    if p == [] then forall c: nat :: !EndsABranch(ForkSource(es, upTo).value, c)
    else SameLeaf(es, upTo, p[|p| - 1]) && LosesOnlyProgress(es, p)
  }

  lemma MessageHasCandidate(es: Entries, m: nat)
    requires WellOrdered(es) && m < |es| && IsMessage(es[m]) && HasUuid(es[m])
    ensures exists c: nat :: IsCandidate(es, c)
    decreases |es| - m
  {
    if n :| m < n < |es| && IsMessage(es[n]) && HasUuid(es[n]) {
      MessageHasCandidate(es, n);
    } else {
      LastMessageIsCandidate(es, m);
    }
  }

  lemma BranchEndIsNamed(cut: Entries, c: nat)
    requires ParentsFirst(cut) && EndsABranch(cut, c)
    ensures IsMessage(cut[c]) && HasUuid(cut[c])
  {
  }

  /** In a well-ordered session an empty chain is told by an empty one. */
  lemma EmptyTellsEmpty(es: Entries, upTo: Option<string>)
    requires WellOrdered(es) && ForkSource(es, upTo).Ok? && IsConversationPath(es, [])
    ensures ParentsFirst(ForkSource(es, upTo).value) && SameStory(es, upTo, [])
  {
    var cut, kept := ForkSource(es, upTo).value, KeptPositions(es, upTo);
    SourceIsSelection(es, upTo);
    SelectionIsWellOrdered(es, kept);
    forall c: nat ensures !EndsABranch(cut, c) {
      if EndsABranch(cut, c) {
        BranchEndIsNamed(cut, c);
        MessageHasCandidate(es, kept[c]);
      }
    }
  }

  /** What a path of the source looks like. */
  lemma SourcePath(es: Entries, p: seq<nat>)
    requires Ordered(es) && IsConversationPath(es, p) && p != []
    ensures var l := p[|p| - 1]; l < |es| && IsMessage(es[l]) && HasUuid(es[l]) && p == Reverse(AncestorsOf(es, l))
    ensures forall k :: 0 <= k < |p| ==> p[k] < |es|
  {
    CandidateIsMessage(es, p[|p| - 1]);
    PathIsAncestors(es, p, p[|p| - 1]);
  }

  /** The fork tells the main story of the entry its leaf was made from. */
  lemma ForkTellsItsLeaf(es: Entries, upTo: Option<string>, draw: nat -> string, lines: Entries, q: seq<nat>)
    requires Ordered(es) && ForkSource(es, upTo).Ok? && ForkShape(ForkSource(es, upTo).value, draw, lines)
    requires IsConversationPath(lines, q) && q != []
    ensures forall k :: 0 <= k < |q| ==> q[k] < |Select(ForkSource(es, upTo).value, NotProgress)|
    ensures var m := Select(ForkSource(es, upTo).value, NotProgress)[q[|q| - 1]];
            && m < |KeptPositions(es, upTo)| && KeptPositions(es, upTo)[m] < |es|
            && IsForkLeaf(ForkSource(es, upTo).value, m)
            && Retells(ForkSource(es, upTo).value, draw, Gather(lines, q), MainStory(es, KeptPositions(es, upTo)[m]))
  {
    var cut := ForkSource(es, upTo).value;
    SourceIsSelection(es, upTo);
    LeafRetold(cut, draw, lines, q);
    ForkLeaf(cut, draw, lines, q[|q| - 1]);
    SelectionRetold(es, KeptPositions(es, upTo), Select(cut, NotProgress)[q[|q| - 1]]);
  }

  /** Who retells two stories retells stories that end in the same entry. */
  lemma SameEnding(es: Entries, kept: seq<nat>, draw: nat -> string, copies: Entries, m: nat, l: nat)
    requires Ordered(es) && MainSelection(es, kept) && Ordered(Gather(es, kept)) && Injective(draw)
    requires m < |kept| && l < |es| && NotProgress(es[kept[m]]) && NotProgress(es[l])
    requires HasUuid(es[kept[m]]) && HasUuid(es[l])
    requires Retells(Gather(es, kept), draw, copies, MainStory(es, kept[m]))
    requires Retells(Gather(es, kept), draw, copies, Story(es, l))
    ensures kept[m] == l
  {
    var cut := Gather(es, kept);
    SelectionRetold(es, kept, m);
    StoryLast(cut, m);
    StoryLast(es, l);
    LastNamed(cut, draw, copies, Story(cut, m));
    LastNamed(cut, draw, copies, Story(es, l));
    SameNameSameEntry(es, kept, draw, m, l);
  }

  lemma StoryLast(es: Entries, m: nat)
    requires ParentsFirst(es) && m < |es| && NotProgress(es[m])
    ensures Story(es, m) != [] && Story(es, m)[|Story(es, m)| - 1] == es[m]
  {
    StoryEndsWith(es, m);
  }

  lemma SameNameSameEntry(es: Entries, kept: seq<nat>, draw: nat -> string, m: nat, l: nat)
    requires DistinctUuids(es) && (forall k :: 0 <= k < |kept| ==> kept[k] < |es|) && Injective(draw)
    requires DistinctUuids(Gather(es, kept)) && m < |kept| && l < |es| && HasUuid(es[kept[m]]) && HasUuid(es[l])
    requires NewName(Gather(es, kept), draw, Uuid(es[kept[m]]).value)
             == NewName(Gather(es, kept), draw, Uuid(es[l]).value)
    ensures kept[m] == l
  {
    DistinctIndex(Gather(es, kept), m);
    SelectedName(es, kept, Uuid(es[l]).value);
    DistinctIndex(es, l);
  }

  /** For every session with distinct uuids and parents first, wherever the fork
      is cut: its chain is the renamed source chain without progress entries
      exactly when both end in the same entry and no ancestor but progress
      entries is lost, or both are empty. Entries without a uuid are allowed. */
  lemma ForkTellsTheSame(es: Entries, upTo: Option<string>, draw: nat -> string, names: ForkNames, title: string,
                         lines: Entries, q: seq<nat>, p: seq<nat>)
    requires WellNamed(es) && Injective(draw) && Forks(es, upTo, draw, names, title, lines)
    requires IsConversationPath(lines, q) && IsConversationPath(es, p)
    ensures ParentsFirst(ForkSource(es, upTo).value)
    ensures (forall k :: 0 <= k < |q| ==> q[k] < |lines|) && (forall k :: 0 <= k < |p| ==> p[k] < |es|)
    ensures Retells(ForkSource(es, upTo).value, draw, Gather(lines, q), Gather(es, DropProgress(es, p)))
            <==> SameStory(es, upTo, p)
  {
    var cut := ForkSource(es, upTo).value;
    SourceIsSelection(es, upTo);
    SelectionIsWellOrdered(es, KeptPositions(es, upTo));
    ForkHasShape(cut, lines, draw, names, title);
    if p == [] {
      EmptyOrNot(cut, draw, lines, q);
      if q != [] { LeafRetold(cut, draw, lines, q); }
    } else {
      SourcePath(es, p);
      ForkTellsPath(es, upTo, draw, lines, q, p[|p| - 1]);
    }
  }

  lemma ForkTellsPath(es: Entries, upTo: Option<string>, draw: nat -> string, lines: Entries, q: seq<nat>, l: nat)
    requires Ordered(es) && Injective(draw) && ForkSource(es, upTo).Ok?
    requires ForkShape(ForkSource(es, upTo).value, draw, lines) && IsConversationPath(lines, q)
    requires l < |es| && IsMessage(es[l]) && HasUuid(es[l])
    ensures forall k :: 0 <= k < |q| ==> q[k] < |lines|
    ensures Retells(ForkSource(es, upTo).value, draw, Gather(lines, q), Story(es, l))
            <==> SameLeaf(es, upTo, l) && LosesOnlyProgress(es, Reverse(AncestorsOf(es, l)))
  {
    var cut := ForkSource(es, upTo).value;
    if q == [] {
      EmptyOrNot(cut, draw, lines, q);
      StoryLast(es, l);
    } else {
      ForkTellsItsLeaf(es, upTo, draw, lines, q);
      ForkTellsTheSameLeaf(es, upTo, draw, Gather(lines, q), Select(cut, NotProgress)[q[|q| - 1]], l);
    }
  }

  /** The fork's chain is empty exactly when no branch of what is forked ends
      in a message. */
  lemma EmptyOrNot(cut: Entries, draw: nat -> string, lines: Entries, q: seq<nat>)
    requires ForkShape(cut, draw, lines) && IsConversationPath(lines, q)
    ensures q == [] <==> forall c: nat :: !EndsABranch(cut, c)
  {
    if c: nat :| EndsABranch(cut, c) {
      var d := BranchIsKept(cut, c);
      ForkCandidate(cut, draw, lines, d);
    }
    if q != [] { ForkCandidate(cut, draw, lines, q[|q| - 1]); }
  }

  lemma ForkTellsTheSameLeaf(es: Entries, upTo: Option<string>, draw: nat -> string, copies: Entries, m: nat, l: nat)
    requires Ordered(es) && Injective(draw) && ForkSource(es, upTo).Ok? && Ordered(ForkSource(es, upTo).value)
    requires m < |KeptPositions(es, upTo)| && KeptPositions(es, upTo)[m] < |es|
    requires IsForkLeaf(ForkSource(es, upTo).value, m)
    requires Retells(ForkSource(es, upTo).value, draw, copies, MainStory(es, KeptPositions(es, upTo)[m]))
    requires l < |es| && IsMessage(es[l]) && HasUuid(es[l])
    ensures Retells(ForkSource(es, upTo).value, draw, copies, Story(es, l))
            <==> SameLeaf(es, upTo, l) && LosesOnlyProgress(es, Reverse(AncestorsOf(es, l)))
  {
    var cut, kept := ForkSource(es, upTo).value, KeptPositions(es, upTo);
    SourceIsSelection(es, upTo);
    if SameLeaf(es, upTo, l) {
      var n: nat :| n < |kept| && kept[n] == l && IsForkLeaf(cut, n);
      ForkLeafUnique(cut, m, n);
    }
    BranchEndIsNamed(cut, m);
    if Retells(cut, draw, copies, Story(es, l)) { SameEnding(es, kept, draw, copies, m, l); }
    if kept[m] == l { StoryRetold(cut, draw, copies, es, l); }
  }

  // ---------------------------------------------------------------------
  // The messages a caller reads.
  // ---------------------------------------------------------------------

  /** No message is hidden in the source that its copy would show. */
  ghost predicate HidesNothing(chain: Entries) {
    forall k :: 0 <= k < |chain| && IsMessage(chain[k]) && !IsMeta(chain[k]) ==> IsMain(chain[k])
  }

  lemma {:induction false} RenameKeepsLength(cut: Entries, draw: nat -> string, forked: string, ms: seq<SessionMessage>)
    ensures |RenameMessages(cut, draw, forked, ms)| == |ms|
  {
    if ms != [] { RenameKeepsLength(cut, draw, forked, ms[1..]); }
  }

  lemma {:induction false} CopiesShowMore(cut: Entries, draw: nat -> string, copies: Entries, originals: Entries,
                                          source: string, forked: string)
    requires RetoldContents(cut, draw, copies, originals)
    ensures |ReadMessages(copies, forked)| >= |ReadMessages(originals, source)|
    ensures |ReadMessages(copies, forked)| == |ReadMessages(originals, source)| ==> HidesNothing(originals)
    ensures HidesNothing(originals) ==>
      ReadMessages(copies, forked) == RenameMessages(cut, draw, forked, ReadMessages(originals, source))
  {
    if copies != [] {
      CopiesShowMore(cut, draw, copies[1..], originals[1..], source, forked);
      HidesNothingTail(originals);
      assert IsVisible(copies[0]) <==> IsMessage(originals[0]) && !IsMeta(originals[0]);
    }
  }

  lemma HidesNothingTail(chain: Entries)
    requires chain != []
    ensures HidesNothing(chain)
            <==> HidesNothing(chain[1..]) && (IsMessage(chain[0]) && !IsMeta(chain[0]) ==> IsMain(chain[0]))
  {
    if HidesNothing(chain) {
      forall k | 0 <= k < |chain[1..]| && IsMessage(chain[1..][k]) && !IsMeta(chain[1..][k])
        ensures IsMain(chain[1..][k])
      {
        assert chain[1..][k] == chain[k + 1];
      }
    }
  }

  /** Where the fork's chain is the renamed source chain, its reader sees the
      source's messages renamed exactly when the source hides none of them: the
      fork strips the mark of a team message. */
  lemma ForkShowsTheSame(es: Entries, cut: Entries, draw: nat -> string, copies: Entries, p: seq<nat>,
                         source: string, forked: string)
    requires forall k :: 0 <= k < |p| ==> p[k] < |es|
    requires Retells(cut, draw, copies, Gather(es, DropProgress(es, p)))
    ensures ReadMessages(copies, forked) == RenameMessages(cut, draw, forked, ReadMessages(Gather(es, p), source))
            <==> HidesNothing(Gather(es, p))
  {
    var originals := Gather(es, DropProgress(es, p));
    RetoldContent(cut, draw, copies, originals);
    CopiesShowMore(cut, draw, copies, originals, source, forked);
    RenameKeepsLength(cut, draw, forked, ReadMessages(originals, source));
    ProgressIsInvisible(es, p, source);
    ProgressHidesNothing(es, p);
  }

  lemma HidesNothingCons(es: Entries, i: nat, rest: seq<nat>)
    requires i < |es| && forall k :: 0 <= k < |rest| ==> rest[k] < |es|
    ensures HidesNothing(Gather(es, [i] + rest))
            <==> HidesNothing(Gather(es, rest)) && (IsMessage(es[i]) && !IsMeta(es[i]) ==> IsMain(es[i]))
  {
    HidesNothingTail(Gather(es, [i] + rest));
    assert Gather(es, [i] + rest)[1..] == Gather(es, rest);
  }

  lemma {:induction false} ProgressHidesNothing(es: Entries, p: seq<nat>)
    requires forall k :: 0 <= k < |p| ==> p[k] < |es|
    ensures HidesNothing(Gather(es, DropProgress(es, p))) <==> HidesNothing(Gather(es, p))
  {
    if p != [] {
      var rest := DropProgress(es, p[1..]);
      ProgressHidesNothing(es, p[1..]);
      HidesNothingTail(Gather(es, p));
      assert Gather(es, p)[1..] == Gather(es, p[1..]);
      if !IsProgress(es[p[0]]) { HidesNothingCons(es, p[0], rest); }
    }
  }

  // ---------------------------------------------------------------------
  // Witnesses.
  // ---------------------------------------------------------------------

  /** A message and, as another root, a later team message. */
  const TEAM_ROOTS: Entries := [
    Obj(map["uuid" := Str("a"), "type" := Str("user")]),
    Obj(map["uuid" := Str("b"), "type" := Str("user"), "teamName" := Str("t")])
  ]

  lemma TeamRootsFields()
    ensures Uuid(TEAM_ROOTS[0]) == Some("a") && Uuid(TEAM_ROOTS[1]) == Some("b")
    ensures Parent(TEAM_ROOTS[0]).None? && Parent(TEAM_ROOTS[1]).None?
    ensures IsMessage(TEAM_ROOTS[0]) && IsMessage(TEAM_ROOTS[1])
    ensures IsMain(TEAM_ROOTS[0]) && !IsMain(TEAM_ROOTS[1]) && !IsMeta(TEAM_ROOTS[1])
    ensures NotSidechain(TEAM_ROOTS[0]) && NotSidechain(TEAM_ROOTS[1])
  {
  }

  /** In a transcript of two roots, one main and one not, the source ends in
      the first and the fork in the second. */
  lemma RootsDisagree(es: Entries, p: seq<nat>)
    requires |es| == 2 && Uuid(es[0]).Some? && Uuid(es[1]).Some? && Uuid(es[0]) != Uuid(es[1])
    requires Parent(es[0]).None? && Parent(es[1]).None? && IsMessage(es[0]) && IsMessage(es[1])
    requires IsMain(es[0]) && !IsMain(es[1]) && !IsMeta(es[1]) && !IsSidechain(es[1])
    requires IsConversationPath(es, p)
    ensures WellOrdered(es) && ForkSource(es, None) == Ok(es)
    ensures p != [] && p[|p| - 1] == 0 && !SameStory(es, None, p)
  {
    RootIsCandidate(es, 0);
    TwoRootsOrdered(es);
    ForksWhole(es, 0);
    RootsForkLast(es);
    FirstRootIsLeaf(es, p);
  }

  lemma FirstRootIsLeaf(es: Entries, p: seq<nat>)
    requires |es| == 2 && IsMainCandidate(es, 0) && !IsMain(es[1]) && IsConversationPath(es, p)
    ensures p != [] && p[|p| - 1] == 0
  {
  }

  lemma RootsForkLast(es: Entries)
    requires |es| == 2 && ParentsFirst(es) && Parent(es[0]).None? && Parent(es[1]).None?
    requires IsMessage(es[1]) && HasUuid(es[1]) && !IsMeta(es[1])
    ensures !IsForkLeaf(es, 0)
  {
    assert ParentIndex(es, 0).None? && ParentIndex(es, 1).None?;
    RootEndsBranch(es, 1);
    assert EndsPlainBranch(es, 1);
  }

  lemma RootEndsBranch(cut: Entries, c: nat)
    requires ParentsFirst(cut) && c < |cut| && IsMessage(cut[c]) && HasUuid(cut[c])
    requires forall i :: 0 <= i < |cut| ==> KeptParent(cut, i).None?
    ensures EndsABranch(cut, c)
  {
    assert EndsBranch(cut, c) && ReachesKept(cut, c, c, 0);
  }

  lemma RootIsCandidate(es: Entries, c: nat)
    requires c < |es| && Uuid(es[c]).Some? && IsMessage(es[c]) && forall i :: 0 <= i < |es| ==> Parent(es[i]).None?
    ensures IsCandidate(es, c)
  {
    assert ReachesMessageAt(es, c, c, 0);
    assert NearestMessage(es, c, c) && IsTerminal(es, c);
  }

  /** The source's conversation ends in the message, the fork's in the team
      message, so a full fork does not commute with chain building. */
  lemma TeamMessageStrays(draw: nat -> string, names: ForkNames, title: string, lines: Entries, q: seq<nat>,
                          p: seq<nat>)
    requires Injective(draw) && Forks(TEAM_ROOTS, None, draw, names, title, lines)
    requires IsConversationPath(lines, q) && IsConversationPath(TEAM_ROOTS, p)
    ensures p != [] && p[|p| - 1] == 0
    ensures (forall k :: 0 <= k < |q| ==> q[k] < |lines|) && (forall k :: 0 <= k < |p| ==> p[k] < 2)
    ensures !Retells(TEAM_ROOTS, draw, Gather(lines, q), Gather(TEAM_ROOTS, DropProgress(TEAM_ROOTS, p)))
  {
    TeamRootsFields();
    RootsDisagree(TEAM_ROOTS, p);
    ForkTellsTheSame(TEAM_ROOTS, None, draw, names, title, lines, q, p);
  }

  /** A message and a team message in reply to it. */
  const TEAM_REPLY: Entries := [
    Obj(map["uuid" := Str("s"), "type" := Str("user")]),
    Obj(map["uuid" := Str("u"), "type" := Str("user"), "parentUuid" := Str("s"), "teamName" := Str("t")])
  ]

  lemma TeamReplyFields()
    ensures Uuid(TEAM_REPLY[0]) == Some("s") && Uuid(TEAM_REPLY[1]) == Some("u")
    ensures Parent(TEAM_REPLY[0]).None? && Parent(TEAM_REPLY[1]) == Some("s")
    ensures IsMessage(TEAM_REPLY[0]) && IsMessage(TEAM_REPLY[1])
    ensures IsMain(TEAM_REPLY[0]) && !IsMain(TEAM_REPLY[1]) && !IsMeta(TEAM_REPLY[1])
    ensures NotSidechain(TEAM_REPLY[0]) && NotSidechain(TEAM_REPLY[1])
  {
  }

  /** Two entries, the second a message below the first. */
  ghost predicate IsReply(es: Entries) {
    && |es| == 2 && Uuid(es[0]) == Some("s") && Uuid(es[1]) == Some("u")
    && Parent(es[0]).None? && Parent(es[1]) == Some("s") && IsMessage(es[1])
  }

  lemma ReplyPath(es: Entries)
    requires IsReply(es)
    ensures WellOrdered(es) && Reverse(AncestorsOf(es, 1)) == [0, 1]
  {
    BelowPath(es);
  }

  /** Of a message and its reply only the reply is a candidate. */
  lemma ReplyIsLeaf(es: Entries, p: seq<nat>)
    requires IsReply(es) && IsConversationPath(es, p)
    ensures p == [0, 1]
  {
    ReplyPath(es);
    LastMessageIsCandidate(es, 1);
    assert !IsTerminal(es, 0);
    forall c: nat | IsCandidate(es, c) ensures c == 1 { OnlyReply(es, c); }
    PathIsAncestors(es, p, 1);
  }

  lemma OnlyReply(es: Entries, c: nat)
    requires |es| == 2 && !IsTerminal(es, 0) && IsMessage(es[1]) && IsCandidate(es, c)
    ensures c == 1
  {
    assert NearestMessage(es, 1, c);
    assert ReachesMessageAt(es, 1, 1, 0);
    NearestMessageUnique(es, 1, 1, c);
  }

  lemma ReplyStory(es: Entries)
    requires IsReply(es) && ParentsFirst(es) && IsMessage(es[0])
    ensures Story(es, 1) == es
  {
    ReplyPath(es);
    MessageIsKept(es[0]);
    MessageIsKept(es[1]);
    NothingDropped(es);
  }

  lemma ReplyForked(es: Entries, draw: nat -> string, names: ForkNames, title: string, lines: Entries, q: seq<nat>)
    requires IsReply(es) && ParentsFirst(es) && !IsMeta(es[1]) && !IsSidechain(es[0]) && !IsSidechain(es[1])
    requires Injective(draw) && Forks(es, None, draw, names, title, lines) && IsConversationPath(lines, q)
    ensures ForkSource(es, None) == Ok(es)
    ensures forall k :: 0 <= k < |q| ==> q[k] < |lines|
    ensures Retells(es, draw, Gather(lines, q), Story(es, 1))
  {
    ReplyPath(es);
    ForksWhole(es, 1);
    ForkReadsBack(es, None, 1, draw, names, title, lines, q);
    StoryRetold(es, draw, Gather(lines, q), es, 1);
    NoSidechainLosesNothing(es, [0, 1]);
  }

  lemma NoSidechainLosesNothing(es: Entries, p: seq<nat>)
    requires forall i :: 0 <= i < |es| ==> !IsSidechain(es[i])
    ensures LosesOnlyProgress(es, p)
  {
  }

  /** The source shows the message `s` alone, the fork another one too, the copy of `u`. */
  ghost predicate OnlyCopiesShow(es: Entries, draw: nat -> string, names: ForkNames, copies: Entries) {
    var read, shown := ReadMessages(es, names.source), ReadMessages(copies, names.forked);
    && |read| == 1 && read[0].uuid == "s"
    && |shown| == 2 && Some(shown[1].uuid) == NewName(es, draw, "u")
  }

  /** The source's chain is the whole transcript and the fork retells it, but the
      fork's reader sees the reply, which the source hides. */
  lemma TeamReplyShows(draw: nat -> string, names: ForkNames, title: string, lines: Entries, q: seq<nat>,
                       p: seq<nat>)
    requires Injective(draw) && Forks(TEAM_REPLY, None, draw, names, title, lines)
    requires IsConversationPath(lines, q) && IsConversationPath(TEAM_REPLY, p)
    ensures p == [0, 1] && forall k :: 0 <= k < |q| ==> q[k] < |lines|
    ensures Retells(TEAM_REPLY, draw, Gather(lines, q), TEAM_REPLY)
    ensures OnlyCopiesShow(TEAM_REPLY, draw, names, Gather(lines, q))
  {
    TeamReplyFields();
    ReplyRetold(TEAM_REPLY, draw, names, title, lines, q, p);
    HiddenReplyShows(TEAM_REPLY, draw, names, Gather(lines, q));
  }

  lemma ReplyRetold(es: Entries, draw: nat -> string, names: ForkNames, title: string, lines: Entries, q: seq<nat>,
                    p: seq<nat>)
    requires IsReply(es) && IsMessage(es[0]) && !IsMeta(es[1]) && NotSidechain(es[0]) && NotSidechain(es[1])
    requires Injective(draw) && Forks(es, None, draw, names, title, lines)
    requires IsConversationPath(lines, q) && IsConversationPath(es, p)
    ensures p == [0, 1] && forall k :: 0 <= k < |q| ==> q[k] < |lines|
    ensures Retells(es, draw, Gather(lines, q), es)
  {
    ReplyPath(es);
    ReplyIsLeaf(es, p);
    ReplyForked(es, draw, names, title, lines, q);
    ReplyStory(es);
  }

  lemma HiddenReplyShows(es: Entries, draw: nat -> string, names: ForkNames, copies: Entries)
    requires IsReply(es) && IsMessage(es[0]) && IsMain(es[0]) && !IsMain(es[1]) && !IsMeta(es[1])
    requires Retells(es, draw, copies, es)
    ensures OnlyCopiesShow(es, draw, names, copies)
  {
    RetoldContent(es, draw, copies, es);
    assert RetellsAt(es, draw, copies, es, 0) && RetellsAt(es, draw, copies, es, 1);
    ReadTwo(es, names.source);
    ReadTwo(copies, names.forked);
  }

  lemma MessageIsKept(e: Value)
    requires IsMessage(e)
    ensures NotProgress(e)
  {
    assert "user"[0] != "progress"[0] && "assistant"[0] != "progress"[0];
  }

  lemma NothingDropped(es: Entries)
    requires |es| == 2 && NotProgress(es[0]) && NotProgress(es[1])
    ensures DropProgress(es, [0, 1]) == [0, 1]
  {
    assert [0, 1][1..] == [1] && [1][1..] == [];
    assert DropProgress(es, [1]) == [1] + DropProgress(es, []);
  }

  lemma ReadTwo(es: Entries, sessionId: string)
    requires |es| == 2 && forall k :: 0 <= k < 2 ==> IsMessage(es[k]) && Uuid(es[k]).Some?
    ensures ReadMessages(es, sessionId) == ReadMessages([es[0]], sessionId) + ReadMessages([es[1]], sessionId)
    ensures forall k :: 0 <= k < 2 ==>
              ReadMessages([es[k]], sessionId)
              == if IsMain(es[k]) then [ToMessage(es[k], sessionId).value] else []
  {
    assert es[1..] == [es[1]];
  }

  /** A message and an entry below it that carries no uuid and is progress. */
  const UNNAMED_PROGRESS: Entries := [
    Obj(map["uuid" := Str("u"), "type" := Str("user")]),
    Obj(map["type" := Str("progress"), "parentUuid" := Str("u")])
  ]

  lemma UnnamedProgressFields()
    ensures Uuid(UNNAMED_PROGRESS[0]) == Some("u") && !HasUuid(UNNAMED_PROGRESS[1])
    ensures Parent(UNNAMED_PROGRESS[0]).None? && Parent(UNNAMED_PROGRESS[1]) == Some("u")
    ensures IsMessage(UNNAMED_PROGRESS[0]) && IsProgress(UNNAMED_PROGRESS[1])
    ensures NotSidechain(UNNAMED_PROGRESS[0]) && NotSidechain(UNNAMED_PROGRESS[1])
  {
    assert "u" != "" && "user"[0] != "progress"[0];
  }

  ghost predicate IsUnnamedReply(es: Entries) {
    && |es| == 2 && Uuid(es[0]) == Some("u") && !HasUuid(es[1])
    && Parent(es[0]).None? && Parent(es[1]) == Some("u") && IsMessage(es[0]) && IsProgress(es[1])
    && NotSidechain(es[0]) && NotSidechain(es[1])
  }

  lemma UnnamedHides(es: Entries)
    requires IsUnnamedReply(es)
    ensures WellNamed(es) && NotProgress(es[0])
    ensures EndsABranch(es, 0) && forall c: nat :: !IsCandidate(es, c)
    ensures forall i :: 0 <= i < |es| ==> NotSidechain(es[i])
  {
    assert LastIndex(es[..1], "u") == Some(0) && LastIndex(es, "u") == Some(0);
    assert ParentIndex(es, 0).None? && ParentIndex(es, 1) == Some(0);
    assert Ordered(es);
    assert !IsTerminal(es, 0) && !IsTerminal(es, 1);
    OnlyKeptEndsBranch(es);
  }

  lemma OnlyKeptEndsBranch(es: Entries)
    requires |es| == 2 && ParentsFirst(es) && IsMessage(es[0]) && HasUuid(es[0]) && IsProgress(es[1])
    requires Parent(es[0]).None?
    ensures EndsABranch(es, 0)
  {
    assert EndsBranch(es, 0) && ReachesKept(es, 0, 0, 0);
  }

  /** The progress entry keeps the message from ending a branch of the source,
      whose conversation is empty; the fork drops it and has one. */
  lemma UnnamedProgressStrays(draw: nat -> string, names: ForkNames, title: string, lines: Entries, q: seq<nat>,
                              p: seq<nat>)
    requires Injective(draw) && Forks(UNNAMED_PROGRESS, None, draw, names, title, lines)
    requires IsConversationPath(lines, q) && IsConversationPath(UNNAMED_PROGRESS, p)
    ensures p == [] && q != []
  {
    UnnamedProgressFields();
    UnnamedStrays(UNNAMED_PROGRESS, draw, names, title, lines, q, p);
  }

  lemma UnnamedStrays(es: Entries, draw: nat -> string, names: ForkNames, title: string, lines: Entries,
                      q: seq<nat>, p: seq<nat>)
    requires IsUnnamedReply(es) && Injective(draw) && Forks(es, None, draw, names, title, lines)
    requires IsConversationPath(lines, q) && IsConversationPath(es, p)
    ensures p == [] && q != []
  {
    UnnamedHides(es);
    NoCandidatesNoPath(es, p);
    BranchIsForked(es, 0, draw, names, title, lines, q);
  }

  lemma NoCandidatesNoPath(es: Entries, p: seq<nat>)
    requires IsConversationPath(es, p) && forall c: nat :: !IsCandidate(es, c)
    ensures p == []
  {
  }

  lemma BranchIsForked(es: Entries, c: nat, draw: nat -> string, names: ForkNames, title: string, lines: Entries,
                       q: seq<nat>)
    requires WellNamed(es) && EndsABranch(es, c)
    requires forall i :: 0 <= i < |es| ==> NotSidechain(es[i])
    requires Injective(draw) && Forks(es, None, draw, names, title, lines) && IsConversationPath(lines, q)
    ensures q != []
  {
    BranchEndIsNamed(es, c);
    ForksWhole(es, c);
    ForkHasShape(es, lines, draw, names, title);
    EmptyOrNot(es, draw, lines, q);
  }

  /** A message below a sidechain message. */
  const BELOW_SIDECHAIN: Entries := [
    Obj(map["uuid" := Str("s"), "type" := Str("user"), "isSidechain" := Bool(true)]),
    Obj(map["uuid" := Str("u"), "type" := Str("user"), "parentUuid" := Str("s")])
  ]

  /** The same below a sidechain progress entry. */
  const BELOW_PROGRESS: Entries := [
    Obj(map["uuid" := Str("s"), "type" := Str("progress"), "isSidechain" := Bool(true)]),
    Obj(map["uuid" := Str("u"), "type" := Str("user"), "parentUuid" := Str("s")])
  ]

  lemma BelowPath(es: Entries)
    requires |es| == 2 && Uuid(es[0]) == Some("s") && Uuid(es[1]) == Some("u")
    requires Parent(es[0]).None? && Parent(es[1]) == Some("s")
    ensures WellOrdered(es) && Reverse(AncestorsOf(es, 1)) == [0, 1]
  {
    assert "s" != "u";
    assert LastIndex(es[..1], "s") == Some(0) && LastIndex(es, "s") == Some(0);
    assert ParentIndex(es, 1) == Some(0) && ParentIndex(es, 0).None?;
    assert AncestorsOf(es, 0) == [0] && AncestorsOf(es, 1) == [1] + [0];
    assert Reverse([1, 0]) == [0, 1];
  }

  /** Forked at its message, the first loses an ancestor; the second loses only
      what the fork drops anyway, although it lies below a sidechain too. */
  lemma SidechainsCanCost(draw: nat -> string, names: ForkNames, title: string, lines: Entries, q: seq<nat>,
                          p: seq<nat>, es: Entries)
    requires es == BELOW_SIDECHAIN || es == BELOW_PROGRESS
    requires Injective(draw) && Forks(es, Uuid(es[1]), draw, names, title, lines) && IsConversationPath(lines, q)
    requires IsAncestorPath(ParentsOf(es), p) && p[|p| - 1] == 1
    ensures p == [0, 1] && !OffSidechains(es, p) && ParentsFirst(es) && forall k :: 0 <= k < |q| ==> q[k] < |lines|
    ensures Retells(ForkSource(es, Uuid(es[1])).value, draw, Gather(lines, q), Story(es, 1)) <==> es == BELOW_PROGRESS
  {
    BelowFields(es);
    BelowPath(es);
    BelowLoses(es);
    ForkAtMessage(es, 1, draw, names, title, lines, q, p);
  }

  lemma BelowLoses(es: Entries)
    requires |es| == 2 && IsSidechain(es[0]) && !IsSidechain(es[1])
    ensures LosesOnlyProgress(es, [0, 1]) <==> IsProgress(es[0])
    ensures !OffSidechains(es, [0, 1])
  {
    var p: seq<nat> := [0, 1];
    assert p[0] == 0;
  }

  lemma BelowFields(es: Entries)
    requires es == BELOW_SIDECHAIN || es == BELOW_PROGRESS
    ensures |es| == 2 && Uuid(es[0]) == Some("s") && Uuid(es[1]) == Some("u")
    ensures Parent(es[0]).None? && Parent(es[1]) == Some("s")
    ensures IsSidechain(es[0]) && !IsSidechain(es[1]) && !IsMeta(es[1]) && IsMessage(es[1])
    ensures IsProgress(es[0]) <==> es == BELOW_PROGRESS
  {
    assert "user"[0] != "progress"[0];
  }
}
