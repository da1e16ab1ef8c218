/** Turning a branching, possibly cyclic, `parentUuid` graph into one
    conversation chain. */
module Chain {
  import opened Wrappers
  import opened ParentGraph
  import opened Transcript

  // ---------------------------------------------------------------------
  // Reference definitions: candidates, leaf, chain.
  // ---------------------------------------------------------------------

  /** `c` is the message reached from `i` after `k` non-message entries. */
  ghost predicate ReachesMessageAt(es: Entries, i: nat, c: nat, k: nat)
    requires i < |es|
  {
    var ps := ParentsOf(es);
    && Ancestor(ps, i, k) == Some(c)
    && IsMessage(es[c])
    && forall j: nat :: j < k ==> Ancestor(ps, i, j).Some? && !IsMessage(es[Ancestor(ps, i, j).value])
  }

  /** `c` is the nearest message at or above entry `i`. */
  ghost predicate NearestMessage(es: Entries, i: nat, c: nat)
    requires i < |es|
  {
    exists k: nat :: ReachesMessageAt(es, i, c, k)
  }

  /** No entry names this one as its parent. */
  ghost predicate IsTerminal(es: Entries, t: nat)
    requires t < |es|
  {
    Uuid(es[t]).Some? && forall i :: 0 <= i < |es| ==> Parent(es[i]) != Uuid(es[t])
  }

  ghost predicate IsCandidate(es: Entries, c: nat) {
    exists t :: 0 <= t < |es| && IsTerminal(es, t) && NearestMessage(es, t, c)
  }

  ghost predicate IsMainCandidate(es: Entries, c: nat) {
    IsCandidate(es, c) && c < |es| && IsMain(es[c])
  }

  /** The latest main candidate, or the latest candidate when none is main. */
  ghost predicate IsLeaf(es: Entries, c: nat) {
    && IsCandidate(es, c)
    && if exists d: nat :: IsMainCandidate(es, d)
       then IsMainCandidate(es, c) && forall d: nat :: IsMainCandidate(es, d) ==> d <= c
       else forall d: nat :: IsCandidate(es, d) ==> d <= c
  }

  /** The chain's positions: none when there is no candidate, else the leaf's
      ancestors in chronological order. */
  ghost predicate IsConversationPath(es: Entries, path: seq<nat>) {
    if path == [] then forall c: nat :: !IsCandidate(es, c)
    else IsAncestorPath(ParentsOf(es), path) && IsLeaf(es, path[|path| - 1])
  }

  /** At most one path meets the specification, so it pins the result down. */
  lemma ConversationPathUnique(es: Entries, p: seq<nat>, q: seq<nat>)
    requires IsConversationPath(es, p) && IsConversationPath(es, q)
    ensures p == q
  {
    if p != [] && q != [] {
      AncestorPathUnique(ParentsOf(es), p, q);
    }
  }

  // ---------------------------------------------------------------------
  // Walking: the seen-set detects exactly the walks that never arrive.
  // ---------------------------------------------------------------------

  /** The first ancestors of `i`, starting with `i`; none is a message. */
  ghost predicate IsTrail(es: Entries, i: nat, trail: seq<nat>)
    requires i < |es|
  {
    forall j: nat :: j < |trail| ==>
      trail[j] < |es| && !IsMessage(es[trail[j]]) && Ancestor(ParentsOf(es), i, j) == Some(trail[j])
  }

  lemma CycleNeverArrives(es: Entries, i: nat, trail: seq<nat>, index: nat, c: nat)
    requires i < |es| && IsTrail(es, i, trail)
    requires Ancestor(ParentsOf(es), i, |trail|) == Some(index) && index in trail
    ensures !NearestMessage(es, i, c)
  {
    if NearestMessage(es, i, c) {
      var k: nat :| ReachesMessageAt(es, i, c, k);
      var a: nat :| a < |trail| && trail[a] == index;
      var j := CycleRepeats(ParentsOf(es), i, a, |trail|, k);
      assert false;
    }
  }

  lemma DeadEndNeverArrives(es: Entries, i: nat, trail: seq<nat>, c: nat)
    requires i < |es| && IsTrail(es, i, trail)
    requires Ancestor(ParentsOf(es), i, |trail|).None?
    ensures !NearestMessage(es, i, c)
  {
    if NearestMessage(es, i, c) {
      var l: nat :| ReachesMessageAt(es, i, c, l);
      if l < |trail| { assert false; } else { NoneStaysNone(ParentsOf(es), i, |trail|, l); }
    }
  }

  lemma TrailExtends(es: Entries, i: nat, trail: seq<nat>, index: nat)
    requires i < |es| && IsTrail(es, i, trail)
    requires Ancestor(ParentsOf(es), i, |trail|) == Some(index) && index < |es| && !IsMessage(es[index])
    ensures IsTrail(es, i, trail + [index])
    ensures Ancestor(ParentsOf(es), i, |trail| + 1) == ParentsOf(es)[index]
  {
  }

  lemma ArrivesAt(es: Entries, i: nat, trail: seq<nat>, c: nat)
    requires i < |es| && IsTrail(es, i, trail)
    requires Ancestor(ParentsOf(es), i, |trail|) == Some(c) && IsMessage(es[c])
    ensures NearestMessage(es, i, c)
  {
    assert ReachesMessageAt(es, i, c, |trail|);
  }

  lemma NearestMessageUnique(es: Entries, i: nat, c: nat, d: nat)
    requires i < |es| && NearestMessage(es, i, c) && NearestMessage(es, i, d)
    ensures c == d
  {
    var k: nat :| ReachesMessageAt(es, i, c, k);
    var l: nat :| ReachesMessageAt(es, i, d, l);
    assert k == l;
  }

  // ---------------------------------------------------------------------
  // The builders.
  // ---------------------------------------------------------------------

  ghost predicate IndexesLast(es: Entries, byUuid: map<string, nat>) {
    && (forall u :: u in byUuid <==> LastIndex(es, u).Some?)
    && (forall u :: u in byUuid ==> byUuid[u] == LastIndex(es, u).value)
  }

  lemma IndexOneMore(es: Entries, byUuid: map<string, nat>, i: nat)
    requires i < |es| && IndexesLast(es[..i], byUuid)
    ensures var u := Uuid(es[i]);
            IndexesLast(es[..i + 1], if u.Some? then byUuid[u.value := i] else byUuid)
  {
    assert es[..i + 1][..i] == es[..i];
  }

  method IndexByUuid(es: Entries) returns (byUuid: map<string, nat>)
    ensures IndexesLast(es, byUuid)
  {
    byUuid := map[];
    var i := 0;
    while i < |es|
      invariant 0 <= i <= |es|
      invariant IndexesLast(es[..i], byUuid)
    {
      IndexOneMore(es, byUuid, i);
      if Uuid(es[i]).Some? {
        byUuid := byUuid[Uuid(es[i]).value := i];
      }
      i := i + 1;
    }
    assert es[..i] == es;
  }

  method ReferencedUuids(es: Entries) returns (referenced: set<string>)
    ensures forall u :: u in referenced <==> exists i :: 0 <= i < |es| && Parent(es[i]) == Some(u)
  {
    referenced := {};
    var i := 0;
    while i < |es|
      invariant 0 <= i <= |es|
      invariant forall u :: u in referenced <==> exists j :: 0 <= j < i && Parent(es[j]) == Some(u)
    {
      if Parent(es[i]).Some? {
        referenced := referenced + {Parent(es[i]).value};
      }
      i := i + 1;
    }
  }

  /** One step up through the uuid index. */
  function Up(es: Entries, byUuid: map<string, nat>, index: nat): (r: Option<nat>)
    requires index < |es| && IndexesLast(es, byUuid)
    ensures r == ParentsOf(es)[index]
    ensures r.Some? ==> r.value < |es|
  {
    match Parent(es[index])
    case None => None
    case Some(u) => if u in byUuid then Some(byUuid[u]) else None
  }

  /** Climbs from `start` to the nearest message, giving up on a repeat. */
  method WalkToMessage(es: Entries, byUuid: map<string, nat>, start: nat) returns (r: Option<nat>)
    requires start < |es| && IndexesLast(es, byUuid)
    ensures r.Some? ==> NearestMessage(es, start, r.value)
    ensures r.None? ==> forall c: nat :: !NearestMessage(es, start, c)
  {
    var index := start;
    var seen: set<nat> := {};
    ghost var trail: seq<nat> := [];
    while index !in seen
      invariant index < |es| && Ancestor(ParentsOf(es), start, |trail|) == Some(index)
      invariant IsTrail(es, start, trail)
      invariant forall x :: x in seen <==> x in trail
      decreases Below(|es|) - seen
    {
      assert index in Below(|es|);
      seen := seen + {index};
      if IsMessage(es[index]) {
        ArrivesAt(es, start, trail, index);
        return Some(index);
      }
      TrailExtends(es, start, trail, index);
      trail := trail + [index];
      var up := Up(es, byUuid, index);
      if up.None? {
        forall c: nat ensures !NearestMessage(es, start, c) { DeadEndNeverArrives(es, start, trail, c); }
        return None;
      }
      index := up.value;
    }
    forall c: nat ensures !NearestMessage(es, start, c) { CycleNeverArrives(es, start, trail, index, c); }
    return None;
  }

  /** The loop shared by both builders: climb until a repeat or a dead end,
      then put the entries in chronological order. */
  method ClimbFrom(es: Entries, byUuid: map<string, nat>, leaf: nat) returns (path: seq<nat>)
    requires leaf < |es| && IndexesLast(es, byUuid)
    ensures IsAncestorPath(ParentsOf(es), path) && path[|path| - 1] == leaf
  {
    var index := leaf;
    var seen: set<nat> := {};
    var chain: seq<nat> := [];
    while index !in seen
      invariant Climbing(ParentsOf(es), leaf, chain, index)
      invariant forall x :: x in seen <==> x in chain
      decreases Below(|es|) - seen
    {
      ClimbContinues(ParentsOf(es), leaf, chain, index);
      assert index in Below(|es|);
      seen := seen + {index};
      chain := chain + [index];
      var up := Up(es, byUuid, index);
      if up.None? {
        break;
      }
      index := up.value;
    }
    if !IsClimb(ParentsOf(es), chain) {
      ClimbContinues(ParentsOf(es), leaf, chain, index);
    }
    ReverseTwice(chain);
    path := Reverse(chain);
  }

  /** `candidates` holds what the terminals before `t` lead to. */
  ghost predicate CandidatesBelow(es: Entries, t: nat, candidates: seq<nat>)
    requires t <= |es|
  {
    forall c: nat :: c in candidates <==>
      exists s: nat :: s < t && IsTerminal(es, s) && NearestMessage(es, s, c)
  }

  lemma OneMoreCandidate(es: Entries, t: nat, candidates: seq<nat>, c: nat)
    requires t < |es| && CandidatesBelow(es, t, candidates) && IsTerminal(es, t) && NearestMessage(es, t, c)
    ensures CandidatesBelow(es, t + 1, candidates + [c])
  {
    forall d: nat | NearestMessage(es, t, d) ensures d == c { NearestMessageUnique(es, t, d, c); }
  }

  lemma NoMoreCandidates(es: Entries, t: nat, candidates: seq<nat>)
    requires t < |es| && CandidatesBelow(es, t, candidates)
    requires !IsTerminal(es, t) || forall c: nat :: !NearestMessage(es, t, c)
    ensures CandidatesBelow(es, t + 1, candidates)
  {
  }

  method Candidates(es: Entries, byUuid: map<string, nat>) returns (candidates: seq<nat>)
    requires IndexesLast(es, byUuid)
    ensures forall c: nat :: c in candidates <==> IsCandidate(es, c)
    ensures forall c :: c in candidates ==> c < |es|
  {
    var referenced := ReferencedUuids(es);
    candidates := [];
    var t := 0;
    while t < |es|
      invariant 0 <= t <= |es|
      invariant CandidatesBelow(es, t, candidates)
      invariant forall c :: c in candidates ==> c < |es|
    {
      if Uuid(es[t]).Some? && Uuid(es[t]).value !in referenced {
        assert IsTerminal(es, t);
        var found := WalkToMessage(es, byUuid, t);
        if found.Some? {
          OneMoreCandidate(es, t, candidates, found.value);
          candidates := candidates + [found.value];
        } else {
          NoMoreCandidates(es, t, candidates);
        }
      } else {
        assert !IsTerminal(es, t);
        NoMoreCandidates(es, t, candidates);
      }
      t := t + 1;
    }
  }

  method MaxOf(indices: seq<nat>) returns (r: Option<nat>)
    ensures r.None? <==> indices == []
    ensures r.Some? ==> r.value in indices && forall i :: i in indices ==> i <= r.value
  {
    r := None;
    for k := 0 to |indices|
      invariant r.None? <==> k == 0
      invariant r.Some? ==> r.value in indices[..k] && forall i :: i in indices[..k] ==> i <= r.value
    {
      assert indices[..k + 1] == indices[..k] + [indices[k]];
      if r.None? || r.value <= indices[k] {
        r := Some(indices[k]);
      }
    }
    assert indices[..|indices|] == indices;
  }

  function Mains(es: Entries, candidates: seq<nat>): (r: seq<nat>)
    requires forall c :: c in candidates ==> c < |es|
    ensures forall c :: c in r <==> c in candidates && IsMain(es[c])
  {
    if candidates == [] then []
    else
      assert forall c :: c in candidates[1..] ==> c in candidates;
      assert candidates[0] in candidates;
      var rest := Mains(es, candidates[1..]);
      if IsMain(es[candidates[0]]) then [candidates[0]] + rest else rest
  }

  /** Terminates on every input, cycles included. */
  method BuildConversationChain(es: Entries) returns (chain: Entries, path: seq<nat>)
    ensures IsConversationPath(es, path)
    ensures (forall k :: 0 <= k < |path| ==> path[k] < |es|) && chain == Gather(es, path)
  {
    var byUuid := IndexByUuid(es);
    var candidates := Candidates(es, byUuid);
    var mainLeaves := Mains(es, candidates);
    assert forall d: nat :: IsMainCandidate(es, d) <==> d in mainLeaves;
    var leaf: Option<nat>;
    if mainLeaves == [] {
      leaf := MaxOf(candidates);
    } else {
      leaf := MaxOf(mainLeaves);
      assert IsMainCandidate(es, mainLeaves[0]);
    }
    if leaf.None? {
      chain, path := [], [];
      return;
    }
    assert IsLeaf(es, leaf.value);
    path := ClimbFrom(es, byUuid, leaf.value);
    AncestorPathShape(ParentsOf(es), path);
    chain := Gather(es, path);
  }

  ghost predicate IsLastMessage(es: Entries, m: nat) {
    m < |es| && IsMessage(es[m]) && forall j :: m < j < |es| ==> !IsMessage(es[j])
  }

  /** The ancestors of the last message, in chronological order. */
  ghost predicate IsSubagentPath(es: Entries, path: seq<nat>) {
    if path == [] then forall j :: 0 <= j < |es| ==> !IsMessage(es[j])
    else IsAncestorPath(ParentsOf(es), path) && IsLastMessage(es, path[|path| - 1])
  }

  /** Subagent transcripts are linear: climb from the last message. */
  method BuildSubagentChain(es: Entries) returns (chain: Entries, path: seq<nat>)
    ensures IsSubagentPath(es, path)
    ensures (forall k :: 0 <= k < |path| ==> path[k] < |es|) && chain == Gather(es, path)
  {
    var byUuid := IndexByUuid(es);
    var i := |es|;
    while i > 0
      invariant 0 <= i <= |es|
      invariant forall j :: i <= j < |es| ==> !IsMessage(es[j])
    {
      i := i - 1;
      if IsMessage(es[i]) {
        path := ClimbFrom(es, byUuid, i);
        AncestorPathShape(ParentsOf(es), path);
        chain := Gather(es, path);
        return;
      }
    }
    chain, path := [], [];
  }
}
