/** What a caller reads out of a session, in terms of the JSON fields of its
    entries alone. */
module SessionReading {
  import opened Wrappers
  import opened Json
  import opened ParentGraph
  import opened Transcript
  import opened Chain
  import opened SessionMessages

  // ---------------------------------------------------------------------
  // Reference: the fields of a message, and when a reader is shown it.
  // ---------------------------------------------------------------------

  /** The two kinds of entries that carry a message. */
  ghost predicate Speaks(e: Value) {
    exists kind :: kind in {"user", "assistant"} && Get(e, "type") == Some(Str(kind))
  }

  ghost predicate IsFlagged(e: Value) {
    || Get(e, "isSidechain") == Some(Bool(true))
    || Get(e, "isMeta") == Some(Bool(true))
    || Get(e, "teamName") != None
  }

  /** Entries that speak under their own uuid, without a flag, are shown. */
  ghost predicate IsShown(e: Value) {
    Speaks(e) && !IsFlagged(e) && exists u :: Get(e, "uuid") == Some(Str(u))
  }

  /** The message repeats the entry's kind, uuid and content; content that is
      missing reads as null. */
  ghost predicate Repeats(m: SessionMessage, e: Value, sessionId: string) {
    && Get(e, "type") == Some(Str(m.kind)) && Get(e, "uuid") == Some(Str(m.uuid)) && m.sessionId == sessionId
    && (Get(e, "message") == Some(m.message) || (Get(e, "message").None? && m.message == Null))
  }

  /** `r` holds the messages of the entries at `shown`, in their order. */
  ghost predicate Quotes(chain: Entries, shown: seq<nat>, sessionId: string, r: seq<SessionMessage>) {
    && Ascending(shown, |chain|) && |r| == |shown|
    && (forall i :: 0 <= i < |chain| ==> (i in shown <==> IsShown(chain[i])))
    && forall k :: 0 <= k < |r| ==> Repeats(r[k], chain[shown[k]], sessionId)
  }

  // ---------------------------------------------------------------------
  // Readers are shown exactly the entries above.
  // ---------------------------------------------------------------------

  lemma ShownIsVisible(e: Value)
    ensures IsShown(e) <==> IsVisible(e) && HasUuid(e)
    ensures Speaks(e) <==> IsMessage(e)
  {
  }

  lemma ReadOne(e: Value, sessionId: string)
    ensures var r := ReadMessages([e], sessionId);
            if IsShown(e) then |r| == 1 && Repeats(r[0], e, sessionId) else r == []
  {
    ShownIsVisible(e);
    assert [e][1..] == [];
  }

  lemma {:induction false} ReadSnoc(chain: Entries, e: Value, sessionId: string)
    ensures ReadMessages(chain + [e], sessionId) == ReadMessages(chain, sessionId) + ReadMessages([e], sessionId)
  {
    if chain == [] {
      assert chain + [e] == [e];
    } else {
      ReadSnoc(chain[1..], e, sessionId);
      assert (chain + [e])[1..] == chain[1..] + [e];
    }
  }

  lemma QuotesShown(chain: Entries, e: Value, shown: seq<nat>, sessionId: string, r: seq<SessionMessage>,
                    m: SessionMessage)
    requires Quotes(chain, shown, sessionId, r) && IsShown(e) && Repeats(m, e, sessionId)
    ensures Quotes(chain + [e], shown + [|chain|], sessionId, r + [m])
  {
    var all, idx := chain + [e], shown + [|chain|];
    forall i | 0 <= i < |all| ensures i in idx <==> IsShown(all[i]) {
      if i < |chain| { assert all[i] == chain[i]; } else { assert idx[|shown|] == i; }
    }
    forall k | 0 <= k < |idx| ensures Repeats((r + [m])[k], all[idx[k]], sessionId) {
      if k < |shown| { assert all[shown[k]] == chain[shown[k]]; }
    }
  }

  lemma QuotesHidden(chain: Entries, e: Value, shown: seq<nat>, sessionId: string, r: seq<SessionMessage>)
    requires Quotes(chain, shown, sessionId, r) && !IsShown(e)
    ensures Quotes(chain + [e], shown, sessionId, r)
  {
    var all := chain + [e];
    forall i | 0 <= i < |all| ensures i in shown <==> IsShown(all[i]) {
      if i < |chain| { assert all[i] == chain[i]; }
    }
    forall k | 0 <= k < |shown| ensures Repeats(r[k], all[shown[k]], sessionId) {
      assert all[shown[k]] == chain[shown[k]];
    }
  }

  /** The messages read from a chain are those of its shown entries, in order,
      each with that entry's kind, uuid and content. */
  lemma {:induction false} MessagesOfChain(chain: Entries, sessionId: string) returns (shown: seq<nat>)
    ensures Quotes(chain, shown, sessionId, ReadMessages(chain, sessionId))
  {
    if chain == [] {
      shown := [];
    } else {
      var init, e := chain[..|chain| - 1], chain[|chain| - 1];
      shown := MessagesOfChain(init, sessionId);
      assert chain == init + [e];
      ReadSnoc(init, e, sessionId);
      ReadOne(e, sessionId);
      var r, more := ReadMessages(init, sessionId), ReadMessages([e], sessionId);
      if IsShown(e) {
        QuotesShown(init, e, shown, sessionId, r, more[0]);
        assert more == [more[0]];
        shown := shown + [|init|];
      } else {
        QuotesHidden(init, e, shown, sessionId, r);
        assert r + more == r;
      }
    }
  }

  // ---------------------------------------------------------------------
  // The last reply ends the conversation.
  // ---------------------------------------------------------------------

  /** Whatever came before, a last entry that is shown and that no entry names
      as its parent ends the conversation. */
  lemma LastReplyEnds(es: Entries, u: string, path: seq<nat>)
    requires es != [] && IsShown(es[|es| - 1]) && Get(es[|es| - 1], "uuid") == Some(Str(u))
    requires forall i :: 0 <= i < |es| ==> Get(es[i], "parentUuid") != Some(Str(u))
    requires IsConversationPath(es, path)
    ensures path != [] && path[|path| - 1] == |es| - 1
  {
    var n: nat := |es| - 1;
    ShownIsVisible(es[n]);
    assert IsTerminal(es, n) && ReachesMessageAt(es, n, n, 0);
    assert IsMainCandidate(es, n);
  }

  /** And its message is the last one read. */
  lemma LastReplyIsRead(es: Entries, u: string, path: seq<nat>, sessionId: string)
    requires es != [] && IsShown(es[|es| - 1]) && Get(es[|es| - 1], "uuid") == Some(Str(u))
    requires forall i :: 0 <= i < |es| ==> Get(es[i], "parentUuid") != Some(Str(u))
    requires IsConversationPath(es, path)
    ensures forall k :: 0 <= k < |path| ==> path[k] < |es|
    ensures var r := ReadMessages(Gather(es, path), sessionId);
            r != [] && Repeats(r[|r| - 1], es[|es| - 1], sessionId)
  {
    LastReplyEnds(es, u, path);
    AncestorPathShape(ParentsOf(es), path);
    var chain := Gather(es, path);
    assert chain == chain[..|chain| - 1] + [es[|es| - 1]];
    ReadSnoc(chain[..|chain| - 1], es[|es| - 1], sessionId);
    ReadOne(es[|es| - 1], sessionId);
  }

  // ---------------------------------------------------------------------
  // A session without branches reads in full.
  // ---------------------------------------------------------------------

  /** Entry `i` carries the uuid `us[i]` and names the entry before it as its
      parent; the first one names none. */
  ghost predicate IsLink(es: Entries, us: seq<string>, i: nat)
    requires i < |es| == |us|
  {
    && Get(es[i], "uuid") == Some(Str(us[i]))
    && if i > 0 then Get(es[i], "parentUuid") == Some(Str(us[i - 1]))
       else forall u :: Get(es[i], "parentUuid") != Some(Str(u))
  }

  ghost predicate IsLinear(es: Entries, us: seq<string>) {
    && |us| == |es| && (forall i, j :: 0 <= i < j < |us| ==> us[i] != us[j])
    && forall i :: 0 <= i < |es| ==> IsLink(es, us, i)
  }

  lemma LinearParents(es: Entries, us: seq<string>)
    requires IsLinear(es, us)
    ensures forall i :: 0 <= i < |es| ==> ParentIndex(es, i) == if i == 0 then None else Some(i - 1)
    ensures es != [] ==> forall i :: 0 <= i < |es| ==> Get(es[i], "parentUuid") != Some(Str(us[|us| - 1]))
  {
    forall i | 0 <= i < |es| ensures Uuid(es[i]) == Some(us[i]) { assert IsLink(es, us, i); }
    forall i | 0 <= i < |es|
      ensures ParentIndex(es, i) == if i == 0 then None else Some(i - 1)
      ensures Get(es[i], "parentUuid") != Some(Str(us[|us| - 1]))
    {
      assert IsLink(es, us, i);
    }
  }

  /** Climbing from the last of `n` positions that each name the one before. */
  lemma {:induction false} StraightPath(ps: Parents, path: seq<nat>, j: nat)
    requires IsAncestorPath(ps, path) && path[|path| - 1] == |ps| - 1 && j < |path|
    requires forall i :: 0 <= i < |ps| ==> ps[i] == if i == 0 then None else Some(i - 1)
    ensures path[|path| - 1 - j] == |ps| - 1 - j
  {
    AncestorPathShape(ps, path);
    if j > 0 {
      StraightPath(ps, path, j - 1);
      assert ps[path[|path| - j]] == Some(path[|path| - j - 1]);
    }
  }

  lemma StraightPathIsAll(ps: Parents, path: seq<nat>)
    requires IsAncestorPath(ps, path) && path[|path| - 1] == |ps| - 1
    requires forall i :: 0 <= i < |ps| ==> ps[i] == if i == 0 then None else Some(i - 1)
    ensures |path| == |ps| && forall k :: 0 <= k < |path| ==> path[k] == k
  {
    AncestorPathShape(ps, path);
    forall k | 0 <= k < |path| ensures path[k] == |ps| - |path| + k { StraightPath(ps, path, |path| - 1 - k); }
    assert forall k :: 0 <= k < |path| ==> path[k] >= path[0];
  }

  lemma LinearPathIsAll(es: Entries, us: seq<string>, path: seq<nat>)
    requires IsLinear(es, us) && es != [] && IsShown(es[|es| - 1]) && IsConversationPath(es, path)
    ensures |path| == |es| && forall k :: 0 <= k < |path| ==> path[k] == k
  {
    LinearParents(es, us);
    assert IsLink(es, us, |es| - 1);
    LastReplyEnds(es, us[|us| - 1], path);
    LastOnPath(es, path);
    StraightPathIsAll(ParentsOf(es), path);
  }

  lemma LastOnPath(es: Entries, path: seq<nat>)
    requires IsConversationPath(es, path) && path != []
    ensures IsAncestorPath(ParentsOf(es), path)
  {
  }

  /** A session without branches whose last entry is shown reads in full: the
      chain is the transcript, and the messages are those of its shown
      entries. */
  lemma LinearSessionReads(es: Entries, us: seq<string>, path: seq<nat>, sessionId: string)
    returns (shown: seq<nat>)
    requires IsLinear(es, us) && es != [] && IsShown(es[|es| - 1]) && IsConversationPath(es, path)
    ensures |path| == |es| && forall k :: 0 <= k < |path| ==> path[k] == k
    ensures Quotes(es, shown, sessionId, ReadMessages(Gather(es, path), sessionId))
  {
    LinearPathIsAll(es, us, path);
    assert Gather(es, path) == es;
    shown := MessagesOfChain(es, sessionId);
  }

  // ---------------------------------------------------------------------
  // Subagents.
  // ---------------------------------------------------------------------

  /** A subagent's chain ends at the last entry that speaks, whatever its flags
      and whoever names it; there is none exactly when no entry speaks. */
  lemma SubagentEndsAtLastSpeaker(es: Entries, path: seq<nat>)
    requires IsSubagentPath(es, path)
    ensures path == [] <==> forall i :: 0 <= i < |es| ==> !Speaks(es[i])
    ensures path != [] ==>
      var m := path[|path| - 1]; m < |es| && Speaks(es[m]) && forall i :: m < i < |es| ==> !Speaks(es[i])
  {
    forall i | 0 <= i < |es| ensures Speaks(es[i]) <==> IsMessage(es[i]) { ShownIsVisible(es[i]); }
  }
}
