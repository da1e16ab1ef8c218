/** What the store holds after any run of operations, whatever the clock does
    and however the entries were batched. */
module StoreTheorems {
  import opened Wrappers
  import opened Transcript
  import opened StorageKeys
  import opened Summary
  import opened SessionStore

  // ---------------------------------------------------------------------
  // Reference: the transcript a history leaves under a key.
  // ---------------------------------------------------------------------

  predicate Covers(deleted: SessionKey, key: SessionKey) {
    key == deleted
    || (deleted.subpath.None? && SessionOf(key) == SessionOf(deleted))
  }

  /** All batches appended to `key` since it was last deleted, in order. */
  function TranscriptAfter(ops: seq<Op>, key: SessionKey): Option<Entries> {
    if ops == [] then None
    else
      var before := TranscriptAfter(ops[..|ops| - 1], key);
      match ops[|ops| - 1]
      case Append(k, batch, _) =>
        if k == key then Some((if before.Some? then before.value else []) + batch) else before
      case Delete(k) => if Covers(k, key) then None else before
      case Clear => None
  }

  predicate SlashFreeOp(op: Op) {
    match op
    case Append(key, _, _) => SlashFree(key)
    case Delete(key) => SlashFree(key)
    case Clear => true
  }

  predicate SlashFreeOps(ops: seq<Op>) {
    forall i :: 0 <= i < |ops| ==> SlashFreeOp(ops[i])
  }

  function MainKey(session: (string, string)): SessionKey {
    SessionKey(session.0, session.1, None)
  }

  // ---------------------------------------------------------------------
  // Transcripts.
  // ---------------------------------------------------------------------

  ghost predicate WellKeyed(sk: string) {
    exists key :: SlashFree(key) && StorageKey(key) == sk
  }

  ghost predicate HoldsTranscripts(s: State, ops: seq<Op>) {
    && (forall sk :: sk in s.entries ==> WellKeyed(sk))
    && (forall key :: SlashFree(key) ==> Stored(s, key) == TranscriptAfter(ops, key))
  }

  lemma AppendKeepsTranscripts(p: Patterns, s: State, ops: seq<Op>, op: Op)
    requires HoldsTranscripts(s, ops) && op.Append? && SlashFreeOp(op)
    ensures HoldsTranscripts(Apply(p, s, op), ops + [op])
  {
    var s', ops' := Apply(p, s, op), ops + [op];
    assert ops'[..|ops|] == ops;
    assert WellKeyed(StorageKey(op.key));
    forall key | SlashFree(key) ensures Stored(s', key) == TranscriptAfter(ops', key) {
      assert Stored(s, key) == TranscriptAfter(ops, key);
      if StorageKey(key) == StorageKey(op.key) { StorageKeyInjective(key, op.key); }
    }
  }

  lemma DeleteKeepsTranscripts(p: Patterns, s: State, ops: seq<Op>, op: Op)
    requires HoldsTranscripts(s, ops) && op.Delete? && SlashFreeOp(op)
    ensures HoldsTranscripts(Apply(p, s, op), ops + [op])
  {
    var s', ops' := Apply(p, s, op), ops + [op];
    assert ops'[..|ops|] == ops;
    forall key | SlashFree(key) ensures Stored(s', key) == TranscriptAfter(ops', key) {
      assert Stored(s, key) == TranscriptAfter(ops, key);
      if StorageKey(key) == StorageKey(op.key) { StorageKeyInjective(key, op.key); }
      PrefixCovers(key, op.key.projectKey, op.key.sessionId);
    }
  }

  lemma ClearKeepsTranscripts(ops: seq<Op>)
    ensures HoldsTranscripts(INIT, ops + [Clear])
  {
  }

  // ---------------------------------------------------------------------
  // Write times.
  // ---------------------------------------------------------------------

  /** Every stored string has one write time, no two the same, none later than
      the last one handed out. */
  ghost predicate HoldsTimes(s: State) {
    && s.mtimes.Keys == s.entries.Keys
    && (forall a :: a in s.mtimes ==> s.mtimes[a] <= s.lastMtime)
    && (forall a, b :: a in s.mtimes && b in s.mtimes && a != b ==> s.mtimes[a] != s.mtimes[b])
  }

  lemma ApplyKeepsTimes(p: Patterns, s: State, op: Op)
    requires HoldsTimes(s)
    ensures HoldsTimes(Apply(p, s, op))
  {
  }

  // ---------------------------------------------------------------------
  // Summaries.
  // ---------------------------------------------------------------------

  /** The summary of a session: the fold of its whole transcript from scratch,
      stamped with the session's write time; none when nothing is stored. */
  ghost predicate SummaryIsFold(p: Patterns, s: State, session: (string, string)) {
    var key := MainKey(session);
    if Stored(s, key).None? then session !in s.summaries
    else
      && session in s.summaries && StorageKey(key) in s.mtimes
      && s.summaries[session]
         == SummaryEntry(session.1, s.mtimes[StorageKey(key)], Fold(p, EMPTY, Stored(s, key).value))
  }

  ghost predicate HoldsSummaries(p: Patterns, s: State) {
    && (forall session :: SlashFree(MainKey(session)) ==> SummaryIsFold(p, s, session))
    && (forall session :: session in s.summaries ==> SlashFree(MainKey(session)))
  }

  lemma AppendKeepsSummaries(p: Patterns, s: State, op: Op)
    requires HoldsSummaries(p, s) && op.Append? && SlashFreeOp(op)
    ensures HoldsSummaries(p, Apply(p, s, op))
  {
    var s' := Apply(p, s, op);
    var own := SessionOf(op.key);
    forall session | SlashFree(MainKey(session)) ensures SummaryIsFold(p, s', session) {
      assert SummaryIsFold(p, s, session);
      var key := MainKey(session);
      if StorageKey(key) == StorageKey(op.key) {
        StorageKeyInjective(key, op.key);
        var held := if Stored(s, key).Some? then Stored(s, key).value else [];
        FoldConcat(p, EMPTY, held, op.batch);
      }
    }
  }

  lemma DeleteKeepsSummaries(p: Patterns, s: State, op: Op)
    requires HoldsSummaries(p, s) && op.Delete? && SlashFreeOp(op)
    ensures HoldsSummaries(p, Apply(p, s, op))
  {
    var s' := Apply(p, s, op);
    forall session | SlashFree(MainKey(session)) ensures SummaryIsFold(p, s', session) {
      assert SummaryIsFold(p, s, session);
      var key := MainKey(session);
      if StorageKey(key) == StorageKey(op.key) { StorageKeyInjective(key, op.key); }
      PrefixCovers(key, op.key.projectKey, op.key.sessionId);
    }
  }

  // ---------------------------------------------------------------------
  // Every run.
  // ---------------------------------------------------------------------

  ghost predicate Faithful(p: Patterns, s: State, ops: seq<Op>) {
    HoldsTranscripts(s, ops) && HoldsTimes(s) && HoldsSummaries(p, s)
  }

  /** After any run, each transcript is what the history says, each summary is
      the from-scratch fold of its transcript, and no two times coincide. */
  lemma {:induction false} RunIsFaithful(p: Patterns, ops: seq<Op>)
    requires SlashFreeOps(ops)
    ensures Faithful(p, Run(p, ops), ops)
  {
    if ops != [] {
      var init, op := ops[..|ops| - 1], ops[|ops| - 1];
      RunIsFaithful(p, init);
      var s := Run(p, init);
      assert ops == init + [op];
      assert SlashFreeOp(op);
      ApplyKeepsTimes(p, s, op);
      match op
      case Append(_, _, _) => AppendKeepsTranscripts(p, s, init, op); AppendKeepsSummaries(p, s, op);
      case Delete(_) => DeleteKeepsTranscripts(p, s, init, op); DeleteKeepsSummaries(p, s, op);
      case Clear => ClearKeepsTranscripts(init);
    }
  }

  /** Histories that leave the same transcripts leave the same summaries, up
      to their times: batching and timing do not show. */
  lemma BatchingDoesNotShow(p: Patterns, a: seq<Op>, b: seq<Op>, session: (string, string))
    requires SlashFreeOps(a) && SlashFreeOps(b) && SlashFree(MainKey(session))
    requires TranscriptAfter(a, MainKey(session)) == TranscriptAfter(b, MainKey(session))
    ensures var x, y := Lookup(Run(p, a).summaries, session), Lookup(Run(p, b).summaries, session);
            x.Some? == y.Some? && (x.Some? ==> x.value.(mtime := 0) == y.value.(mtime := 0))
  {
    RunIsFaithful(p, a);
    RunIsFaithful(p, b);
    assert SummaryIsFold(p, Run(p, a), session) && SummaryIsFold(p, Run(p, b), session);
  }

  /** Times outrun the clock by at most one per append, so they stay in 64
      bits for every run shorter than the clock's distance to the limit. */
  lemma {:induction false} ClockBound(p: Patterns, ops: seq<Op>, bound: int)
    requires bound >= 0 && forall i :: 0 <= i < |ops| && ops[i].Append? ==> ops[i].now <= bound
    ensures 0 <= Run(p, ops).lastMtime <= bound + |ops|
  {
    if ops != [] {
      ClockBound(p, ops[..|ops| - 1], bound);
      var op := ops[|ops| - 1];
    }
  }

  // ---------------------------------------------------------------------
  // What the listings and a deletion show, in terms of sessions.
  // ---------------------------------------------------------------------

  /** `list_sessions` names exactly the sessions that hold a main transcript. */
  lemma ListedSessions(p: Patterns, ops: seq<Op>, projectKey: string, r: seq<ListEntry>, sessionId: string)
    requires SlashFreeOps(ops) && '/' !in projectKey && Lists(r, Run(p, ops), projectKey)
    ensures (exists e :: e in r && e.sessionId == sessionId)
            <==> '/' !in sessionId && TranscriptAfter(ops, MainKey((projectKey, sessionId))).Some?
  {
    RunIsFaithful(p, ops);
    var s, key := Run(p, ops), MainKey((projectKey, sessionId));
    assert StorageKey(key) == projectKey + "/" + sessionId;
    if '/' !in sessionId {
      assert Stored(s, key) == TranscriptAfter(ops, key);
      if StorageKey(key) in s.mtimes {
        assert ListEntry(sessionId, s.mtimes[StorageKey(key)]) in r;
      }
    }
  }

  /** `list_subkeys` names exactly the session's subpath transcripts. */
  lemma ListedSubkeys(p: Patterns, ops: seq<Op>, projectKey: string, sessionId: string, sub: string)
    requires SlashFreeOps(ops) && '/' !in projectKey && '/' !in sessionId
    ensures SessionPrefix(projectKey, sessionId) + sub in Run(p, ops).entries
            <==> TranscriptAfter(ops, SessionKey(projectKey, sessionId, Some(sub))).Some?
  {
    RunIsFaithful(p, ops);
    var key := SessionKey(projectKey, sessionId, Some(sub));
    assert SessionPrefix(projectKey, sessionId) + sub == StorageKey(key);
    assert Stored(Run(p, ops), key) == TranscriptAfter(ops, key);
  }

  /** Deleting a main key removes that session's transcript, its subpath
      transcripts, their times and its summary, and nothing else. */
  lemma DeleteRemovesExactlyTheSession(p: Patterns, ops: seq<Op>, session: (string, string), key: SessionKey)
    requires SlashFreeOps(ops) && SlashFree(MainKey(session)) && SlashFree(key)
    ensures var before, after := Run(p, ops), Deleted(Run(p, ops), MainKey(session));
            && (if SessionOf(key) == session
                then Stored(after, key).None? && StorageKey(key) !in after.mtimes
                else Stored(after, key) == Stored(before, key)
                     && Lookup(after.mtimes, StorageKey(key)) == Lookup(before.mtimes, StorageKey(key)))
            && after.summaries == before.summaries - {session}
  {
    RunIsFaithful(p, ops);
    var main := MainKey(session);
    if StorageKey(key) == StorageKey(main) { StorageKeyInjective(key, main); }
    PrefixCovers(key, session.0, session.1);
  }
}
