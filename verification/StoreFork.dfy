/** Forking a session inside the store, and reading both sessions there. */
module StoreFork {
  import opened Wrappers
  import opened Transcript
  import opened Chain
  import opened StorageKeys
  import opened Summary
  import opened SessionMessages
  import opened SessionStore
  import opened StoreTheorems
  import opened Fork
  import opened ForkTheorems
  import opened ForkReadBack
  import opened ForkExactly
  import opened Listing

  datatype SessionError = InvalidSessionId(id: string) | NotForked(error: ForkError)

  /** The title a fork derives from its source. Unlike the listing it does not
      skip empty texts. */
  function DerivedTitle(p: Patterns, es: Entries): Option<string> {
    var data := Fold(p, EMPTY, es);
    if data.customTitle.Some? then data.customTitle
    else if data.aiTitle.Some? then data.aiTitle
    else data.firstPrompt
  }

  /** A session never written forks like an empty one. */
  function Held(s: State, session: (string, string)): Entries {
    SessionStore.Held(s.entries, StorageKey(MainKey(session)))
  }

  method ForkSessionViaStore(store: InMemorySessionStore, isValidId: bool, projectKey: string, names: ForkNames,
                             upTo: Option<string>, title: Option<string>, draw: nat -> string, now: int)
    returns (r: Result<string, SessionError>)
    requires store.Valid()
    requires var source := ForkSource(Held(store.View(), (projectKey, names.source)), upTo);
             source.Ok? ==> ClimbsEnd(source.value)
    modifies store
    ensures store.Valid()
    ensures r.Err? ==> store.View() == old(store.View()) && store.history == old(store.history)
    ensures !isValidId ==> r == Err(InvalidSessionId(names.source))
    ensures isValidId ==>
      var es := Held(old(store.View()), (projectKey, names.source));
      match ForkSource(es, upTo)
      case Err(error) => r == Err(NotForked(error))
      case Ok(_) =>
        && r == Ok(names.forked)
        && exists lines ::
             && Forks(es, upTo, draw, names, ForkTitle(title, DerivedTitle(store.patterns, es)), lines)
             && store.history == old(store.history) + [Op.Append(MainKey((projectKey, names.forked)), lines, now)]
  {
    if !isValidId {
      return Err(InvalidSessionId(names.source));
    }
    var loaded := store.Load(MainKey((projectKey, names.source)));
    var es := if loaded.Some? then loaded.value else [];
    assert es == Held(store.View(), (projectKey, names.source));
    var lines := BuildFork(store.patterns, es, names, upTo, title, draw);
    if lines.Err? {
      return Err(NotForked(lines.error));
    }
    store.Append(MainKey((projectKey, names.forked)), lines.value, now);
    return Ok(names.forked);
  }

  method BuildFork(p: Patterns, es: Entries, names: ForkNames, upTo: Option<string>, title: Option<string>,
                   draw: nat -> string)
    returns (r: Result<Entries, ForkError>)
    requires ForkSource(es, upTo).Ok? ==> ClimbsEnd(ForkSource(es, upTo).value)
    ensures match ForkSource(es, upTo)
            case Err(error) => r == Err(error)
            case Ok(_) => r.Ok? && Forks(es, upTo, draw, names, ForkTitle(title, DerivedTitle(p, es)), r.value)
  {
    var summary := FoldSessionSummary(p, None, names.source, es);
    var data := summary.data;
    var derived := if data.customTitle.Some? then data.customTitle
                   else if data.aiTitle.Some? then data.aiTitle
                   else data.firstPrompt;
    r := BuildForkLines(es, names, upTo, title, derived, draw);
  }

  /** `r` is a page of what the transcript's conversation shows. */
  ghost predicate ShowsConversation(es: Entries, sessionId: string, limit: Option<nat>, offset: nat,
                                    r: seq<SessionMessage>)
  {
    exists path :: IsConversationPath(es, path) && (forall k :: 0 <= k < |path| ==> path[k] < |es|)
                   && r == Paginate(ReadMessages(Gather(es, path), sessionId), limit, offset)
  }

  method GetSessionMessagesFromStore(store: InMemorySessionStore, isValidId: bool, projectKey: string,
                                     sessionId: string, limit: Option<nat>, offset: nat)
    returns (r: seq<SessionMessage>)
    ensures var es := Stored(store.View(), MainKey((projectKey, sessionId)));
            if !isValidId || es.None? then r == [] else ShowsConversation(es.value, sessionId, limit, offset, r)
  {
    if !isValidId {
      return [];
    }
    var es := store.Load(MainKey((projectKey, sessionId)));
    if es.None? {
      return [];
    }
    var chain, path := BuildConversationChain(es.value);
    return Paginate(ReadMessages(chain, sessionId), limit, offset);
  }

  // ---------------------------------------------------------------------
  // What the fork leaves in the store.
  // ---------------------------------------------------------------------

  /** A transcript appended under a fresh key is stored there whole, and no
      other transcript changes. */
  lemma FreshAppend(p: Patterns, ops: seq<Op>, key: SessionKey, lines: Entries, now: int, other: SessionKey)
    requires SlashFreeOps(ops) && SlashFree(key) && SlashFree(other)
    requires TranscriptAfter(ops, key).None?
    ensures var after := Run(p, ops + [Op.Append(key, lines, now)]);
            Stored(after, other) == if other == key then Some(lines) else Stored(Run(p, ops), other)
  {
    var op := Op.Append(key, lines, now);
    RunIsFaithful(p, ops);
    assert (ops + [op])[..|ops|] == ops;
    assert SlashFreeOps(ops + [op]);
    RunIsFaithful(p, ops + [op]);
    assert Stored(Run(p, ops), other) == TranscriptAfter(ops, other);
    assert [] + lines == lines;
  }

  /** The forked session's summary carries the title of the fork. */
  lemma ForkIsTitled(p: Patterns, ops: seq<Op>, session: (string, string), names: ForkNames, title: Option<string>,
                     derived: Option<string>, cut: Entries, draw: nat -> string, lines: Entries, now: int)
    requires SlashFreeOps(ops) && SlashFree(MainKey(session)) && TranscriptAfter(ops, MainKey(session)).None?
    requires ClimbsEnd(cut) && IsForkOf(lines, cut, draw, names, ForkTitle(title, derived))
    ensures var after := Run(p, ops + [Op.Append(MainKey(session), lines, now)]);
            && session in after.summaries && after.summaries[session].data.customTitle.Some?
            && IsForkTitle(title, derived, after.summaries[session].data.customTitle.value)
  {
    TitleExactly(title, derived, ForkTitle(title, derived));
    TitleIsSummarized(p, ops, session, names, ForkTitle(title, derived), cut, draw, lines, now);
  }

  lemma TitleIsSummarized(p: Patterns, ops: seq<Op>, session: (string, string), names: ForkNames, title: string,
                          cut: Entries, draw: nat -> string, lines: Entries, now: int)
    requires SlashFreeOps(ops) && SlashFree(MainKey(session)) && TranscriptAfter(ops, MainKey(session)).None?
    requires ClimbsEnd(cut) && IsForkOf(lines, cut, draw, names, title)
    ensures var after := Run(p, ops + [Op.Append(MainKey(session), lines, now)]);
            session in after.summaries && after.summaries[session].data.customTitle == Some(title)
  {
    var all := ops + [Op.Append(MainKey(session), lines, now)];
    assert SlashFreeOps(all);
    RunIsFaithful(p, all);
    FreshAppend(p, ops, MainKey(session), lines, now, MainKey(session));
    assert SummaryIsFold(p, Run(p, all), session);
    TitleEntryFields(names, draw(|cut|), title);
    LastWins(p, lines, title);
  }

  /** Forking a stored session adds one session and changes none. The chain of
      the new one is the renamed chain of the old one exactly when they tell
      the same story, and then its reader sees the same messages exactly when
      the old one hides none. */
  lemma StoreForkReadsTheSame(p: Patterns, ops: seq<Op>, now: int, projectKey: string, names: ForkNames, title: string,
                              upTo: Option<string>, es: Entries, draw: nat -> string, lines: Entries,
                              path: seq<nat>, q: seq<nat>, other: SessionKey)
    requires SlashFreeOps(ops) && '/' !in projectKey && '/' !in names.source && '/' !in names.forked && SlashFree(other)
    requires TranscriptAfter(ops, MainKey((projectKey, names.source))) == Some(es)
    requires TranscriptAfter(ops, MainKey((projectKey, names.forked))).None?
    requires WellNamed(es) && Injective(draw) && Forks(es, upTo, draw, names, title, lines)
    requires IsConversationPath(lines, q) && IsConversationPath(es, path)
    ensures var target := MainKey((projectKey, names.forked));
            var after := Run(p, ops + [Op.Append(target, lines, now)]);
            Stored(after, other) == if other == target then Some(lines) else Stored(Run(p, ops), other)
    ensures ParentsFirst(ForkSource(es, upTo).value)
    ensures (forall k :: 0 <= k < |q| ==> q[k] < |lines|) && (forall k :: 0 <= k < |path| ==> path[k] < |es|)
    ensures Retells(ForkSource(es, upTo).value, draw, Gather(lines, q), Gather(es, DropProgress(es, path)))
            <==> SameStory(es, upTo, path)
    ensures SameStory(es, upTo, path) ==>
      (ReadMessages(Gather(lines, q), names.forked)
       == RenameMessages(ForkSource(es, upTo).value, draw, names.forked, ReadMessages(Gather(es, path), names.source))
       <==> HidesNothing(Gather(es, path)))
  {
    FreshAppend(p, ops, MainKey((projectKey, names.forked)), lines, now, other);
    ForkTellsTheSame(es, upTo, draw, names, title, lines, q, path);
    if SameStory(es, upTo, path) {
      ForkShowsTheSame(es, ForkSource(es, upTo).value, draw, Gather(lines, q), path, names.source, names.forked);
    }
  }

  /** In particular it reads as the old one when that ends in a main message
      and its chain is off sidechains and teams. */
  lemma StoreForkOfMainReadsTheSame(es: Entries, m: nat, draw: nat -> string, names: ForkNames, title: string,
                                    lines: Entries, path: seq<nat>, q: seq<nat>)
    requires WellOrdered(es) && Injective(draw) && Forks(es, None, draw, names, title, lines)
    requires IsLastNamed(es, m) && IsMain(es[m])
    requires IsConversationPath(lines, q) && IsConversationPath(es, path)
    requires forall k :: 0 <= k < |path| && path[k] < |es| ==> !IsSidechain(es[path[k]]) && !InTeam(es[path[k]])
    ensures ParentsFirst(ForkSource(es, None).value) && SameStory(es, None, path)
    ensures (forall k :: 0 <= k < |path| ==> path[k] < |es|) && HidesNothing(Gather(es, path))
  {
    if path != [] { SourcePath(es, path); }
    CleanPath(es, path);
    FullFork(es, m, draw, names, title, lines, q, path);
    ForkTellsTheSame(es, None, draw, names, title, lines, q, path);
  }

  lemma CleanPath(es: Entries, path: seq<nat>)
    requires forall k :: 0 <= k < |path| ==> path[k] < |es| && !IsSidechain(es[path[k]]) && !InTeam(es[path[k]])
    ensures OffSidechains(es, path) && HidesNothing(Gather(es, path))
  {
  }
}
