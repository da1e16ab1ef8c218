/** Listing sessions through the summary index, and by loading every one. */
module Listing {
  import opened Wrappers
  import opened Json
  import opened Transcript
  import opened StorageKeys
  import opened Summary
  import opened SessionStore
  import opened StoreTheorems
  import opened Sorting

  // ---------------------------------------------------------------------
  // What a store answers during one listing of one project.
  // ---------------------------------------------------------------------

  datatype Answer<+T> = Got(value: T) | NotImplemented | Failed(message: string)

  datatype Adapter = Adapter(
    summaries: Answer<seq<SummaryEntry>>,
    sessions: Answer<seq<ListEntry>>,
    load: string -> Answer<Option<Entries>>)

  /** A limit of zero means no limit. */
  function Paginate<T>(items: seq<T>, limit: Option<nat>, offset: nat): (r: seq<T>)
    ensures |r| <= |items|
    ensures forall k :: 0 <= k < |r| ==> offset + k < |items| && r[k] == items[offset + k]
    ensures offset + |r| == |items| || (r == [] && offset > |items|)
            || (limit.Some? && limit.value > 0 && |r| == limit.value && offset + |r| < |items|)
    ensures limit.Some? && limit.value > 0 ==> |r| <= limit.value
  {
    var rest := if offset >= |items| then [] else items[offset..];
    if limit.Some? && 0 < limit.value < |rest| then rest[..limit.value] else rest
  }

  function EntryTime(e: ListEntry): int { e.mtime }

  function InfoTime(i: SessionInfo): int { i.lastModified }

  // ---------------------------------------------------------------------
  // Loading every session.
  // ---------------------------------------------------------------------

  predicate Loads(a: Adapter, id: string) {
    a.load(id).Got? && a.load(id).value.Some?
  }

  /** A failed or empty load counts as an empty transcript here. */
  function Loaded(a: Adapter, id: string): Entries {
    if Loads(a, id) then a.load(id).value.value else []
  }

  function Refold(p: Patterns, a: Adapter, e: ListEntry): SummaryEntry {
    SummaryEntry(e.sessionId, e.mtime, Fold(p, EMPTY, Loaded(a, e.sessionId)))
  }

  function Single<T>(x: Option<T>): seq<T> { if x.Some? then [x.value] else [] }

  /** The results that `f` has on `xs`, in order. */
  function FilterMap<X, Y>(f: X -> Option<Y>, xs: seq<X>): (r: seq<Y>)
    ensures |r| <= |xs|
  {
    if xs == [] then [] else FilterMap(f, xs[..|xs| - 1]) + Single(f(xs[|xs| - 1]))
  }

  lemma {:induction false} FilterMapConcat<X, Y>(f: X -> Option<Y>, xs: seq<X>, ys: seq<X>)
    ensures FilterMap(f, xs + ys) == FilterMap(f, xs) + FilterMap(f, ys)
  {
    if ys == [] {
      assert xs + ys == xs;
    } else {
      assert (xs + ys)[..|xs + ys| - 1] == xs + ys[..|ys| - 1];
      FilterMapConcat(f, xs, ys[..|ys| - 1]);
    }
  }

  lemma FilterMapNext<X, Y>(f: X -> Option<Y>, xs: seq<X>, i: nat, end: nat)
    requires i <= end <= |xs|
    ensures FilterMap(f, xs[..end]) == FilterMap(f, xs[..i]) + FilterMap(f, xs[i..end])
  {
    assert xs[..end] == xs[..i] + xs[i..end];
    FilterMapConcat(f, xs[..i], xs[i..end]);
  }

  lemma {:induction false} FilterMapHolds<X(!new), Y>(f: X -> Option<Y>, xs: seq<X>, y: Y)
    ensures y in FilterMap(f, xs) <==> exists x :: x in xs && f(x) == Some(y)
  {
    if xs != [] {
      FilterMapHolds(f, xs[..|xs| - 1], y);
      assert xs == xs[..|xs| - 1] + [xs[|xs| - 1]];
    }
  }

  lemma {:induction false} FilterMapStrictlyDesc<X(!new), Y(!new)>(f: X -> Option<Y>, xs: seq<X>,
                                                                          xTime: X -> int, yTime: Y -> int)
    requires StrictlyDesc(xs, xTime)
    requires forall x :: x in xs && f(x).Some? ==> yTime(f(x).value) == xTime(x)
    ensures StrictlyDesc(FilterMap(f, xs), yTime)
  {
    if xs != [] {
      var init, last := xs[..|xs| - 1], xs[|xs| - 1];
      FilterMapStrictlyDesc(f, init, xTime, yTime);
      forall y | y in FilterMap(f, init) ensures yTime(y) > xTime(last) {
        FilterMapHolds(f, init, y);
        var x :| x in init && f(x) == Some(y);
        assert xTime(x) > xTime(last);
      }
    }
  }

  /** The information of a listed session, refolded. */
  function InfoOf(p: Patterns, a: Adapter, dir: Option<string>): ListEntry -> Option<SessionInfo> {
    e => ToInfo(Refold(p, a, e), dir)
  }

  function InfosOf(p: Patterns, a: Adapter, dir: Option<string>, es: seq<ListEntry>): seq<SessionInfo> {
    FilterMap(InfoOf(p, a, dir), es)
  }

  lemma InfoKeepsTime(p: Patterns, a: Adapter, dir: Option<string>, e: ListEntry)
    requires InfoOf(p, a, dir)(e).Some?
    ensures InfoOf(p, a, dir)(e).value.sessionId == e.sessionId
    ensures InfoTime(InfoOf(p, a, dir)(e).value) == EntryTime(e)
  {
  }

  lemma InfosStrictlyDesc(p: Patterns, a: Adapter, dir: Option<string>, es: seq<ListEntry>)
    requires StrictlyDesc(es, EntryTime)
    ensures StrictlyDesc(InfosOf(p, a, dir, es), InfoTime)
  {
    forall e | e in es && InfoOf(p, a, dir)(e).Some?
      ensures InfoTime(InfoOf(p, a, dir)(e).value) == EntryTime(e)
    {
      InfoKeepsTime(p, a, dir, e);
    }
    FilterMapStrictlyDesc(InfoOf(p, a, dir), es, EntryTime, InfoTime);
  }

  const LOAD_CONCURRENCY: nat := 16

  /** One chunk of loads, joined in order. */
  method LoadChunk(p: Patterns, a: Adapter, dir: Option<string>, chunk: seq<ListEntry>)
    returns (infos: seq<SessionInfo>)
    ensures infos == InfosOf(p, a, dir, chunk)
  {
    infos := [];
    for i := 0 to |chunk|
      invariant infos == InfosOf(p, a, dir, chunk[..i])
    {
      assert chunk[..i + 1][..i] == chunk[..i];
      var e := chunk[i];
      var summary := FoldSessionSummary(p, None, e.sessionId, Loaded(a, e.sessionId));
      infos := infos + Single(ToInfo(summary.(mtime := e.mtime), dir));
    }
    assert chunk[..|chunk|] == chunk;
  }

  /** Loads chunk by chunk. */
  method LoadPage(p: Patterns, a: Adapter, dir: Option<string>, page: seq<ListEntry>) returns (infos: seq<SessionInfo>)
    ensures infos == InfosOf(p, a, dir, page)
  {
    infos := [];
    var i := 0;
    while i < |page|
      invariant 0 <= i <= |page| && infos == InfosOf(p, a, dir, page[..i])
    {
      var end := if i + LOAD_CONCURRENCY <= |page| then i + LOAD_CONCURRENCY else |page|;
      var loaded := LoadChunk(p, a, dir, page[i..end]);
      FilterMapNext(InfoOf(p, a, dir), page, i, end);
      infos := infos + loaded;
      i := end;
    }
    assert page[..i] == page;
  }

  /** Sorts and paginates before loading. */
  method ListSessionsViaFullLoads(p: Patterns, a: Adapter, dir: Option<string>, limit: Option<nat>, offset: nat)
    returns (r: Result<seq<SessionInfo>, string>)
    ensures a.sessions.Got? ==>
      r == Ok(InfosOf(p, a, dir, Paginate(SortDesc(a.sessions.value, EntryTime), limit, offset)))
    ensures a.sessions.NotImplemented? ==>
      r == Err("store implements neither list_sessions nor list_session_summaries")
    ensures a.sessions.Failed? ==> r == Err(a.sessions.message)
  {
    match a.sessions {
      case NotImplemented => return Err("store implements neither list_sessions nor list_session_summaries");
      case Failed(message) => return Err(message);
      case Got(sessions) =>
        var page := Paginate(SortDesc(sessions, EntryTime), limit, offset);
        var infos := LoadPage(p, a, dir, page);
        return Ok(infos);
    }
  }

  // ---------------------------------------------------------------------
  // Listing through the summaries.
  // ---------------------------------------------------------------------

  type Table = map<string, SummaryEntry>

  /** A later summary or listing of a session replaces an earlier one. */
  function ById(summaries: seq<SummaryEntry>): (table: Table)
    ensures WellKeyed(table)
  {
    if summaries == [] then map[]
    else var last := summaries[|summaries| - 1];
      ById(summaries[..|summaries| - 1])[last.sessionId := last]
  }

  function TimesById(sessions: seq<ListEntry>): map<string, int> {
    if sessions == [] then map[]
    else var last := sessions[|sessions| - 1];
      TimesById(sessions[..|sessions| - 1])[last.sessionId := last.mtime]
  }

  predicate WellKeyed(table: Table) {
    forall id :: id in table ==> table[id].sessionId == id
  }

  /** No summary, or one older than the session's last write. */
  predicate IsStale(known: map<string, int>, base: Table, id: string) {
    id in known && (id !in base || base[id].mtime < known[id])
  }

  function StaleIds(known: map<string, int>, base: Table): set<string> {
    set id | id in known && IsStale(known, base, id)
  }

  /** A stale session whose load fails or finds nothing keeps what it had. */
  function Repair(p: Patterns, a: Adapter, known: map<string, int>, base: Table, ids: set<string>): Table
    requires ids <= known.Keys
  {
    map id | id in base.Keys + ids && (id in base || Loads(a, id)) ::
      if id in ids && Loads(a, id) then Refold(p, a, ListEntry(id, known[id])) else base[id]
  }

  /** Exactly the information of a table's sessions, once each. */
  ghost predicate HoldsInfos(infos: seq<SessionInfo>, table: Table, dir: Option<string>) {
    && (forall x :: x in infos <==> exists id :: id in table && ToInfo(table[id], dir) == Some(x))
    && (forall j, k :: 0 <= j < k < |infos| ==> infos[j].sessionId != infos[k].sessionId)
  }

  ghost function RepairedTable(p: Patterns, a: Adapter): Table
    requires a.summaries.Got?
  {
    var known := if a.sessions.Got? then TimesById(a.sessions.value) else map[];
    var base := ById(a.summaries.value);
    Repair(p, a, known, base, StaleIds(known, base))
  }

  // ---------------------------------------------------------------------
  // Reference: what the path through the summaries lists.
  // ---------------------------------------------------------------------

  /** `s` is the last summary given for the session, if any is. */
  ghost predicate LastSummary(summaries: seq<SummaryEntry>, id: string, s: Option<SummaryEntry>) {
    match s
    case None => forall k :: 0 <= k < |summaries| ==> summaries[k].sessionId != id
    case Some(x) =>
      exists k :: 0 <= k < |summaries| && summaries[k] == x && x.sessionId == id
                  && forall j :: k < j < |summaries| ==> summaries[j].sessionId != id
  }

  /** `time` is the last write time listed for the session, if it is listed. */
  ghost predicate LastTime(sessions: seq<ListEntry>, id: string, time: Option<int>) {
    match time
    case None => forall k :: 0 <= k < |sessions| ==> sessions[k].sessionId != id
    case Some(t) =>
      exists k :: 0 <= k < |sessions| && sessions[k] == ListEntry(id, t)
                  && forall j :: k < j < |sessions| ==> sessions[j].sessionId != id
  }

  /** A listed session without a summary, or with one older than its last write,
      gets the fold of its transcript, when that loads; any other keeps what it
      has. */
  ghost predicate Repairs(p: Patterns, a: Adapter, id: string, s: Option<SummaryEntry>, time: Option<int>,
                          r: Option<SummaryEntry>)
  {
    if time.Some? && (s.None? || s.value.mtime < time.value) && a.load(id).Got? && a.load(id).value.Some?
    then r == Some(SummaryEntry(id, time.value, Fold(p, EMPTY, a.load(id).value.value)))
    else r == s
  }

  /** `x` is the information of a session's repaired summary. */
  ghost predicate IsListed(p: Patterns, a: Adapter, dir: Option<string>, x: SessionInfo)
    requires a.summaries.Got?
  {
    exists s, time, entry ::
      && LastSummary(a.summaries.value, x.sessionId, s)
      && LastTime(if a.sessions.Got? then a.sessions.value else [], x.sessionId, time)
      && Repairs(p, a, x.sessionId, s, time, Some(entry)) && ToInfo(entry, dir) == Some(x)
  }

  lemma {:induction false} ByIdExactly(summaries: seq<SummaryEntry>, id: string, s: Option<SummaryEntry>)
    ensures LastSummary(summaries, id, s) <==> s == Lookup(ById(summaries), id)
  {
    if summaries != [] {
      var init, last := summaries[..|summaries| - 1], summaries[|summaries| - 1];
      ByIdExactly(init, id, s);
      LastSummarySnoc(init, last, id, s);
      assert summaries == init + [last];
    }
  }

  lemma LastSummarySnoc(summaries: seq<SummaryEntry>, last: SummaryEntry, id: string, s: Option<SummaryEntry>)
    ensures LastSummary(summaries + [last], id, s)
            <==> if last.sessionId == id then s == Some(last) else LastSummary(summaries, id, s)
  {
    var all := summaries + [last];
    assert all[|summaries|] == last && forall k :: 0 <= k < |summaries| ==> all[k] == summaries[k];
    if last.sessionId != id && s.Some? && LastSummary(summaries, id, s) {
      var k :| 0 <= k < |summaries| && summaries[k] == s.value
               && forall j :: k < j < |summaries| ==> summaries[j].sessionId != id;
      assert all[k] == s.value;
    }
  }

  lemma {:induction false} TimesExactly(sessions: seq<ListEntry>, id: string, time: Option<int>)
    ensures LastTime(sessions, id, time) <==> time == Lookup(TimesById(sessions), id)
  {
    if sessions != [] {
      var init, last := sessions[..|sessions| - 1], sessions[|sessions| - 1];
      TimesExactly(init, id, time);
      LastTimeSnoc(init, last, id, time);
      assert sessions == init + [last];
    }
  }

  lemma LastTimeSnoc(sessions: seq<ListEntry>, last: ListEntry, id: string, time: Option<int>)
    ensures LastTime(sessions + [last], id, time)
            <==> if last.sessionId == id then time == Some(last.mtime) else LastTime(sessions, id, time)
  {
    var all := sessions + [last];
    assert all[|sessions|] == last && forall k :: 0 <= k < |sessions| ==> all[k] == sessions[k];
    if last.sessionId != id && time.Some? && LastTime(sessions, id, time) {
      var k :| 0 <= k < |sessions| && sessions[k] == ListEntry(id, time.value)
               && forall j :: k < j < |sessions| ==> sessions[j].sessionId != id;
      assert all[k] == ListEntry(id, time.value);
    }
  }

  lemma RepairedExactly(p: Patterns, a: Adapter, id: string, s: Option<SummaryEntry>, time: Option<int>,
                        r: Option<SummaryEntry>)
    requires a.summaries.Got? && LastSummary(a.summaries.value, id, s)
    requires LastTime(if a.sessions.Got? then a.sessions.value else [], id, time)
    ensures Repairs(p, a, id, s, time, r) <==> r == Lookup(RepairedTable(p, a), id)
  {
    ByIdExactly(a.summaries.value, id, s);
    TimesExactly(if a.sessions.Got? then a.sessions.value else [], id, time);
  }

  lemma ListedExactly(p: Patterns, a: Adapter, dir: Option<string>, infos: seq<SessionInfo>, x: SessionInfo)
    requires a.summaries.Got? && HoldsInfos(infos, RepairedTable(p, a), dir)
    ensures x in infos <==> IsListed(p, a, dir, x)
  {
    var id, table := x.sessionId, RepairedTable(p, a);
    var sessions := if a.sessions.Got? then a.sessions.value else [];
    var s, time := Lookup(ById(a.summaries.value), id), Lookup(TimesById(sessions), id);
    ByIdExactly(a.summaries.value, id, s);
    TimesExactly(sessions, id, time);
    forall r ensures Repairs(p, a, id, s, time, r) <==> r == Lookup(table, id) {
      RepairedExactly(p, a, id, s, time, r);
    }
    if x in infos {
      var other :| other in table && ToInfo(table[other], dir) == Some(x);
      assert other == id;
      assert Repairs(p, a, id, s, time, Some(table[id]));
    }
    if IsListed(p, a, dir, x) { ListedInTable(p, a, dir, x); }
  }

  lemma ListedInTable(p: Patterns, a: Adapter, dir: Option<string>, x: SessionInfo)
    requires a.summaries.Got? && IsListed(p, a, dir, x)
    ensures x.sessionId in RepairedTable(p, a) && ToInfo(RepairedTable(p, a)[x.sessionId], dir) == Some(x)
  {
    var mine, listed, entry :|
      && LastSummary(a.summaries.value, x.sessionId, mine)
      && LastTime(if a.sessions.Got? then a.sessions.value else [], x.sessionId, listed)
      && Repairs(p, a, x.sessionId, mine, listed, Some(entry)) && ToInfo(entry, dir) == Some(x);
    RepairedExactly(p, a, x.sessionId, mine, listed, Some(entry));
  }

  method IndexTimes(sessions: seq<ListEntry>) returns (known: map<string, int>)
    ensures known == TimesById(sessions)
  {
    known := map[];
    for i := 0 to |sessions|
      invariant known == TimesById(sessions[..i])
    {
      assert sessions[..i + 1][..i] == sessions[..i];
      known := known[sessions[i].sessionId := sessions[i].mtime];
    }
    assert sessions[..|sessions|] == sessions;
  }

  method IndexSummaries(summaries: seq<SummaryEntry>) returns (byId: Table)
    ensures byId == ById(summaries)
  {
    byId := map[];
    for i := 0 to |summaries|
      invariant byId == ById(summaries[..i])
    {
      assert summaries[..i + 1][..i] == summaries[..i];
      byId := byId[summaries[i].sessionId := summaries[i]];
    }
    assert summaries[..|summaries|] == summaries;
  }

  /** Refolds the stale sessions, in any order. */
  method RepairStale(p: Patterns, a: Adapter, known: map<string, int>, base: Table) returns (byId: Table)
    ensures byId == Repair(p, a, known, base, StaleIds(known, base))
  {
    byId := base;
    var left := StaleIds(known, base);
    ghost var done: set<string> := {};
    while left != {}
      invariant done + left == StaleIds(known, base) && done !! left
      invariant byId == Repair(p, a, known, base, done)
      decreases left
    {
      var id :| id in left;
      ghost var before := byId;
      if Loads(a, id) {
        var summary := FoldSessionSummary(p, None, id, a.load(id).value.value);
        byId := byId[id := summary.(mtime := known[id])];
        assert byId[id] == Refold(p, a, ListEntry(id, known[id]));
      }
      RepairOneMore(p, a, known, base, done, id);
      left, done := left - {id}, done + {id};
    }
    assert done == StaleIds(known, base);
  }

  lemma RepairOneMore(p: Patterns, a: Adapter, known: map<string, int>, base: Table, done: set<string>, id: string)
    requires done <= known.Keys && id in known && id !in done
    ensures Repair(p, a, known, base, done + {id})
            == if Loads(a, id) then Repair(p, a, known, base, done)[id := Refold(p, a, ListEntry(id, known[id]))]
               else Repair(p, a, known, base, done)
  {
  }

  /** The table's values come out in no particular order. */
  method InfosInTable(table: Table, dir: Option<string>) returns (infos: seq<SessionInfo>)
    requires WellKeyed(table)
    ensures HoldsInfos(infos, table, dir)
  {
    infos := [];
    var left := table.Keys;
    while left != {}
      invariant left <= table.Keys
      invariant forall x :: x in infos <==> exists id :: id in table.Keys - left && ToInfo(table[id], dir) == Some(x)
      invariant forall j, k :: 0 <= j < k < |infos| ==> infos[j].sessionId != infos[k].sessionId
      decreases left
    {
      var id :| id in left;
      var info := ToInfo(table[id], dir);
      forall x | x in infos ensures x.sessionId != id {
      }
      infos := infos + Single(info);
      left := left - {id};
    }
  }

  method ListSessionsViaSummaries(p: Patterns, a: Adapter, dir: Option<string>)
    returns (r: Result<seq<SessionInfo>, string>)
    requires a.summaries.Got?
    ensures a.sessions.Failed? ==> r == Err(a.sessions.message)
    ensures !a.sessions.Failed? ==> r.Ok? && HoldsInfos(r.value, RepairedTable(p, a), dir)
    ensures !a.sessions.Failed? ==> forall x :: x in r.value <==> IsListed(p, a, dir, x)
  {
    var known: map<string, int> := map[];
    match a.sessions {
      case Failed(message) => return Err(message);
      case NotImplemented =>
      case Got(sessions) => known := IndexTimes(sessions);
    }
    var byId := IndexSummaries(a.summaries.value);
    byId := RepairStale(p, a, known, byId);
    var infos := InfosInTable(byId, dir);
    forall x ensures x in infos <==> IsListed(p, a, dir, x) { ListedExactly(p, a, dir, infos, x); }
    return Ok(infos);
  }

  // ---------------------------------------------------------------------
  // Both paths.
  // ---------------------------------------------------------------------

  /** What the path through the summaries may return. */
  ghost predicate FastListing(p: Patterns, a: Adapter, dir: Option<string>, limit: Option<nat>, offset: nat,
                              r: seq<SessionInfo>)
    requires a.summaries.Got?
  {
    exists infos ::
      HoldsInfos(infos, RepairedTable(p, a), dir) && r == Paginate(SortDesc(infos, InfoTime), limit, offset)
  }

  /** What full loads return: the page is cut twice. */
  ghost function SlowListing(p: Patterns, a: Adapter, dir: Option<string>, limit: Option<nat>,
                             offset: nat): seq<SessionInfo>
    requires a.sessions.Got?
  {
    var page := Paginate(SortDesc(a.sessions.value, EntryTime), limit, offset);
    Paginate(SortDesc(InfosOf(p, a, dir, page), InfoTime), limit, offset)
  }

  method ListSessionsFromStore(p: Patterns, a: Adapter, dir: Option<string>, limit: Option<nat>, offset: nat)
    returns (r: Result<seq<SessionInfo>, string>)
    ensures r.Ok? <==> !a.summaries.Failed? && (a.sessions.Got? || (a.summaries.Got? && a.sessions.NotImplemented?))
    ensures r.Ok? && a.summaries.Got? ==> FastListing(p, a, dir, limit, offset, r.value)
    ensures r.Ok? && a.summaries.NotImplemented? ==> r.value == SlowListing(p, a, dir, limit, offset)
  {
    var infos: Result<seq<SessionInfo>, string>;
    match a.summaries {
      case Failed(message) => return Err(message);
      case Got(_) => infos := ListSessionsViaSummaries(p, a, dir);
      case NotImplemented => infos := ListSessionsViaFullLoads(p, a, dir, limit, offset);
    }
    if infos.Err? {
      return infos;
    }
    return Ok(Paginate(SortDesc(infos.value, InfoTime), limit, offset));
  }

  // ---------------------------------------------------------------------
  // When stale repair equals refolding everything.
  // ---------------------------------------------------------------------

  function RefoldAll(p: Patterns, a: Adapter, known: map<string, int>): Table {
    map id | id in known :: Refold(p, a, ListEntry(id, known[id]))
  }

  ghost function RefoldedTable(p: Patterns, a: Adapter): Table
    requires a.sessions.Got?
  {
    RefoldAll(p, a, TimesById(a.sessions.value))
  }

  /** Every summary is of a listed session and is its refold, unless it is older
      than the session's last write. */
  ghost predicate Accurate(p: Patterns, a: Adapter, known: map<string, int>, base: Table) {
    forall id :: id in base ==>
      id in known && (base[id].mtime < known[id] || base[id] == Refold(p, a, ListEntry(id, known[id])))
  }

  /** With loads that succeed, repair equals refolding everything exactly when the
      summaries are accurate. */
  lemma RepairIsRefold(p: Patterns, a: Adapter)
    requires a.summaries.Got? && a.sessions.Got?
    requires forall e :: e in a.sessions.value ==> Loads(a, e.sessionId)
    ensures var known, base := TimesById(a.sessions.value), ById(a.summaries.value);
            RepairedTable(p, a) == RefoldedTable(p, a)
            <==> Accurate(p, a, known, base)
  {
    var known, base := TimesById(a.sessions.value), ById(a.summaries.value);
    forall id | id in known ensures Loads(a, id) { TimesByIdHolds(a.sessions.value, id); }
    RepairIsRefoldOf(p, a, known, base);
  }

  lemma RepairIsRefoldOf(p: Patterns, a: Adapter, known: map<string, int>, base: Table)
    requires forall id :: id in known ==> Loads(a, id)
    ensures Repair(p, a, known, base, StaleIds(known, base)) == RefoldAll(p, a, known)
            <==> Accurate(p, a, known, base)
  {
    var repaired, refolded := Repair(p, a, known, base, StaleIds(known, base)), RefoldAll(p, a, known);
    forall id: string ensures id in repaired <==> id in base || id in known { }
    forall id | id in repaired
      ensures repaired[id] == if IsStale(known, base, id) then Refold(p, a, ListEntry(id, known[id])) else base[id]
    {
    }
    if repaired == refolded {
      forall id | id in base
        ensures id in known
        ensures IsStale(known, base, id) || base[id] == Refold(p, a, ListEntry(id, known[id]))
      {
        assert id in repaired;
      }
      assert Accurate(p, a, known, base);
    }
    if Accurate(p, a, known, base) {
      forall id: string ensures id in repaired <==> id in refolded { }
      forall id | id in repaired ensures repaired[id] == refolded[id] { }
      assert repaired == refolded;
    }
  }

  lemma {:induction false} TimesByIdHolds(sessions: seq<ListEntry>, id: string)
    ensures id in TimesById(sessions) <==> exists e :: e in sessions && e.sessionId == id
    ensures id in TimesById(sessions) ==> ListEntry(id, TimesById(sessions)[id]) in sessions
  {
    if sessions != [] {
      var init, last := sessions[..|sessions| - 1], sessions[|sessions| - 1];
      assert sessions == init + [last];
      TimesByIdHolds(init, id);
      if last.sessionId != id && id in TimesById(init) {
        assert ListEntry(id, TimesById(init)[id]) in sessions;
      }
    }
  }

  // ---------------------------------------------------------------------
  // When the two paths return the same list.
  // ---------------------------------------------------------------------

  ghost predicate DistinctSessions(sessions: seq<ListEntry>) {
    forall j, k :: 0 <= j < k < |sessions| ==>
      sessions[j].sessionId != sessions[k].sessionId && EntryTime(sessions[j]) != EntryTime(sessions[k])
  }

  lemma RefoldedInfoHolds(p: Patterns, a: Adapter, dir: Option<string>, x: SessionInfo)
    requires a.sessions.Got? && DistinctSessions(a.sessions.value)
    ensures (exists id :: id in RefoldedTable(p, a) && ToInfo(RefoldedTable(p, a)[id], dir) == Some(x))
            <==> exists e :: e in a.sessions.value && InfoOf(p, a, dir)(e) == Some(x)
  {
    var sessions, table := a.sessions.value, RefoldedTable(p, a);
    if id :| id in table && ToInfo(table[id], dir) == Some(x) {
      TimesByIdHolds(sessions, id);
      assert ListEntry(id, TimesById(sessions)[id]) in sessions;
    }
    if e :| e in sessions && InfoOf(p, a, dir)(e) == Some(x) {
      var id := e.sessionId;
      TimesByIdHolds(sessions, id);
      var f := ListEntry(id, TimesById(sessions)[id]);
      assert f in sessions && f == e;
      assert id in table && table[id] == Refold(p, a, e);
    }
  }

  /** Sorted, the index's information is that of the sorted sessions. */
  lemma IndexListsSortedSessions(p: Patterns, a: Adapter, dir: Option<string>, infos: seq<SessionInfo>)
    requires a.sessions.Got? && DistinctSessions(a.sessions.value)
    requires HoldsInfos(infos, RefoldedTable(p, a), dir)
    ensures SortDesc(infos, InfoTime) == InfosOf(p, a, dir, SortDesc(a.sessions.value, EntryTime))
    ensures StrictlyDesc(SortDesc(infos, InfoTime), InfoTime)
  {
    var sessions := a.sessions.value;
    var sorted := SortDesc(sessions, EntryTime);
    SortDescStrict(sessions, EntryTime);
    InfosStrictlyDesc(p, a, dir, sorted);
    InfoTimesDiffer(p, a, dir, infos);
    SortDescStrict(infos, InfoTime);
    forall x ensures x in SortDesc(infos, InfoTime) <==> x in InfosOf(p, a, dir, sorted) {
      SameElements(infos, InfoTime, x);
      RefoldedInfoHolds(p, a, dir, x);
      FilterMapHolds(InfoOf(p, a, dir), sorted, x);
      forall e ensures e in sorted <==> e in sessions { SameElements(sessions, EntryTime, e); }
    }
    StrictlyDescUnique(SortDesc(infos, InfoTime), InfosOf(p, a, dir, sorted), InfoTime);
  }

  lemma InfoTimesDiffer(p: Patterns, a: Adapter, dir: Option<string>, infos: seq<SessionInfo>)
    requires a.sessions.Got? && DistinctSessions(a.sessions.value)
    requires HoldsInfos(infos, RefoldedTable(p, a), dir)
    ensures forall j, k :: 0 <= j < k < |infos| ==> InfoTime(infos[j]) != InfoTime(infos[k])
  {
    forall j, k | 0 <= j < k < |infos| ensures InfoTime(infos[j]) != InfoTime(infos[k]) {
      var x, y := infos[j], infos[k];
      assert x in infos && y in infos;
      RefoldedInfoHolds(p, a, dir, x);
      RefoldedInfoHolds(p, a, dir, y);
      var e :| e in a.sessions.value && InfoOf(p, a, dir)(e) == Some(x);
      var f :| f in a.sessions.value && InfoOf(p, a, dir)(f) == Some(y);
      InfoKeepsTime(p, a, dir, e);
      InfoKeepsTime(p, a, dir, f);
      assert e != f;
    }
  }

  /** The window of the sorted sessions that full loads read. */
  ghost function Before<T>(xs: seq<T>, offset: nat): seq<T> { if offset >= |xs| then xs else xs[..offset] }

  ghost function After<T>(xs: seq<T>, limit: Option<nat>, offset: nat): seq<T> {
    xs[|Before(xs, offset)| + |Paginate(xs, limit, offset)|..]
  }

  lemma PageSplits<T>(xs: seq<T>, limit: Option<nat>, offset: nat)
    ensures xs == Before(xs, offset) + Paginate(xs, limit, offset) + After(xs, limit, offset)
  {
  }

  /** When a page of a page, skipping what lies before it, is the page of the
      whole. */
  lemma PageTwice<T>(p: seq<T>, m: seq<T>, q: seq<T>, limit: Option<nat>, offset: nat)
    requires forall j, k :: 0 <= j < k < |p + m + q| ==> (p + m + q)[j] != (p + m + q)[k]
    requires |p| <= offset
    requires limit.Some? && limit.value > 0 ==> |m| <= limit.value
    requires limit.None? || limit.value == 0 ==> q == []
    ensures Paginate(m, limit, offset) == Paginate(p + m + q, limit, offset)
            <==> |p + m + q| <= offset
                 || (p == [] && offset < |m| && (q == [] || (offset == 0 && |m| == limit.value)))
  {
    var all := p + m + q;
    var slow, fast := Paginate(m, limit, offset), Paginate(all, limit, offset);
    if offset < |m| {
      assert slow == m[offset..];
      assert slow[0] == all[|p| + offset];
      assert fast[0] == all[offset];
      if p == [] {
        assert fast == slow <==> |fast| == |slow|;
      }
    }
  }

  /** No entry is lost to the two cuts of full loads, by the number of sessions
      with information before, on and after the page of sorted sessions. */
  ghost predicate PagesAgree(before: nat, on: nat, after: nat, limit: Option<nat>, offset: nat) {
    || before + on + after <= offset
    || (before == 0 && offset < on && (after == 0 || (offset == 0 && Some(on) == limit)))
  }

  ghost predicate SameLoads(a: Adapter, b: Adapter) {
    forall id :: a.load(id) == b.load(id)
  }

  /** Where the index equals a refold, the two paths return the same list
      exactly when neither cut of the full loads costs an entry: the one made
      before sessions without information drop out, or the one after. */
  lemma PathsAgree(p: Patterns, fast: Adapter, slow: Adapter, dir: Option<string>, limit: Option<nat>, offset: nat,
                   r: seq<SessionInfo>)
    requires fast.summaries.Got? && fast.sessions.Got? && slow.sessions.Got?
    requires DistinctSessions(fast.sessions.value) && DistinctSessions(slow.sessions.value)
    requires forall e :: e in fast.sessions.value <==> e in slow.sessions.value
    requires SameLoads(fast, slow) && RepairedTable(p, fast) == RefoldedTable(p, fast)
    requires FastListing(p, fast, dir, limit, offset, r)
    ensures StrictlyDesc(r, InfoTime)
    ensures var sorted := SortDesc(slow.sessions.value, EntryTime);
            SlowListing(p, slow, dir, limit, offset) == r
            <==> PagesAgree(|InfosOf(p, slow, dir, Before(sorted, offset))|,
                            |InfosOf(p, slow, dir, Paginate(sorted, limit, offset))|,
                            |InfosOf(p, slow, dir, After(sorted, limit, offset))|, limit, offset)
  {
    var sorted := SortDesc(slow.sessions.value, EntryTime);
    FastIsPage(p, fast, slow, dir, limit, offset, r);
    SortDescStrict(slow.sessions.value, EntryTime);
    InfosStrictlyDesc(p, slow, dir, sorted);
    PageStrict(p, slow, dir, sorted, limit, offset);
    SortedStays(InfosOf(p, slow, dir, Paginate(sorted, limit, offset)), InfoTime);
    PagesOfInfos(InfoOf(p, slow, dir), sorted, InfoTime, limit, offset);
  }

  lemma FastIsPage(p: Patterns, fast: Adapter, slow: Adapter, dir: Option<string>, limit: Option<nat>, offset: nat,
                   r: seq<SessionInfo>)
    requires fast.summaries.Got? && fast.sessions.Got? && slow.sessions.Got?
    requires DistinctSessions(fast.sessions.value) && DistinctSessions(slow.sessions.value)
    requires forall e :: e in fast.sessions.value <==> e in slow.sessions.value
    requires SameLoads(fast, slow) && RepairedTable(p, fast) == RefoldedTable(p, fast)
    requires FastListing(p, fast, dir, limit, offset, r)
    ensures r == Paginate(InfosOf(p, slow, dir, SortDesc(slow.sessions.value, EntryTime)), limit, offset)
    ensures StrictlyDesc(r, InfoTime)
  {
    var infos :| HoldsInfos(infos, RepairedTable(p, fast), dir)
                 && r == Paginate(SortDesc(infos, InfoTime), limit, offset);
    var sorted := SortDesc(slow.sessions.value, EntryTime);
    SameSessionsSameOrder(fast.sessions.value, slow.sessions.value);
    IndexListsSortedSessions(p, fast, dir, infos);
    forall e ensures InfoOf(p, fast, dir)(e) == InfoOf(p, slow, dir)(e) { SameInfo(p, fast, slow, dir, e); }
    SameInfos(InfoOf(p, fast, dir), InfoOf(p, slow, dir), sorted);
    PaginateStrict(SortDesc(infos, InfoTime), InfoTime, limit, offset);
  }

  lemma SameInfo(p: Patterns, a: Adapter, b: Adapter, dir: Option<string>, e: ListEntry)
    requires SameLoads(a, b)
    ensures InfoOf(p, a, dir)(e) == InfoOf(p, b, dir)(e)
  {
    assert Refold(p, a, e) == Refold(p, b, e);
  }

  lemma PaginateStrict<T>(xs: seq<T>, time: T -> int, limit: Option<nat>, offset: nat)
    requires StrictlyDesc(xs, time)
    ensures StrictlyDesc(Paginate(xs, limit, offset), time)
  {
  }

  lemma PagesOfInfos<X, Y>(f: X -> Option<Y>, sorted: seq<X>, time: Y -> int, limit: Option<nat>, offset: nat)
    requires StrictlyDesc(FilterMap(f, sorted), time)
    ensures Paginate(FilterMap(f, Paginate(sorted, limit, offset)), limit, offset)
            == Paginate(FilterMap(f, sorted), limit, offset)
            <==> PagesAgree(|FilterMap(f, Before(sorted, offset))|,
                            |FilterMap(f, Paginate(sorted, limit, offset))|,
                            |FilterMap(f, After(sorted, limit, offset))|, limit, offset)
  {
    var b, on, aft := Before(sorted, offset), Paginate(sorted, limit, offset), After(sorted, limit, offset);
    PageSplits(sorted, limit, offset);
    FilterMapConcat(f, b + on, aft);
    FilterMapConcat(f, b, on);
    PageTwice(FilterMap(f, b), FilterMap(f, on), FilterMap(f, aft), limit, offset);
  }

  lemma PageStrict(p: Patterns, a: Adapter, dir: Option<string>, sorted: seq<ListEntry>, limit: Option<nat>,
                   offset: nat)
    requires StrictlyDesc(sorted, EntryTime)
    ensures StrictlyDesc(InfosOf(p, a, dir, Paginate(sorted, limit, offset)), InfoTime)
  {
    PaginateStrict(sorted, EntryTime, limit, offset);
    InfosStrictlyDesc(p, a, dir, Paginate(sorted, limit, offset));
  }

  lemma SameSessionsSameOrder(x: seq<ListEntry>, y: seq<ListEntry>)
    requires DistinctSessions(x) && DistinctSessions(y) && forall e :: e in x <==> e in y
    ensures SortDesc(x, EntryTime) == SortDesc(y, EntryTime)
    ensures StrictlyDesc(SortDesc(x, EntryTime), EntryTime)
  {
    SortDescStrict(x, EntryTime);
    SortDescStrict(y, EntryTime);
    forall e ensures e in SortDesc(x, EntryTime) <==> e in SortDesc(y, EntryTime) {
      SameElements(x, EntryTime, e);
      SameElements(y, EntryTime, e);
    }
    StrictlyDescUnique(SortDesc(x, EntryTime), SortDesc(y, EntryTime), EntryTime);
  }

  lemma {:induction false} SameInfos<X, Y>(f: X -> Option<Y>, g: X -> Option<Y>, xs: seq<X>)
    requires forall x :: x in xs ==> f(x) == g(x)
    ensures FilterMap(f, xs) == FilterMap(g, xs)
  {
    if xs != [] { SameInfos(f, g, xs[..|xs| - 1]); }
  }

  lemma {:induction false} FilterMapAll<X, Y>(f: X -> Option<Y>, xs: seq<X>)
    requires forall x :: x in xs ==> f(x).Some?
    ensures |FilterMap(f, xs)| == |xs|
  {
    if xs != [] { FilterMapAll(f, xs[..|xs| - 1]); }
  }

  /** When every session has information, the two paths return the same list
      exactly at offset zero or beyond the last session, whatever the limit. */
  lemma PathsAgreeWhenAllHaveInfo(p: Patterns, fast: Adapter, slow: Adapter, dir: Option<string>, limit: Option<nat>,
                                  offset: nat, r: seq<SessionInfo>)
    requires fast.summaries.Got? && fast.sessions.Got? && slow.sessions.Got?
    requires DistinctSessions(fast.sessions.value) && DistinctSessions(slow.sessions.value)
    requires forall e :: e in fast.sessions.value <==> e in slow.sessions.value
    requires SameLoads(fast, slow) && RepairedTable(p, fast) == RefoldedTable(p, fast)
    requires forall e :: e in slow.sessions.value ==> InfoOf(p, slow, dir)(e).Some?
    requires FastListing(p, fast, dir, limit, offset, r)
    ensures SlowListing(p, slow, dir, limit, offset) == r <==> offset == 0 || offset >= |slow.sessions.value|
  {
    PathsAgree(p, fast, slow, dir, limit, offset, r);
    var sorted := SortDesc(slow.sessions.value, EntryTime);
    forall e | e in sorted ensures InfoOf(p, slow, dir)(e).Some? { SameElements(slow.sessions.value, EntryTime, e); }
    WindowsCountAll(InfoOf(p, slow, dir), sorted, limit, offset);
  }

  lemma WindowsCountAll<X, Y>(f: X -> Option<Y>, sorted: seq<X>, limit: Option<nat>, offset: nat)
    requires forall x :: x in sorted ==> f(x).Some?
    ensures PagesAgree(|FilterMap(f, Before(sorted, offset))|, |FilterMap(f, Paginate(sorted, limit, offset))|,
                       |FilterMap(f, After(sorted, limit, offset))|, limit, offset)
            <==> offset == 0 || offset >= |sorted|
  {
    PageSplits(sorted, limit, offset);
    FilterMapAll(f, Before(sorted, offset));
    FilterMapAll(f, Paginate(sorted, limit, offset));
    FilterMapAll(f, After(sorted, limit, offset));
  }

  const TITLED: Entries := [Obj(map["customTitle" := Str("t")])]

  const NEWER: ListEntry := ListEntry("a", 2)

  const OLDER: ListEntry := ListEntry("b", 1)

  /** Two sessions; the older has a title. */
  function TwoSessions(summaries: Answer<seq<SummaryEntry>>, newer: Entries): Adapter {
    Adapter(summaries, Got([NEWER, OLDER]), id => Got(Some(if id == "a" then newer else TITLED)))
  }

  lemma TitledHasInfo(p: Patterns, dir: Option<string>, a: Adapter, e: ListEntry)
    requires Loaded(a, e.sessionId) == TITLED
    ensures InfoOf(p, a, dir)(e).Some?
  {
    assert Refold(p, a, e) == SummaryEntry(e.sessionId, e.mtime, Fold(p, EMPTY, TITLED));
    TitledFold(p);
    TitleIsInfo(Refold(p, a, e), dir, "t");
  }

  lemma EmptyHasNone(p: Patterns, dir: Option<string>, a: Adapter, e: ListEntry)
    requires Loaded(a, e.sessionId) == []
    ensures InfoOf(p, a, dir)(e).None?
  {
    assert Refold(p, a, e) == SummaryEntry(e.sessionId, e.mtime, EMPTY);
  }

  lemma TitledFold(p: Patterns)
    ensures Fold(p, EMPTY, TITLED).customTitle == Some("t") && !Fold(p, EMPTY, TITLED).isSidechain
  {
    LastWins(p, TITLED, "t");
    FoldDescribes(p, TITLED);
    assert !IsSidechain(TITLED[0]);
  }

  lemma TitleIsInfo(entry: SummaryEntry, dir: Option<string>, title: string)
    requires entry.data.customTitle == Some(title) && title != "" && !entry.data.isSidechain
    ensures ToInfo(entry, dir).Some?
  {
  }

  lemma FilterMapTwo<X, Y>(f: X -> Option<Y>, x: X, y: X)
    ensures FilterMap(f, [x]) == Single(f(x)) && FilterMap(f, [x, y]) == Single(f(x)) + Single(f(y))
  {
    assert [x][..0] == [] && [x, y][..1] == [x];
  }

  /** Two adapters to the same two sessions, the first with an index that knows neither. */
  ghost predicate HoldTwo(fast: Adapter, slow: Adapter) {
    && fast.summaries == Got([]) && fast.sessions == Got([NEWER, OLDER]) && slow.sessions == fast.sessions
    && SameLoads(fast, slow) && forall id :: Loads(fast, id)
  }

  lemma TwoSessionsRefolded(p: Patterns, fast: Adapter)
    requires fast.summaries == Got([]) && fast.sessions == Got([NEWER, OLDER]) && forall id :: Loads(fast, id)
    ensures DistinctSessions(fast.sessions.value) && RepairedTable(p, fast) == RefoldedTable(p, fast)
  {
    RepairIsRefold(p, fast);
  }

  lemma TwoSessionsSorted()
    ensures SortDesc([NEWER, OLDER], EntryTime) == [NEWER, OLDER]
  {
    SortedStays([NEWER, OLDER], EntryTime);
  }

  /** The sessions are in order already, so the index path cuts its page from their information. */
  lemma TwoSessionsListed(p: Patterns, fast: Adapter, slow: Adapter, dir: Option<string>, limit: Option<nat>,
                          offset: nat, r: seq<SessionInfo>)
    requires HoldTwo(fast, slow) && FastListing(p, fast, dir, limit, offset, r)
    ensures var info := InfoOf(p, slow, dir); r == Paginate(Single(info(NEWER)) + Single(info(OLDER)), limit, offset)
  {
    TwoSessionsRefolded(p, fast);
    FastIsPage(p, fast, slow, dir, limit, offset, r);
    TwoSessionsSorted();
    FilterMapTwo(InfoOf(p, slow, dir), NEWER, OLDER);
  }

  /** Full loads read the second session and skip it. */
  lemma SkippedTwice(p: Patterns, slow: Adapter, dir: Option<string>)
    requires slow.sessions == Got([NEWER, OLDER])
    ensures SlowListing(p, slow, dir, None, 1) == []
  {
    TwoSessionsSorted();
    var page := Paginate([NEWER, OLDER], None, 1);
    assert |page| == 1;
    assert |SortDesc(InfosOf(p, slow, dir, page), InfoTime)| <= 1;
  }

  /** Full loads read the first session, which has nothing to list. */
  lemma LimitedFirst(p: Patterns, slow: Adapter, dir: Option<string>)
    requires slow.sessions == Got([NEWER, OLDER]) && InfoOf(p, slow, dir)(NEWER).None?
    ensures SlowListing(p, slow, dir, Some(1), 0) == []
  {
    TwoSessionsSorted();
    FilterMapTwo(InfoOf(p, slow, dir), NEWER, OLDER);
    var page := Paginate([NEWER, OLDER], Some(1), 0);
    assert page == [NEWER];
    assert |SortDesc(InfosOf(p, slow, dir, page), InfoTime)| == 0;
  }

  /** Either way the older session is in the index and lost to the two cuts. */
  lemma OlderIsLost(p: Patterns, fast: Adapter, slow: Adapter, dir: Option<string>, limit: Option<nat>,
                    offset: nat, r: seq<SessionInfo>)
    requires HoldTwo(fast, slow) && FastListing(p, fast, dir, limit, offset, r)
    requires Loaded(slow, OLDER.sessionId) == TITLED
    requires if Loaded(slow, NEWER.sessionId) == TITLED then limit.None? && offset == 1
             else Loaded(slow, NEWER.sessionId) == [] && limit == Some(1) && offset == 0
    ensures |r| == 1 && r[0].sessionId == "b" && SlowListing(p, slow, dir, limit, offset) == []
  {
    TwoSessionsListed(p, fast, slow, dir, limit, offset, r);
    TitledHasInfo(p, dir, slow, OLDER);
    if offset == 1 {
      TitledHasInfo(p, dir, slow, NEWER);
      SkippedTwice(p, slow, dir);
    } else {
      EmptyHasNone(p, dir, slow, NEWER);
      LimitedFirst(p, slow, dir);
    }
  }

  lemma TwoSessionsHeld(newer: Entries)
    ensures HoldTwo(TwoSessions(Got([]), newer), TwoSessions(NotImplemented, newer))
    ensures Loaded(TwoSessions(NotImplemented, newer), NEWER.sessionId) == newer
    ensures Loaded(TwoSessions(NotImplemented, newer), OLDER.sessionId) == TITLED
  {
  }

  /** At offset one the path through the summaries lists the second session;
      full loads skip it again and list nothing. */
  lemma OffsetCutTwice(p: Patterns, dir: Option<string>, r: seq<SessionInfo>)
    requires FastListing(p, TwoSessions(Got([]), TITLED), dir, None, 1, r)
    ensures |r| == 1 && r[0].sessionId == "b"
    ensures SlowListing(p, TwoSessions(NotImplemented, TITLED), dir, None, 1) == []
  {
    TwoSessionsHeld(TITLED);
    OlderIsLost(p, TwoSessions(Got([]), TITLED), TwoSessions(NotImplemented, TITLED), dir, None, 1, r);
  }

  /** With a limit of one and an empty newer session, the path through the
      summaries lists the older; full loads read only the newer and list
      nothing, though their second cut drops nothing. */
  lemma LimitCutFirst(p: Patterns, dir: Option<string>, r: seq<SessionInfo>)
    requires FastListing(p, TwoSessions(Got([]), []), dir, Some(1), 0, r)
    ensures |r| == 1 && r[0].sessionId == "b"
    ensures SlowListing(p, TwoSessions(NotImplemented, []), dir, Some(1), 0) == []
  {
    TwoSessionsHeld([]);
    OlderIsLost(p, TwoSessions(Got([]), []), TwoSessions(NotImplemented, []), dir, Some(1), 0, r);
  }

  // ---------------------------------------------------------------------
  // The in-memory store.
  // ---------------------------------------------------------------------

  /** The answers of a store in state `s`; whether it offers its summaries is
      left open. */
  ghost predicate Serves(a: Adapter, s: State, projectKey: string) {
    && a.sessions.Got? && Lists(a.sessions.value, s, projectKey)
    && (a.summaries.Got? ==> ListsSummaries(a.summaries.value, s, projectKey))
    && forall id :: a.load(id) == Got(Stored(s, MainKey((projectKey, id))))
  }

  /** Asks the in-memory store everything a listing may ask. */
  method Snapshot(store: InMemorySessionStore, projectKey: string) returns (a: Adapter)
    ensures a.summaries.Got? && Serves(a, store.View(), projectKey)
  {
    var summaries := store.ListSessionSummaries(projectKey);
    var sessions := store.ListSessions(projectKey);
    var entries := store.entries;
    a := Adapter(Got(summaries), Got(sessions),
                 id => Got(Lookup(entries, StorageKey(MainKey((projectKey, id))))));
  }

  lemma ServedSessionsDiffer(p: Patterns, ops: seq<Op>, projectKey: string, a: Adapter)
    requires SlashFreeOps(ops) && '/' !in projectKey && Serves(a, Run(p, ops), projectKey)
    ensures DistinctSessions(a.sessions.value)
    ensures forall e :: e in a.sessions.value ==> Loads(a, e.sessionId)
  {
    RunIsFaithful(p, ops);
    var s, es := Run(p, ops), a.sessions.value;
    forall j, k | 0 <= j < k < |es|
      ensures es[j].sessionId != es[k].sessionId && EntryTime(es[j]) != EntryTime(es[k])
    {
      assert es[j] in es && es[k] in es;
      var x, y := projectKey + "/" + es[j].sessionId, projectKey + "/" + es[k].sessionId;
      assert x[|projectKey| + 1..] == es[j].sessionId && y[|projectKey| + 1..] == es[k].sessionId;
    }
    forall e | e in es ensures Loads(a, e.sessionId) {
      assert StorageKey(MainKey((projectKey, e.sessionId))) == projectKey + "/" + e.sessionId;
    }
  }

  lemma {:induction false} ByIdHolds(summaries: seq<SummaryEntry>, id: string)
    requires id in ById(summaries)
    ensures ById(summaries)[id] in summaries && ById(summaries)[id].sessionId == id
  {
    var init, last := summaries[..|summaries| - 1], summaries[|summaries| - 1];
    if last.sessionId != id { ByIdHolds(init, id); }
  }

  /** The stored summaries are never stale and never wrong. */
  lemma ServedSummaryIsRefold(p: Patterns, ops: seq<Op>, projectKey: string, a: Adapter, id: string)
    requires SlashFreeOps(ops) && '/' !in projectKey && Serves(a, Run(p, ops), projectKey)
    requires a.summaries.Got? && id in ById(a.summaries.value)
    ensures var known := TimesById(a.sessions.value);
            id in known && ById(a.summaries.value)[id] == Refold(p, a, ListEntry(id, known[id]))
  {
    RunIsFaithful(p, ops);
    var s, session := Run(p, ops), (projectKey, id);
    var sk := StorageKey(MainKey(session));
    ByIdHolds(a.summaries.value, id);
    var x := ById(a.summaries.value)[id];
    ListedIsKept(a.summaries.value, s, projectKey, x);
    var other :| (projectKey, other) in s.summaries && s.summaries[(projectKey, other)] == x;
    assert SlashFree(MainKey((projectKey, other)));
    assert SummaryIsFold(p, s, (projectKey, other));
    assert other == id;
    assert sk == projectKey + "/" + id;
    assert ListEntry(id, s.mtimes[sk]) in a.sessions.value;
    TimesByIdHolds(a.sessions.value, id);
    assert Stored(s, MainKey(session)).Some?;
  }

  /** For the in-memory store after any run, the index lists the sessions in
      strictly decreasing order of time, and full loads give the same page
      exactly when neither of their two cuts costs an entry. */
  lemma InMemoryPathsAgree(p: Patterns, ops: seq<Op>, projectKey: string, fast: Adapter, slow: Adapter,
                           dir: Option<string>, limit: Option<nat>, offset: nat, r: seq<SessionInfo>)
    requires SlashFreeOps(ops) && '/' !in projectKey
    requires Serves(fast, Run(p, ops), projectKey) && Serves(slow, Run(p, ops), projectKey)
    requires fast.summaries.Got? && FastListing(p, fast, dir, limit, offset, r)
    ensures StrictlyDesc(r, InfoTime)
    ensures var sorted := SortDesc(slow.sessions.value, EntryTime);
            SlowListing(p, slow, dir, limit, offset) == r
            <==> PagesAgree(|InfosOf(p, slow, dir, Before(sorted, offset))|,
                            |InfosOf(p, slow, dir, Paginate(sorted, limit, offset))|,
                            |InfosOf(p, slow, dir, After(sorted, limit, offset))|, limit, offset)
  {
    ServedSessionsDiffer(p, ops, projectKey, fast);
    ServedSessionsDiffer(p, ops, projectKey, slow);
    var base := ById(fast.summaries.value);
    forall id | id in base
      ensures id in TimesById(fast.sessions.value)
      ensures base[id] == Refold(p, fast, ListEntry(id, TimesById(fast.sessions.value)[id]))
    {
      ServedSummaryIsRefold(p, ops, projectKey, fast, id);
    }
    RepairIsRefold(p, fast);
    PathsAgree(p, fast, slow, dir, limit, offset, r);
  }

  /** Without offset or limit the two paths return the same list, and it is
      the information of every stored transcript folded from scratch. */
  lemma WholeListing(p: Patterns, ops: seq<Op>, projectKey: string, fast: Adapter, slow: Adapter, dir: Option<string>,
                     r: seq<SessionInfo>)
    requires SlashFreeOps(ops) && '/' !in projectKey
    requires Serves(fast, Run(p, ops), projectKey) && Serves(slow, Run(p, ops), projectKey)
    requires fast.summaries.Got? && FastListing(p, fast, dir, None, 0, r)
    ensures SlowListing(p, slow, dir, None, 0) == r && StrictlyDesc(r, InfoTime)
    ensures forall x :: x in r <==> IsSessionInfo(p, ops, projectKey, dir, x)
  {
    InMemoryPathsAgree(p, ops, projectKey, fast, slow, dir, None, 0, r);
    var sorted := SortDesc(slow.sessions.value, EntryTime);
    ServedSessionsDiffer(p, ops, projectKey, slow);
    SortDescStrict(slow.sessions.value, EntryTime);
    InfosStrictlyDesc(p, slow, dir, sorted);
    SortedStays(InfosOf(p, slow, dir, sorted), InfoTime);
    forall x ensures x in r <==> IsSessionInfo(p, ops, projectKey, dir, x) {
      FilterMapHolds(InfoOf(p, slow, dir), sorted, x);
      ServedInfo(p, ops, projectKey, slow, dir, x);
    }
  }

  /** Lists a project of the in-memory store: the information of every
      transcript its history left, latest first. */
  method ListStoredSessions(store: InMemorySessionStore, projectKey: string, dir: Option<string>)
    returns (infos: seq<SessionInfo>)
    requires store.Valid() && SlashFreeOps(store.history) && '/' !in projectKey
    ensures StrictlyDesc(infos, InfoTime)
    ensures forall x :: x in infos <==> IsSessionInfo(store.patterns, store.history, projectKey, dir, x)
  {
    var a := Snapshot(store, projectKey);
    var r := ListSessionsFromStore(store.patterns, a, dir, None, 0);
    WholeListing(store.patterns, store.history, projectKey, a, a, dir, r.value);
    return r.value;
  }

  /** `x` is the information of a session that the history left a transcript for. */
  ghost predicate IsSessionInfo(p: Patterns, ops: seq<Op>, projectKey: string, dir: Option<string>, x: SessionInfo) {
    var es := TranscriptAfter(ops, MainKey((projectKey, x.sessionId)));
    && '/' !in x.sessionId && es.Some?
    && Lookup(Run(p, ops).mtimes, StorageKey(MainKey((projectKey, x.sessionId)))) == Some(x.lastModified)
    && ToInfo(SummaryEntry(x.sessionId, x.lastModified, Fold(p, EMPTY, es.value)), dir) == Some(x)
  }

  lemma ServedInfo(p: Patterns, ops: seq<Op>, projectKey: string, a: Adapter, dir: Option<string>, x: SessionInfo)
    requires SlashFreeOps(ops) && '/' !in projectKey && Serves(a, Run(p, ops), projectKey)
    ensures (exists e :: e in SortDesc(a.sessions.value, EntryTime) && InfoOf(p, a, dir)(e) == Some(x))
            <==> IsSessionInfo(p, ops, projectKey, dir, x)
  {
    RunIsFaithful(p, ops);
    var s, key := Run(p, ops), MainKey((projectKey, x.sessionId));
    assert StorageKey(key) == projectKey + "/" + x.sessionId;
    if e :| e in SortDesc(a.sessions.value, EntryTime) && InfoOf(p, a, dir)(e) == Some(x) {
      SameElements(a.sessions.value, EntryTime, e);
      InfoKeepsTime(p, a, dir, e);
      assert Stored(s, key) == TranscriptAfter(ops, key);
    }
    if IsSessionInfo(p, ops, projectKey, dir, x) {
      var e := ListEntry(x.sessionId, x.lastModified);
      SameElements(a.sessions.value, EntryTime, e);
      assert Stored(s, key) == TranscriptAfter(ops, key);
      assert Refold(p, a, e)
          == SummaryEntry(x.sessionId, x.lastModified, Fold(p, EMPTY, TranscriptAfter(ops, key).value));
      assert InfoOf(p, a, dir)(e) == Some(x);
    }
  }

  // ---------------------------------------------------------------------
  // One session.
  // ---------------------------------------------------------------------

  /** Information on one session; nothing for an invalid id or no transcript. */
  method GetSessionInfoFromStore(p: Patterns, a: Adapter, isValidId: bool, sessionId: string, dir: Option<string>)
    returns (r: Result<Option<SessionInfo>, string>)
    ensures !isValidId || a.load(sessionId) == Got(None) ==> r == Ok(None)
    ensures isValidId && a.load(sessionId).NotImplemented? ==> r.Err?
    ensures isValidId && a.load(sessionId).Failed? ==> r == Err(a.load(sessionId).message)
    ensures isValidId && Loads(a, sessionId) ==> r == Ok(InfoOf(p, a, dir)(ListEntry(sessionId, 0)))
  {
    if !isValidId {
      return Ok(None);
    }
    match a.load(sessionId) {
      case NotImplemented => return Err("not implemented");
      case Failed(message) => return Err(message);
      case Got(None) => return Ok(None);
      case Got(Some(es)) =>
        var summary := FoldSessionSummary(p, None, sessionId, es);
        return Ok(ToInfo(summary, dir));
    }
  }

  /** It is the listed information except for the time, which is left at zero. */
  lemma SingleInfoLacksTime(p: Patterns, a: Adapter, dir: Option<string>, e: ListEntry)
    ensures var listed, single := InfoOf(p, a, dir)(e), InfoOf(p, a, dir)(ListEntry(e.sessionId, 0));
            && listed.Some? == single.Some?
            && (listed.Some? ==> listed.value.(lastModified := 0) == single.value && single.value.lastModified == 0)
  {
  }
}
