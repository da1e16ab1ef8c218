/** The in-memory session store: transcripts, write times and an incrementally
    folded summary per session. */
module SessionStore {
  import opened Wrappers
  import opened Transcript
  import opened StorageKeys
  import opened Summary

  datatype State = State(
    entries: map<string, Entries>,
    mtimes: map<string, int>,
    summaries: map<(string, string), SummaryEntry>,
    lastMtime: int)

  const INIT: State := State(map[], map[], map[], 0)

  /** The clock reading `now` is arbitrary: it may stall or run backwards. */
  datatype Op = Append(key: SessionKey, batch: Entries, now: int) | Delete(key: SessionKey) | Clear

  // ---------------------------------------------------------------------
  // The operations on values.
  // ---------------------------------------------------------------------

  function NextMtime(last: int, now: int): (next: int)
    ensures next > last && next >= now
  {
    if now > last then now else last + 1
  }

  function SessionOf(key: SessionKey): (string, string) { (key.projectKey, key.sessionId) }

  function Lookup<K, V>(m: map<K, V>, k: K): Option<V> {
    if k in m then Some(m[k]) else None
  }

  function Stored(s: State, key: SessionKey): Option<Entries> {
    Lookup(s.entries, StorageKey(key))
  }

  function Held(entries: map<string, Entries>, sk: string): Entries {
    if sk in entries then entries[sk] else []
  }

  function Appended(p: Patterns, s: State, key: SessionKey, batch: Entries, now: int): State {
    var mtime := NextMtime(s.lastMtime, now);
    State(
      s.entries[StorageKey(key) := Held(s.entries, StorageKey(key)) + batch],
      s.mtimes[StorageKey(key) := mtime],
      if key.subpath.Some? then s.summaries else FoldedInto(p, s.summaries, key, batch, mtime),
      mtime)
  }

  function FoldedInto(p: Patterns, summaries: map<(string, string), SummaryEntry>, key: SessionKey, batch: Entries,
                      mtime: int)
    : map<(string, string), SummaryEntry>
  {
    summaries[SessionOf(key) :=
      FoldedSummary(p, Lookup(summaries, SessionOf(key)), key.sessionId, batch).(mtime := mtime)]
  }

  /** The strings stored under a session's prefix. */
  function Subkeys(entries: map<string, Entries>, key: SessionKey): set<string> {
    set sk | sk in entries && SessionPrefix(key.projectKey, key.sessionId) <= sk
  }

  function Deleted(s: State, key: SessionKey): State {
    var entries, mtimes := s.entries - {StorageKey(key)}, s.mtimes - {StorageKey(key)};
    if key.subpath.Some? then s.(entries := entries, mtimes := mtimes)
    else s.(entries := entries - Subkeys(entries, key),
            mtimes := mtimes - Subkeys(entries, key),
            summaries := s.summaries - {SessionOf(key)})
  }

  function Apply(p: Patterns, s: State, op: Op): State {
    match op
    case Append(key, batch, now) => Appended(p, s, key, batch, now)
    case Delete(key) => Deleted(s, key)
    case Clear => INIT
  }

  function Run(p: Patterns, ops: seq<Op>): State {
    if ops == [] then INIT else Apply(p, Run(p, ops[..|ops| - 1]), ops[|ops| - 1])
  }

  // ---------------------------------------------------------------------
  // The store.
  // ---------------------------------------------------------------------

  datatype ListEntry = ListEntry(sessionId: string, mtime: int)

  class InMemorySessionStore {
    const patterns: Patterns
    var entries: map<string, Entries>
    var mtimes: map<string, int>
    var summaries: map<(string, string), SummaryEntry>
    var lastMtime: int
    ghost var history: seq<Op>

    ghost function View(): State
      reads this
    {
      State(entries, mtimes, summaries, lastMtime)
    }

    /** The store is what its history makes it. */
    ghost predicate Valid()
      reads this
    {
      View() == Run(patterns, history)
    }

    constructor (p: Patterns)
      ensures Valid() && patterns == p && history == []
    {
      patterns := p;
      entries, mtimes, summaries, lastMtime := map[], map[], map[], 0;
      history := [];
    }

    method TickMtime(now: int) returns (next: int)
      modifies this`lastMtime
      ensures next == NextMtime(old(lastMtime), now) && lastMtime == next
    {
      if now > lastMtime {
        next := now;
      } else {
        next := lastMtime + 1;
      }
      lastMtime := next;
    }

    method FoldIntoSummary(key: SessionKey, batch: Entries, mtime: int)
      modifies this`summaries
      ensures summaries == FoldedInto(patterns, old(summaries), key, batch, mtime)
    {
      var prev := Lookup(summaries, SessionOf(key));
      var summary := FoldSessionSummary(patterns, prev, key.sessionId, batch);
      summary := summary.(mtime := mtime);
      summaries := summaries[SessionOf(key) := summary];
    }

    method ExtendEntries(sk: string, batch: Entries)
      modifies this`entries
      ensures entries == old(entries)[sk := Held(old(entries), sk) + batch]
    {
      if sk !in entries {
        entries := entries[sk := []];
      }
      entries := entries[sk := entries[sk] + batch];
    }

    method Append(key: SessionKey, batch: Entries, now: int)
      requires Valid()
      modifies this
      ensures Valid() && history == old(history) + [Op.Append(key, batch, now)]
      ensures View() == Appended(patterns, old(View()), key, batch, now)
    {
      var mtime := TickMtime(now);
      if key.subpath.None? {
        FoldIntoSummary(key, batch, mtime);
      }
      var sk := StorageKey(key);
      ExtendEntries(sk, batch);
      mtimes := mtimes[sk := mtime];
      assert View() == Appended(patterns, old(View()), key, batch, now);
      Record(Op.Append(key, batch, now));
    }

    /** Extends the history by an operation the fields already reflect. */
    ghost method Record(op: Op)
      requires View() == Apply(patterns, Run(patterns, history), op)
      modifies this`history
      ensures Valid() && history == old(history) + [op]
    {
      history := history + [op];
      assert history[..|history| - 1] == old(history);
    }

    method Delete(key: SessionKey)
      requires Valid()
      modifies this
      ensures Valid() && history == old(history) + [Op.Delete(key)]
      ensures View() == Deleted(old(View()), key)
    {
      var target := StorageKey(key);
      entries := entries - {target};
      mtimes := mtimes - {target};
      if key.subpath.None? {
        var subkeys := Subkeys(entries, key);
        ghost var before, mtimesBefore := entries, mtimes;
        var left := subkeys;
        while left != {}
          invariant left <= subkeys
          invariant entries == before - (subkeys - left) && mtimes == mtimesBefore - (subkeys - left)
          invariant summaries == old(summaries) && lastMtime == old(lastMtime) && history == old(history)
          decreases left
        {
          var subkey :| subkey in left;
          entries := entries - {subkey};
          mtimes := mtimes - {subkey};
          left := left - {subkey};
        }
        assert subkeys - left == subkeys;
        summaries := summaries - {SessionOf(key)};
      }
      Record(Op.Delete(key));
    }

    method Reset()
      requires Valid()
      modifies this
      ensures Valid() && history == old(history) + [Clear] && View() == INIT
    {
      entries, mtimes, summaries, lastMtime := map[], map[], map[], 0;
      Record(Clear);
    }

    method Load(key: SessionKey) returns (r: Option<Entries>)
      ensures r == Stored(View(), key)
    {
      r := Lookup(entries, StorageKey(key));
    }

    /** In no particular order. */
    method ListSessions(projectKey: string) returns (r: seq<ListEntry>)
      ensures Lists(r, View(), projectKey)
    {
      r := [];
      var left := mtimes.Keys;
      while left != {}
        invariant left <= mtimes.Keys
        invariant ListsAmong(r, View(), projectKey, mtimes.Keys - left)
        decreases left
      {
        var sk :| sk in left;
        var rest := StripPrefix(sk, projectKey + "/");
        if rest.Some? && '/' !in rest.value {
          assert sk == projectKey + "/" + rest.value;
          r := r + [ListEntry(rest.value, mtimes[sk])];
        }
        left := left - {sk};
      }
    }

    method ListSessionSummaries(projectKey: string) returns (r: seq<SummaryEntry>)
      ensures ListsSummaries(r, View(), projectKey)
    {
      r := [];
      ghost var ids: seq<string> := [];
      var left := summaries.Keys;
      while left != {}
        invariant left <= summaries.Keys
        invariant SummariesAmong(r, ids, View(), projectKey, summaries.Keys - left)
        decreases left
      {
        var session :| session in left;
        if session.0 == projectKey {
          assert session == (projectKey, session.1);
          r, ids := r + [summaries[session]], ids + [session.1];
        }
        left := left - {session};
      }
      assert summaries.Keys - left == summaries.Keys;
    }

    method ListSubkeys(projectKey: string, sessionId: string) returns (r: seq<string>)
      ensures forall sub :: sub in r <==> SessionPrefix(projectKey, sessionId) + sub in entries
      ensures forall j, k :: 0 <= j < k < |r| ==> r[j] != r[k]
    {
      r := [];
      var left := entries.Keys;
      while left != {}
        invariant left <= entries.Keys
        invariant forall sub :: sub in r <==> SessionPrefix(projectKey, sessionId) + sub in entries.Keys - left
        invariant forall j, k :: 0 <= j < k < |r| ==> r[j] != r[k]
        decreases left
      {
        var sk :| sk in left;
        var rest := StripPrefix(sk, SessionPrefix(projectKey, sessionId));
        if rest.Some? {
          assert sk == SessionPrefix(projectKey, sessionId) + rest.value;
          r := r + [rest.value];
        }
        left := left - {sk};
      }
    }
  }

  /** `r` holds, once each, the ids under `projectKey` among `keys`, with their times. */
  ghost predicate ListsAmong(r: seq<ListEntry>, s: State, projectKey: string, keys: set<string>) {
    && (forall e :: e in r <==>
          && '/' !in e.sessionId && projectKey + "/" + e.sessionId in keys
          && Lookup(s.mtimes, projectKey + "/" + e.sessionId) == Some(e.mtime))
    && (forall j, k :: 0 <= j < k < |r| ==> r[j].sessionId != r[k].sessionId)
  }

  /** `r` holds, once each, the summaries under `projectKey` among `keys`, that of `ids[k]` at `k`. */
  ghost predicate SummariesAmong(r: seq<SummaryEntry>, ids: seq<string>, s: State, projectKey: string,
                                 keys: set<(string, string)>)
  {
    && |ids| == |r| && (forall id :: id in ids <==> (projectKey, id) in keys)
    && (forall j, k :: 0 <= j < k < |ids| ==> ids[j] != ids[k])
    && forall k :: 0 <= k < |r| ==> Lookup(s.summaries, (projectKey, ids[k])) == Some(r[k])
  }

  ghost predicate ListsSummaries(r: seq<SummaryEntry>, s: State, projectKey: string) {
    exists ids :: SummariesAmong(r, ids, s, projectKey, s.summaries.Keys)
  }

  lemma ListedIsKept(r: seq<SummaryEntry>, s: State, projectKey: string, x: SummaryEntry)
    requires ListsSummaries(r, s, projectKey) && x in r
    ensures exists id :: (projectKey, id) in s.summaries && s.summaries[(projectKey, id)] == x
  {
    var ids :| SummariesAmong(r, ids, s, projectKey, s.summaries.Keys);
    var k :| 0 <= k < |r| && r[k] == x;
    assert ids[k] in ids;
  }

  ghost predicate Lists(r: seq<ListEntry>, s: State, projectKey: string) {
    ListsAmong(r, s, projectKey, s.mtimes.Keys)
  }
}
