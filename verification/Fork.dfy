/** Rewriting a transcript into the lines of a forked session. */
module Fork {
  import opened Wrappers
  import opened Json
  import opened Text
  import opened Transcript

  datatype ForkError = NothingToFork | MessageNotFound(id: string)

  predicate NotSidechain(e: Value) { !IsSidechain(e) }

  predicate NotProgress(e: Value) { !IsProgress(e) }

  // ---------------------------------------------------------------------
  // Which entries are forked.
  // ---------------------------------------------------------------------

  /** Sidechains dropped, then cut after the first entry with uuid `upTo`. */
  function ForkSource(es: Entries, upTo: Option<string>): Result<Entries, ForkError> {
    var transcript := Gather(es, Select(es, NotSidechain));
    if transcript == [] then Err(NothingToFork)
    else if upTo.Some? && FirstIndex(transcript, upTo.value).None? then Err(MessageNotFound(upTo.value))
    else
      var cut := if upTo.None? then transcript else transcript[..FirstIndex(transcript, upTo.value).value + 1];
      if Select(cut, NotProgress) == [] then Err(NothingToFork) else Ok(cut)
  }

  // ---------------------------------------------------------------------
  // Fresh names and the climb past progress entries.
  // ---------------------------------------------------------------------

  /** The new name of `u`: the uuid drawn for the last entry holding it. */
  function NewName(transcript: Entries, draw: nat -> string, u: string): Option<string> {
    match LastIndex(transcript, u)
    case None => None
    case Some(i) => Some(draw(i))
  }

  predicate NamesProgress(transcript: Entries, u: string) {
    var i := FirstIndex(transcript, u);
    i.Some? && IsProgress(transcript[i.value])
  }

  function ParentOfName(transcript: Entries, u: string): Option<string> {
    match FirstIndex(transcript, u)
    case None => None
    case Some(i) => Parent(transcript[i])
  }

  ghost function NthUp(transcript: Entries, p: Option<string>, n: nat): Option<string> {
    if n == 0 then p
    else match NthUp(transcript, p, n - 1)
      case None => None
      case Some(u) => ParentOfName(transcript, u)
  }

  /** The climb from `p` leaves the progress entries after exactly `n` steps. */
  ghost predicate EndsAt(transcript: Entries, p: Option<string>, n: nat) {
    && (forall j: nat :: j < n ==>
          NthUp(transcript, p, j).Some? && NamesProgress(transcript, NthUp(transcript, p, j).value))
    && (NthUp(transcript, p, n).Some? ==> !NamesProgress(transcript, NthUp(transcript, p, n).value))
  }

  /** The climb has no seen-set: on a cycle of progress entries it would not
      end, so callers must rule that out. */
  ghost predicate ClimbEnds(transcript: Entries, p: Option<string>) {
    exists n: nat :: EndsAt(transcript, p, n)
  }

  ghost function Contracted(transcript: Entries, p: Option<string>): Option<string>
    requires ClimbEnds(transcript, p)
  {
    var n: nat :| EndsAt(transcript, p, n);
    NthUp(transcript, p, n)
  }

  lemma EndsAtUnique(transcript: Entries, p: Option<string>, m: nat, n: nat)
    requires EndsAt(transcript, p, m) && EndsAt(transcript, p, n)
    ensures m == n
  {
  }

  lemma {:induction false} NthUpShift(transcript: Entries, p: Option<string>, n: nat)
    requires p.Some?
    ensures NthUp(transcript, p, n + 1) == NthUp(transcript, ParentOfName(transcript, p.value), n)
  {
    if n > 0 { NthUpShift(transcript, p, n - 1); }
  }

  /** The climb, one step at a time. */
  lemma ContractedStep(transcript: Entries, p: Option<string>)
    ensures p.Some? && NamesProgress(transcript, p.value) ==>
      var up := ParentOfName(transcript, p.value);
      && ClimbEnds(transcript, p) == ClimbEnds(transcript, up)
      && (ClimbEnds(transcript, p) ==> Contracted(transcript, p) == Contracted(transcript, up))
    ensures !(p.Some? && NamesProgress(transcript, p.value)) ==>
      ClimbEnds(transcript, p) && Contracted(transcript, p) == p
  {
    if p.Some? && NamesProgress(transcript, p.value) {
      if n: nat :| EndsAt(transcript, p, n) { ContractedUp(transcript, p, n); }
      if n: nat :| EndsAt(transcript, ParentOfName(transcript, p.value), n) { EndsAtOneDown(transcript, p, n); }
    } else {
      assert EndsAt(transcript, p, 0);
      ContractedIs(transcript, p, 0);
    }
  }

  lemma ContractedUp(transcript: Entries, p: Option<string>, n: nat)
    requires p.Some? && NamesProgress(transcript, p.value) && EndsAt(transcript, p, n)
    ensures var up := ParentOfName(transcript, p.value);
            && ClimbEnds(transcript, p) && ClimbEnds(transcript, up)
            && Contracted(transcript, p) == Contracted(transcript, up)
  {
    assert n > 0;
    ClimbGoesUp(transcript, p, n - 1);
    ContractedIs(transcript, ParentOfName(transcript, p.value), n - 1);
  }

  /** A climb that goes on ends where the climb from one step up ends. */
  lemma ClimbGoesUp(transcript: Entries, p: Option<string>, n: nat)
    requires p.Some? && EndsAt(transcript, p, n + 1)
    ensures EndsAt(transcript, ParentOfName(transcript, p.value), n)
    ensures ClimbEnds(transcript, p)
    ensures Contracted(transcript, p) == NthUp(transcript, ParentOfName(transcript, p.value), n)
  {
    EndsAtOneUp(transcript, p, n + 1);
    ContractedIs(transcript, p, n + 1);
    NthUpShift(transcript, p, n);
  }

  lemma ContractedIs(transcript: Entries, p: Option<string>, n: nat)
    requires EndsAt(transcript, p, n)
    ensures ClimbEnds(transcript, p) && Contracted(transcript, p) == NthUp(transcript, p, n)
  {
    forall m: nat | EndsAt(transcript, p, m) ensures m == n { EndsAtUnique(transcript, p, m, n); }
  }

  lemma EndsAtOneUp(transcript: Entries, p: Option<string>, n: nat)
    requires p.Some? && n > 0 && EndsAt(transcript, p, n)
    ensures EndsAt(transcript, ParentOfName(transcript, p.value), n - 1)
  {
    forall j: nat | j < n
      ensures NthUp(transcript, p, j + 1) == NthUp(transcript, ParentOfName(transcript, p.value), j)
    {
      NthUpShift(transcript, p, j);
    }
  }

  lemma EndsAtOneDown(transcript: Entries, p: Option<string>, n: nat)
    requires p.Some? && NamesProgress(transcript, p.value)
    requires EndsAt(transcript, ParentOfName(transcript, p.value), n)
    ensures EndsAt(transcript, p, n + 1)
  {
    var up := ParentOfName(transcript, p.value);
    forall j: nat | j <= n ensures NthUp(transcript, p, j + 1) == NthUp(transcript, up, j) {
      NthUpShift(transcript, p, j);
    }
    forall j: nat | j < n + 1
      ensures NthUp(transcript, p, j).Some? && NamesProgress(transcript, NthUp(transcript, p, j).value)
    {
      if j > 0 { NthUpShift(transcript, p, j - 1); }
    }
  }

  // ---------------------------------------------------------------------
  // One forked entry.
  // ---------------------------------------------------------------------

  datatype ForkNames = ForkNames(source: string, forked: string, timestamp: string, titleTimestamp: string)

  /** The entry says which session and which entry of it this one comes from. */
  ghost predicate NamesOrigin(r: Value, e: Value, source: string) {
    exists origin :: Get(r, "forkedFrom") == Some(origin)
      && Get(origin, "sessionId") == Some(Str(source))
      && Get(origin, "messageUuid")
         == (if exists u :: Get(e, "uuid") == Some(Str(u)) then Get(e, "uuid") else Some(Str("")))
  }

  /** Every field of the forked entry, given the resolved names. */
  ghost predicate IsRewriteOf(r: Value, e: Value, newUuid: Option<string>, newParent: Option<string>,
                              newLogical: Option<string>, names: ForkNames, isLast: bool)
  {
    && r.Obj?
    && Get(r, "uuid") == (if newUuid.Some? then Some(Str(newUuid.value)) else Get(e, "uuid"))
    && Get(r, "parentUuid") == Some(StrOrNull(newParent))
    && Get(r, "logicalParentUuid") == Some(StrOrNull(newLogical))
    && Get(r, "sessionId") == Some(Str(names.forked))
    && Get(r, "isSidechain") == Some(Bool(false))
    && NamesOrigin(r, e, names.source)
    && Get(r, "timestamp") == (if isLast then Some(Str(names.timestamp)) else Get(e, "timestamp"))
    && Get(r, "teamName").None? && Get(r, "agentName").None?
    && Get(r, "slug").None? && Get(r, "sourceToolAssistantUUID").None?
    && forall key :: key !in REWRITTEN ==> Get(r, key) == Get(e, key)
  }

  function OriginalUuid(e: Value): string {
    if Uuid(e).Some? then Uuid(e).value else ""
  }

  function NewNameOf(transcript: Entries, draw: nat -> string, u: Option<string>): Option<string> {
    if u.Some? then NewName(transcript, draw, u.value) else None
  }

  ghost predicate IsRemapOf(r: Value, e: Value, transcript: Entries, draw: nat -> string,
                            names: ForkNames, isLast: bool)
    requires ClimbEnds(transcript, Parent(e))
  {
    IsRewriteOf(r, e,
                NewName(transcript, draw, OriginalUuid(e)),
                NewNameOf(transcript, draw, Contracted(transcript, Parent(e))),
                NewNameOf(transcript, draw, GetStr(e, "logicalParentUuid")),
                names, isLast)
  }

  const REWRITTEN: set<string> := {
    "uuid", "parentUuid", "logicalParentUuid", "sessionId", "isSidechain", "forkedFrom", "timestamp",
    "teamName", "agentName", "slug", "sourceToolAssistantUUID"
  }

  function ForkedFrom(source: string, messageUuid: string): Value {
    Obj(map["sessionId" := Str(source), "messageUuid" := Str(messageUuid)])
  }

  method UuidMapping(transcript: Entries, draw: nat -> string) returns (mapping: map<string, string>)
    ensures forall u :: LooksUp(mapping, transcript, draw, u)
  {
    mapping := map[];
    for i := 0 to |transcript|
      invariant forall u :: LooksUp(mapping, transcript[..i], draw, u)
    {
      assert transcript[..i + 1][..i] == transcript[..i];
      ghost var before := mapping;
      if Uuid(transcript[i]).Some? {
        mapping := mapping[Uuid(transcript[i]).value := draw(i)];
      }
      forall u: string {:trigger LooksUp(mapping, transcript[..i + 1], draw, u)}
        ensures LooksUp(mapping, transcript[..i + 1], draw, u)
      {
        assert LooksUp(before, transcript[..i], draw, u);
      }
    }
    assert transcript[..|transcript|] == transcript;
  }

  /** Walks a parent past its progress entries. */
  method SkipProgress(transcript: Entries, start: Option<string>) returns (parent: Option<string>)
    requires ClimbEnds(transcript, start)
    ensures parent == Contracted(transcript, start)
  {
    parent := start;
    ghost var n: nat :| EndsAt(transcript, start, n) && Contracted(transcript, start) == NthUp(transcript, start, n);
    ghost var k: nat := 0;
    while parent.Some? && NamesProgress(transcript, parent.value)
      invariant k <= n && parent == NthUp(transcript, start, k)
      decreases n - k
    {
      parent := ParentOfName(transcript, parent.value);
      k := k + 1;
    }
    EndsAtHere(transcript, start, n, k);
  }

  /** The in-place edits of one entry's fields. */
  method RewriteEntry(e: Value, newUuid: Option<string>, newParent: Option<string>,
                      newLogical: Option<string>, names: ForkNames, isLast: bool)
    returns (r: Value)
    ensures IsRewriteOf(r, e, newUuid, newParent, newLogical, names, isLast)
  {
    var fields: map<string, Value> := if e.Obj? then e.fields else map[];
    assert forall key :: Get(Obj(fields), key) == Get(e, key);
    var linked := Relink(fields, newUuid, newParent, newLogical);
    var stamped := Stamp(linked, names, OriginalUuid(e), isLast);
    var stripped := Strip(stamped);
    KeysDiffer();
    StampedKeys(linked, stamped, stripped);
    r := Obj(stripped);
    OriginNamed(r, e, names.source);
  }

  lemma OriginNamed(r: Value, e: Value, source: string)
    requires Get(r, "forkedFrom") == Some(ForkedFrom(source, OriginalUuid(e)))
    ensures NamesOrigin(r, e, source)
  {
    var origin := ForkedFrom(source, OriginalUuid(e));
    assert "sessionId"[0] != "messageUuid"[0];
    assert Get(origin, "sessionId") == Some(Str(source));
    assert Get(origin, "messageUuid") == Some(Str(OriginalUuid(e)));
  }

  /** The links, the stamps and the dropped fields are of different keys. */
  lemma StampedKeys(linked: map<string, Value>, stamped: map<string, Value>, stripped: map<string, Value>)
    requires forall key :: key !in {"sessionId", "isSidechain", "forkedFrom", "timestamp"} ==>
      Get(Obj(stamped), key) == Get(Obj(linked), key)
    requires forall key :: key !in {"teamName", "agentName", "slug", "sourceToolAssistantUUID"} ==>
      Get(Obj(stripped), key) == Get(Obj(stamped), key)
    ensures forall key :: key in {"uuid", "parentUuid", "logicalParentUuid"} ==>
      Get(Obj(stripped), key) == Get(Obj(linked), key)
    ensures forall key :: key in {"sessionId", "isSidechain", "forkedFrom", "timestamp"} ==>
      Get(Obj(stripped), key) == Get(Obj(stamped), key)
  {
    KeysDiffer();
  }

  method Relink(before: map<string, Value>, newUuid: Option<string>, newParent: Option<string>,
                newLogical: Option<string>)
    returns (fields: map<string, Value>)
    ensures Get(Obj(fields), "uuid") == (if newUuid.Some? then Some(Str(newUuid.value)) else Get(Obj(before), "uuid"))
    ensures Get(Obj(fields), "parentUuid") == Some(StrOrNull(newParent))
    ensures Get(Obj(fields), "logicalParentUuid") == Some(StrOrNull(newLogical))
    ensures forall key :: key !in {"uuid", "parentUuid", "logicalParentUuid"} ==>
      Get(Obj(fields), key) == Get(Obj(before), key)
  {
    fields := before;
    if newUuid.Some? {
      fields := fields["uuid" := Str(newUuid.value)];
    }
    fields := fields["parentUuid" := StrOrNull(newParent)];
    fields := fields["logicalParentUuid" := StrOrNull(newLogical)];
  }

  method Stamp(before: map<string, Value>, names: ForkNames, original: string, isLast: bool)
    returns (fields: map<string, Value>)
    ensures Get(Obj(fields), "sessionId") == Some(Str(names.forked))
    ensures Get(Obj(fields), "isSidechain") == Some(Bool(false))
    ensures Get(Obj(fields), "forkedFrom") == Some(ForkedFrom(names.source, original))
    ensures Get(Obj(fields), "timestamp")
            == (if isLast then Some(Str(names.timestamp)) else Get(Obj(before), "timestamp"))
    ensures forall key :: key !in {"sessionId", "isSidechain", "forkedFrom", "timestamp"} ==>
      Get(Obj(fields), key) == Get(Obj(before), key)
  {
    KeysDiffer();
    fields := before["sessionId" := Str(names.forked)];
    fields := fields["isSidechain" := Bool(false)];
    fields := fields["forkedFrom" := ForkedFrom(names.source, original)];
    if isLast {
      fields := fields["timestamp" := Str(names.timestamp)];
    }
  }

  /** Drops the fields that would leak state into the fork. */
  method Strip(before: map<string, Value>) returns (fields: map<string, Value>)
    ensures Get(Obj(fields), "teamName").None? && Get(Obj(fields), "agentName").None?
    ensures Get(Obj(fields), "slug").None? && Get(Obj(fields), "sourceToolAssistantUUID").None?
    ensures forall key :: key !in {"teamName", "agentName", "slug", "sourceToolAssistantUUID"} ==>
      Get(Obj(fields), key) == Get(Obj(before), key)
  {
    fields := before - {"teamName"};
    fields := fields - {"agentName"};
    fields := fields - {"slug"};
    fields := fields - {"sourceToolAssistantUUID"};
  }

  lemma KeysDiffer()
    ensures "uuid" != "slug"
    ensures "parentUuid" != "forkedFrom"
    ensures "sessionId" != "timestamp" && "sessionId" != "agentName" && "timestamp" != "agentName"
  {
    assert "uuid"[0] != "slug"[0];
    assert "parentUuid"[0] != "forkedFrom"[0];
    assert "sessionId"[0] != "timestamp"[0] && "sessionId"[0] != "agentName"[0] && "timestamp"[0] != "agentName"[0];
  }

  predicate LooksUp(mapping: map<string, string>, transcript: Entries, draw: nat -> string, u: string) {
    NewName(transcript, draw, u) == if u in mapping then Some(mapping[u]) else None
  }

  function Lookup(mapping: map<string, string>, u: Option<string>): Option<string> {
    if u.Some? && u.value in mapping then Some(mapping[u.value]) else None
  }

  method RemapForkEntry(e: Value, transcript: Entries, mapping: map<string, string>, ghost draw: nat -> string,
                        names: ForkNames, isLast: bool)
    returns (r: Value)
    requires forall u :: LooksUp(mapping, transcript, draw, u)
    requires ClimbEnds(transcript, Parent(e))
    ensures IsRemapOf(r, e, transcript, draw, names, isLast)
  {
    var original, logical := OriginalUuid(e), GetStr(e, "logicalParentUuid");
    var parent := SkipProgress(transcript, Parent(e));
    assert LooksUp(mapping, transcript, draw, original);
    assert parent.Some? ==> LooksUp(mapping, transcript, draw, parent.value);
    assert logical.Some? ==> LooksUp(mapping, transcript, draw, logical.value);
    r := RewriteEntry(e, Lookup(mapping, Some(original)), Lookup(mapping, parent), Lookup(mapping, logical),
                      names, isLast);
  }

  lemma EndsAtHere(transcript: Entries, p: Option<string>, n: nat, k: nat)
    requires EndsAt(transcript, p, n) && k <= n
    requires NthUp(transcript, p, k).Some? ==> !NamesProgress(transcript, NthUp(transcript, p, k).value)
    ensures k == n
  {
  }

  // ---------------------------------------------------------------------
  // The forked transcript.
  // ---------------------------------------------------------------------

  function ForkTitle(title: Option<string>, derived: Option<string>): string {
    if title.Some? && Trim(title.value) != "" then Trim(title.value)
    else (if derived.Some? then derived.value else "Forked session") + " (fork)"
  }

  /** A given title counts without the white space around it, unless it is
      blank; else the derived one does, and a stock phrase stands in for it. */
  ghost predicate IsForkTitle(title: Option<string>, derived: Option<string>, r: string) {
    if title.Some? && !Wraps(title.value, "") then r != "" && Wraps(title.value, r)
    else if derived.Some? then r == derived.value + " (fork)"
    else r == "Forked session (fork)"
  }

  lemma TitleExactly(title: Option<string>, derived: Option<string>, r: string)
    ensures IsForkTitle(title, derived, r) <==> r == ForkTitle(title, derived)
  {
    if title.Some? {
      TrimExactly(title.value, r);
      TrimExactly(title.value, "");
    }
    assert "Forked session" + " (fork)" == "Forked session (fork)";
  }

  function TitleEntry(names: ForkNames, uuid: string, title: string): Value {
    Obj(map["type" := Str("custom-title"), "customTitle" := Str(title), "sessionId" := Str(names.forked),
            "uuid" := Str(uuid), "timestamp" := Str(names.titleTimestamp)])
  }

  lemma TitleEntryFields(names: ForkNames, uuid: string, title: string)
    ensures var e := TitleEntry(names, uuid, title);
            && Get(e, "type") == Some(Str("custom-title")) && Get(e, "customTitle") == Some(Str(title))
            && Get(e, "sessionId") == Some(Str(names.forked)) && Get(e, "uuid") == Some(Str(uuid))
            && Get(e, "timestamp") == Some(Str(names.titleTimestamp))
            && forall key :: key !in {"type", "customTitle", "sessionId", "uuid", "timestamp"} ==> Get(e, key).None?
  {
    assert "type"[0] != "customTitle"[0] && "type"[0] != "sessionId"[0] && "type"[0] != "uuid"[0];
    assert "type"[1] != "timestamp"[1] && "customTitle"[0] != "sessionId"[0] && "customTitle"[0] != "uuid"[0];
    assert "customTitle"[0] != "timestamp"[0] && "sessionId"[0] != "uuid"[0] && "sessionId"[0] != "timestamp"[0];
    assert "uuid"[0] != "timestamp"[0];
  }

  ghost predicate ClimbsEnd(transcript: Entries) {
    forall i :: 0 <= i < |transcript| && NotProgress(transcript[i]) ==> ClimbEnds(transcript, Parent(transcript[i]))
  }

  /** One line per entry that is not progress, in order, then the title. */
  ghost predicate IsForkOf(lines: Entries, transcript: Entries, draw: nat -> string, names: ForkNames, title: string)
    requires ClimbsEnd(transcript)
  {
    var ws := Select(transcript, NotProgress);
    && |lines| == |ws| + 1
    && (forall k :: 0 <= k < |ws| ==>
          IsRemapOf(lines[k], transcript[ws[k]], transcript, draw, names, k == |ws| - 1))
    && lines[|ws|] == TitleEntry(names, draw(|transcript|), title)
  }

  method BuildForkLines(es: Entries, names: ForkNames, upTo: Option<string>, title: Option<string>,
                        derived: Option<string>, draw: nat -> string)
    returns (r: Result<Entries, ForkError>)
    requires ForkSource(es, upTo).Ok? ==> ClimbsEnd(ForkSource(es, upTo).value)
    ensures match ForkSource(es, upTo)
            case Err(error) => r == Err(error)
            case Ok(transcript) => r.Ok? && IsForkOf(r.value, transcript, draw, names, ForkTitle(title, derived))
  {
    var source := ForkSource(es, upTo);
    if source.Err? {
      return Err(source.error);
    }
    var transcript := source.value;
    var mapping := UuidMapping(transcript, draw);
    var writable := Select(transcript, NotProgress);
    var lines: Entries := [];
    for k := 0 to |writable|
      invariant |lines| == k
      invariant forall j :: 0 <= j < k ==>
        IsRemapOf(lines[j], transcript[writable[j]], transcript, draw, names, j == |writable| - 1)
    {
      assert writable[k] in writable;
      var line := RemapForkEntry(transcript[writable[k]], transcript, mapping, draw, names, k == |writable| - 1);
      lines := lines + [line];
    }
    lines := lines + [TitleEntry(names, draw(|transcript|), ForkTitle(title, derived))];
    return Ok(lines);
  }
}
