/** Folding transcript entries into a session summary, and reading the summary
    back as session information. */
module Summary {
  import opened Wrappers
  import opened Json
  import opened Text
  import opened Iso8601
  import opened Transcript

  /** The two patterns the code matches prompts against: the name in a command
      tag, and the texts that never count as a prompt. */
  datatype Patterns = Patterns(command: string -> Option<string>, skips: string -> bool)

  /** The summary bag. It only ever holds these keys. */
  datatype Data = Data(
    isSidechain: bool,
    createdAt: Option<int>,
    cwd: Option<string>,
    customTitle: Option<string>,
    aiTitle: Option<string>,
    lastPrompt: Option<string>,
    summaryHint: Option<string>,
    gitBranch: Option<string>,
    tag: Option<string>,
    commandFallback: Option<string>,
    firstPrompt: Option<string>,
    firstPromptLocked: bool)

  const EMPTY: Data := Data(false, None, None, None, None, None, None, None, None, None, None, false)

  datatype SummaryEntry = SummaryEntry(sessionId: string, mtime: int, data: Data)

  // ---------------------------------------------------------------------
  // Prompt texts.
  // ---------------------------------------------------------------------

  const FIRST_PROMPT_MAX_CHARS: nat := 200

  function TruncatePrompt(text: string): string {
    if |text| <= FIRST_PROMPT_MAX_CHARS then text
    else TrimEnd(text[..FIRST_PROMPT_MAX_CHARS]) + ['\U{2026}']
  }

  function NewlinesToSpaces(text: string): string {
    seq(|text|, k requires 0 <= k < |text| => if text[k] == '\n' then ' ' else text[k])
  }

  predicate HasToolResult(blocks: seq<Value>) {
    exists k :: 0 <= k < |blocks| && GetStr(blocks[k], "type") == Some("tool_result")
  }

  function TextsOf(blocks: seq<Value>): seq<string> {
    if blocks == [] then []
    else
      var text := GetStr(blocks[0], "text");
      (if GetStr(blocks[0], "type") == Some("text") && text.Some? then [text.value] else []) + TextsOf(blocks[1..])
  }

  function UserTextBlocks(e: Value): seq<string> {
    match Get(e, "message")
    case None => []
    case Some(message) =>
      match Get(message, "content")
      case Some(Str(text)) => [text]
      case Some(Arr(blocks)) => if HasToolResult(blocks) then [] else TextsOf(blocks)
      case _ => []
  }

  predicate IsUser(e: Value) { Kind(e) == Some("user") }

  predicate IsCompactSummary(e: Value) { IsTrue(e, "isCompactSummary") }

  /** The texts an entry offers as prompts. */
  function PromptTexts(e: Value): seq<string> {
    if IsUser(e) && !IsMeta(e) && !IsCompactSummary(e) then UserTextBlocks(e) else []
  }

  /** What one text is. */
  datatype Reading = Nothing | Command(name: string) | Prompt(text: string)

  function Read(p: Patterns, raw: string): Reading {
    var text := Trim(NewlinesToSpaces(raw));
    if text == "" then Nothing
    else match p.command(text)
      case Some(name) => Command(name)
      case None => if p.skips(text) then Nothing else Prompt(TruncatePrompt(text))
  }

  // ---------------------------------------------------------------------
  // The fold: specification.
  // ---------------------------------------------------------------------

  function FoldText(p: Patterns, data: Data, raw: string): Data {
    if data.firstPromptLocked then data
    else match Read(p, raw)
      case Nothing => data
      case Command(name) => if data.commandFallback.Some? then data else data.(commandFallback := Some(name))
      case Prompt(text) => data.(firstPrompt := Some(text), firstPromptLocked := true)
  }

  function FoldTexts(p: Patterns, data: Data, texts: seq<string>): Data {
    if texts == [] then data else FoldText(p, FoldTexts(p, data, texts[..|texts| - 1]), texts[|texts| - 1])
  }

  function Keep(held: Option<string>, given: Option<string>): Option<string> {
    if held.Some? then held else given
  }

  function Replace(held: Option<string>, given: Option<string>): Option<string> {
    if given.Some? then given else held
  }

  function TimestampOf(e: Value): Option<int> {
    match GetStr(e, "timestamp")
    case None => None
    case Some(text) => ParseIso8601Ms(text)
  }

  predicate IsTagEntry(e: Value) { Kind(e) == Some("tag") }

  /** An empty or missing tag text clears the tag. */
  function TagOf(e: Value): Option<string> {
    match GetStr(e, "tag")
    case Some(tag) => if tag == "" then None else Some(tag)
    case None => None
  }

  function FoldFields(data: Data, e: Value): Data {
    data.(
      isSidechain := data.isSidechain || IsSidechain(e),
      createdAt := if data.createdAt.Some? then data.createdAt else TimestampOf(e),
      cwd := Keep(data.cwd, GetStr(e, "cwd")),
      customTitle := Replace(data.customTitle, GetStr(e, "customTitle")),
      aiTitle := Replace(data.aiTitle, GetStr(e, "aiTitle")),
      lastPrompt := Replace(data.lastPrompt, GetStr(e, "lastPrompt")),
      summaryHint := Replace(data.summaryHint, GetStr(e, "summary")),
      gitBranch := Replace(data.gitBranch, GetStr(e, "gitBranch")),
      tag := if IsTagEntry(e) then TagOf(e) else data.tag)
  }

  function FoldEntry(p: Patterns, data: Data, e: Value): Data {
    FoldTexts(p, FoldFields(data, e), PromptTexts(e))
  }

  function Fold(p: Patterns, data: Data, es: Entries): Data {
    if es == [] then data else FoldEntry(p, Fold(p, data, es[..|es| - 1]), es[|es| - 1])
  }

  // ---------------------------------------------------------------------
  // The fold: the loops.
  // ---------------------------------------------------------------------

  lemma {:induction false} LockedStays(p: Patterns, data: Data, texts: seq<string>)
    requires data.firstPromptLocked
    ensures FoldTexts(p, data, texts) == data
  {
    if texts != [] { LockedStays(p, data, texts[..|texts| - 1]); }
  }

  lemma {:induction false} FoldTextsConcat(p: Patterns, data: Data, a: seq<string>, b: seq<string>)
    ensures FoldTexts(p, data, a + b) == FoldTexts(p, FoldTexts(p, data, a), b)
  {
    if b == [] {
      assert a + b == a;
    } else {
      assert (a + b)[..|a + b| - 1] == a + b[..|b| - 1];
      FoldTextsConcat(p, data, a, b[..|b| - 1]);
    }
  }

  method FoldFirstPrompt(p: Patterns, before: Data, e: Value) returns (data: Data)
    ensures data == FoldTexts(p, before, PromptTexts(e))
  {
    data := before;
    if data.firstPromptLocked {
      LockedStays(p, before, PromptTexts(e));
      return;
    }
    if !IsUser(e) || IsMeta(e) || IsCompactSummary(e) {
      return;
    }
    var texts := UserTextBlocks(e);
    for k := 0 to |texts|
      invariant data == FoldTexts(p, before, texts[..k])
      invariant !data.firstPromptLocked
    {
      assert texts[..k + 1][..k] == texts[..k];
      ghost var folded := FoldText(p, data, texts[k]);
      assert FoldTexts(p, before, texts[..k + 1]) == folded;
      match Read(p, texts[k]) {
        case Nothing =>
        case Command(name) =>
          if data.commandFallback.None? {
            data := data.(commandFallback := Some(name));
          }
        case Prompt(text) =>
          data := data.(firstPrompt := Some(text), firstPromptLocked := true);
          PrefixLocks(p, before, texts, k + 1);
          return;
      }
    }
    assert texts[..|texts|] == texts;
  }

  method FoldOneEntry(p: Patterns, before: Data, e: Value) returns (data: Data)
    ensures data == FoldEntry(p, before, e)
  {
    data := before;
    if IsSidechain(e) {
      data := data.(isSidechain := true);
    }
    if data.createdAt.None? {
      data := data.(createdAt := TimestampOf(e));
    }
    data := data.(cwd := Keep(data.cwd, GetStr(e, "cwd")));
    data := data.(customTitle := Replace(data.customTitle, GetStr(e, "customTitle")));
    data := data.(aiTitle := Replace(data.aiTitle, GetStr(e, "aiTitle")));
    data := data.(lastPrompt := Replace(data.lastPrompt, GetStr(e, "lastPrompt")));
    data := data.(summaryHint := Replace(data.summaryHint, GetStr(e, "summary")));
    data := data.(gitBranch := Replace(data.gitBranch, GetStr(e, "gitBranch")));
    if IsTagEntry(e) {
      data := data.(tag := TagOf(e));
    }
    data := FoldFirstPrompt(p, data, e);
  }

  /** Folds one append batch into the previous summary, if there is one. */
  method FoldSessionSummary(p: Patterns, prev: Option<SummaryEntry>, sessionId: string, es: Entries)
    returns (summary: SummaryEntry)
    ensures summary == FoldedSummary(p, prev, sessionId, es)
  {
    var data := if prev.Some? then prev.value.data else EMPTY;
    ghost var start := data;
    for i := 0 to |es|
      invariant data == Fold(p, start, es[..i])
    {
      assert es[..i + 1][..i] == es[..i];
      data := FoldOneEntry(p, data, es[i]);
    }
    assert es[..|es|] == es;
    summary := SummaryEntry(sessionId, if prev.Some? then prev.value.mtime else 0, data);
  }

  function FoldedSummary(p: Patterns, prev: Option<SummaryEntry>, sessionId: string, es: Entries): SummaryEntry {
    SummaryEntry(sessionId,
                 if prev.Some? then prev.value.mtime else 0,
                 Fold(p, if prev.Some? then prev.value.data else EMPTY, es))
  }

  /** How entries are batched does not matter. */
  lemma {:induction false} FoldConcat(p: Patterns, data: Data, a: Entries, b: Entries)
    ensures Fold(p, data, a + b) == Fold(p, Fold(p, data, a), b)
  {
    if b == [] {
      assert a + b == a;
    } else {
      assert (a + b)[..|a + b| - 1] == a + b[..|b| - 1];
      FoldConcat(p, data, a, b[..|b| - 1]);
    }
  }

  // ---------------------------------------------------------------------
  // What the fold of a transcript from scratch says about it.
  // ---------------------------------------------------------------------

  /** `value` is the first result of `f` on the entries, if any has one. */
  ghost predicate FirstIs<T>(es: Entries, f: Value -> Option<T>, value: Option<T>) {
    match value
    case None => forall j :: 0 <= j < |es| ==> f(es[j]).None?
    case Some(_) => exists i :: 0 <= i < |es| && f(es[i]) == value && forall j :: 0 <= j < i ==> f(es[j]).None?
  }

  /** `value` is the last result of `f` on the entries, if any has one. */
  ghost predicate LastIs<T>(es: Entries, f: Value -> Option<T>, value: Option<T>) {
    match value
    case None => forall j :: 0 <= j < |es| ==> f(es[j]).None?
    case Some(_) => exists i :: 0 <= i < |es| && f(es[i]) == value && forall j :: i < j < |es| ==> f(es[j]).None?
  }

  /** The text under `key`. */
  function Str(key: string): Value -> Option<string> { e => GetStr(e, key) }

  /** Entry `e` sets the tag; an empty or missing text clears it. */
  ghost predicate SetsTag(e: Value, value: Option<string>) {
    && Get(e, "type") == Some(Json.Str("tag"))
    && if value.Some? then value.value != "" && Get(e, "tag") == Some(Json.Str(value.value))
       else forall text :: text != "" ==> Get(e, "tag") != Some(Json.Str(text))
  }

  ghost predicate LastTagIs(es: Entries, value: Option<string>) {
    if exists i :: 0 <= i < |es| && Get(es[i], "type") == Some(Json.Str("tag"))
    then exists i :: 0 <= i < |es| && SetsTag(es[i], value)
                     && forall j :: i < j < |es| ==> Get(es[j], "type") != Some(Json.Str("tag"))
    else value.None?
  }

  ghost predicate StampedAt(e: Value, time: int) {
    exists text :: Get(e, "timestamp") == Some(Json.Str(text)) && ParseIso8601Ms(text) == Some(time)
  }

  /** `value` is the time of the first entry that carries one, if any does. */
  ghost predicate FirstStampIs(es: Entries, value: Option<int>) {
    match value
    case None => forall j, time :: 0 <= j < |es| ==> !StampedAt(es[j], time)
    case Some(t) =>
      exists i :: 0 <= i < |es| && StampedAt(es[i], t) && forall j, time :: 0 <= j < i ==> !StampedAt(es[j], time)
  }

  ghost predicate Describes(data: Data, es: Entries) {
    && (data.isSidechain <==> exists i :: 0 <= i < |es| && Get(es[i], "isSidechain") == Some(Bool(true)))
    && FirstStampIs(es, data.createdAt)
    && FirstIs(es, Str("cwd"), data.cwd)
    && LastIs(es, Str("customTitle"), data.customTitle)
    && LastIs(es, Str("aiTitle"), data.aiTitle)
    && LastIs(es, Str("lastPrompt"), data.lastPrompt)
    && LastIs(es, Str("summary"), data.summaryHint)
    && LastIs(es, Str("gitBranch"), data.gitBranch)
    && LastTagIs(es, data.tag)
  }

  lemma FirstSnoc<T>(es: Entries, e: Value, f: Value -> Option<T>, value: Option<T>)
    requires FirstIs(es, f, value)
    ensures FirstIs(es + [e], f, if value.Some? then value else f(e))
  {
    var all := es + [e];
    if value.Some? {
      var i :| 0 <= i < |es| && f(es[i]) == value && forall j :: 0 <= j < i ==> f(es[j]).None?;
      assert all[i] == es[i];
    } else {
      assert all[|es|] == e;
    }
  }

  lemma LastSnoc<T>(es: Entries, e: Value, f: Value -> Option<T>, value: Option<T>)
    requires LastIs(es, f, value)
    ensures LastIs(es + [e], f, if f(e).Some? then f(e) else value)
  {
    var all := es + [e];
    if f(e).Some? {
      assert all[|es|] == e;
    } else if value.Some? {
      var i :| 0 <= i < |es| && f(es[i]) == value && forall j :: i < j < |es| ==> f(es[j]).None?;
      assert all[i] == es[i];
    }
  }

  lemma StampRead(e: Value, time: int)
    ensures StampedAt(e, time) <==> TimestampOf(e) == Some(time)
  {
  }

  lemma StampSnoc(es: Entries, e: Value, value: Option<int>, stamp: Option<int>)
    requires FirstStampIs(es, value)
    requires forall time :: StampedAt(e, time) <==> stamp == Some(time)
    ensures FirstStampIs(es + [e], if value.Some? then value else stamp)
  {
    var all := es + [e];
    assert all[|es|] == e;
    if value.Some? {
      var i :| 0 <= i < |es| && StampedAt(es[i], value.value)
               && forall j, time :: 0 <= j < i ==> !StampedAt(es[j], time);
      assert all[i] == es[i];
    }
  }

  lemma TagEntry(e: Value)
    ensures IsTagEntry(e) <==> Get(e, "type") == Some(Json.Str("tag"))
    ensures IsTagEntry(e) ==> SetsTag(e, TagOf(e))
  {
  }

  lemma LastTagSnoc(es: Entries, e: Value, value: Option<string>)
    requires LastTagIs(es, value)
    ensures LastTagIs(es + [e], if IsTagEntry(e) then TagOf(e) else value)
  {
    var all := es + [e];
    assert all[|es|] == e;
    TagEntry(e);
    if !IsTagEntry(e) && exists i :: 0 <= i < |es| && Get(es[i], "type") == Some(Json.Str("tag")) {
      var i :| 0 <= i < |es| && SetsTag(es[i], value)
               && forall j :: i < j < |es| ==> Get(es[j], "type") != Some(Json.Str("tag"));
      assert all[i] == es[i];
    }
  }

  lemma {:induction false} TextsKeepFields(p: Patterns, data: Data, texts: seq<string>)
    ensures var r := FoldTexts(p, data, texts);
            r == data.(commandFallback := r.commandFallback, firstPrompt := r.firstPrompt,
                       firstPromptLocked := r.firstPromptLocked)
  {
    if texts != [] { TextsKeepFields(p, data, texts[..|texts| - 1]); }
  }

  lemma DescribesSnoc(data: Data, es: Entries, e: Value)
    requires Describes(data, es)
    ensures Describes(FoldFields(data, e), es + [e])
  {
    LastSnoc(es, e, Str("customTitle"), data.customTitle);
    LastSnoc(es, e, Str("aiTitle"), data.aiTitle);
    LastSnoc(es, e, Str("lastPrompt"), data.lastPrompt);
    LastSnoc(es, e, Str("summary"), data.summaryHint);
    LastSnoc(es, e, Str("gitBranch"), data.gitBranch);
    FirstSnoc(es, e, Str("cwd"), data.cwd);
    forall time ensures StampedAt(e, time) <==> TimestampOf(e) == Some(time) { StampRead(e, time); }
    StampSnoc(es, e, data.createdAt, TimestampOf(e));
    LastTagSnoc(es, e, data.tag);
    SidechainSnoc(data, es, e);
  }

  lemma SidechainSnoc(data: Data, es: Entries, e: Value)
    requires data.isSidechain <==> exists i :: 0 <= i < |es| && Get(es[i], "isSidechain") == Some(Bool(true))
    ensures data.isSidechain || IsSidechain(e)
            <==> exists i :: 0 <= i < |es + [e]| && Get((es + [e])[i], "isSidechain") == Some(Bool(true))
  {
    var all := es + [e];
    assert all[|es|] == e;
    if data.isSidechain {
      var i :| 0 <= i < |es| && Get(es[i], "isSidechain") == Some(Bool(true));
      assert all[i] == es[i];
    }
  }

  lemma TextsKeepDescription(p: Patterns, data: Data, texts: seq<string>, es: Entries)
    requires Describes(data, es)
    ensures Describes(FoldTexts(p, data, texts), es)
  {
    TextsKeepFields(p, data, texts);
  }

  /** Every field of a summary folded from scratch, in terms of the transcript. */
  lemma {:induction false} FoldDescribes(p: Patterns, es: Entries)
    ensures Describes(Fold(p, EMPTY, es), es)
  {
    if es != [] {
      var init, e := es[..|es| - 1], es[|es| - 1];
      var data := Fold(p, EMPTY, init);
      FoldDescribes(p, init);
      assert es == init + [e];
      EntryDescribes(p, data, init, e);
    }
  }

  lemma EntryDescribes(p: Patterns, data: Data, es: Entries, e: Value)
    requires Describes(data, es)
    ensures Describes(FoldEntry(p, data, e), es + [e])
  {
    DescribesSnoc(data, es, e);
    TextsKeepDescription(p, FoldFields(data, e), PromptTexts(e), es + [e]);
  }

  lemma LastWins(p: Patterns, es: Entries, title: string)
    requires es != [] && GetStr(es[|es| - 1], "customTitle") == Some(title)
    ensures Fold(p, EMPTY, es).customTitle == Some(title)
  {
    FoldDescribes(p, es);
    LastIsLast(es, Str("customTitle"), Fold(p, EMPTY, es).customTitle);
  }

  lemma LastIsLast<T(!new)>(es: Entries, f: Value -> Option<T>, value: Option<T>)
    requires es != [] && f(es[|es| - 1]).Some? && LastIs(es, f, value)
    ensures value == f(es[|es| - 1])
  {
  }

  // ---------------------------------------------------------------------
  // First prompt and command fallback.
  // ---------------------------------------------------------------------

  function AllTexts(es: Entries): seq<string> {
    if es == [] then [] else AllTexts(es[..|es| - 1]) + PromptTexts(es[|es| - 1])
  }

  predicate SamePrompts(a: Data, b: Data) {
    a.commandFallback == b.commandFallback && a.firstPrompt == b.firstPrompt
    && a.firstPromptLocked == b.firstPromptLocked
  }

  lemma {:induction false} TextsRespectPrompts(p: Patterns, a: Data, b: Data, texts: seq<string>)
    requires SamePrompts(a, b)
    ensures SamePrompts(FoldTexts(p, a, texts), FoldTexts(p, b, texts))
  {
    if texts != [] { TextsRespectPrompts(p, a, b, texts[..|texts| - 1]); }
  }

  lemma {:induction false} FoldReadsAllTexts(p: Patterns, es: Entries)
    ensures SamePrompts(Fold(p, EMPTY, es), FoldTexts(p, EMPTY, AllTexts(es)))
  {
    if es != [] {
      var init, e := es[..|es| - 1], es[|es| - 1];
      FoldReadsAllTexts(p, init);
      FoldTextsConcat(p, EMPTY, AllTexts(init), PromptTexts(e));
      TextsRespectPrompts(p, FoldFields(Fold(p, EMPTY, init), e), FoldTexts(p, EMPTY, AllTexts(init)), PromptTexts(e));
    }
  }

  // ---------------------------------------------------------------------
  // The line scanner.
  // ---------------------------------------------------------------------

  predicate Mentions(line: string, part: string) {
    part <= line || (line != "" && Mentions(line[1..], part))
  }

  predicate MentionsUser(line: string) {
    Mentions(line, "\"type\":\"user\"") || Mentions(line, "\"type\": \"user\"")
  }

  predicate MentionsToolResult(line: string) { Mentions(line, "\"tool_result\"") }

  predicate MentionsMeta(line: string) {
    Mentions(line, "\"isMeta\":true") || Mentions(line, "\"isMeta\": true")
  }

  predicate MentionsCompact(line: string) {
    Mentions(line, "\"isCompactSummary\":true") || Mentions(line, "\"isCompactSummary\": true")
  }

  predicate Passes(line: string) {
    MentionsUser(line) && !MentionsToolResult(line) && !MentionsMeta(line) && !MentionsCompact(line)
  }

  function LineTexts(parse: string -> Option<Value>, line: string): seq<string> {
    if !Passes(line) then []
    else match parse(line)
      case None => []
      case Some(e) => if IsUser(e) then UserTextBlocks(e) else []
  }

  function AllLineTexts(parse: string -> Option<Value>, lines: seq<string>): seq<string> {
    if lines == [] then [] else AllLineTexts(parse, lines[..|lines| - 1]) + LineTexts(parse, lines[|lines| - 1])
  }

  function BestPrompt(data: Data): Option<string> {
    if data.firstPrompt.Some? then data.firstPrompt else data.commandFallback
  }

  function WithFallback(fallback: Option<string>): Data { EMPTY.(commandFallback := fallback) }

  /** One line's texts: the first real prompt, else the fallback so far. */
  method ScanTexts(p: Patterns, held: Option<string>, texts: seq<string>)
    returns (prompt: Option<string>, fallback: Option<string>)
    ensures var data := FoldTexts(p, WithFallback(held), texts);
            if prompt.Some? then data.firstPromptLocked && data.firstPrompt == prompt
            else data == WithFallback(fallback)
  {
    fallback := held;
    for k := 0 to |texts|
      invariant FoldTexts(p, WithFallback(held), texts[..k]) == WithFallback(fallback)
    {
      assert texts[..k + 1][..k] == texts[..k];
      ghost var data := FoldText(p, WithFallback(fallback), texts[k]);
      assert FoldTexts(p, WithFallback(held), texts[..k + 1]) == data;
      match Read(p, texts[k]) {
        case Nothing =>
        case Command(name) =>
          if fallback.None? {
            fallback := Some(name);
          }
        case Prompt(text) =>
          PrefixLocks(p, WithFallback(held), texts, k + 1);
          return Some(text), fallback;
      }
    }
    assert texts[..|texts|] == texts;
    prompt := None;
  }

  lemma PrefixLocks(p: Patterns, data: Data, texts: seq<string>, k: nat)
    requires k <= |texts| && FoldTexts(p, data, texts[..k]).firstPromptLocked
    ensures FoldTexts(p, data, texts) == FoldTexts(p, data, texts[..k])
  {
    assert texts == texts[..k] + texts[k..];
    FoldTextsConcat(p, data, texts[..k], texts[k..]);
    LockedStays(p, FoldTexts(p, data, texts[..k]), texts[k..]);
  }

  /** Stops at the first real prompt, remembering the first command. */
  method FirstPromptFromTextLines(p: Patterns, parse: string -> Option<Value>, lines: seq<string>)
    returns (r: Option<string>)
    ensures r == BestPrompt(FoldTexts(p, EMPTY, AllLineTexts(parse, lines)))
  {
    var fallback: Option<string> := None;
    for i := 0 to |lines|
      invariant FoldTexts(p, EMPTY, AllLineTexts(parse, lines[..i])) == WithFallback(fallback)
    {
      NextLine(p, parse, lines, i, WithFallback(fallback));
      var texts := LineTexts(parse, lines[i]);
      var prompt, next := ScanTexts(p, fallback, texts);
      if prompt.Some? {
        PromptIsFinal(p, parse, lines, i + 1);
        return prompt;
      }
      fallback := next;
    }
    assert lines[..|lines|] == lines;
    return fallback;
  }

  lemma NextLine(p: Patterns, parse: string -> Option<Value>, lines: seq<string>, i: nat, data: Data)
    requires i < |lines| && FoldTexts(p, EMPTY, AllLineTexts(parse, lines[..i])) == data
    ensures FoldTexts(p, EMPTY, AllLineTexts(parse, lines[..i + 1])) == FoldTexts(p, data, LineTexts(parse, lines[i]))
  {
    assert lines[..i + 1][..i] == lines[..i];
    FoldTextsConcat(p, EMPTY, AllLineTexts(parse, lines[..i]), LineTexts(parse, lines[i]));
  }

  lemma PromptIsFinal(p: Patterns, parse: string -> Option<Value>, lines: seq<string>, i: nat)
    requires i <= |lines| && FoldTexts(p, EMPTY, AllLineTexts(parse, lines[..i])).firstPromptLocked
    ensures FoldTexts(p, EMPTY, AllLineTexts(parse, lines)) == FoldTexts(p, EMPTY, AllLineTexts(parse, lines[..i]))
  {
    LineTextsPrefix(parse, lines, i);
    var all, k := AllLineTexts(parse, lines), |AllLineTexts(parse, lines[..i])|;
    assert all[..k] == AllLineTexts(parse, lines[..i]);
    PrefixLocks(p, EMPTY, all, k);
  }

  lemma {:induction false} LineTextsPrefix(parse: string -> Option<Value>, lines: seq<string>, i: nat)
    requires i <= |lines|
    ensures AllLineTexts(parse, lines[..i]) <= AllLineTexts(parse, lines)
    decreases |lines| - i
  {
    if i == |lines| {
      assert lines[..i] == lines;
    } else {
      LineTextsPrefix(parse, lines, i + 1);
      assert lines[..i + 1][..i] == lines[..i];
    }
  }

  /** The substring filters say of a user line what its parsed fields say. */
  predicate FiltersAgree(line: string, e: Value) {
    IsUser(e) ==>
      && MentionsUser(line)
      && (MentionsMeta(line) <==> IsMeta(e))
      && (MentionsCompact(line) <==> IsCompactSummary(e))
      && (MentionsToolResult(line) ==> UserTextBlocks(e) == [])
  }

  function ParsedEntries(parse: string -> Option<Value>, lines: seq<string>): Entries {
    if lines == [] then []
    else
      var e := parse(lines[|lines| - 1]);
      ParsedEntries(parse, lines[..|lines| - 1]) + if e.Some? then [e.value] else []
  }

  lemma {:induction false} SameTexts(parse: string -> Option<Value>, lines: seq<string>)
    requires forall i :: 0 <= i < |lines| && parse(lines[i]).Some? ==> FiltersAgree(lines[i], parse(lines[i]).value)
    ensures AllLineTexts(parse, lines) == AllTexts(ParsedEntries(parse, lines))
  {
    if lines != [] {
      var init, line := lines[..|lines| - 1], lines[|lines| - 1];
      SameTexts(parse, init);
      var es := ParsedEntries(parse, init);
      match parse(line)
      case None =>
        assert es + [] == es;
      case Some(e) =>
        assert FiltersAgree(line, e);
        assert LineTexts(parse, line) == PromptTexts(e);
        assert (es + [e])[..|es + [e]| - 1] == es;
    }
  }

  /** Batches folded one after the other. */
  function FoldBatches(p: Patterns, data: Data, batches: seq<Entries>): Data {
    if batches == [] then data else Fold(p, FoldBatches(p, data, batches[..|batches| - 1]), batches[|batches| - 1])
  }

  function Flattened(batches: seq<Entries>): Entries {
    if batches == [] then [] else Flattened(batches[..|batches| - 1]) + batches[|batches| - 1]
  }

  /** However entries are batched, the fold is that of all of them. */
  lemma {:induction false} FoldAnyBatches(p: Patterns, data: Data, batches: seq<Entries>)
    ensures FoldBatches(p, data, batches) == Fold(p, data, Flattened(batches))
  {
    if batches != [] {
      var init, last := batches[..|batches| - 1], batches[|batches| - 1];
      FoldAnyBatches(p, data, init);
      FoldConcat(p, data, Flattened(init), last);
    }
  }

  /** The scanner and the fold, batched in any way, find the same prompt. */
  lemma ScannerAgreesWithFold(p: Patterns, parse: string -> Option<Value>, lines: seq<string>, batches: seq<Entries>)
    requires forall i :: 0 <= i < |lines| && parse(lines[i]).Some? ==> FiltersAgree(lines[i], parse(lines[i]).value)
    requires Flattened(batches) == ParsedEntries(parse, lines)
    ensures BestPrompt(FoldTexts(p, EMPTY, AllLineTexts(parse, lines))) == BestPrompt(FoldBatches(p, EMPTY, batches))
  {
    SameTexts(parse, lines);
    FoldReadsAllTexts(p, Flattened(batches));
    FoldAnyBatches(p, EMPTY, batches);
  }

  // ---------------------------------------------------------------------
  // Session information.
  // ---------------------------------------------------------------------

  datatype SessionInfo = SessionInfo(
    sessionId: string,
    summary: string,
    lastModified: int,
    customTitle: Option<string>,
    firstPrompt: Option<string>,
    gitBranch: Option<string>,
    cwd: Option<string>,
    tag: Option<string>,
    createdAt: Option<int>)

  /** An empty string counts as absent. */
  function NonEmpty(s: Option<string>): Option<string> {
    if s == Some("") then None else s
  }

  function OrElse(a: Option<string>, b: Option<string>): Option<string> {
    if a.Some? then a else b
  }

  function ToInfo(entry: SummaryEntry, projectPath: Option<string>): (info: Option<SessionInfo>)
    ensures info.Some? ==> info.value.sessionId == entry.sessionId && info.value.lastModified == entry.mtime
    ensures info.Some? ==> info.value.summary != "" && !entry.data.isSidechain
  {
    var data := entry.data;
    if data.isSidechain then None
    else
      var customTitle := OrElse(NonEmpty(data.customTitle), NonEmpty(data.aiTitle));
      var firstPrompt := OrElse(NonEmpty(data.firstPrompt), NonEmpty(data.commandFallback));
      var summary := OrElse(OrElse(customTitle, NonEmpty(data.lastPrompt)),
                            OrElse(NonEmpty(data.summaryHint), firstPrompt));
      if summary.None? then None
      else Some(SessionInfo(entry.sessionId, summary.value, entry.mtime, customTitle, firstPrompt,
                            NonEmpty(data.gitBranch), OrElse(NonEmpty(data.cwd), projectPath),
                            NonEmpty(data.tag), data.createdAt))
  }

  predicate Says(text: Option<string>) { text.Some? && text.value != "" }

  /** `r` is the first text that says something, if one does. */
  ghost predicate IsFirstText(texts: seq<Option<string>>, r: Option<string>) {
    match r
    case None => forall k :: 0 <= k < |texts| ==> !Says(texts[k])
    case Some(_) =>
      exists k :: 0 <= k < |texts| && texts[k] == r && Says(r) && forall j :: 0 <= j < k ==> !Says(texts[j])
  }

  /** The texts a session can be listed under, in order of preference. */
  function Titles(data: Data): seq<Option<string>> {
    [data.customTitle, data.aiTitle, data.lastPrompt, data.summaryHint, data.firstPrompt, data.commandFallback]
  }

  lemma FirstOfTwo(a: Option<string>, b: Option<string>)
    ensures IsFirstText([a, b], OrElse(NonEmpty(a), NonEmpty(b)))
  {
    var texts, r := [a, b], OrElse(NonEmpty(a), NonEmpty(b));
    if Says(a) { assert texts[0] == r; } else if Says(b) { assert texts[1] == r; }
  }

  lemma FirstOfJoined(xs: seq<Option<string>>, ys: seq<Option<string>>, x: Option<string>, y: Option<string>)
    requires IsFirstText(xs, x) && IsFirstText(ys, y)
    ensures IsFirstText(xs + ys, OrElse(x, y))
  {
    var all := xs + ys;
    if x.Some? {
      var k :| 0 <= k < |xs| && xs[k] == x && Says(x) && forall j :: 0 <= j < k ==> !Says(xs[j]);
      assert all[k] == x;
    } else if y.Some? {
      var k :| 0 <= k < |ys| && ys[k] == y && Says(y) && forall j :: 0 <= j < k ==> !Says(ys[j]);
      assert all[|xs| + k] == y;
    }
  }

  /** A session is listed unless it is a sidechain or has no text at all, and
      then under the first text it has; the other fields are the first of
      their own alternatives. */
  lemma InfoReads(entry: SummaryEntry, path: Option<string>)
    ensures var data, info := entry.data, ToInfo(entry, path);
            (info.None? <==> data.isSidechain || IsFirstText(Titles(data), None))
            && (info.Some? ==>
                  && IsFirstText(Titles(data), Some(info.value.summary))
                  && IsFirstText([data.customTitle, data.aiTitle], info.value.customTitle)
                  && IsFirstText([data.firstPrompt, data.commandFallback], info.value.firstPrompt)
                  && info.value.tag == (if Says(data.tag) then data.tag else None)
                  && info.value.gitBranch == (if Says(data.gitBranch) then data.gitBranch else None)
                  && info.value.cwd == (if Says(data.cwd) then data.cwd else path)
                  && info.value.createdAt == data.createdAt)
  {
    var data := entry.data;
    FirstOfTwo(data.customTitle, data.aiTitle);
    FirstOfTwo(data.lastPrompt, data.summaryHint);
    FirstOfTwo(data.firstPrompt, data.commandFallback);
    var title := OrElse(NonEmpty(data.customTitle), NonEmpty(data.aiTitle));
    var hint := OrElse(NonEmpty(data.lastPrompt), NonEmpty(data.summaryHint));
    var prompt := OrElse(NonEmpty(data.firstPrompt), NonEmpty(data.commandFallback));
    FirstOfJoined([data.lastPrompt, data.summaryHint], [data.firstPrompt, data.commandFallback], hint, prompt);
    FirstOfJoined([data.customTitle, data.aiTitle],
                  [data.lastPrompt, data.summaryHint] + [data.firstPrompt, data.commandFallback],
                  title, OrElse(hint, prompt));
    var prompts := [data.firstPrompt, data.commandFallback];
    assert Titles(data) == [data.customTitle, data.aiTitle] + ([data.lastPrompt, data.summaryHint] + prompts);
  }
}
