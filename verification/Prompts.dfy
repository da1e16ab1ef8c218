/** Which user text becomes a session's first prompt, in terms of the JSON
    fields of its entries and the characters of the text. */
module Prompts {
  import opened Wrappers
  import opened Json
  import opened Text
  import opened Transcript
  import opened Summary

  // ---------------------------------------------------------------------
  // Reference: what one text is.
  // ---------------------------------------------------------------------

  /** `clean` is the text with spaces for its newlines and without the white
      space around it. */
  ghost predicate Cleans(raw: string, clean: string) {
    exists flat: string ::
      && |flat| == |raw| && (forall k :: 0 <= k < |raw| ==> flat[k] == if raw[k] as int == 10 then ' ' else raw[k])
      && Wraps(flat, clean)
  }

  /** A text of at most 200 characters as it is; a longer one cut there,
      without white space before the cut, and an ellipsis. */
  ghost predicate Shortens(clean: string, short: string) {
    if |clean| <= 200 then short == clean
    else exists n: nat :: IsCutAt(clean, n) && short == clean[..n] + ['\U{2026}']
  }

  /** From `n` to the 200th character there is only white space, and before `n`
      there is none. */
  ghost predicate IsCutAt(clean: string, n: nat)
    requires |clean| > 200
  {
    n <= 200 && IsBlank(clean[n..200]) && (n > 0 ==> !IsWhitespace(clean[n - 1]))
  }

  ghost predicate NamesCommand(p: Patterns, raw: string, name: string) {
    exists clean :: clean != "" && Cleans(raw, clean) && p.command(clean) == Some(name)
  }

  /** A real prompt: not blank, no command and not skipped. */
  ghost predicate Prompts(p: Patterns, raw: string, prompt: string) {
    exists clean :: clean != "" && Cleans(raw, clean) && p.command(clean).None? && !p.skips(clean)
                    && Shortens(clean, prompt)
  }

  lemma CleanExactly(raw: string, clean: string)
    ensures Cleans(raw, clean) <==> clean == Trim(NewlinesToSpaces(raw))
  {
    var flat := NewlinesToSpaces(raw);
    TrimExactly(flat, clean);
    forall other: string | |other| == |raw|
        && (forall k :: 0 <= k < |raw| ==> other[k] == if raw[k] as int == 10 then ' ' else raw[k])
      ensures other == flat
    {
    }
  }

  lemma ShortExactly(clean: string, short: string)
    ensures Shortens(clean, short) <==> short == TruncatePrompt(clean)
  {
    if |clean| > 200 {
      var n := CutAt(clean);
      forall m: nat | IsCutAt(clean, m) ensures m == n { CutOnce(clean, m); }
      assert IsCutAt(clean, n);
    }
  }

  lemma CutAt(clean: string) returns (n: nat)
    requires |clean| > 200
    ensures IsCutAt(clean, n) && clean[..n] == TrimEnd(clean[..200]) && n == |TrimEnd(clean[..200])|
  {
    var head := clean[..200];
    var trail := TrimEndCuts(head);
    n := |TrimEnd(head)|;
    assert head[..n] == TrimEnd(head) && head[n..] == trail;
    assert clean[..n] == head[..n] && clean[n..200] == head[n..];
    assert n > 0 ==> TrimEnd(head)[n - 1] == clean[n - 1];
  }

  lemma CutOnce(clean: string, m: nat)
    requires |clean| > 200 && IsCutAt(clean, m)
    ensures m == |TrimEnd(clean[..200])|
  {
    TrimEndBlank(clean[..m], clean[m..200]);
    assert clean[..m] + clean[m..200] == clean[..200];
  }

  lemma ReadExactly(p: Patterns, raw: string)
    ensures forall name :: NamesCommand(p, raw, name) <==> Read(p, raw) == Command(name)
    ensures forall prompt :: Prompts(p, raw, prompt) <==> Read(p, raw) == Prompt(prompt)
  {
    var clean := Trim(NewlinesToSpaces(raw));
    forall other ensures Cleans(raw, other) <==> other == clean { CleanExactly(raw, other); }
    forall short ensures Shortens(clean, short) <==> short == TruncatePrompt(clean) { ShortExactly(clean, short); }
  }

  // ---------------------------------------------------------------------
  // Reference: the texts of an entry.
  // ---------------------------------------------------------------------

  ghost predicate HasContent(e: Value, content: Value) {
    exists message :: Get(e, "message") == Some(message) && Get(message, "content") == Some(content)
  }

  ghost predicate IsTextBlock(block: Value, text: string) {
    Get(block, "type") == Some(Value.Str("text")) && Get(block, "text") == Some(Value.Str(text))
  }

  ghost predicate HasResult(blocks: seq<Value>) {
    exists k :: 0 <= k < |blocks| && Get(blocks[k], "type") == Some(Value.Str("tool_result"))
  }

  /** The text blocks, at the positions `idx`, carry `texts`. */
  ghost predicate CarryTexts(blocks: seq<Value>, idx: seq<nat>, texts: seq<string>) {
    && Ascending(idx, |blocks|) && |texts| == |idx|
    && (forall i :: 0 <= i < |blocks| ==> (i in idx <==> exists text :: IsTextBlock(blocks[i], text)))
    && forall j :: 0 <= j < |idx| ==> IsTextBlock(blocks[idx[j]], texts[j])
  }

  /** A list of blocks has the texts of its text blocks, but none beside a tool
      result. */
  ghost predicate BlocksSay(blocks: seq<Value>, texts: seq<string>) {
    if HasResult(blocks) then texts == [] else exists idx :: CarryTexts(blocks, idx, texts)
  }

  /** Content is one text, or a list of blocks. */
  ghost predicate ContentSays(e: Value, texts: seq<string>) {
    if exists text :: HasContent(e, Value.Str(text)) then
      |texts| == 1 && HasContent(e, Value.Str(texts[0]))
    else if exists blocks :: HasContent(e, Arr(blocks)) then
      exists blocks :: HasContent(e, Arr(blocks)) && BlocksSay(blocks, texts)
    else texts == []
  }

  /** Only a user's own entries, neither meta nor compact summaries, offer
      prompts. */
  ghost predicate Offers(e: Value, texts: seq<string>) {
    if Get(e, "type") == Some(Value.Str("user"))
       && Get(e, "isMeta") != Some(Bool(true)) && Get(e, "isCompactSummary") != Some(Bool(true))
    then ContentSays(e, texts)
    else texts == []
  }

  lemma ResultBlocks(blocks: seq<Value>)
    ensures HasResult(blocks) <==> HasToolResult(blocks)
  {
  }

  lemma {:induction false} TextBlocksRead(blocks: seq<Value>) returns (idx: seq<nat>)
    ensures CarryTexts(blocks, idx, TextsOf(blocks))
  {
    idx := [];
    if blocks != [] {
      var init, last := blocks[..|blocks| - 1], blocks[|blocks| - 1];
      idx := TextBlocksRead(init);
      assert blocks == init + [last];
      TextsSnoc(init, last);
      CarrySnoc(init, last, idx, TextsOf(init));
      if IsOfText(last) { idx := idx + [|init|]; }
    }
  }

  predicate IsOfText(block: Value) {
    GetStr(block, "type") == Some("text") && GetStr(block, "text").Some?
  }

  /** The text of one block, if it has one. */
  function TextOf(block: Value): seq<string> {
    if IsOfText(block) then [GetStr(block, "text").value] else []
  }

  lemma FirstText(blocks: seq<Value>)
    requires blocks != []
    ensures TextsOf(blocks) == TextOf(blocks[0]) + TextsOf(blocks[1..])
  {
  }

  lemma JoinedTexts(a: seq<string>, b: seq<string>, c: seq<string>)
    ensures a + (b + c) == a + b + c
  {
  }

  lemma {:induction false} TextsSnoc(blocks: seq<Value>, block: Value)
    ensures TextsOf(blocks + [block]) == TextsOf(blocks) + TextOf(block)
  {
    FirstText(blocks + [block]);
    if blocks == [] {
      assert (blocks + [block])[1..] == [];
    } else {
      TextsSnoc(blocks[1..], block);
      FirstText(blocks);
      assert (blocks + [block])[1..] == blocks[1..] + [block];
      JoinedTexts(TextOf(blocks[0]), TextsOf(blocks[1..]), TextOf(block));
    }
  }

  lemma CarrySnoc(blocks: seq<Value>, block: Value, idx: seq<nat>, texts: seq<string>)
    requires CarryTexts(blocks, idx, texts)
    ensures if IsOfText(block)
            then CarryTexts(blocks + [block], idx + [|blocks|], texts + [GetStr(block, "text").value])
            else CarryTexts(blocks + [block], idx, texts)
  {
    var all := blocks + [block];
    assert all[|blocks|] == block && forall i :: 0 <= i < |blocks| ==> all[i] == blocks[i];
    if IsOfText(block) {
      assert IsTextBlock(block, GetStr(block, "text").value);
      OneMorePosition(idx, |blocks|);
    }
  }

  lemma OneMorePosition(idx: seq<nat>, n: nat)
    requires Ascending(idx, n)
    ensures Ascending(idx + [n], n + 1)
    ensures forall i :: i in idx + [n] <==> i in idx || i == n
  {
  }

  lemma LastIsGreatest(a: seq<nat>, bound: nat)
    requires Ascending(a, bound) && a != []
    ensures a[|a| - 1] in a && forall i :: i in a ==> i <= a[|a| - 1]
    ensures Ascending(a[..|a| - 1], bound)
  {
  }

  lemma LastApart(a: seq<nat>, bound: nat, i: nat)
    requires Ascending(a, bound) && a != []
    ensures i in a[..|a| - 1] <==> i in a && i != a[|a| - 1]
  {
    var init, last := a[..|a| - 1], a[|a| - 1];
    assert a == init + [last];
    if i in init {
      var k :| 0 <= k < |init| && init[k] == i;
      assert a[k] == i;
    }
  }

  /** Ascending positions are determined by which they are. */
  lemma {:induction false} SamePositions(a: seq<nat>, b: seq<nat>, bound: nat)
    requires Ascending(a, bound) && Ascending(b, bound) && forall i :: i in a <==> i in b
    ensures a == b
    decreases |a|
  {
    assert (a != [] ==> a[0] in a) && (b != [] ==> b[0] in b);
    if a != [] && b != [] {
      LastIsGreatest(a, bound);
      LastIsGreatest(b, bound);
      assert a[|a| - 1] == b[|b| - 1];
      var c, d := a[..|a| - 1], b[..|b| - 1];
      forall i: nat ensures i in c <==> i in d {
        LastApart(a, bound, i);
        LastApart(b, bound, i);
      }
      SamePositions(c, d, bound);
      assert a == a[..|a| - 1] + [a[|a| - 1]] && b == b[..|b| - 1] + [b[|b| - 1]];
    }
  }

  lemma CarryUnique(blocks: seq<Value>, idx: seq<nat>, texts: seq<string>)
    requires CarryTexts(blocks, idx, texts)
    ensures texts == TextsOf(blocks)
  {
    var own := TextBlocksRead(blocks);
    forall i ensures i in idx <==> i in own { }
    SamePositions(idx, own, |blocks|);
  }

  lemma BlocksExactly(blocks: seq<Value>, texts: seq<string>)
    ensures BlocksSay(blocks, texts) <==> texts == if HasToolResult(blocks) then [] else TextsOf(blocks)
  {
    ResultBlocks(blocks);
    var own := TextBlocksRead(blocks);
    forall idx | CarryTexts(blocks, idx, texts) ensures texts == TextsOf(blocks) { CarryUnique(blocks, idx, texts); }
  }

  lemma ContentExactly(e: Value, texts: seq<string>)
    ensures ContentSays(e, texts) <==> texts == UserTextBlocks(e)
  {
    if blocks :| HasContent(e, Arr(blocks)) {
      assert forall text :: !HasContent(e, Value.Str(text));
      assert forall other :: HasContent(e, Arr(other)) ==> other == blocks;
      BlocksExactly(blocks, texts);
    } else if text :| HasContent(e, Value.Str(text)) {
      assert forall other :: HasContent(e, Value.Str(other)) ==> other == text;
    }
  }

  /** Exactly the texts the code folds. */
  lemma OffersExactly(e: Value, texts: seq<string>)
    ensures Offers(e, texts) <==> texts == PromptTexts(e)
  {
    ContentExactly(e, texts);
  }

  // ---------------------------------------------------------------------
  // What folding makes of texts.
  // ---------------------------------------------------------------------

  ghost predicate IsPrompt(p: Patterns, raw: string) {
    exists prompt :: Prompts(p, raw, prompt)
  }

  /** The first command among the texts, if there is one. */
  ghost predicate FirstCommand(p: Patterns, texts: seq<string>, value: Option<string>) {
    match value
    case None => forall j, name :: 0 <= j < |texts| ==> !NamesCommand(p, texts[j], name)
    case Some(name) =>
      exists i :: 0 <= i < |texts| && NamesCommand(p, texts[i], name)
                  && forall j, other :: 0 <= j < i ==> !NamesCommand(p, texts[j], other)
  }

  ghost predicate FirstPrompt(p: Patterns, texts: seq<string>, k: nat) {
    k < |texts| && IsPrompt(p, texts[k]) && forall j :: 0 <= j < k ==> !IsPrompt(p, texts[j])
  }

  /** What the fallback is after the texts: what it was, else the first command. */
  ghost predicate FallsBack(p: Patterns, texts: seq<string>, before: Option<string>, after: Option<string>) {
    if before.Some? then after == before else FirstCommand(p, texts, after)
  }

  /** The first real prompt locks an unlocked summary; the fallback is the first
      command standing before it. */
  ghost predicate PromptsAre(p: Patterns, texts: seq<string>, before: Data, after: Data) {
    if before.firstPromptLocked then SamePrompts(before, after)
    else if exists k: nat :: FirstPrompt(p, texts, k) then
      exists k: nat :: FirstPrompt(p, texts, k)
        && after.firstPromptLocked
        && after.firstPrompt.Some? && Prompts(p, texts[k], after.firstPrompt.value)
        && FallsBack(p, texts[..k], before.commandFallback, after.commandFallback)
    else
      && !after.firstPromptLocked && after.firstPrompt == before.firstPrompt
      && FallsBack(p, texts, before.commandFallback, after.commandFallback)
  }

  lemma CommandSnoc(p: Patterns, texts: seq<string>, raw: string, before: Option<string>, after: Option<string>)
    requires FallsBack(p, texts, before, after)
    ensures FallsBack(p, texts + [raw], before,
              if after.Some? then after else if Read(p, raw).Command? then Some(Read(p, raw).name) else None)
  {
    var all := texts + [raw];
    assert all[|texts|] == raw;
    ReadExactly(p, raw);
    if before.None? && after.Some? {
      var i :| 0 <= i < |texts| && NamesCommand(p, texts[i], after.value)
               && forall j, other :: 0 <= j < i ==> !NamesCommand(p, texts[j], other);
      assert all[i] == texts[i];
    }
  }

  lemma LaterIsNotFirst(p: Patterns, texts: seq<string>, raw: string, k: nat)
    requires FirstPrompt(p, texts, k)
    ensures FirstPrompt(p, texts + [raw], k) && (texts + [raw])[..k] == texts[..k]
  {
    assert (texts + [raw])[..k] == texts[..k];
    forall j | 0 <= j <= k ensures (texts + [raw])[j] == texts[j] { }
  }

  lemma NotYetPrompted(p: Patterns, texts: seq<string>)
    requires forall k: nat :: !FirstPrompt(p, texts, k)
    ensures forall j :: 0 <= j < |texts| ==> !IsPrompt(p, texts[j])
  {
    if j :| 0 <= j < |texts| && IsPrompt(p, texts[j]) { var k := LeastPrompt(p, texts, j); }
  }

  lemma {:induction false} LeastPrompt(p: Patterns, texts: seq<string>, j: nat) returns (k: nat)
    requires j < |texts| && IsPrompt(p, texts[j])
    ensures FirstPrompt(p, texts, k)
  {
    if i :| 0 <= i < j && IsPrompt(p, texts[i]) { k := LeastPrompt(p, texts, i); } else { k := j; }
  }

  lemma PromptsSnoc(p: Patterns, init: seq<string>, raw: string, before: Data, data: Data)
    requires PromptsAre(p, init, before, data)
    ensures PromptsAre(p, init + [raw], before, FoldText(p, data, raw))
  {
    var texts := init + [raw];
    ReadExactly(p, raw);
    if !before.firstPromptLocked {
      if k: nat :| FirstPrompt(p, init, k) {
        PromptedStays(p, init, raw, before, data);
      } else {
        NotYetPrompted(p, init);
        CommandSnoc(p, init, raw, before.commandFallback, data.commandFallback);
        assert texts[..|init|] == init && texts[|init|] == raw;
        if Read(p, raw).Prompt? {
          assert Prompts(p, raw, Read(p, raw).text);
          assert FirstPrompt(p, texts, |init|);
        } else {
          NoneAmong(p, init, raw);
        }
      }
    }
  }

  lemma NoneAmong(p: Patterns, init: seq<string>, raw: string)
    requires (forall j :: 0 <= j < |init| ==> !IsPrompt(p, init[j])) && !IsPrompt(p, raw)
    ensures forall k: nat :: !FirstPrompt(p, init + [raw], k)
  {
  }

  lemma PromptedStays(p: Patterns, init: seq<string>, raw: string, before: Data, data: Data)
    requires PromptsAre(p, init, before, data) && !before.firstPromptLocked
    requires exists k: nat :: FirstPrompt(p, init, k)
    ensures PromptsAre(p, init + [raw], before, FoldText(p, data, raw))
  {
    var k: nat :| FirstPrompt(p, init, k)
      && data.firstPromptLocked
      && data.firstPrompt.Some? && Prompts(p, init[k], data.firstPrompt.value)
      && FallsBack(p, init[..k], before.commandFallback, data.commandFallback);
    LaterIsNotFirst(p, init, raw, k);
    assert (init + [raw])[k] == init[k];
  }

  lemma LastOf(texts: seq<string>)
    requires texts != []
    ensures texts == texts[..|texts| - 1] + [texts[|texts| - 1]]
  {
  }

  lemma LastText(p: Patterns, data: Data, texts: seq<string>)
    requires texts != []
    ensures FoldTexts(p, data, texts) == FoldText(p, FoldTexts(p, data, texts[..|texts| - 1]), texts[|texts| - 1])
  {
  }

  lemma {:induction false} TextsGivePrompts(p: Patterns, before: Data, texts: seq<string>)
    ensures PromptsAre(p, texts, before, FoldTexts(p, before, texts))
  {
    if texts != [] {
      var init, raw := texts[..|texts| - 1], texts[|texts| - 1];
      TextsGivePrompts(p, before, init);
      PromptsSnoc(p, init, raw, before, FoldTexts(p, before, init));
      LastText(p, before, texts);
      LastOf(texts);
    }
  }

  /** Folding one entry: its texts, and nothing else, decide the prompt. */
  lemma EntryPrompts(p: Patterns, before: Data, e: Value, texts: seq<string>)
    requires Offers(e, texts)
    ensures PromptsAre(p, texts, before, FoldEntry(p, before, e))
  {
    OffersExactly(e, texts);
    TextsGivePrompts(p, FoldFields(before, e), texts);
  }

  function Joined(parts: seq<seq<string>>): seq<string> {
    if parts == [] then [] else Joined(parts[..|parts| - 1]) + parts[|parts| - 1]
  }

  ghost predicate AllOffer(es: Entries, parts: seq<seq<string>>) {
    |parts| == |es| && forall i :: 0 <= i < |es| ==> Offers(es[i], parts[i])
  }

  lemma {:induction false} OfferedTexts(es: Entries, parts: seq<seq<string>>)
    requires AllOffer(es, parts)
    ensures AllTexts(es) == Joined(parts)
  {
    if es != [] {
      OfferedTexts(es[..|es| - 1], parts[..|parts| - 1]);
      OffersExactly(es[|es| - 1], parts[|parts| - 1]);
    }
  }

  /** The prompt fields of a summary folded from scratch: the texts its entries
      offer, in order, decide them. */
  lemma FoldFindsPrompts(p: Patterns, es: Entries, parts: seq<seq<string>>)
    requires AllOffer(es, parts)
    ensures PromptsAre(p, Joined(parts), EMPTY, Fold(p, EMPTY, es))
  {
    OfferedTexts(es, parts);
    FoldReadsAllTexts(p, es);
    TextsGivePrompts(p, EMPTY, Joined(parts));
  }

  // ---------------------------------------------------------------------
  // The line scanner.
  // ---------------------------------------------------------------------

  ghost predicate Contains(line: string, part: string) {
    exists before, after :: line == before + part + after
  }

  lemma {:induction false} MentionExactly(line: string, part: string)
    ensures Mentions(line, part) <==> Contains(line, part)
  {
    if part <= line {
      assert line == "" + part + line[|part|..];
    } else if line != "" {
      MentionExactly(line[1..], part);
      if Contains(line[1..], part) {
        var before, after :| line[1..] == before + part + after;
        assert line == ([line[0]] + before) + part + after;
      }
      if Contains(line, part) { ContainedLater(line, part); }
    }
  }

  lemma ContainedLater(line: string, part: string)
    requires Contains(line, part) && !(part <= line) && line != ""
    ensures Contains(line[1..], part)
  {
    var before, after :| line == before + part + after;
    assert before == "" ==> line == part + after;
    assert line[1..] == before[1..] + part + after;
  }

  /** A line worth parsing: it looks like a user's own entry without a tool
      result. */
  ghost predicate LooksRight(line: string) {
    && (Contains(line, "\"type\":\"user\"") || Contains(line, "\"type\": \"user\""))
    && !Contains(line, "\"tool_result\"")
    && !Contains(line, "\"isMeta\":true") && !Contains(line, "\"isMeta\": true")
    && !Contains(line, "\"isCompactSummary\":true") && !Contains(line, "\"isCompactSummary\": true")
  }

  /** Such a line offers the texts of the user entry it parses to. */
  ghost predicate LineOffers(parse: string -> Option<Value>, line: string, texts: seq<string>) {
    if LooksRight(line) && parse(line).Some? && Get(parse(line).value, "type") == Some(Value.Str("user"))
    then ContentSays(parse(line).value, texts)
    else texts == []
  }

  lemma PassesExactly(line: string)
    ensures Passes(line) <==> LooksRight(line)
  {
    MentionExactly(line, "\"type\":\"user\"");
    MentionExactly(line, "\"type\": \"user\"");
    MentionExactly(line, "\"tool_result\"");
    MentionExactly(line, "\"isMeta\":true");
    MentionExactly(line, "\"isMeta\": true");
    MentionExactly(line, "\"isCompactSummary\":true");
    MentionExactly(line, "\"isCompactSummary\": true");
  }

  lemma LineExactly(parse: string -> Option<Value>, line: string, texts: seq<string>)
    ensures LineOffers(parse, line, texts) <==> texts == LineTexts(parse, line)
  {
    PassesExactly(line);
    if parse(line).Some? { ContentExactly(parse(line).value, texts); }
  }

  lemma {:induction false} ScannedTexts(parse: string -> Option<Value>, lines: seq<string>, parts: seq<seq<string>>)
    requires |parts| == |lines| && forall i :: 0 <= i < |lines| ==> LineOffers(parse, lines[i], parts[i])
    ensures AllLineTexts(parse, lines) == Joined(parts)
  {
    if lines != [] {
      ScannedTexts(parse, lines[..|lines| - 1], parts[..|parts| - 1]);
      LineExactly(parse, lines[|lines| - 1], parts[|parts| - 1]);
    }
  }

  /** What the scanner returns: the first real prompt the lines offer, else the
      first command. */
  lemma ScanFindsPrompts(p: Patterns, parse: string -> Option<Value>, lines: seq<string>, parts: seq<seq<string>>,
                         r: Option<string>)
    requires |parts| == |lines| && forall i :: 0 <= i < |lines| ==> LineOffers(parse, lines[i], parts[i])
    requires r == BestPrompt(FoldTexts(p, EMPTY, AllLineTexts(parse, lines)))
    ensures if exists k: nat :: FirstPrompt(p, Joined(parts), k)
            then exists k: nat :: FirstPrompt(p, Joined(parts), k) && r.Some? && Prompts(p, Joined(parts)[k], r.value)
            else FirstCommand(p, Joined(parts), r)
  {
    ScannedTexts(parse, lines, parts);
    TextsGivePrompts(p, EMPTY, Joined(parts));
  }
}
