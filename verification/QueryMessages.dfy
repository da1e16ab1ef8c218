/** What the consumer receives. */
module QueryMessages {
  import opened Wrappers
  import opened Json
  import opened Protocol
  import opened QueryState

  // ---------------------------------------------------------------------
  // Reference: the forwarded values, and the text remembered after them.
  // ---------------------------------------------------------------------

  /** The values among the first `n` items that are no traffic, in order. */
  ghost function Values(w: World, n: nat): seq<Value>
    requires n <= |w.stdout|
  {
    if n == 0 then []
    else Values(w, n - 1)
         + (if w.stdout[n - 1].Read? && !IsTraffic(w.stdout[n - 1].value) then [w.stdout[n - 1].value] else [])
  }

  function Oks(values: seq<Value>): (r: seq<Reply>)
    ensures |r| == |values| && forall k :: 0 <= k < |r| ==> r[k] == Ok(values[k])
  {
    seq(|values|, k requires 0 <= k < |values| => Ok(values[k]))
  }

  /** Value `k` is an error result that only state changes follow. */
  ghost predicate EndsInError(values: seq<Value>, k: nat) {
    k < |values| && IsFailure(values[k]) && forall j :: k < j < |values| ==> TellsState(values[j])
  }

  /** The text of the last forwarded message that is not a state change, when
      that message is an error result; nothing otherwise. */
  ghost predicate Remembers(values: seq<Value>, text: Option<string>) {
    match text
    case Some(t) => exists k: nat :: EndsInError(values, k) && TellsError(values[k], t)
    case None => forall k: nat :: !EndsInError(values, k)
  }

  lemma EndsInErrorSnoc(values: seq<Value>, v: Value, k: nat)
    ensures EndsInError(values + [v], k)
            <==> if k == |values| then IsFailure(v) else EndsInError(values, k) && TellsState(v)
  {
    var all := values + [v];
    assert all[|values|] == v;
    if k < |values| {
      assert all[k] == values[k];
      if EndsInError(all, k) {
        forall j | k < j < |values| ensures TellsState(values[j]) { assert all[j] == values[j]; }
      }
    }
  }

  lemma TrackRemembers(values: seq<Value>, text: Option<string>, v: Value)
    requires Remembers(values, text)
    ensures Remembers(values + [v], Track(text, v))
  {
    var all := values + [v];
    forall k: nat
      ensures EndsInError(all, k)
              <==> if k == |values| then IsFailure(v) else EndsInError(values, k) && TellsState(v)
    {
      EndsInErrorSnoc(values, v, k);
    }
    assert all[|values|] == v;
    FailureRead(v);
    if IsFailure(v) {
      ErrorRead(v, ErrorText(v));
      assert EndsInError(all, |values|);
    } else if TellsState(v) && text.Some? {
      var k: nat :| EndsInError(values, k) && TellsError(values[k], text.value);
      assert EndsInError(all, k) && all[k] == values[k];
    }
  }

  /** Only one text can be remembered. */
  lemma RemembersUnique(values: seq<Value>, a: Option<string>, b: Option<string>)
    requires Remembers(values, a) && Remembers(values, b)
    ensures a == b
  {
    if a.Some? && b.Some? {
      var j: nat :| EndsInError(values, j) && TellsError(values[j], a.value);
      var k: nat :| EndsInError(values, k) && TellsError(values[k], b.value);
      assert j == k;
      ErrorRead(values[j], a.value);
      ErrorRead(values[k], b.value);
    }
  }

  // ---------------------------------------------------------------------
  // The invariant.
  // ---------------------------------------------------------------------

  function Messages(k: Consumer): seq<Reply> { k.delivered + k.inbox }

  /** Everything before position `n` is a value. */
  ghost predicate OnlyValues(w: World, n: nat)
    requires n <= |w.stdout|
  {
    forall k :: 0 <= k < n ==> w.stdout[k].Read?
  }

  ghost predicate FailedAt(w: World, s: State, n: nat) {
    && n < |w.stdout| && w.stdout[n].ReadError? && OnlyValues(w, n)
    && Messages(s.consumer) == Oks(Values(w, n)) + [Err(Enrich(w.stdout[n].error, s.consumer.remembered))]
    && Remembers(Values(w, n), s.consumer.remembered)
  }

  ghost predicate MessagesKept(w: World, s: State) {
    && s.position <= |w.stdout|
    && (if s.stop == Some(AtError) then s.position > 0 && FailedAt(w, s, s.position - 1)
        else
          && OnlyValues(w, s.position)
          && Messages(s.consumer) == Oks(Values(w, s.position))
          && Remembers(Values(w, s.position), s.consumer.remembered))
    && (s.stop == Some(AtEof) ==> s.position == |w.stdout|)
  }

  /** Routing touches the consumer exactly for forwarded values. */
  lemma RouteAndConsumer(w: World, s: State, v: Value)
    ensures Route(w, s, v).consumer
            == if IsForwarded(v) then Post(s.consumer, Ok(v)).(remembered := Track(s.consumer.remembered, v))
               else s.consumer
    ensures Route(w, s, v).position == s.position && Route(w, s, v).stop == s.stop
  {
  }

  lemma RouteKeeps(w: World, s: State)
    requires MessagesKept(w, s) && s.stop.None? && s.position < |w.stdout| && w.stdout[s.position].Read?
    ensures MessagesKept(w, TakeItem(w, s))
  {
    RouteAndConsumer(w, s.(position := s.position + 1), w.stdout[s.position].value);
    RoutedKeeps(w, s, TakeItem(w, s));
  }

  lemma RoutedKeeps(w: World, s: State, t: State)
    requires MessagesKept(w, s) && s.stop.None? && s.position < |w.stdout| && w.stdout[s.position].Read?
    requires t.position == s.position + 1 && t.stop == s.stop
    requires var v := w.stdout[s.position].value;
             t.consumer
             == if IsForwarded(v) then Post(s.consumer, Ok(v)).(remembered := Track(s.consumer.remembered, v))
                else s.consumer
    ensures MessagesKept(w, t)
  {
    NextValue(w, s.position, s.consumer, t.consumer);
  }

  lemma OksSnoc(values: seq<Value>, v: Value)
    ensures Oks(values + [v]) == Oks(values) + [Ok(v)]
  {
  }

  /** One more value read extends what the consumer gets by at most that value. */
  lemma NextValue(w: World, n: nat, k: Consumer, after: Consumer)
    requires n < |w.stdout| && w.stdout[n].Read?
    requires Messages(k) == Oks(Values(w, n)) && Remembers(Values(w, n), k.remembered)
    requires var v := w.stdout[n].value;
             after == if IsForwarded(v) then Post(k, Ok(v)).(remembered := Track(k.remembered, v)) else k
    ensures Messages(after) == Oks(Values(w, n + 1)) && Remembers(Values(w, n + 1), after.remembered)
  {
    var v, values := w.stdout[n].value, Values(w, n);
    TrafficRead(v);
    if IsForwarded(v) {
      TrackRemembers(values, k.remembered, v);
      OksSnoc(values, v);
      assert Messages(after) == Messages(k) + [Ok(v)];
    } else {
      assert Values(w, n + 1) == values;
    }
  }

  lemma FailKeeps(w: World, s: State)
    requires MessagesKept(w, s) && s.stop.None? && s.position < |w.stdout| && w.stdout[s.position].ReadError?
    ensures MessagesKept(w, TakeItem(w, s))
  {
    FailedKeeps(w, s, TakeItem(w, s));
  }

  lemma FailedKeeps(w: World, s: State, t: State)
    requires MessagesKept(w, s) && s.stop.None? && s.position < |w.stdout| && w.stdout[s.position].ReadError?
    requires t.position == s.position + 1 && t.stop == Some(AtError)
    requires t.consumer == Post(s.consumer, Err(Enrich(w.stdout[s.position].error, s.consumer.remembered)))
    ensures MessagesKept(w, t)
  {
    assert Messages(t.consumer)
        == Messages(s.consumer) + [Err(Enrich(w.stdout[s.position].error, s.consumer.remembered))];
  }

  predicate SameMessages(s: State, t: State) {
    && Messages(s.consumer) == Messages(t.consumer) && s.consumer.remembered == t.consumer.remembered
    && s.position == t.position
    && (t.stop == s.stop || (s.stop.None? && t.stop == Some(AtClose)))
  }

  lemma SameMessagesKeeps(w: World, s: State, t: State)
    requires MessagesKept(w, s) && SameMessages(s, t)
    ensures MessagesKept(w, t)
  {
  }

  lemma StepKeepsMessages(w: World, s: State, e: Event)
    requires MessagesKept(w, s) && Enabled(s, e)
    ensures MessagesKept(w, Step(w, s, e))
  {
    if e.ReadNext? {
      if s.position < |w.stdout| {
        if w.stdout[s.position].Read? { RouteKeeps(w, s); } else { FailKeeps(w, s); }
      }
    } else {
      OnlyReadingAdds(w, s, e);
      SameMessagesKeeps(w, s, Step(w, s, e));
    }
  }

  /** Only reading adds to what the consumer gets. */
  lemma OnlyReadingAdds(w: World, s: State, e: Event)
    requires Enabled(s, e) && !e.ReadNext?
    ensures SameMessages(s, Step(w, s, e))
  {
    if e.Receive? { assert s.consumer.inbox == [s.consumer.inbox[0]] + s.consumer.inbox[1..]; }
  }

  lemma {:induction false} RunKeepsMessages(w: World, events: seq<Event>)
    ensures MessagesKept(w, Run(w, events))
  {
    if events != [] {
      var before, e := Run(w, events[..|events| - 1]), events[|events| - 1];
      RunKeepsMessages(w, events[..|events| - 1]);
      if Enabled(before, e) { StepKeepsMessages(w, before, e); }
    }
  }

  // ---------------------------------------------------------------------
  // Theorems.
  // ---------------------------------------------------------------------

  lemma {:induction false} ValuesGrow(w: World, m: nat, n: nat)
    requires m <= n <= |w.stdout|
    ensures Values(w, m) <= Values(w, n)
  {
    if m < n { ValuesGrow(w, m, n - 1); }
  }

  /** The position of the first read error, or the end of the output. */
  function FirstError(w: World, from: nat): (n: nat)
    requires from <= |w.stdout|
    ensures from <= n <= |w.stdout|
    ensures forall k :: from <= k < n ==> w.stdout[k].Read?
    ensures n < |w.stdout| ==> w.stdout[n].ReadError?
    decreases |w.stdout| - from
  {
    if from == |w.stdout| || w.stdout[from].ReadError? then from else FirstError(w, from + 1)
  }

  /** Everything the consumer will ever get: the forwarded values before the
      first read error, then that error, rewritten when a text is remembered. */
  ghost predicate IsWholeStream(w: World, all: seq<Reply>) {
    var n := FirstError(w, 0);
    if n == |w.stdout| then all == Oks(Values(w, n))
    else exists text ::
      Remembers(Values(w, n), text) && all == Oks(Values(w, n)) + [Err(Enrich(w.stdout[n].error, text))]
  }

  /** At every moment the consumer has received a prefix of the whole stream. */
  lemma DeliveredIsPrefix(w: World, events: seq<Event>, all: seq<Reply>)
    requires IsWholeStream(w, all)
    ensures Run(w, events).consumer.delivered <= all
  {
    var s := Run(w, events);
    RunKeepsMessages(w, events);
    assert s.consumer.delivered <= Messages(s.consumer);
    if s.stop == Some(AtError) {
      FailedStream(w, s, all);
    } else {
      ValuesArePrefix(w, s.position, all);
    }
  }

  lemma FailedStream(w: World, s: State, all: seq<Reply>)
    requires 0 < s.position && FailedAt(w, s, s.position - 1) && IsWholeStream(w, all)
    ensures Messages(s.consumer) == all
  {
    var n := FirstError(w, 0);
    assert n == s.position - 1;
    var text :| Remembers(Values(w, n), text) && all == Oks(Values(w, n)) + [Err(Enrich(w.stdout[n].error, text))];
    RemembersUnique(Values(w, n), text, s.consumer.remembered);
  }

  lemma ValuesArePrefix(w: World, n: nat, all: seq<Reply>)
    requires n <= |w.stdout| && OnlyValues(w, n) && IsWholeStream(w, all)
    ensures Oks(Values(w, n)) <= all
  {
    var m := FirstError(w, 0);
    assert n <= m;
    ValuesGrow(w, n, m);
    assert Oks(Values(w, n)) <= Oks(Values(w, m));
  }

  /** When the driver stops by itself nothing of the stream is missing. */
  lemma StreamIsComplete(w: World, events: seq<Event>, all: seq<Reply>)
    requires IsWholeStream(w, all)
    requires Run(w, events).stop == Some(AtEof) || Run(w, events).stop == Some(AtError)
    ensures Messages(Run(w, events).consumer) == all
  {
    var s := Run(w, events);
    RunKeepsMessages(w, events);
    if s.stop == Some(AtError) { FailedStream(w, s, all); } else { assert FirstError(w, 0) == |w.stdout|; }
  }

  /** Once the driver has stopped by itself, whoever finds nothing more to
      receive has received the whole stream. */
  lemma EndMeansWhole(w: World, events: seq<Event>)
    requires Run(w, events).stop == Some(AtEof) || Run(w, events).stop == Some(AtError)
    requires Run(w, events).consumer.inbox == []
    ensures IsWholeStream(w, Run(w, events).consumer.delivered)
  {
    var s := Run(w, events);
    RunKeepsMessages(w, events);
    assert Messages(s.consumer) == s.consumer.delivered;
    if s.stop == Some(AtError) {
      assert FirstError(w, 0) == s.position - 1;
    } else {
      assert FirstError(w, 0) == |w.stdout|;
    }
  }

  /** There is at most one error and nothing follows it. */
  lemma ErrorIsLast(w: World, events: seq<Event>, k: nat)
    requires k < |Messages(Run(w, events).consumer)| && Messages(Run(w, events).consumer)[k].Err?
    ensures k == |Messages(Run(w, events).consumer)| - 1 && Run(w, events).stop == Some(AtError)
  {
    RunKeepsMessages(w, events);
  }

  /** At every moment the remembered text is that of the last forwarded message
      other than a state change, if that is an error result, and none otherwise. */
  lemma RememberedText(w: World, events: seq<Event>)
    ensures var s := Run(w, events);
            s.position <= |w.stdout| && Remembers(Values(w, s.position), s.consumer.remembered)
  {
    RunKeepsMessages(w, events);
    var s := Run(w, events);
    if s.stop == Some(AtError) { assert Values(w, s.position) == Values(w, s.position - 1); }
  }

  /** A process error that carries the text of an error result. */
  function Rewritten(error: Error, text: string): Error
    requires error.Process?
  {
    Process(error.exitCode, "Claude Code returned an error result: " + text)
  }

  /** A process exit is rewritten exactly when the messages before it end in
      an error result, with that result's text. */
  ghost predicate RewrittenExactly(before: seq<Value>, original: Error, received: Error) {
    if original.Process? && (exists k: nat :: EndsInError(before, k))
    then exists k: nat, text: string ::
           EndsInError(before, k) && TellsError(before[k], text) && received == Rewritten(original, text)
    else received == original
  }

  lemma EnrichedExactly(before: seq<Value>, original: Error, remembered: Option<string>)
    requires Remembers(before, remembered)
    ensures RewrittenExactly(before, original, Enrich(original, remembered))
  {
    if remembered.Some? && original.Process? {
      var k: nat :| EndsInError(before, k) && TellsError(before[k], remembered.value);
      assert Enrich(original, remembered) == Rewritten(original, remembered.value);
    }
  }

  lemma ExitErrorRewritten(w: World, events: seq<Event>)
    requires Run(w, events).stop == Some(AtError)
    ensures var s := Run(w, events);
            && 0 < s.position <= |w.stdout| && w.stdout[s.position - 1].ReadError? && Messages(s.consumer) != []
            && var received := Messages(s.consumer)[|Messages(s.consumer)| - 1];
               && received.Err?
               && RewrittenExactly(Values(w, s.position - 1), w.stdout[s.position - 1].error, received.error)
  {
    RunKeepsMessages(w, events);
    var s := Run(w, events);
    EnrichedExactly(Values(w, s.position - 1), w.stdout[s.position - 1].error, s.consumer.remembered);
  }
}
