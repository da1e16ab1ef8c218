/** Each control request is put on the wire once, or refused. */
module QueryRequests {
  import opened Protocol
  import opened QueryState
  import opened QueryCalls

  predicate IsRequest(command: Command, id: string) {
    command.Write? && command.line.Request? && command.line.id == id
  }

  /** How often the request `id` has been enqueued. */
  function Sendings(commands: seq<Command>, id: string): nat {
    if commands == [] then 0
    else Sendings(commands[..|commands| - 1], id) + if IsRequest(commands[|commands| - 1], id) then 1 else 0
  }

  lemma SendingsSnoc(commands: seq<Command>, command: Command, id: string)
    ensures Sendings(commands + [command], id) == Sendings(commands, id) + if IsRequest(command, id) then 1 else 0
  {
    assert (commands + [command])[..|commands|] == commands;
  }

  lemma {:induction false} NotSent(commands: seq<Command>, id: string)
    requires forall k :: 0 <= k < |commands| ==> !IsRequest(commands[k], id)
    ensures Sendings(commands, id) == 0
  {
    if commands != [] { NotSent(commands[..|commands| - 1], id); }
  }

  /** Whether a caller got past sending. */
  predicate WentOut(phase: Phase) {
    phase.Waiting? || phase.Expired? || (phase.Done? && !phase.outcome.RefusedAtSend?)
  }

  ghost predicate IsCallId(cl: Clients, id: string) {
    exists c :: 0 <= c < |cl.calls| && cl.calls[c].id == id
  }

  ghost predicate SentOnce(s: State) {
    && (forall c :: 0 <= c < |s.clients.calls| ==>
          Sendings(s.outbound.sent, s.clients.calls[c].id) == if WentOut(s.clients.calls[c].phase) then 1 else 0)
    && KnownRequests(s.outbound.sent, s.clients)
  }

  /** Every request enqueued is of some call. */
  ghost predicate KnownRequests(sent: seq<Command>, cl: Clients) {
    forall k :: 0 <= k < |sent| && sent[k].Write? && sent[k].line.Request? ==> IsCallId(cl, sent[k].line.id)
  }

  lemma IssueKeeps(w: World, s: State, subtype: string)
    requires CallsAccounted(w, s.clients, s.position) && SentOnce(s)
    ensures SentOnce(Step(w, s, Issue(subtype)))
  {
    var t, n := Step(w, s, Issue(subtype)), |s.clients.calls|;
    var id := t.clients.calls[n].id;
    IssueKeepsAccount(w, s, subtype);
    forall c: nat | c < n ensures s.clients.calls[c].id != id { IdsDiffer(w, t.clients, t.position, c, n); }
    assert !IsCallId(s.clients, id);
    forall k | 0 <= k < |s.outbound.sent| ensures !IsRequest(s.outbound.sent[k], id) { }
    NotSent(s.outbound.sent, id);
    forall other | IsCallId(s.clients, other) ensures IsCallId(t.clients, other) {
      var c :| 0 <= c < n && s.clients.calls[c].id == other;
      assert t.clients.calls[c].id == other;
    }
  }

  lemma IssueKeepsAccount(w: World, s: State, subtype: string)
    requires CallsAccounted(w, s.clients, s.position)
    ensures var t := Step(w, s, Issue(subtype)); CallsAccounted(w, t.clients, t.position)
  {
    StepKeepsCalls(w, s, Issue(subtype));
  }

  lemma SendKeeps(w: World, s: State, c: nat)
    requires CallsAccounted(w, s.clients, s.position) && SentOnce(s) && Enabled(s, SendRequest(c))
    ensures SentOnce(SendCall(s, c))
  {
    var t := SendCall(s, c);
    SendKnown(s, c);
    forall d: nat | d < |t.clients.calls|
      ensures Sendings(t.outbound.sent, t.clients.calls[d].id) == if WentOut(t.clients.calls[d].phase) then 1 else 0
    {
      SendCounts(w, s, c, d);
    }
  }

  lemma SendKnown(s: State, c: nat)
    requires KnownRequests(s.outbound.sent, s.clients) && Enabled(s, SendRequest(c))
    ensures KnownRequests(SendCall(s, c).outbound.sent, SendCall(s, c).clients)
  {
    var t, call := SendCall(s, c), s.clients.calls[c];
    forall id ensures IsCallId(t.clients, id) <==> IsCallId(s.clients, id) { SameCallIds(s.clients, t.clients, id); }
    SameKnown(s.outbound.sent, s.clients, t.clients);
    assert t.clients.calls[c].id == call.id;
    KnownSnoc(s.outbound.sent, t.clients, Write(Request(call.id, call.subtype)));
  }

  lemma SameKnown(sent: seq<Command>, a: Clients, b: Clients)
    requires KnownRequests(sent, a) && forall id :: IsCallId(a, id) ==> IsCallId(b, id)
    ensures KnownRequests(sent, b)
  {
  }

  lemma KnownSnoc(sent: seq<Command>, cl: Clients, command: Command)
    requires KnownRequests(sent, cl)
    requires command.Write? && command.line.Request? ==> IsCallId(cl, command.line.id)
    ensures KnownRequests(sent + [command], cl)
  {
  }

  lemma SendCounts(w: World, s: State, c: nat, d: nat)
    requires CallsAccounted(w, s.clients, s.position) && SentOnce(s)
    requires Enabled(s, SendRequest(c)) && d < |s.clients.calls|
    ensures var t := SendCall(s, c);
            Sendings(t.outbound.sent, t.clients.calls[d].id) == if WentOut(t.clients.calls[d].phase) then 1 else 0
  {
    var call := s.clients.calls[c];
    SendingsSnoc(s.outbound.sent, Write(Request(call.id, call.subtype)), s.clients.calls[d].id);
    if d != c { IdsDiffer(w, s.clients, s.position, c, d); }
  }

  lemma SameCallIds(a: Clients, b: Clients, id: string)
    requires |a.calls| == |b.calls| && forall c :: 0 <= c < |a.calls| ==> a.calls[c].id == b.calls[c].id
    ensures IsCallId(a, id) <==> IsCallId(b, id)
  {
    if c :| 0 <= c < |a.calls| && a.calls[c].id == id { assert b.calls[c].id == id; }
  }

  /** A step that enqueues no request and moves nobody past sending. */
  ghost predicate Untouched(s: State, t: State) {
    && |t.clients.calls| == |s.clients.calls|
    && (forall c :: 0 <= c < |s.clients.calls| ==>
          t.clients.calls[c].id == s.clients.calls[c].id
          && (WentOut(t.clients.calls[c].phase) <==> WentOut(s.clients.calls[c].phase)))
    && (t.outbound.sent == s.outbound.sent
        || exists command ::
             t.outbound.sent == s.outbound.sent + [command] && !(command.Write? && command.line.Request?))
  }

  lemma UntouchedKeeps(s: State, t: State)
    requires SentOnce(s) && Untouched(s, t)
    ensures SentOnce(t)
  {
    forall id ensures IsCallId(t.clients, id) <==> IsCallId(s.clients, id) { SameCallIds(s.clients, t.clients, id); }
    SameKnown(s.outbound.sent, s.clients, t.clients);
    if t.outbound.sent != s.outbound.sent {
      var command :| t.outbound.sent == s.outbound.sent + [command] && !(command.Write? && command.line.Request?);
      forall id ensures Sendings(t.outbound.sent, id) == Sendings(s.outbound.sent, id) {
        SendingsSnoc(s.outbound.sent, command, id);
      }
      KnownSnoc(s.outbound.sent, t.clients, command);
    }
  }

  lemma StepIsUntouched(w: World, s: State, e: Event)
    requires Enabled(s, e) && !e.Issue? && !e.SendRequest?
    requires CallsAccounted(w, s.clients, s.position)
    ensures Untouched(s, Step(w, s, e))
  {
    StepSendsNoRequest(w, s, e);
    StepMovesNobodyOut(w, s, e);
  }

  lemma StepSendsNoRequest(w: World, s: State, e: Event)
    requires Enabled(s, e) && !e.SendRequest?
    ensures var before, after := s.outbound.sent, Step(w, s, e).outbound.sent;
            after == before
            || exists command :: after == before + [command] && !(command.Write? && command.line.Request?)
  {
    var t := Step(w, s, e);
    if e.Finish? && !s.gone {
      assert t.outbound.sent == s.outbound.sent + [Write(Response(s.handlers.tasks[e.t].id, e.body))];
    } else if e.Offer? && !s.gone {
      assert t.outbound.sent == s.outbound.sent + [e.command];
    }
  }

  lemma StepMovesNobodyOut(w: World, s: State, e: Event)
    requires Enabled(s, e) && !e.Issue? && !e.SendRequest?
    requires CallsAccounted(w, s.clients, s.position)
    ensures var t := Step(w, s, e);
            |t.clients.calls| == |s.clients.calls|
            && forall c :: 0 <= c < |s.clients.calls| ==>
                 t.clients.calls[c].id == s.clients.calls[c].id
                 && (WentOut(t.clients.calls[c].phase) <==> WentOut(s.clients.calls[c].phase))
  {
    if e.PollCall? { assert Accounted(w, s.clients, s.position, e.c); }
    if e.ReadNext? { ReadMovesNobody(w, s); }
  }

  lemma ReadMovesNobody(w: World, s: State)
    ensures var t := TakeItem(w, s);
            |t.clients.calls| == |s.clients.calls|
            && forall c :: 0 <= c < |s.clients.calls| ==>
                 t.clients.calls[c].id == s.clients.calls[c].id && t.clients.calls[c].phase == s.clients.calls[c].phase
  {
    if s.position < |w.stdout| {
      TakenItem(w, s);
      forall c: nat | c < |s.clients.calls|
        ensures TakeItem(w, s).clients.calls[c].id == s.clients.calls[c].id
        ensures TakeItem(w, s).clients.calls[c].phase == s.clients.calls[c].phase
      {
        ItemKeepsPhases(w, s.clients, w.stdout[s.position], c);
      }
      ItemKeepsNumber(w, s.clients, w.stdout[s.position]);
    }
  }

  /** Over any run each request is enqueued exactly once if its caller got past
      sending, and not at all before that or when it was refused. */
  lemma {:induction false} EachRequestSentOnce(w: World, events: seq<Event>)
    ensures SentOnce(Run(w, events))
  {
    if events != [] {
      var before, e := Run(w, events[..|events| - 1]), events[|events| - 1];
      EachRequestSentOnce(w, events[..|events| - 1]);
      RunAccountsCalls(w, events[..|events| - 1]);
      if Enabled(before, e) {
        if e.Issue? {
          IssueKeeps(w, before, e.subtype);
        } else if e.SendRequest? {
          SendKeeps(w, before, e.c);
        } else {
          StepIsUntouched(w, before, e);
          UntouchedKeeps(before, Step(w, before, e));
        }
      }
    }
  }
}
