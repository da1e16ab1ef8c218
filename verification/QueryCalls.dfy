/** Every control request gets one outcome, from what was read while it was
    pending. */
module QueryCalls {
  import opened Wrappers
  import opened Json
  import opened Decimal
  import opened Protocol
  import opened QueryState

  // ---------------------------------------------------------------------
  // Reference: what the items read deliver to one request id.
  // ---------------------------------------------------------------------

  function DeliveryOf(w: World, item: Item, id: string): (cell: Cell)
    ensures cell.Full? ==> cell.outcome.Answered? || cell.outcome.ReadFailed?
  {
    match item
    case Read(v) => if ResponseTo(v) == Some(id) then Full(Answered(ReplyIn(v))) else Empty
    case ReadError(error) => Full(ReadFailed(TransportFailed(w, error)))
  }

  /** The first delivery to `id` among the items from `since` to `end`. */
  function FirstDelivery(w: World, since: nat, end: nat, id: string): (cell: Cell)
    requires since <= end <= |w.stdout|
    ensures cell.Full? ==> cell.outcome.Answered? || cell.outcome.ReadFailed?
  {
    if since == end then Empty
    else
      var cell := FirstDelivery(w, since, end - 1, id);
      if cell.Full? then cell else DeliveryOf(w, w.stdout[end - 1], id)
  }

  /** It is the delivery of the first item that has one. */
  lemma {:induction false} FirstDeliveryIsFirst(w: World, since: nat, end: nat, id: string) returns (k: nat)
    requires since <= end <= |w.stdout|
    ensures since <= k <= end
    ensures forall j :: since <= j < k ==> DeliveryOf(w, w.stdout[j], id).Empty?
    ensures if k == end then FirstDelivery(w, since, end, id).Empty?
            else FirstDelivery(w, since, end, id).Full?
                 && DeliveryOf(w, w.stdout[k], id) == FirstDelivery(w, since, end, id)
  {
    k := since;
    if since < end {
      k := FirstDeliveryIsFirst(w, since, end - 1, id);
      if k == end - 1 && DeliveryOf(w, w.stdout[k], id).Empty? { k := end; }
    }
  }

  // ---------------------------------------------------------------------
  // The invariant.
  // ---------------------------------------------------------------------

  /** The call no longer looks at deliveries. */
  predicate HasLeft(call: Call) {
    call.phase == Done(TimedOut) || call.phase == Done(RefusedAtSend)
  }

  function End(call: Call, position: nat): nat {
    if call.until.Some? then call.until.value else position
  }

  ghost predicate Accounted(w: World, cl: Clients, position: nat, c: nat)
    requires c < |cl.calls| && position <= |w.stdout|
  {
    var call := cl.calls[c];
    && call.id == RequestId(c + 1, w.suffix)
    && (call.until.Some? <==> HasLeft(call))
    && (call.phase.Numbered? ==> call.cell.Empty?)
    && (!call.phase.Numbered? ==>
          call.since <= End(call, position) <= position
          && call.cell == FirstDelivery(w, call.since, End(call, position), call.id))
    && (call.phase.Done? && !HasLeft(call) ==> call.cell == Full(call.phase.outcome))
    && (SenderAlive(cl, c) <==> !call.phase.Numbered? && !HasLeft(call) && call.cell.Empty?)
  }

  /** Every call is accounted for, and the pending map holds nothing else. */
  ghost predicate CallsAccounted(w: World, cl: Clients, position: nat) {
    && position <= |w.stdout|
    && (forall c :: 0 <= c < |cl.calls| ==> Accounted(w, cl, position, c))
    && (forall id :: id in cl.pending ==> cl.pending[id] < |cl.calls| && cl.calls[cl.pending[id]].id == id)
  }

  lemma IdsDiffer(w: World, cl: Clients, position: nat, c: nat, d: nat)
    requires CallsAccounted(w, cl, position) && c < |cl.calls| && d < |cl.calls| && c != d
    ensures cl.calls[c].id != cl.calls[d].id
  {
    assert Accounted(w, cl, position, c) && Accounted(w, cl, position, d);
    if cl.calls[c].id == cl.calls[d].id { RequestIdInjective(c + 1, d + 1, w.suffix); }
  }

  lemma IssueKeeps(w: World, cl: Clients, position: nat, subtype: string)
    requires CallsAccounted(w, cl, position)
    ensures CallsAccounted(w, cl.(calls := cl.calls + [NextCall(w, |cl.calls|, subtype)]), position)
  {
    var after := cl.(calls := cl.calls + [NextCall(w, |cl.calls|, subtype)]);
    var n := |cl.calls|;
    forall c: nat | c < |after.calls| ensures Accounted(w, after, position, c) {
      if c < n {
        assert Accounted(w, cl, position, c);
      } else if after.calls[n].id in cl.pending {
        var d := cl.pending[after.calls[n].id];
        assert Accounted(w, cl, position, d);
        RequestIdInjective(n + 1, d + 1, w.suffix);
      }
    }
  }

  lemma RegisterKeeps(w: World, cl: Clients, position: nat, c: nat)
    requires CallsAccounted(w, cl, position) && c < |cl.calls| && cl.calls[c].phase.Numbered?
    ensures CallsAccounted(w, Register(cl, c, position), position)
  {
    var after := Register(cl, c, position);
    forall d: nat | d < |after.calls| ensures Accounted(w, after, position, d) {
      assert Accounted(w, cl, position, d);
      if d != c { IdsDiffer(w, cl, position, c, d); }
    }
  }

  /** Moving on within the wait changes nothing else. */
  lemma MoveKeeps(w: World, cl: Clients, position: nat, c: nat, phase: Phase)
    requires CallsAccounted(w, cl, position) && c < |cl.calls|
    requires !cl.calls[c].phase.Numbered? && !HasLeft(cl.calls[c])
    requires phase.Waiting? || phase.Refused? || phase.Expired?
             || (phase.Done? && cl.calls[c].cell == Full(phase.outcome))
    ensures CallsAccounted(w, Move(cl, c, phase), position)
  {
    var after := Move(cl, c, phase);
    forall d: nat | d < |after.calls| ensures Accounted(w, after, position, d) {
      assert Accounted(w, cl, position, d);
    }
  }

  /** A waiting caller never finds its sender gone. */
  lemma PollKeeps(w: World, cl: Clients, position: nat, c: nat, late: bool)
    requires CallsAccounted(w, cl, position) && c < |cl.calls| && cl.calls[c].phase.Waiting?
    ensures CallsAccounted(w, Poll(cl, c, late), position)
    ensures Poll(cl, c, late).calls[c].phase != Done(Disconnected)
  {
    assert Accounted(w, cl, position, c);
    if cl.calls[c].cell.Full? {
      MoveKeeps(w, cl, position, c, Done(cl.calls[c].cell.outcome));
    } else {
      assert SenderAlive(cl, c);
      MoveKeeps(w, cl, position, c, Expired);
    }
  }

  lemma ForgetKeeps(w: World, cl: Clients, position: nat, c: nat)
    requires CallsAccounted(w, cl, position) && c < |cl.calls|
    requires cl.calls[c].phase.Expired? || cl.calls[c].phase.Refused?
    ensures CallsAccounted(w, Forget(cl, c, position), position)
  {
    var after := Forget(cl, c, position);
    forall d: nat | d < |after.calls| ensures Accounted(w, after, position, d) {
      assert Accounted(w, cl, position, d);
      if d != c { IdsDiffer(w, cl, position, c, d); }
    }
  }

  function AfterItem(w: World, cl: Clients, item: Item): Clients {
    match item
    case Read(v) => if ResponseTo(v).Some? then Deliver(cl, ResponseTo(v).value, Answered(ReplyIn(v))) else cl
    case ReadError(error) => FailAll(cl, ReadFailed(TransportFailed(w, error)))
  }

  /** An item reaches exactly the calls still open to it. */
  lemma ItemReaches(w: World, cl: Clients, position: nat, c: nat)
    requires CallsAccounted(w, cl, position) && position < |w.stdout| && c < |cl.calls|
    ensures var delivery := DeliveryOf(w, w.stdout[position], cl.calls[c].id);
            AfterItem(w, cl, w.stdout[position]).calls[c]
            == if SenderAlive(cl, c) && delivery.Full? then cl.calls[c].(cell := delivery) else cl.calls[c]
    ensures SenderAlive(AfterItem(w, cl, w.stdout[position]), c)
            <==> SenderAlive(cl, c) && DeliveryOf(w, w.stdout[position], cl.calls[c].id).Empty?
  {
    match w.stdout[position]
    case Read(v) =>
      if ResponseTo(v).Some? && ResponseTo(v).value in cl.pending {
        var d := cl.pending[ResponseTo(v).value];
        if d != c { IdsDiffer(w, cl, position, c, d); }
      }
    case ReadError(_) =>
  }

  lemma ItemKeeps(w: World, cl: Clients, position: nat)
    requires CallsAccounted(w, cl, position) && position < |w.stdout|
    ensures CallsAccounted(w, AfterItem(w, cl, w.stdout[position]), position + 1)
  {
    var after, next := AfterItem(w, cl, w.stdout[position]), position + 1;
    forall c: nat | c < |after.calls| ensures Accounted(w, after, next, c) {
      assert Accounted(w, cl, position, c);
      ItemReaches(w, cl, position, c);
    }
  }

  lemma StepKeepsCalls(w: World, s: State, e: Event)
    requires CallsAccounted(w, s.clients, s.position) && Enabled(s, e)
    ensures CallsAccounted(w, Step(w, s, e).clients, Step(w, s, e).position)
  {
    if e.ReadNext? {
      if s.position < |w.stdout| {
        TakenItem(w, s);
        ItemKeeps(w, s.clients, s.position);
      }
    } else {
      CallerStepKeeps(w, s, e);
    }
  }

  lemma TakenItem(w: World, s: State)
    requires s.position < |w.stdout|
    ensures TakeItem(w, s).position == s.position + 1
    ensures TakeItem(w, s).clients == AfterItem(w, s.clients, w.stdout[s.position])
  {
  }

  lemma CallerStepKeeps(w: World, s: State, e: Event)
    requires CallsAccounted(w, s.clients, s.position) && Enabled(s, e) && !e.ReadNext?
    ensures CallsAccounted(w, Step(w, s, e).clients, s.position) && Step(w, s, e).position == s.position
  {
    match e
    case Issue(subtype) => IssueKeeps(w, s.clients, s.position, subtype);
    case RegisterCall(c) => RegisterKeeps(w, s.clients, s.position, c);
    case SendRequest(c) => MoveKeeps(w, s.clients, s.position, c, if s.gone then Refused else Waiting);
    case PollCall(c, late) => PollKeeps(w, s.clients, s.position, c, late);
    case ForgetCall(c) => ForgetKeeps(w, s.clients, s.position, c);
    case Offer(_) =>
    case Receive =>
    case Finish(_, _) =>
    case Dequeue(_) =>
    case Return =>
  }

  lemma {:induction false} RunAccountsCalls(w: World, events: seq<Event>)
    ensures CallsAccounted(w, Run(w, events).clients, Run(w, events).position)
  {
    if events != [] {
      var before, e := Run(w, events[..|events| - 1]), events[|events| - 1];
      RunAccountsCalls(w, events[..|events| - 1]);
      if Enabled(before, e) { StepKeepsCalls(w, before, e); }
    }
  }

  // ---------------------------------------------------------------------
  // Theorems.
  // ---------------------------------------------------------------------

  /** No item from the call's registration to `k` failed or answered its id. */
  ghost predicate QuietUntil(w: World, call: Call, k: nat)
    requires k <= |w.stdout|
  {
    forall j :: call.since <= j < k ==> w.stdout[j].Read? && forall o :: !Answers(w.stdout[j].value, o, call.id)
  }

  /** The call was answered by item `k`, the first one since it was registered
      that answers its id; nothing failed before. */
  ghost predicate AnsweredBy(w: World, s: State, call: Call, reply: Reply, k: nat) {
    && call.since <= k < s.position <= |w.stdout| && QuietUntil(w, call, k)
    && w.stdout[k].Read? && exists o :: Answers(w.stdout[k].value, o, call.id) && Reports(o, reply)
  }

  ghost predicate FailedBy(w: World, s: State, call: Call, message: string, k: nat) {
    && call.since <= k < s.position <= |w.stdout| && QuietUntil(w, call, k)
    && w.stdout[k].ReadError?
    && message == "transport failed while awaiting response: " + w.show(w.stdout[k].error)
  }

  lemma QuietWithoutDelivery(w: World, call: Call, k: nat)
    requires k <= |w.stdout|
    requires forall j :: call.since <= j < k ==> DeliveryOf(w, w.stdout[j], call.id).Empty?
    ensures QuietUntil(w, call, k)
  {
    forall j | call.since <= j < k
      ensures w.stdout[j].Read? && forall o :: !Answers(w.stdout[j].value, o, call.id)
    {
      assert DeliveryOf(w, w.stdout[j], call.id).Empty?;
      ResponseRead(w.stdout[j].value, call.id);
    }
  }

  /** What each outcome means. The branch for a sender that went away is dead. */
  ghost predicate OutcomeExplained(w: World, s: State, call: Call)
    requires call.phase.Done?
  {
    match call.phase.outcome
    case Answered(reply) => exists k :: AnsweredBy(w, s, call, reply, k)
    case ReadFailed(message) => exists k :: FailedBy(w, s, call, message, k)
    case TimedOut => call.id !in s.clients.pending
    case RefusedAtSend => call.id !in s.clients.pending
    case Disconnected => false
  }

  lemma OutcomesExplained(w: World, events: seq<Event>, c: nat)
    requires c < |Run(w, events).clients.calls| && Run(w, events).clients.calls[c].phase.Done?
    ensures OutcomeExplained(w, Run(w, events), Run(w, events).clients.calls[c])
  {
    var s := Run(w, events);
    var call := s.clients.calls[c];
    RunAccountsCalls(w, events);
    assert Accounted(w, s.clients, s.position, c);
    if HasLeft(call) {
      NotPending(w, s.clients, s.position, c);
    } else {
      var k := FirstDeliveryIsFirst(w, call.since, s.position, call.id);
      QuietWithoutDelivery(w, call, k);
      if call.phase.outcome.Answered? {
        ResponseRead(w.stdout[k].value, call.id);
        assert AnsweredBy(w, s, call, call.phase.outcome.reply, k);
      } else {
        assert FailedBy(w, s, call, call.phase.outcome.message, k);
      }
    }
  }

  /** No caller is ever told that its sender went away without a word. */
  lemma NeverDisconnected(w: World, events: seq<Event>, c: nat, late: bool)
    requires Enabled(Run(w, events), PollCall(c, late))
    ensures Step(w, Run(w, events), PollCall(c, late)).clients.calls[c].phase != Done(Disconnected)
  {
    var s := Run(w, events);
    RunAccountsCalls(w, events);
    PollKeeps(w, s.clients, s.position, c, late);
  }

  lemma NotPending(w: World, cl: Clients, position: nat, c: nat)
    requires CallsAccounted(w, cl, position) && c < |cl.calls| && !SenderAlive(cl, c)
    ensures cl.calls[c].id !in cl.pending
  {
    if cl.calls[c].id in cl.pending {
      var d := cl.pending[cl.calls[c].id];
      if d != c { IdsDiffer(w, cl, position, c, d); }
    }
  }

  /** Registered, without an outcome, and nothing has been delivered to it. */
  predicate IsOpen(call: Call) {
    !call.phase.Numbered? && !call.phase.Done? && call.cell.Empty?
  }

  /** The pending map holds exactly the open calls. */
  lemma PendingExactly(w: World, events: seq<Event>, id: string)
    ensures var cl := Run(w, events).clients;
            id in cl.pending <==> exists c :: 0 <= c < |cl.calls| && cl.calls[c].id == id && IsOpen(cl.calls[c])
  {
    var s := Run(w, events);
    var cl := s.clients;
    RunAccountsCalls(w, events);
    if id in cl.pending {
      var c := cl.pending[id];
      assert Accounted(w, cl, s.position, c);
      assert cl.calls[c].id == id && IsOpen(cl.calls[c]);
    }
    if c :| 0 <= c < |cl.calls| && cl.calls[c].id == id && IsOpen(cl.calls[c]) {
      assert Accounted(w, cl, s.position, c);
    }
  }

  /** No two requests ever share an id. */
  lemma RequestIdsDiffer(w: World, events: seq<Event>, c: nat, d: nat)
    requires c < d < |Run(w, events).clients.calls|
    ensures Run(w, events).clients.calls[c].id != Run(w, events).clients.calls[d].id
    ensures Run(w, events).clients.calls[c].id == "req_" + Digits(c + 1) + "_" + w.suffix
  {
    RunAccountsCalls(w, events);
    assert Accounted(w, Run(w, events).clients, Run(w, events).position, c);
    IdsDiffer(w, Run(w, events).clients, Run(w, events).position, c, d);
  }

  lemma StepKeepsOutcome(w: World, s: State, e: Event, c: nat)
    requires Enabled(s, e) && c < |s.clients.calls|
    ensures |Step(w, s, e).clients.calls| >= |s.clients.calls|
    ensures Step(w, s, e).clients.calls[c].id == s.clients.calls[c].id
    ensures s.clients.calls[c].phase.Done? ==> Step(w, s, e).clients.calls[c].phase == s.clients.calls[c].phase
  {
    if e.ReadNext? && s.position < |w.stdout| {
      TakenItem(w, s);
      ItemKeepsPhases(w, s.clients, w.stdout[s.position], c);
    }
  }

  lemma ItemKeepsPhases(w: World, cl: Clients, item: Item, c: nat)
    requires c < |cl.calls|
    ensures var after := AfterItem(w, cl, item);
            && |after.calls| == |cl.calls| && after.calls[c].id == cl.calls[c].id
            && after.calls[c].phase == cl.calls[c].phase
  {
  }

  /** An outcome, once there, is there for good. */
  lemma {:induction false} OutcomesAreFinal(w: World, s: State, events: seq<Event>, c: nat)
    requires c < |s.clients.calls|
    ensures |RunFrom(w, s, events).clients.calls| >= |s.clients.calls|
    ensures RunFrom(w, s, events).clients.calls[c].id == s.clients.calls[c].id
    ensures s.clients.calls[c].phase.Done?
            ==> RunFrom(w, s, events).clients.calls[c].phase == s.clients.calls[c].phase
  {
    if events != [] {
      var before, e := RunFrom(w, s, events[..|events| - 1]), events[|events| - 1];
      OutcomesAreFinal(w, s, events[..|events| - 1], c);
      if Enabled(before, e) { StepKeepsOutcome(w, before, e, c); }
    }
  }

  /** The driver is about to read the value `v`. */
  ghost predicate ReadsNext(w: World, s: State, v: Value) {
    s.stop.None? && s.position < |w.stdout| && w.stdout[s.position] == Read(v)
  }

  /** A response is read past unless it answers an open call: an unknown id, or
      one already answered, timed out, refused or failed, changes nothing. */
  lemma LateResponseChangesNothing(w: World, events: seq<Event>, v: Value)
    requires ReadsNext(w, Run(w, events), v) && Get(v, "type") == Some(Str("control_response"))
    requires forall c, o :: 0 <= c < |Run(w, events).clients.calls| && IsOpen(Run(w, events).clients.calls[c])
                            ==> !Answers(v, o, Run(w, events).clients.calls[c].id)
    ensures var s := Run(w, events); Step(w, s, ReadNext) == s.(position := s.position + 1)
  {
    var s := Run(w, events);
    if ResponseTo(v).Some? {
      ResponseRead(v, ResponseTo(v).value);
      PendingExactly(w, events, ResponseTo(v).value);
    }
  }

  /** A response to an open call settles that call, with what its body reports,
      and changes nothing else. */
  lemma ResponseSettlesItsCall(w: World, events: seq<Event>, v: Value, c: nat, o: Value) returns (reply: Reply)
    requires ReadsNext(w, Run(w, events), v) && c < |Run(w, events).clients.calls|
    requires IsOpen(Run(w, events).clients.calls[c]) && Answers(v, o, Run(w, events).clients.calls[c].id)
    ensures Reports(o, reply)
    ensures var s := Run(w, events);
            var call := s.clients.calls[c];
            Step(w, s, ReadNext)
            == s.(position := s.position + 1,
                  clients := Clients(s.clients.calls[c := call.(cell := Full(Answered(reply)))],
                                     s.clients.pending - {call.id}))
  {
    var s := Run(w, events);
    ResponseRead(v, s.clients.calls[c].id);
    RunAccountsCalls(w, events);
    assert Accounted(w, s.clients, s.position, c);
    reply := ReplyIn(v);
  }

  /** The waiting caller finds it there, however late it looks. */
  lemma AnswerReachesTheCaller(w: World, events: seq<Event>, v: Value, c: nat, o: Value, late: bool)
    returns (reply: Reply)
    requires ReadsNext(w, Run(w, events), v) && c < |Run(w, events).clients.calls|
    requires IsOpen(Run(w, events).clients.calls[c]) && Answers(v, o, Run(w, events).clients.calls[c].id)
    requires Run(w, events).clients.calls[c].phase.Waiting?
    ensures Reports(o, reply)
    ensures var calls := Run(w, events + [ReadNext, PollCall(c, late)]).clients.calls;
            c < |calls| && calls[c].phase == Done(Answered(reply))
  {
    reply := ResponseSettlesItsCall(w, events, v, c, o);
    var all := events + [ReadNext, PollCall(c, late)];
    assert all[..|events|] == events;
    RunStep(w, all, |events|);
    RunStep(w, all, |events| + 1);
    assert all[..|events| + 2] == all;
  }

  /** Where a call can still go once the driver has stopped and nothing was
      delivered to it: a waiting one can only time out. */
  predicate OnlyTimeLeft(phase: Phase) {
    phase.Waiting? || phase.Expired? || phase == Done(TimedOut)
  }

  lemma StoppedStep(w: World, s: State, e: Event, c: nat)
    requires CallsAccounted(w, s.clients, s.position)
    requires s.stop.Some? && Enabled(s, e) && c < |s.clients.calls|
    requires s.clients.calls[c].cell.Empty? && OnlyTimeLeft(s.clients.calls[c].phase)
    ensures var t := Step(w, s, e);
            && t.stop.Some? && c < |t.clients.calls| && t.clients.calls[c].cell.Empty?
            && OnlyTimeLeft(t.clients.calls[c].phase)
  {
    if e.PollCall? && e.c == c { assert Accounted(w, s.clients, s.position, c); }
  }

  /** After a clean end of input or a close, what is still pending ends only
      by timing out. */
  lemma {:induction false} AfterStopOnlyTimeouts(w: World, events: seq<Event>, more: seq<Event>, c: nat)
    requires Run(w, events).stop.Some? && c < |Run(w, events).clients.calls|
    requires Run(w, events).clients.calls[c].phase.Waiting? && Run(w, events).clients.calls[c].cell.Empty?
    ensures var t := RunFrom(w, Run(w, events), more);
            && t.stop.Some? && c < |t.clients.calls| && t.clients.calls[c].cell.Empty?
            && OnlyTimeLeft(t.clients.calls[c].phase)
  {
    if more != [] {
      var init, e := more[..|more| - 1], more[|more| - 1];
      AfterStopOnlyTimeouts(w, events, init, c);
      var before := RunFrom(w, Run(w, events), init);
      if Enabled(before, e) {
        RunContinues(w, events, init);
        RunAccountsCalls(w, events + init);
        StoppedStep(w, before, e, c);
      }
    }
  }

  lemma {:induction false} RunContinues(w: World, events: seq<Event>, more: seq<Event>)
    ensures Run(w, events + more) == RunFrom(w, Run(w, events), more)
  {
    if more == [] {
      assert events + more == events;
    } else {
      assert (events + more)[..|events + more| - 1] == events + more[..|more| - 1];
      RunContinues(w, events, more[..|more| - 1]);
    }
  }

  /** A read error settles exactly the open calls, all of them as failed; a
      clean end of input and a close settle none. */
  lemma StoppingAndOpenCalls(w: World, events: seq<Event>, e: Event, c: nat)
    requires var s := Run(w, events);
             s.stop.None? && Enabled(s, e) && Step(w, s, e).stop.Some? && c < |s.clients.calls|
    ensures var s := Run(w, events);
            var call, t := s.clients.calls[c], Step(w, s, e);
            t.clients.calls[c]
            == if t.stop == Some(AtError) && IsOpen(call)
               then call.(cell := Full(ReadFailed("transport failed while awaiting response: "
                                                  + w.show(w.stdout[s.position].error))))
               else call
    ensures Step(w, Run(w, events), e).stop == Some(AtError) ==> Step(w, Run(w, events), e).clients.pending == map[]
  {
    var s := Run(w, events);
    RunAccountsCalls(w, events);
    assert Accounted(w, s.clients, s.position, c);
    if Step(w, s, e).stop == Some(AtError) { ItemReaches(w, s.clients, s.position, c); }
  }

  /** Only a driver that has returned refuses a request. */
  lemma {:induction false} RefusedOnlyByReturn(w: World, events: seq<Event>, c: nat)
    requires c < |Run(w, events).clients.calls|
    requires var phase := Run(w, events).clients.calls[c].phase; phase.Refused? || phase == Done(RefusedAtSend)
    ensures Run(w, events).gone
  {
    if events != [] {
      var before, e := Run(w, events[..|events| - 1]), events[|events| - 1];
      RunAccountsCalls(w, events[..|events| - 1]);
      if Enabled(before, e) && !before.gone {
        RefusedStays(w, before, e, c);
        RefusedOnlyByReturn(w, events[..|events| - 1], c);
      }
      if !Enabled(before, e) { RefusedOnlyByReturn(w, events[..|events| - 1], c); }
    }
  }

  lemma RefusedStays(w: World, s: State, e: Event, c: nat)
    requires CallsAccounted(w, s.clients, s.position) && Enabled(s, e) && !s.gone
    requires c < |Step(w, s, e).clients.calls|
    requires var phase := Step(w, s, e).clients.calls[c].phase; phase.Refused? || phase == Done(RefusedAtSend)
    ensures c < |s.clients.calls|
    ensures var phase := s.clients.calls[c].phase; phase.Refused? || phase == Done(RefusedAtSend)
  {
    if e.ReadNext? {
      if s.position < |w.stdout| {
        TakenItem(w, s);
        ItemKeepsNumber(w, s.clients, w.stdout[s.position]);
        ItemKeepsPhases(w, s.clients, w.stdout[s.position], c);
      }
    } else if c < |s.clients.calls| {
      assert Accounted(w, s.clients, s.position, c);
    }
  }

  lemma ItemKeepsNumber(w: World, cl: Clients, item: Item)
    ensures |AfterItem(w, cl, item).calls| == |cl.calls|
  {
  }

  lemma RunStep(w: World, events: seq<Event>, n: nat)
    requires n < |events|
    ensures Run(w, events[..n + 1]) == Next(w, Run(w, events[..n]), events[n])
  {
    assert events[..n + 1][..n] == events[..n];
  }

  /** One request, the end of the output, and the caller's clock. */
  const UNANSWERED: seq<Event> := [
    Issue("interrupt"), RegisterCall(0), SendRequest(0), ReadNext, Return, PollCall(0, false),
    PollCall(0, true), ForgetCall(0)
  ]

  /** The caller of a driver that has returned is told nothing until its own
      clock runs out. */
  lemma UnansweredWaits(w: World)
    requires w.stdout == []
    ensures var s := Run(w, UNANSWERED[..6]);
            s.gone && |s.clients.calls| == 1 && s.clients.calls[0].phase.Waiting? && IsOpen(s.clients.calls[0])
    ensures var s := Run(w, UNANSWERED[..8]);
            |s.clients.calls| == 1 && s.clients.calls[0].phase == Done(TimedOut)
  {
    UnansweredIsLeft(w);
    RunStep(w, UNANSWERED, 5);
    RunStep(w, UNANSWERED, 6);
    RunStep(w, UNANSWERED, 7);
  }

  lemma UnansweredIsLeft(w: World)
    requires w.stdout == []
    ensures var s, id := Run(w, UNANSWERED[..5]), RequestId(1, w.suffix);
            s.gone && s.clients == Clients([Call(id, "interrupt", Waiting, Empty, 0, None)], map[id := 0])
  {
    UnansweredIsSent(w);
    RunStep(w, UNANSWERED, 3);
    RunStep(w, UNANSWERED, 4);
  }

  lemma UnansweredIsSent(w: World)
    requires w.stdout == []
    ensures var s, id := Run(w, UNANSWERED[..3]), RequestId(1, w.suffix);
            s.stop.None? && s.position == 0
            && s.clients == Clients([Call(id, "interrupt", Waiting, Empty, 0, None)], map[id := 0])
  {
    assert Run(w, UNANSWERED[..0]) == INIT;
    RunStep(w, UNANSWERED, 0);
    RunStep(w, UNANSWERED, 1);
    RunStep(w, UNANSWERED, 2);
  }
}
