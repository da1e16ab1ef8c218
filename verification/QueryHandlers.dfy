/** Responses to incoming control requests. */
module QueryHandlers {
  import opened Wrappers
  import opened Json
  import opened Protocol
  import opened QueryState
  import opened QueryCalls

  // ---------------------------------------------------------------------
  // Counting.
  // ---------------------------------------------------------------------

  function Bit(b: bool): nat { if b then 1 else 0 }

  /** Requests with this id among the first `n` items. */
  ghost function Requests(w: World, n: nat, id: string): nat
    requires n <= |w.stdout|
  {
    if n == 0 then 0
    else Requests(w, n - 1, id) + Bit(w.stdout[n - 1].Read? && Asks(w, w.stdout[n - 1].value, id))
  }

  lemma RequestsNext(w: World, n: nat, id: string)
    requires n < |w.stdout|
    ensures Requests(w, n + 1, id)
            == Requests(w, n, id) + Bit(w.stdout[n].Read? && RequestIn(w, w.stdout[n].value) == Some(id))
  {
    if w.stdout[n].Read? { RequestRead(w, w.stdout[n].value, id); }
  }

  predicate IsResponse(command: Command, id: string) {
    command.Write? && command.line.Response? && command.line.id == id
  }

  function Responses(commands: seq<Command>, id: string): nat {
    if commands == [] then 0
    else Responses(commands[..|commands| - 1], id) + Bit(IsResponse(commands[|commands| - 1], id))
  }

  function TasksOf(tasks: seq<Task>, id: string): nat {
    if tasks == [] then 0 else TasksOf(tasks[..|tasks| - 1], id) + Bit(tasks[|tasks| - 1].id == id)
  }

  function RespondedOf(tasks: seq<Task>, id: string): (n: nat)
    ensures n <= TasksOf(tasks, id)
  {
    if tasks == [] then 0
    else RespondedOf(tasks[..|tasks| - 1], id)
         + Bit(tasks[|tasks| - 1].id == id && tasks[|tasks| - 1].progress.Responded?)
  }

  lemma ResponsesSnoc(commands: seq<Command>, command: Command, id: string)
    ensures Responses(commands + [command], id) == Responses(commands, id) + Bit(IsResponse(command, id))
  {
    assert (commands + [command])[..|commands|] == commands;
  }

  lemma TasksSnoc(tasks: seq<Task>, task: Task, id: string)
    ensures TasksOf(tasks + [task], id) == TasksOf(tasks, id) + Bit(task.id == id)
    ensures RespondedOf(tasks + [task], id) == RespondedOf(tasks, id) + Bit(task.id == id && task.progress.Responded?)
  {
    assert (tasks + [task])[..|tasks|] == tasks;
  }

  /** Tasks that differ only in how they were stopped count the same. */
  ghost predicate SameCounting(a: seq<Task>, b: seq<Task>) {
    && |a| == |b|
    && forall t :: 0 <= t < |a| ==> a[t].id == b[t].id && (a[t].progress.Responded? <==> b[t].progress.Responded?)
  }

  lemma {:induction false} SameCounts(a: seq<Task>, b: seq<Task>, id: string)
    requires SameCounting(a, b)
    ensures TasksOf(a, id) == TasksOf(b, id) && RespondedOf(a, id) == RespondedOf(b, id)
  {
    if a != [] {
      assert SameCounting(a[..|a| - 1], b[..|b| - 1]);
      SameCounts(a[..|a| - 1], b[..|b| - 1], id);
    }
  }

  lemma {:induction false} OneMoreResponded(tasks: seq<Task>, t: nat, id: string)
    requires t < |tasks| && !tasks[t].progress.Responded?
    ensures var after := tasks[t := tasks[t].(progress := Responded)];
            && TasksOf(after, id) == TasksOf(tasks, id)
            && RespondedOf(after, id) == RespondedOf(tasks, id) + Bit(tasks[t].id == id)
  {
    var after, n := tasks[t := tasks[t].(progress := Responded)], |tasks| - 1;
    if t < n {
      OneMoreResponded(tasks[..n], t, id);
      assert after[..n] == tasks[..n][t := tasks[t].(progress := Responded)];
    } else {
      assert after[..n] == tasks[..n];
    }
  }

  // ---------------------------------------------------------------------
  // The invariant.
  // ---------------------------------------------------------------------

  ghost predicate Counted(w: World, h: Handlers, sent: seq<Command>, position: nat) {
    && position <= |w.stdout|
    && (forall id :: TasksOf(h.tasks, id) == Requests(w, position, id))
    && (forall id :: Responses(sent, id) == RespondedOf(h.tasks, id))
  }

  /** The map leads to the latest task of its id, and to every latest task
      still running. */
  ghost predicate Tracked(h: Handlers) {
    && (forall id :: id in h.inflight ==> h.inflight[id] < |h.tasks| && h.tasks[h.inflight[id]].id == id)
    && (forall id, t :: id in h.inflight && h.inflight[id] < t < |h.tasks| ==> h.tasks[t].id != id)
  }

  ghost predicate Latest(h: Handlers, t: nat) {
    t < |h.tasks| && forall u :: t < u < |h.tasks| ==> h.tasks[u].id != h.tasks[t].id
  }

  ghost predicate RunningTracked(h: Handlers) {
    forall t: nat :: Latest(h, t) && h.tasks[t].progress.Running?
      ==> h.tasks[t].id in h.inflight && h.inflight[h.tasks[t].id] == t
  }

  ghost predicate HandlersKept(w: World, s: State) {
    && Counted(w, s.handlers, s.outbound.sent, s.position)
    && Tracked(s.handlers)
    && (s.stop.None? ==> RunningTracked(s.handlers))
  }

  lemma SpawnKeeps(w: World, s: State, id: string)
    requires HandlersKept(w, s) && s.stop.None? && s.position < |w.stdout| && w.stdout[s.position].Read?
    requires RequestIn(w, w.stdout[s.position].value) == Some(id)
    ensures HandlersKept(w, s.(position := s.position + 1, handlers := Spawn(s.handlers, id)))
  {
    SpawnCounts(w, s.handlers, s.outbound.sent, s.position, id);
    SpawnTracks(s.handlers, id);
  }

  lemma SpawnCounts(w: World, h: Handlers, sent: seq<Command>, n: nat, id: string)
    requires Counted(w, h, sent, n) && n < |w.stdout| && w.stdout[n].Read?
    requires RequestIn(w, w.stdout[n].value) == Some(id)
    ensures Counted(w, Spawn(h, id), sent, n + 1)
  {
    var after := Spawn(h, id);
    forall other: string
      ensures TasksOf(after.tasks, other) == Requests(w, n + 1, other)
      ensures RespondedOf(after.tasks, other) == RespondedOf(h.tasks, other)
    {
      RequestsNext(w, n, other);
      TasksSnoc(h.tasks, Task(id, Running), other);
    }
  }

  lemma SpawnTracks(h: Handlers, id: string)
    requires Tracked(h) && RunningTracked(h)
    ensures Tracked(Spawn(h, id)) && RunningTracked(Spawn(h, id))
  {
    var after := Spawn(h, id);
    forall t: nat | Latest(after, t) && after.tasks[t].progress.Running?
      ensures after.tasks[t].id in after.inflight && after.inflight[after.tasks[t].id] == t
    {
      if t < |h.tasks| {
        assert after.tasks[|h.tasks|].id != after.tasks[t].id;
        assert Latest(h, t) by {
          forall u | t < u < |h.tasks| ensures h.tasks[u].id != h.tasks[t].id { assert after.tasks[u] == h.tasks[u]; }
        }
      }
    }
  }

  /** Reading past an item that is no request counts nothing. */
  lemma ReadPastKeeps(w: World, s: State)
    requires HandlersKept(w, s) && s.position < |w.stdout|
    requires w.stdout[s.position].Read? ==> RequestIn(w, w.stdout[s.position].value).None?
    ensures HandlersKept(w, s.(position := s.position + 1))
  {
    forall id: string ensures Requests(w, s.position + 1, id) == Requests(w, s.position, id) {
      RequestsNext(w, s.position, id);
    }
  }

  lemma SettledKeeps(w: World, s: State, after: Handlers)
    requires HandlersKept(w, s) && SameCounting(s.handlers.tasks, after.tasks) && Tracked(after)
    requires s.stop.None? ==> RunningTracked(after)
    ensures HandlersKept(w, s.(handlers := after))
  {
    forall id: string
      ensures TasksOf(after.tasks, id) == TasksOf(s.handlers.tasks, id)
      ensures RespondedOf(after.tasks, id) == RespondedOf(s.handlers.tasks, id)
    {
      SameCounts(s.handlers.tasks, after.tasks, id);
    }
  }

  lemma LatestOnlyNeedsIds(h: Handlers, after: Handlers, t: nat)
    requires SameCounting(h.tasks, after.tasks) && Latest(after, t)
    ensures Latest(h, t)
  {
  }

  lemma AbortKeeps(w: World, s: State, id: string)
    requires HandlersKept(w, s)
    ensures HandlersKept(w, s.(handlers := Abort(s.handlers, id)))
  {
    var h, after := s.handlers, Abort(s.handlers, id);
    assert SameCounting(h.tasks, after.tasks);
    assert Tracked(after);
    if s.stop.None? {
      forall t: nat | Latest(after, t) && after.tasks[t].progress.Running?
        ensures after.tasks[t].id in after.inflight && after.inflight[after.tasks[t].id] == t
      {
        LatestOnlyNeedsIds(h, after, t);
      }
    }
    SettledKeeps(w, s, after);
  }

  lemma AbortAllKeeps(w: World, s: State)
    requires HandlersKept(w, s) && s.stop.None?
    ensures HandlersKept(w, s.(handlers := AbortAll(s.handlers)))
  {
    var h, after := s.handlers, AbortAll(s.handlers);
    assert SameCounting(h.tasks, after.tasks);
    forall t: nat | Latest(after, t) ensures !after.tasks[t].progress.Running? {
      LatestOnlyNeedsIds(h, after, t);
      if h.tasks[t].progress.Running? { assert h.inflight[h.tasks[t].id] == t; }
    }
    SettledKeeps(w, s, after);
  }

  lemma FinishKeeps(w: World, s: State, t: nat, body: Result<Value, string>)
    requires HandlersKept(w, s) && t < |s.handlers.tasks| && s.handlers.tasks[t].progress.Running?
    ensures HandlersKept(w, FinishTask(s, t, body))
  {
    var h, after := s.handlers, FinishTask(s, t, body);
    var task := h.tasks[t];
    if s.gone {
      assert SameCounting(h.tasks, after.handlers.tasks);
      SettledKeeps(w, s, after.handlers);
    } else {
      forall id: string
        ensures Responses(after.outbound.sent, id) == RespondedOf(after.handlers.tasks, id)
        ensures TasksOf(after.handlers.tasks, id) == TasksOf(h.tasks, id)
      {
        OneMoreResponded(h.tasks, t, id);
        ResponsesSnoc(s.outbound.sent, Write(Response(task.id, body)), id);
      }
      if s.stop.None? { FinishTracks(h, t); }
    }
  }

  lemma FinishTracks(h: Handlers, t: nat)
    requires RunningTracked(h) && t < |h.tasks|
    ensures RunningTracked(h.(tasks := h.tasks[t := h.tasks[t].(progress := Responded)]))
  {
    var after := h.(tasks := h.tasks[t := h.tasks[t].(progress := Responded)]);
    forall u: nat | Latest(after, u) && after.tasks[u].progress.Running?
      ensures after.tasks[u].id in h.inflight && h.inflight[after.tasks[u].id] == u
    {
      forall v | u < v < |h.tasks| ensures h.tasks[v].id != h.tasks[u].id { assert after.tasks[v].id == h.tasks[v].id; }
      assert Latest(h, u);
    }
  }

  lemma EnqueueOtherKeeps(w: World, s: State, command: Command)
    requires HandlersKept(w, s) && !(command.Write? && command.line.Response?)
    ensures HandlersKept(w, s.(outbound := Enqueue(s.outbound, command)))
  {
    forall id ensures Responses(s.outbound.sent + [command], id) == Responses(s.outbound.sent, id) {
      ResponsesSnoc(s.outbound.sent, command, id);
    }
  }

  predicate SameHandlers(s: State, t: State) {
    && s.handlers == t.handlers && s.outbound.sent == t.outbound.sent && s.position == t.position
    && (t.stop.None? ==> s.stop.None?)
  }

  lemma SameHandlersKeeps(w: World, s: State, t: State)
    requires HandlersKept(w, s) && SameHandlers(s, t)
    ensures HandlersKept(w, t)
  {
  }

  /** Routing spawns for a request, aborts for a cancel, and otherwise leaves
      the handlers alone. */
  lemma RouteAndHandlers(w: World, s: State, v: Value)
    ensures Route(w, s, v).handlers
            == if RequestIn(w, v).Some? then Spawn(s.handlers, RequestIn(w, v).value)
               else if CancelIn(v).Some? then Abort(s.handlers, CancelIn(v).value)
               else s.handlers
    ensures Route(w, s, v).outbound == s.outbound
    ensures Route(w, s, v).position == s.position && Route(w, s, v).stop == s.stop && Route(w, s, v).gone == s.gone
  {
  }

  lemma RoutedKeeps(w: World, s: State, t: State)
    requires HandlersKept(w, s) && s.stop.None? && s.position < |w.stdout| && w.stdout[s.position].Read?
    requires t.outbound == s.outbound && t.position == s.position + 1 && t.stop == s.stop
    requires var request, cancel := RequestIn(w, w.stdout[s.position].value), CancelIn(w.stdout[s.position].value);
             t.handlers == if request.Some? then Spawn(s.handlers, request.value)
                           else if cancel.Some? then Abort(s.handlers, cancel.value)
                           else s.handlers
    ensures HandlersKept(w, t)
  {
    var request, cancel := RequestIn(w, w.stdout[s.position].value), CancelIn(w.stdout[s.position].value);
    var past := s.(position := s.position + 1);
    if request.Some? {
      SpawnKeeps(w, s, request.value);
    } else {
      ReadPastKeeps(w, s);
      if cancel.Some? { AbortKeeps(w, past, cancel.value); }
    }
    SameHandlersKeeps(w, past.(handlers := t.handlers), t);
  }

  lemma ReadKeeps(w: World, s: State)
    requires HandlersKept(w, s) && s.stop.None?
    ensures HandlersKept(w, TakeItem(w, s))
  {
    var t := TakeItem(w, s);
    if s.position >= |w.stdout| {
      SameHandlersKeeps(w, s, t);
    } else if w.stdout[s.position].ReadError? {
      ReadPastKeeps(w, s);
      SameHandlersKeeps(w, s.(position := s.position + 1), t);
    } else {
      RouteAndHandlers(w, s.(position := s.position + 1), w.stdout[s.position].value);
      RoutedKeeps(w, s, t);
    }
  }

  lemma TakeKeeps(w: World, s: State, fate: Fate)
    requires HandlersKept(w, s) && s.stop.None? && s.outbound.queue != []
    ensures HandlersKept(w, TakeCommand(w, s, fate))
  {
    var t := TakeCommand(w, s, fate);
    if s.outbound.queue[0].Close? {
      AbortAllKeeps(w, s);
      SameHandlersKeeps(w, s.(handlers := AbortAll(s.handlers)), t);
    } else {
      SameHandlersKeeps(w, s, t);
    }
  }

  lemma StepKeepsHandlers(w: World, s: State, e: Event)
    requires HandlersKept(w, s) && Enabled(s, e)
    ensures HandlersKept(w, Step(w, s, e))
  {
    var t := Step(w, s, e);
    match e
    case Dequeue(fate) => TakeKeeps(w, s, fate);
    case ReadNext => ReadKeeps(w, s);
    case Finish(i, body) => FinishKeeps(w, s, i, body);
    case Offer(command) => if !s.gone { EnqueueOtherKeeps(w, s, command); }
    case SendRequest(c) =>
      if !s.gone {
        var command := Write(Request(s.clients.calls[c].id, s.clients.calls[c].subtype));
        EnqueueOtherKeeps(w, s, command);
        SameHandlersKeeps(w, s.(outbound := Enqueue(s.outbound, command)), t);
      } else {
        SameHandlersKeeps(w, s, t);
      }
    case Issue(_) => SameHandlersKeeps(w, s, t);
    case RegisterCall(_) => SameHandlersKeeps(w, s, t);
    case PollCall(_, _) => SameHandlersKeeps(w, s, t);
    case ForgetCall(_) => SameHandlersKeeps(w, s, t);
    case Receive => SameHandlersKeeps(w, s, t);
    case Return => SameHandlersKeeps(w, s, t);
  }

  lemma {:induction false} RunKeepsHandlers(w: World, events: seq<Event>)
    ensures HandlersKept(w, Run(w, events))
  {
    if events != [] {
      var before, e := Run(w, events[..|events| - 1]), events[|events| - 1];
      RunKeepsHandlers(w, events[..|events| - 1]);
      if Enabled(before, e) { StepKeepsHandlers(w, before, e); }
    }
  }

  // ---------------------------------------------------------------------
  // Theorems.
  // ---------------------------------------------------------------------

  /** Never more responses than requests, id by id. */
  lemma ResponsesNeverOutnumber(w: World, events: seq<Event>, id: string)
    ensures var s := Run(w, events);
            s.position <= |w.stdout| && Responses(s.outbound.sent, id) <= Requests(w, s.position, id)
  {
    RunKeepsHandlers(w, events);
  }

  /** How a task ends never changes: what is not running stays as it is. */
  lemma {:induction false} EndedTasksStay(w: World, s: State, more: seq<Event>, t: nat)
    requires t < |s.handlers.tasks|
    ensures var r := RunFrom(w, s, more);
            t < |r.handlers.tasks| && r.handlers.tasks[t].id == s.handlers.tasks[t].id
            && (!s.handlers.tasks[t].progress.Running? ==> r.handlers.tasks[t] == s.handlers.tasks[t])
  {
    if more != [] {
      var before, e := RunFrom(w, s, more[..|more| - 1]), more[|more| - 1];
      EndedTasksStay(w, s, more[..|more| - 1], t);
      if Enabled(before, e) { StepKeepsEnded(w, before, e, t); }
    }
  }

  lemma StepKeepsEnded(w: World, s: State, e: Event, t: nat)
    requires Enabled(s, e) && t < |s.handlers.tasks|
    ensures var r := Step(w, s, e);
            t < |r.handlers.tasks| && r.handlers.tasks[t].id == s.handlers.tasks[t].id
            && (!s.handlers.tasks[t].progress.Running? ==> r.handlers.tasks[t] == s.handlers.tasks[t])
  {
  }

  lemma {:induction false} OnlyTask(tasks: seq<Task>, t: nat, id: string)
    requires t < |tasks| && tasks[t].id == id && TasksOf(tasks, id) <= 1
    ensures forall u :: 0 <= u < |tasks| && u != t ==> tasks[u].id != id
    ensures RespondedOf(tasks, id) == Bit(tasks[t].progress.Responded?)
    decreases |tasks|
  {
    var n := |tasks| - 1;
    if t < n {
      OnlyTask(tasks[..n], t, id);
      AtLeastOne(tasks[..n], t, id);
    } else {
      forall u: nat | u < n ensures tasks[u].id != id {
        if tasks[u].id == id { AtLeastOne(tasks[..n], u, id); }
      }
    }
  }

  lemma {:induction false} AtLeastOne(tasks: seq<Task>, t: nat, id: string)
    requires t < |tasks| && tasks[t].id == id
    ensures TasksOf(tasks, id) >= 1
  {
    if t < |tasks| - 1 { AtLeastOne(tasks[..|tasks| - 1], t, id); }
  }

  /** With an id that is requested once, a cancel read while the handler still
      runs means that no response to it is ever enqueued. */
  lemma CancelSilences(w: World, events: seq<Event>, more: seq<Event>, t: nat)
    requires var s := Run(w, events);
             && s.stop.None? && s.position < |w.stdout| && w.stdout[s.position].Read?
             && t < |s.handlers.tasks| && s.handlers.tasks[t].progress.Running?
             && Cancels(w.stdout[s.position].value, s.handlers.tasks[t].id)
             && Requests(w, |w.stdout|, s.handlers.tasks[t].id) <= 1
    ensures Responses(Run(w, events + [ReadNext] + more).outbound.sent, Run(w, events).handlers.tasks[t].id) == 0
  {
    var s := Run(w, events);
    var id := s.handlers.tasks[t].id;
    RunKeepsHandlers(w, events);
    RequestsGrow(w, s.position, |w.stdout|, id);
    OnlyTask(s.handlers.tasks, t, id);
    assert Latest(s.handlers, t);
    RequestRead(w, w.stdout[s.position].value, id);
    RouteAndHandlers(w, s.(position := s.position + 1), w.stdout[s.position].value);
    assert Step(w, s, ReadNext).handlers.tasks[t] == Task(id, Aborted);
    AbortedStaysSilent(w, events, ReadNext, more, t);
  }

  /** A step that aborts the only handler of an id leaves that id without a
      response for good. */
  lemma AbortedStaysSilent(w: World, events: seq<Event>, e: Event, more: seq<Event>, t: nat)
    requires var s := Run(w, events);
             && Enabled(s, e) && t < |Step(w, s, e).handlers.tasks| && Step(w, s, e).handlers.tasks[t].progress.Aborted?
             && Requests(w, |w.stdout|, Step(w, s, e).handlers.tasks[t].id) <= 1
    ensures Responses(Run(w, events + [e] + more).outbound.sent, Step(w, Run(w, events), e).handlers.tasks[t].id) == 0
  {
    var after := Step(w, Run(w, events), e);
    var id := after.handlers.tasks[t].id;
    RunContinues(w, events, [e]);
    assert RunFrom(w, Run(w, events), [e][..0]) == Run(w, events);
    RunContinues(w, events + [e], more);
    EndedTasksStay(w, after, more, t);
    var r := Run(w, events + [e] + more);
    RunKeepsHandlers(w, events + [e] + more);
    RequestsGrow(w, r.position, |w.stdout|, id);
    OnlyTask(r.handlers.tasks, t, id);
  }

  /** The driver is about to take a close. */
  ghost predicate TakesClose(s: State) {
    s.stop.None? && s.outbound.queue != [] && s.outbound.queue[0] == Close
  }

  /** A close aborts, of the handlers that still run, exactly those whose id no
      later request reused. */
  lemma CloseStopsTheLatest(w: World, events: seq<Event>, t: nat, fate: Fate)
    requires TakesClose(Run(w, events)) && t < |Run(w, events).handlers.tasks|
    ensures var s := Run(w, events);
            var h, after := s.handlers, Step(w, s, Dequeue(fate)).handlers;
            |after.tasks| == |h.tasks| && after.tasks[t].id == h.tasks[t].id
            && after.tasks[t].progress
               == if h.tasks[t].progress.Running? && Latest(h, t) then Aborted else h.tasks[t].progress
  {
    RunKeepsHandlers(w, events);
    var h := Run(w, events).handlers;
    assert Tracked(h) && RunningTracked(h);
    if h.tasks[t].progress.Running? {
      if Latest(h, t) {
        assert h.tasks[t].id in h.inflight && h.inflight[h.tasks[t].id] == t;
      } else {
        var u :| t < u < |h.tasks| && h.tasks[u].id == h.tasks[t].id;
        assert forall id :: id in h.inflight && h.inflight[id] == t ==> id == h.tasks[t].id;
      }
    }
  }

  /** With an id that is requested once, a close taken while the handler still
      runs means that no response to it is ever enqueued. */
  lemma CloseSilences(w: World, events: seq<Event>, more: seq<Event>, t: nat, fate: Fate)
    requires TakesClose(Run(w, events))
    requires var h := Run(w, events).handlers;
             t < |h.tasks| && h.tasks[t].progress.Running? && Requests(w, |w.stdout|, h.tasks[t].id) <= 1
    ensures Responses(Run(w, events + [Dequeue(fate)] + more).outbound.sent, Run(w, events).handlers.tasks[t].id) == 0
  {
    var s := Run(w, events);
    RunKeepsHandlers(w, events);
    RequestsGrow(w, s.position, |w.stdout|, s.handlers.tasks[t].id);
    OnlyTask(s.handlers.tasks, t, s.handlers.tasks[t].id);
    CloseStopsTheLatest(w, events, t, fate);
    AbortedStaysSilent(w, events, Dequeue(fate), more, t);
  }

  /** A cancel stops a running handler exactly when no later request reused
      its id; an earlier one goes on and may still respond. */
  lemma CancelStopsTheLatest(w: World, events: seq<Event>, t: nat)
    requires var s := Run(w, events);
             && s.stop.None? && s.position < |w.stdout| && w.stdout[s.position].Read?
             && t < |s.handlers.tasks| && s.handlers.tasks[t].progress.Running?
             && Cancels(w.stdout[s.position].value, s.handlers.tasks[t].id)
    ensures var s := Run(w, events);
            Step(w, s, ReadNext).handlers.tasks[t].progress == if Latest(s.handlers, t) then Aborted else Running
  {
    RunKeepsHandlers(w, events);
    var s := Run(w, events);
    RequestRead(w, w.stdout[s.position].value, s.handlers.tasks[t].id);
    RouteAndHandlers(w, s.(position := s.position + 1), w.stdout[s.position].value);
    AbortStopsTheLatest(s.handlers, t);
  }

  lemma AbortStopsTheLatest(h: Handlers, t: nat)
    requires Tracked(h) && RunningTracked(h) && t < |h.tasks| && h.tasks[t].progress.Running?
    ensures Abort(h, h.tasks[t].id).tasks[t].progress == if Latest(h, t) then Aborted else Running
  {
    if !Latest(h, t) {
      var u :| t < u < |h.tasks| && h.tasks[u].id == h.tasks[t].id;
      assert h.tasks[t].id in h.inflight ==> h.inflight[h.tasks[t].id] >= u;
    }
  }

  lemma {:induction false} RequestsGrow(w: World, m: nat, n: nat, id: string)
    requires m <= n <= |w.stdout|
    ensures Requests(w, m, id) <= Requests(w, n, id)
  {
    if m < n { RequestsGrow(w, m, n - 1, id); }
  }

  function AskItem(body: Value): Item {
    Read(Obj(map["type" := Str("control_request"), "request_id" := Str("x"), "request" := body]))
  }

  const CANCEL_ITEM: Item := Read(Obj(map["type" := Str("control_cancel_request"), "request_id" := Str("x")]))

  /** Two requests under one id, then a cancel of it. */
  function ReusedId(body: Value): seq<Item> { [AskItem(body), AskItem(body), CANCEL_ITEM] }

  lemma AskIsRequest(w: World, body: Value)
    requires w.understands(body)
    ensures RequestIn(w, AskItem(body).value) == Some("x") && ResponseTo(AskItem(body).value).None?
  {
    assert KindOf(AskItem(body).value) == "control_request";
  }

  lemma CancelIsCancel(w: World)
    ensures RequestIn(w, CANCEL_ITEM.value).None? && CancelIn(CANCEL_ITEM.value) == Some("x")
    ensures ResponseTo(CANCEL_ITEM.value).None?
  {
    assert KindOf(CANCEL_ITEM.value) == "control_cancel_request";
  }

  function Cancelled(answer: Result<Value, string>): seq<Event> { [ReadNext, ReadNext, ReadNext, Finish(0, answer)] }

  /** Whatever the two requests ask and the first handler answers, the answer is
      sent although the id was cancelled. */
  lemma CancelMissesTheFirst(w: World, body: Value, answer: Result<Value, string>)
    requires w.understands(body) && w.stdout == ReusedId(body)
    ensures Run(w, Cancelled(answer)[..3]).outbound.sent == []
    ensures Run(w, Cancelled(answer)).outbound.sent == [Write(Response("x", answer))]
    ensures Responses(Run(w, Cancelled(answer)).outbound.sent, "x") == 1
  {
    ReusedIdRead(w, body, answer);
    RunStep(w, Cancelled(answer), 3);
    assert Cancelled(answer)[..4] == Cancelled(answer);
    ResponsesSnoc([], Write(Response("x", answer)), "x");
  }

  lemma ReusedIdRead(w: World, body: Value, answer: Result<Value, string>)
    requires w.understands(body) && w.stdout == ReusedId(body)
    ensures var s := Run(w, Cancelled(answer)[..3]);
            !s.gone && s.handlers.tasks == [Task("x", Running), Task("x", Aborted)] && s.outbound.sent == []
  {
    ReusedIdAsked(w, body, answer);
    RunStep(w, Cancelled(answer), 2);
    CancelRead(w, Run(w, Cancelled(answer)[..2]));
  }

  lemma ReusedIdAsked(w: World, body: Value, answer: Result<Value, string>)
    requires w.understands(body) && w.stdout == ReusedId(body)
    ensures var s := Run(w, Cancelled(answer)[..2]);
            && !s.gone && s.stop.None? && s.position == 2 && s.outbound.sent == []
            && s.handlers == Handlers([Task("x", Running), Task("x", Running)], map["x" := 1])
  {
    var events := Cancelled(answer);
    assert Run(w, events[..0]) == INIT;
    RunStep(w, events, 0);
    AskRead(w, body, INIT);
    RunStep(w, events, 1);
    AskRead(w, body, Run(w, events[..1]));
  }

  /** Reading one of the requests starts a handler. */
  lemma AskRead(w: World, body: Value, s: State)
    requires w.understands(body) && s.stop.None? && s.position < |w.stdout| && w.stdout[s.position] == AskItem(body)
    ensures var t := Step(w, s, ReadNext);
            t.handlers == Spawn(s.handlers, "x") && t.outbound == s.outbound && t.position == s.position + 1
            && t.stop == s.stop && t.gone == s.gone
  {
    AskIsRequest(w, body);
    RouteAndHandlers(w, s.(position := s.position + 1), AskItem(body).value);
  }

  lemma CancelRead(w: World, s: State)
    requires s.stop.None? && s.position < |w.stdout| && w.stdout[s.position] == CANCEL_ITEM
    ensures var t := Step(w, s, ReadNext);
            t.handlers == Abort(s.handlers, "x") && t.outbound == s.outbound && t.gone == s.gone
  {
    CancelIsCancel(w);
    RouteAndHandlers(w, s.(position := s.position + 1), CANCEL_ITEM.value);
  }

  /** Once the driver has left its loop nothing is taken, written or read any
      more; once it has returned nothing is enqueued either. */
  lemma {:induction false} NothingSentAfterStop(w: World, s: State, more: seq<Event>)
    requires s.stop.Some?
    ensures RunFrom(w, s, more).outbound.taken == s.outbound.taken && RunFrom(w, s, more).stop == s.stop
    ensures s.gone ==> RunFrom(w, s, more).outbound == s.outbound && RunFrom(w, s, more).gone
    ensures RunFrom(w, s, more).pipe == s.pipe && RunFrom(w, s, more).position == s.position
  {
    if more != [] { NothingSentAfterStop(w, s, more[..|more| - 1]); }
  }
}
