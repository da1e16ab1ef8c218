/** The objects behind the control protocol. Each method is one step that no
    other step can interrupt: a caller's use of a lock or a channel, or one
    turn of the driver. */
module QueryActor {
  import opened Wrappers
  import opened Json
  import opened Protocol
  import opened QueryState
  import opened QueryCalls
  import opened QueryMessages

  /** What a consumer finds when it asks for the next message. */
  datatype Receipt =
    | Waits
    | Ended
    | Message(message: Reply)

  /** The gate in front of the process's standard input. */
  class SubprocessTransport {
    const world: World
    var ready: bool
    var open: bool
    ghost var wire: Bytes
    ghost var log: seq<Attempt>

    ghost function View(): Pipe
      reads this
    {
      Pipe(ready, open, wire, log)
    }

    constructor (w: World)
      ensures world == w && View() == INIT.pipe
    {
      world := w;
      ready, open := true, true;
      wire, log := [], [];
    }

    method WriteLine(line: Line, fate: Fate) returns (ok: bool)
      modifies this
      ensures View() == WriteTo(world, old(View()), line, fate)
      ensures ok <==> old(ready) && old(open) && fate.Written?
    {
      log := log + [Attempt.WriteLine(line, fate)];
      if !ready {
        return false;
      }
      if !open {
        return false;
      }
      if fate.Cut? {
        ready := false;
        wire := wire + Head(Payload(world, line), fate.n);
        return false;
      }
      wire := wire + Payload(world, line);
      return fate.Written?;
    }

    method EndInput()
      modifies this
      ensures View() == ShutInputOf(old(View()))
    {
      log := log + [ShutInput];
      if open {
        open := false;
      }
    }

    method Close()
      modifies this
      ensures View() == ShutAllOf(old(View()))
    {
      log := log + [ShutAll];
      ready := false;
      if open {
        open := false;
      }
    }
  }

  class Query {
    const world: World
    const transport: SubprocessTransport
    var counter: nat
    var calls: seq<Call>
    var pending: map<string, nat>
    var queue: seq<Command>
    ghost var sent: seq<Command>
    ghost var taken: seq<Command>
    var tasks: seq<Task>
    var inflight: map<string, nat>
    var inbox: seq<Reply>
    ghost var delivered: seq<Reply>
    var lastErrorResultText: Option<string>
    var position: nat
    var stop: Option<Stop>
    var gone: bool
    ghost var history: seq<Event>

    ghost function View(): State
      reads this, transport
    {
      State(Clients(calls, pending), Outbound(sent, taken, queue), transport.View(), Handlers(tasks, inflight),
            Consumer(delivered, inbox, lastErrorResultText), position, stop, gone)
    }

    /** The state is what the steps so far make it. */
    ghost predicate Valid()
      reads this, transport
    {
      counter == |calls| && transport.world == world && View() == Run(world, history)
    }

    constructor (w: World)
      ensures Valid() && world == w && history == [] && fresh(transport)
    {
      world := w;
      transport := new SubprocessTransport(w);
      counter := 0;
      calls, pending := [], map[];
      queue, sent, taken := [], [], [];
      tasks, inflight := [], map[];
      inbox, delivered, lastErrorResultText := [], [], None;
      position, stop, gone := 0, None, false;
      history := [];
    }

    /** Extends the history by a step the fields already reflect. */
    ghost method Record(e: Event)
      requires counter == |calls| && transport.world == world
      requires Enabled(Run(world, history), e) && View() == Step(world, Run(world, history), e)
      modifies this`history
      ensures Valid() && history == old(history) + [e]
    {
      history := history + [e];
      assert history[..|history| - 1] == old(history);
    }

    // -------------------------------------------------------------------
    // A caller's steps.
    // -------------------------------------------------------------------

    method Issue(subtype: string) returns (c: nat)
      requires Valid()
      modifies this
      ensures Valid() && history == old(history) + [Event.Issue(subtype)]
      ensures c == |old(calls)| && c < |calls| && calls[c].id == RequestId(c + 1, world.suffix)
    {
      c := counter;
      counter := counter + 1;
      calls := calls + [Call(RequestId(counter, world.suffix), subtype, Numbered, Empty, 0, None)];
      Record(Event.Issue(subtype));
    }

    method InsertPending(c: nat)
      requires Valid() && c < |calls| && calls[c].phase.Numbered?
      modifies this
      ensures Valid() && history == old(history) + [RegisterCall(c)]
    {
      calls := calls[c := calls[c].(phase := Registered, since := position)];
      pending := pending[calls[c].id := c];
      Record(RegisterCall(c));
    }

    method SendRequest(c: nat)
      requires Valid() && c < |calls| && calls[c].phase.Registered?
      modifies this
      ensures Valid() && history == old(history) + [Event.SendRequest(c)]
    {
      var call := calls[c];
      var ok := Enqueue(Write(Request(call.id, call.subtype)));
      calls := calls[c := call.(phase := if ok then Waiting else Refused)];
      Record(Event.SendRequest(c));
    }

    /** The sending end of the command channel: refused once the driver is gone. */
    method Enqueue(command: Command) returns (ok: bool)
      modifies this`queue, this`sent
      ensures ok <==> !gone
      ensures Outbound(sent, taken, queue)
              == if !gone then QueryState.Enqueue(old(Outbound(sent, taken, queue)), command)
                 else old(Outbound(sent, taken, queue))
    {
      if gone {
        return false;
      }
      queue, sent := queue + [command], sent + [command];
      return true;
    }

    method AwaitReply(c: nat, late: bool)
      requires Valid() && c < |calls| && calls[c].phase.Waiting?
      modifies this
      ensures Valid() && history == old(history) + [PollCall(c, late)]
      ensures !calls[c].phase.Done? || calls[c].phase.outcome != Disconnected
    {
      var call := calls[c];
      if call.cell.Full? {
        calls := calls[c := call.(phase := Done(call.cell.outcome))];
      } else if call.id !in pending || pending[call.id] != c {
        pending := pending - {call.id};
        calls := calls[c := call.(phase := Done(Disconnected))];
      } else if late {
        calls := calls[c := call.(phase := Expired)];
      }
      NeverDisconnected(world, history, c, late);
      Record(PollCall(c, late));
    }

    method RemovePending(c: nat)
      requires Valid() && c < |calls| && (calls[c].phase.Expired? || calls[c].phase.Refused?)
      modifies this
      ensures Valid() && history == old(history) + [ForgetCall(c)]
    {
      var call := calls[c];
      pending := pending - {call.id};
      calls := calls[c := call.(phase := Done(if call.phase.Expired? then TimedOut else RefusedAtSend),
                                until := Some(position))];
      Record(ForgetCall(c));
    }

    /** Sends a user message, the end of input, or a close. */
    method Offer(command: Command) returns (ok: bool)
      requires Valid() && !(command.Write? && !command.line.UserMessage?)
      modifies this
      ensures Valid() && history == old(history) + [Event.Offer(command)] && (ok <==> !gone)
    {
      ok := Enqueue(command);
      Record(Event.Offer(command));
    }

    /** The next message, in the order of arrival. Without one the consumer
        waits while the driver may still send, and otherwise learns that the
        stream has ended. */
    method NextMessage() returns (r: Receipt)
      requires Valid()
      modifies this
      ensures Valid()
      ensures r == if old(inbox) != [] then Message(old(inbox)[0]) else if gone then Ended else Waits
      ensures history == old(history) + if r.Message? then [Receive] else []
      ensures r.Ended? && (stop == Some(AtEof) || stop == Some(AtError)) ==> IsWholeStream(world, delivered)
    {
      if inbox == [] {
        if !gone {
          return Waits;
        }
        if stop == Some(AtEof) || stop == Some(AtError) {
          EndMeansWhole(world, history);
        }
        return Ended;
      }
      r := Message(inbox[0]);
      delivered, inbox := delivered + [inbox[0]], inbox[1..];
      Record(Receive);
    }

    /** A handler finishes and offers its response. */
    method FinishHandler(t: nat, body: Result<Value, string>)
      requires Valid() && t < |tasks| && tasks[t].progress.Running?
      modifies this
      ensures Valid() && history == old(history) + [Finish(t, body)]
    {
      var ok := Enqueue(Write(Response(tasks[t].id, body)));
      tasks := tasks[t := tasks[t].(progress := if ok then Responded else Lost)];
      Record(Finish(t, body));
    }

    // -------------------------------------------------------------------
    // The driver.
    // -------------------------------------------------------------------

    /** One turn of the driver on the next command. */
    method DriveCommand(fate: Fate)
      requires Valid() && stop.None? && queue != []
      modifies this, transport
      ensures Valid() && history == old(history) + [Dequeue(fate)]
    {
      HandleCommand(fate);
      Record(Dequeue(fate));
    }

    method HandleCommand(fate: Fate)
      requires queue != [] && transport.world == world
      modifies this`queue, this`taken, this`tasks, this`inflight, this`stop, transport
      ensures View() == TakeCommand(world, old(View()), fate)
    {
      var command := queue[0];
      queue, taken := queue[1..], taken + [queue[0]];
      match command {
        case Write(line) =>
          var _ := transport.WriteLine(line, fate);
        case EndInput =>
          transport.EndInput();
        case Close =>
          AbortInflight();
          StopDriver(AtClose);
      }
    }

    method StopDriver(why: Stop)
      modifies this`stop, transport
      ensures stop == Some(why) && transport.View() == ShutAllOf(old(transport.View()))
    {
      transport.Close();
      stop := Some(why);
    }

    /** The driver returns, dropping what is left in the channel. */
    method ReturnDriver()
      requires Valid() && stop.Some? && !gone
      modifies this
      ensures Valid() && history == old(history) + [Return]
    {
      queue, gone := [], true;
      Record(Return);
    }

    /** Drains the map and aborts its tasks. */
    method AbortInflight()
      modifies this`tasks, this`inflight
      ensures Handlers(tasks, inflight) == AbortAll(old(Handlers(tasks, inflight)))
    {
      ghost var before := Handlers(tasks, inflight);
      while inflight != map[]
        invariant |tasks| == |before.tasks|
        invariant forall id :: id in inflight ==> id in before.inflight && inflight[id] == before.inflight[id]
        invariant forall t :: 0 <= t < |tasks| ==>
          tasks[t] == if exists id :: id in before.inflight && id !in inflight && before.inflight[id] == t
                      then Stopped(before.tasks[t]) else before.tasks[t]
        decreases inflight.Keys
      {
        var id :| id in inflight;
        AbortTask(id);
      }
      assert tasks == AbortAll(before).tasks;
    }

    method AbortTask(id: string)
      modifies this`tasks, this`inflight
      ensures Handlers(tasks, inflight) == Abort(old(Handlers(tasks, inflight)), id)
    {
      if id in inflight {
        var t := inflight[id];
        inflight := inflight - {id};
        if t < |tasks| && tasks[t].progress.Running? {
          tasks := tasks[t := tasks[t].(progress := Aborted)];
        }
      }
    }

    /** One turn of the driver on the next thing read. */
    method DriveRead()
      requires Valid() && stop.None?
      modifies this, transport
      ensures Valid() && history == old(history) + [ReadNext]
    {
      HandleNext();
      Record(ReadNext);
    }

    method HandleNext()
      modifies this`position, this`calls, this`pending, this`tasks, this`inflight, this`inbox, this`lastErrorResultText,
               this`stop, transport
      ensures View() == TakeItem(world, old(View()))
    {
      if position >= |world.stdout| {
        StopDriver(AtEof);
      } else {
        var item := world.stdout[position];
        position := position + 1;
        match item {
          case Read(value) =>
            RouteMessage(value);
          case ReadError(error) =>
            FailOnRead(error);
        }
      }
    }

    method FailOnRead(error: Error)
      modifies this`calls, this`pending, this`inbox, this`stop, transport
      ensures View() == FailRead(world, old(View()), error)
    {
      FailAllPending(ReadFailed(TransportFailed(world, error)));
      inbox := inbox + [Err(Enrich(error, lastErrorResultText))];
      StopDriver(AtError);
    }

    /** Drains the map and fails every sender in it. */
    method FailAllPending(outcome: Outcome)
      modifies this`calls, this`pending
      ensures Clients(calls, pending) == FailAll(old(Clients(calls, pending)), outcome)
    {
      ghost var before := Clients(calls, pending);
      while pending != map[]
        invariant |calls| == |before.calls|
        invariant forall id :: id in pending ==> id in before.pending && pending[id] == before.pending[id]
        invariant forall c :: 0 <= c < |calls| ==>
          calls[c] == if exists id :: id in before.pending && id !in pending && before.pending[id] == c
                      then before.calls[c].(cell := Full(outcome)) else before.calls[c]
        decreases pending.Keys
      {
        var id :| id in pending;
        Settle(id, outcome);
      }
      assert calls == FailAll(before, outcome).calls;
    }

    /** Takes a sender out of the map and uses it. */
    method Settle(id: string, outcome: Outcome)
      modifies this`calls, this`pending
      ensures Clients(calls, pending) == Deliver(old(Clients(calls, pending)), id, outcome)
    {
      if id in pending {
        var c := pending[id];
        pending := pending - {id};
        if c < |calls| {
          calls := calls[c := calls[c].(cell := Full(outcome))];
        }
      }
    }

    method RouteMessage(value: Value)
      modifies this`calls, this`pending, this`tasks, this`inflight, this`inbox, this`lastErrorResultText
      ensures View() == Route(world, old(View()), value)
    {
      match KindOf(value) {
        case "control_response" =>
          RouteControlResponse(value);
        case "control_request" =>
          SpawnControlRequestHandler(value);
        case "control_cancel_request" =>
          var cancelId := GetStr(value, "request_id");
          if cancelId.Some? {
            AbortTask(cancelId.value);
          }
        case "transcript_mirror" =>
        case _ =>
          TrackLastErrorResultText(value);
          inbox := inbox + [Ok(value)];
      }
    }

    method RouteControlResponse(value: Value)
      requires KindOf(value) == "control_response"
      modifies this`calls, this`pending
      ensures Clients(calls, pending)
              == if ResponseTo(value).Some?
                 then Deliver(old(Clients(calls, pending)), ResponseTo(value).value, Answered(ReplyIn(value)))
                 else old(Clients(calls, pending))
    {
      var response := Get(value, "response");
      if response.None? {
        return;
      }
      var requestId := GetStr(response.value, "request_id");
      if requestId.None? {
        return;
      }
      Settle(requestId.value, Answered(ReplyIn(value)));
    }

    method SpawnControlRequestHandler(value: Value)
      modifies this`tasks, this`inflight
      ensures Handlers(tasks, inflight)
              == if RequestIn(world, value).Some?
                 then Spawn(old(Handlers(tasks, inflight)), RequestIn(world, value).value)
                 else old(Handlers(tasks, inflight))
    {
      var requestId := RequestIn(world, value);
      if requestId.None? {
        return;
      }
      inflight := inflight[requestId.value := |tasks|];
      tasks := tasks + [Task(requestId.value, Running)];
    }

    method TrackLastErrorResultText(value: Value)
      modifies this`lastErrorResultText
      ensures lastErrorResultText == Track(old(lastErrorResultText), value)
    {
      if KindOf(value) == "result" {
        if IsTrue(value, "is_error") {
          var errors := ErrorsIn(value);
          lastErrorResultText :=
            Some(if errors == [] then OrElse(GetStr(value, "subtype"), "unknown error") else Join(errors, "; "));
        } else {
          lastErrorResultText := None;
        }
      } else if !(KindOf(value) == "system" && GetStr(value, "subtype") == Some("session_state_changed")) {
        lastErrorResultText := None;
      }
    }
  }
}
