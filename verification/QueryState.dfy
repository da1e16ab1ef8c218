/** The control protocol as a state machine: what each step does to the whole
    state. */
module QueryState {
  import opened Wrappers
  import opened Json
  import opened Protocol

  // ---------------------------------------------------------------------
  // Control requests of the session.
  // ---------------------------------------------------------------------

  datatype Outcome =
    | Answered(reply: Reply)
    | ReadFailed(message: string)
    | TimedOut
    | RefusedAtSend
    | Disconnected

  /** The one-shot channel a caller waits on. */
  datatype Cell = Empty | Full(outcome: Outcome)

  /** Where a caller stands. After `Expired` and `Refused` it has yet to take
      its id out of the pending map. */
  datatype Phase = Numbered | Registered | Waiting | Expired | Refused | Done(outcome: Outcome)

  /** `since` and `until` record how many items had been read when the call
      entered the pending map and when it took itself out. */
  datatype Call = Call(id: string, subtype: string, phase: Phase, cell: Cell, since: nat, until: Option<nat>)

  datatype Clients = Clients(calls: seq<Call>, pending: map<string, nat>)

  function NextCall(w: World, n: nat, subtype: string): Call {
    Call(RequestId(n + 1, w.suffix), subtype, Numbered, Empty, 0, None)
  }

  /** The caller puts its sender into the pending map. */
  function Register(cl: Clients, c: nat, now: nat): Clients
    requires c < |cl.calls|
  {
    Clients(cl.calls[c := cl.calls[c].(phase := Registered, since := now)], cl.pending[cl.calls[c].id := c])
  }

  function Move(cl: Clients, c: nat, phase: Phase): Clients
    requires c < |cl.calls|
  {
    cl.(calls := cl.calls[c := cl.calls[c].(phase := phase)])
  }

  predicate SenderAlive(cl: Clients, c: nat)
    requires c < |cl.calls|
  {
    cl.calls[c].id in cl.pending && cl.pending[cl.calls[c].id] == c
  }

  /** A waiting caller looks at its channel first, at the clock second. */
  function Poll(cl: Clients, c: nat, late: bool): Clients
    requires c < |cl.calls|
  {
    var call := cl.calls[c];
    if call.cell.Full? then Move(cl, c, Done(call.cell.outcome))
    else if !SenderAlive(cl, c) then Move(cl, c, Done(Disconnected)).(pending := cl.pending - {call.id})
    else if late then Move(cl, c, Expired)
    else cl
  }

  /** The caller takes its id out of the pending map and returns. */
  function Forget(cl: Clients, c: nat, now: nat): Clients
    requires c < |cl.calls|
  {
    var call := cl.calls[c];
    Clients(
      cl.calls[c := call.(phase := Done(if call.phase.Expired? then TimedOut else RefusedAtSend), until := Some(now))],
      cl.pending - {call.id})
  }

  /** The sender of `id` leaves the pending map and fills its channel. */
  function Deliver(cl: Clients, id: string, outcome: Outcome): Clients {
    if id !in cl.pending then cl
    else
      var c := cl.pending[id];
      Clients(if c < |cl.calls| then cl.calls[c := cl.calls[c].(cell := Full(outcome))] else cl.calls,
              cl.pending - {id})
  }

  /** Every pending sender fills its channel. */
  function FailAll(cl: Clients, outcome: Outcome): Clients {
    Clients(
      seq(|cl.calls|, c requires 0 <= c < |cl.calls| =>
        if exists id :: id in cl.pending && cl.pending[id] == c then cl.calls[c].(cell := Full(outcome))
        else cl.calls[c]),
      map[])
  }

  // ---------------------------------------------------------------------
  // The command channel and the transport.
  // ---------------------------------------------------------------------

  /** `sent` is everything ever enqueued, `taken` everything dequeued. */
  datatype Outbound = Outbound(sent: seq<Command>, taken: seq<Command>, queue: seq<Command>)

  function Enqueue(o: Outbound, command: Command): Outbound {
    o.(sent := o.sent + [command], queue := o.queue + [command])
  }

  /** How a write fares: in full, in full but not flushed, or cut after `n` bytes. */
  datatype Fate = Written | Unflushed | Cut(n: nat)

  datatype Attempt = WriteLine(line: Line, fate: Fate) | ShutInput | ShutAll

  /** `wire` is what reached the process, `log` every operation attempted. */
  datatype Pipe = Pipe(ready: bool, open: bool, wire: Bytes, log: seq<Attempt>)

  const NEWLINE: bv8 := 10

  function Payload(w: World, line: Line): Bytes { w.bytes(line) + [NEWLINE] }

  function Head(bytes: Bytes, n: nat): Bytes { if n < |bytes| then bytes[..n] else bytes }

  function WriteTo(w: World, p: Pipe, line: Line, fate: Fate): Pipe {
    var q := p.(log := p.log + [WriteLine(line, fate)]);
    if !p.ready || !p.open then q
    else match fate
      case Written => q.(wire := p.wire + Payload(w, line))
      case Unflushed => q.(wire := p.wire + Payload(w, line))
      case Cut(n) => q.(wire := p.wire + Head(Payload(w, line), n), ready := false)
  }

  function ShutInputOf(p: Pipe): Pipe { p.(open := false, log := p.log + [ShutInput]) }

  function ShutAllOf(p: Pipe): Pipe { p.(ready := false, open := false, log := p.log + [ShutAll]) }

  // ---------------------------------------------------------------------
  // Handlers of incoming requests.
  // ---------------------------------------------------------------------

  /** `Lost` is a handler that finished when nobody could send its response. */
  datatype Progress = Running | Responded | Lost | Aborted

  datatype Task = Task(id: string, progress: Progress)

  /** A later request with the same id replaces the earlier in the map. */
  datatype Handlers = Handlers(tasks: seq<Task>, inflight: map<string, nat>)

  function Spawn(h: Handlers, id: string): Handlers {
    Handlers(h.tasks + [Task(id, Running)], h.inflight[id := |h.tasks|])
  }

  function Stopped(task: Task): Task {
    if task.progress.Running? then task.(progress := Aborted) else task
  }

  function Abort(h: Handlers, id: string): Handlers {
    if id !in h.inflight then h
    else
      var t := h.inflight[id];
      Handlers(if t < |h.tasks| then h.tasks[t := Stopped(h.tasks[t])] else h.tasks, h.inflight - {id})
  }

  function AbortAll(h: Handlers): Handlers {
    Handlers(
      seq(|h.tasks|, t requires 0 <= t < |h.tasks| =>
        if exists id :: id in h.inflight && h.inflight[id] == t then Stopped(h.tasks[t]) else h.tasks[t]),
      map[])
  }

  // ---------------------------------------------------------------------
  // The consumer.
  // ---------------------------------------------------------------------

  /** `delivered` is what the consumer has received, `inbox` what waits. */
  datatype Consumer = Consumer(delivered: seq<Reply>, inbox: seq<Reply>, remembered: Option<string>)

  function Post(k: Consumer, message: Reply): Consumer { k.(inbox := k.inbox + [message]) }

  /** What to remember after forwarding `v`. */
  function Track(remembered: Option<string>, v: Value): Option<string> {
    if IsErrorResult(v) then Some(ErrorText(v))
    else if IsStateChange(v) then remembered
    else None
  }

  // ---------------------------------------------------------------------
  // The whole state.
  // ---------------------------------------------------------------------

  datatype Stop = AtEof | AtError | AtClose

  datatype State = State(
    clients: Clients,
    outbound: Outbound,
    pipe: Pipe,
    handlers: Handlers,
    consumer: Consumer,
    position: nat,          // items read so far
    stop: Option<Stop>,     // why the driver left its loop
    gone: bool)             // whether it has returned, dropping its end of the channel

  const INIT: State := State(
    Clients([], map[]), Outbound([], [], []), Pipe(true, true, [], []), Handlers([], map[]),
    Consumer([], [], None), 0, None, false)

  datatype Event =
    | Issue(subtype: string)
    | RegisterCall(c: nat)
    | SendRequest(c: nat)
    | PollCall(c: nat, late: bool)
    | ForgetCall(c: nat)
    | Offer(command: Command)
    | Receive
    | Finish(t: nat, body: Result<Value, string>)
    | Dequeue(fate: Fate)
    | ReadNext
    | Return

  /** The driver leaves its loop and closes the transport. Until it returns
      the channel still accepts commands, which nobody will take. */
  function Halt(s: State, why: Stop): State {
    s.(pipe := ShutAllOf(s.pipe), stop := Some(why))
  }

  function TakeCommand(w: World, s: State, fate: Fate): State
    requires s.outbound.queue != []
  {
    var command := s.outbound.queue[0];
    var o := s.outbound.(queue := s.outbound.queue[1..], taken := s.outbound.taken + [command]);
    match command
    case Write(line) => s.(outbound := o, pipe := WriteTo(w, s.pipe, line, fate))
    case EndInput => s.(outbound := o, pipe := ShutInputOf(s.pipe))
    case Close => Halt(s.(outbound := o, handlers := AbortAll(s.handlers)), AtClose)
  }

  function Route(w: World, s: State, v: Value): State {
    if ResponseTo(v).Some? then s.(clients := Deliver(s.clients, ResponseTo(v).value, Answered(ReplyIn(v))))
    else if RequestIn(w, v).Some? then s.(handlers := Spawn(s.handlers, RequestIn(w, v).value))
    else if CancelIn(v).Some? then s.(handlers := Abort(s.handlers, CancelIn(v).value))
    else if IsForwarded(v) then s.(consumer := Post(s.consumer, Ok(v)).(remembered := Track(s.consumer.remembered, v)))
    else s
  }

  function FailRead(w: World, s: State, error: Error): State {
    Halt(s.(clients := FailAll(s.clients, ReadFailed(TransportFailed(w, error))),
            consumer := Post(s.consumer, Err(Enrich(error, s.consumer.remembered)))), AtError)
  }

  function TakeItem(w: World, s: State): State {
    if s.position >= |w.stdout| then Halt(s, AtEof)
    else
      var t := s.(position := s.position + 1);
      match w.stdout[s.position]
      case Read(v) => Route(w, t, v)
      case ReadError(error) => FailRead(w, t, error)
  }

  /** A handler finishes and offers its response, in one step. */
  function FinishTask(s: State, t: nat, body: Result<Value, string>): State
    requires t < |s.handlers.tasks|
  {
    var task := s.handlers.tasks[t];
    if s.gone then s.(handlers := s.handlers.(tasks := s.handlers.tasks[t := task.(progress := Lost)]))
    else s.(handlers := s.handlers.(tasks := s.handlers.tasks[t := task.(progress := Responded)]),
            outbound := Enqueue(s.outbound, Write(Response(task.id, body))))
  }

  function SendCall(s: State, c: nat): State
    requires c < |s.clients.calls|
  {
    var call := s.clients.calls[c];
    if s.gone then s.(clients := Move(s.clients, c, Refused))
    else s.(clients := Move(s.clients, c, Waiting),
            outbound := Enqueue(s.outbound, Write(Request(call.id, call.subtype))))
  }

  predicate Enabled(s: State, e: Event) {
    match e
    case Issue(_) => true
    case RegisterCall(c) => c < |s.clients.calls| && s.clients.calls[c].phase.Numbered?
    case SendRequest(c) => c < |s.clients.calls| && s.clients.calls[c].phase.Registered?
    case PollCall(c, _) => c < |s.clients.calls| && s.clients.calls[c].phase.Waiting?
    case ForgetCall(c) =>
      c < |s.clients.calls| && (s.clients.calls[c].phase.Expired? || s.clients.calls[c].phase.Refused?)
    case Offer(command) => !(command.Write? && !command.line.UserMessage?)
    case Receive => s.consumer.inbox != []
    case Finish(t, _) => t < |s.handlers.tasks| && s.handlers.tasks[t].progress.Running?
    case Dequeue(_) => s.stop.None? && s.outbound.queue != []
    case ReadNext => s.stop.None?
    case Return => s.stop.Some? && !s.gone
  }

  function Step(w: World, s: State, e: Event): State
    requires Enabled(s, e)
  {
    match e
    case Issue(subtype) =>
      s.(clients := s.clients.(calls := s.clients.calls + [NextCall(w, |s.clients.calls|, subtype)]))
    case RegisterCall(c) => s.(clients := Register(s.clients, c, s.position))
    case SendRequest(c) => SendCall(s, c)
    case PollCall(c, late) => s.(clients := Poll(s.clients, c, late))
    case ForgetCall(c) => s.(clients := Forget(s.clients, c, s.position))
    case Offer(command) => if s.gone then s else s.(outbound := Enqueue(s.outbound, command))
    case Receive =>
      s.(consumer := s.consumer.(delivered := s.consumer.delivered + [s.consumer.inbox[0]],
                                 inbox := s.consumer.inbox[1..]))
    case Finish(t, body) => FinishTask(s, t, body)
    case Dequeue(fate) => TakeCommand(w, s, fate)
    case ReadNext => TakeItem(w, s)
    case Return => s.(outbound := s.outbound.(queue := []), gone := true)
  }

  /** An event that is not enabled does not happen. */
  function Next(w: World, s: State, e: Event): State {
    if Enabled(s, e) then Step(w, s, e) else s
  }

  function RunFrom(w: World, s: State, events: seq<Event>): State {
    if events == [] then s else Next(w, RunFrom(w, s, events[..|events| - 1]), events[|events| - 1])
  }

  /** Any interleaving of the callers, the driver, the handlers and the
      consumer is some sequence of events. */
  function Run(w: World, events: seq<Event>): State { RunFrom(w, INIT, events) }
}
