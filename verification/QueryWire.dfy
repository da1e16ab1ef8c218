/** What reaches the process's standard input. */
module QueryWire {
  import opened Wrappers
  import opened Protocol
  import opened QueryState

  // ---------------------------------------------------------------------
  // Reference: the lines that may be written.
  // ---------------------------------------------------------------------

  predicate EndsInput(command: Command) { command.EndInput? || command.Close? }

  /** The lines before the first end of input or close. */
  function OpenLines(commands: seq<Command>): (lines: seq<Line>) {
    if commands == [] || EndsInput(commands[0]) then []
    else [commands[0].line] + OpenLines(commands[1..])
  }

  function BytesOf(w: World, lines: seq<Line>): Bytes {
    if lines == [] then [] else BytesOf(w, lines[..|lines| - 1]) + (w.bytes(lines[|lines| - 1]) + [10])
  }

  predicate HasEnd(commands: seq<Command>) {
    exists k :: 0 <= k < |commands| && EndsInput(commands[k])
  }

  lemma {:induction false} OpenLinesSnoc(commands: seq<Command>, command: Command)
    ensures OpenLines(commands + [command])
            == OpenLines(commands) + (if HasEnd(commands) || EndsInput(command) then [] else [command.line])
  {
    if commands == [] {
      assert OpenLines([command][1..]) == [];
    } else {
      var tail := commands[1..];
      OpenLinesSnoc(tail, command);
      assert (commands + [command])[1..] == tail + [command];
      if !EndsInput(commands[0]) {
        assert HasEnd(commands) <==> HasEnd(tail) by {
          if HasEnd(commands) {
            var k :| 0 <= k < |commands| && EndsInput(commands[k]);
            assert tail[k - 1] == commands[k];
          }
          if HasEnd(tail) { var k :| 0 <= k < |tail| && EndsInput(tail[k]); assert commands[k + 1] == tail[k]; }
        }
      } else {
        assert HasEnd(commands);
      }
    }
  }

  lemma {:induction false} OpenLinesPrefix(a: seq<Command>, b: seq<Command>)
    requires a <= b
    ensures OpenLines(a) <= OpenLines(b)
  {
    if a != [] && !EndsInput(a[0]) { OpenLinesPrefix(a[1..], b[1..]); }
  }

  lemma {:induction false} BytesPrefix(w: World, a: seq<Line>, b: seq<Line>)
    requires a <= b
    ensures BytesOf(w, a) <= BytesOf(w, b)
  {
    if a == b {
    } else {
      assert a <= b[..|b| - 1];
      BytesPrefix(w, a, b[..|b| - 1]);
    }
  }

  lemma BytesSnoc(w: World, lines: seq<Line>, line: Line)
    ensures BytesOf(w, lines + [line]) == BytesOf(w, lines) + Payload(w, line)
  {
    assert (lines + [line])[..|lines|] == lines;
  }

  /** The commands the transport operations carry out. */
  function CommandsOf(log: seq<Attempt>): seq<Command> {
    seq(|log|, k requires 0 <= k < |log| =>
      match log[k]
      case WriteLine(line, _) => Write(line)
      case ShutInput => EndInput
      case ShutAll => Close)
  }

  /** Some write stopped part way. */
  predicate WasCut(log: seq<Attempt>) {
    exists k :: 0 <= k < |log| && log[k].WriteLine? && log[k].fate.Cut?
  }

  // ---------------------------------------------------------------------
  // The invariant.
  // ---------------------------------------------------------------------

  /** The channel is first in, first out, and loses only what the driver leaves. */
  ghost predicate InOrder(o: Outbound, gone: bool) {
    if !gone then o.taken + o.queue == o.sent else o.taken <= o.sent && o.queue == []
  }

  /** The wire holds the open lines dequeued so far, except for what followed
      a write that was cut. */
  ghost predicate Carries(w: World, taken: seq<Command>, p: Pipe) {
    var all := BytesOf(w, OpenLines(taken));
    && p.wire <= all
    && (WasCut(p.log) || p.wire == all)
    && (p.ready && p.open ==> p.wire == all && !HasEnd(taken))
    && (!p.open ==> HasEnd(taken))
  }

  ghost predicate ClosedOnce(o: Outbound, p: Pipe, stop: Option<Stop>) {
    var done := CommandsOf(p.log);
    if stop.None? then done == o.taken && Close !in done && (p.ready || WasCut(p.log))
    else
      && done != [] && done[|done| - 1] == Close && Close !in done[..|done| - 1]
      && o.taken == if stop == Some(AtClose) then done else done[..|done| - 1]
  }

  ghost predicate WireKept(w: World, s: State) {
    && InOrder(s.outbound, s.gone) && (s.gone ==> s.stop.Some?)
    && ClosedOnce(s.outbound, s.pipe, s.stop)
    && (if s.stop.None? then Carries(w, s.outbound.taken, s.pipe)
        else s.pipe.wire <= BytesOf(w, OpenLines(s.outbound.taken))
             && (WasCut(s.pipe.log) || s.pipe.wire == BytesOf(w, OpenLines(s.outbound.taken))))
  }

  lemma CutStays(log: seq<Attempt>, attempt: Attempt)
    ensures WasCut(log) || (attempt.WriteLine? && attempt.fate.Cut?) ==> WasCut(log + [attempt])
    ensures WasCut(log + [attempt]) ==> WasCut(log) || (attempt.WriteLine? && attempt.fate.Cut?)
  {
    var after := log + [attempt];
    assert after[|log|] == attempt;
    if WasCut(log) { var k :| 0 <= k < |log| && log[k].WriteLine? && log[k].fate.Cut?; assert after[k] == log[k]; }
  }

  /** What one more line adds to the bytes that may be written. */
  lemma LineAdds(w: World, taken: seq<Command>, line: Line)
    ensures BytesOf(w, OpenLines(taken + [Write(line)]))
            == BytesOf(w, OpenLines(taken)) + (if HasEnd(taken) then [] else Payload(w, line))
    ensures HasEnd(taken + [Write(line)]) <==> HasEnd(taken)
  {
    OpenLinesSnoc(taken, Write(line));
    BytesSnoc(w, OpenLines(taken), line);
    HasEndSnoc(taken, Write(line));
    assert OpenLines(taken) + [] == OpenLines(taken);
    assert BytesOf(w, OpenLines(taken)) + [] == BytesOf(w, OpenLines(taken));
  }

  lemma WriteKeeps(w: World, taken: seq<Command>, p: Pipe, line: Line, fate: Fate)
    requires Carries(w, taken, p) && (p.ready || WasCut(p.log))
    ensures Carries(w, taken + [Write(line)], WriteTo(w, p, line, fate))
    ensures WriteTo(w, p, line, fate).ready || WasCut(WriteTo(w, p, line, fate).log)
  {
    LineAdds(w, taken, line);
    CutStays(p.log, WriteLine(line, fate));
  }

  lemma HasEndSnoc(taken: seq<Command>, command: Command)
    ensures HasEnd(taken + [command]) <==> HasEnd(taken) || EndsInput(command)
  {
    var after := taken + [command];
    assert after[|taken|] == command;
    if HasEnd(taken) { var k :| 0 <= k < |taken| && EndsInput(taken[k]); assert after[k] == taken[k]; }
  }

  lemma CutSnoc(log: seq<Attempt>, attempt: Attempt)
    requires !attempt.WriteLine?
    ensures WasCut(log + [attempt]) <==> WasCut(log)
  {
    if WasCut(log) {
      var k :| 0 <= k < |log| && log[k].WriteLine? && log[k].fate.Cut?;
      assert (log + [attempt])[k] == log[k];
    }
  }

  /** Ending the input, or everything, adds no line. */
  lemma ShutKeeps(w: World, taken: seq<Command>, p: Pipe, command: Command, attempt: Attempt)
    requires EndsInput(command) && !attempt.WriteLine? && Carries(w, taken, p)
    ensures Carries(w, taken + [command], p.(open := false, log := p.log + [attempt]))
    ensures Carries(w, taken + [command], p.(ready := false, open := false, log := p.log + [attempt]))
  {
    OpenLinesSnoc(taken, command);
    assert OpenLines(taken) + [] == OpenLines(taken);
    HasEndSnoc(taken, command);
    CutSnoc(p.log, attempt);
  }

  lemma CommandsSnoc(log: seq<Attempt>, attempt: Attempt)
    ensures CommandsOf(log + [attempt]) == CommandsOf(log) + CommandsOf([attempt])
  {
  }

  lemma TakeKeeps(w: World, s: State, fate: Fate)
    requires WireKept(w, s) && s.stop.None? && s.outbound.queue != []
    ensures WireKept(w, TakeCommand(w, s, fate))
  {
    var command, t := s.outbound.queue[0], TakeCommand(w, s, fate);
    assert s.outbound.taken + s.outbound.queue == s.outbound.taken + [command] + s.outbound.queue[1..];
    match command
    case Write(line) =>
      WriteKeeps(w, s.outbound.taken, s.pipe, line, fate);
      CommandsSnoc(s.pipe.log, WriteLine(line, fate));
    case EndInput =>
      ShutKeeps(w, s.outbound.taken, s.pipe, EndInput, ShutInput);
      CommandsSnoc(s.pipe.log, ShutInput);
      CutSnoc(s.pipe.log, ShutInput);
    case Close =>
      ShutKeeps(w, s.outbound.taken, s.pipe, Close, ShutAll);
      CommandsSnoc(s.pipe.log, ShutAll);
      assert CommandsOf(t.pipe.log)[..|s.pipe.log|] == CommandsOf(s.pipe.log);
  }

  /** Stopping because of what was read dequeues nothing. */
  lemma HaltKeeps(w: World, s: State, why: Stop)
    requires WireKept(w, s) && s.stop.None? && why != AtClose
    ensures WireKept(w, Halt(s, why))
  {
    CommandsSnoc(s.pipe.log, ShutAll);
    CutSnoc(s.pipe.log, ShutAll);
    assert CommandsOf(Halt(s, why).pipe.log)[..|s.pipe.log|] == CommandsOf(s.pipe.log);
  }

  lemma EnqueueKeeps(w: World, s: State, command: Command)
    requires WireKept(w, s) && !s.gone
    ensures WireKept(w, s.(outbound := Enqueue(s.outbound, command)))
  {
    var o := s.outbound;
    assert o.taken + (o.queue + [command]) == o.taken + o.queue + [command];
  }

  predicate SameWire(s: State, t: State) {
    s.outbound == t.outbound && s.pipe == t.pipe && s.stop == t.stop && s.gone == t.gone
  }

  lemma SameWireKeeps(w: World, s: State, t: State)
    requires WireKept(w, s) && SameWire(s, t)
    ensures WireKept(w, t)
  {
  }

  lemma ReadKeeps(w: World, s: State)
    requires WireKept(w, s) && s.stop.None?
    ensures WireKept(w, TakeItem(w, s))
  {
    var t := TakeItem(w, s);
    if s.position >= |w.stdout| {
      HaltKeeps(w, s, AtEof);
    } else if w.stdout[s.position].ReadError? {
      HaltKeeps(w, s, AtError);
      SameWireKeeps(w, Halt(s, AtError), t);
    } else {
      SameWireKeeps(w, s, t);
    }
  }

  lemma StepKeepsWire(w: World, s: State, e: Event)
    requires WireKept(w, s) && Enabled(s, e)
    ensures WireKept(w, Step(w, s, e))
  {
    var t := Step(w, s, e);
    match e
    case Dequeue(fate) => TakeKeeps(w, s, fate);
    case ReadNext => ReadKeeps(w, s);
    case Return =>
    case Offer(command) => if !s.gone { EnqueueKeeps(w, s, command); }
    case SendRequest(c) =>
      if !s.gone {
        var command := Write(Request(s.clients.calls[c].id, s.clients.calls[c].subtype));
        EnqueueKeeps(w, s, command);
        SameWireKeeps(w, s.(outbound := Enqueue(s.outbound, command)), t);
      } else {
        SameWireKeeps(w, s, t);
      }
    case Finish(i, body) =>
      if !s.gone {
        var command := Write(Response(s.handlers.tasks[i].id, body));
        EnqueueKeeps(w, s, command);
        SameWireKeeps(w, s.(outbound := Enqueue(s.outbound, command)), t);
      } else {
        SameWireKeeps(w, s, t);
      }
    case Issue(_) => SameWireKeeps(w, s, t);
    case RegisterCall(_) => SameWireKeeps(w, s, t);
    case PollCall(_, _) => SameWireKeeps(w, s, t);
    case ForgetCall(_) => SameWireKeeps(w, s, t);
    case Receive => SameWireKeeps(w, s, t);
  }

  lemma {:induction false} RunKeepsWire(w: World, events: seq<Event>)
    ensures WireKept(w, Run(w, events))
  {
    if events != [] {
      var before, e := Run(w, events[..|events| - 1]), events[|events| - 1];
      RunKeepsWire(w, events[..|events| - 1]);
      if Enabled(before, e) { StepKeepsWire(w, before, e); }
    }
  }

  // ---------------------------------------------------------------------
  // Theorems.
  // ---------------------------------------------------------------------

  /** At every moment the process has received a prefix, in order, of the
      lines enqueued before the first end of input or close. */
  lemma WireIsPrefix(w: World, events: seq<Event>)
    ensures Run(w, events).pipe.wire <= BytesOf(w, OpenLines(Run(w, events).outbound.sent))
  {
    var s := Run(w, events);
    RunKeepsWire(w, events);
    var o := s.outbound;
    assert o.taken <= o.sent;
    OpenLinesPrefix(o.taken, o.sent);
    BytesPrefix(w, OpenLines(o.taken), OpenLines(o.sent));
  }

  /** Unless a write was cut short, nothing dequeued is missing; so once the
      queue is drained the process has received all of them. */
  lemma WireIsComplete(w: World, events: seq<Event>)
    requires !WasCut(Run(w, events).pipe.log)
    ensures Run(w, events).pipe.wire == BytesOf(w, OpenLines(Run(w, events).outbound.taken))
    ensures var s := Run(w, events);
            s.stop.None? && s.outbound.queue == [] ==> s.pipe.wire == BytesOf(w, OpenLines(s.outbound.sent))
  {
    RunKeepsWire(w, events);
    var o := Run(w, events).outbound;
    assert o.queue == [] ==> o.taken + o.queue == o.taken;
  }

  /** The transport is closed exactly when the driver has stopped, once, and
      nothing is attempted on it afterwards. */
  lemma NothingAfterClose(w: World, events: seq<Event>)
    ensures var s := Run(w, events);
            s.stop.Some? <==> ShutAll in s.pipe.log
    ensures var log := Run(w, events).pipe.log;
            forall k :: 0 <= k < |log| && log[k] == ShutAll ==> k == |log| - 1
  {
    RunKeepsWire(w, events);
    var s := Run(w, events);
    var log := s.pipe.log;
    var done := CommandsOf(log);
    forall k | 0 <= k < |log| ensures log[k] == ShutAll <==> done[k] == Close { }
    if s.stop.Some? {
      assert log[|log| - 1] == ShutAll;
      forall k | 0 <= k < |log| - 1 ensures done[k] != Close { assert done[..|done| - 1][k] == done[k]; }
    }
  }
}
