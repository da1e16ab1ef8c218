/** Splitting the message stream into responses. */
module Client {
  import opened Wrappers
  import opened Json
  import opened Protocol

  /** What the message parser makes of a value; unknown kinds are skipped. */
  datatype Parsed = Skipped | Recognized(isResult: bool) | Malformed(error: Error)

  type Parser = Value -> Parsed

  datatype Received = Message(value: Value, isResult: bool) | Failed(error: Error)

  /** A result ends a response, and so does an error. */
  predicate Ends(r: Received) { r.Failed? || r.isResult }

  function Read(parse: Parser, m: Reply): Option<Received> {
    match m
    case Err(error) => Some(Failed(error))
    case Ok(value) =>
      match parse(value)
      case Skipped => None
      case Recognized(isResult) => Some(Message(value, isResult))
      case Malformed(error) => Some(Failed(error))
  }

  /** The parsed stream of a queue of messages. */
  function ReadAll(parse: Parser, ms: seq<Reply>): seq<Received> {
    if ms == [] then []
    else (if Read(parse, ms[0]).Some? then [Read(parse, ms[0]).value] else []) + ReadAll(parse, ms[1..])
  }

  /** The channel to the consumer: `items` is all it will still yield. */
  class MessageQueue {
    var items: seq<Reply>

    constructor (all: seq<Reply>)
      ensures items == all
    {
      items := all;
    }

    method NextMessage() returns (m: Option<Reply>)
      modifies this
      ensures m == if old(items) == [] then None else Some(old(items)[0])
      ensures items == if old(items) == [] then [] else old(items)[1..]
    {
      if items == [] {
        return None;
      }
      m := Some(items[0]);
      items := items[1..];
    }
  }

  /** The parser skips the message. */
  ghost predicate IsSkipped(parse: Parser, m: Reply) { m.Ok? && parse(m.value) == Skipped }

  /** An error is received as it is, a value as what the parser makes of it. */
  ghost predicate Receives(parse: Parser, m: Reply, r: Received) {
    if m.Err? then r == Failed(m.error)
    else if parse(m.value).Malformed? then r == Failed(parse(m.value).error)
    else parse(m.value).Recognized? && r == Message(m.value, parse(m.value).isResult)
  }

  /** Yields the first message that is not skipped and leaves what follows it. */
  method NextReceived(parse: Parser, queue: MessageQueue) returns (r: Option<Received>)
    modifies queue
    ensures r.None? ==> forall k :: 0 <= k < |old(queue.items)| ==> IsSkipped(parse, old(queue.items)[k])
    ensures r.Some? ==> exists k ::
      && 0 <= k < |old(queue.items)| && Receives(parse, old(queue.items)[k], r.value)
      && (forall j :: 0 <= j < k ==> IsSkipped(parse, old(queue.items)[j]))
      && queue.items == old(queue.items)[k + 1..]
    ensures ReadAll(parse, old(queue.items)) == (if r.Some? then [r.value] else []) + ReadAll(parse, queue.items)
    ensures if r.Some? then |queue.items| < |old(queue.items)| else queue.items == []
  {
    ghost var all, k := queue.items, 0;
    while true
      invariant ReadAll(parse, queue.items) == ReadAll(parse, all)
      invariant 0 <= k <= |all| && queue.items == all[k..]
      invariant forall j :: 0 <= j < k ==> IsSkipped(parse, all[j])
      decreases |queue.items|
    {
      var m := queue.NextMessage();
      assert m.Some? ==> m.value == all[k] && queue.items == all[k + 1..];
      match m {
        case None => return None;
        case Some(Err(error)) => return Some(Failed(error));
        case Some(Ok(value)) =>
          match parse(value) {
            case Recognized(isResult) => return Some(Message(value, isResult));
            case Skipped => k := k + 1;
            case Malformed(error) => return Some(Failed(error));
          }
      }
    }
  }

  /** The stream of one response. */
  class ResponseStream {
    const parse: Parser
    const queue: MessageQueue
    var done: bool

    constructor (p: Parser, q: MessageQueue)
      ensures parse == p && queue == q && !done
    {
      parse, queue, done := p, q, false;
    }

    method Next() returns (r: Option<Received>)
      modifies this, queue
      ensures old(done) ==> r.None? && queue.items == old(queue.items)
      ensures ReadAll(parse, old(queue.items)) == (if r.Some? then [r.value] else []) + ReadAll(parse, queue.items)
      ensures !old(done) ==> if r.Some? then |queue.items| < |old(queue.items)| else queue.items == []
      ensures done == if r.Some? then r.value.Failed? || r.value.isResult else old(done)
    {
      if done {
        return None;
      }
      r := NextReceived(parse, queue);
      if r.Some? {
        done := Ends(r.value);
      }
    }
  }

  predicate HasEnd(rs: seq<Received>) {
    exists k :: 0 <= k < |rs| && (rs[k].Failed? || rs[k].isResult)
  }

  /** It ends with its only result or its only error. */
  predicate IsResponse(rs: seq<Received>) {
    rs != [] && HasEnd([rs[|rs| - 1]]) && !HasEnd(rs[..|rs| - 1])
  }

  /** Drains one response. */
  method ReceiveResponse(parse: Parser, queue: MessageQueue) returns (rs: seq<Received>)
    modifies queue
    ensures ReadAll(parse, old(queue.items)) == rs + ReadAll(parse, queue.items)
    ensures IsResponse(rs) || (!HasEnd(rs) && queue.items == [])
    ensures |queue.items| <= |old(queue.items)|
  {
    var stream := new ResponseStream(parse, queue);
    rs := [];
    var next := stream.Next();
    while next.Some?
      invariant stream.queue == queue && stream.parse == parse && fresh(stream)
      invariant ReadAll(parse, old(queue.items))
             == rs + (if next.Some? then [next.value] else []) + ReadAll(parse, queue.items)
      invariant |queue.items| <= |old(queue.items)|
      invariant if next.Some? then !HasEnd(rs) && (stream.done <==> Ends(next.value))
                else IsResponse(rs) || (!HasEnd(rs) && queue.items == [])
      decreases next.Some? && !stream.done, |queue.items|, next.Some?
    {
      ghost var before := rs;
      rs := rs + [next.value];
      assert rs[..|rs| - 1] == before;
      next := stream.Next();
    }
  }

  function Concat(parts: seq<seq<Received>>): seq<Received> {
    if parts == [] then [] else parts[0] + Concat(parts[1..])
  }

  lemma {:induction false} ConcatSnoc(parts: seq<seq<Received>>, part: seq<Received>)
    ensures Concat(parts + [part]) == Concat(parts) + part
  {
    if parts == [] {
      assert Concat([part][1..]) == [];
    } else {
      ConcatSnoc(parts[1..], part);
      assert (parts + [part])[1..] == parts[1..] + [part];
    }
  }

  /** Every drain is a whole response; once the stream is exhausted one drain
      may stop short, and those after it are empty. */
  ghost predicate WholeUntilExhausted(drains: seq<seq<Received>>, exhausted: bool) {
    && (forall i :: 0 <= i < |drains| ==> IsResponse(drains[i]) || (exhausted && !HasEnd(drains[i])))
    && (forall i, j :: 0 <= i < j < |drains| && !IsResponse(drains[i]) ==> drains[j] == [])
  }

  lemma OneMoreDrain(drains: seq<seq<Received>>, rs: seq<Received>, before: bool, after: bool)
    requires WholeUntilExhausted(drains, before) && (before ==> after && rs == [])
    requires IsResponse(rs) || (!HasEnd(rs) && after)
    ensures WholeUntilExhausted(drains + [rs], after)
  {
  }

  /** Draining again and again loses, duplicates and reorders nothing; every
      drain is a whole response until the stream is exhausted. */
  method ReceiveResponses(parse: Parser, queue: MessageQueue, n: nat) returns (drains: seq<seq<Received>>)
    modifies queue
    ensures |drains| == n
    ensures ReadAll(parse, old(queue.items)) == Concat(drains) + ReadAll(parse, queue.items)
    ensures WholeUntilExhausted(drains, queue.items == [])
  {
    drains := [];
    while |drains| < n
      invariant |drains| <= n
      invariant ReadAll(parse, old(queue.items)) == Concat(drains) + ReadAll(parse, queue.items)
      invariant WholeUntilExhausted(drains, queue.items == [])
    {
      ghost var exhausted := queue.items == [];
      var rs := ReceiveResponse(parse, queue);
      ConcatSnoc(drains, rs);
      Associate(Concat(drains), rs, ReadAll(parse, queue.items));
      OneMoreDrain(drains, rs, exhausted, queue.items == []);
      drains := drains + [rs];
    }
  }

  // ---------------------------------------------------------------------
  // The split is determined by the stream alone.
  // ---------------------------------------------------------------------

  function FirstEnd(rs: seq<Received>): (k: nat)
    ensures k <= |rs| && !HasEnd(rs[..k])
    ensures k < |rs| ==> Ends(rs[k])
  {
    if rs == [] || Ends(rs[0]) then 0
    else
      var k := FirstEnd(rs[1..]) + 1;
      assert forall j :: 1 <= j < k ==> rs[j] == rs[1..][..k - 1][j - 1];
      k
  }

  /** The stream cut after every result and every error. */
  function Cut(rs: seq<Received>): seq<seq<Received>>
    decreases |rs|
  {
    if rs == [] then []
    else var k := FirstEnd(rs);
      if k == |rs| then [rs] else [rs[..k + 1]] + Cut(rs[k + 1..])
  }

  /** Drains that are whole responses can only be the first pieces of that cut. */
  lemma {:induction false} DrainsAreTheCut(drains: seq<seq<Received>>, rest: seq<Received>)
    requires forall i :: 0 <= i < |drains| ==> IsResponse(drains[i])
    ensures Cut(Concat(drains) + rest) == drains + Cut(rest)
  {
    if drains == [] {
      assert Concat(drains) + rest == rest;
    } else {
      DrainsAreTheCut(drains[1..], rest);
      OneDrainMore(drains[0], Concat(drains[1..]), rest);
      Associate([drains[0]], drains[1..], Cut(rest));
      assert drains == [drains[0]] + drains[1..];
    }
  }

  lemma OneDrainMore(first: seq<Received>, others: seq<Received>, rest: seq<Received>)
    requires IsResponse(first)
    ensures Cut(first + others + rest) == [first] + Cut(others + rest)
  {
    Associate(first, others, rest);
    CutFirst(first, others + rest);
  }

  lemma Associate<T>(a: seq<T>, b: seq<T>, c: seq<T>)
    ensures a + b + c == a + (b + c)
  {
  }

  /** A drain that stops short is the last piece. */
  lemma PartialIsLast(rs: seq<Received>)
    requires !HasEnd(rs)
    ensures Cut(rs) == if rs == [] then [] else [rs]
  {
    assert FirstEnd(rs) == |rs|;
  }

  /** All drains of an exhausted stream are its cut: nothing is left over. */
  lemma AllDrainsAreTheCut(all: seq<Received>, drains: seq<seq<Received>>, last: seq<Received>)
    requires forall i :: 0 <= i < |drains| ==> IsResponse(drains[i])
    requires !HasEnd(last) && Concat(drains) + last == all
    ensures Cut(all) == drains + (if last == [] then [] else [last])
  {
    DrainsAreTheCut(drains, last);
    PartialIsLast(last);
  }

  lemma {:induction false} FirstEndAfter(init: seq<Received>, end: Received, rest: seq<Received>)
    requires !HasEnd(init) && Ends(end)
    ensures FirstEnd(init + [end] + rest) == |init|
  {
    if init != [] {
      assert !Ends(init[0]) && !HasEnd(init[1..]);
      FirstEndAfter(init[1..], end, rest);
      assert (init + [end] + rest)[1..] == init[1..] + [end] + rest;
    }
  }

  lemma CutFirst(first: seq<Received>, rest: seq<Received>)
    requires IsResponse(first)
    ensures Cut(first + rest) == [first] + Cut(rest)
  {
    var init := first[..|first| - 1];
    FirstEndAfter(init, first[|first| - 1], rest);
    assert init + [first[|first| - 1]] + rest == first + rest;
    assert (first + rest)[..|first|] == first && (first + rest)[|first|..] == rest;
  }
}
