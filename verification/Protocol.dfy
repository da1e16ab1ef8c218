/** What travels between the session and the command-line process, and how
    one incoming value is read. */
module Protocol {
  import opened Wrappers
  import opened Json
  import opened Decimal
  import opened Text

  datatype Error =
    | ControlProtocol(message: string)
    | Process(exitCode: Option<int>, stderr: string)
    | CliConnection(message: string)
    | JsonDecode(line: string)
    | BufferOverflow(limit: nat)
    | MessageParse(message: string)

  type Reply = Result<Value, Error>

  /** A line for the process's standard input. */
  datatype Line =
    | Request(id: string, subtype: string)
    | UserMessage(payload: Value)
    | Response(id: string, body: Result<Value, string>)

  datatype Command = Write(line: Line) | EndInput | Close

  /** What reading standard output yields, before it ends. */
  datatype Item = Read(value: Value) | ReadError(error: Error)

  type Bytes = seq<bv8>

  /** What a session does not decide: the suffix of its request ids, how lines
      and errors are printed, which request bodies are understood, and
      everything the process will print. */
  datatype World = World(
    suffix: string,
    bytes: Line -> Bytes,
    show: Error -> string,
    understands: Value -> bool,
    stdout: seq<Item>)

  // ---------------------------------------------------------------------
  // Request ids.
  // ---------------------------------------------------------------------

  function RequestId(n: nat, suffix: string): string {
    "req_" + Digits(n) + "_" + suffix
  }

  /** The counter never repeats an id. */
  lemma RequestIdInjective(m: nat, n: nat, suffix: string)
    requires RequestId(m, suffix) == RequestId(n, suffix)
    ensures m == n
  {
    var a, b := Digits(m), Digits(n);
    assert RequestId(m, suffix)[4..] == a + "_" + suffix;
    assert RequestId(n, suffix)[4..] == b + "_" + suffix;
    NoUnderscore(a);
    NoUnderscore(b);
    SplitOnceJoined(a, '_', suffix);
    SplitOnceJoined(b, '_', suffix);
    DigitsInjective(m, n);
  }

  lemma NoUnderscore(digits: string)
    requires AllDigits(digits)
    ensures '_' !in digits
  {
    forall k | 0 <= k < |digits| ensures digits[k] != '_' { assert IsDigit(digits[k]); }
  }

  // ---------------------------------------------------------------------
  // Reading one value.
  // ---------------------------------------------------------------------

  function KindOf(v: Value): string {
    match GetStr(v, "type")
    case Some(kind) => kind
    case None => ""
  }

  /** The request a control response answers, if it names one. */
  function ResponseTo(v: Value): Option<string> {
    if KindOf(v) != "control_response" then None
    else match Get(v, "response")
      case None => None
      case Some(response) => GetStr(response, "request_id")
  }

  function OrElse(s: Option<string>, otherwise: string): string {
    if s.Some? then s.value else otherwise
  }

  /** What a control response says. */
  function ReplyIn(v: Value): Reply {
    match Get(v, "response")
    case None => Ok(Obj(map[]))
    case Some(response) =>
      if GetStr(response, "subtype") == Some("error")
      then Err(ControlProtocol(OrElse(GetStr(response, "error"), "unknown error")))
      else match Get(response, "response")
        case Some(payload) => Ok(payload)
        case None => Ok(Obj(map[]))
  }

  /** The id of an incoming control request that can be understood. */
  function RequestIn(w: World, v: Value): Option<string> {
    if KindOf(v) != "control_request" || Get(v, "request").None? || !w.understands(Get(v, "request").value) then None
    else GetStr(v, "request_id")
  }

  /** The incoming control request a value cancels. */
  function CancelIn(v: Value): Option<string> {
    if KindOf(v) != "control_cancel_request" then None else GetStr(v, "request_id")
  }

  /** Control traffic and transcript mirrors never reach the consumer. */
  predicate IsForwarded(v: Value) {
    KindOf(v) !in {"control_response", "control_request", "control_cancel_request", "transcript_mirror"}
  }

  // ---------------------------------------------------------------------
  // Error results.
  // ---------------------------------------------------------------------

  predicate IsErrorResult(v: Value) {
    KindOf(v) == "result" && IsTrue(v, "is_error")
  }

  /** A state change says nothing about how the last turn ended. */
  predicate IsStateChange(v: Value) {
    KindOf(v) == "system" && GetStr(v, "subtype") == Some("session_state_changed")
  }

  function Strings(items: seq<Value>): seq<string> {
    if items == [] then []
    else (if items[0].Str? then [items[0].s] else []) + Strings(items[1..])
  }

  function Join(parts: seq<string>, separator: string): string {
    if parts == [] then ""
    else if |parts| == 1 then parts[0]
    else parts[0] + separator + Join(parts[1..], separator)
  }

  function ErrorsIn(v: Value): seq<string> {
    match Get(v, "errors")
    case Some(Arr(items)) => Strings(items)
    case _ => []
  }

  function ErrorText(v: Value): string {
    if ErrorsIn(v) == [] then OrElse(GetStr(v, "subtype"), "unknown error") else Join(ErrorsIn(v), "; ")
  }

  /** Only a process exit is rewritten, and only when a text is remembered. */
  function Enrich(error: Error, remembered: Option<string>): Error {
    if error.Process? && remembered.Some?
    then Process(error.exitCode, "Claude Code returned an error result: " + remembered.value)
    else error
  }

  function TransportFailed(w: World, error: Error): string {
    "transport failed while awaiting response: " + w.show(error)
  }

  // ---------------------------------------------------------------------
  // Reference: what a value says, field by field.
  // ---------------------------------------------------------------------

  /** `v` is the response to request `id`, with body `o`. */
  ghost predicate Answers(v: Value, o: Value, id: string) {
    && Get(v, "type") == Some(Str("control_response"))
    && Get(v, "response") == Some(o) && Get(o, "request_id") == Some(Str(id))
  }

  /** A response body reports an error under its text, and otherwise the value
      it carries, which may be missing. */
  ghost predicate Reports(o: Value, r: Reply) {
    if Get(o, "subtype") == Some(Str("error")) then
      && r.Err? && r.error.ControlProtocol?
      && if exists text :: Get(o, "error") == Some(Str(text)) then Get(o, "error") == Some(Str(r.error.message))
         else r.error.message == "unknown error"
    else
      r.Ok? && if Get(o, "response").Some? then Get(o, "response") == Some(r.value) else r.value == Obj(map[])
  }

  /** `v` is a request `id` of the process that can be understood. */
  ghost predicate Asks(w: World, v: Value, id: string) {
    && Get(v, "type") == Some(Str("control_request")) && Get(v, "request_id") == Some(Str(id))
    && exists body :: Get(v, "request") == Some(body) && w.understands(body)
  }

  ghost predicate Cancels(v: Value, id: string) {
    Get(v, "type") == Some(Str("control_cancel_request")) && Get(v, "request_id") == Some(Str(id))
  }

  /** Control traffic, or a mirrored transcript. */
  ghost predicate IsTraffic(v: Value) {
    exists kind :: Get(v, "type") == Some(Str(kind))
                   && kind in {"control_response", "control_request", "control_cancel_request", "transcript_mirror"}
  }

  /** A result that is an error. */
  ghost predicate IsFailure(v: Value) {
    Get(v, "type") == Some(Str("result")) && Get(v, "is_error") == Some(Bool(true))
  }

  ghost predicate TellsState(v: Value) {
    Get(v, "type") == Some(Str("system")) && Get(v, "subtype") == Some(Str("session_state_changed"))
  }

  /** The texts among `items`, one after the other, each after a semicolon. */
  ghost function Listed(items: seq<Value>): Option<string> {
    if items == [] then None
    else
      var before := Listed(items[..|items| - 1]);
      match items[|items| - 1]
      case Str(text) => Some(if before.Some? then before.value + "; " + text else text)
      case _ => before
  }

  /** The errors a result lists, else its subtype. */
  ghost predicate TellsError(v: Value, text: string) {
    if exists items :: Get(v, "errors") == Some(Arr(items)) && Listed(items).Some?
    then exists items :: Get(v, "errors") == Some(Arr(items)) && Listed(items) == Some(text)
    else if exists subtype :: Get(v, "subtype") == Some(Str(subtype)) then Get(v, "subtype") == Some(Str(text))
    else text == "unknown error"
  }

  lemma ResponseRead(v: Value, id: string)
    ensures ResponseTo(v) == Some(id) <==> exists o :: Answers(v, o, id)
    ensures forall o :: Answers(v, o, id) ==> Reports(o, ReplyIn(v))
  {
    if ResponseTo(v) == Some(id) { assert Answers(v, Get(v, "response").value, id); }
  }

  lemma RequestRead(w: World, v: Value, id: string)
    ensures RequestIn(w, v) == Some(id) <==> Asks(w, v, id)
    ensures CancelIn(v) == Some(id) <==> Cancels(v, id)
  {
  }

  lemma TrafficRead(v: Value)
    ensures IsForwarded(v) <==> !IsTraffic(v)
  {
  }

  lemma FailureRead(v: Value)
    ensures IsErrorResult(v) <==> IsFailure(v)
    ensures IsStateChange(v) <==> TellsState(v)
  {
  }

  lemma {:induction false} JoinSnoc(parts: seq<string>, part: string, separator: string)
    ensures Join(parts + [part], separator)
            == if parts == [] then part else Join(parts, separator) + separator + part
  {
    if |parts| > 1 {
      JoinSnoc(parts[1..], part, separator);
      assert (parts + [part])[1..] == parts[1..] + [part];
    } else if |parts| == 1 {
      assert (parts + [part])[1..] == [part];
    }
  }

  lemma {:induction false} StringsSnoc(items: seq<Value>, item: Value)
    ensures Strings(items + [item]) == Strings(items) + if item.Str? then [item.s] else []
  {
    if items == [] {
      assert Strings([item][1..]) == [];
    } else {
      StringsSnoc(items[1..], item);
      assert (items + [item])[1..] == items[1..] + [item];
    }
  }

  lemma {:induction false} ListedIsJoin(items: seq<Value>)
    ensures Listed(items) == if Strings(items) == [] then None else Some(Join(Strings(items), "; "))
  {
    if items != [] {
      var init, last := items[..|items| - 1], items[|items| - 1];
      ListedIsJoin(init);
      assert items == init + [last];
      StringsSnoc(init, last);
      if last.Str? { ListedNext(Listed(init), Strings(init), last.s); } else { assert Strings(items) == Strings(init); }
    }
  }

  lemma ListedNext(before: Option<string>, parts: seq<string>, text: string)
    requires before == if parts == [] then None else Some(Join(parts, "; "))
    ensures Join(parts + [text], "; ") == if before.Some? then before.value + "; " + text else text
  {
    JoinSnoc(parts, text, "; ");
  }

  lemma ErrorRead(v: Value, text: string)
    ensures TellsError(v, text) <==> text == ErrorText(v)
  {
    if items :| Get(v, "errors") == Some(Arr(items)) { ListedIsJoin(items); }
  }
}
