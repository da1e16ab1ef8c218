/** Cutting the process's standard output into values: one JSON object a line. */
module Framing {
  import opened Wrappers
  import opened Json
  import opened Text
  import opened Protocol

  const LF: bv8 := 10
  const CR: bv8 := 13

  /** How the output ends after its last byte. */
  datatype Ending = Clean | Broken(text: string)

  /** How the process ended, when there is one to ask and it can be asked. */
  datatype ExitStatus = ExitStatus(success: bool, code: Option<int>)

  /** The output and how its texts are read. */
  datatype Source = Source(
    utf8: Bytes -> Option<string>,
    json: string -> Option<Value>,
    maxBuffer: nat,
    ending: Ending,
    exit: Option<ExitStatus>)

  // ---------------------------------------------------------------------
  // Reference: lines, and what each one yields.
  // ---------------------------------------------------------------------

  /** The bytes up to and including the first line feed, or all of them. */
  function FirstLine(data: Bytes): (line: Bytes)
    ensures line <= data && (data != [] ==> line != [])
    ensures line != data ==> line[|line| - 1] == LF
    ensures forall k :: 0 <= k < |line| - 1 ==> line[k] != LF
  {
    if data == [] then []
    else if data[0] == LF then [LF]
    else [data[0]] + FirstLine(data[1..])
  }

  /** Line feeds and carriage returns at the end do not count. */
  function Chomp(line: Bytes): (r: Bytes)
    ensures r <= line
  {
    if line != [] && (line[|line| - 1] == LF || line[|line| - 1] == CR) then Chomp(line[..|line| - 1]) else line
  }

  /** The text of a line, unless it is too long or not UTF-8. */
  function LineText(src: Source, line: Bytes): Result<string, Error> {
    if |line| > src.maxBuffer then Err(BufferOverflow(src.maxBuffer))
    else match src.utf8(Chomp(line))
      case Some(text) => Ok(text)
      case None => Err(CliConnection("process stdout was not valid UTF-8"))
  }

  /** Reading fails before the line is complete. */
  predicate Breaks(src: Source, data: Bytes) {
    src.ending.Broken? && FirstLine(data) == data && (data == [] || data[|data| - 1] != LF)
  }

  function ReadFailure(src: Source): Error
    requires src.ending.Broken?
  {
    CliConnection("failed to read from process stdout: " + src.ending.text)
  }

  /** The next line as text; nothing at the clean end. */
  function NextLine(src: Source, data: Bytes): Result<Option<string>, Error> {
    if Breaks(src, data) then Err(ReadFailure(src))
    else if data == [] then Ok(None)
    else match LineText(src, FirstLine(data))
      case Ok(text) => Ok(Some(text))
      case Err(error) => Err(error)
  }

  /** Lines that are blank or do not open an object carry no message. */
  function ItemIn(src: Source, text: string): Option<Item> {
    var trimmed := Trim(text);
    if trimmed == "" || trimmed[0] != '{' then None
    else match src.json(trimmed)
      case Some(value) => Some(Item.Read(value))
      case None => Some(ReadError(JsonDecode(trimmed)))
  }

  function ExitItems(src: Source): seq<Item> {
    if src.exit.None? || src.exit.value.success then []
    else [ReadError(Process(src.exit.value.code, "process exited with a non-zero status"))]
  }

  /** What reading the rest of the output yields. An error ends it. */
  function ItemsOf(src: Source, data: Bytes): seq<Item>
    decreases |data|
  {
    match NextLine(src, data)
    case Err(error) => [ReadError(error)]
    case Ok(None) => ExitItems(src)
    case Ok(Some(text)) => Followed(ItemIn(src, text), ItemsOf(src, data[|FirstLine(data)|..]))
  }

  /** A line's item before what the later lines yield, which an error hides. */
  function Followed(item: Option<Item>, later: seq<Item>): seq<Item> {
    if item.None? then later
    else if item.value.Read? then [item.value] + later
    else [item.value]
  }

  // ---------------------------------------------------------------------
  // The reader.
  // ---------------------------------------------------------------------

  class ReadState {
    const src: Source
    var rest: Bytes
    var buffer: Bytes
    var done: bool

    constructor (s: Source, data: Bytes)
      ensures src == s && Remaining() == ItemsOf(s, data)
    {
      src, rest, buffer, done := s, data, [], false;
    }

    /** What the stream will still yield. */
    ghost function Remaining(): seq<Item>
      reads this
    {
      if done then [] else ItemsOf(src, rest)
    }

    method ReadOneLine() returns (r: Result<Option<string>, Error>)
      modifies this`rest, this`buffer
      ensures r == NextLine(src, old(rest))
      ensures r.Ok? ==> rest == old(rest)[|FirstLine(old(rest))|..]
      ensures |rest| <= |old(rest)|
    {
      buffer := [];
      if Breaks(src, rest) {
        return Err(ReadFailure(src));
      }
      var line := FirstLine(rest);
      buffer, rest := line, rest[|line|..];
      if |buffer| == 0 {
        return Ok(None);
      }
      if |buffer| > src.maxBuffer {
        return Err(BufferOverflow(src.maxBuffer));
      }
      ChompBuffer();
      match src.utf8(buffer) {
        case Some(text) => return Ok(Some(text));
        case None => return Err(CliConnection("process stdout was not valid UTF-8"));
      }
    }

    method ChompBuffer()
      modifies this`buffer
      ensures buffer == Chomp(old(buffer))
    {
      while buffer != [] && (buffer[|buffer| - 1] == LF || buffer[|buffer| - 1] == CR)
        invariant Chomp(buffer) == Chomp(old(buffer))
        decreases |buffer|
      {
        buffer := buffer[..|buffer| - 1];
      }
    }

    method ReadNextMessage() returns (r: Option<Item>)
      modifies this
      ensures old(Remaining()) == (if r.Some? then [r.value] else []) + Remaining()
      ensures r.None? ==> Remaining() == []
      ensures |rest| <= |old(rest)|
    {
      while true
        invariant Remaining() == old(Remaining()) && |rest| <= |old(rest)|
        decreases !done, |rest|
      {
        if done {
          return None;
        }
        ghost var data := rest;
        var line := ReadOneLine();
        match line {
          case Ok(Some(text)) =>
            var item := ItemIn(src, text);
            if item.Some? {
              if item.value.ReadError? {
                done := true;
              }
              return item;
            }
          case Ok(None) =>
            done := true;
            if src.exit.None? || src.exit.value.success {
              return None;
            }
            return Some(ReadError(Process(src.exit.value.code, "process exited with a non-zero status")));
          case Err(error) =>
            done := true;
            return Some(ReadError(error));
        }
      }
    }
  }

  // ---------------------------------------------------------------------
  // Theorems.
  // ---------------------------------------------------------------------

  predicate ErrorOnlyLast(items: seq<Item>) {
    forall k :: 0 <= k < |items| - 1 ==> items[k].Read?
  }

  /** There is at most one error, and nothing follows it. */
  lemma {:induction false} OnlyLastIsError(src: Source, data: Bytes)
    ensures ErrorOnlyLast(ItemsOf(src, data))
    decreases |data|
  {
    match NextLine(src, data)
    case Ok(Some(_)) => OnlyLastIsError(src, data[|FirstLine(data)|..]);
    case _ =>
  }

  /** Lines written one after another, each with its line feed. */
  function Framed(lines: seq<Bytes>): Bytes {
    if lines == [] then [] else lines[0] + [LF] + Framed(lines[1..])
  }

  lemma {:induction false} FirstLineOfFramed(line: Bytes, rest: Bytes)
    requires LF !in line
    ensures FirstLine(line + [LF] + rest) == line + [LF]
  {
    if line != [] {
      FirstLineOfFramed(line[1..], rest);
      assert (line + [LF] + rest)[1..] == line[1..] + [LF] + rest;
    } else {
      assert line + [LF] + rest == [LF] + rest;
    }
  }

  /** What a well-formed line yields: a value, or nothing for a diagnostic. */
  function ValueIn(src: Source, line: Bytes): Option<Value> {
    match src.utf8(Chomp(line))
    case None => None
    case Some(text) =>
      match ItemIn(src, text)
      case Some(Read(value)) => Some(value)
      case _ => None
  }

  /** A line without a feed inside, within the limit, readable, and JSON if it
      opens an object. */
  ghost predicate WellFormed(src: Source, line: Bytes) {
    && LF !in line && |line| < src.maxBuffer
    && src.utf8(Chomp(line)).Some?
    && !(ItemIn(src, src.utf8(Chomp(line)).value).Some? && ItemIn(src, src.utf8(Chomp(line)).value).value.ReadError?)
  }

  function ValuesIn(src: Source, lines: seq<Bytes>): seq<Item> {
    if lines == [] then []
    else
      var v := ValueIn(src, lines[0]);
      (if v.Some? then [Item.Read(v.value)] else []) + ValuesIn(src, lines[1..])
  }

  lemma ChompFeed(line: Bytes)
    ensures Chomp(line + [LF]) == Chomp(line)
  {
    assert (line + [LF])[..|line|] == line;
  }

  lemma FirstOfFramed(src: Source, line: Bytes, rest: Bytes)
    requires WellFormed(src, line) && src.ending.Clean?
    ensures ItemsOf(src, line + [LF] + rest)
            == (if ValueIn(src, line).Some? then [Item.Read(ValueIn(src, line).value)] else []) + ItemsOf(src, rest)
  {
    var data := line + [LF] + rest;
    FirstLineOfFramed(line, rest);
    ChompFeed(line);
    assert data[|line + [LF]|..] == rest;
    assert NextLine(src, data) == Ok(Some(src.utf8(Chomp(line)).value));
    assert [] + ItemsOf(src, rest) == ItemsOf(src, rest);
  }

  // ---------------------------------------------------------------------
  // What a line yields, in terms of the two decoders alone.
  // ---------------------------------------------------------------------

  /** A line feed, with any number of carriage returns in front. */
  ghost predicate IsFeed(feed: Bytes) {
    feed != [] && feed[|feed| - 1] == 10 && forall k :: 0 <= k < |feed| - 1 ==> feed[k] == 13
  }

  /** The bytes of a line in front of its feed. */
  ghost predicate IsBody(body: Bytes) {
    10 !in body && (body != [] ==> body[|body| - 1] != 13)
  }

  /** The text of a line yields what parsing makes of an object, an error when
      it opens an object that does not parse, and nothing otherwise. */
  ghost predicate TextYields(src: Source, text: string, item: Option<Item>) {
    exists core :: Wraps(text, core)
      && if core == "" || core[0] != '{' then item.None?
         else if src.json(core).Some? then item == Some(Item.Read(src.json(core).value))
         else item == Some(ReadError(JsonDecode(core)))
  }

  /** A line yields what its text yields, or an error when it is too long or
      not a text. */
  ghost predicate LineYields(src: Source, body: Bytes, length: nat, item: Option<Item>) {
    if length > src.maxBuffer then item == Some(ReadError(BufferOverflow(src.maxBuffer)))
    else if src.utf8(body).None? then
      item == Some(ReadError(CliConnection("process stdout was not valid UTF-8")))
    else TextYields(src, src.utf8(body).value, item)
  }

  lemma TextItem(src: Source, text: string, item: Option<Item>)
    ensures TextYields(src, text, item) <==> item == ItemIn(src, text)
  {
    forall core ensures Wraps(text, core) <==> core == Trim(text) { TrimExactly(text, core); }
    assert Wraps(text, Trim(text));
  }

  lemma {:induction false} ChompBody(body: Bytes, feed: Bytes)
    requires IsBody(body) && forall k :: 0 <= k < |feed| ==> feed[k] == 13 || feed[k] == 10
    ensures Chomp(body + feed) == body
  {
    if feed == [] {
      assert body + feed == body;
    } else {
      ChompBody(body, feed[..|feed| - 1]);
      assert (body + feed)[..|body + feed| - 1] == body + feed[..|feed| - 1];
    }
  }

  lemma FedLine(body: Bytes, feed: Bytes, rest: Bytes)
    requires IsBody(body) && IsFeed(feed)
    ensures FirstLine(body + feed + rest) == body + feed
  {
    var line := body + feed[..|feed| - 1];
    FirstLineOfFramed(line, rest);
    assert body + feed == line + [LF];
  }

  /** A line with its feed, before whatever follows it. */
  lemma LineRead(src: Source, body: Bytes, feed: Bytes, rest: Bytes, item: Option<Item>)
    requires IsBody(body) && IsFeed(feed) && LineYields(src, body, |body + feed|, item)
    ensures ItemsOf(src, body + feed + rest) == Followed(item, ItemsOf(src, rest))
  {
    var data := body + feed + rest;
    FedLine(body, feed, rest);
    assert data[|body + feed|..] == rest;
    WholeLineFollows(src, data, body + feed, rest);
    LineItem(src, body, feed, rest, item);
  }

  lemma LineItem(src: Source, body: Bytes, feed: Bytes, rest: Bytes, item: Option<Item>)
    requires IsBody(body) && forall k :: 0 <= k < |feed| ==> feed[k] == 13 || feed[k] == 10
    requires LineYields(src, body, |body + feed|, item)
    ensures (match LineText(src, body + feed)
             case Err(error) => [ReadError(error)]
             case Ok(text) => Followed(ItemIn(src, text), ItemsOf(src, rest)))
            == Followed(item, ItemsOf(src, rest))
  {
    LineTextRead(src, body, feed);
    if |body + feed| <= src.maxBuffer && src.utf8(body).Some? { TextItem(src, src.utf8(body).value, item); }
  }

  lemma LineTextRead(src: Source, body: Bytes, feed: Bytes)
    requires IsBody(body) && forall k :: 0 <= k < |feed| ==> feed[k] == 13 || feed[k] == 10
    ensures LineText(src, body + feed)
            == if |body + feed| > src.maxBuffer then Err(BufferOverflow(src.maxBuffer))
               else if src.utf8(body).Some? then Ok(src.utf8(body).value)
               else Err(CliConnection("process stdout was not valid UTF-8"))
  {
    ChompBody(body, feed);
  }

  /** A line that ends in a feed, or at a clean end, is not broken off. */
  lemma WholeLineFollows(src: Source, data: Bytes, line: Bytes, rest: Bytes)
    requires line != [] && FirstLine(data) == line && data[|line|..] == rest
    requires line[|line| - 1] == LF || src.ending.Clean?
    ensures ItemsOf(src, data)
            == match LineText(src, line)
               case Err(error) => [ReadError(error)]
               case Ok(text) => Followed(ItemIn(src, text), ItemsOf(src, rest))
  {
    assert line == data ==> data[|data| - 1] == line[|line| - 1];
  }

  /** An unfinished last line is read like any other at a clean end. */
  lemma LastLineRead(src: Source, body: Bytes, item: Option<Item>)
    requires IsBody(body) && body != [] && src.ending.Clean? && LineYields(src, body, |body|, item)
    ensures ItemsOf(src, body) == Followed(item, ItemsOf(src, []))
  {
    WholeLine(body);
    assert body + [] == body && body[|body|..] == [];
    WholeLineFollows(src, body, body, []);
    LineItem(src, body, [], [], item);
  }

  lemma {:induction false} WholeLine(body: Bytes)
    requires LF !in body
    ensures FirstLine(body) == body
  {
    if body != [] { WholeLine(body[1..]); }
  }

  /** Where the output ends: with nothing, with a failed exit, or broken off,
      and then an unfinished line is lost. */
  lemma EndRead(src: Source, body: Bytes)
    requires LF !in body
    ensures src.ending.Clean? && (src.exit.None? || src.exit.value.success) ==> ItemsOf(src, []) == []
    ensures src.ending.Clean? && src.exit.Some? && !src.exit.value.success ==>
      ItemsOf(src, []) == [ReadError(Process(src.exit.value.code, "process exited with a non-zero status"))]
    ensures src.ending.Broken? ==>
      ItemsOf(src, body) == [ReadError(CliConnection("failed to read from process stdout: " + src.ending.text))]
  {
    WholeLine(body);
  }

  /** A text that is an object and parses to the value, or for `None` one that
      opens no object. */
  ghost predicate Means(src: Source, text: string, value: Option<Value>) {
    exists core :: Wraps(text, core)
      && if core != "" && core[0] == '{' then value.Some? && src.json(core) == value else value.None?
  }

  /** The bytes are a body and carriage returns. */
  ghost predicate EndsInReturns(line: Bytes, body: Bytes) {
    IsBody(body) && body <= line && forall k :: |body| <= k < |line| ==> line[k] == 13
  }

  /** A printed line, without its feed, that means the value. */
  ghost predicate Prints(src: Source, line: Bytes, value: Option<Value>) {
    |line| < src.maxBuffer
    && exists body :: EndsInReturns(line, body) && src.utf8(body).Some? && Means(src, src.utf8(body).value, value)
  }

  lemma MeaningOf(src: Source, text: string, value: Option<Value>)
    ensures Means(src, text, value)
            <==> match ItemIn(src, text)
                 case None => value.None?
                 case Some(Read(v)) => value == Some(v)
                 case Some(ReadError(_)) => false
  {
    forall core ensures Wraps(text, core) <==> core == Trim(text) { TrimExactly(text, core); }
    assert Wraps(text, Trim(text));
  }

  lemma {:induction false} ChompExactly(line: Bytes)
    requires 10 !in line
    ensures EndsInReturns(line, Chomp(line))
  {
    if line != [] && line[|line| - 1] == 13 { ChompExactly(line[..|line| - 1]); }
  }

  lemma ChompReturns(line: Bytes, body: Bytes)
    requires EndsInReturns(line, body)
    ensures Chomp(line) == body && 10 !in line
  {
    ChompBody(body, line[|body|..]);
    assert line == body + line[|body|..];
  }

  /** The lines that mean something are the well-formed ones, and they mean
      what they yield. */
  lemma PrintedLine(src: Source, line: Bytes, value: Option<Value>)
    ensures Prints(src, line, value) <==> WellFormed(src, line) && ValueIn(src, line) == value
  {
    if Prints(src, line, value) {
      var body :| EndsInReturns(line, body) && src.utf8(body).Some? && Means(src, src.utf8(body).value, value);
      ChompReturns(line, body);
      MeaningOf(src, src.utf8(body).value, value);
    }
    if WellFormed(src, line) && ValueIn(src, line) == value {
      ChompExactly(line);
      MeaningOf(src, src.utf8(Chomp(line)).value, value);
    }
  }

  ghost predicate AllPrint(src: Source, lines: seq<Bytes>, values: seq<Option<Value>>) {
    |lines| == |values| && forall i :: 0 <= i < |lines| ==> Prints(src, lines[i], values[i])
  }

  /** The values printed, in order. */
  ghost function Reads(values: seq<Option<Value>>): seq<Item> {
    if values == [] then []
    else (if values[0].Some? then [Item.Read(values[0].value)] else []) + Reads(values[1..])
  }

  lemma {:induction false} PrintedValues(src: Source, lines: seq<Bytes>, values: seq<Option<Value>>)
    requires AllPrint(src, lines, values)
    ensures forall i :: 0 <= i < |lines| ==> WellFormed(src, lines[i])
    ensures ValuesIn(src, lines) == Reads(values)
  {
    forall i | 0 <= i < |lines| ensures WellFormed(src, lines[i]) && ValueIn(src, lines[i]) == values[i] {
      PrintedLine(src, lines[i], values[i]);
    }
    if lines != [] { PrintedValues(src, lines[1..], values[1..]); }
  }

  /** What is printed a line each is what is read, then the end. */
  lemma PrintedLinesRead(src: Source, lines: seq<Bytes>, values: seq<Option<Value>>)
    requires AllPrint(src, lines, values)
    requires src.ending.Clean?
    ensures ItemsOf(src, Framed(lines)) == Reads(values) + ItemsOf(src, [])
  {
    PrintedValues(src, lines, values);
    FramedRoundTrip(src, lines);
    WholeLine([]);
  }

  /** Reading well-formed lines back gives exactly their values, in order;
      diagnostics between them do not disturb anything. */
  lemma {:induction false} FramedRoundTrip(src: Source, lines: seq<Bytes>)
    requires forall i :: 0 <= i < |lines| ==> WellFormed(src, lines[i])
    requires src.ending.Clean?
    ensures ItemsOf(src, Framed(lines)) == ValuesIn(src, lines) + ExitItems(src)
  {
    if lines == [] {
      assert FirstLine([]) == [];
    } else {
      var line, rest := lines[0], Framed(lines[1..]);
      assert WellFormed(src, line);
      FirstOfFramed(src, line, rest);
      FramedRoundTrip(src, lines[1..]);
    }
  }
}
