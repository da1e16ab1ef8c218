/** From the bytes the process prints to the messages the consumer gets. */
module Session {
  import opened Wrappers
  import opened Json
  import opened Protocol
  import opened QueryState
  import opened QueryMessages
  import opened Framing

  /** The values of the lines that are neither control traffic nor mirrors. */
  ghost function ForwardedIn(src: Source, lines: seq<Bytes>): seq<Value> {
    if lines == [] then []
    else
      var v := ValueIn(src, lines[0]);
      (if v.Some? && !IsTraffic(v.value) then [v.value] else []) + ForwardedIn(src, lines[1..])
  }

  ghost function ForwardedOf(items: seq<Item>): seq<Value> {
    if items == [] then []
    else First(items[0]) + ForwardedOf(items[1..])
  }

  ghost function First(item: Item): seq<Value> {
    if item.Read? && !IsTraffic(item.value) then [item.value] else []
  }

  lemma Associate<T>(a: seq<T>, b: seq<T>, c: seq<T>)
    ensures a + b + c == a + (b + c)
  {
  }

  lemma {:induction false} ForwardedConcat(a: seq<Item>, b: seq<Item>)
    ensures ForwardedOf(a + b) == ForwardedOf(a) + ForwardedOf(b)
  {
    if a == [] {
      assert a + b == b;
    } else {
      var tail := a[1..];
      ForwardedConcat(tail, b);
      assert (a + b)[1..] == tail + b && (a + b)[0] == a[0];
      Associate(First(a[0]), ForwardedOf(tail), ForwardedOf(b));
    }
  }

  lemma {:induction false} ValuesAreForwarded(w: World, n: nat)
    requires n <= |w.stdout|
    ensures Values(w, n) == ForwardedOf(w.stdout[..n])
  {
    if n > 0 {
      ValuesAreForwarded(w, n - 1);
      assert w.stdout[..n] == w.stdout[..n - 1] + [w.stdout[n - 1]];
      ForwardedConcat(w.stdout[..n - 1], [w.stdout[n - 1]]);
      assert ForwardedOf([w.stdout[n - 1]][1..]) == [];
    }
  }

  lemma {:induction false} LinesAreForwarded(src: Source, lines: seq<Bytes>)
    ensures ForwardedOf(ValuesIn(src, lines)) == ForwardedIn(src, lines)
  {
    if lines != [] {
      LinesAreForwarded(src, lines[1..]);
      var v := ValueIn(src, lines[0]);
      var first: seq<Item> := if v.Some? then [Item.Read(v.value)] else [];
      ForwardedConcat(first, ValuesIn(src, lines[1..]));
      assert v.Some? ==> ForwardedOf(first[1..]) == [];
    }
  }

  /** The values that are no traffic. */
  ghost function Kept(values: seq<Option<Value>>): seq<Value> {
    if values == [] then []
    else (if values[0].Some? && !IsTraffic(values[0].value) then [values[0].value] else []) + Kept(values[1..])
  }

  lemma {:induction false} PrintedAreForwarded(src: Source, lines: seq<Bytes>, values: seq<Option<Value>>)
    requires AllPrint(src, lines, values)
    ensures ForwardedIn(src, lines) == Kept(values)
  {
    if lines != [] {
      PrintedLine(src, lines[0], values[0]);
      PrintedAreForwarded(src, lines[1..], values[1..]);
    }
  }

  /** When a process that printed its values one a line exits normally and the
      driver has read to the end, the consumer gets those values, in order,
      without the traffic, and no error. */
  lemma ConsumerGetsTheLines(w: World, src: Source, lines: seq<Bytes>, values: seq<Option<Value>>, events: seq<Event>)
    requires AllPrint(src, lines, values) && src.ending.Clean? && (src.exit.None? || src.exit.value.success)
    requires w.stdout == ItemsOf(src, Framed(lines)) && Run(w, events).stop == Some(AtEof)
    ensures Messages(Run(w, events).consumer) == Oks(Kept(values))
  {
    var s := Run(w, events);
    PrintedValues(src, lines, values);
    FramedRoundTrip(src, lines);
    assert w.stdout == ValuesIn(src, lines);
    RunKeepsMessages(w, events);
    assert w.stdout[..s.position] == w.stdout;
    ValuesAreForwarded(w, s.position);
    LinesAreForwarded(src, lines);
    PrintedAreForwarded(src, lines, values);
  }

  /** A process that exits abnormally after them makes the consumer's last
      message that exit, rewritten when the values end in an error result. */
  lemma ConsumerGetsTheExit(w: World, src: Source, lines: seq<Bytes>, values: seq<Option<Value>>, events: seq<Event>)
    requires AllPrint(src, lines, values) && src.ending.Clean? && src.exit.Some? && !src.exit.value.success
    requires w.stdout == ItemsOf(src, Framed(lines)) && Run(w, events).stop == Some(AtError)
    ensures var messages := Messages(Run(w, events).consumer);
            && |messages| == |Kept(values)| + 1
            && messages[..|messages| - 1] == Oks(Kept(values))
            && messages[|messages| - 1].Err?
            && RewrittenExactly(Kept(values),
                                Process(src.exit.value.code, "process exited with a non-zero status"),
                                messages[|messages| - 1].error)
  {
    PrintedValues(src, lines, values);
    PrintedAreForwarded(src, lines, values);
    ExitIsLast(w, src, lines, events);
  }

  lemma ExitIsLast(w: World, src: Source, lines: seq<Bytes>, events: seq<Event>)
    requires forall i :: 0 <= i < |lines| ==> WellFormed(src, lines[i])
    requires src.ending.Clean? && ExitItems(src) != [] && w.stdout == ItemsOf(src, Framed(lines))
    requires Run(w, events).stop == Some(AtError)
    ensures var messages := Messages(Run(w, events).consumer);
            && |messages| == |ForwardedIn(src, lines)| + 1
            && messages[..|messages| - 1] == Oks(ForwardedIn(src, lines))
            && messages[|messages| - 1].Err?
            && RewrittenExactly(ForwardedIn(src, lines), ExitItems(src)[0].error, messages[|messages| - 1].error)
  {
    var s, values := Run(w, events), ValuesIn(src, lines);
    FramedRoundTrip(src, lines);
    RunKeepsMessages(w, events);
    ValuesAreValues(src, lines);
    var n: nat := s.position - 1;
    forall k | 0 <= k < |values| ensures w.stdout[k].Read? { assert w.stdout[k] == values[k]; }
    assert n == |values|;
    assert w.stdout[..n] == values;
    ValuesAreForwarded(w, n);
    LinesAreForwarded(src, lines);
    EnrichedExactly(Values(w, n), w.stdout[n].error, s.consumer.remembered);
  }

  lemma {:induction false} ValuesAreValues(src: Source, lines: seq<Bytes>)
    ensures forall k :: 0 <= k < |ValuesIn(src, lines)| ==> ValuesIn(src, lines)[k].Read?
  {
    if lines != [] { ValuesAreValues(src, lines[1..]); }
  }
}
