/**
 * Framing of one server-sent event as the chat server writes it: an `event`
 * field line, a `data` field line and the blank line that dispatches the event
 * (the `text/event-stream` format of the HTML Living Standard, section 9.2
 * "Server-sent events").
 */
module EventStream {
  import opened Wrappers

  /** One event: its type and its single line of data. */
  datatype Sse = Sse(event: string, data: string)

  /** The event-stream format ends a line at a carriage return, a line feed, or the pair. */
  predicate IsLineBreak(c: char) {
    c == '\n' || c == '\r'
  }

  /** A field value that stays on one line. */
  predicate NoLineBreak(s: string) {
    '\n' !in s && '\r' !in s
  }

  const EventPrefix := "event: "
  const DataPrefix := "data: "

  /** `SSE.Write`: the event line, then the data line followed by the blank line that dispatches the event. */
  function Write(e: Sse): (frame: string)
    ensures |frame| == |e.event| + |e.data| + 16
    ensures frame[..7] == EventPrefix && frame[|frame| - 2..] == "\n\n"
  {
    (EventPrefix + e.event + "\n") + (DataPrefix + e.data + "\n\n")
  }

  /** Position of the first line break in `s`, or `|s|` when there is none. */
  function LineEnd(s: string): (i: nat)
    ensures i <= |s|
    ensures forall k :: 0 <= k < i ==> !IsLineBreak(s[k])
    ensures i < |s| ==> IsLineBreak(s[i])
  {
    if s == [] then 0 else if IsLineBreak(s[0]) then 0 else 1 + LineEnd(s[1..])
  }

  /** The value of a field line `<prefix><value>`, when `line` starts with `prefix`. */
  function FieldValue(line: string, prefix: string): (r: Option<string>)
    ensures r.Some? ==> line == prefix + r.value
    ensures r.None? ==> |line| < |prefix| || line[..|prefix|] != prefix
  {
    if |line| >= |prefix| && line[..|prefix|] == prefix then
      assert line == prefix + line[|prefix|..];
      Some(line[|prefix|..])
    else None
  }

  /**
   * Reads one frame as an event-stream reader splits it into lines (at a
   * carriage return, a line feed or the pair) and accepts it only when it has
   * exactly the shape `Write` produces: an event line and a data line, each
   * ended by a line feed, then an empty line. A frame in which a carriage
   * return ends a line is not that shape and is rejected.
   */
  function Parse(frame: string): (r: Option<Sse>)
    ensures r.Some? ==> NoLineBreak(r.value.event) && NoLineBreak(r.value.data)
  {
    var i := LineEnd(frame);
    if i == |frame| || frame[i] != '\n' then None
    else
      var rest := frame[i + 1..];
      var j := LineEnd(rest);
      if rest[j..] != "\n\n" then None
      else
        NoBreakBefore(frame, i);
        NoBreakBefore(rest, j);
        match (FieldValue(frame[..i], EventPrefix), FieldValue(rest[..j], DataPrefix))
        case (Some(ev), Some(d)) => Some(Sse(ev, d))
        case _ => None
  }

  lemma NoBreakBefore(s: string, i: nat)
    requires i <= |s|
    requires forall k :: 0 <= k < i ==> !IsLineBreak(s[k])
    ensures NoLineBreak(s[..i])
  {
    assert forall k :: 0 <= k < i ==> s[..i][k] == s[k];
  }

  /** A frame whose fields stay on one line reads back as the event that was written. */
  lemma ParseWrite(e: Sse)
    requires NoLineBreak(e.event) && NoLineBreak(e.data)
    ensures Parse(Write(e)) == Some(e)
  {
    var eventLine := EventPrefix + e.event;
    var dataLine := DataPrefix + e.data;
    ParseLines(eventLine, dataLine);
    FieldValueOf(e.event, EventPrefix);
    FieldValueOf(e.data, DataPrefix);
  }

  /** A carriage return in the data ends the data line early, so the frame does not read back. */
  lemma CarriageReturnSplitsData(e: Sse)
    requires '\r' in e.data
    ensures Parse(Write(e)) != Some(e)
  {
  }

  /** `Parse` on two one-line fields followed by the dispatching blank line. */
  lemma ParseLines(eventLine: string, dataLine: string)
    requires NoLineBreak(eventLine) && NoLineBreak(dataLine)
    ensures Parse((eventLine + "\n") + (dataLine + "\n\n")) ==
      match (FieldValue(eventLine, EventPrefix), FieldValue(dataLine, DataPrefix))
      case (Some(ev), Some(d)) => Some(Sse(ev, d))
      case _ => None
  {
    var frame := (eventLine + "\n") + (dataLine + "\n\n");
    assert frame == eventLine + ("\n" + dataLine + "\n\n");
    LineEndPrefix(eventLine, "\n" + dataLine + "\n\n");
    assert frame[..|eventLine|] == eventLine;
    var rest := frame[|eventLine| + 1..];
    assert rest == dataLine + "\n\n";
    LineEndPrefix(dataLine, "\n\n");
    assert rest[..|dataLine|] == dataLine;
    assert rest[|dataLine|..] == "\n\n";
  }

  lemma FieldValueOf(value: string, prefix: string)
    ensures FieldValue(prefix + value, prefix) == Some(value)
  {
    assert (prefix + value)[..|prefix|] == prefix;
  }

  /** A frame `Parse` accepts is its event line and line feed, then its data line and the blank line. */
  lemma ParsedLines(frame: string) returns (eventLine: string, dataLine: string)
    requires Parse(frame).Some?
    ensures frame == (eventLine + "\n") + (dataLine + "\n\n")
    ensures FieldValue(eventLine, EventPrefix) == Some(Parse(frame).value.event)
    ensures FieldValue(dataLine, DataPrefix) == Some(Parse(frame).value.data)
  {
    var i := LineEnd(frame);
    var rest := frame[i + 1..];
    var j := LineEnd(rest);
    eventLine, dataLine := frame[..i], rest[..j];
    assert rest == dataLine + "\n\n" by {
      assert rest == rest[..j] + rest[j..];
    }
    assert frame == (eventLine + "\n") + rest by {
      assert frame == frame[..i] + [frame[i]] + frame[i + 1..];
    }
  }

  /** Conversely, every frame `Parse` accepts is exactly the one `Write` emits for its result. */
  lemma WriteParse(frame: string)
    requires Parse(frame).Some?
    ensures Write(Parse(frame).value) == frame
  {
    var e := Parse(frame).value;
    var eventLine, dataLine := ParsedLines(frame);
    assert eventLine == EventPrefix + e.event;
    assert dataLine == DataPrefix + e.data;
  }

  lemma {:induction false} LineEndPrefix(a: string, b: string)
    requires NoLineBreak(a)
    requires b != [] && b[0] == '\n'
    ensures LineEnd(a + b) == |a|
  {
    if a != [] {
      assert a[0] in a;
      assert (a + b)[1..] == a[1..] + b;
      assert forall c :: c in a[1..] ==> c in a;
      LineEndPrefix(a[1..], b);
    }
  }
}
