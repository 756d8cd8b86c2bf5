// Server-sent events: the frames the bridge writes, and the reader that
// sections 9.2.5 and 9.2.6 of the WHATWG HTML Living Standard prescribe for
// the browser on the other side.
module SseFrames {
  import opened Foundation
  import opened JsonText

  datatype EventType = Progress | Delta | Complete | Error

  function TypeName(t: EventType): string {
    match t
    case Progress => "progress"
    case Delta => "delta"
    case Complete => "complete"
    case Error => "error"
  }

  datatype FormatError = NewlineInEventType

  function FrameText(name: string, data: string): string {
    "event: " + name + "\n" + "data: " + data + "\n" + "\n"
  }

  // The event type arrives stripped; the payload is always printed as JSON.
  function FormatSseEvent(eventType: string, data: Json): Result<string, FormatError> {
    if '\n' in eventType || '\r' in eventType then Err(NewlineInEventType)
    else Ok(FrameText(eventType, Print(data)))
  }

  // ----- The event stream reader -----

  // A dispatched message event: its type and its data.
  datatype Message = Message(kind: string, data: string)

  // The event type buffer and the data buffer of section 9.2.6.
  datatype Buffers = Buffers(kind: string, data: string)

  const EMPTY := Buffers("", "")

  // Index of the first LF or CR, or |s| if there is none.
  function LineEnd(s: string): (i: nat)
    ensures i <= |s|
    ensures i < |s| ==> s[i] == '\n' || s[i] == '\r'
    ensures OneLine(s[..i])
  {
    if |s| == 0 || s[0] == '\n' || s[0] == '\r' then 0 else
      assert s[1..][..LineEnd(s[1..])] == s[..1 + LineEnd(s[1..])][1..];
      1 + LineEnd(s[1..])
  }

  // What follows the line that ends at i: CR LF counts as one line end.
  function NextLine(s: string, i: nat): (rest: string)
    requires i < |s|
    ensures |rest| < |s|
  {
    if s[i] == '\r' && i + 1 < |s| && s[i + 1] == '\n' then s[i + 2..] else s[i + 1..]
  }

  // Index of the first colon, or |line| if there is none.
  function Colon(line: string): (i: nat)
    ensures i <= |line|
  {
    if |line| == 0 || line[0] == ':' then 0 else 1 + Colon(line[1..])
  }

  function FieldValue(line: string, colon: nat): string {
    if colon >= |line| then ""
    else if colon + 1 < |line| && line[colon + 1] == ' ' then line[colon + 2..]
    else line[colon + 1..]
  }

  // The "id" and "retry" fields touch buffers that no message here carries.
  function ProcessField(name: string, value: string, b: Buffers): Buffers {
    if name == "event" then b.(kind := value)
    else if name == "data" then b.(data := b.data + value + ['\n'])
    else b
  }

  function ProcessLine(line: string, b: Buffers): Buffers {
    var c := Colon(line);
    if c == 0 && |line| > 0 then b
    else ProcessField(line[..c], FieldValue(line, c), b)
  }

  // The event dispatched by an empty line, if any.
  function Dispatch(b: Buffers): seq<Message> {
    if |b.data| == 0 then []
    else
      var data := if b.data[|b.data| - 1] == '\n' then b.data[..|b.data| - 1] else b.data;
      [Message(if b.kind == "" then "message" else b.kind, data)]
  }

  // The messages a client dispatches from s, its buffers holding b. What
  // follows the last line end, and an event without its blank line, are dropped.
  function Receive(s: string, b: Buffers): seq<Message>
    decreases |s|
  {
    var i := LineEnd(s);
    if i == |s| then []
    else if i == 0 then Dispatch(b) + Receive(NextLine(s, 0), EMPTY)
    else Receive(NextLine(s, i), ProcessLine(s[..i], b))
  }

  // ----- One frame -----

  lemma {:induction false} LineEndAt(line: string, c: char, rest: string)
    requires OneLine(line) && (c == '\n' || c == '\r')
    ensures LineEnd(line + ([c] + rest)) == |line|
  {
    var s := line + ([c] + rest);
    if |line| > 0 {
      assert s[1..] == line[1..] + ([c] + rest);
      LineEndAt(line[1..], c, rest);
    }
  }

  lemma {:induction false} NoLineEnd(s: string)
    requires OneLine(s)
    ensures LineEnd(s) == |s|
  {
    if |s| > 0 { NoLineEnd(s[1..]); }
  }

  lemma ReceiveLine(line: string, rest: string, b: Buffers)
    requires OneLine(line)
    ensures Receive(line + (['\n'] + rest), b)
         == if |line| == 0 then Dispatch(b) + Receive(rest, EMPTY) else Receive(rest, ProcessLine(line, b))
  {
    var s := line + (['\n'] + rest);
    LineEndAt(line, '\n', rest);
    assert s[|line|] == '\n';
    assert s[|line| + 1..] == rest;
    assert s[..|line|] == line;
  }

  lemma {:induction false} ColonAt(name: string, tail: string)
    requires forall i :: 0 <= i < |name| ==> name[i] != ':'
    ensures Colon(name + ([':'] + tail)) == |name|
  {
    var s := name + ([':'] + tail);
    if |name| > 0 {
      assert s[1..] == name[1..] + ([':'] + tail);
      ColonAt(name[1..], tail);
    }
  }

  lemma ProcessNamed(name: string, value: string, b: Buffers)
    requires name != "" && forall i :: 0 <= i < |name| ==> name[i] != ':'
    ensures ProcessLine(name + ([':'] + ([' '] + value)), b) == ProcessField(name, value, b)
  {
    var line := name + ([':'] + ([' '] + value));
    ColonAt(name, [' '] + value);
    assert line[..|name|] == name;
    assert line[|name| + 2..] == value;
  }

  function EventLine(name: string): string { "event" + ([':'] + ([' '] + name)) }
  function DataLine(data: string): string { "data" + ([':'] + ([' '] + data)) }

  lemma FrameLines(name: string, data: string, rest: string)
    ensures FrameText(name, data) + rest
         == EventLine(name) + (['\n'] + (DataLine(data) + (['\n'] + (['\n'] + rest))))
  {
  }

  lemma LinesAreOneLine(name: string, data: string)
    requires OneLine(name) && OneLine(data)
    ensures OneLine(EventLine(name)) && OneLine(DataLine(data))
  {
  }

  lemma FieldLines(name: string, data: string)
    ensures ProcessLine(EventLine(name), EMPTY) == Buffers(name, "")
    ensures ProcessLine(DataLine(data), Buffers(name, "")) == Buffers(name, data + ['\n'])
  {
    ProcessNamed("event", name, EMPTY);
    ProcessNamed("data", data, Buffers(name, ""));
    assert [] + data == data;
  }

  // A frame is exactly one message, whatever follows it on the stream. An
  // empty event type reads back as the default type "message".
  lemma FrameIsOneMessage(name: string, data: string, rest: string)
    requires OneLine(name) && OneLine(data)
    ensures Receive(FrameText(name, data) + rest, EMPTY)
         == [Message(if name == "" then "message" else name, data)] + Receive(rest, EMPTY)
  {
    var b := Buffers(name, data + ['\n']);
    var blank := ['\n'] + rest;
    var second := DataLine(data) + (['\n'] + blank);
    FrameLines(name, data, rest);
    LinesAreOneLine(name, data);
    FieldLines(name, data);
    ReceiveLine(EventLine(name), second, EMPTY);
    ReceiveLine(DataLine(data), blank, Buffers(name, ""));
    ReceiveLine("", rest, b);
    assert "" + blank == blank;
    assert b.data[..|b.data| - 1] == data;
  }

  lemma Regroup<T>(a: seq<T>, b: seq<T>, c: seq<T>)
    ensures (a + b) + c == a + (b + c)
  {
  }

  // Where a cut of first LF more falls: inside first, or inside more.
  lemma CutPoint(first: string, more: string, cut: string)
    requires cut <= first + (['\n'] + more)
    ensures |cut| <= |first| ==> cut == first[..|cut|]
    ensures |cut| > |first| ==>
      cut[|first| + 1..] <= more && cut == first + (['\n'] + cut[|first| + 1..])
  {
    assert cut == (first + (['\n'] + more))[..|cut|];
  }

  // A frame cut anywhere before its last byte dispatches nothing.
  lemma CutFrameIsSilent(name: string, data: string, cut: string)
    requires OneLine(name) && OneLine(data)
    requires cut <= FrameText(name, data) && |cut| < |FrameText(name, data)|
    ensures Receive(cut, EMPTY) == []
  {
    var first, second := EventLine(name), DataLine(data);
    FrameLines(name, data, "");
    LinesAreOneLine(name, data);
    CutAfterFirst(first, second, cut, FrameText(name, data));
  }

  lemma CutAfterFirst(first: string, second: string, cut: string, whole: string)
    requires OneLine(first) && OneLine(second) && |first| > 0 && |second| > 0
    requires whole + "" == first + (['\n'] + (second + (['\n'] + (['\n'] + ""))))
    requires cut <= whole && |cut| < |whole|
    ensures Receive(cut, EMPTY) == []
  {
    var more := second + (['\n'] + (['\n'] + ""));
    assert whole + "" == whole;
    CutPoint(first, more, cut);
    if |cut| <= |first| {
      NoLineEnd(cut);
    } else {
      var tail := cut[|first| + 1..];
      ReceiveLine(first, tail, EMPTY);
      assert more[..|second| + 1] == second + ['\n'];
      assert tail == more[..|tail|];
      CutSecondLine(second, tail, ProcessLine(first, EMPTY));
    }
  }

  lemma CutSecondLine(second: string, tail: string, b: Buffers)
    requires OneLine(second) && |second| > 0
    requires |tail| <= |second| + 1 && tail <= second + ['\n']
    ensures Receive(tail, b) == []
  {
    if |tail| <= |second| {
      assert tail == second[..|tail|];
      NoLineEnd(tail);
    } else {
      assert tail == second + (['\n'] + "");
      ReceiveLine(second, "", b);
    }
  }

  // ----- A whole stream -----

  datatype Event = Event(kind: EventType, data: Json)

  function Frame(e: Event): (r: string)
    ensures FormatSseEvent(TypeName(e.kind), e.data) == Ok(r)
  {
    FrameText(TypeName(e.kind), Print(e.data))
  }

  lemma FrameHead(name: string, head: string, data: string)
    requires head == "event: " + name + "\ndata: "
    ensures FrameText(name, data) == head + data + "\n\n"
  {
    assert "\ndata: " == "\n" + "data: " && "\n\n" == "\n" + "\n";
  }

  // The four frames, spelled out.
  lemma FrameSpelled(v: Json)
    ensures Frame(Event(Progress, v)) == "event: progress\ndata: " + Print(v) + "\n\n"
    ensures Frame(Event(Delta, v)) == "event: delta\ndata: " + Print(v) + "\n\n"
    ensures Frame(Event(Complete, v)) == "event: complete\ndata: " + Print(v) + "\n\n"
    ensures Frame(Event(Error, v)) == "event: error\ndata: " + Print(v) + "\n\n"
  {
    HeadsSpelled();
    FrameHead("progress", "event: progress\ndata: ", Print(v));
    FrameHead("delta", "event: delta\ndata: ", Print(v));
    FrameHead("complete", "event: complete\ndata: ", Print(v));
    FrameHead("error", "event: error\ndata: ", Print(v));
  }

  lemma HeadsSpelled()
    ensures "event: progress\ndata: " == "event: " + "progress" + "\ndata: "
    ensures "event: delta\ndata: " == "event: " + "delta" + "\ndata: "
    ensures "event: complete\ndata: " == "event: " + "complete" + "\ndata: "
    ensures "event: error\ndata: " == "event: " + "error" + "\ndata: "
  {
  }

  function Stream(events: seq<Event>): string {
    if events == [] then "" else Stream(events[..|events| - 1]) + Frame(events[|events| - 1])
  }

  function MessageOf(e: Event): Message {
    Message(TypeName(e.kind), Print(e.data))
  }

  function Messages(events: seq<Event>): (r: seq<Message>)
    ensures |r| == |events|
  {
    seq(|events|, i requires 0 <= i < |events| => MessageOf(events[i]))
  }

  lemma TypeNameIsOneLine(t: EventType)
    ensures OneLine(TypeName(t)) && TypeName(t) != ""
  {
  }

  lemma EventIsOneMessage(e: Event, rest: string)
    ensures Receive(Frame(e) + rest, EMPTY) == [MessageOf(e)] + Receive(rest, EMPTY)
  {
    PrintIsOneLine(e.data);
    TypeNameIsOneLine(e.kind);
    FrameIsOneMessage(TypeName(e.kind), Print(e.data), rest);
  }

  lemma StreamSplit(init: seq<Event>, e: Event, rest: string)
    ensures Stream(init + [e]) + rest == Stream(init) + (Frame(e) + rest)
    ensures Messages(init + [e]) == Messages(init) + [MessageOf(e)]
  {
    assert (init + [e])[..|init|] == init;
    Regroup(Stream(init), Frame(e), rest);
  }

  // Everything already framed reads back first, then the rest of the stream.
  ghost predicate ReadsAfter(events: seq<Event>, rest: string) {
    Receive(Stream(events) + rest, EMPTY) == Messages(events) + Receive(rest, EMPTY)
  }

  lemma ReadsAfterStep(init: seq<Event>, e: Event, rest: string)
    requires ReadsAfter(init, Frame(e) + rest)
    ensures ReadsAfter(init + [e], rest)
  {
    StreamSplit(init, e, rest);
    EventIsOneMessage(e, rest);
    Regroup(Messages(init), [MessageOf(e)], Receive(rest, EMPTY));
  }

  lemma {:induction false} StreamThenRest(events: seq<Event>, rest: string)
    ensures ReadsAfter(events, rest)
    decreases |events|
  {
    if |events| == 0 {
      ReadsAfterNothing(rest);
    } else {
      var before, last := events[..|events| - 1], events[|events| - 1];
      assert events == before + [last];
      StreamThenRest(before, Frame(last) + rest);
      ReadsAfterStep(before, last, rest);
    }
  }

  lemma ReadsAfterNothing(rest: string)
    ensures ReadsAfter([], rest)
  {
    assert Stream([]) + rest == rest;
    assert Messages([]) + Receive(rest, EMPTY) == Receive(rest, EMPTY);
  }

  // A client dispatches exactly the events whose frames arrived completely; a
  // torn last frame adds nothing.
  lemma StreamRoundTrip(events: seq<Event>, last: Event, cut: string)
    requires cut <= Frame(last) && |cut| < |Frame(last)|
    ensures Receive(Stream(events) + cut, EMPTY) == Messages(events)
  {
    StreamThenRest(events, cut);
    PrintIsOneLine(last.data);
    CutFrameIsSilent(TypeName(last.kind), Print(last.data), cut);
    assert Messages(events) + [] == Messages(events);
  }

  // What a client makes of one message: its type and the parsed payload.
  function Understand(m: Message): Option<Event> {
    match Parse(m.data)
    case None => None
    case Some(v) =>
      if m.kind == "progress" then Some(Event(Progress, v))
      else if m.kind == "delta" then Some(Event(Delta, v))
      else if m.kind == "complete" then Some(Event(Complete, v))
      else if m.kind == "error" then Some(Event(Error, v))
      else None
  }

  // The typed events a client obtains from the bytes it has received.
  function ClientSees(wire: string): seq<Option<Event>> {
    var got := Receive(wire, EMPTY);
    seq(|got|, i requires 0 <= i < |got| => Understand(got[i]))
  }

  function Sent(events: seq<Event>): seq<Option<Event>> {
    seq(|events|, i requires 0 <= i < |events| => Some(events[i]))
  }

  lemma UnderstandInverts(e: Event)
    ensures Understand(MessageOf(e)) == Some(e)
  {
    ParseInvertsPrint(e.data);
    TypeNamesDiffer();
  }

  lemma TypeNamesDiffer()
    ensures "progress" != "delta" && "progress" != "complete" && "progress" != "error"
    ensures "delta" != "complete" && "delta" != "error" && "complete" != "error"
  {
    assert "progress"[0] != "delta"[0] && "progress"[0] != "complete"[0] && "progress"[0] != "error"[0];
    assert "delta"[0] != "complete"[0] && "delta"[0] != "error"[0] && "complete"[0] != "error"[0];
  }

  // The typed round trip: events in, the same events out, in order.
  lemma ClientDecodesStream(events: seq<Event>, last: Event, cut: string)
    requires cut <= Frame(last) && |cut| < |Frame(last)|
    ensures ClientSees(Stream(events) + cut) == Sent(events)
    ensures ClientSees(Stream(events)) == Sent(events)
  {
    StreamRoundTrip(events, last, cut);
    StreamRoundTrip(events, last, "");
    assert Stream(events) + "" == Stream(events);
    forall i | 0 <= i < |events| ensures Understand(Messages(events)[i]) == Some(events[i]) {
      UnderstandInverts(events[i]);
    }
  }
}
