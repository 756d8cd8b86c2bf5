// What the reader of the page is told: the calls of a script against what the
// client makes of the bytes, without the events and payloads in between.
module StreamingContent {
  import opened Foundation
  import opened JsonText
  import opened SseFrames
  import opened StreamingBridge
  import opened StreamingRuns
  import opened StreamingTheorems

  datatype Heard =
    | Report(event: Json)
    | Words(text: string, provider: string, model: string)
    | Success(payload: Json)
    | Failure(error: Json)
    | Unreadable

  // What a script tells: its non-empty deltas and its progress events, up to
  // the first call that ends the stream.
  function Told(calls: seq<Call>): seq<Heard> {
    if |calls| == 0 then []
    else
      match calls[0]
      case SendProgress(event) => [Report(event)] + Told(calls[1..])
      case SendDelta(text, provider, model) =>
        (if text == "" then [] else [Words(text, provider, model)]) + Told(calls[1..])
      case SendComplete(payload) => [Success(payload)]
      case SendError(error) => [Failure(error)]
      case Close => []
  }

  // What a client makes of a decoded event.
  function Hear(e: Option<Event>): Heard {
    match e
    case Some(Event(Progress, v)) => Report(v)
    case Some(Event(Delta, v)) => HearDelta(Member(v, "content"), Member(v, "provider"), Member(v, "model_name"))
    case Some(Event(Complete, v)) => Success(v)
    case Some(Event(Error, v)) => Failure(v)
    case None => Unreadable
  }

  function HearDelta(content: Option<Json>, provider: Option<Json>, model: Option<Json>): Heard {
    match (content, provider, model)
    case (Some(Str(c)), Some(Str(p)), Some(Str(m))) => Words(c, p, m)
    case _ => Unreadable
  }

  function HearAll(seen: seq<Option<Event>>): seq<Heard> {
    if |seen| == 0 then [] else [Hear(seen[0])] + HearAll(seen[1..])
  }

  // The answer on the page: the deltas' texts, joined.
  function Shown(heard: seq<Heard>): string {
    if |heard| == 0 then "" else (if heard[0].Words? then heard[0].text else "") + Shown(heard[1..])
  }

  // The texts of the deltas sent before the stream is ended, joined.
  function Texts(calls: seq<Call>): string {
    if |calls| == 0 then ""
    else
      match calls[0]
      case SendProgress(_) => Texts(calls[1..])
      case SendDelta(text, _, _) => text + Texts(calls[1..])
      case _ => ""
  }

  lemma DeltaIsHeard(text: string, provider: string, model: string)
    ensures Hear(Some(Event(Delta, DeltaPayload(text, provider, model)))) == Words(text, provider, model)
  {
    DeltaSays(text, provider, model);
  }

  lemma HearFirst(e: Event, rest: seq<Event>)
    ensures HearAll(Sent([e] + rest)) == [Hear(Some(e))] + HearAll(Sent(rest))
  {
    assert Sent([e] + rest)[1..] == Sent(rest);
  }

  lemma {:induction false} EverythingIsTold(calls: seq<Call>)
    ensures HearAll(Sent(Everything(calls))) == Told(calls)
  {
    if |calls| == 0 {
    } else {
      var rest := Everything(calls[1..]);
      EverythingIsTold(calls[1..]);
      match calls[0]
      case SendProgress(event) =>
        assert Everything(calls) == [Event(Progress, event)] + rest;
        HearFirst(Event(Progress, event), rest);
      case SendDelta(text, provider, model) =>
        if text == "" {
          assert Everything(calls) == rest;
        } else {
          var e := Event(Delta, DeltaPayload(text, provider, model));
          assert Everything(calls) == [e] + rest;
          HearFirst(e, rest);
          DeltaIsHeard(text, provider, model);
        }
      case SendComplete(payload) => HearFirst(Event(Complete, payload), []);
      case SendError(error) => HearFirst(Event(Error, error), []);
      case Close =>
    }
  }

  lemma {:induction false} TextsAreShown(calls: seq<Call>)
    ensures Shown(Told(calls)) == Texts(calls)
  {
    if |calls| > 0 {
      TextsAreShown(calls[1..]);
      match calls[0]
      case SendProgress(event) => assert Told(calls)[1..] == Told(calls[1..]);
      case SendDelta(text, _, _) =>
        if text == "" {
          assert [] + Told(calls[1..]) == Told(calls[1..]) && text + Texts(calls[1..]) == Texts(calls[1..]);
        } else {
          assert Told(calls)[1..] == Told(calls[1..]);
        }
      case _ =>
    }
  }

  lemma {:induction false} TellsTheEnd(calls: seq<Call>)
    requires EndCall(calls).Some? && TerminalOf(EndCall(calls).value).Some?
    ensures var told := Told(calls);
      |told| > 0 && Outcome(TerminalOf(EndCall(calls).value)) ==
                      (if told[|told| - 1].Success? then Completed else Errored)
  {
    if !TerminalOf(calls[0]).Some? && calls[0] != Close {
      TellsTheEnd(calls[1..]);
    }
  }

  // One producer, no close, a connection that holds: the client is told exactly
  // what the script tells, call by call; the answer it shows is the deltas'
  // texts, joined; and the bridge ends COMPLETE if and only if the last thing
  // told is a success.
  lemma ClientIsToldTheScript(capacity: int, calls: seq<Call>, steps: seq<Step>)
    requires Close !in calls && NoBreaks(steps)
    requires IsRun(Init(capacity, [calls]), steps)
    ensures var s := After(Init(capacity, [calls]), steps);
      s.pc == Done ==>
        && var heard := HearAll(ClientSees(Bytes(s.wire)));
        && heard == Told(calls)
        && Shown(heard) == Texts(calls)
        && |heard| > 0
        && s.bridge.state == if heard[|heard| - 1].Success? then Completed else Errored
  {
    SingleProducerIsExact(capacity, calls, steps);
    EverythingIsTold(calls);
    TextsAreShown(calls);
    var s := After(Init(capacity, [calls]), steps);
    if s.pc == Done {
      TellsTheEnd(calls);
    }
  }
}
