// Every interleaving of any number of threads calling the bridge with the one
// consumer draining it. A step is one region under the lock, or one write or
// flush outside it; a wait is a step that is not enabled, and a wait that times
// out only looks at its guard again.
module StreamingRuns {
  import opened Foundation
  import opened JsonText
  import opened SseFrames
  import opened StreamingBridge

  datatype Call =
    | SendProgress(event: Json)
    | SendDelta(text: string, provider: string, model: string)
    | SendComplete(payload: Json)
    | SendError(error: Json)
    | Close

  // Where the consumer stands inside drain_to_writer.
  datatype Pc =
    | AtLock
    | Writing(event: Event)
    | Flushing
    | AtTerminal
    | WritingTerminal(event: Event)
    | FlushingTerminal(event: Event)
    | Finishing(event: Event)
    | Failing
    | Done

  // What one write put on the socket: a frame, or its first `kept` characters.
  datatype Chunk = Entire(event: Event) | Cut(event: Event, kept: nat)

  // The machine, and its history: the calls each thread started with, the
  // events accepted and who sent them, the events written whole, whether the
  // terminal event was, and what a broken write left behind.
  datatype System = System(
    bridge: Bridge, calls: seq<seq<Call>>, pc: Pc, wire: seq<Chunk>,
    script: seq<seq<Call>>, accepted: seq<Event>, senders: seq<nat>, owner: Option<nat>,
    written: seq<Event>, ended: bool, broke: bool, lost: seq<Event>, torn: seq<Chunk>)

  datatype Step = Act(thread: nat) | Drain | WriteBreaks(kept: nat) | FlushBreaks

  function Init(capacity: int, script: seq<seq<Call>>): System {
    System(Bridge(capacity, Open, [], None), script, AtLock, [], script, [], [], None, [], false, false, [], [])
  }

  // The ordinary event a call offers; an empty delta offers none.
  function Offers(c: Call): Option<Event> {
    match c
    case SendProgress(event) => Some(Event(Progress, event))
    case SendDelta(text, provider, model) =>
      if text == "" then None else Some(Event(Delta, DeltaPayload(text, provider, model)))
    case _ => None
  }

  function TerminalOf(c: Call): Option<Event> {
    match c
    case SendComplete(payload) => Some(Event(Complete, payload))
    case SendError(error) => Some(Event(Error, error))
    case _ => None
  }

  predicate Blocked(b: Bridge, c: Call) {
    Offers(c).Some? && Offer(b, Offers(c).value).1 == Waits
  }

  predicate Enabled(s: System, step: Step) {
    match step
    case Act(i) => i < |s.calls| && |s.calls[i]| > 0 && !Blocked(s.bridge, s.calls[i][0])
    case Drain => s.pc != Done && !(s.pc == AtLock && TakeNext(s.bridge).1 == WaitMore)
    case WriteBreaks(_) => s.pc.Writing? || s.pc.WritingTerminal?
    case FlushBreaks => s.pc.Flushing? || s.pc.FlushingTerminal?
  }

  function Act1(s: System, i: nat, c: Call): System {
    if Offers(c).Some? then
      var (b, r) := Offer(s.bridge, Offers(c).value);
      if r == Accepted then s.(bridge := b, accepted := s.accepted + [Offers(c).value], senders := s.senders + [i])
      else s.(bridge := b)
    else if TerminalOf(c).Some? then
      s.(bridge := SetTerminal(s.bridge, TerminalOf(c).value),
         owner := if s.bridge.state == Open then Some(i) else s.owner)
    else if c == Close then s.(bridge := Shut(s.bridge))
    else s
  }

  function Drain1(s: System): System
    requires Enabled(s, Drain)
  {
    match s.pc
    case AtLock =>
      var (b, r) := TakeNext(s.bridge);
      s.(bridge := b, pc := match r
                            case Item(e) => Writing(e)
                            case QueueDone => AtTerminal
                            case _ => Done)
    case Writing(e) => s.(pc := Flushing, wire := s.wire + [Entire(e)], written := s.written + [e])
    case Flushing => s.(pc := AtLock)
    case AtTerminal =>
      s.(pc := match PendingTerminal(s.bridge) case Some(t) => WritingTerminal(t) case None => Done)
    case WritingTerminal(t) => s.(pc := FlushingTerminal(t), wire := s.wire + [Entire(t)], ended := true)
    case FlushingTerminal(t) => s.(pc := Finishing(t))
    case Finishing(t) => s.(pc := Done, bridge := Finish(s.bridge, t))
    case Failing => s.(pc := Done, bridge := Disconnect(s.bridge))
  }

  function Do(s: System, step: Step): System
    requires Enabled(s, step)
  {
    match step
    case Act(i) => Act1(s.(calls := s.calls[i := s.calls[i][1..]]), i, s.calls[i][0])
    case Drain => Drain1(s)
    case WriteBreaks(k) =>
      var kept := [Cut(s.pc.event, k)];
      s.(pc := Failing, broke := true, wire := s.wire + kept, torn := kept,
         lost := if s.pc.Writing? then [s.pc.event] else [])
    case FlushBreaks => s.(pc := Failing, broke := true)
  }

  predicate IsRun(s: System, steps: seq<Step>)
    decreases |steps|
  {
    |steps| == 0 || (Enabled(s, steps[0]) && IsRun(Do(s, steps[0]), steps[1..]))
  }

  function After(s: System, steps: seq<Step>): System
    requires IsRun(s, steps)
    decreases |steps|
  {
    if |steps| == 0 then s else After(Do(s, steps[0]), steps[1..])
  }

  // ----- What every step keeps -----

  function InFlight(s: System): seq<Event> {
    if s.pc.Writing? then [s.pc.event] else s.lost
  }

  function TerminalSeq(s: System): seq<Event> {
    match s.bridge.terminal case Some(t) => [t] case None => []
  }

  predicate Ending(pc: Pc) { pc.AtTerminal? || pc.WritingTerminal? || pc.FlushingTerminal? || pc.Finishing? }

  // Zero-drop FIFO: what was accepted is written, being written, or queued.
  predicate Fifo(s: System) {
    && (s.bridge.capacity > 0 ==> |s.bridge.queue| <= s.bridge.capacity)
    && s.accepted == s.written + InFlight(s) + s.bridge.queue
    && (|s.lost| > 0 ==> |s.lost| == 1 && s.broke)
    && (s.broke ==> s.pc == Failing || s.pc == Done)
    && (s.pc == Failing ==> s.broke)
  }

  // The terminal event goes last, once.
  predicate TerminalLast(s: System) {
    && (s.bridge.state == Open ==> s.bridge.terminal.None?)
    && (s.bridge.state == TerminalPending ==> s.bridge.terminal.Some?)
    && (s.bridge.terminal.Some? ==> s.bridge.terminal.value.kind == Complete || s.bridge.terminal.value.kind == Error)
    && (Ending(s.pc) || s.ended ==>
          s.bridge.terminal.Some? && s.bridge.state != Open && s.accepted == s.written)
    && (s.pc.WritingTerminal? || s.pc.FlushingTerminal? || s.pc.Finishing? ==>
          s.bridge.terminal == Some(s.pc.event))
    && (s.pc.FlushingTerminal? || s.pc.Finishing? ==> s.ended)
    && (s.ended ==> s.pc.FlushingTerminal? || s.pc.Finishing? || s.pc == Failing || s.pc == Done)
  }

  function Outcome(t: Option<Event>): StreamState {
    if t.Some? && t.value.kind == Complete then Completed else Errored
  }

  // Only the consumer's last step leaves a final state, and it leaves it
  // according to the terminal event alone.
  predicate Lifecycle(s: System) {
    && (s.pc != Done ==> s.bridge.state != Completed && s.bridge.state != Errored)
    && (s.pc == Done ==>
          s.bridge.state == if s.ended && !s.broke then Outcome(s.bridge.terminal) else Disconnected)
    && (s.pc == Done && !s.broke ==> |s.bridge.queue| == 0)
  }

  // The events whose frames arrived whole.
  function Whole(s: System): seq<Event> { s.written + if s.ended then TerminalSeq(s) else [] }

  function Frames(events: seq<Event>): (r: seq<Chunk>)
    ensures |r| == |events|
  {
    seq(|events|, i requires 0 <= i < |events| => Entire(events[i]))
  }

  // On the wire are whole frames, then at most one cut frame: that of the
  // event the broken write lost, or of the terminal event.
  predicate WireOk(s: System) {
    && s.wire == Frames(Whole(s)) + s.torn
    && (|s.torn| > 0 ==>
          && s.broke && !s.ended && |s.torn| == 1 && s.torn[0].Cut?
          && (if |s.lost| == 1 then s.torn[0].event == s.lost[0]
              else s.accepted == s.written && s.bridge.state != Open
                   && s.bridge.terminal == Some(s.torn[0].event)))
  }

  // The events of one thread, in the order they were accepted.
  function From(accepted: seq<Event>, senders: seq<nat>, i: nat): seq<Event>
    requires |accepted| == |senders|
  {
    var n := |accepted| - 1;
    if n < 0 then []
    else From(accepted[..n], senders[..n], i) + if senders[n] == i then [accepted[n]] else []
  }

  // What a thread offers before its first terminal call or close.
  function Body(calls: seq<Call>): seq<Event> {
    if |calls| == 0 || TerminalOf(calls[0]).Some? || calls[0] == Close then []
    else (match Offers(calls[0]) case Some(e) => [e] case None => []) + Body(calls[1..])
  }

  // That first ending call.
  function EndCall(calls: seq<Call>): Option<Call> {
    if |calls| == 0 then None
    else if TerminalOf(calls[0]).Some? || calls[0] == Close then Some(calls[0])
    else EndCall(calls[1..])
  }

  // While the bridge is open nothing a thread offered is dropped; afterwards
  // what was accepted from it is a prefix of what it offers, and all of it for
  // the thread whose call set the terminal event.
  predicate ThreadOk(s: System, i: nat)
    requires |s.accepted| == |s.senders| && i < |s.script| == |s.calls|
  {
    var mine := From(s.accepted, s.senders, i);
    && mine <= Body(s.script[i])
    && (s.bridge.state == Open ==>
          Body(s.script[i]) == mine + Body(s.calls[i]) && EndCall(s.script[i]) == EndCall(s.calls[i]))
    && (s.owner == Some(i) ==>
          mine == Body(s.script[i]) && EndCall(s.script[i]).Some?
          && TerminalOf(EndCall(s.script[i]).value) == s.bridge.terminal)
  }

  predicate Scripted(s: System) {
    && |s.accepted| == |s.senders| && |s.script| == |s.calls|
    && (s.owner.Some? <==> s.bridge.terminal.Some?)
    && (s.owner.Some? ==> s.owner.value < |s.script|)
    && (forall k :: 0 <= k < |s.senders| ==> s.senders[k] < |s.script|)
    && forall i {:trigger s.script[i]} | 0 <= i < |s.script| :: ThreadOk(s, i)
  }

  predicate Inv(s: System) {
    Fifo(s) && TerminalLast(s) && Lifecycle(s) && WireOk(s) && Scripted(s)
  }

  lemma InitInv(capacity: int, script: seq<seq<Call>>)
    ensures Inv(Init(capacity, script))
  {
    var s := Init(capacity, script);
    assert Frames(Whole(s)) + [] == [];
    forall i | 0 <= i < |script| ensures ThreadOk(s, i) {
      assert [] + Body(script[i]) == Body(script[i]);
    }
  }

  // The three parts that do not look at the threads.
  predicate Core(s: System) { Fifo(s) && TerminalLast(s) && Lifecycle(s) }

  lemma ActFifo(s: System, i: nat)
    requires Core(s) && Enabled(s, Act(i))
    ensures Fifo(Do(s, Act(i)))
  {
    var c := s.calls[i][0];
    if Offers(c).Some? && s.bridge.state == Open {
      Regroup(s.written + InFlight(s), s.bridge.queue, [Offers(c).value]);
    }
  }

  lemma ActTerminalLast(s: System, i: nat)
    requires Core(s) && Enabled(s, Act(i))
    ensures TerminalLast(Do(s, Act(i)))
  {
  }

  lemma ActLifecycle(s: System, i: nat)
    requires Core(s) && Enabled(s, Act(i))
    ensures Lifecycle(Do(s, Act(i)))
  {
  }

  lemma ActCore(s: System, i: nat)
    requires Core(s) && Enabled(s, Act(i))
    ensures Core(Do(s, Act(i)))
  {
    ActFifo(s, i);
    ActTerminalLast(s, i);
    ActLifecycle(s, i);
  }

  lemma DrainCore(s: System)
    requires Core(s) && Enabled(s, Drain)
    ensures Core(Do(s, Drain))
  {
    if s.pc == AtLock && |s.bridge.queue| > 0 {
      assert s.bridge.queue == [s.bridge.queue[0]] + s.bridge.queue[1..];
    }
  }

  lemma BreakCore(s: System, step: Step)
    requires Core(s) && Enabled(s, step) && (step.WriteBreaks? || step.FlushBreaks?)
    ensures Core(Do(s, step))
  {
  }

  lemma ActWire(s: System, i: nat)
    requires Core(s) && WireOk(s) && Enabled(s, Act(i))
    ensures WireOk(Do(s, Act(i)))
  {
    var t := Do(s, Act(i));
    assert Whole(t) == Whole(s);
  }

  lemma DrainWire(s: System)
    requires Core(s) && WireOk(s) && Enabled(s, Drain)
    ensures WireOk(Do(s, Drain))
  {
    var t := Do(s, Drain);
    if s.pc.Writing? || s.pc.WritingTerminal? {
      assert Whole(t) == s.written + [s.pc.event] && Whole(s) == s.written;
      assert Frames(Whole(t)) == Frames(Whole(s)) + [Entire(s.pc.event)];
    } else {
      assert Whole(t) == Whole(s);
    }
  }

  lemma BreakWire(s: System, step: Step)
    requires Core(s) && WireOk(s) && Enabled(s, step) && (step.WriteBreaks? || step.FlushBreaks?)
    ensures WireOk(Do(s, step))
  {
    assert Whole(Do(s, step)) == Whole(s);
  }

  // ----- Threads -----

  lemma {:induction false} FromSnoc(accepted: seq<Event>, senders: seq<nat>, e: Event, i: nat, j: nat)
    requires |accepted| == |senders|
    ensures From(accepted + [e], senders + [j], i) == From(accepted, senders, i) + if j == i then [e] else []
  {
    assert (accepted + [e])[..|accepted|] == accepted && (senders + [j])[..|senders|] == senders;
  }

  // An accepted event joins its own thread's events and no other's.
  lemma ActThreadOffer(s: System, i: nat, j: nat)
    requires Scripted(s) && Enabled(s, Act(i)) && j < |s.script| && ThreadOk(s, j)
    requires s.bridge.state == Open && s.bridge.terminal.None?
    requires Offers(s.calls[i][0]).Some?
    ensures ThreadOk(Do(s, Act(i)), j)
  {
    var e, rest := Offers(s.calls[i][0]).value, s.calls[i][1..];
    var t := Do(s, Act(i));
    OfferAccepted(s, i);
    FromSnoc(s.accepted, s.senders, e, j, i);
    if i == j {
      BodyAdvances(s.calls[i]);
      OneMoreAccepted(Body(s.script[j]), From(s.accepted, s.senders, j), e, Body(rest));
    } else {
      assert t.calls[j] == s.calls[j];
      assert From(t.accepted, t.senders, j) == From(s.accepted, s.senders, j);
    }
  }

  lemma OfferAccepted(s: System, i: nat)
    requires Enabled(s, Act(i)) && s.bridge.state == Open && Offers(s.calls[i][0]).Some?
    ensures var t, e := Do(s, Act(i)), Offers(s.calls[i][0]).value;
      && t.accepted == s.accepted + [e] && t.senders == s.senders + [i] && t.calls == s.calls[i := s.calls[i][1..]]
      && t.bridge.state == Open && t.bridge.terminal == s.bridge.terminal && t.owner == s.owner && t.script == s.script
  {
  }

  lemma BodyAdvances(calls: seq<Call>)
    requires |calls| > 0 && Offers(calls[0]).Some?
    ensures Body(calls) == [Offers(calls[0]).value] + Body(calls[1..]) && EndCall(calls) == EndCall(calls[1..])
  {
  }

  lemma OneMoreAccepted(all: seq<Event>, mine: seq<Event>, e: Event, rest: seq<Event>)
    requires all == mine + ([e] + rest)
    ensures all == (mine + [e]) + rest && mine + [e] <= all
  {
  }

  lemma ActThreadOther(s: System, i: nat, j: nat)
    requires Scripted(s) && Enabled(s, Act(i)) && j < |s.script| && ThreadOk(s, j)
    requires s.bridge.state == Open && s.bridge.terminal.None?
    requires Offers(s.calls[i][0]).None?
    ensures ThreadOk(Do(s, Act(i)), j)
  {
    var c := s.calls[i][0];
    var mine := From(s.accepted, s.senders, j);
    if i == j && (TerminalOf(c).Some? || c == Close) {
      assert mine + [] == mine;
    } else if i == j {
      assert [] + Body(s.calls[i][1..]) == Body(s.calls[i][1..]);
    }
  }

  // Once the bridge has left OPEN a call changes nothing but its thread.
  lemma ActThreadLate(s: System, i: nat, j: nat)
    requires |s.accepted| == |s.senders| && j < |s.script| == |s.calls|
    requires Enabled(s, Act(i)) && ThreadOk(s, j)
    requires s.bridge.state != Open
    ensures ThreadOk(Do(s, Act(i)), j)
  {
    LateCallIsIdle(s, i);
  }

  lemma LateCallIsIdle(s: System, i: nat)
    requires Enabled(s, Act(i)) && s.bridge.state != Open
    ensures var t := Do(s, Act(i));
      && t.accepted == s.accepted && t.senders == s.senders && t.owner == s.owner && t.script == s.script
      && t.bridge.terminal == s.bridge.terminal && t.bridge.state != Open && |t.calls| == |s.calls|
  {
  }

  lemma ActThread(s: System, i: nat, j: nat)
    requires Core(s) && Scripted(s) && Enabled(s, Act(i)) && j < |s.script|
    ensures ThreadOk(Do(s, Act(i)), j)
  {
    assert ThreadOk(s, j);
    if s.bridge.state != Open {
      ActThreadLate(s, i, j);
    } else if Offers(s.calls[i][0]).Some? {
      ActThreadOffer(s, i, j);
    } else {
      ActThreadOther(s, i, j);
    }
  }

  lemma ActScripted(s: System, i: nat)
    requires Core(s) && Scripted(s) && Enabled(s, Act(i))
    ensures Scripted(Do(s, Act(i)))
  {
    forall j | 0 <= j < |s.script| ensures ThreadOk(Do(s, Act(i)), j) {
      ActThread(s, i, j);
    }
  }

  lemma OtherScripted(s: System, step: Step)
    requires Core(s) && Scripted(s) && Enabled(s, step) && !step.Act?
    ensures Scripted(Do(s, step))
  {
    var t := Do(s, step);
    forall j | 0 <= j < |s.script| ensures ThreadOk(t, j) {
      assert ThreadOk(s, j);
    }
  }

  lemma StepKeepsInv(s: System, step: Step)
    requires Inv(s) && Enabled(s, step)
    ensures Inv(Do(s, step))
  {
    match step {
      case Act(i) => ActCore(s, i); ActWire(s, i); ActScripted(s, i);
      case Drain => DrainCore(s); DrainWire(s); OtherScripted(s, step);
      case WriteBreaks(_) => BreakCore(s, step); BreakWire(s, step); OtherScripted(s, step);
      case FlushBreaks => BreakCore(s, step); BreakWire(s, step); OtherScripted(s, step);
    }
  }

  lemma {:induction false} RunKeepsInv(s: System, steps: seq<Step>)
    requires Inv(s) && IsRun(s, steps)
    ensures Inv(After(s, steps))
    decreases |steps|
  {
    if |steps| > 0 {
      StepKeepsInv(s, steps[0]);
      RunKeepsInv(Do(s, steps[0]), steps[1..]);
    }
  }
}
