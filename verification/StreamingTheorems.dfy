// What the streaming bridge promises over whole runs.
module StreamingTheorems {
  import opened Foundation
  import opened JsonText
  import opened SseFrames
  import opened StreamingBridge
  import opened StreamingRuns

  // ----- Safety -----

  // In every reachable state: bounded queue, zero-drop FIFO, the terminal event
  // after everything accepted, per-thread order, and nothing dropped while OPEN.
  lemma EveryRunIsSafe(capacity: int, script: seq<seq<Call>>, steps: seq<Step>)
    requires IsRun(Init(capacity, script), steps)
    ensures var s := After(Init(capacity, script), steps);
      && (s.bridge.capacity > 0 ==> |s.bridge.queue| <= s.bridge.capacity)
      && s.accepted == s.written + InFlight(s) + s.bridge.queue
      && s.wire == Frames(Whole(s)) + s.torn && |s.torn| <= 1
      && (s.ended ==> s.accepted == s.written && s.bridge.terminal.Some?)
      && (s.pc == Done && !s.broke ==> s.accepted == s.written)
      && |s.accepted| == |s.senders|
      && |s.script| == |s.calls|
      && forall i {:trigger s.script[i]} | 0 <= i < |s.script| ::
           && From(s.accepted, s.senders, i) <= Body(s.script[i])
           && (s.bridge.state == Open ==> Body(s.script[i]) == From(s.accepted, s.senders, i) + Body(s.calls[i]))
  {
    InitInv(capacity, script);
    RunKeepsInv(Init(capacity, script), steps);
    var s := After(Init(capacity, script), steps);
    forall i {:trigger s.script[i]} | 0 <= i < |s.script| ensures ThreadOk(s, i) {
      assert ThreadOk(s, i);
    }
  }

  // The second system can follow the first: OPEN is left for good, the
  // terminal event is set once, histories only grow, and nothing is written
  // after the terminal event.
  predicate Follows(s: System, t: System) {
    && t.script == s.script && t.bridge.capacity == s.bridge.capacity
    && (s.bridge.state != Open ==> t.bridge.state != Open && t.accepted == s.accepted && t.senders == s.senders)
    && (s.bridge.terminal.Some? ==> t.bridge.terminal == s.bridge.terminal)
    && s.accepted <= t.accepted && s.written <= t.written && s.wire <= t.wire
    && (s.ended ==> t.ended && t.wire == s.wire)
  }

  lemma ActFollows(s: System, i: nat)
    requires TerminalLast(s) && Enabled(s, Act(i))
    ensures Follows(s, Do(s, Act(i)))
  {
  }

  lemma StepFollows(s: System, step: Step)
    requires Inv(s) && Enabled(s, step)
    ensures Follows(s, Do(s, step))
  {
    if step.Act? { ActFollows(s, step.thread); }
  }

  lemma {:induction false} RunFollows(s: System, steps: seq<Step>)
    requires Inv(s) && IsRun(s, steps)
    ensures Follows(s, After(s, steps))
    decreases |steps|
  {
    if |steps| > 0 {
      StepFollows(s, steps[0]);
      StepKeepsInv(s, steps[0]);
      RunFollows(Do(s, steps[0]), steps[1..]);
    }
  }

  // ----- Termination and progress -----

  function TotalCalls(calls: seq<seq<Call>>): nat {
    if |calls| == 0 then 0 else TotalCalls(calls[..|calls| - 1]) + |calls[|calls| - 1]|
  }

  lemma {:induction false} OneCallFewer(calls: seq<seq<Call>>, i: nat)
    requires i < |calls| && |calls[i]| > 0
    ensures TotalCalls(calls[i := calls[i][1..]]) == TotalCalls(calls) - 1
  {
    var n := |calls| - 1;
    var after := calls[i := calls[i][1..]];
    if i == n {
      assert after[..n] == calls[..n];
    } else {
      assert after[..n] == calls[..n][i := calls[..n][i][1..]];
      OneCallFewer(calls[..n], i);
    }
  }

  function Rank(pc: Pc): nat {
    match pc
    case Writing(_) => 7
    case Flushing => 6
    case AtLock => 5
    case AtTerminal => 4
    case WritingTerminal(_) => 3
    case FlushingTerminal(_) => 2
    case Finishing(_) => 1
    case Failing => 1
    case Done => 0
  }

  function Measure(s: System): nat {
    4 * TotalCalls(s.calls) + 3 * |s.bridge.queue| + Rank(s.pc)
  }

  lemma ActDecreases(s: System, i: nat)
    requires Enabled(s, Act(i))
    ensures Measure(Do(s, Act(i))) < Measure(s)
  {
    OneCallFewer(s.calls, i);
    assert |Do(s, Act(i)).bridge.queue| <= |s.bridge.queue| + 1;
  }

  lemma StepDecreases(s: System, step: Step)
    requires Enabled(s, step)
    ensures Measure(Do(s, step)) < Measure(s)
  {
    if step.Act? {
      ActDecreases(s, step.thread);
    } else {
      assert Do(s, step).calls == s.calls;
    }
  }

  // No run is infinite: it is at most as long as its first state's measure.
  lemma {:induction false} RunsAreBounded(s: System, steps: seq<Step>)
    requires IsRun(s, steps)
    ensures |steps| + Measure(After(s, steps)) <= Measure(s)
    decreases |steps|
  {
    if |steps| > 0 {
      StepDecreases(s, steps[0]);
      RunsAreBounded(Do(s, steps[0]), steps[1..]);
    }
  }

  predicate Stuck(s: System) {
    !Enabled(s, Drain) && forall i | 0 <= i < |s.calls| :: !Enabled(s, Act(i))
  }

  // No deadlock: a run can only stop when every call has returned and the
  // consumer has either returned or, no one having ended the stream, written
  // everything and waits for more.
  lemma StuckOnlyWhenQuiet(s: System)
    requires Inv(s) && Stuck(s)
    ensures forall i | 0 <= i < |s.calls| :: |s.calls[i]| == 0
    ensures s.pc == Done || (s.bridge.state == Open && s.written == s.accepted)
    ensures s.pc == Done <==> s.bridge.state != Open
    ensures (exists i :: 0 <= i < |s.script| && EndCall(s.script[i]).Some?) ==> s.pc == Done
  {
    forall i | 0 <= i < |s.calls| ensures |s.calls[i]| == 0 {
      assert !Enabled(s, Act(i));
    }
    if s.pc != Done {
      assert s.written + InFlight(s) + s.bridge.queue == s.written;
      forall i | 0 <= i < |s.script| ensures EndCall(s.script[i]).None? {
        assert ThreadOk(s, i);
      }
    }
  }

  // A producer waits exactly to offer an event to an open, bounded, full queue.
  lemma BlockedIff(s: System, i: nat)
    requires Inv(s) && i < |s.calls| && |s.calls[i]| > 0
    ensures var c := s.calls[i][0];
      Blocked(s.bridge, c) <==>
      && s.bridge.state == Open && 0 < s.bridge.capacity == |s.bridge.queue|
      && (c.SendProgress? || (c.SendDelta? && c.text != ""))
  {
    assert Fifo(s);
  }

  // The connection can break in every write and in every flush, and in no
  // other place; the consumer then disconnects the bridge and returns.
  lemma BreaksDisconnect(s: System, kept: nat)
    ensures Enabled(s, WriteBreaks(kept)) <==> s.pc.Writing? || s.pc.WritingTerminal?
    ensures Enabled(s, FlushBreaks) <==> s.pc.Flushing? || s.pc.FlushingTerminal?
    ensures forall step :: (step == WriteBreaks(kept) || step == FlushBreaks) && Enabled(s, step) ==>
      && Enabled(Do(s, step), Drain)
      && Do(Do(s, step), Drain).pc == Done && Do(Do(s, step), Drain).bridge == Disconnect(s.bridge)
  {
  }

  // A blocked producer waits on a consumer that can move, and the next dequeue
  // or state change enables it.
  lemma BlockedProducerIsWoken(s: System, i: nat, step: Step)
    requires Inv(s) && i < |s.calls| && |s.calls[i]| > 0 && Blocked(s.bridge, s.calls[i][0])
    requires Enabled(s, step)
    ensures Enabled(s, Drain)
    ensures |Do(s, step).bridge.queue| < |s.bridge.queue| || Do(s, step).bridge.state != Open ==>
              Enabled(Do(s, step), Act(i))
  {
    if step.Act? {
      assert step.thread != i;
    }
  }

  function Drains(n: nat): seq<Step> { if n == 0 then [] else [Drain] + Drains(n - 1) }

  lemma DrainsStep(s: System, n: nat)
    requires Enabled(s, Drain) && IsRun(Do(s, Drain), Drains(n))
    ensures IsRun(s, Drains(n + 1)) && After(s, Drains(n + 1)) == After(Do(s, Drain), Drains(n))
  {
    assert Drains(n + 1)[1..] == Drains(n);
  }

  // How many consumer steps away the next dequeue or disconnect is.
  function StepsToDequeue(pc: Pc): nat {
    match pc case Writing(_) => 3 case Flushing => 2 case _ => 1
  }

  // The consumer alone serves a blocked producer within three of its steps.
  lemma {:induction false} BlockedProducerIsServed(s: System, i: nat)
    requires Inv(s) && i < |s.calls| && |s.calls[i]| > 0 && Blocked(s.bridge, s.calls[i][0])
    ensures IsRun(s, Drains(StepsToDequeue(s.pc)))
    ensures Enabled(After(s, Drains(StepsToDequeue(s.pc))), Act(i))
    decreases StepsToDequeue(s.pc)
  {
    var t := Do(s, Drain);
    StepKeepsInv(s, Drain);
    if s.pc.Writing? || s.pc.Flushing? {
      BlockedProducerIsServed(t, i);
      DrainsStep(s, StepsToDequeue(t.pc));
    } else {
      DrainsStep(s, 0);
    }
  }

  // ----- Writes left once the stream has ended -----

  function Writes(s: System, steps: seq<Step>): nat
    requires IsRun(s, steps)
    decreases |steps|
  {
    if |steps| == 0 then 0
    else (if !steps[0].Act? && (s.pc.Writing? || s.pc.WritingTerminal?) then 1 else 0)
         + Writes(Do(s, steps[0]), steps[1..])
  }

  function WritesDue(s: System): nat {
    if s.pc == Failing || s.pc == Done || s.pc.FlushingTerminal? || s.pc.Finishing? then 0
    else |s.bridge.queue| + (if s.pc.Writing? then 1 else 0) + 1
  }

  lemma {:induction false} WritesAreBounded(s: System, steps: seq<Step>)
    requires Inv(s) && s.bridge.state != Open && IsRun(s, steps)
    ensures Writes(s, steps) <= WritesDue(s) <= |s.bridge.queue| + 1 + |InFlight(s)|
    decreases |steps|
  {
    if |steps| > 0 {
      StepKeepsInv(s, steps[0]);
      StepFollows(s, steps[0]);
      WritesAreBounded(Do(s, steps[0]), steps[1..]);
    }
  }

  // ----- One producer, no close, no failure -----

  predicate NoBreaks(steps: seq<Step>) {
    forall k :: 0 <= k < |steps| ==> !steps[k].WriteBreaks? && !steps[k].FlushBreaks?
  }

  predicate NoClose(s: System) {
    && !s.broke && s.bridge.state != Disconnected
    && forall i, k :: 0 <= i < |s.calls| && 0 <= k < |s.calls[i]| ==> s.calls[i][k] != Close
  }

  lemma StepNoClose(s: System, step: Step)
    requires Inv(s) && NoClose(s) && Enabled(s, step) && !step.WriteBreaks? && !step.FlushBreaks?
    ensures NoClose(Do(s, step))
  {
    if step.Act? {
      assert s.calls[step.thread][0] != Close;
    }
  }

  lemma {:induction false} RunNoClose(s: System, steps: seq<Step>)
    requires Inv(s) && NoClose(s) && IsRun(s, steps) && NoBreaks(steps)
    ensures NoClose(After(s, steps))
    decreases |steps|
  {
    if |steps| > 0 {
      StepKeepsInv(s, steps[0]);
      StepNoClose(s, steps[0]);
      RunNoClose(Do(s, steps[0]), steps[1..]);
    }
  }

  lemma {:induction false} FromOnlySender(accepted: seq<Event>, senders: seq<nat>, i: nat)
    requires |accepted| == |senders|
    requires forall k :: 0 <= k < |senders| ==> senders[k] == i
    ensures From(accepted, senders, i) == accepted
  {
    var n := |accepted| - 1;
    if n >= 0 {
      FromOnlySender(accepted[..n], senders[..n], i);
      assert accepted == accepted[..n] + [accepted[n]];
    }
  }

  function Everything(calls: seq<Call>): seq<Event> {
    Body(calls) + match EndCall(calls)
                  case None => []
                  case Some(c) => match TerminalOf(c) case Some(t) => [t] case None => []
  }

  // Once the consumer has returned, the producer ended the stream and
  // everything it sent is on the wire.
  lemma LoneProducerEnded(s: System, calls: seq<Call>)
    requires Core(s) && Scripted(s) && s.script == [calls]
    requires s.pc == Done && !s.broke && s.bridge.state != Disconnected
    ensures s.ended && EndCall(calls).Some? && TerminalOf(EndCall(calls).value) == s.bridge.terminal
    ensures s.bridge.terminal.Some? && s.bridge.state == Outcome(s.bridge.terminal) && Whole(s) == Everything(calls)
  {
    assert s.owner == Some(0);
    assert ThreadOk(s, 0);
    FromOnlySender(s.accepted, s.senders, 0);
  }

  lemma LoneProducerRun(capacity: int, calls: seq<Call>, steps: seq<Step>)
    requires Close !in calls && NoBreaks(steps)
    requires IsRun(Init(capacity, [calls]), steps)
    ensures var s := After(Init(capacity, [calls]), steps);
      Inv(s) && s.script == [calls] && !s.broke && s.bridge.state != Disconnected
  {
    var s0 := Init(capacity, [calls]);
    InitInv(capacity, [calls]);
    RunKeepsInv(s0, steps);
    RunFollows(s0, steps);
    RunNoClose(s0, steps);
  }

  lemma WholeIsSeen(s: System, all: seq<Event>)
    requires WireOk(s) && |s.torn| == 0 && Whole(s) == all
    ensures s.wire == Frames(all) && ClientSees(Bytes(s.wire)) == Sent(all)
  {
    assert Frames(all) + [] == Frames(all);
    BytesOfFrames(all);
    ClientDecodesStream(all, Event(Progress, Null), "");
  }

  // Exactly what the producer sent: every non-empty event in order, then its
  // terminal event, and a final state that says which one it was.
  lemma SingleProducerIsExact(capacity: int, calls: seq<Call>, steps: seq<Step>)
    requires Close !in calls && NoBreaks(steps)
    requires IsRun(Init(capacity, [calls]), steps)
    ensures var s := After(Init(capacity, [calls]), steps);
      s.pc == Done ==>
        && EndCall(calls).Some? && TerminalOf(EndCall(calls).value).Some?
        && s.wire == Frames(Everything(calls)) && ClientSees(Bytes(s.wire)) == Sent(Everything(calls))
        && s.bridge.state == Outcome(TerminalOf(EndCall(calls).value))
  {
    LoneProducerRun(capacity, calls, steps);
    var s := After(Init(capacity, [calls]), steps);
    if s.pc == Done {
      LoneProducerEnded(s, calls);
      WholeIsSeen(s, Everything(calls));
    }
  }

  // ----- What the client decodes -----

  function ChunkText(c: Chunk): string {
    match c
    case Entire(e) => Frame(e)
    case Cut(e, kept) => if kept < |Frame(e)| then Frame(e)[..kept] else Frame(e)
  }

  function Bytes(wire: seq<Chunk>): string {
    if |wire| == 0 then "" else Bytes(wire[..|wire| - 1]) + ChunkText(wire[|wire| - 1])
  }

  lemma {:induction false} BytesOfFrames(events: seq<Event>)
    ensures Bytes(Frames(events)) == Stream(events)
  {
    if |events| > 0 {
      var n := |events| - 1;
      BytesOfFrames(events[..n]);
      assert Frames(events)[..n] == Frames(events[..n]);
    }
  }

  lemma BytesThenCut(events: seq<Event>, c: Chunk)
    ensures Bytes(Frames(events) + [c]) == Stream(events) + ChunkText(c)
  {
    BytesOfFrames(events);
    assert (Frames(events) + [c])[..|events|] == Frames(events);
  }

  // In every reachable state the client has decoded a prefix of the accepted
  // events followed by the terminal event.
  lemma ClientDecodesAPrefix(s: System) returns (seen: seq<Event>)
    requires Inv(s)
    ensures seen <= s.accepted + TerminalSeq(s)
    ensures ClientSees(Bytes(s.wire)) == Sent(seen)
  {
    if |s.torn| == 0 {
      seen := Whole(s);
      WholeIsPrefix(s);
      WholeIsSeen(s, seen);
    } else {
      TornIsNext(s);
      seen := CutSeen(s.written, s.torn[0]);
    }
  }

  lemma WholeIsPrefix(s: System)
    requires Fifo(s) && TerminalLast(s)
    ensures Whole(s) <= s.accepted + TerminalSeq(s)
  {
    if s.ended {
      assert Whole(s) == s.accepted + TerminalSeq(s);
    } else {
      assert s.accepted == s.written + (InFlight(s) + s.bridge.queue);
    }
  }

  lemma CutSeen(events: seq<Event>, c: Chunk) returns (seen: seq<Event>)
    ensures seen == events || seen == events + [c.event]
    ensures ClientSees(Bytes(Frames(events) + [c])) == Sent(seen)
  {
    BytesThenCut(events, c);
    if ChunkText(c) == Frame(c.event) {
      seen := events + [c.event];
      StreamSnoc(events, c.event);
      ClientDecodesStream(seen, c.event, "");
    } else {
      seen := events;
      ClientDecodesStream(events, c.event, ChunkText(c));
    }
  }

  lemma StreamSnoc(events: seq<Event>, e: Event)
    ensures Stream(events + [e]) == Stream(events) + Frame(e)
  {
    assert (events + [e])[..|events|] == events;
  }

  lemma TornIsNext(s: System)
    requires Inv(s) && |s.torn| > 0
    ensures s.wire == Frames(s.written) + [s.torn[0]]
    ensures s.written + [s.torn[0].event] <= s.accepted + TerminalSeq(s)
  {
    assert s.torn == [s.torn[0]] && Whole(s) == s.written;
  }

  // ----- Races the lifecycle allows -----

  // The consumer has read the terminal event and not yet recorded the outcome.
  predicate PastTerminalRead(pc: Pc) { pc.WritingTerminal? || pc.FlushingTerminal? || pc.Finishing? }

  lemma DisconnectedStep(s: System, step: Step)
    requires Core(s) && Enabled(s, step)
    requires s.bridge.state == Disconnected && !PastTerminalRead(s.pc)
    ensures Do(s, step).bridge.state == Disconnected && !PastTerminalRead(Do(s, step).pc)
  {
    if step.Act? { DisconnectedAct(s, step.thread); }
  }

  lemma DisconnectedAct(s: System, i: nat)
    requires Enabled(s, Act(i)) && s.bridge.state == Disconnected
    ensures Do(s, Act(i)).bridge == s.bridge && Do(s, Act(i)).pc == s.pc
  {
  }

  lemma {:induction false} DisconnectedStays(s: System, steps: seq<Step>)
    requires Inv(s) && IsRun(s, steps)
    requires s.bridge.state == Disconnected && !PastTerminalRead(s.pc)
    ensures After(s, steps).bridge.state == Disconnected
    decreases |steps|
  {
    if |steps| > 0 {
      StepKeepsInv(s, steps[0]);
      DisconnectedStep(s, steps[0]);
      DisconnectedStays(Do(s, steps[0]), steps[1..]);
    }
  }

  lemma NoBreaksFirst(steps: seq<Step>)
    requires |steps| > 0
    ensures NoBreaks(steps) <==> !steps[0].WriteBreaks? && !steps[0].FlushBreaks? && NoBreaks(steps[1..])
  {
    assert steps == [steps[0]] + steps[1..];
  }

  lemma {:induction false} BrokeIff(s: System, steps: seq<Step>)
    requires IsRun(s, steps)
    ensures After(s, steps).broke <==> s.broke || !NoBreaks(steps)
    decreases |steps|
  {
    if |steps| > 0 {
      NoBreaksFirst(steps);
      BreakSetsBroke(s, steps[0]);
      BrokeIff(Do(s, steps[0]), steps[1..]);
    }
  }

  lemma BreakSetsBroke(s: System, step: Step)
    requires Enabled(s, step)
    ensures Do(s, step).broke <==> s.broke || step.WriteBreaks? || step.FlushBreaks?
  {
  }

  // From there on the terminal event is written, unless the connection breaks.
  predicate EndingOrBroken(s: System) { PastTerminalRead(s.pc) || s.broke || (s.pc == Done && s.ended) }

  lemma {:induction false} EndingGoesOn(s: System, steps: seq<Step>)
    requires Core(s) && IsRun(s, steps) && EndingOrBroken(s)
    ensures EndingOrBroken(After(s, steps))
    decreases |steps|
  {
    if |steps| > 0 {
      StepKeepsCore(s, steps[0]);
      EndingStep(s, steps[0]);
      EndingGoesOn(Do(s, steps[0]), steps[1..]);
    }
  }

  lemma EndingStep(s: System, step: Step)
    requires Core(s) && Enabled(s, step) && EndingOrBroken(s)
    ensures EndingOrBroken(Do(s, step))
  {
  }

  lemma StepKeepsCore(s: System, step: Step)
    requires Core(s) && Enabled(s, step)
    ensures Core(Do(s, step))
  {
    match step {
      case Act(i) => ActCore(s, i);
      case Drain => DrainCore(s);
      case _ => BreakCore(s, step);
    }
  }

  // A close sticks if and only if the consumer had not yet read the terminal
  // event, or the connection breaks afterwards; otherwise it is overwritten by
  // the outcome that event stands for.
  lemma CloseSticksIff(s: System, steps: seq<Step>)
    requires Inv(s) && IsRun(s, steps)
    requires s.bridge.state == Disconnected && s.pc != Done
    requires After(s, steps).pc == Done
    ensures After(s, steps).bridge.state == Disconnected <==> !PastTerminalRead(s.pc) || !NoBreaks(steps)
    ensures After(s, steps).bridge.state in {Disconnected, Outcome(s.bridge.terminal)}
  {
    if PastTerminalRead(s.pc) {
      RunKeepsInv(s, steps);
      RunFollows(s, steps);
      BrokeIff(s, steps);
      EndingGoesOn(s, steps);
    } else {
      DisconnectedStays(s, steps);
    }
  }

  lemma LeavingOpenAcceptsNothing(s: System, step: Step)
    requires Enabled(s, step) && s.bridge.state == Open && Do(s, step).bridge.state != Open
    ensures Do(s, step).accepted == s.accepted && Do(s, step).senders == s.senders
  {
  }

  lemma AppendsNothing(a: seq<Event>, b: seq<Event>)
    ensures a == a + b <==> b == []
  {
    assert |a + b| == |a| + |b|;
  }

  // Let `step` be the one that leaves OPEN. However the run goes on, all that a
  // thread offers is accepted if and only if it has nothing left to offer then;
  // blocked or not yet called, the rest is dropped.
  lemma DroppedIff(s: System, step: Step, steps: seq<Step>, i: nat)
    requires Inv(s) && s.bridge.state == Open && i < |s.script|
    requires Enabled(s, step) && Do(s, step).bridge.state != Open && IsRun(Do(s, step), steps)
    ensures var t := After(Do(s, step), steps);
      && |t.accepted| == |t.senders| && |s.script| == |s.calls| && t.script == s.script
      && (From(t.accepted, t.senders, i) == Body(s.script[i]) <==> Body(s.calls[i]) == [])
  {
    StepKeepsInv(s, step);
    StepFollows(s, step);
    LeavingOpenAcceptsNothing(s, step);
    RunFollows(Do(s, step), steps);
    assert ThreadOk(s, i);
    AppendsNothing(From(s.accepted, s.senders, i), Body(s.calls[i]));
  }

  lemma OneMore(s: System, step: Step, rest: seq<Step>)
    requires Enabled(s, step) && IsRun(Do(s, step), rest)
    ensures IsRun(s, [step] + rest) && After(s, [step] + rest) == After(Do(s, step), rest)
  {
    assert ([step] + rest)[1..] == rest;
  }

  // The consumer's three steps from reading the terminal event to recording it.
  lemma ThreeDrains(s: System)
    requires s.pc.WritingTerminal?
    ensures IsRun(s, Drains(3)) && After(s, Drains(3)).pc == Done
    ensures After(s, Drains(3)).bridge.state == Outcome(Some(s.pc.event))
  {
    var s1 := Do(s, Drain);
    var s2 := Do(s1, Drain);
    var s3 := Do(s2, Drain);
    assert IsRun(s3, Drains(0)) && After(s3, Drains(0)) == s3;
    DrainsStep(s2, 0);
    DrainsStep(s1, 1);
    DrainsStep(s, 2);
  }

  lemma TerminalIsRead()
    ensures var s0 := Init(0, [[SendComplete(Null), Close]]);
      && Enabled(s0, Act(0)) && Enabled(Do(s0, Act(0)), Drain) && Enabled(Do(Do(s0, Act(0)), Drain), Drain)
      && var s := Do(Do(Do(s0, Act(0)), Drain), Drain);
         s.pc == WritingTerminal(Event(Complete, Null)) && s.bridge.state == TerminalPending && s.calls == [[Close]]
  {
    assert [SendComplete(Null), Close][1..] == [Close];
  }

  lemma CloseNow(s: System, i: nat)
    requires i < |s.calls| && |s.calls[i]| > 0 && s.calls[i][0] == Close && s.bridge.state == TerminalPending
    ensures Enabled(s, Act(i)) && Do(s, Act(i)).bridge.state == Disconnected && Do(s, Act(i)).pc == s.pc
    ensures IsRun(s, [Act(i)]) && After(s, [Act(i)]) == Do(s, Act(i))
  {
    assert [Act(i)][1..] == [];
  }

  // One that is overwritten: the worker completes the stream and closes it
  // after the consumer has read the terminal event, and the run ends COMPLETE.
  lemma LateCloseIsOverwritten()
    ensures var s0 := Init(0, [[SendComplete(Null), Close]]);
      var closing := [Act(0)] + ([Drain] + ([Drain] + [Act(0)]));
      && IsRun(s0, closing) && After(s0, closing).bridge.state == Disconnected
      && IsRun(After(s0, closing), Drains(3))
      && After(After(s0, closing), Drains(3)).pc == Done
      && After(After(s0, closing), Drains(3)).bridge.state == Completed
  {
    var s0 := Init(0, [[SendComplete(Null), Close]]);
    TerminalIsRead();
    var s1 := Do(s0, Act(0));
    var s2 := Do(s1, Drain);
    var s3 := Do(s2, Drain);
    CloseNow(s3, 0);
    var s4 := Do(s3, Act(0));
    OneMore(s2, Drain, [Act(0)]);
    OneMore(s1, Drain, [Drain] + [Act(0)]);
    OneMore(s0, Act(0), [Drain] + ([Drain] + [Act(0)]));
    ThreeDrains(s4);
  }

  // A delta blocked on a full queue is dropped when another thread ends the
  // stream first, so a thread's events need not all be accepted.
  lemma BlockedDeltaCanBeDropped()
    ensures var delta := SendDelta("x", "", "");
      var script := [[SendProgress(Null), delta], [SendComplete(Null)]];
      var steps := [Act(0), Act(1), Act(0)];
      && IsRun(Init(1, script), steps)
      && Blocked(After(Init(1, script), steps[..1]).bridge, delta)
      && After(Init(1, script), steps).accepted == [Event(Progress, Null)]
      && |Body(script[0])| == 2
  {
    var delta := SendDelta("x", "", "");
    var script := [[SendProgress(Null), delta], [SendComplete(Null)]];
    var steps := [Act(0), Act(1), Act(0)];
    var s0 := Init(1, script);
    var s1 := Do(s0, Act(0));
    var s2 := Do(s1, Act(1));
    var s3 := Do(s2, Act(0));
    assert |"x"| == 1;
    assert steps[1..] == [Act(1), Act(0)] && steps[1..][1..] == [Act(0)] && steps[1..][1..][1..] == [];
    assert steps[..1] == [Act(0)] && steps[..1][1..] == [];
    assert After(s0, steps) == After(s1, steps[1..]) == After(s2, steps[1..][1..]) == After(s3, []);
    assert After(s0, steps[..1]) == After(s1, []);
    assert script[0][1..] == [delta] && script[0][1..][1..] == [];
    assert Body([delta][1..]) == [] && |Body([delta])| == 1;
    assert Body(script[0]) == [Event(Progress, Null)] + Body(script[0][1..]);
  }
}
