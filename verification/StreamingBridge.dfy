// The run-scoped bridge between worker threads and the response writer. Every
// region of code that holds the lock is one step, given first as a function on
// the guarded fields and then as the method that performs it.
module StreamingBridge {
  import opened Foundation
  import opened JsonText
  import opened SseFrames

  datatype StreamState = Open | TerminalPending | Completed | Errored | Disconnected

  // The fields guarded by the lock. A capacity of zero or less is no bound.
  datatype Bridge = Bridge(capacity: int, state: StreamState, queue: seq<Event>, terminal: Option<Event>)

  predicate Full(b: Bridge) { 0 < b.capacity <= |b.queue| }

  datatype Offered = Waits | Dropped | Accepted

  // One pass of the producers' wait loop followed by the enqueue.
  function Offer(b: Bridge, e: Event): (Bridge, Offered) {
    if b.state == Open && Full(b) then (b, Waits)
    else if b.state != Open then (b, Dropped)
    else (b.(queue := b.queue + [e]), Accepted)
  }

  function SetTerminal(b: Bridge, e: Event): Bridge {
    if b.state != Open then b else b.(terminal := Some(e), state := TerminalPending)
  }

  function Shut(b: Bridge): Bridge {
    if b.state == Open || b.state == TerminalPending then b.(state := Disconnected) else b
  }

  datatype Taken = WaitMore | Item(event: Event) | QueueDone | Stop

  // One pass of the consumer's wait loop followed by its three-way branch.
  function TakeNext(b: Bridge): (Bridge, Taken) {
    if |b.queue| == 0 && b.state == Open then (b, WaitMore)
    else if |b.queue| > 0 then (b.(queue := b.queue[1..]), Item(b.queue[0]))
    else if b.state == TerminalPending then (b, QueueDone)
    else (b, Stop)
  }

  function PendingTerminal(b: Bridge): Option<Event> {
    if b.state == TerminalPending then b.terminal else None
  }

  // The last lock region of the consumer assigns the state unconditionally.
  function Finish(b: Bridge, t: Event): Bridge {
    b.(state := if t.kind == Complete then Completed else Errored)
  }

  function Disconnect(b: Bridge): Bridge { b.(state := Disconnected) }

  function DeltaPayload(text: string, provider: string, model: string): Json {
    Obj([Field("content", Str(text)), Field("provider", Str(provider)), Field("model_name", Str(model))])
  }

  // What a client finds in the event of a delta.
  predicate Says(e: Event, text: string, provider: string, model: string) {
    && e.kind == Delta
    && Member(e.data, "content") == Some(Str(text))
    && Member(e.data, "provider") == Some(Str(provider))
    && Member(e.data, "model_name") == Some(Str(model))
  }

  lemma ThreeMembers(a: Field, b: Field, c: Field)
    requires a.name != b.name && a.name != c.name && b.name != c.name
    ensures Lookup([a, b, c], a.name) == Some(a.value)
    ensures Lookup([a, b, c], b.name) == Some(b.value)
    ensures Lookup([a, b, c], c.name) == Some(c.value)
  {
    assert [a, b, c][..2] == [a, b] && [a, b][..1] == [a];
    assert Lookup([a], a.name) == Some(a.value);
    assert Lookup([a, b], a.name) == Lookup([a], a.name) && Lookup([a, b], b.name) == Some(b.value);
  }

  lemma DeltaSays(text: string, provider: string, model: string)
    ensures Says(Event(Delta, DeltaPayload(text, provider, model)), text, provider, model)
  {
    var content, source, name := Str(text), Str(provider), Str(model);
    assert "content"[0] != "provider"[0] && "content"[0] != "model_name"[0] && "provider"[0] != "model_name"[0];
    ThreeMembers(Field("content", content), Field("provider", source), Field("model_name", name));
  }

  // What the consumer still owes the writer once the producers are quiet.
  function Due(b: Bridge): seq<Event> {
    b.queue + match PendingTerminal(b) case Some(t) => [t] case None => []
  }

  // The first n events arrived whole, and nothing after them.
  ghost predicate SentWhole(before: string, due: seq<Event>, n: nat, after: string)
    requires n <= |due|
  {
    after == before + Stream(due[..n])
  }

  // Some initial part of the frame arrived.
  ghost predicate Torn(before: string, frame: string, after: string) {
    exists k :: 0 <= k <= |frame| && after == before + frame[..k]
  }

  // The first n events arrived whole, the next one up to some character.
  ghost predicate TornAfter(before: string, due: seq<Event>, n: nat, after: string)
    requires n < |due|
  {
    Torn(before + Stream(due[..n]), Frame(due[n]), after)
  }

  datatype Drained = Running | Waiting | Finished | Stopped | Broke

  // The client's end of the socket: it takes `allowed` more writes, then
  // breaks after at most `torn` characters of the next one.
  class Writer {
    var received: string
    var allowed: nat
    const torn: nat

    constructor (allowed: nat, torn: nat)
      ensures received == "" && this.allowed == allowed && this.torn == torn
    {
      received := "";
      this.allowed := allowed;
      this.torn := torn;
    }

    method Write(frame: string) returns (ok: bool)
      modifies this
      ensures ok == (old(allowed) > 0)
      ensures ok ==> received == old(received) + frame && allowed == old(allowed) - 1
      ensures !ok ==> allowed == 0 && Torn(old(received), frame, received)
    {
      if allowed > 0 {
        received := received + frame;
        allowed := allowed - 1;
        ok := true;
      } else {
        var k := if torn <= |frame| then torn else |frame|;
        received := received + frame[..k];
        ok := false;
      }
    }
  }

  class StreamingChatBridge {
    var maxQueueSize: int
    var state: StreamState
    var queue: seq<Event>
    var terminalEvent: Option<Event>

    ghost function View(): Bridge
      reads this
    {
      Bridge(maxQueueSize, state, queue, terminalEvent)
    }

    constructor (maxQueueSize: int)
      ensures View() == Bridge(maxQueueSize, Open, [], None)
    {
      this.maxQueueSize := maxQueueSize;
      state := Open;
      queue := [];
      terminalEvent := None;
    }

    method SendProgress(event: Json) returns (r: Offered)
      modifies this
      ensures (View(), r) == Offer(old(View()), Event(Progress, event))
    {
      r := Enqueue(Event(Progress, event));
    }

    // An empty delta returns before the lock is taken.
    method SendDelta(text: string, provider: string, model: string) returns (r: Offered)
      modifies this
      ensures text == "" ==> View() == old(View()) && r == Dropped
      ensures text != "" ==> (View(), r) == Offer(old(View()), Event(Delta, DeltaPayload(text, provider, model)))
      ensures r == Accepted <==> text != "" && old(state) == Open && !Full(old(View()))
      ensures r == Accepted ==>
        && |queue| == |old(queue)| + 1 && queue[..|old(queue)|] == old(queue)
        && Says(queue[|old(queue)|], text, provider, model)
    {
      if text == "" { return Dropped; }
      DeltaSays(text, provider, model);
      r := Enqueue(Event(Delta, DeltaPayload(text, provider, model)));
    }

    method Enqueue(e: Event) returns (r: Offered)
      modifies this
      ensures (View(), r) == Offer(old(View()), e)
    {
      if state == Open && 0 < maxQueueSize && |queue| >= maxQueueSize {
        return Waits;
      }
      if state != Open {
        return Dropped;
      }
      queue := queue + [e];
      r := Accepted;
    }

    method SendComplete(payload: Json)
      modifies this
      ensures View() == SetTerminal(old(View()), Event(Complete, payload))
    {
      if state != Open { return; }
      terminalEvent := Some(Event(Complete, payload));
      state := TerminalPending;
    }

    // The error arrives sanitised.
    method SendError(error: Json)
      modifies this
      ensures View() == SetTerminal(old(View()), Event(Error, error))
    {
      if state != Open { return; }
      terminalEvent := Some(Event(Error, error));
      state := TerminalPending;
    }

    method Close()
      modifies this
      ensures View() == Shut(old(View()))
    {
      if state == Open || state == TerminalPending {
        state := Disconnected;
      }
    }

    method Take() returns (r: Taken)
      modifies this
      ensures (View(), r) == TakeNext(old(View()))
    {
      if |queue| == 0 && state == Open {
        return WaitMore;
      }
      if |queue| > 0 {
        r := Item(queue[0]);
        queue := queue[1..];
      } else if state == TerminalPending {
        r := QueueDone;
      } else {
        r := Stop;
      }
    }

    // Take the next item, print it and write it outside the lock.
    method DrainOne(w: Writer) returns (end: Drained)
      modifies this, w
      ensures terminalEvent == old(terminalEvent) && maxQueueSize == old(maxQueueSize)
      ensures |old(queue)| == 0 ==>
        && View() == old(View()) && w.received == old(w.received) && w.allowed == old(w.allowed)
        && end == (if state == Open then Waiting else if state == TerminalPending then Finished else Stopped)
      ensures |old(queue)| > 0 ==>
        && queue == old(queue)[1..]
        && end == (if old(w.allowed) > 0 then Running else Broke)
        && state == (if end == Broke then Disconnected else old(state))
        && (end == Running ==>
              w.received == old(w.received) + Frame(old(queue)[0]) && w.allowed == old(w.allowed) - 1)
        && (end == Broke ==>
              w.allowed == 0 && Torn(old(w.received), Frame(old(queue)[0]), w.received))
    {
      var item := Take();
      match item
      case WaitMore => return Waiting;
      case QueueDone => return Finished;
      case Stop => return Stopped;
      case Item(event) =>
        var ok := w.Write(Frame(event));
        if !ok {
          state := Disconnected;
          return Broke;
        }
        return Running;
    }

    // The first loop of the drain: the queue in FIFO order.
    method DrainQueue(w: Writer) returns (end: Drained)
      modifies this, w
      ensures terminalEvent == old(terminalEvent) && maxQueueSize == old(maxQueueSize)
      ensures old(w.allowed) >= |old(queue)| ==>
        && queue == [] && state == old(state) && w.allowed == old(w.allowed) - |old(queue)|
        && end == (if state == Open then Waiting else if state == TerminalPending then Finished else Stopped)
        && SentWhole(old(w.received), old(queue), |old(queue)|, w.received)
      ensures old(w.allowed) < |old(queue)| ==>
        && queue == old(queue)[old(w.allowed) + 1..] && state == Disconnected && end == Broke
        && TornAfter(old(w.received), old(queue), old(w.allowed), w.received)
    {
      ghost var q, before := queue, w.received;
      ghost var n := 0;
      NothingSent(before, q);
      end := Running;
      while true
        invariant 0 <= n <= |q| && queue == q[n..]
        invariant state == old(state) && terminalEvent == old(terminalEvent) && maxQueueSize == old(maxQueueSize)
        invariant w.allowed + n == old(w.allowed)
        invariant SentWhole(before, q, n, w.received)
        decreases |queue|
      {
        ghost var mid := w.received;
        end := DrainOne(w);
        assert n < |q| ==> q[n..][0] == q[n] && q[n..][1..] == q[n + 1..];
        NextOutcome(before, q, n, mid, w.received);
        if end != Running { return; }
        n := n + 1;
      }
    }

    // The consumer while no other thread runs. It returns `waiting` where the
    // source would wait for one. If the connection holds, the writer receives
    // the whole queue in order and then a pending terminal event; if it breaks,
    // a prefix of that, and the bridge is disconnected.
    method DrainToWriter(w: Writer) returns (waiting: bool)
      modifies this, w
      ensures maxQueueSize == old(maxQueueSize) && terminalEvent == old(terminalEvent)
      ensures old(w.allowed) >= |Due(old(View()))| ==>
        && queue == [] && SentWhole(old(w.received), Due(old(View())), |Due(old(View()))|, w.received)
        && (waiting <==> old(state) == Open)
        && var t := PendingTerminal(old(View()));
           state == if t.Some? then Finish(old(View()), t.value).state else old(state)
      ensures old(w.allowed) < |Due(old(View()))| ==>
        && state == Disconnected && !waiting
        && TornAfter(old(w.received), Due(old(View())), old(w.allowed), w.received)
        && queue == if old(w.allowed) < |old(queue)| then old(queue)[old(w.allowed) + 1..] else []
    {
      ghost var q, due, before := queue, Due(View()), w.received;
      var end := DrainQueue(w);
      DueStartsWithQueue(before, q, due, w.received);
      waiting := end == Waiting;
      if end != Finished || terminalEvent.None? { return; }
      ghost var mid := w.received;
      var ok := w.Write(Frame(terminalEvent.value));
      if !ok {
        state := Disconnected;
        FrameTorn(before, due, |q|, mid, w.received);
      } else {
        FrameSent(before, due, |q|, mid, w.received);
        state := if terminalEvent.value.kind == Complete then Completed else Errored;
      }
    }
  }

  lemma NothingSent(before: string, due: seq<Event>)
    ensures SentWhole(before, due, 0, before)
  {
    assert before + "" == before;
  }

  lemma FrameSent(before: string, due: seq<Event>, n: nat, mid: string, after: string)
    requires n < |due| && SentWhole(before, due, n, mid)
    requires after == mid + Frame(due[n])
    ensures SentWhole(before, due, n + 1, after)
  {
    assert due[..n + 1][..n] == due[..n];
    Regroup(before, Stream(due[..n]), Frame(due[n]));
  }

  lemma FrameTorn(before: string, due: seq<Event>, n: nat, mid: string, after: string)
    requires n < |due| && SentWhole(before, due, n, mid)
    requires Torn(mid, Frame(due[n]), after)
    ensures TornAfter(before, due, n, after)
  {
  }

  // What one more frame, whole or torn, adds to what was sent.
  lemma NextOutcome(before: string, q: seq<Event>, n: nat, mid: string, after: string)
    requires n <= |q| && SentWhole(before, q, n, mid)
    ensures n < |q| && after == mid + Frame(q[n]) ==> SentWhole(before, q, n + 1, after)
    ensures n < |q| && Torn(mid, Frame(q[n]), after) ==> TornAfter(before, q, n, after)
  {
    if n < |q| && after == mid + Frame(q[n]) { FrameSent(before, q, n, mid, after); }
    if n < |q| && Torn(mid, Frame(q[n]), after) { FrameTorn(before, q, n, mid, after); }
  }

  lemma DueStartsWithQueue(before: string, q: seq<Event>, due: seq<Event>, after: string)
    requires q <= due
    ensures forall n | 0 <= n <= |q| :: SentWhole(before, q, n, after) ==> SentWhole(before, due, n, after)
    ensures forall n | 0 <= n < |q| :: TornAfter(before, q, n, after) ==> TornAfter(before, due, n, after)
  {
    assert forall n | 0 <= n <= |q| :: q[..n] == due[..n];
  }
}
