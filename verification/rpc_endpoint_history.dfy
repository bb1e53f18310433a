// What one end of packages/rpc/src/persistent-protocol.ts is after any inputs, told by the inputs alone: what the
// listener was given, what is queued, and exactly when the session is saturated, silent or given up.

module EndpointHistory {
  import opened Buffers
  import opened Framing
  import opened PersistentProtocols

  // -- What the inputs say --

  // The bodies that the message listener was given.
  function Told(events: seq<Event>): seq<Bytes> {
    if events == [] then []
    else var last := events[|events| - 1];
         Told(events[..|events| - 1]) + if last.Delivered? then [last.body] else []
  }

  lemma {:induction false} ToldMore(events: seq<Event>, e: Event)
    ensures Told(events + [e]) == Told(events) + if e.Delivered? then [e.body] else []
  {
    assert (events + [e])[..|events|] == events;
  }

  // The Regular frames that arrived.
  function Arrived(inputs: seq<Input>): seq<Message> {
    if inputs == [] then []
    else var last := inputs[|inputs| - 1];
         Arrived(inputs[..|inputs| - 1]) + if last.InFrame? && last.m.kind == 1 then [last.m] else []
  }

  function BodiesOf(ms: seq<Message>): seq<Bytes> {
    seq(|ms|, i requires 0 <= i < |ms| => ms[i].data)
  }

  // When a frame of any kind was last heard.
  function LastHeard(inputs: seq<Input>, start: int): int {
    if inputs == [] then start
    else var last := inputs[|inputs| - 1];
         if last.InFrame? then last.now else LastHeard(inputs[..|inputs| - 1], start)
  }

  datatype Sending = Sending(body: Bytes, at: int)

  function Sends(inputs: seq<Input>): seq<Sending> {
    if inputs == [] then []
    else var last := inputs[|inputs| - 1];
         Sends(inputs[..|inputs| - 1]) + if last.InSend? then [Sending(last.body, last.now)] else []
  }

  function After(l: Limits, start: int, inputs: seq<Input>): Endpoint {
    Run(Initial(start), l, inputs)
  }

  lemma {:induction false} OneMoreInput(l: Limits, start: int, inputs: seq<Input>)
    requires inputs != []
    ensures var n := |inputs| - 1;
            After(l, start, inputs) == Step(After(l, start, inputs[..n]), l, inputs[n])
  {
    hide Step;
  }

  // -- What the listener was given --

  // Exactly the bodies of the Regular frames that arrived, in order; the ack is the id of the last of them.
  lemma {:induction false} ToldExactlyWhatArrived(l: Limits, start: int, inputs: seq<Input>)
    ensures var e, ms := After(l, start, inputs), Arrived(inputs);
      && Told(e.events) == BodiesOf(ms)
      && e.incomingAckId == (if ms == [] then 0 else ms[|ms| - 1].id)
      && e.lastAckTime == LastHeard(inputs, start)
    decreases |inputs|
  {
    hide After, Step, Told, BodiesOf;
    if inputs == [] {
      NothingTold(l, start);
    } else {
      var n := |inputs| - 1;
      ToldExactlyWhatArrived(l, start, inputs[..n]);
      OneMoreInput(l, start, inputs);
      StepTells(After(l, start, inputs[..n]), l, inputs[n]);
      BodiesOfMore(Arrived(inputs[..n]), inputs[n]);
    }
  }

  lemma {:induction false} NothingTold(l: Limits, start: int)
    ensures After(l, start, []) == Initial(start) && Told([]) == BodiesOf([]) == []
  {
  }

  lemma {:induction false} BodiesOfMore(ms: seq<Message>, input: Input)
    ensures BodiesOf(ms + []) == BodiesOf(ms) + []
    ensures input.InFrame? ==> BodiesOf(ms + [input.m]) == BodiesOf(ms) + [input.m.data]
  {
    assert ms + [] == ms && BodiesOf(ms) + [] == BodiesOf(ms);
  }

  lemma {:induction false} StepTells(e: Endpoint, l: Limits, input: Input)
    ensures var e' := Step(e, l, input);
            var heard := input.InFrame? && input.m.kind == 1;
      && Told(e'.events) == Told(e.events) + (if heard then [input.m.data] else [])
      && e'.incomingAckId == (if heard then input.m.id else e.incomingAckId)
      && e'.lastAckTime == (if input.InFrame? then input.now else e.lastAckTime)
  {
    hide Told, BodyBytes, DropAcked;
    forall x | x in {Saturated, Drained, Abandoned, PeerDisconnected, SocketClosed}
      ensures Told(e.events + [x]) == Told(e.events)
    {
      ToldMore(e.events, x);
      assert Told(e.events) + [] == Told(e.events);
    }
    ToldMore(e.events + [SocketClosed], Abandoned);
    ToldMore(e.events + [Drained], PeerDisconnected);
    if input.InFrame? {
      ToldMore(e.events, Delivered(input.m.data));
      ToldMore(e.events + [Drained], Delivered(input.m.data));
    }
  }

  // -- What is queued --

  // The queue holds sendings as they were made, numbered without a gap up to the last one, and their bytes are counted.
  ghost predicate QueuedAsSent(e: Endpoint, sends: seq<Sending>) {
    && e.outgoingMsgId == |sends|
    && e.unackBytes == BodyBytes(e.unacked)
    && QueueConsecutive(e)
    && forall k | 0 <= k < |e.unacked| ::
         var sending := sends[e.unacked[k].msg.id - 1];
         e.unacked[k].msg.data == sending.body && e.unacked[k].queuedAt == sending.at
  }

  lemma {:induction false} QueueIsWhatWasSent(l: Limits, start: int, inputs: seq<Input>)
    ensures QueuedAsSent(After(l, start, inputs), Sends(inputs))
    decreases |inputs|
  {
    hide QueuedAsSent;
    if inputs == [] {
      NothingQueued(start);
    } else {
      var n := |inputs| - 1;
      QueueIsWhatWasSent(l, start, inputs[..n]);
      OneMoreInput(l, start, inputs);
      StepQueues(After(l, start, inputs[..n]), l, inputs[n], Sends(inputs[..n]));
    }
  }

  lemma {:induction false} NothingQueued(start: int)
    ensures QueuedAsSent(Initial(start), [])
  {
  }

  lemma {:induction false} StepQueues(e: Endpoint, l: Limits, input: Input, sends: seq<Sending>)
    requires QueuedAsSent(e, sends)
    ensures QueuedAsSent(Step(e, l, input), sends + if input.InSend? then [Sending(input.body, input.now)] else [])
  {
    hide BodyBytes, DropAcked, QueuedAsSent;
    assert sends + [] == sends;
    var e' := Step(e, l, input);
    if input.InSend? {
      SendQueues(e, l, input.body, input.now, sends);
    } else if input.InFrame? {
      AckQueues(e, l, input.m.ack, sends);
      SameQueue(ProcessAck(e, l, input.m.ack), e', sends);
    } else {
      SameQueue(e, e', sends);
    }
  }

  lemma {:induction false} SameQueue(e: Endpoint, e': Endpoint, sends: seq<Sending>)
    requires QueuedAsSent(e, sends)
    requires e'.outgoingMsgId == e.outgoingMsgId && e'.unackBytes == e.unackBytes && e'.unacked == e.unacked
    ensures QueuedAsSent(e', sends)
  {
  }

  lemma {:induction false} SendQueues(e: Endpoint, l: Limits, body: Bytes, now: int, sends: seq<Sending>)
    requires QueuedAsSent(e, sends)
    ensures QueuedAsSent(Send(e, l, body, now), sends + [Sending(body, now)])
  {
    hide BodyBytes;
    var entry := Entry(Message(REGULAR, e.outgoingMsgId + 1, e.incomingAckId, body), now);
    BodyBytesAppend(e.unacked, [entry]);
    BodyBytesOfOne(entry);
    var e1 := e.(outgoingMsgId := e.outgoingMsgId + 1, unacked := e.unacked + [entry],
                 unackBytes := e.unackBytes + |body|);
    assert QueuedAsSent(e1, sends + [Sending(body, now)]);
    SameQueue(e1, Send(e, l, body, now), sends + [Sending(body, now)]);
  }

  lemma {:induction false} AckQueues(e: Endpoint, l: Limits, ack: nat, sends: seq<Sending>)
    requires QueuedAsSent(e, sends)
    ensures QueuedAsSent(ProcessAck(e, l, ack), sends)
  {
    hide BodyBytes, DropAcked;
    DropAckedIsSuffix(e.unacked, ack);
  }

  // -- Saturation --

  function Queued(l: Limits, start: int, inputs: seq<Input>): nat {
    BodyBytes(After(l, start, inputs).unacked)
  }

  // The n-th input was a send that left more than `high` bytes queued, but no more than `cap`, and no frame since has
  // left `low` or fewer.
  ghost predicate SaturatedSince(l: Limits, start: int, inputs: seq<Input>, n: nat) {
    && 1 <= n <= |inputs| && inputs[n - 1].InSend? && l.high < Queued(l, start, inputs[..n]) <= l.cap
    && forall m | n < m <= |inputs| && inputs[m - 1].InFrame? :: Queued(l, start, inputs[..m]) > l.low
  }

  lemma {:induction false} SaturatedSinceNext(l: Limits, start: int, inputs: seq<Input>, n: nat)
    requires inputs != []
    ensures var k := |inputs|;
            SaturatedSince(l, start, inputs, n) <==>
            if n == k then inputs[k - 1].InSend? && l.high < Queued(l, start, inputs) <= l.cap
            else SaturatedSince(l, start, inputs[..k - 1], n)
                 && (inputs[k - 1].InFrame? ==> Queued(l, start, inputs) > l.low)
    ensures SaturatedSince(l, start, inputs[..|inputs| - 1], n) ==> n < |inputs|
  {
    hide Queued;
    var k := |inputs|;
    var front := inputs[..k - 1];
    assert inputs[..k] == inputs;
    assert forall m | 1 <= m < k :: front[..m] == inputs[..m] && front[m - 1] == inputs[m - 1];
    if n < k && SaturatedSince(l, start, front, n) && (inputs[k - 1].InFrame? ==> Queued(l, start, inputs) > l.low) {
      forall m | n < m <= k && inputs[m - 1].InFrame?
        ensures Queued(l, start, inputs[..m]) > l.low
      {
        assert m < k ==> Queued(l, start, front[..m]) > l.low;
      }
    }
  }

  // For any limits and any inputs, the session is saturated exactly if a send left too much queued and no frame since
  // has drained it.
  lemma {:induction false} SaturatedExactly(l: Limits, start: int, inputs: seq<Input>)
    ensures After(l, start, inputs).saturated <==> exists n: nat :: SaturatedSince(l, start, inputs, n)
    decreases |inputs|
  {
    hide SaturatedSince, After;
    if inputs == [] {
      NeverSaturated(l, start);
    } else {
      var k := |inputs|;
      var front := inputs[..k - 1];
      SaturatedExactly(l, start, front);
      SaturatedNext(l, start, inputs);
      if After(l, start, inputs).saturated {
        if n: nat :| SaturatedSince(l, start, front, n) {
          SaturatedSinceNext(l, start, inputs, n);
          SaturatedSinceNext(l, start, inputs, k);
        } else {
          SaturatedSinceNext(l, start, inputs, k);
        }
      }
      forall n: nat | SaturatedSince(l, start, inputs, n)
        ensures After(l, start, inputs).saturated
      {
        SaturatedSinceNext(l, start, inputs, n);
      }
    }
  }

  lemma {:induction false} NeverSaturated(l: Limits, start: int)
    ensures !After(l, start, []).saturated && forall n: nat :: !SaturatedSince(l, start, [], n)
  {
  }

  lemma {:induction false} SaturatedNext(l: Limits, start: int, inputs: seq<Input>)
    requires inputs != []
    ensures var last := inputs[|inputs| - 1];
            var before := After(l, start, inputs[..|inputs| - 1]).saturated;
            var queued := Queued(l, start, inputs);
      After(l, start, inputs).saturated <==>
      if last.InSend? then before || l.high < queued <= l.cap
      else before && (last.InFrame? ==> queued > l.low)
  {
    hide After, BodyBytes, DropAcked;
    OneMoreInput(l, start, inputs);
    QueueIsWhatWasSent(l, start, inputs[..|inputs| - 1]);
    QueueIsWhatWasSent(l, start, inputs);
  }

  // -- Giving up --

  // The last of the inputs gives the session up: a send over `cap`, or a check that finds the oldest queued message
  // sent longer ago than `grace`.
  ghost predicate GivesUp(l: Limits, start: int, inputs: seq<Input>) {
    && inputs != []
    && var last, front := inputs[|inputs| - 1], inputs[..|inputs| - 1];
       var queue := After(l, start, front).unacked;
       || (last.InSend? && Queued(l, start, inputs) > l.cap)
       || (last.InAckCheck? && queue != []
           && 1 <= queue[0].msg.id <= |Sends(front)| && last.now - Sends(front)[queue[0].msg.id - 1].at > l.grace)
  }

  // The session has been given up exactly if some input gave it up.
  lemma {:induction false} AbandonedExactly(l: Limits, start: int, inputs: seq<Input>)
    ensures After(l, start, inputs).overflowed <==> exists n | 0 <= n <= |inputs| :: GivesUp(l, start, inputs[..n])
    decreases |inputs|
  {
    hide GivesUp, After;
    if inputs == [] {
      NeverGivenUp(l, start);
    } else {
      var k := |inputs|;
      var front := inputs[..k - 1];
      AbandonedExactly(l, start, front);
      AbandonedNext(l, start, inputs);
      assert inputs[..k] == inputs;
      assert forall n | 0 <= n < k :: front[..n] == inputs[..n];
      if n :| 0 <= n <= |front| && GivesUp(l, start, front[..n]) {
        assert GivesUp(l, start, inputs[..n]);
      }
    }
  }

  lemma {:induction false} NeverGivenUp(l: Limits, start: int)
    ensures !After(l, start, []).overflowed && !GivesUp(l, start, [])
  {
  }

  lemma {:induction false} AbandonedNext(l: Limits, start: int, inputs: seq<Input>)
    requires inputs != []
    ensures After(l, start, inputs).overflowed
            <==> After(l, start, inputs[..|inputs| - 1]).overflowed || GivesUp(l, start, inputs)
  {
    hide After, BodyBytes, DropAcked;
    OneMoreInput(l, start, inputs);
    QueueIsWhatWasSent(l, start, inputs[..|inputs| - 1]);
    QueueIsWhatWasSent(l, start, inputs);
  }

  // -- Silence and goodbye --

  function Count(events: seq<Event>, e: Event): nat {
    if events == [] then 0
    else Count(events[..|events| - 1], e) + if events[|events| - 1] == e then 1 else 0
  }

  lemma {:induction false} CountMore(events: seq<Event>, x: Event, e: Event)
    ensures Count(events + [x], e) == Count(events, e) + if x == e then 1 else 0
  {
    assert (events + [x])[..|events|] == events;
  }

  // The socket is reported closed by exactly those checks that come, with something queued, more than 20 seconds after
  // the last frame; the peer is reported gone by exactly the Disconnect frames.
  lemma {:induction false} SilenceExactly(l: Limits, start: int, inputs: seq<Input>)
    requires inputs != []
    ensures var n := |inputs| - 1;
            var last, before, after := inputs[n], After(l, start, inputs[..n]), After(l, start, inputs);
      && Count(after.events, SocketClosed) == Count(before.events, SocketClosed)
         + (if last.InAckCheck? && before.unacked != [] && last.now - LastHeard(inputs[..n], start) > 20_000
            then 1 else 0)
      && Count(after.events, PeerDisconnected) == Count(before.events, PeerDisconnected)
         + if last.InFrame? && last.m.kind == 5 then 1 else 0
  {
    hide After, Step, Count;
    var n := |inputs| - 1;
    ToldExactlyWhatArrived(l, start, inputs[..n]);
    OneMoreInput(l, start, inputs);
    StepCounts(After(l, start, inputs[..n]), l, inputs[n], SocketClosed);
    StepCounts(After(l, start, inputs[..n]), l, inputs[n], PeerDisconnected);
  }

  lemma {:induction false} StepCounts(e: Endpoint, l: Limits, input: Input, x: Event)
    requires x == SocketClosed || x == PeerDisconnected
    ensures Count(Step(e, l, input).events, x) == Count(e.events, x)
            + if x == SocketClosed then
                if input.InAckCheck? && e.unacked != [] && input.now - e.lastAckTime > 20_000 then 1 else 0
              else if input.InFrame? && input.m.kind == 5 then 1 else 0
  {
    hide BodyBytes, DropAcked, Count;
    CountMore(e.events, Saturated, x);
    CountMore(e.events, Drained, x);
    CountMore(e.events, Abandoned, x);
    CountMore(e.events, PeerDisconnected, x);
    CountMore(e.events, SocketClosed, x);
    CountMore(e.events + [SocketClosed], Abandoned, x);
    CountMore(e.events + [Drained], PeerDisconnected, x);
    if input.InFrame? {
      CountMore(e.events, Delivered(input.m.data), x);
      CountMore(e.events + [Drained], Delivered(input.m.data), x);
    }
  }
}
