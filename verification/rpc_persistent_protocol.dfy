// Model of packages/rpc/src/persistent-protocol.ts: ids, piggybacked acks, replay and watermarks on top of the framing.

module PersistentProtocols {
  import opened Buffers
  import opened ChunkStreams
  import opened Framing

  const ACK_TIMEOUT: int := 20000

  datatype Limits = Limits(high: nat, low: nat, cap: nat, grace: int)

  datatype Entry = Entry(msg: Message, queuedAt: int)

  // What the listeners of the protocol have been told, in order.
  datatype Event = Delivered(body: Bytes) | Saturated | Drained | Abandoned | PeerDisconnected | SocketClosed

  // One end of the session as a value. `written` holds the messages written to the current socket.
  datatype Endpoint = Endpoint(
    outgoingMsgId: nat,
    unacked: seq<Entry>,
    incomingAckId: nat,
    unackBytes: int,
    saturated: bool,
    overflowed: bool,
    lastAckTime: int,
    written: seq<Message>,
    events: seq<Event>)

  function Initial(now: int): Endpoint {
    Endpoint(0, [], 0, 0, false, false, now, [], [])
  }

  // -- What each operation does to an endpoint --

  function Abandon(e: Endpoint): Endpoint {
    if e.overflowed then e else
    e.(overflowed := true,
       written := e.written + [Message(DISCONNECT, 0, e.incomingAckId, [])],
       events := e.events + [Abandoned])
  }

  function Send(e: Endpoint, l: Limits, body: Bytes, now: int): Endpoint {
    var msg := Message(REGULAR, e.outgoingMsgId + 1, e.incomingAckId, body);
    var e1 := e.(outgoingMsgId := e.outgoingMsgId + 1,
                 unacked := e.unacked + [Entry(msg, now)],
                 unackBytes := e.unackBytes + |body|,
                 written := e.written + [msg]);
    if e1.unackBytes > l.cap then Abandon(e1)
    else if !e1.saturated && e1.unackBytes > l.high then
      e1.(saturated := true, events := e1.events + [Saturated])
    else e1
  }

  function Messages(q: seq<Entry>): (r: seq<Message>)
    ensures |r| == |q| && forall i | 0 <= i < |q| :: r[i] == q[i].msg
  {
    seq(|q|, i requires 0 <= i < |q| => q[i].msg)
  }

  function ReplaceSocket(e: Endpoint): Endpoint {
    e.(written := Messages(e.unacked))
  }

  function BodyBytes(q: seq<Entry>): nat {
    if q == [] then 0 else |q[0].msg.data| + BodyBytes(q[1..])
  }

  // The queue once everything up to `ack` is confirmed.
  function DropAcked(q: seq<Entry>, ack: nat): seq<Entry> {
    if q != [] && q[0].msg.id <= ack then DropAcked(q[1..], ack) else q
  }

  function ProcessAck(e: Endpoint, l: Limits, ack: nat): Endpoint {
    var rest := DropAcked(e.unacked, ack);
    var e1 := e.(unacked := rest, unackBytes := e.unackBytes - (BodyBytes(e.unacked) - BodyBytes(rest)));
    if e1.saturated && e1.unackBytes <= l.low then
      e1.(saturated := false, events := e1.events + [Drained])
    else e1
  }

  function Receive(e: Endpoint, l: Limits, m: Message, now: int): Endpoint {
    var e1 := ProcessAck(e, l, m.ack).(lastAckTime := now);
    if m.kind == REGULAR then
      e1.(incomingAckId := m.id, events := e1.events + [Delivered(m.data)])
    else if m.kind == DISCONNECT then
      e1.(events := e1.events + [PeerDisconnected])
    else e1
  }

  function ReceiveAll(e: Endpoint, l: Limits, ms: seq<Message>, now: int): Endpoint
    decreases |ms|
  {
    if ms == [] then e else ReceiveAll(Receive(e, l, ms[0], now), l, ms[1..], now)
  }

  function KeepAlive(e: Endpoint): Endpoint {
    e.(written := e.written + [Message(KEEP_ALIVE, 0, e.incomingAckId, [])])
  }

  function AckCheck(e: Endpoint, l: Limits, now: int): Endpoint {
    var e1 := if e.unacked != [] && now - e.lastAckTime > ACK_TIMEOUT
              then e.(events := e.events + [SocketClosed]) else e;
    if e.unacked != [] && now - e.unacked[0].queuedAt > l.grace then Abandon(e1) else e1
  }

  // -- The class --

  class PersistentProtocol {
    const limits: Limits
    var chunkStream: ChunkStream
    var outgoingMsgId: nat
    var outgoingUnackMsg: seq<Entry>
    var incomingAckId: nat
    var unackBytes: int
    var saturated: bool
    var overflowed: bool
    var lastAckTime: int
    var written: seq<Message>
    var events: seq<Event>

    ghost function State(): Endpoint
      reads this
    {
      Endpoint(outgoingMsgId, outgoingUnackMsg, incomingAckId, unackBytes, saturated, overflowed,
               lastAckTime, written, events)
    }

    constructor (limits: Limits, now: int)
      ensures this.limits == limits && fresh(chunkStream) && chunkStream.Valid() && chunkStream.Contents() == []
      ensures State() == Initial(now)
    {
      this.limits := limits;
      chunkStream := new ChunkStream();
      outgoingMsgId, outgoingUnackMsg, incomingAckId, unackBytes := 0, [], 0, 0;
      saturated, overflowed, lastAckTime := false, false, now;
      written, events := [], [];
    }

    method WriteMessage(m: Message)
      modifies this`written
      ensures written == old(written) + [m]
    {
      written := written + [m];
    }

    method DoSend(body: Bytes, now: int)
      modifies this
      ensures State() == Send(old(State()), limits, body, now)
      ensures chunkStream == old(chunkStream)
    {
      outgoingMsgId := outgoingMsgId + 1;
      var msg := Message(REGULAR, outgoingMsgId, incomingAckId, body);
      outgoingUnackMsg := outgoingUnackMsg + [Entry(msg, now)];
      unackBytes := unackBytes + |body|;
      WriteMessage(msg);
      if unackBytes > limits.cap {
        AbandonSession();
        return;
      }
      if !saturated && unackBytes > limits.high {
        saturated := true;
        events := events + [Saturated];
      }
    }

    method AbandonSession()
      modifies this`overflowed, this`written, this`events
      ensures State() == Abandon(old(State()))
    {
      if overflowed {
        return;
      }
      overflowed := true;
      WriteMessage(Message(DISCONNECT, 0, incomingAckId, []));
      events := events + [Abandoned];
    }

    // The new socket starts with an empty reassembly buffer and a replay of the whole queue.
    method DoReplaceSocket()
      modifies this
      ensures State() == ReplaceSocket(old(State()))
      ensures fresh(chunkStream) && chunkStream.Valid() && chunkStream.Contents() == []
    {
      chunkStream := new ChunkStream();
      written := [];
      var k := 0;
      while k < |outgoingUnackMsg|
        invariant 0 <= k <= |outgoingUnackMsg| == |old(outgoingUnackMsg)|
        invariant written == Messages(outgoingUnackMsg)[..k]
        invariant State() == old(State()).(written := written)
        invariant fresh(chunkStream) && chunkStream.Valid() && chunkStream.Contents() == []
      {
        WriteMessage(outgoingUnackMsg[k].msg);
        k := k + 1;
      }
    }

    method DoProcessAck(ack: nat)
      modifies this`outgoingUnackMsg, this`unackBytes, this`saturated, this`events
      ensures State() == ProcessAck(old(State()), limits, ack)
    {
      while |outgoingUnackMsg| > 0 && outgoingUnackMsg[0].msg.id <= ack
        invariant DropAcked(outgoingUnackMsg, ack) == DropAcked(old(outgoingUnackMsg), ack)
        invariant unackBytes - BodyBytes(outgoingUnackMsg) == old(unackBytes) - BodyBytes(old(outgoingUnackMsg))
        invariant saturated == old(saturated) && events == old(events)
        decreases |outgoingUnackMsg|
      {
        var entry := outgoingUnackMsg[0];
        outgoingUnackMsg := outgoingUnackMsg[1..];
        unackBytes := unackBytes - |entry.msg.data|;
      }
      if saturated && unackBytes <= limits.low {
        saturated := false;
        events := events + [Drained];
      }
    }

    // A chunk from the socket: every frame it completes is handled, in order, and nothing else happens.
    method OnData(chunk: Bytes, now: int)
      requires chunkStream.Valid()
      modifies this, chunkStream
      ensures chunkStream == old(chunkStream) && chunkStream.Valid()
      ensures chunkStream.Contents() == Tail(old(chunkStream.Contents()) + chunk)
      ensures State() == ReceiveAll(old(State()), limits, Frames(old(chunkStream.Contents()) + chunk), now)
    {
      chunkStream.AcceptChunk(chunk);
      ghost var all := Frames(chunkStream.Contents());
      while true
        invariant chunkStream == old(chunkStream) && chunkStream.Valid()
        invariant Tail(chunkStream.Contents()) == Tail(old(chunkStream.Contents()) + chunk)
        invariant ReceiveAll(State(), limits, Frames(chunkStream.Contents()), now)
                  == ReceiveAll(old(State()), limits, all, now)
        decreases |chunkStream.Contents()|
      {
        FramesStep(chunkStream.Contents());
        var frame := TakeFrame(chunkStream);
        if frame.None? {
          break;
        }
        HandleFrame(frame.value, now);
      }
    }

    method HandleFrame(m: Message, now: int)
      modifies this
      ensures State() == Receive(old(State()), limits, m, now)
      ensures chunkStream == old(chunkStream)
    {
      DoProcessAck(m.ack);
      if m.kind == REGULAR {
        incomingAckId := m.id;
        events := events + [Delivered(m.data)];
      } else if m.kind == DISCONNECT {
        events := events + [PeerDisconnected];
      }
      lastAckTime := now;
    }

    method OnKeepAliveTimer()
      modifies this`written
      ensures State() == KeepAlive(old(State()))
    {
      WriteMessage(Message(KEEP_ALIVE, 0, incomingAckId, []));
    }

    method OnAckCheckTimer(now: int)
      modifies this`overflowed, this`written, this`events
      ensures State() == AckCheck(old(State()), limits, now)
    {
      if |outgoingUnackMsg| > 0 && now - lastAckTime > ACK_TIMEOUT {
        events := events + [SocketClosed];
      }
      if |outgoingUnackMsg| > 0 && now - outgoingUnackMsg[0].queuedAt > limits.grace {
        AbandonSession();
      }
    }
  }

  lemma {:induction false} FramesStep(s: Bytes)
    ensures Complete(s) ==> Frames(s) == [FirstFrame(s)] + Frames(s[FrameLength(s)..])
    ensures Complete(s) ==> Frames(s)[1..] == Frames(s[FrameLength(s)..]) && Tail(s) == Tail(s[FrameLength(s)..])
    ensures !Complete(s) ==> Frames(s) == [] && Tail(s) == s
  {
  }

  // -- Flow control over every run of one endpoint --

  datatype Input =
    | InSend(body: Bytes, now: int)
    | InReplaceSocket
    | InFrame(m: Message, now: int)
    | InKeepAlive
    | InAckCheck(now: int)

  function Step(e: Endpoint, l: Limits, i: Input): Endpoint {
    match i
    case InSend(body, now) => Send(e, l, body, now)
    case InReplaceSocket => ReplaceSocket(e)
    case InFrame(m, now) => Receive(e, l, m, now)
    case InKeepAlive => KeepAlive(e)
    case InAckCheck(now) => AckCheck(e, l, now)
  }

  function Run(e: Endpoint, l: Limits, inputs: seq<Input>): Endpoint {
    if inputs == [] then e else Step(Run(e, l, inputs[..|inputs| - 1]), l, inputs[|inputs| - 1])
  }

  // Saturated and Drained take turns, Saturated first, and the last of them is the current state.
  ghost predicate Alternate(events: seq<Event>, saturated: bool) {
    if events == [] then !saturated else
    var before, last := events[..|events| - 1], events[|events| - 1];
    match last
    case Saturated => saturated && Alternate(before, false)
    case Drained => !saturated && Alternate(before, true)
    case _ => Alternate(before, saturated)
  }

  function AbandonCount(events: seq<Event>): nat {
    if events == [] then 0
    else AbandonCount(events[..|events| - 1]) + if events[|events| - 1] == Abandoned then 1 else 0
  }

  // The queue holds the last messages sent, with no gap.
  ghost predicate QueueConsecutive(e: Endpoint) {
    && |e.unacked| <= e.outgoingMsgId
    && forall k | 0 <= k < |e.unacked| ::
         e.unacked[k].msg.id == e.outgoingMsgId - |e.unacked| + 1 + k && e.unacked[k].msg.kind == REGULAR
  }

  ghost predicate FlowControlled(e: Endpoint, l: Limits) {
    && e.unackBytes == BodyBytes(e.unacked)
    && QueueConsecutive(e)
    && (e.saturated ==> e.unackBytes > l.low)
    && (!e.saturated && !e.overflowed ==> e.unackBytes <= l.high)
    && (!e.overflowed ==> e.unackBytes <= l.cap)
    && Alternate(e.events, e.saturated)
    && AbandonCount(e.events) == if e.overflowed then 1 else 0
  }

  // Limits under which the watermarks do what they are for. With cap <= high the session is given up
  // before it could saturate.
  predicate Sensible(l: Limits) {
    l.low <= l.high || l.cap <= l.high
  }

  ghost predicate Steady(e: Endpoint, l: Limits) {
    FlowControlled(e, l) && (l.cap <= l.high ==> !e.saturated)
  }

  lemma {:induction false} BodyBytesAppend(a: seq<Entry>, b: seq<Entry>)
    ensures BodyBytes(a + b) == BodyBytes(a) + BodyBytes(b)
  {
    if a == [] {
      assert a + b == b;
    } else {
      assert (a + b)[1..] == a[1..] + b;
      BodyBytesAppend(a[1..], b);
    }
  }

  // An ack removes a prefix of the queue: of a consecutive queue, exactly the ids it covers.
  lemma {:induction false} DropAckedIsSuffix(q: seq<Entry>, ack: nat)
    ensures var r := DropAcked(q, ack);
            && |r| <= |q| && r == q[|q| - |r|..]
            && BodyBytes(r) <= BodyBytes(q)
            && (forall k | 0 <= k < |q| - |r| :: q[k].msg.id <= ack)
            && (r != [] ==> r[0].msg.id > ack)
  {
    if q != [] && q[0].msg.id <= ack {
      DropAckedIsSuffix(q[1..], ack);
      var r := DropAcked(q, ack);
      forall k | 0 <= k < |q| - |r|
        ensures q[k].msg.id <= ack
      {
        assert k > 0 ==> q[k] == q[1..][k - 1];
      }
    }
  }

  lemma {:induction false} LogOne(events: seq<Event>, e: Event, saturated: bool)
    ensures Alternate(events + [e], saturated)
            == match e
               case Saturated => saturated && Alternate(events, false)
               case Drained => !saturated && Alternate(events, true)
               case _ => Alternate(events, saturated)
    ensures AbandonCount(events + [e]) == AbandonCount(events) + if e == Abandoned then 1 else 0
  {
    assert (events + [e])[..|events|] == events;
  }

  lemma {:induction false} SendKeepsFlowControl(e: Endpoint, l: Limits, body: Bytes, now: int)
    requires Sensible(l) && Steady(e, l)
    ensures Steady(Send(e, l, body, now), l)
  {
    hide Alternate, AbandonCount, BodyBytes;
    var entry := Entry(Message(REGULAR, e.outgoingMsgId + 1, e.incomingAckId, body), now);
    BodyBytesAppend(e.unacked, [entry]);
    assert BodyBytes([entry]) == |body| by {
      BodyBytesOfOne(entry);
    }
    LogOne(e.events, Abandoned, e.saturated);
    LogOne(e.events, Saturated, true);
  }

  lemma {:induction false} BodyBytesOfOne(entry: Entry)
    ensures BodyBytes([entry]) == |entry.msg.data|
  {
  }

  lemma {:induction false} ProcessAckKeepsFlowControl(e: Endpoint, l: Limits, ack: nat)
    requires Sensible(l) && Steady(e, l)
    ensures Steady(ProcessAck(e, l, ack), l)
  {
    hide Alternate, AbandonCount, BodyBytes, DropAcked;
    DropAckedIsSuffix(e.unacked, ack);
    LogOne(e.events, Drained, false);
  }

  lemma {:induction false} ReceiveKeepsFlowControl(e: Endpoint, l: Limits, m: Message, now: int)
    requires Sensible(l) && Steady(e, l)
    ensures Steady(Receive(e, l, m, now), l)
  {
    hide Alternate, AbandonCount, BodyBytes, DropAcked, ProcessAck;
    ProcessAckKeepsFlowControl(e, l, m.ack);
    var e1 := ProcessAck(e, l, m.ack);
    LogOne(e1.events, Delivered(m.data), e1.saturated);
    LogOne(e1.events, PeerDisconnected, e1.saturated);
  }

  lemma {:induction false} AckCheckKeepsFlowControl(e: Endpoint, l: Limits, now: int)
    requires Steady(e, l)
    ensures Steady(AckCheck(e, l, now), l)
  {
    hide Alternate, AbandonCount, BodyBytes;
    LogOne(e.events, SocketClosed, e.saturated);
    LogOne(e.events, Abandoned, e.saturated);
    LogOne(e.events + [SocketClosed], Abandoned, e.saturated);
  }

  // Whatever the caller, the peer and the timers do, in any order, the bookkeeping stays right.
  lemma {:induction false} SteadyOverEveryRun(l: Limits, start: int, inputs: seq<Input>)
    requires Sensible(l)
    ensures Steady(Run(Initial(start), l, inputs), l)
  {
    if inputs != [] {
      var before := inputs[..|inputs| - 1];
      SteadyOverEveryRun(l, start, before);
      var e := Run(Initial(start), l, before);
      match inputs[|inputs| - 1]
      case InSend(body, now) => SendKeepsFlowControl(e, l, body, now);
      case InFrame(m, now) => ReceiveKeepsFlowControl(e, l, m, now);
      case InAckCheck(now) => AckCheckKeepsFlowControl(e, l, now);
      case _ =>
    }
  }

  // The watermarks work on every run exactly for the limits that are sensible; the options are never checked.
  lemma {:induction false} FlowControlExactlyWhenSensible(l: Limits, start: int)
    ensures Sensible(l) <==> forall inputs :: FlowControlled(Run(Initial(start), l, inputs), l)
  {
    if Sensible(l) {
      forall inputs
        ensures FlowControlled(Run(Initial(start), l, inputs), l)
      {
        SteadyOverEveryRun(l, start, inputs);
      }
    } else {
      var body: Bytes := seq(l.high + 1, _ => 0);
      var inputs := [InSend(body, start)];
      assert inputs[..0] == [];
      assert Run(Initial(start), l, inputs) == Send(Initial(start), l, body, start);
      assert !FlowControlled(Run(Initial(start), l, inputs), l);
    }
  }
}
