// Two ends of packages/rpc/src/persistent-protocol.ts talking over a series of sockets that may be cut at any time.

module TwoEndpoints {
  import opened Buffers
  import opened Framing
  import opened PersistentProtocols

  // A Regular message as the receiving listener sees it: its id and its body.
  datatype Delivery = Delivery(id: nat, body: Bytes)

  // One side of the system. `epoch` numbers the sockets this side has used, `wire` maps each of them to everything
  // this side wrote to it, `pos` counts the messages read so far from the peer's wire of the same epoch.
  // `sent` and `delivered` are histories: the bodies passed to send, and what the listener was given.
  datatype Side = Side(
    ep: Endpoint, limits: Limits, epoch: nat, wire: Wires, pos: nat,
    sent: seq<Bytes>, delivered: seq<Delivery>)

  datatype System = System(a: Side, b: Side)

  type Wires = map<nat, seq<Message>>

  function Wire(wire: Wires, epoch: nat): seq<Message> {
    if epoch in wire then wire[epoch] else []
  }

  function InitialSide(l: Limits, now: int): Side {
    Side(PersistentProtocols.Initial(now), l, 0, map[0 := []], 0, [], [])
  }

  // What the endpoint has written since it got its socket is what is on that socket's wire.
  function Publish(s: Side, ep: Endpoint): Side {
    s.(ep := ep, wire := s.wire[s.epoch := ep.written])
  }

  function DoSend(s: Side, body: Bytes, now: int): Side {
    Publish(s, Send(s.ep, s.limits, body, now)).(sent := s.sent + [body])
  }

  // Moving to a later socket abandons whatever was still unread on the old one.
  function DoReplace(s: Side, epoch: nat): Side {
    Publish(s.(epoch := epoch, pos := 0), ReplaceSocket(s.ep))
  }

  function DoRead(s: Side, m: Message, now: int): Side {
    Publish(s, Receive(s.ep, s.limits, m, now))
    .(pos := s.pos + 1, delivered := s.delivered + if m.kind == REGULAR then [Delivery(m.id, m.data)] else [])
  }

  function DoTimer(s: Side, ack: bool, now: int): Side {
    Publish(s, if ack then AckCheck(s.ep, s.limits, now) else KeepAlive(s.ep))
  }

  // One step of side `s` against its peer: `s'` is what becomes of it. Ids are 32 bits wide on the wire.
  ghost predicate SideStep(s: Side, peer: Side, s': Side) {
    || (exists body: Bytes, now :: |s.sent| + 1 < TWO_32 && |body| < TWO_32 && s' == DoSend(s, body, now))
    || (exists epoch: nat :: epoch > s.epoch && s' == DoReplace(s, epoch))
    || (exists now :: s.pos < |Wire(peer.wire, s.epoch)| && s' == DoRead(s, Wire(peer.wire, s.epoch)[s.pos], now))
    || (exists ack, now :: s' == DoTimer(s, ack, now))
  }

  ghost predicate Next(s: System, t: System) {
    (t.b == s.b && SideStep(s.a, s.b, t.a)) || (t.a == s.a && SideStep(s.b, s.a, t.b))
  }

  // The states of a run, from the two freshly connected ends on.
  ghost predicate IsRun(run: seq<System>) {
    && run != []
    && (exists la, lb, t :: run[0] == System(InitialSide(la, t), InitialSide(lb, t)))
    && forall k | 0 <= k < |run| - 1 :: Next(run[k], run[k + 1])
  }

  // -- What was delivered --

  function Ids(ds: seq<Delivery>): set<nat> {
    set d | d in ds :: d.id
  }

  // The deliveries whose id had not been delivered before.
  function FirstSeen(ds: seq<Delivery>): (r: seq<Delivery>)
    ensures |r| <= |ds|
  {
    if ds == [] then [] else
    var before, last := ds[..|ds| - 1], ds[|ds| - 1];
    FirstSeen(before) + if last.id in Ids(before) then [] else [last]
  }

  // The first `n` messages of a sender as deliveries, numbered from 1.
  function Numbered(sent: seq<Bytes>, n: nat): seq<Delivery>
    requires n <= |sent|
  {
    seq(n, i requires 0 <= i < n => Delivery(i + 1, sent[i]))
  }

  // The highest id delivered.
  function Highest(ds: seq<Delivery>): nat {
    if ds == [] then 0 else
    var h, last := Highest(ds[..|ds| - 1]), ds[|ds| - 1].id;
    if last > h then last else h
  }

  // -- The invariant, one direction at a time --

  function Max(x: nat, y: nat): nat {
    if x > y then x else y
  }

  // Reading `ms` next never skips an id, and every body is the one sent under its id.
  ghost predicate Feeds(ms: seq<Message>, high: nat, sent: seq<Bytes>) {
    ms == [] ||
    if ms[0].kind == REGULAR then
      && 1 <= ms[0].id <= |sent| && ms[0].id <= high + 1 && ms[0].data == sent[ms[0].id - 1]
      && Feeds(ms[1..], Max(high, ms[0].id), sent)
    else Feeds(ms[1..], high, sent)
  }

  // The highest id once `ms` has been read as well.
  function HighAfter(ms: seq<Message>, high: nat): nat {
    if ms == [] then high
    else HighAfter(ms[1..], if ms[0].kind == REGULAR then Max(high, ms[0].id) else high)
  }

  // What a reader that is at `pos` of epoch `at` has not read yet of the wire of an epoch.
  function Unread(wire: Wires, at: nat, pos: nat, epoch: nat): seq<Message> {
    var w := Wire(wire, epoch);
    if epoch == at && pos <= |w| then w[pos..] else w
  }

  // The receiver's history is right: an unbroken numbering up to the highest id, repeated ids carrying repeated bodies.
  ghost predicate HistoryRight(delivered: seq<Delivery>, sent: seq<Bytes>) {
    && Highest(delivered) <= |sent|
    && (forall i: nat :: i in Ids(delivered) <==> 1 <= i <= Highest(delivered))
    && FirstSeen(delivered) == Numbered(sent, Highest(delivered))
    && forall d | d in delivered :: 1 <= d.id <= |sent| && d.body == sent[d.id - 1]
  }

  // The sender's queue is the end of what was sent, and only delivered messages have left it.
  ghost predicate QueueRight(s: Side, high: nat) {
    && s.ep.outgoingMsgId == |s.sent| < TWO_32
    && QueueConsecutive(s.ep)
    && |s.sent| - |s.ep.unacked| <= high
    && forall e | e in s.ep.unacked :: 1 <= e.msg.id <= |s.sent| && e.msg.data == s.sent[e.msg.id - 1]
  }

  ghost predicate Published(s: Side) {
    s.epoch in s.wire && s.wire[s.epoch] == s.ep.written
  }

  // Acks never run ahead of what their sender has had delivered.
  ghost predicate AcksRight(r: Side) {
    var high := Highest(r.delivered);
    && Published(r)
    && r.ep.incomingAckId <= high
    && (forall e | e in r.ep.unacked :: e.msg.ack <= high)
    && (forall epoch, m | epoch in r.wire && m in r.wire[epoch] :: m.ack <= high)
  }

  ghost predicate WireRight(s: Side, r: Side) {
    var high := Highest(r.delivered);
    && Published(s)
    && (forall epoch | epoch in s.wire :: epoch <= s.epoch)
    && r.pos <= |Wire(s.wire, r.epoch)|
    && (forall epoch | r.epoch <= epoch :: Feeds(Unread(s.wire, r.epoch, r.pos, epoch), high, s.sent))
    && (s.epoch >= r.epoch ==> HighAfter(Unread(s.wire, r.epoch, r.pos, s.epoch), high) >= |s.sent|)
  }

  ghost predicate Direction(s: Side, r: Side) {
    && HistoryRight(r.delivered, s.sent)
    && QueueRight(s, Highest(r.delivered))
    && AcksRight(r)
    && WireRight(s, r)
  }

  // -- Lemmas about feeds --

  lemma {:induction false} FeedsMonotone(ms: seq<Message>, low: nat, high: nat, sent: seq<Bytes>)
    requires low <= high && Feeds(ms, low, sent)
    ensures Feeds(ms, high, sent) && HighAfter(ms, high) >= HighAfter(ms, low)
  {
    if ms != [] {
      var m := ms[0];
      if m.kind == REGULAR {
        FeedsMonotone(ms[1..], Max(low, m.id), Max(high, m.id), sent);
      } else {
        FeedsMonotone(ms[1..], low, high, sent);
      }
    }
  }

  lemma {:induction false} FeedsMoreSent(ms: seq<Message>, high: nat, sent: seq<Bytes>, body: Bytes)
    requires Feeds(ms, high, sent)
    ensures Feeds(ms, high, sent + [body])
  {
    if ms != [] {
      FeedsMoreSent(ms[1..], if ms[0].kind == REGULAR then Max(high, ms[0].id) else high, sent, body);
    }
  }

  lemma {:induction false} FeedsAppend(ms: seq<Message>, more: seq<Message>, high: nat, sent: seq<Bytes>)
    requires Feeds(ms, high, sent) && Feeds(more, HighAfter(ms, high), sent)
    ensures Feeds(ms + more, high, sent) && HighAfter(ms + more, high) == HighAfter(more, HighAfter(ms, high))
  {
    if ms == [] {
      assert ms + more == more;
    } else {
      assert (ms + more)[1..] == ms[1..] + more;
      FeedsAppend(ms[1..], more, if ms[0].kind == REGULAR then Max(high, ms[0].id) else high, sent);
    }
  }

  // A replay of the end of what was sent feeds a receiver that has everything before it.
  lemma {:induction false} ReplayFeeds(ms: seq<Message>, high: nat, sent: seq<Bytes>)
    requires |ms| <= |sent| && |sent| - |ms| <= high
    requires forall k | 0 <= k < |ms| ::
               ms[k].kind == REGULAR && ms[k].id == |sent| - |ms| + 1 + k && ms[k].data == sent[ms[k].id - 1]
    ensures Feeds(ms, high, sent) && HighAfter(ms, high) >= |sent|
  {
    if ms != [] {
      ReplayFeeds(ms[1..], Max(high, ms[0].id), sent);
    }
  }

  lemma {:induction false} ControlFeeds(ms: seq<Message>, high: nat, sent: seq<Bytes>)
    requires forall m | m in ms :: m.kind != REGULAR
    ensures Feeds(ms, high, sent) && HighAfter(ms, high) == high
  {
    if ms != [] {
      ControlFeeds(ms[1..], high, sent);
    }
  }

  // -- Steps of the sender --

  // Appending to the current wire appends to what the receiver has not read of it, and touches no other wire.
  lemma {:induction false} UnreadAfterPublish(s: Side, r: Side, ep: Endpoint, more: seq<Message>, epoch: nat)
    requires WireRight(s, r) && ep.written == s.ep.written + more
    ensures Unread(Publish(s, ep).wire, r.epoch, r.pos, epoch)
         == Unread(s.wire, r.epoch, r.pos, epoch) + if epoch == s.epoch then more else []
  {
    hide Feeds, HighAfter, Highest;
  }

  lemma {:induction false} SenderWrites(s: Side, r: Side, ep: Endpoint, more: seq<Message>)
    requires WireRight(s, r) && ep.written == s.ep.written + more
    requires forall m | m in more :: m.kind != REGULAR
    ensures WireRight(Publish(s, ep), r)
  {
    var s', high := Publish(s, ep), Highest(r.delivered);
    forall epoch | r.epoch <= epoch
      ensures Feeds(Unread(s'.wire, r.epoch, r.pos, epoch), high, s.sent)
      ensures HighAfter(Unread(s'.wire, r.epoch, r.pos, epoch), high)
           == HighAfter(Unread(s.wire, r.epoch, r.pos, epoch), high)
    {
      var unread := Unread(s.wire, r.epoch, r.pos, epoch);
      UnreadAfterPublish(s, r, ep, more, epoch);
      var added := if epoch == s.epoch then more else [];
      ControlFeeds(added, HighAfter(unread, high), s.sent);
      FeedsAppend(unread, added, high, s.sent);
    }
    assert r.pos <= |Wire(s'.wire, r.epoch)|;
  }

  lemma {:induction false} SenderSends(s: Side, r: Side, body: Bytes, now: int)
    requires Direction(s, r) && |s.sent| + 1 < TWO_32
    ensures Direction(DoSend(s, body, now), r)
  {
    HistoryOfMoreSent(r.delivered, s.sent, body);
    QueueAfterSend(s, Highest(r.delivered), body, now);
    WireAfterSend(s, r, body, now);
  }

  // What a send puts on the wire: the message, and behind it a Disconnect if the session is given up over it.
  function WrittenBySend(ep: Endpoint, l: Limits, body: Bytes): seq<Message> {
    [Message(REGULAR, ep.outgoingMsgId + 1, ep.incomingAckId, body)]
    + if ep.unackBytes + |body| > l.cap && !ep.overflowed then [Message(DISCONNECT, 0, ep.incomingAckId, [])] else []
  }

  lemma {:induction false} SendWrites(ep: Endpoint, l: Limits, body: Bytes, now: int)
    ensures Send(ep, l, body, now).written == ep.written + WrittenBySend(ep, l, body)
    ensures Send(ep, l, body, now).incomingAckId == ep.incomingAckId
    ensures forall m | m in WrittenBySend(ep, l, body) ::
              && m.ack == ep.incomingAckId && (m.id == 0 || m.id == ep.outgoingMsgId + 1)
              && (m.data == [] || m.data == body)
  {
    hide BodyBytes;
  }

  lemma {:induction false} WireAfterSend(s: Side, r: Side, body: Bytes, now: int)
    requires WireRight(s, r) && s.ep.outgoingMsgId == |s.sent|
    ensures WireRight(DoSend(s, body, now), r)
  {
    hide Highest, Feeds, HighAfter, Send;
    var s', high := DoSend(s, body, now), Highest(r.delivered);
    var ep, more := Send(s.ep, s.limits, body, now), WrittenBySend(s.ep, s.limits, body);
    SendWrites(s.ep, s.limits, body, now);
    forall epoch | r.epoch <= epoch
      ensures Feeds(Unread(s'.wire, r.epoch, r.pos, epoch), high, s'.sent)
      ensures epoch == s.epoch ==> HighAfter(Unread(s'.wire, r.epoch, r.pos, epoch), high) >= |s'.sent|
    {
      var unread := Unread(s.wire, r.epoch, r.pos, epoch);
      UnreadAfterPublish(s, r, ep, more, epoch);
      FeedsMoreSent(unread, high, s.sent, body);
      if epoch == s.epoch {
        SentFeeds(more, HighAfter(unread, high), s'.sent);
        FeedsAppend(unread, more, high, s'.sent);
      }
    }
    assert r.pos <= |Wire(s'.wire, r.epoch)|;
  }

  lemma {:induction false} SentFeeds(more: seq<Message>, high: nat, sent: seq<Bytes>)
    requires more != [] && |sent| > 0 && high >= |sent| - 1
    requires more[0].kind == REGULAR && more[0].id == |sent| && more[0].data == sent[|sent| - 1]
    requires forall m | m in more[1..] :: m.kind != REGULAR
    ensures Feeds(more, high, sent) && HighAfter(more, high) >= |sent|
  {
    ControlFeeds(more[1..], Max(high, |sent|), sent);
  }

  lemma {:induction false} HistoryOfMoreSent(ds: seq<Delivery>, sent: seq<Bytes>, body: Bytes)
    requires HistoryRight(ds, sent)
    ensures HistoryRight(ds, sent + [body])
  {
    assert Numbered(sent + [body], Highest(ds)) == Numbered(sent, Highest(ds));
  }

  lemma {:induction false} QueueAfterSend(s: Side, high: nat, body: Bytes, now: int)
    requires QueueRight(s, high) && |s.sent| + 1 < TWO_32
    ensures QueueRight(DoSend(s, body, now), high)
  {
    var s' := DoSend(s, body, now);
    var last := Entry(Message(REGULAR, s.ep.outgoingMsgId + 1, s.ep.incomingAckId, body), now);
    assert s'.ep.unacked == s.ep.unacked + [last];
    forall e | e in s'.ep.unacked
      ensures 1 <= e.msg.id <= |s'.sent| && e.msg.data == s'.sent[e.msg.id - 1]
    {
      assert e in s.ep.unacked || e == last;
    }
  }

  lemma {:induction false} SenderReplaces(s: Side, r: Side, epoch: nat)
    requires Direction(s, r) && epoch > s.epoch
    ensures Direction(DoReplace(s, epoch), r)
  {
    var s', high := DoReplace(s, epoch), Highest(r.delivered);
    assert epoch !in s.wire;
    ReplayFeeds(Messages(s.ep.unacked), high, s.sent);
    forall x | r.epoch <= x
      ensures Feeds(Unread(s'.wire, r.epoch, r.pos, x), high, s.sent)
    {
      if x == epoch {
        assert r.epoch == epoch ==> r.pos == 0;
        assert Unread(s'.wire, r.epoch, r.pos, x) == Messages(s.ep.unacked);
      } else {
        assert Unread(s'.wire, r.epoch, r.pos, x) == Unread(s.wire, r.epoch, r.pos, x);
      }
    }
  }

  // The sender reads a message of its peer: its ack may shorten the queue.
  lemma {:induction false} SenderReads(s: Side, r: Side, m: Message, now: int)
    requires Direction(s, r) && m.ack <= Highest(r.delivered)
    ensures Direction(DoRead(s, m, now), r)
  {
    hide Highest, Feeds, HighAfter, FirstSeen, Unread, BodyBytes;
    var ep := Receive(s.ep, s.limits, m, now);
    DropAckedIsSuffix(s.ep.unacked, m.ack);
    assert ep.unacked == DropAcked(s.ep.unacked, m.ack) && ep.written == s.ep.written + [];
    QueueAfterAck(s, ep, m.ack, Highest(r.delivered));
    SenderWrites(s, r, ep, []);
  }

  lemma {:induction false} QueueAfterAck(s: Side, ep: Endpoint, ack: nat, high: nat)
    requires QueueRight(s, high) && ack <= high
    requires ep.outgoingMsgId == s.ep.outgoingMsgId && ep.unacked == DropAcked(s.ep.unacked, ack)
    ensures QueueRight(s.(ep := ep), high)
  {
    hide DropAcked;
    DropAckedIsSuffix(s.ep.unacked, ack);
    var q, q' := s.ep.unacked, ep.unacked;
    var dropped := |q| - |q'|;
    if dropped > 0 {
      assert q[dropped - 1].msg.id <= ack;
    }
  }

  lemma {:induction false} SenderTimer(s: Side, r: Side, ack: bool, now: int)
    requires Direction(s, r)
    ensures Direction(DoTimer(s, ack, now), r)
  {
    hide Highest, Feeds, HighAfter, FirstSeen, Unread;
    var ep := if ack then AckCheck(s.ep, s.limits, now) else KeepAlive(s.ep);
    var more := ep.written[|s.ep.written|..];
    SenderWrites(s, r, ep, more);
  }

  // -- Steps of the receiver --

  // Reading the next message keeps the history unbroken.
  lemma {:induction false} HistoryAfterRead(ds: seq<Delivery>, d: Delivery, sent: seq<Bytes>)
    requires HistoryRight(ds, sent)
    requires 1 <= d.id <= |sent| && d.id <= Highest(ds) + 1 && d.body == sent[d.id - 1]
    ensures HistoryRight(ds + [d], sent) && Highest(ds + [d]) == Max(Highest(ds), d.id)
  {
    hide Highest, FirstSeen, Ids, Numbered;
    OneMoreDelivery(ds, d);
    IdsAppend(ds, d);
    if d.id == Highest(ds) + 1 {
      OneMoreNumbered(sent, Highest(ds));
    }
    assert FirstSeen(ds) + [] == FirstSeen(ds);
  }

  lemma {:induction false} OneMoreDelivery(ds: seq<Delivery>, d: Delivery)
    ensures Highest(ds + [d]) == Max(Highest(ds), d.id)
    ensures FirstSeen(ds + [d]) == FirstSeen(ds) + if d.id in Ids(ds) then [] else [d]
  {
    hide Ids;
    assert (ds + [d])[..|ds|] == ds;
  }

  lemma {:induction false} OneMoreNumbered(sent: seq<Bytes>, n: nat)
    requires n < |sent|
    ensures Numbered(sent, n + 1) == Numbered(sent, n) + [Delivery(n + 1, sent[n])]
  {
  }

  lemma {:induction false} IdsAppend(ds: seq<Delivery>, d: Delivery)
    ensures forall i :: i in Ids(ds + [d]) <==> i in Ids(ds) || i == d.id
    ensures forall x | x in ds + [d] :: x in ds || x == d
  {
    forall i | i in Ids(ds) || i == d.id
      ensures i in Ids(ds + [d])
    {
      if i == d.id {
        assert d in ds + [d];
      } else {
        var x :| x in ds && x.id == i;
        assert x in ds + [d];
      }
    }
  }

  lemma {:induction false} ReceiverReads(s: Side, r: Side, now: int)
    requires Direction(s, r) && r.pos < |Wire(s.wire, r.epoch)|
    ensures Direction(s, DoRead(r, Wire(s.wire, r.epoch)[r.pos], now))
  {
    hide Highest, HighAfter, HistoryRight, AcksRight, Receive;
    var m := Wire(s.wire, r.epoch)[r.pos];
    var unread := Unread(s.wire, r.epoch, r.pos, r.epoch);
    assert unread[0] == m && Feeds(unread, Highest(r.delivered), s.sent);
    if m.kind == REGULAR {
      HistoryAfterRead(r.delivered, Delivery(m.id, m.data), s.sent);
    } else {
      assert r.delivered + [] == r.delivered;
    }
    AcksAfterRead(r, m, now);
    WireAfterRead(s, r, m, now);
  }

  lemma {:induction false} AcksAfterRead(r: Side, m: Message, now: int)
    requires AcksRight(r)
    requires var ds := DoRead(r, m, now).delivered;
             Highest(ds) >= Highest(r.delivered) && (m.kind == REGULAR ==> m.id <= Highest(ds))
    ensures AcksRight(DoRead(r, m, now))
  {
    hide Highest, DropAcked, BodyBytes;
    DropAckedIsSuffix(r.ep.unacked, m.ack);
    assert DoRead(r, m, now).wire == r.wire;
  }

  lemma {:induction false} WireAfterRead(s: Side, r: Side, m: Message, now: int)
    requires WireRight(s, r) && r.pos < |Wire(s.wire, r.epoch)| && m == Wire(s.wire, r.epoch)[r.pos]
    requires Highest(DoRead(r, m, now).delivered)
             == if m.kind == REGULAR then Max(Highest(r.delivered), m.id) else Highest(r.delivered)
    ensures WireRight(s, DoRead(r, m, now))
  {
    var r' := DoRead(r, m, now);
    var high, high' := Highest(r.delivered), Highest(r'.delivered);
    forall epoch | r.epoch <= epoch
      ensures Feeds(Unread(s.wire, r.epoch, r'.pos, epoch), high', s.sent)
      ensures epoch == s.epoch ==> HighAfter(Unread(s.wire, r.epoch, r'.pos, epoch), high') >= |s.sent|
    {
      var unread := Unread(s.wire, r.epoch, r.pos, epoch);
      assert Feeds(unread, high, s.sent);
      if epoch > r.epoch {
        FeedsMonotone(unread, high, high', s.sent);
      } else {
        assert unread[0] == m && unread[1..] == Unread(s.wire, r.epoch, r'.pos, epoch);
      }
    }
  }

  // Writing, replacing the socket and the timers only ever state acks that are covered.
  lemma {:induction false} ReceiverWrites(s: Side, r: Side, ep: Endpoint, sent: seq<Bytes>)
    requires Direction(s, r)
    requires ep.incomingAckId == r.ep.incomingAckId
    requires forall e | e in ep.unacked :: e.msg.ack <= Highest(r.delivered)
    requires forall m | m in ep.written :: m.ack <= Highest(r.delivered)
    ensures Direction(s, Publish(r, ep).(sent := sent))
  {
    var r' := Publish(r, ep).(sent := sent);
    forall epoch | r.epoch <= epoch
      ensures Unread(s.wire, r'.epoch, r'.pos, epoch) == Unread(s.wire, r.epoch, r.pos, epoch)
    {
    }
  }

  lemma {:induction false} ReceiverReplaces(s: Side, r: Side, epoch: nat)
    requires Direction(s, r) && epoch > r.epoch
    ensures Direction(s, DoReplace(r, epoch))
  {
    var r' := DoReplace(r, epoch);
    forall x | r'.epoch <= x
      ensures Unread(s.wire, r'.epoch, r'.pos, x) == Unread(s.wire, r.epoch, r.pos, x)
    {
    }
    forall m | m in r'.ep.written
      ensures m.ack <= Highest(r.delivered)
    {
      var k :| 0 <= k < |r'.ep.written| && r'.ep.written[k] == m;
      assert r.ep.unacked[k] in r.ep.unacked;
    }
  }

  // -- Every run --

  ghost predicate BothWays(s: Side, r: Side) {
    Direction(s, r) && Direction(r, s) && Sized(s) && Sized(r)
  }

  // Everything written or queued fits the fields of the frame header.
  ghost predicate Sized(s: Side) {
    && (forall e | e in s.ep.unacked :: e.msg.id < TWO_32 && |e.msg.data| < TWO_32)
    && (forall epoch, m | epoch in s.wire && m in s.wire[epoch] :: m.id < TWO_32 && |m.data| < TWO_32)
  }

  lemma {:induction false} SendKeeps(s: Side, r: Side, body: Bytes, now: int)
    requires BothWays(s, r) && |s.sent| + 1 < TWO_32 && |body| < TWO_32
    ensures BothWays(DoSend(s, body, now), r)
  {
    hide HistoryRight, WireRight, Sized, Send;
    SenderSends(s, r, body, now);
    ReceiverSends(r, s, body, now);
    SizedAfterSend(s, body, now);
  }

  lemma {:induction false} ReceiverSends(s: Side, r: Side, body: Bytes, now: int)
    requires Direction(s, r)
    ensures Direction(s, DoSend(r, body, now))
  {
    hide HistoryRight, WireRight, QueueRight, Highest, BodyBytes;
    SendWrites(r.ep, r.limits, body, now);
    ReceiverWrites(s, r, Send(r.ep, r.limits, body, now), r.sent + [body]);
  }

  lemma {:induction false} SizedAfterSend(s: Side, body: Bytes, now: int)
    requires Sized(s) && Published(s) && s.ep.outgoingMsgId + 1 < TWO_32 && |body| < TWO_32
    ensures Sized(DoSend(s, body, now))
  {
    hide WrittenBySend, BodyBytes;
    SendWrites(s.ep, s.limits, body, now);
  }

  lemma {:induction false} ReplaceKeeps(s: Side, r: Side, epoch: nat)
    requires BothWays(s, r) && epoch > s.epoch
    ensures BothWays(DoReplace(s, epoch), r)
  {
    hide Highest, Feeds, HighAfter, FirstSeen, Unread;
    SenderReplaces(s, r, epoch);
    ReceiverReplaces(r, s, epoch);
    var q := s.ep.unacked;
    assert forall m | m in Messages(q) :: exists k :: 0 <= k < |q| && q[k] in q && q[k].msg == m;
  }

  lemma {:induction false} ReadKeeps(s: Side, r: Side, now: int)
    requires BothWays(s, r) && s.pos < |Wire(r.wire, s.epoch)|
    ensures BothWays(DoRead(s, Wire(r.wire, s.epoch)[s.pos], now), r)
  {
    var m := Wire(r.wire, s.epoch)[s.pos];
    SenderReads(s, r, m, now);
    ReceiverReads(r, s, now);
    SizedAfterRead(s, m, now);
  }

  lemma {:induction false} SizedAfterRead(s: Side, m: Message, now: int)
    requires Sized(s) && Published(s)
    ensures Sized(DoRead(s, m, now))
  {
    DropAckedIsSuffix(s.ep.unacked, m.ack);
    assert DoRead(s, m, now).wire == s.wire;
  }

  lemma {:induction false} TimerKeeps(s: Side, r: Side, ack: bool, now: int)
    requires BothWays(s, r)
    ensures BothWays(DoTimer(s, ack, now), r)
  {
    hide Highest, Feeds, HighAfter, FirstSeen, Unread, BodyBytes, QueueRight, WireRight, HistoryRight;
    SenderTimer(s, r, ack, now);
    ReceiverWrites(r, s, if ack then AckCheck(s.ep, s.limits, now) else KeepAlive(s.ep), s.sent);
  }

  lemma {:induction false} StepKeepsInvariant(s: Side, peer: Side, s': Side)
    requires BothWays(s, peer) && SideStep(s, peer, s')
    ensures BothWays(s', peer)
  {
    if body: Bytes, now :| |s.sent| + 1 < TWO_32 && |body| < TWO_32 && s' == DoSend(s, body, now) {
      SendKeeps(s, peer, body, now);
    } else if epoch: nat :| epoch > s.epoch && s' == DoReplace(s, epoch) {
      ReplaceKeeps(s, peer, epoch);
    } else if now :| s.pos < |Wire(peer.wire, s.epoch)| && s' == DoRead(s, Wire(peer.wire, s.epoch)[s.pos], now) {
      ReadKeeps(s, peer, now);
    } else {
      var ack, now :| s' == DoTimer(s, ack, now);
      TimerKeeps(s, peer, ack, now);
    }
  }

  lemma {:induction false} InvariantOverEveryRun(run: seq<System>, k: nat)
    requires IsRun(run) && k < |run|
    ensures BothWays(run[k].a, run[k].b)
  {
    if k > 0 {
      InvariantOverEveryRun(run, k - 1);
      var s, t := run[k - 1], run[k];
      assert Next(run[k - 1], run[k - 1 + 1]);
      if t.b == s.b && SideStep(s.a, s.b, t.a) {
        StepKeepsInvariant(s.a, s.b, t.a);
      } else {
        StepKeepsInvariant(s.b, s.a, t.b);
      }
    }
  }

  // The messages a side has been passed that its queue still holds.
  function Queued(s: Side): set<nat> {
    set e | e in s.ep.unacked :: e.msg.id
  }

  ghost predicate NothingLost(s: Side, r: Side) {
    var high := Highest(r.delivered);
    && high <= |s.sent|
    // first deliveries are the messages sent, in order and without a gap
    && FirstSeen(r.delivered) == Numbered(s.sent, high)
    // a repeated delivery repeats the message of its id
    && (forall d | d in r.delivered :: 1 <= d.id <= |s.sent| && d.body == s.sent[d.id - 1])
    // every message sent is delivered or still queued for replay
    && (forall id | 1 <= id <= |s.sent| :: id <= high || id in Queued(s))
    // on a common socket that has been read to its end, everything sent has been delivered
    && (s.epoch == r.epoch && r.pos == |Wire(s.wire, s.epoch)| ==> high == |s.sent|)
  }

  lemma {:induction false} DirectionLosesNothing(s: Side, r: Side)
    requires Direction(s, r)
    ensures NothingLost(s, r)
  {
    var high, q := Highest(r.delivered), s.ep.unacked;
    forall id | 1 <= id <= |s.sent| && id > high
      ensures id in Queued(s)
    {
      var k := id - 1 - (|s.sent| - |q|);
      assert q[k] in q && q[k].msg.id == id;
    }
  }

  // Over every run, with sockets cut and replaced at any time on either side and whatever was unread lost.
  lemma {:induction false} NothingLostOverEveryRun(run: seq<System>, k: nat)
    requires IsRun(run) && k < |run|
    ensures NothingLost(run[k].a, run[k].b) && NothingLost(run[k].b, run[k].a)
  {
    InvariantOverEveryRun(run, k);
    DirectionLosesNothing(run[k].a, run[k].b);
    DirectionLosesNothing(run[k].b, run[k].a);
  }

  // The same runs at the level of bytes: of the bytes of any socket, either way, any part that has arrived contains
  // exactly the first so many of the messages written, so a reader that is cut off has read messages, and only whole
  // ones.
  lemma {:induction false} ArrivedBytesAreMessages(run: seq<System>, k: nat, wire: Wires, epoch: nat, arrived: Bytes,
                                                   missing: Bytes)
    requires IsRun(run) && k < |run| && (wire == run[k].a.wire || wire == run[k].b.wire)
    requires arrived + missing == EncodeAll(Wire(wire, epoch))
    ensures Frames(arrived) <= Wire(wire, epoch)
    ensures missing == [] ==> Frames(arrived) == Wire(wire, epoch) && Tail(arrived) == []
  {
    InvariantOverEveryRun(run, k);
    PartialArrival(Wire(wire, epoch), arrived, missing);
  }

  // -- Delivery is at least once, not exactly once --

  const FIRST: Message := Message(REGULAR, 1, 0, [])
  const SECOND: Message := Message(REGULAR, 2, 0, [])

  function SenderOfTwo(l: Limits): Side {
    DoSend(DoSend(InitialSide(l, 0), [], 0), [], 0)
  }

  function ReaderOfTwo(l: Limits): Side {
    DoRead(DoRead(InitialSide(l, 0), FIRST, 0), SECOND, 0)
  }

  lemma {:induction false} SenderOfTwoWrites(l: Limits)
    ensures DoSend(InitialSide(l, 0), [], 0).epoch == 0 && |DoSend(InitialSide(l, 0), [], 0).sent| == 1
    ensures SenderOfTwo(l).epoch == 0 && Wire(SenderOfTwo(l).wire, 0) == [FIRST, SECOND]
    ensures Wire(DoReplace(SenderOfTwo(l), 1).wire, 1) == [FIRST, SECOND]
  {
    var s := SenderOfTwo(l);
    assert s.ep.written == [FIRST, SECOND] && Messages(s.ep.unacked) == [FIRST, SECOND];
  }

  lemma {:induction false} ReaderOfTwoReads(l: Limits)
    ensures var r := DoRead(InitialSide(l, 0), FIRST, 0); r.pos == 1 && r.epoch == 0
    ensures ReaderOfTwo(l).delivered == [Delivery(1, []), Delivery(2, [])] && ReaderOfTwo(l).ep.incomingAckId == 2
    ensures ReaderOfTwo(l).epoch == 0
    ensures DoReplace(ReaderOfTwo(l), 1).pos == 0 && DoReplace(ReaderOfTwo(l), 1).epoch == 1
    ensures var again := DoRead(DoReplace(ReaderOfTwo(l), 1), FIRST, 0);
            again.delivered == ReaderOfTwo(l).delivered + [Delivery(1, [])] && again.ep.incomingAckId == 1
  {
  }

  lemma {:induction false} SendIsStep(s: Side, peer: Side)
    requires |s.sent| + 1 < TWO_32
    ensures SideStep(s, peer, DoSend(s, [], 0))
  {
  }

  lemma {:induction false} ReplaceIsStep(s: Side, peer: Side)
    requires s.epoch == 0
    ensures SideStep(s, peer, DoReplace(s, 1))
  {
  }

  lemma {:induction false} ReadIsStep(s: Side, peer: Side, m: Message)
    requires s.pos < |Wire(peer.wire, s.epoch)| && m == Wire(peer.wire, s.epoch)[s.pos]
    ensures SideStep(s, peer, DoRead(s, m, 0))
  {
  }

  lemma {:induction false} RepeatIsNotFirst(ds: seq<Delivery>, d: Delivery)
    requires d in ds
    ensures |FirstSeen(ds + [d])| < |ds + [d]|
  {
    assert (ds + [d])[..|ds|] == ds;
    assert d.id in Ids(ds);
  }

  // After a replay a listener can be given a message again, and the acknowledged id can go back.
  lemma {:induction false} ReplayDeliversAgain(l: Limits)
    ensures exists run: seq<System>, k: nat, j: nat ::
              && IsRun(run) && k < j < |run|
              && |FirstSeen(run[j].b.delivered)| < |run[j].b.delivered|
              && run[j].b.ep.incomingAckId < run[k].b.ep.incomingAckId
  {
    hide FirstSeen, SideStep, DoSend, DoRead, DoReplace;
    var fresh0 := InitialSide(l, 0);
    var a1, a2, b1, b2 := DoSend(fresh0, [], 0), SenderOfTwo(l), DoRead(fresh0, FIRST, 0), ReaderOfTwo(l);
    var a3, b3 := DoReplace(a2, 1), DoReplace(b2, 1);
    var b4 := DoRead(b3, FIRST, 0);
    SenderOfTwoWrites(l);
    ReaderOfTwoReads(l);
    SendIsStep(fresh0, fresh0);
    SendIsStep(a1, fresh0);
    ReadIsStep(fresh0, a2, FIRST);
    ReadIsStep(b1, a2, SECOND);
    ReplaceIsStep(a2, b2);
    ReplaceIsStep(b2, a3);
    ReadIsStep(b3, a3, FIRST);
    var run := [System(fresh0, fresh0), System(a1, fresh0), System(a2, fresh0), System(a2, b1), System(a2, b2),
                System(a3, b2), System(a3, b3), System(a3, b4)];
    assert IsRun(run);
    RepeatIsNotFirst(b2.delivered, Delivery(1, []));
    assert run[7].b.ep.incomingAckId < run[4].b.ep.incomingAckId;
  }
}
