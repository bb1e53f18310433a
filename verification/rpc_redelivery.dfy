// When packages/rpc/src/persistent-protocol.ts delivers a message exactly once, and when a reconnect delivers it again.

module Redelivery {
  import opened Buffers
  import opened Framing
  import opened PersistentProtocols
  import opened TwoEndpoints

  // -- The ids on one wire --

  // The id of the last Regular message, 0 if there is none.
  function LastId(ms: seq<Message>): nat {
    if ms == [] then 0
    else if ms[|ms| - 1].kind == REGULAR then ms[|ms| - 1].id
    else LastId(ms[..|ms| - 1])
  }

  // Each Regular message has the id after that of the one before it.
  predicate Rising(ms: seq<Message>) {
    ms == []
    || (var front, last := ms[..|ms| - 1], ms[|ms| - 1];
        Rising(front)
        && (last.kind == REGULAR ==> last.id >= 1 && (LastId(front) != 0 ==> last.id == LastId(front) + 1)))
  }

  lemma {:induction false} OneMoreMessage(ms: seq<Message>, m: Message)
    requires Rising(ms) && (m.kind == REGULAR ==> m.id >= 1 && (LastId(ms) != 0 ==> m.id == LastId(ms) + 1))
    ensures Rising(ms + [m]) && LastId(ms + [m]) == if m.kind == REGULAR then m.id else LastId(ms)
  {
    assert (ms + [m])[..|ms|] == ms;
  }

  lemma {:induction false} QueueRises(q: seq<Entry>, from: nat)
    requires forall k | 0 <= k < |q| :: q[k].msg.kind == REGULAR && q[k].msg.id == from + k + 1
    ensures Rising(Messages(q)) && LastId(Messages(q)) == if q == [] then 0 else from + |q|
    decreases |q|
  {
    if q != [] {
      var front := q[..|q| - 1];
      QueueRises(front, from);
      assert Messages(q) == Messages(front) + [q[|q| - 1].msg];
      OneMoreMessage(Messages(front), q[|q| - 1].msg);
    }
  }

  // On every socket a side has used the ids rise one by one, and on the current one up to the last message sent; there
  // is such a message if anything is queued.
  ghost predicate WiresRise(s: Side) {
    && (forall epoch | epoch in s.wire :: Rising(s.wire[epoch]))
    && (LastId(s.ep.written) == 0 || LastId(s.ep.written) == |s.sent|)
    && (LastId(s.ep.written) == 0 ==> s.ep.unacked == [])
  }

  lemma {:induction false} StepKeepsRising(s: Side, peer: Side, s': Side)
    requires BothWays(s, peer) && WiresRise(s) && SideStep(s, peer, s')
    ensures WiresRise(s')
  {
    hide BothWays, WiresRise, DoSend, DoReplace, DoRead, DoTimer, QueueConsecutive, Published;
    SentSide(s, peer);
    if body: Bytes, now :| |s.sent| + 1 < TWO_32 && |body| < TWO_32 && s' == DoSend(s, body, now) {
      SendRises(s, body, now);
    } else if epoch: nat :| epoch > s.epoch && s' == DoReplace(s, epoch) {
      ReplaceRises(s, epoch);
    } else if now :| s.pos < |Wire(peer.wire, s.epoch)| && s' == DoRead(s, Wire(peer.wire, s.epoch)[s.pos], now) {
      ReadRises(s, Wire(peer.wire, s.epoch)[s.pos], now);
    } else {
      var ack, now :| s' == DoTimer(s, ack, now);
      TimerRises(s, ack, now);
    }
  }

  lemma {:induction false} SentSide(s: Side, r: Side)
    requires BothWays(s, r)
    ensures Published(s) && s.ep.outgoingMsgId == |s.sent| && QueueConsecutive(s.ep)
  {
  }

  lemma {:induction false} SendRises(s: Side, body: Bytes, now: int)
    requires WiresRise(s) && Published(s) && s.ep.outgoingMsgId == |s.sent|
    ensures WiresRise(DoSend(s, body, now))
  {
    hide BodyBytes;
    var m := Message(REGULAR, s.ep.outgoingMsgId + 1, s.ep.incomingAckId, body);
    OneMoreMessage(s.ep.written, m);
    OneMoreMessage(s.ep.written + [m], Message(DISCONNECT, 0, s.ep.incomingAckId, []));
  }

  lemma {:induction false} ReplaceRises(s: Side, epoch: nat)
    requires WiresRise(s) && QueueConsecutive(s.ep) && s.ep.outgoingMsgId == |s.sent|
    ensures WiresRise(DoReplace(s, epoch))
  {
    hide Rising, LastId;
    QueueRises(s.ep.unacked, |s.sent| - |s.ep.unacked|);
  }

  lemma {:induction false} ReadRises(s: Side, m: Message, now: int)
    requires WiresRise(s) && Published(s)
    ensures WiresRise(DoRead(s, m, now))
  {
    hide Rising, LastId, BodyBytes, DropAcked;
    DropAckedIsSuffix(s.ep.unacked, m.ack);
  }

  lemma {:induction false} TimerRises(s: Side, ack: bool, now: int)
    requires WiresRise(s) && Published(s)
    ensures WiresRise(DoTimer(s, ack, now))
  {
    hide Rising, LastId;
    OneMoreMessage(s.ep.written, Message(KEEP_ALIVE, 0, s.ep.incomingAckId, []));
    OneMoreMessage(s.ep.written, Message(DISCONNECT, 0, s.ep.incomingAckId, []));
  }

  lemma {:induction false} RisingOverEveryRun(run: seq<System>, k: nat)
    requires IsRun(run) && k < |run|
    ensures BothWays(run[k].a, run[k].b) && WiresRise(run[k].a) && WiresRise(run[k].b)
    decreases k
  {
    hide BothWays, SideStep, Direction;
    InvariantOverEveryRun(run, k);
    if k > 0 {
      var s, t := run[k - 1], run[k];
      RisingOverEveryRun(run, k - 1);
      assert Next(run[k - 1], run[k - 1 + 1]);
      Symmetric(s.a, s.b);
      if t.b == s.b && SideStep(s.a, s.b, t.a) {
        StepKeepsRising(s.a, s.b, t.a);
      } else {
        StepKeepsRising(s.b, s.a, t.b);
      }
    }
  }

  lemma {:induction false} Symmetric(s: Side, r: Side)
    ensures BothWays(s, r) == BothWays(r, s)
  {
  }

  // -- What one reader is given on one socket --

  function DeliveriesOf(ms: seq<Message>): seq<Delivery> {
    if ms == [] then []
    else var last := ms[|ms| - 1];
         DeliveriesOf(ms[..|ms| - 1]) + if last.kind == REGULAR then [Delivery(last.id, last.data)] else []
  }

  // The ids of deliveries count up by one.
  predicate CountUp(ds: seq<Delivery>) {
    forall i | 0 <= i < |ds| - 1 :: ds[i + 1].id == ds[i].id + 1
  }

  lemma {:induction false} CountUpMore(ds: seq<Delivery>, d: Delivery)
    requires CountUp(ds) && (ds != [] ==> d.id == ds[|ds| - 1].id + 1)
    ensures CountUp(ds + [d])
  {
  }

  lemma {:induction false} DeliveriesCountUp(ms: seq<Message>, p: nat, q: nat)
    requires p <= q <= |ms| && Rising(ms)
    ensures var ds := DeliveriesOf(ms[p..q]);
            CountUp(ds) && (ds != [] ==> ds[|ds| - 1].id == LastId(ms[..q]) >= 1)
    decreases q
  {
    hide CountUp;
    if p == q {
      assert ms[p..q] == [];
      NothingCountsUp();
    } else {
      DeliveriesCountUp(ms, p, q - 1);
      RisingPrefix(ms, q);
      var front, last := DeliveriesOf(ms[p..q - 1]), ms[q - 1];
      assert ms[..q][..q - 1] == ms[..q - 1] && ms[p..q][..q - p - 1] == ms[p..q - 1] && ms[p..q][q - p - 1] == last;
      if last.kind == REGULAR {
        CountUpMore(front, Delivery(last.id, last.data));
      } else {
        assert front + [] == front;
      }
    }
  }

  lemma {:induction false} NothingCountsUp()
    ensures CountUp(DeliveriesOf([])) && DeliveriesOf([]) == []
  {
  }

  lemma {:induction false} RisingPrefix(ms: seq<Message>, n: nat)
    requires n <= |ms| && Rising(ms)
    ensures Rising(ms[..n])
    decreases |ms|
  {
    if n == |ms| {
      assert ms[..n] == ms;
    } else {
      assert ms[..|ms| - 1][..n] == ms[..n];
      RisingPrefix(ms[..|ms| - 1], n);
    }
  }

  // What became of reader `r` on its socket: `r'` has been given what lies between the two positions of the wire.
  ghost predicate ReadOn(r: Side, r': Side, wire: seq<Message>) {
    && r.pos <= r'.pos <= |wire|
    && var more := DeliveriesOf(wire[r.pos..r'.pos]);
       && r'.delivered == r.delivered + more
       && r'.ep.incomingAckId == if more == [] then r.ep.incomingAckId else more[|more| - 1].id
  }

  // A step of either side leaves the reader on its socket or moves it to a later one; on the same socket it reads on,
  // and what was written there stays.
  lemma {:induction false} StepReadsOn(s: System, t: System)
    requires BothWays(s.a, s.b) && Next(s, t)
    ensures t.b.epoch >= s.b.epoch && (t.b.epoch > s.b.epoch ==> t.b.pos == 0)
    ensures t.b.epoch == s.b.epoch ==>
      && Wire(s.a.wire, s.b.epoch) <= Wire(t.a.wire, s.b.epoch)
      && ReadOn(s.b, t.b, Wire(t.a.wire, s.b.epoch))
  {
    hide Highest, Feeds, HighAfter, FirstSeen, BodyBytes, DropAcked, HistoryRight, Sized, QueueRight;
    if t.b == s.b && SideStep(s.a, s.b, t.a) {
      WiresGrow(s.a, s.b, t.a, s.b.epoch);
    } else {
      assert t.a == s.a;
      ReaderSteps(s.b, s.a, t.b);
    }
  }

  lemma {:induction false} WiresGrow(s: Side, r: Side, s': Side, epoch: nat)
    requires Published(s) && (forall e | e in s.wire :: e <= s.epoch) && SideStep(s, r, s')
    ensures Wire(s.wire, epoch) <= Wire(s'.wire, epoch)
  {
    hide Send, Receive, KeepAlive, AckCheck, ReplaceSocket;
    if body: Bytes, now :| |s.sent| + 1 < TWO_32 && |body| < TWO_32 && s' == DoSend(s, body, now) {
      SendWrites(s.ep, s.limits, body, now);
    } else if e: nat :| e > s.epoch && s' == DoReplace(s, e) {
    } else if now :| s.pos < |Wire(r.wire, s.epoch)| && s' == DoRead(s, Wire(r.wire, s.epoch)[s.pos], now) {
      ReceiveWrites(s.ep, s.limits, Wire(r.wire, s.epoch)[s.pos], now);
    } else {
      var ack, now :| s' == DoTimer(s, ack, now);
      TimerWrites(s.ep, s.limits, now);
    }
  }

  lemma {:induction false} ReceiveWrites(ep: Endpoint, l: Limits, m: Message, now: int)
    ensures Receive(ep, l, m, now).written == ep.written
  {
    hide BodyBytes, DropAcked;
  }

  lemma {:induction false} TimerWrites(ep: Endpoint, l: Limits, now: int)
    ensures ep.written <= KeepAlive(ep).written && ep.written <= AckCheck(ep, l, now).written
  {
    var checked := AckCheck(ep, l, now).written;
    assert checked == ep.written || checked == ep.written + [Message(DISCONNECT, 0, ep.incomingAckId, [])];
  }

  lemma {:induction false} ReaderSteps(r: Side, s: Side, r': Side)
    requires SideStep(r, s, r') && r.pos <= |Wire(s.wire, r.epoch)|
    ensures r'.epoch >= r.epoch && (r'.epoch > r.epoch ==> r'.pos == 0)
    ensures r'.epoch == r.epoch ==> ReadOn(r, r', Wire(s.wire, r.epoch))
  {
    hide BodyBytes, DropAcked;
    var wire := Wire(s.wire, r.epoch);
    assert wire[r.pos..r.pos] == [] && r.delivered + [] == r.delivered;
    if now :| r.pos < |wire| && r' == DoRead(r, wire[r.pos], now) {
      var slice := wire[r.pos..r.pos + 1];
      assert slice[..0] == [] && slice[0] == wire[r.pos] && DeliveriesOf(slice[..0]) == [];
    }
  }

  lemma {:induction false} DeliveriesAppend(a: seq<Message>, b: seq<Message>)
    ensures DeliveriesOf(a + b) == DeliveriesOf(a) + DeliveriesOf(b)
    decreases |b|
  {
    if b == [] {
      assert a + b == a;
    } else {
      assert (a + b)[..|a + b| - 1] == a + b[..|b| - 1];
      DeliveriesAppend(a, b[..|b| - 1]);
    }
  }

  lemma {:induction false} ReadOnTwice(r: Side, r': Side, r'': Side, wire: seq<Message>, wire': seq<Message>)
    requires ReadOn(r, r', wire) && ReadOn(r', r'', wire') && wire <= wire'
    ensures ReadOn(r, r'', wire')
  {
    hide DeliveriesOf;
    SliceTwice(wire, wire', r.pos, r'.pos, r''.pos);
    var first, second := DeliveriesOf(wire[r.pos..r'.pos]), DeliveriesOf(wire'[r'.pos..r''.pos]);
    DeliveriesAppend(wire'[r.pos..r'.pos], wire'[r'.pos..r''.pos]);
    assert (r.delivered + first) + second == r.delivered + (first + second);
  }

  lemma {:induction false} SliceTwice(wire: seq<Message>, wire': seq<Message>, p: nat, q: nat, n: nat)
    requires wire <= wire' && p <= q <= |wire| && q <= n <= |wire'|
    ensures wire[p..q] == wire'[p..q] && wire'[p..n] == wire'[p..q] + wire'[q..n]
  {
  }

  lemma {:induction false} RunReadsOn(run: seq<System>, k: nat, j: nat)
    requires IsRun(run) && k <= j < |run|
    ensures run[k].b.epoch <= run[j].b.epoch
    ensures run[k].b.epoch == run[j].b.epoch ==> ReadOn(run[k].b, run[j].b, Wire(run[j].a.wire, run[j].b.epoch))
    decreases j
  {
    hide BothWays, Next, Direction;
    InvariantOverEveryRun(run, j);
    if k == j {
      NothingRead(run[k].a, run[k].b);
    } else {
      RunReadsOn(run, k, j - 1);
      InvariantOverEveryRun(run, j - 1);
      assert Next(run[j - 1], run[j - 1 + 1]);
      StepReadsOn(run[j - 1], run[j]);
      if run[k].b.epoch == run[j].b.epoch {
        var epoch := run[j].b.epoch;
        ReadOnTwice(run[k].b, run[j - 1].b, run[j].b, Wire(run[j - 1].a.wire, epoch), Wire(run[j].a.wire, epoch));
      }
    }
  }

  lemma {:induction false} NothingRead(s: Side, r: Side)
    requires BothWays(s, r)
    ensures ReadOn(r, r, Wire(s.wire, r.epoch))
  {
    assert r.delivered + [] == r.delivered;
  }

  // -- Exactly once --

  // On any one socket, from any state on: ids count up, so nothing is repeated among what is given there, the ack
  // follows the last id, and a delivery repeats an earlier one exactly if its id was already reached before.
  lemma {:induction false} OnOneSocket(run: seq<System>, k: nat, j: nat)
    requires IsRun(run) && k <= j < |run| && run[k].b.epoch == run[j].b.epoch
    ensures run[k].b.delivered <= run[j].b.delivered
    ensures var more := run[j].b.delivered[|run[k].b.delivered|..];
      && CountUp(more)
      && run[j].b.ep.incomingAckId == (if more == [] then run[k].b.ep.incomingAckId else more[|more| - 1].id)
      && forall d | d in more :: d.id in Ids(run[k].b.delivered) <==> d.id <= Highest(run[k].b.delivered)
  {
    hide BothWays, WiresRise, Rising, FirstSeen, Highest, DeliveriesOf, CountUp, LastId;
    RunReadsOn(run, k, j);
    RisingOverEveryRun(run, j);
    var wire := Wire(run[j].a.wire, run[j].b.epoch);
    WireRises(run[j].a, run[j].b.epoch);
    DeliveriesCountUp(wire, run[k].b.pos, run[j].b.pos);
    var more := run[j].b.delivered[|run[k].b.delivered|..];
    assert more == DeliveriesOf(wire[run[k].b.pos..run[j].b.pos]);
    RisingOverEveryRun(run, k);
    ReachedIds(run[k].a, run[k].b);
    PositiveIds(run[j].a, run[j].b);
    assert forall d | d in more :: d in run[j].b.delivered;
  }

  lemma {:induction false} WireRises(s: Side, epoch: nat)
    requires WiresRise(s)
    ensures Rising(Wire(s.wire, epoch))
  {
  }

  lemma {:induction false} ReachedIds(s: Side, r: Side)
    requires BothWays(s, r)
    ensures forall id: nat :: id in Ids(r.delivered) <==> 1 <= id <= Highest(r.delivered)
  {
  }

  lemma {:induction false} PositiveIds(s: Side, r: Side)
    requires BothWays(s, r)
    ensures forall d | d in r.delivered :: 1 <= d.id <= |s.sent| && d.body == s.sent[d.id - 1]
  {
  }

  // While a reader has its first socket, delivery is exactly once and in order, and the ack counts the deliveries.
  lemma {:induction false} FirstSocketIsExactlyOnce(run: seq<System>, j: nat)
    requires IsRun(run) && j < |run| && run[j].b.epoch == 0
    ensures var ds := run[j].b.delivered;
            && |ds| <= |run[j].a.sent|
            && ds == FirstSeen(ds) == Numbered(run[j].a.sent, |ds|) && run[j].b.ep.incomingAckId == |ds|
  {
    hide BothWays, FirstSeen, Next;
    var ds := run[j].b.delivered;
    RunReadsOn(run, 0, j);
    OnOneSocket(run, 0, j);
    assert run[0].b.delivered == [] && run[0].b.ep.incomingAckId == 0;
    assert ds[0..] == ds;
    InvariantOverEveryRun(run, j);
    CountedFromOne(run[j].a, run[j].b);
  }

  lemma {:induction false} CountedFromOne(s: Side, r: Side)
    requires BothWays(s, r) && CountUp(r.delivered)
    ensures |r.delivered| <= |s.sent| && r.delivered == Numbered(s.sent, |r.delivered|) == FirstSeen(r.delivered)
    ensures r.delivered != [] ==> r.delivered[|r.delivered| - 1].id == |r.delivered|
  {
    hide BothWays, FirstSeen, Highest, Ids, Numbered, CountUp;
    var ds := r.delivered;
    ReachedIds(s, r);
    PositiveIds(s, r);
    HistoryIs(s, r);
    if ds == [] {
      HighestOfNothing();
      NothingNumbered(s.sent);
    } else {
      HighestIsLast(ds);
      CountsFrom(ds);
      StartsAtOne(ds);
      IsNumbered(ds, s.sent);
    }
  }

  lemma {:induction false} StartsAtOne(ds: seq<Delivery>)
    requires ds != [] && (forall i | 0 <= i < |ds| :: ds[i].id == ds[0].id + i)
    requires (forall d | d in ds :: d.id >= 1) && forall id: nat :: id in Ids(ds) <==> 1 <= id <= Highest(ds)
    requires Highest(ds) == ds[|ds| - 1].id
    ensures ds[0].id == 1
  {
    hide Highest;
    assert ds[|ds| - 1] in ds && ds[0] in ds;
    assert 1 in Ids(ds);
    var d :| d in ds && d.id == 1;
  }

  lemma {:induction false} IsNumbered(ds: seq<Delivery>, sent: seq<Bytes>)
    requires forall i | 0 <= i < |ds| :: ds[i].id == i + 1
    requires forall d | d in ds :: 1 <= d.id <= |sent| && d.body == sent[d.id - 1]
    ensures |ds| <= |sent| && ds == Numbered(sent, |ds|)
  {
    assert forall i | 0 <= i < |ds| :: ds[i] in ds && ds[i] == Delivery(i + 1, ds[i].body);
    assert ds != [] ==> ds[|ds| - 1] in ds;
  }

  lemma {:induction false} NothingNumbered(sent: seq<Bytes>)
    ensures Numbered(sent, 0) == []
  {
  }

  lemma {:induction false} HighestOfNothing()
    ensures Highest([]) == 0
  {
  }

  lemma {:induction false} HistoryIs(s: Side, r: Side)
    requires BothWays(s, r)
    ensures Highest(r.delivered) <= |s.sent| && FirstSeen(r.delivered) == Numbered(s.sent, Highest(r.delivered))
  {
  }

  lemma {:induction false} CountsFrom(ds: seq<Delivery>)
    requires ds != [] && CountUp(ds)
    ensures forall i | 0 <= i < |ds| :: ds[i].id == ds[0].id + i
    decreases |ds|
  {
    if |ds| > 1 {
      var front := ds[..|ds| - 1];
      CountsFrom(front);
      assert forall i | 0 <= i < |front| :: front[i] == ds[i];
      assert ds[|ds| - 2 + 1].id == ds[|ds| - 2].id + 1;
    }
  }

  lemma {:induction false} HighestIsLast(ds: seq<Delivery>)
    requires ds != [] && CountUp(ds)
    ensures Highest(ds) == ds[|ds| - 1].id
    decreases |ds|
  {
    var front := ds[..|ds| - 1];
    if front == [] {
      assert Highest(front) == 0;
    } else {
      HighestIsLast(front);
      assert ds[|ds| - 2 + 1].id == ds[|ds| - 2].id + 1;
    }
  }

  // On the first socket the acknowledged id never goes back.
  lemma {:induction false} AckNeverGoesBackOnFirstSocket(run: seq<System>, k: nat, j: nat)
    requires IsRun(run) && k <= j < |run| && run[j].b.epoch == 0
    ensures run[k].b.ep.incomingAckId <= run[j].b.ep.incomingAckId
  {
    RunReadsOn(run, k, j);
    FirstSocketIsExactlyOnce(run, k);
    FirstSocketIsExactlyOnce(run, j);
  }

  // The messages that have left a sender's queue.
  function Confirmed(s: Side): int {
    |s.sent| - |s.ep.unacked|
  }

  // From any state of a run, moving both ends to a fresh socket puts the queue on the wire, and the reader will be
  // given exactly those of its messages again that it has but that had not left the queue. So a reconnect repeats
  // nothing if and only if every delivered message has left the queue.
  lemma {:induction false} WhatAReconnectRepeats(run: seq<System>, k: nat, epoch: nat)
    requires IsRun(run) && k < |run| && epoch > run[k].a.epoch && epoch > run[k].b.epoch
    ensures var s, r := run[k].a, run[k].b;
            var s', r' := DoReplace(s, epoch), DoReplace(r, epoch);
      && Unread(s'.wire, epoch, r'.pos, epoch) == Messages(s.ep.unacked)
      && Confirmed(s) <= Highest(r.delivered)
      && (forall i | 0 <= i < |s.ep.unacked| ::
            s.ep.unacked[i].msg.id in Ids(r'.delivered) <==> i < Highest(r.delivered) - Confirmed(s))
      && ((forall i | 0 <= i < |s.ep.unacked| :: s.ep.unacked[i].msg.id !in Ids(r'.delivered))
          <==> Confirmed(s) == Highest(r.delivered))
  {
    InvariantOverEveryRun(run, k);
    RepeatsOfReplay(run[k].a, run[k].b, epoch);
  }

  lemma {:induction false} RepeatsOfReplay(s: Side, r: Side, epoch: nat)
    requires BothWays(s, r) && epoch > s.epoch && epoch > r.epoch
    ensures var s', r' := DoReplace(s, epoch), DoReplace(r, epoch);
      && Unread(s'.wire, epoch, r'.pos, epoch) == Messages(s.ep.unacked)
      && Confirmed(s) <= Highest(r.delivered)
      && (forall i | 0 <= i < |s.ep.unacked| ::
            s.ep.unacked[i].msg.id in Ids(r'.delivered) <==> i < Highest(r.delivered) - Confirmed(s))
      && ((forall i | 0 <= i < |s.ep.unacked| :: s.ep.unacked[i].msg.id !in Ids(r'.delivered))
          <==> Confirmed(s) == Highest(r.delivered))
  {
    hide Highest, FirstSeen, Feeds, HighAfter;
    var q := s.ep.unacked;
    assert Messages(q)[0..] == Messages(q);
    assert forall i | 0 <= i < |q| :: q[i].msg.id == Confirmed(s) + i + 1;
    ReachedIds(s, r);
    HistoryIs(s, r);
    if Confirmed(s) < Highest(r.delivered) {
      assert q[0].msg.id in Ids(r.delivered);
    }
  }

  // -- Acks catch up --

  // The reader's ack is the last id it was given on its socket, if it was given any.
  ghost predicate AckFollows(s: Side, r: Side) {
    var wire := Wire(s.wire, r.epoch);
    r.pos <= |wire| && (LastId(wire[..r.pos]) == 0 || r.ep.incomingAckId == LastId(wire[..r.pos]))
  }

  lemma {:induction false} LastIdOfParts(front: seq<Message>, more: seq<Message>)
    ensures var ds := DeliveriesOf(more);
            LastId(front + more) == if ds == [] then LastId(front) else ds[|ds| - 1].id
    decreases |more|
  {
    if more == [] {
      assert front + more == front;
    } else {
      var n := |more| - 1;
      assert (front + more)[..|front + more| - 1] == front + more[..n];
      LastIdOfParts(front, more[..n]);
    }
  }

  lemma {:induction false} AckFollowsOn(r: Side, r': Side, before: seq<Message>, wire: seq<Message>)
    requires before <= wire && r.pos <= |before| && ReadOn(r, r', wire)
    requires LastId(before[..r.pos]) == 0 || r.ep.incomingAckId == LastId(before[..r.pos])
    ensures LastId(wire[..r'.pos]) == 0 || r'.ep.incomingAckId == LastId(wire[..r'.pos])
  {
    hide LastId, DeliveriesOf;
    assert wire[..r'.pos] == before[..r.pos] + wire[r.pos..r'.pos];
    LastIdOfParts(before[..r.pos], wire[r.pos..r'.pos]);
  }

  lemma {:induction false} AckFollowsOverEveryRun(run: seq<System>, k: nat)
    requires IsRun(run) && k < |run|
    ensures AckFollows(run[k].a, run[k].b)
    decreases k
  {
    hide BothWays, Next, LastId, DeliveriesOf;
    InvariantOverEveryRun(run, k);
    NothingRead(run[k].a, run[k].b);
    var epoch := run[k].b.epoch;
    var wire := Wire(run[k].a.wire, epoch);
    if run[k].b.pos == 0 {
      assert wire[..0] == [];
      NothingWritten();
    } else {
      assert k > 0;
      AckFollowsOverEveryRun(run, k - 1);
      InvariantOverEveryRun(run, k - 1);
      assert Next(run[k - 1], run[k - 1 + 1]);
      StepReadsOn(run[k - 1], run[k]);
      AckFollowsOn(run[k - 1].b, run[k].b, Wire(run[k - 1].a.wire, epoch), wire);
    }
  }

  lemma {:induction false} NothingWritten()
    ensures LastId([]) == 0
  {
  }

  // On a common socket that has been read to its end, the reader's ack covers the whole queue of the sender: reading
  // any frame with that ack, as all frames are that the reader writes from then on, empties the queue, and a reconnect
  // then repeats nothing.
  lemma {:induction false} AcksCatchUp(run: seq<System>, k: nat, m: Message, now: int)
    requires IsRun(run) && k < |run|
    requires run[k].a.epoch == run[k].b.epoch && run[k].b.pos == |Wire(run[k].a.wire, run[k].a.epoch)|
    requires m.ack == run[k].b.ep.incomingAckId
    ensures var s, r := run[k].a, run[k].b;
            var s' := DoRead(s, m, now);
      && (s.ep.unacked == [] || r.ep.incomingAckId == |s.sent|)
      && s'.ep.unacked == [] && Confirmed(s') == Highest(r.delivered) == |s.sent|
  {
    hide BothWays, WiresRise, LastId, Highest, DropAcked, BodyBytes;
    var s, r := run[k].a, run[k].b;
    AckFollowsOverEveryRun(run, k);
    RisingOverEveryRun(run, k);
    NothingLostOverEveryRun(run, k);
    SentSide(s, r);
    LastWritten(s);
    assert Wire(s.wire, r.epoch)[..r.pos] == s.ep.written;
    AllConfirmed(s.ep, m.ack);
  }

  lemma {:induction false} LastWritten(s: Side)
    requires WiresRise(s)
    ensures s.ep.unacked == [] || LastId(s.ep.written) == |s.sent| != 0
  {
    hide LastId, Rising;
  }

  lemma {:induction false} AllConfirmed(ep: Endpoint, ack: nat)
    requires QueueConsecutive(ep) && (ep.unacked == [] || ack == ep.outgoingMsgId)
    ensures DropAcked(ep.unacked, ack) == []
  {
    hide DropAcked;
    DropsAll(ep.unacked, ack);
  }

  lemma {:induction false} DropsAll(q: seq<Entry>, ack: nat)
    requires forall i | 0 <= i < |q| :: q[i].msg.id <= ack
    ensures DropAcked(q, ack) == []
    decreases |q|
  {
    if q != [] {
      DropsAll(q[1..], ack);
    }
  }

  // Every frame that a side writes on its socket carries the ack it has at that time; sending writes the message with
  // the next id, and the keep-alive timer always writes a frame.
  lemma {:induction false} WrittenCarryTheAck(r: Side, peer: Side, r': Side)
    requires SideStep(r, peer, r') && r'.epoch == r.epoch
    ensures r.ep.written <= r'.ep.written
    ensures forall m | m in r'.ep.written[|r.ep.written|..] :: m.ack == r.ep.incomingAckId
  {
    hide Send, Receive, KeepAlive, AckCheck;
    if body: Bytes, now :| |r.sent| + 1 < TWO_32 && |body| < TWO_32 && r' == DoSend(r, body, now) {
      SendWrites(r.ep, r.limits, body, now);
      assert r'.ep.written[|r.ep.written|..] == WrittenBySend(r.ep, r.limits, body);
    } else if now :| r.pos < |Wire(peer.wire, r.epoch)| && r' == DoRead(r, Wire(peer.wire, r.epoch)[r.pos], now) {
      ReceiveWrites(r.ep, r.limits, Wire(peer.wire, r.epoch)[r.pos], now);
    } else if ack, now :| r' == DoTimer(r, ack, now) {
      TimerCarriesTheAck(r, ack, now);
    }
  }

  lemma {:induction false} TimerCarriesTheAck(r: Side, ack: bool, now: int)
    ensures var r' := DoTimer(r, ack, now);
            var more := r'.ep.written[|r.ep.written|..];
      && r.ep.written <= r'.ep.written
      && (forall m | m in more :: m.ack == r.ep.incomingAckId)
      && (!ack ==> more == [Message(9, 0, r.ep.incomingAckId, [])])
  {
    var r' := DoTimer(r, ack, now);
    var goodbye, alive := Message(DISCONNECT, 0, r.ep.incomingAckId, []), Message(9, 0, r.ep.incomingAckId, []);
    assert r'.ep.written in {r.ep.written, r.ep.written + [goodbye], r.ep.written + [alive]};
  }

  // So once a common socket has been read to its end, whatever the reader writes next confirms the whole queue, and its
  // keep-alive timer makes it write.
  lemma {:induction false} NextFrameConfirms(run: seq<System>, k: nat, r': Side, m: Message, now: int)
    requires IsRun(run) && k < |run| && SideStep(run[k].b, run[k].a, r') && r'.epoch == run[k].b.epoch
    requires run[k].a.epoch == run[k].b.epoch && run[k].b.pos == |Wire(run[k].a.wire, run[k].a.epoch)|
    requires m in r'.ep.written[|run[k].b.ep.written|..]
    ensures DoRead(run[k].a, m, now).ep.unacked == []
    ensures DoTimer(run[k].b, false, now).ep.written != run[k].b.ep.written
  {
    hide BothWays, SideStep, IsRun, DoRead;
    WrittenCarryTheAck(run[k].b, run[k].a, r');
    AcksCatchUp(run, k, m, now);
    TimerCarriesTheAck(run[k].b, false, now);
  }

  // The two sides play the same part: what holds of `b` reading from `a` holds the other way round.
  function Mirrored(run: seq<System>): seq<System> {
    seq(|run|, i requires 0 <= i < |run| => System(run[i].b, run[i].a))
  }

  lemma {:induction false} MirroredIsRun(run: seq<System>)
    requires IsRun(run)
    ensures IsRun(Mirrored(run))
  {
    hide SideStep;
    var m := Mirrored(run);
    var la, lb, t :| run[0] == System(InitialSide(la, t), InitialSide(lb, t));
    assert m[0] == System(InitialSide(lb, t), InitialSide(la, t));
    forall k | 0 <= k < |m| - 1
      ensures Next(m[k], m[k + 1])
    {
      assert Next(run[k], run[k + 1]);
    }
  }
}
