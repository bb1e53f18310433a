// What the message listeners of two endpoints are given over a run: packages/rpc/src/persistent-protocol.ts.

module Listeners {
  import opened Buffers
  import opened Framing
  import opened PersistentProtocols
  import opened EndpointHistory
  import opened TwoEndpoints
  import opened Redelivery

  // -- Events and deliveries --

  function Bodies(ds: seq<Delivery>): seq<Bytes> {
    seq(|ds|, i requires 0 <= i < |ds| => ds[i].body)
  }

  // The ids under which the messages arrived.
  function IdsRead(ds: seq<Delivery>): seq<nat> {
    seq(|ds|, i requires 0 <= i < |ds| => ds[i].id)
  }

  // The listener was told the bodies of what was read, in order.
  ghost predicate ToldRight(s: Side) {
    Told(s.ep.events) == Bodies(s.delivered)
  }

  lemma {:induction false} StepKeepsTold(s: Side, peer: Side, s': Side)
    requires ToldRight(s) && SideStep(s, peer, s')
    ensures ToldRight(s')
  {
    hide Told, Bodies, Step;
    if body: Bytes, now :| |s.sent| + 1 < TWO_32 && |body| < TWO_32 && s' == DoSend(s, body, now) {
      OtherInputsTellNothing(s, InSend(body, now));
    } else if epoch: nat :| epoch > s.epoch && s' == DoReplace(s, epoch) {
      OtherInputsTellNothing(s, InReplaceSocket);
    } else if now :| s.pos < |Wire(peer.wire, s.epoch)| && s' == DoRead(s, Wire(peer.wire, s.epoch)[s.pos], now) {
      ReadTells(s, Wire(peer.wire, s.epoch)[s.pos], now);
    } else {
      var ack, now :| s' == DoTimer(s, ack, now);
      OtherInputsTellNothing(s, if ack then InAckCheck(now) else InKeepAlive);
    }
  }

  lemma {:induction false} OtherInputsTellNothing(s: Side, input: Input)
    requires !input.InFrame?
    ensures Told(Step(s.ep, s.limits, input).events) == Told(s.ep.events)
    ensures input.InSend? ==> Step(s.ep, s.limits, input) == Send(s.ep, s.limits, input.body, input.now)
    ensures input.InReplaceSocket? ==> Step(s.ep, s.limits, input) == ReplaceSocket(s.ep)
    ensures input.InAckCheck? ==> Step(s.ep, s.limits, input) == AckCheck(s.ep, s.limits, input.now)
    ensures input.InKeepAlive? ==> Step(s.ep, s.limits, input) == KeepAlive(s.ep)
  {
    hide Told;
    StepTells(s.ep, s.limits, input);
  }

  lemma {:induction false} ReadTells(s: Side, m: Message, now: int)
    requires ToldRight(s)
    ensures ToldRight(DoRead(s, m, now))
  {
    hide Told, Receive;
    StepTells(s.ep, s.limits, InFrame(m, now));
    assert Step(s.ep, s.limits, InFrame(m, now)) == Receive(s.ep, s.limits, m, now);
  }

  lemma {:induction false} ToldOverEveryRun(run: seq<System>, k: nat)
    requires IsRun(run) && k < |run|
    ensures ToldRight(run[k].a) && ToldRight(run[k].b)
    decreases k
  {
    hide ToldRight, SideStep;
    if k == 0 {
      NobodyTold(run[0].a, run[0].b);
    } else {
      var s, t := run[k - 1], run[k];
      ToldOverEveryRun(run, k - 1);
      assert Next(run[k - 1], run[k - 1 + 1]);
      if t.b == s.b && SideStep(s.a, s.b, t.a) {
        StepKeepsTold(s.a, s.b, t.a);
      } else {
        StepKeepsTold(s.b, s.a, t.b);
      }
    }
  }

  lemma {:induction false} NobodyTold(a: Side, b: Side)
    requires exists la, lb, t :: System(a, b) == System(InitialSide(la, t), InitialSide(lb, t))
    ensures ToldRight(a) && ToldRight(b)
  {
  }

  // -- Nothing is lost on the way to the listener --

  // The bodies at the first occurrences of ids.
  function FirstOfEach(ids: seq<nat>, bodies: seq<Bytes>): seq<Bytes>
    requires |ids| == |bodies|
  {
    if ids == [] then []
    else var n := |ids| - 1;
         FirstOfEach(ids[..n], bodies[..n]) + if ids[n] in ids[..n] then [] else [bodies[n]]
  }

  lemma {:induction false} FirstOfEachIsFirstSeen(ds: seq<Delivery>)
    ensures FirstOfEach(IdsRead(ds), Bodies(ds)) == Bodies(FirstSeen(ds))
    decreases |ds|
  {
    if ds != [] {
      var n := |ds| - 1;
      var front, ids := ds[..n], IdsRead(ds);
      FirstOfEachIsFirstSeen(front);
      assert IdsRead(front) == ids[..n] && Bodies(front) == Bodies(ds)[..n];
      SameIds(front, ds[n].id);
      assert Bodies(FirstSeen(front) + [ds[n]]) == Bodies(FirstSeen(front)) + [ds[n].body];
      assert FirstSeen(front) + [] == FirstSeen(front) && Bodies(FirstSeen(front)) + [] == Bodies(FirstSeen(front));
    }
  }

  lemma {:induction false} SameIds(ds: seq<Delivery>, id: nat)
    ensures id in IdsRead(ds) <==> id in Ids(ds)
  {
    if id in IdsRead(ds) {
      var i :| 0 <= i < |ds| && IdsRead(ds)[i] == id;
      assert ds[i] in ds;
    }
    if id in Ids(ds) {
      var d :| d in ds && d.id == id;
      var i :| 0 <= i < |ds| && ds[i] == d;
      assert IdsRead(ds)[i] == id;
    }
  }

  // What a listener was given by reader `r` of the messages that `s` was passed. `ids` are those the messages came
  // with.
  ghost predicate ListenerHasAll(s: Side, r: Side) {
    var told, ids := Told(r.ep.events), IdsRead(r.delivered);
    && |told| == |ids|
    // whatever it was given is a message that was sent, the one of its id
    && (forall i | 0 <= i < |told| :: 1 <= ids[i] <= |s.sent| && told[i] == s.sent[ids[i] - 1])
    // repeats left out, these are the first messages sent, in order and without a gap
    && (exists n: nat | n <= |s.sent| ::
          && FirstOfEach(ids, told) == s.sent[..n]
          // on a common socket that has been read to its end, all of them
          && (s.epoch == r.epoch && r.pos == |Wire(s.wire, s.epoch)| ==> n == |s.sent|))
  }

  lemma {:induction false} NumberedBodies(sent: seq<Bytes>, n: nat)
    requires n <= |sent|
    ensures Bodies(Numbered(sent, n)) == sent[..n]
  {
  }

  lemma {:induction false} HasAll(s: Side, r: Side)
    requires NothingLost(s, r) && ToldRight(r)
    ensures ListenerHasAll(s, r)
  {
    hide Told, FirstSeen, Highest, Numbered, FirstOfEach;
    var ds, high := r.delivered, Highest(r.delivered);
    FirstOfEachIsFirstSeen(ds);
    NumberedBodies(s.sent, high);
    assert forall i | 0 <= i < |ds| :: ds[i] in ds;
    assert FirstOfEach(IdsRead(ds), Told(r.ep.events)) == s.sent[..high];
  }

  // Over every run, with sockets cut and replaced at any time on either side.
  lemma {:induction false} ListenersHaveAllOverEveryRun(run: seq<System>, k: nat)
    requires IsRun(run) && k < |run|
    ensures ListenerHasAll(run[k].a, run[k].b) && ListenerHasAll(run[k].b, run[k].a)
  {
    hide ToldRight, NothingLost, ListenerHasAll;
    NothingLostOverEveryRun(run, k);
    ToldOverEveryRun(run, k);
    HasAll(run[k].a, run[k].b);
    HasAll(run[k].b, run[k].a);
  }

  // While the reader has its first socket, the listener was given the first messages sent, each once and in order.
  lemma {:induction false} ListenedOnceOnFirstSocket(run: seq<System>, k: nat)
    requires IsRun(run) && k < |run| && run[k].b.epoch == 0
    ensures Told(run[k].b.ep.events) <= run[k].a.sent
  {
    hide Told, FirstSeen, IsRun;
    ToldOverEveryRun(run, k);
    FirstSocketIsExactlyOnce(run, k);
    NumberedBodies(run[k].a.sent, |run[k].b.delivered|);
  }
}
