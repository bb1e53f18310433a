// Model of packages/rpc/src/channelClient.ts: promise requests, their one settlement, and when they may be sent. The
// methods are the atomic steps between callbacks; listeners only record.

module ChannelClients {
  type RequestId = nat

  datatype Handler = PromiseHandler | EventHandler

  // The kinds of response that carry a request id.
  datatype ResponseType = PromiseSuccess | PromiseError | PromiseErrorObj | EventFire

  datatype How = Responded(kind: ResponseType) | Cancelled | ConnectionClosed

  // What happens, in order.
  datatype Happening =
    | Initialized
    | Disposed
    | RequestSent(id: RequestId)
    | CancelSent(id: RequestId)
    | Settled(id: RequestId, how: How)
    | EventFired(id: RequestId)

  // What a history comes to.
  datatype Facts = Facts(initialized: bool, disposed: bool, sent: set<RequestId>, cancelled: set<RequestId>,
                         settled: set<RequestId>)

  function Next(f: Facts, h: Happening): Facts {
    match h
    case Initialized => f.(initialized := true)
    case Disposed => f.(disposed := true)
    case RequestSent(id) => f.(sent := f.sent + {id})
    case CancelSent(id) => f.(cancelled := f.cancelled + {id})
    case Settled(id, _) => f.(settled := f.settled + {id})
    case EventFired(_) => f
  }

  function FactsOf(log: seq<Happening>): Facts {
    if log == [] then Facts(false, false, {}, {}, {}) else Next(FactsOf(log[..|log| - 1]), log[|log| - 1])
  }

  // What may happen, given what went before.
  predicate Allowed(f: Facts, h: Happening) {
    match h
    case RequestSent(id) => f.initialized && !f.disposed && id !in f.sent && id !in f.cancelled && id !in f.settled
    case CancelSent(id) => !f.disposed && id !in f.cancelled && id !in f.settled
    case Settled(id, how) =>
      && id !in f.settled
      && (how.Responded? ==> id in f.sent && id !in f.cancelled && !f.disposed)
      && (how.ConnectionClosed? ==> f.disposed)
    case Disposed => !f.disposed
    case _ => true
  }

  predicate Orderly(log: seq<Happening>) {
    log == [] || (Orderly(log[..|log| - 1]) && Allowed(FactsOf(log[..|log| - 1]), log[|log| - 1]))
  }

  // Something that happened is among the facts.
  lemma {:induction false} FactsRemember(log: seq<Happening>, i: nat)
    requires i < |log|
    ensures var f := FactsOf(log);
            match log[i]
            case Initialized => f.initialized
            case Disposed => f.disposed
            case RequestSent(id) => id in f.sent
            case CancelSent(id) => id in f.cancelled
            case Settled(id, _) => id in f.settled
            case EventFired(_) => true
    decreases |log|
  {
    if i < |log| - 1 {
      FactsRemember(log[..|log| - 1], i);
    }
  }

  // The facts have nothing that did not happen.
  lemma {:induction false} FactsHappened(log: seq<Happening>)
    ensures FactsOf(log).initialized ==> Initialized in log
    ensures forall id | id in FactsOf(log).sent :: RequestSent(id) in log
    decreases |log|
  {
    if log != [] {
      FactsHappened(log[..|log| - 1]);
    }
  }

  lemma {:induction false} OrderlyPrefix(log: seq<Happening>, n: nat)
    requires Orderly(log) && n <= |log|
    ensures Orderly(log[..n])
    decreases |log|
  {
    if n == |log| {
      assert log[..n] == log;
    } else {
      assert log[..|log| - 1][..n] == log[..n];
      OrderlyPrefix(log[..|log| - 1], n);
    }
  }

  // In an orderly history a request is settled at most once, and sent at most once: after Initialize, and neither after
  // its settlement, nor after its cancel, nor after the disposal. A response settles only what was sent.
  lemma {:induction false} OrderlyMeans(log: seq<Happening>, i: nat, j: nat)
    requires Orderly(log) && i < j < |log|
    ensures log[i].Settled? && log[j].Settled? ==> log[i].id != log[j].id
    ensures log[j].RequestSent? ==>
      && log[i] != log[j] && !log[i].Disposed? && log[i] != CancelSent(log[j].id)
      && (log[i].Settled? ==> log[i].id != log[j].id)
      && Initialized in log[..j]
    ensures log[j].Settled? && log[j].how.Responded? ==>
      log[i] != CancelSent(log[j].id) && !log[i].Disposed? && RequestSent(log[j].id) in log[..j]
  {
    OrderlyPrefix(log, j + 1);
    assert log[..j + 1][..j] == log[..j] && log[..j][i] == log[i];
    FactsRemember(log[..j], i);
    FactsHappened(log[..j]);
  }

  class ChannelClient {
    var initialized: bool
    var disposed: bool
    var lastRequestId: RequestId
    var handlers: map<RequestId, Handler>
    var pendingRejections: set<RequestId>
    var queued: set<RequestId>
    ghost var issued: set<RequestId>
    ghost var log: seq<Happening>

    ghost predicate Valid()
      reads this
    {
      Consistent() && (disposed ==> pendingRejections == {})
    }

    ghost predicate Consistent()
      reads this
    {
      var f := FactsOf(log);
      && Orderly(log) && initialized == f.initialized && disposed == f.disposed
      && (forall id | id in issued || id in handlers :: id < lastRequestId)
      && f.settled <= issued && f.sent <= issued && f.cancelled <= f.settled
      // The pending rejections are exactly those of the unsettled requests.
      && pendingRejections == issued - f.settled
      // A pending request that was sent has a handler, and no other request has one.
      && (forall id :: (id in handlers && id in issued) <==> id in pendingRejections && id in f.sent)
      && (forall id | id in handlers :: handlers[id].PromiseHandler? <==> id in issued)
      // A pending request that was not sent waits for Initialize.
      && queued <= issued - f.sent && pendingRejections <= queued + f.sent
    }

    constructor ()
      ensures Valid() && log == [] && issued == {} && !disposed && !initialized
    {
      initialized, disposed, lastRequestId, handlers, pendingRejections, queued := false, false, 0, map[], {}, {};
      issued, log := {}, [];
    }

    ghost method Record(h: Happening)
      requires Orderly(log) && Allowed(FactsOf(log), h)
      modifies this`log
      ensures log == old(log) + [h] && Orderly(log) && FactsOf(log) == Next(FactsOf(old(log)), h)
    {
      assert (log + [h])[..|log|] == log;
      log := log + [h];
    }

    // A promise call. A disposed client refuses it; a cancelled token rejects it at once.
    method Call(alreadyCancelled: bool) returns (accepted: bool, id: RequestId)
      requires Valid()
      modifies this
      ensures Valid() && accepted == !old(disposed)
      ensures !accepted ==> log == old(log) && issued == old(issued)
      ensures accepted ==>
        && id !in old(issued) && issued == old(issued) + {id}
        && log == old(log) + (if alreadyCancelled then [Settled(id, Cancelled)]
                              else if initialized then [RequestSent(id)] else [])
    {
      if disposed {
        return false, 0;
      }
      hide FactsOf, Orderly;
      accepted, id := true, lastRequestId;
      lastRequestId := lastRequestId + 1;
      issued := issued + {id};
      if alreadyCancelled {
        Record(Settled(id, Cancelled));
        return;
      }
      pendingRejections := pendingRejections + {id};
      queued := queued + {id};
      if initialized {
        DoRequest(id);
      }
    }

    // What is left of a queued request once the client is initialized.
    method DoRequest(id: RequestId)
      requires Valid() && initialized && id in queued
      modifies this`queued, this`handlers, this`log
      ensures Valid() && queued == old(queued) - {id}
      ensures log == old(log) + if !disposed && id in pendingRejections then [RequestSent(id)] else []
    {
      hide FactsOf, Orderly;
      queued := queued - {id};
      if disposed || id !in pendingRejections {
        return;
      }
      handlers := handlers[id := PromiseHandler];
      Record(RequestSent(id));
    }

    method Listen() returns (accepted: bool, id: RequestId)
      requires Valid()
      modifies this`lastRequestId, this`handlers
      ensures Valid() && accepted == !disposed
    {
      if disposed {
        return false, 0;
      }
      accepted, id := true, lastRequestId;
      lastRequestId := lastRequestId + 1;
      handlers := handlers[id := EventHandler];
    }

    method OnInitialize()
      requires Valid() && !disposed
      modifies this`initialized, this`log
      ensures Valid() && initialized && log == old(log) + [Initialized]
    {
      initialized := true;
      Record(Initialized);
    }

    // A response settles the request with its id, if that was sent and is pending; late and repeated ones change
    // nothing.
    method OnResponse(kind: ResponseType, id: RequestId)
      requires Valid()
      modifies this`handlers, this`pendingRejections, this`log
      ensures Valid()
      ensures var settles := !kind.EventFire? && id in old(pendingRejections) && id in old(FactsOf(log)).sent;
        if settles
        then log == old(log) + [Settled(id, Responded(kind))] && pendingRejections == old(pendingRejections) - {id}
        else pendingRejections == old(pendingRejections)
             && log == old(log)
                       + if id in old(handlers) && old(handlers)[id].EventHandler? then [EventFired(id)] else []
    {
      hide FactsOf, Orderly;
      if id !in handlers {
        return;
      }
      if handlers[id].EventHandler? {
        Record(EventFired(id));
        return;
      }
      if kind.EventFire? {
        return;
      }
      handlers := handlers - {id};
      pendingRejections := pendingRejections - {id};
      Record(Settled(id, Responded(kind)));
    }

    // The token of a request is cancelled. The cancel message goes out even before Initialize.
    method OnCancellationRequested(id: RequestId)
      requires Valid() && id in issued
      modifies this`handlers, this`pendingRejections, this`log
      ensures Valid()
      ensures if id in old(pendingRejections)
              then log == old(log) + [CancelSent(id)] + [Settled(id, Cancelled)]
                   && pendingRejections == old(pendingRejections) - {id}
              else log == old(log) && pendingRejections == old(pendingRejections)
    {
      hide FactsOf, Orderly;
      if id !in pendingRejections {
        return;
      }
      Record(CancelSent(id));
      handlers := handlers - {id};
      pendingRejections := pendingRejections - {id};
      Record(Settled(id, Cancelled));
    }

    // Every unsettled request is rejected, sent or not.
    method Dispose()
      requires Valid()
      modifies this`disposed, this`handlers, this`pendingRejections, this`log
      ensures Valid() && disposed && pendingRejections == {}
      ensures issued == FactsOf(log).settled
      ensures if old(disposed) then log == old(log) else OnlyRejects(old(log) + [Disposed], log, old(pendingRejections))
    {
      hide FactsOf, Orderly, OnlyRejects, Consistent;
      if disposed {
        AllSettled();
        return;
      }
      Close();
      RejectsNone(log, pendingRejections);
      while pendingRejections != {}
        invariant Consistent() && disposed && pendingRejections <= old(pendingRejections)
        invariant OnlyRejects(old(log) + [Disposed], log, old(pendingRejections))
        decreases |pendingRejections|
      {
        var id :| id in pendingRejections;
        RejectsOneMore(old(log) + [Disposed], log, old(pendingRejections), id);
        RejectOne(id);
      }
      AllSettled();
    }

    lemma {:induction false} AllSettled()
      requires Consistent() && pendingRejections == {}
      ensures issued == FactsOf(log).settled
    {
      hide FactsOf, Orderly;
    }

    method Close()
      requires Consistent() && !disposed
      modifies this`disposed, this`log
      ensures Consistent() && disposed && log == old(log) + [Disposed]
    {
      hide FactsOf, Orderly;
      disposed := true;
      Record(Disposed);
    }

    method RejectOne(id: RequestId)
      requires Consistent() && disposed && id in pendingRejections
      modifies this`handlers, this`pendingRejections, this`log
      ensures Consistent() && pendingRejections == old(pendingRejections) - {id}
      ensures log == old(log) + [Settled(id, ConnectionClosed)]
    {
      hide FactsOf, Orderly;
      pendingRejections := pendingRejections - {id};
      handlers := handlers - {id};
      Record(Settled(id, ConnectionClosed));
    }
  }

  // The log goes on from `before` with rejections of the given requests only.
  predicate OnlyRejects(before: seq<Happening>, log: seq<Happening>, ids: set<RequestId>) {
    && before <= log
    && forall i | |before| <= i < |log| :: log[i].Settled? && log[i].how == ConnectionClosed && log[i].id in ids
  }

  lemma {:induction false} RejectsNone(before: seq<Happening>, ids: set<RequestId>)
    ensures OnlyRejects(before, before, ids)
  {
  }

  lemma {:induction false} RejectsOneMore(before: seq<Happening>, log: seq<Happening>, ids: set<RequestId>,
                                          id: RequestId)
    requires OnlyRejects(before, log, ids) && id in ids
    ensures OnlyRejects(before, log + [Settled(id, ConnectionClosed)], ids)
  {
  }
}
