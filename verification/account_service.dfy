// Model of packages/provider/src/account-provider-service.ts: one refresh loop that coalesces requests, discards rounds
// that were overtaken, and starts fail-closed. The methods are the code segments between two awaits.

module AccountService {
  import opened Options
  import opened ProviderOrder
  import opened RefreshWaiters
  import opened AccountResolution

  datatype Config = Config(builtinRevision: string, configured: Configured)

  datatype Snapshot = Snapshot(revision: string, basedOn: string, overlays: Overlays, states: Option<States>)

  // The revision is the text of the other three parts, which can be parsed back.
  type RevisionOf = (string, Overlays, Option<States>) -> string
  type ParseRevision = string -> (string, Overlays, Option<States>)

  ghost predicate TellsApart(revisionOf: RevisionOf, parse: ParseRevision) {
    forall b, o, s :: parse(revisionOf(b, o, s)) == (b, o, s)
  }

  function CreateSnapshot(revisionOf: RevisionOf, basedOn: string, overlays: Overlays, states: Option<States>): Snapshot
  {
    Snapshot(revisionOf(basedOn, overlays, states), basedOn, overlays, states)
  }

  // A fail-closed snapshot has no states.
  function KnownStates(snapshot: Snapshot): States {
    if snapshot.states.Some? then snapshot.states.value else map[]
  }

  const SUPERSEDED: string := "superseded-resolution"

  // Where the loop stands: which answer it awaits and what the round has so far.
  datatype Loop =
    | Idle
    | ReadingConfig
    | Resolving(config: Config)
    | Rereading(config: Config, connections: seq<Connection>, overlays: Overlays, states: States)
    | Ended(failed: bool)

  datatype Settlement =
    | Resolved(snapshot: Snapshot, roundAt: nat)
    | Rejected(roundAt: nat)
    | ServiceDisposed

  // How a read of the source is answered.
  datatype Reading = Refused | Now(snapshot: Snapshot) | Joined | Requested(generation: nat)

  function FailClosedSnapshot(revisionOf: RevisionOf, config: Config): Snapshot {
    CreateSnapshot(revisionOf, config.builtinRevision, FailClosedOverlays(config.configured), None)
  }

  // A request is answered only by a round that began after it was issued.
  predicate Fair(s: Settlement, issuedAt: nat) {
    s.ServiceDisposed? || issuedAt < s.roundAt
  }

  lemma {:induction false} SameRevision(revisionOf: RevisionOf, parse: ParseRevision, a: Snapshot, b: Snapshot)
    requires TellsApart(revisionOf, parse)
    requires a == CreateSnapshot(revisionOf, a.basedOn, a.overlays, a.states)
    requires b == CreateSnapshot(revisionOf, b.basedOn, b.overlays, b.states)
    ensures a.revision == b.revision <==> a == b
  {
  }

  lemma {:induction false} AcceptedNext(trim: Id -> Id, rounds: seq<Round>, configured: Configured,
                                        connections: seq<Connection>)
    ensures OverlaysAfter(trim, rounds + [Queried(configured, connections)])
         == RoundOverlays(trim, configured, OverlaysAfter(trim, rounds), connections)
    ensures StatesAfter(trim, rounds + [Queried(configured, connections)])
         == RoundStates(connections, StatesAfter(trim, rounds),
                        RoundOverlays(trim, configured, OverlaysAfter(trim, rounds), connections))
  {
    hide RoundOverlays, RoundStates;
    assert (rounds + [Queried(configured, connections)])[..|rounds|] == rounds;
  }

  lemma {:induction false} FirstFailClosed(trim: Id -> Id, config: Config)
    ensures OverlaysAfter(trim, [FailClosed(config.configured)]) == FailClosedOverlays(config.configured)
    ensures StatesAfter(trim, [FailClosed(config.configured)]) == map[]
  {
  }

  lemma {:induction false} NoHistory(trim: Id -> Id)
    ensures OverlaysAfter(trim, []) == map[] && StatesAfter(trim, []) == map[]
  {
  }

  lemma {:induction false} LaterArePending(before: seq<Waiter>, generation: nat, pendingReasons: set<string>)
    requires forall w | w in before :: pendingReasons != {} || w.generation <= generation
    ensures Later(before, generation) != [] ==> pendingReasons != {}
  {
    assert Later(before, generation) != [] ==> Later(before, generation)[0] in before;
  }

  class AccountProviderService {
    const trim: Id -> Id
    const revisionOf: RevisionOf
    ghost const parse: ParseRevision
    var snapshot: Option<Snapshot>
    var latest: Option<Snapshot>
    var loop: Loop
    var generation: nat
    var reasons: set<string>
    var requestedGeneration: nat
    var pendingReasons: set<string>
    var waiters: seq<Waiter>
    var started: bool
    var disposed: bool
    ghost var clock: nat
    ghost var issuedAt: seq<nat>
    ghost var roundAt: nat
    ghost var settled: map<nat, Settlement>
    ghost var history: seq<Round>
    ghost var changes: seq<set<string>>

    predicate InRound()
      reads `loop
    {
      loop.ReadingConfig? || loop.Resolving? || loop.Rereading?
    }

    ghost predicate RequestsAccounted()
      reads `issuedAt, `requestedGeneration, `clock, `waiters, `settled
    {
      && |issuedAt| == requestedGeneration
      && (forall i | 0 <= i < |issuedAt| :: issuedAt[i] <= clock)
      && Accounted(Fair, issuedAt, waiters, settled)
    }

    // The round covers requests issued before it began; every other request waits for a round to come, which the
    // pending reasons announce.
    ghost predicate RoundsInOrder()
      reads `disposed, `waiters, `pendingReasons, `loop, `generation, `roundAt, `clock, `requestedGeneration, `issuedAt
    {
      && (disposed ==> waiters == [])
      && (forall w | w in waiters :: pendingReasons != {} || (InRound() && w.generation <= generation))
      && (InRound() ==>
            && roundAt <= clock && generation <= requestedGeneration == |issuedAt|
            && forall i | 0 <= i < generation :: issuedAt[i] < roundAt)
    }

    // Pending reasons keep a loop going.
    ghost predicate NoLostWakeup()
      reads this
    {
      pendingReasons != {} ==> !loop.Idle? || disposed
    }

    // The snapshot is what the accepted rounds add up to.
    ghost predicate SnapshotExplained()
      reads `snapshot, `history
    {
      && (snapshot.None? <==> history == [])
      && (snapshot.Some? ==>
            && snapshot.value.overlays == OverlaysAfter(trim, history)
            && KnownStates(snapshot.value) == StatesAfter(trim, history)
            && snapshot.value == CreateSnapshot(revisionOf, snapshot.value.basedOn, snapshot.value.overlays,
                                                snapshot.value.states))
    }

    // The loop goes on from the snapshot, and a round about to be accepted has resolved its connections against it.
    ghost predicate RoundExplained()
      reads this
    {
      && (InRound() ==> latest == snapshot)
      && (loop.Rereading? ==>
            && loop.overlays
               == RoundOverlays(trim, loop.config.configured, OverlaysAfter(trim, history), loop.connections)
            && loop.states == RoundStates(loop.connections, StatesAfter(trim, history), loop.overlays))
    }

    ghost predicate Consistent()
      reads this
    {
      RequestsAccounted() && RoundsInOrder() && SnapshotExplained() && RoundExplained() && TellsApart(revisionOf, parse)
    }

    ghost predicate Valid()
      reads this
    {
      Consistent() && NoLostWakeup()
    }

    constructor (trim: Id -> Id, revisionOf: RevisionOf, ghost parse: ParseRevision)
      requires TellsApart(revisionOf, parse)
      ensures Valid() && snapshot.None? && loop.Idle? && !disposed && !started && waiters == []
      ensures this.trim == trim && this.revisionOf == revisionOf
    {
      this.trim, this.revisionOf, this.parse := trim, revisionOf, parse;
      snapshot, latest, loop, generation, reasons := None, None, Idle, 0, {};
      requestedGeneration, pendingReasons, waiters, started, disposed := 0, {}, [], false, false;
      clock, issuedAt, roundAt, settled, history, changes := 0, [], 0, map[], [], [];
    }

    // -- Requests --

    // What reading the source gives: the snapshot at once, the outcome of the loop at work, or that of a new request.
    method Read() returns (r: Reading)
      requires Valid()
      modifies this
      ensures Valid() && snapshot == old(snapshot) && disposed == old(disposed)
      ensures r.Refused? <==> old(disposed)
      ensures !old(disposed) ==>
        if old(snapshot).Some? then r == Now(old(snapshot).value) && waiters == old(waiters)
        else if !old(loop).Idle? then r == Joined && waiters == old(waiters) && loop == old(loop)
        else r == Requested(requestedGeneration) && loop.ReadingConfig?
             && waiters == old(waiters) + [Waiter(requestedGeneration, "start")]
    {
      hide Accounted, TellsApart, OverlaysAfter, StatesAfter;
      if disposed {
        return Refused;
      }
      started := true;
      if snapshot.Some? {
        return Now(snapshot.value);
      }
      if !loop.Idle? {
        return Joined;
      }
      RequestRefresh("start");
      r := Requested(requestedGeneration);
    }

    method Refresh(reason: string) returns (ok: bool)
      requires Valid()
      modifies this
      ensures Valid() && ok == !old(disposed) && snapshot == old(snapshot)
      ensures ok ==> waiters == old(waiters) + [Waiter(requestedGeneration, reason)]
    {
      hide Accounted, TellsApart, OverlaysAfter, StatesAfter;
      if disposed {
        return false;
      }
      started := true;
      RequestRefresh(reason);
      ok := true;
    }

    // The config source reports a change; a disposed service no longer listens.
    method ConfigChanged(reason: string)
      requires Valid() && started && !disposed
      modifies this
      ensures Valid() && snapshot == old(snapshot) && |waiters| == |old(waiters)| + 1
    {
      RequestRefresh("config:" + if reason == "" then "changed" else reason);
    }

    method RequestRefresh(reason: string)
      requires Valid() && !disposed
      modifies this`requestedGeneration, this`pendingReasons, this`waiters, this`loop, this`reasons, this`generation,
               this`latest, this`clock, this`issuedAt, this`roundAt
      ensures Valid() && requestedGeneration == old(requestedGeneration) + 1
      ensures waiters == old(waiters) + [Waiter(requestedGeneration, reason)]
      ensures loop == if old(loop).Idle? then ReadingConfig else old(loop)
      ensures !old(loop).Idle? ==> pendingReasons == old(pendingReasons) + {reason}
    {
      hide Accounted, TellsApart, OverlaysAfter, StatesAfter, RoundOverlays, RoundStates;
      requestedGeneration := requestedGeneration + 1;
      pendingReasons := pendingReasons + {reason};
      assert reason in pendingReasons;
      issuedAt := issuedAt + [clock];
      OneMoreAccounted(Fair, old(issuedAt), clock, waiters, settled, reason);
      waiters := waiters + [Waiter(requestedGeneration, reason)];
      if loop.Idle? {
        StartRefresh();
      }
    }

    method StartRefresh()
      requires Consistent() && loop.Idle? && pendingReasons != {}
      modifies this`pendingReasons, this`loop, this`reasons, this`generation, this`latest, this`clock, this`roundAt
      ensures Valid() && loop == ReadingConfig && pendingReasons == {}
    {
      hide Accounted, TellsApart, OverlaysAfter, StatesAfter, RoundOverlays, RoundStates;
      latest := snapshot;
      BeginRound();
    }

    // -- The loop --

    // The head of the loop, up to the await of the config. Without pending reasons it ends; it never ends without a
    // snapshot.
    method BeginRound()
      requires RequestsAccounted() && TellsApart(revisionOf, parse) && SnapshotExplained()
      requires latest == snapshot && (snapshot.Some? || pendingReasons != {})
      requires (disposed ==> waiters == []) && (waiters != [] ==> pendingReasons != {})
      modifies this`pendingReasons, this`loop, this`reasons, this`generation, this`clock, this`roundAt
      ensures Valid() && pendingReasons == {}
      ensures loop == if old(pendingReasons) != {} then ReadingConfig else Ended(false)
      ensures old(pendingReasons) != {} ==> reasons == old(pendingReasons)
    {
      hide Accounted, TellsApart, SnapshotExplained;
      if pendingReasons != {} {
        generation := requestedGeneration;
        reasons := pendingReasons;
        pendingReasons := {};
        clock := clock + 1;
        roundAt := clock;
        loop := ReadingConfig;
        NobodyLater(Fair, issuedAt, waiters, settled);
      } else {
        loop := Ended(false);
      }
    }

    method SettleWaiters(upTo: nat, ghost outcome: Settlement)
      requires RequestsAccounted() && upTo <= |issuedAt|
      requires forall i | 0 <= i < upTo :: Fair(outcome, issuedAt[i])
      modifies this`waiters, this`settled
      ensures RequestsAccounted() && waiters == Later(old(waiters), upTo)
      ensures settled == Settle(old(settled), old(waiters), upTo, outcome)
    {
      hide Fair, Accounted, Later, Settle, Generations;
      SettledAccounted(Fair, issuedAt, waiters, settled, upTo, outcome);
      settled := Settle(settled, waiters, upTo, outcome);
      waiters := WaitersAfter(waiters, upTo);
    }

    // -- What a step may do to the requests and the snapshot --

    // Nothing: the round goes on or leaves no trace.
    twostate predicate Unanswered()
      reads this
    {
      && snapshot == old(snapshot) && history == old(history) && changes == old(changes)
      && waiters == old(waiters) && settled == old(settled)
    }

    twostate predicate RoundAnswered(outcome: Settlement)
      reads this
    {
      && waiters == Later(old(waiters), old(generation))
      && settled == Settle(old(settled), old(waiters), old(generation), outcome)
    }

    twostate predicate RoundRejected()
      reads this
    {
      && snapshot == old(snapshot) && history == old(history) && changes == old(changes) && loop == Ended(true)
      && RoundAnswered(Rejected(old(roundAt)))
    }

    // With the config known, a first round that fails gives the fail-closed snapshot, disposed or not.
    twostate predicate RoundFailed(config: Config)
      reads this
    {
      if old(snapshot).Some? then RoundRejected()
      else
        && snapshot == Some(FailClosedSnapshot(revisionOf, config))
        && snapshot.value.basedOn == config.builtinRevision && snapshot.value.states == None
        && (forall id :: id in snapshot.value.overlays <==> IsAccount(config.configured, id))
        && (forall id | id in snapshot.value.overlays :: snapshot.value.overlays[id] == Overlay(false, None))
        && history == [FailClosed(config.configured)] && changes == old(changes)
        && loop == (if old(pendingReasons) != {} then ReadingConfig else Ended(false))
        && RoundAnswered(Resolved(snapshot.value, old(roundAt)))
    }

    // The round's result is the snapshot, its connections join the history, and nobody is left waiting.
    twostate predicate RoundAccepted()
      reads this
    {
      var l := old(loop);
      && l.Rereading? && loop == Ended(false) && waiters == []
      && snapshot == Some(CreateSnapshot(revisionOf, l.config.builtinRevision, l.overlays, Some(l.states)))
      && snapshot.value.basedOn == l.config.builtinRevision
      && snapshot.value.overlays == l.overlays && snapshot.value.states == Some(l.states)
      && history == old(history) + [Queried(l.config.configured, l.connections)]
      && changes == old(changes) + (if old(snapshot).Some? && snapshot != old(snapshot) then [old(reasons)] else [])
      && RoundAnswered(Resolved(snapshot.value, old(roundAt)))
    }

    // Answers the requests that the round covers.
    method AnswerRound(ghost outcome: Settlement)
      requires RequestsAccounted() && RoundsInOrder() && InRound()
      requires outcome.Resolved? || outcome.Rejected?
      requires outcome.roundAt == roundAt
      modifies this`waiters, this`settled
      ensures RequestsAccounted() && RoundAnswered(outcome)
      ensures waiters != [] ==> pendingReasons != {}
    {
      hide Accounted;
      LaterArePending(waiters, generation, pendingReasons);
      SettleWaiters(generation, outcome);
    }

    method RejectRound()
      requires Valid() && InRound()
      modifies this`loop, this`waiters, this`settled
      ensures Valid() && RoundRejected()
    {
      hide RequestsAccounted, SnapshotExplained, TellsApart, OverlaysAfter, StatesAfter, RoundOverlays, RoundStates,
           Settle, Later;
      AnswerRound(Rejected(roundAt));
      loop := Ended(true);
    }

    method FailRound(config: Config)
      requires Valid() && InRound() && !loop.ReadingConfig?
      modifies this
      ensures Valid() && disposed == old(disposed) && RoundFailed(config)
    {
      hide Accounted, TellsApart, OverlaysAfter, StatesAfter, RoundOverlays, RoundStates, Settle;
      if latest.None? {
        StartFailClosed(config);
        return;
      }
      RejectRound();
    }

    method StartFailClosed(config: Config)
      requires Valid() && InRound() && latest.None?
      modifies this
      ensures Valid() && disposed == old(disposed) && RoundFailed(config)
    {
      hide RequestsAccounted, SnapshotExplained, TellsApart, OverlaysAfter, StatesAfter, RoundOverlays, RoundStates,
           Settle, Later;
      PublishFailClosed(config);
      AnswerRound(Resolved(latest.value, roundAt));
      BeginRound();
    }

    method PublishFailClosed(config: Config)
      modifies this`latest, this`snapshot, this`history
      ensures snapshot == latest == Some(FailClosedSnapshot(revisionOf, config))
      ensures history == [FailClosed(config.configured)] && SnapshotExplained()
    {
      hide OverlaysAfter, StatesAfter, FailClosedOverlays;
      latest := Some(FailClosedSnapshot(revisionOf, config));
      snapshot := latest;
      history := [FailClosed(config.configured)];
      FirstFailClosed(trim, config);
    }

    method Accept()
      requires Valid() && loop.Rereading? && !disposed && pendingReasons == {}
      modifies this
      ensures Valid() && disposed == old(disposed) && RoundAccepted()
    {
      hide RequestsAccounted, SnapshotExplained, RoundExplained, TellsApart, OverlaysAfter, StatesAfter, Settle, Later;
      PublishAccepted();
      AnswerRound(Resolved(latest.value, roundAt));
      BeginRound();
    }

    method PublishAccepted()
      requires loop.Rereading? && SnapshotExplained() && RoundExplained() && TellsApart(revisionOf, parse)
      modifies this`latest, this`snapshot, this`history, this`changes
      ensures snapshot == latest
           == Some(CreateSnapshot(revisionOf, loop.config.builtinRevision, loop.overlays, Some(loop.states)))
      ensures history == old(history) + [Queried(loop.config.configured, loop.connections)] && SnapshotExplained()
      ensures changes == old(changes) + (if old(snapshot).Some? && snapshot != old(snapshot) then [reasons] else [])
    {
      hide OverlaysAfter, StatesAfter, RoundOverlays, RoundStates, TellsApart;
      var l := loop;
      var next := CreateSnapshot(revisionOf, l.config.builtinRevision, l.overlays, Some(l.states));
      AcceptedNext(trim, history, l.config.configured, l.connections);
      history := history + [Queried(l.config.configured, l.connections)];
      var had := latest.Some?;
      if had {
        SameRevision(revisionOf, parse, latest.value, next);
      }
      if !had || latest.value.revision != next.revision {
        latest := Some(next);
        snapshot := latest;
        if had {
          changes := changes + [reasons];
        }
      }
    }

    method ConfigRead(config: Config)
      requires Valid() && loop.ReadingConfig?
      modifies this`loop
      ensures Valid() && loop == Resolving(config)
    {
      loop := Resolving(config);
    }

    method ConfigReadFailed()
      requires Valid() && loop.ReadingConfig?
      modifies this`loop, this`waiters, this`settled
      ensures Valid() && RoundRejected()
    {
      RejectRound();
    }

    // The connections arrived. An unacceptable one, or disposal, makes the round fail.
    method ConnectionsResolved(connections: seq<Connection>)
      requires Valid() && loop.Resolving?
      modifies this
      ensures Valid() && disposed == old(disposed)
      ensures if Acceptable(old(loop).config.configured, connections) && !disposed
              then loop.Rereading? && loop.config == old(loop).config && Unanswered()
                   && loop.connections == connections
              else RoundFailed(old(loop).config)
    {
      hide Accounted, TellsApart, OverlaysAfter, StatesAfter, RoundOverlays, RoundStates, Acceptable;
      var config := loop.config;
      var previous: Overlays, before: States := map[], map[];
      if latest.Some? {
        previous := latest.value.overlays;
        if latest.value.states.Some? {
          before := latest.value.states.value;
        }
      }
      NoHistory(trim);
      var round := ResolveRound(trim, config.configured, previous, before, connections);
      if round.None? || disposed {
        FailRound(config);
        return;
      }
      loop := Rereading(config, connections, round.value.0, round.value.1);
    }

    method ResolveFailed()
      requires Valid() && loop.Resolving?
      modifies this
      ensures Valid() && disposed == old(disposed) && RoundFailed(old(loop).config)
    {
      FailRound(loop.config);
    }

    method RereadFailed()
      requires Valid() && loop.Rereading?
      modifies this
      ensures Valid() && disposed == old(disposed) && RoundFailed(old(loop).config)
    {
      FailRound(loop.config);
    }

    // The second read of the config. A round that a request or a built-in change overtook is discarded.
    method ConfigReread(current: Config)
      requires Valid() && loop.Rereading?
      modifies this
      ensures Valid() && disposed == old(disposed)
      ensures disposed ==> RoundFailed(old(loop).config)
      ensures !disposed && old(pendingReasons != {} || current.builtinRevision != loop.config.builtinRevision) ==>
        && Unanswered() && loop == ReadingConfig
        && reasons == old(pendingReasons) + {SUPERSEDED}
      ensures !disposed && old(pendingReasons == {} && current.builtinRevision == loop.config.builtinRevision) ==>
        RoundAccepted()
    {
      hide Accounted, TellsApart, OverlaysAfter, StatesAfter, RoundOverlays, RoundStates, Settle, Later;
      var config := loop.config;
      if disposed {
        FailRound(config);
        return;
      }
      if pendingReasons != {} || current.builtinRevision != config.builtinRevision {
        pendingReasons := pendingReasons + {SUPERSEDED};
        assert SUPERSEDED in pendingReasons;
        BeginRound();
        return;
      }
      Accept();
    }

    // The loop's promise has settled.
    method LoopSettled()
      requires Valid() && loop.Ended?
      modifies this`loop, this`pendingReasons, this`reasons, this`generation, this`latest, this`clock, this`roundAt
      ensures Valid()
      ensures loop == if disposed || old(pendingReasons) == {} then Idle else ReadingConfig
    {
      hide Accounted, TellsApart, OverlaysAfter, StatesAfter, RoundOverlays, RoundStates;
      loop := Idle;
      if disposed || pendingReasons == {} {
        return;
      }
      StartRefresh();
    }

    method Dispose()
      requires Valid()
      modifies this`disposed, this`waiters, this`settled
      ensures Valid() && disposed && waiters == []
      ensures settled == if old(disposed) then old(settled)
                         else Settle(old(settled), old(waiters), requestedGeneration, ServiceDisposed)
    {
      hide Accounted, TellsApart, OverlaysAfter, StatesAfter, RoundOverlays, RoundStates;
      if disposed {
        return;
      }
      disposed := true;
      NobodyLater(Fair, issuedAt, waiters, settled);
      SettleWaiters(requestedGeneration, ServiceDisposed);
    }
  }

  // In every reachable state, which is valid: a request that waits has a loop to answer it, and is not settled yet.
  lemma {:induction false} NobodyHangs(s: AccountProviderService, w: Waiter)
    requires s.RequestsAccounted() && s.RoundsInOrder() && s.NoLostWakeup() && w in s.waiters
    ensures !s.disposed && !s.loop.Idle? && w.generation !in s.settled
    ensures s.pendingReasons != {} || (s.InRound() && w.generation <= s.generation)
  {
    assert w.generation in Generations(s.waiters);
  }

  // In every reachable state: an entitled provider was reported available by an accepted round, and every accepted
  // round since kept it.
  lemma {:induction false} EntitlementsAreExplained(s: AccountProviderService, id: Id)
    requires s.SnapshotExplained() && s.snapshot.Some?
    ensures Entitled(s.snapshot.value.overlays, id) <==> exists m: nat :: GrantedAndKept(s.history, id, m)
  {
    EntitlementHasASource(s.trim, s.history, id);
  }

  // Likewise every state in the snapshot says what the last round that knew something said of the provider.
  lemma {:induction false} StatesAreExplained(s: AccountProviderService, id: Id)
    requires s.SnapshotExplained() && s.snapshot.Some?
    ensures id in KnownStates(s.snapshot.value) <==> exists m: nat :: SaidLast(s.history, id, m)
    ensures forall m: nat | SaidLast(s.history, id, m) :: StateExplained(s.trim, s.history, id, m)
    ensures KnownStates(s.snapshot.value) == StatesAfter(s.trim, s.history)
  {
    StateHasASource(s.trim, s.history, id);
  }

  // A disposed service may still set its first snapshot: its first round was resolving when it was disposed.
  method SnapshotAfterDisposal(trim: Id -> Id, revisionOf: RevisionOf, ghost parse: ParseRevision, config: Config,
                               connections: seq<Connection>)
    returns (s: AccountProviderService, before: Option<Snapshot>)
    requires TellsApart(revisionOf, parse)
    ensures s.Valid() && s.disposed && before.None?
    ensures s.snapshot == Some(FailClosedSnapshot(revisionOf, config))
  {
    s := new AccountProviderService(trim, revisionOf, parse);
    var _ := s.Read();
    s.ConfigRead(config);
    s.Dispose();
    before := s.snapshot;
    s.ConnectionsResolved(connections);
  }
}
