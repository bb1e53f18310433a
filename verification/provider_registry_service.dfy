// Model of packages/provider/src/registry-service.ts: a coalescing refresh loop over generation numbers. The methods of
// the class are the code segments between two awaits; each is atomic, and they may come in any order their state
// allows.

module RegistryService {
  import opened Options
  import opened ProviderRegistries
  import opened RefreshWaiters
  import ProviderResolver

  datatype ConfigSnapshot = ConfigSnapshot(revision: string, builtinRevision: string, content: string)

  datatype AccountSnapshot = AccountSnapshot(revision: string, basedOnBuiltinRevision: string, content: string)

  datatype Snapshot = Snapshot(config: ConfigSnapshot, account: AccountSnapshot, registry: View)

  datatype Changed = Changed(snapshot: Snapshot, reasons: set<string>)

  // What a request got, with what was read for it and when the reading began.
  datatype Settlement =
    | Resolved(snapshot: Snapshot, config: ConfigSnapshot, account: AccountSnapshot, readAt: nat)
    | RoundFailed(readAt: nat)
    | ServiceDisposed
    | LoopFailed

  // Where the refresh loop stands: not running, awaiting the two sources, or done but not yet noticed to be done.
  datatype Loop = Idle | Reading(generation: nat) | Ended(failed: bool)

  type Resolver = (ConfigSnapshot, AccountSnapshot) -> Option<seq<Provider>>

  ghost predicate NeverRepeats(resolve: Resolver) {
    forall c, a :: resolve(c, a).Some? ==> NoRepeats(resolve(c, a).value)
  }

  predicate Paired(config: ConfigSnapshot, account: AccountSnapshot) {
    account.basedOnBuiltinRevision == config.builtinRevision
  }

  predicate SameRevisions(snapshot: Snapshot, config: ConfigSnapshot, account: AccountSnapshot) {
    snapshot.config.revision == config.revision && snapshot.account.revision == account.revision
  }

  // A resolved request had both sources read after it was issued, and that read either has the revisions of the
  // snapshot or found the two sources disagreeing. A failed one was answered by a round that began after it was issued.
  predicate Fair(s: Settlement, issuedAt: nat) {
    match s
    case Resolved(snapshot, config, account, readAt) =>
      && issuedAt < readAt
      && snapshot.account.basedOnBuiltinRevision == snapshot.config.builtinRevision
      && (account.basedOnBuiltinRevision == config.builtinRevision ==>
            snapshot.config.revision == config.revision && snapshot.account.revision == account.revision)
    case RoundFailed(readAt) => issuedAt < readAt
    case ServiceDisposed => true
    case LoopFailed => false
  }

  lemma {:induction false} AllSettled(settled: map<nat, Settlement>, waiters: seq<Waiter>, generation: nat)
    requires forall w | w in waiters :: w.generation <= generation
    ensures forall outcome, w | w in waiters :: w.generation in Settle(settled, waiters, generation, outcome)
                                 && Settle(settled, waiters, generation, outcome)[w.generation] == outcome
  {
    forall w | w in waiters
      ensures w.generation in Generations(waiters)
    {
      var i :| 0 <= i < |waiters| && waiters[i] == w;
    }
  }

  // How a round ends: with nobody answered, with the snapshot there is, with an error, or with a new snapshot.
  datatype Ending = Parked | Kept | Broken | Fresh(providers: seq<Provider>)

  function Outcome(before: Option<Snapshot>, config: ConfigSnapshot, account: AccountSnapshot,
                   resolve: Resolver): Ending
  {
    if !Paired(config, account) then if before.Some? then Kept else Parked
    else if before.Some? && SameRevisions(before.value, config, account) then Kept
    else match resolve(config, account)
         case None => Broken
         case Some(providers) => Fresh(providers)
  }

  class ProviderRegistryService {
    const resolve: Resolver
    const registry: ProviderRegistry
    var snapshot: Option<Snapshot>
    var requestedGeneration: nat
    var completedGeneration: nat
    var pendingReasons: set<string>
    var reasons: set<string>
    var waiters: seq<Waiter>
    var loop: Loop
    var started: bool
    var disposed: bool
    ghost var clock: nat
    ghost var issuedAt: seq<nat>
    ghost var readAt: nat
    ghost var settled: map<nat, Settlement>
    ghost var published: seq<Changed>

    ghost predicate RequestsAccounted()
      reads `issuedAt, `requestedGeneration, `clock, `waiters, `settled
    {
      && |issuedAt| == requestedGeneration
      && (forall i | 0 <= i < |issuedAt| :: issuedAt[i] <= clock)
      && Accounted(Fair, issuedAt, waiters, settled)
    }

    // Outstanding requests keep a loop going.
    ghost predicate NoLostWakeup()
      reads this
    {
      completedGeneration < requestedGeneration ==> !loop.Idle? || disposed
    }

    // A request outlives its round only while there is no snapshot at all. The requests a round answers were issued
    // before it began to read.
    ghost predicate RoundsInOrder()
      reads this
    {
      && completedGeneration <= requestedGeneration
      && (forall w | w in waiters && w.generation <= completedGeneration :: snapshot.None?)
      && (disposed ==> waiters == [])
      && (loop.Ended? && loop.failed ==> disposed)
      && (loop.Reading? ==>
            && completedGeneration < loop.generation <= requestedGeneration == |issuedAt|
            && readAt <= clock
            && forall i | 0 <= i < loop.generation :: issuedAt[i] < readAt)
    }

    // The round has the reasons of the requests it covers; those of the others are pending.
    ghost predicate ReasonsKept()
      reads this
    {
      forall w | w in waiters && w.generation > completedGeneration ::
        w.reason in if loop.Reading? && w.generation <= loop.generation then reasons else pendingReasons
    }

    // The snapshot is the one published last; it pairs an account overlay with the built-in revision it is based on and
    // carries the current view, with which the indexes agree.
    ghost predicate PublishedCoherently()
      reads `snapshot, `published, registry
    {
      && registry.Coherent()
      && registry.view.revision == |published|
      && (snapshot.None? <==> published == [])
      && (snapshot.Some? ==>
            && snapshot.value == published[|published| - 1].snapshot
            && snapshot.value.registry == registry.view)
      && forall e | e in published :: Paired(e.snapshot.config, e.snapshot.account)
    }

    ghost predicate Consistent()
      reads this, registry
    {
      NeverRepeats(resolve) && RequestsAccounted() && RoundsInOrder() && ReasonsKept() && PublishedCoherently()
    }

    ghost predicate Valid()
      reads this, registry
    {
      Consistent() && NoLostWakeup()
    }

    constructor (resolve: Resolver)
      requires NeverRepeats(resolve)
      ensures Valid() && fresh(registry) && snapshot.None? && loop.Idle? && !started && !disposed
      ensures requestedGeneration == 0
    {
      this.resolve := resolve;
      registry := new ProviderRegistry();
      snapshot := None;
      requestedGeneration, completedGeneration := 0, 0;
      pendingReasons, reasons, waiters := {}, {}, [];
      loop, started, disposed := Idle, false, false;
      clock, issuedAt, readAt, settled, published := 0, [], 0, map[], [];
    }

    // -- Requests --

    method Start() returns (ok: bool)
      requires Valid()
      modifies this
      ensures Valid() && ok == !old(disposed)
      ensures ok ==> started
      ensures var asks := ok && (!old(started) || old(snapshot).None?);
        && waiters == old(waiters) + (if asks then [Waiter(requestedGeneration, "start")] else [])
        && loop == if asks && old(loop).Idle? then Reading(requestedGeneration) else old(loop)
      ensures disposed == old(disposed) && snapshot == old(snapshot)
    {
      if disposed {
        return false;
      }
      if !started || snapshot.None? {
        started := true;
        RequestRefresh("start");
      }
      ok := true;
    }

    method Refresh(reason: string) returns (ok: bool)
      requires Valid()
      modifies this
      ensures Valid() && ok == (!old(disposed) && old(started))
      ensures ok ==> waiters == old(waiters) + [Waiter(requestedGeneration, reason)]
    {
      if disposed || !started {
        return false;
      }
      RequestRefresh(reason);
      ok := true;
    }

    method RefreshFromSource(source: string, reason: string)
      requires Valid()
      modifies this
      ensures Valid()
      ensures requestedGeneration == old(requestedGeneration) + if old(disposed) then 0 else 1
    {
      if disposed {
        return;
      }
      RequestRefresh(source + ":" + if reason == "" then "changed" else reason);
    }

    method RequestRefresh(reason: string)
      requires Valid() && !disposed
      modifies this`requestedGeneration, this`pendingReasons, this`waiters, this`loop, this`reasons,
               this`clock, this`issuedAt, this`readAt
      ensures Valid() && requestedGeneration == old(requestedGeneration) + 1
      ensures waiters == old(waiters) + [Waiter(requestedGeneration, reason)]
      ensures loop == if old(loop).Idle? then Reading(requestedGeneration) else old(loop)
    {
      hide Accounted, NeverRepeats, PublishedCoherently;
      var generation := requestedGeneration + 1;
      requestedGeneration := generation;
      pendingReasons := pendingReasons + {reason};
      issuedAt := issuedAt + [clock];
      OneMoreAccounted(Fair, old(issuedAt), clock, waiters, settled, reason);
      waiters := waiters + [Waiter(generation, reason)];
      EnsureRefreshLoop();
    }

    method EnsureRefreshLoop()
      requires Consistent()
      modifies this`loop, this`reasons, this`pendingReasons, this`clock, this`readAt
      ensures Valid()
      ensures !(old(loop).Idle? && !disposed) ==> loop == old(loop)
      ensures old(loop).Idle? && !disposed ==>
        loop == if completedGeneration < requestedGeneration then Reading(requestedGeneration) else Ended(false)
    {
      if !loop.Idle? || disposed {
        return;
      }
      reasons := {};
      BeginRound();
    }

    // -- The loop --

    // The head of the loop, up to the await of the two reads.
    method BeginRound()
      requires NeverRepeats(resolve) && RequestsAccounted() && PublishedCoherently()
      requires completedGeneration <= requestedGeneration && (disposed ==> waiters == [])
      requires forall w | w in waiters && w.generation <= completedGeneration :: snapshot.None?
      requires forall w | w in waiters && w.generation > completedGeneration ::
                 w.reason in pendingReasons || w.reason in reasons
      modifies this`loop, this`reasons, this`pendingReasons, this`clock, this`readAt
      ensures Valid()
      ensures loop == if completedGeneration < requestedGeneration then Reading(requestedGeneration) else Ended(false)
    {
      if completedGeneration < requestedGeneration {
        loop := Reading(requestedGeneration);
        reasons := reasons + pendingReasons;
        pendingReasons := {};
        clock := clock + 1;
        readAt := clock;
        assert forall w | w in waiters :: w.generation in Generations(waiters);
      } else {
        loop := Ended(false);
        assert forall w | w in waiters :: w.generation in Generations(waiters);
      }
    }

    // Resolves or rejects the waiters up to a generation.
    method SettleWaiters(generation: nat, ghost outcome: Settlement)
      requires RequestsAccounted()
      requires forall i | 0 <= i < |issuedAt| && i < generation && i + 1 in Generations(waiters) ::
                 Fair(outcome, issuedAt[i])
      modifies this`waiters, this`settled
      ensures RequestsAccounted()
      ensures waiters == Later(old(waiters), generation)
      ensures settled == Settle(old(settled), old(waiters), generation, outcome)
    {
      hide Fair, Accounted, Later, Settle, Generations;
      SettledAccounted(Fair, issuedAt, waiters, settled, generation, outcome);
      settled := Settle(settled, waiters, generation, outcome);
      waiters := WaitersAfter(waiters, generation);
    }

    // Ends a round that nothing overtook: it answers every waiter there is.
    method AnswerAll(ghost outcome: Settlement)
      requires RequestsAccounted() && loop.Reading? && loop.generation == requestedGeneration
      requires forall i | 0 <= i < |issuedAt| :: Fair(outcome, issuedAt[i])
      modifies this`waiters, this`settled, this`completedGeneration
      ensures RequestsAccounted() && waiters == [] && completedGeneration == requestedGeneration
      ensures settled == Settle(old(settled), old(waiters), requestedGeneration, outcome)
    {
      hide Fair, Accounted;
      completedGeneration := requestedGeneration;
      NobodyLater(Fair, issuedAt, waiters, settled);
      SettleWaiters(requestedGeneration, outcome);
    }

    // Both reads failed or one of them. A round that a later request overtook starts over; else it rejects its waiters.
    method ReadsFailed()
      requires Valid() && loop.Reading?
      modifies this`waiters, this`settled, this`completedGeneration, this`loop, this`reasons, this`pendingReasons,
               this`clock, this`readAt
      ensures Valid()
      ensures old(loop.generation < requestedGeneration) ==>
        loop == Reading(requestedGeneration) && waiters == old(waiters) && settled == old(settled)
      ensures old(loop.generation == requestedGeneration) ==> loop == Ended(false) && AllGot(RoundFailed(old(readAt)))
    {
      hide Accounted, NeverRepeats, Agrees, Paired, Settle;
      if loop.generation < requestedGeneration {
        BeginRound();
        return;
      }
      FailRound();
    }

    // Both reads succeeded. A round that a later request overtook starts over, and a disposed service does nothing.
    method ReadsSucceeded(config: ConfigSnapshot, account: AccountSnapshot)
      requires Valid() && loop.Reading?
      modifies this`waiters, this`settled, this`completedGeneration, this`loop, this`reasons, this`pendingReasons,
               this`clock, this`readAt, this`snapshot, this`published, registry
      ensures Valid()
      ensures old(loop.generation < requestedGeneration) || disposed ==>
        && snapshot == old(snapshot) && published == old(published) && registry.view == old(registry.view)
        && waiters == old(waiters) && settled == old(settled)
      ensures old(loop.generation < requestedGeneration) ==> loop == Reading(requestedGeneration)
      ensures old(loop.generation == requestedGeneration) && !disposed ==>
        && loop == Ended(false) && completedGeneration == requestedGeneration && Answered(config, account)
        && (if account.basedOnBuiltinRevision == config.builtinRevision then UpToDate(config, account)
            else published == old(published) && snapshot == old(snapshot))
    {
      hide Accounted, NeverRepeats, Agrees, Settle, Later;
      if loop.generation < requestedGeneration {
        BeginRound();
        return;
      }
      if disposed {
        loop := Ended(true);
        return;
      }
      NobodyLater(Fair, issuedAt, waiters, settled);
      RoundRead(config, account);
      AllSettled(old(settled), old(waiters), requestedGeneration);
    }

    // After a round that read two sources based on the same built-in revision: whoever was answered with a snapshot has
    // the revisions read; if they are new and can be resolved, just that is published, and if they are not, nothing is.
    twostate predicate UpToDate(config: ConfigSnapshot, account: AccountSnapshot)
      reads this
    {
      var known := old(snapshot).Some? && old(snapshot).value.config.revision == config.revision
                   && old(snapshot).value.account.revision == account.revision;
      && (forall w | w in old(waiters) :: w.generation in settled)
      && (forall w | w in old(waiters) && settled[w.generation].Resolved? ::
            && settled[w.generation].snapshot.config.revision == config.revision
            && settled[w.generation].snapshot.account.revision == account.revision)
      && (known || resolve(config, account).Some? ==> forall w | w in old(waiters) :: settled[w.generation].Resolved?)
      && (if !known && resolve(config, account).Some?
          then && |published| == |old(published)| + 1 && published[..|old(published)|] == old(published)
               && published[|old(published)|].snapshot.config == config
               && published[|old(published)|].snapshot.account == account
               && published[|old(published)|].snapshot.registry.providers == resolve(config, account).value
          else published == old(published) && snapshot == old(snapshot))
    }

    // What a round that nothing overtook makes of what it read.
    twostate predicate Answered(config: ConfigSnapshot, account: AccountSnapshot)
      reads this, registry
    {
      var outcome := Outcome(old(snapshot), config, account, resolve);
      var published' := old(published);
      match outcome
      case Parked =>
        snapshot == old(snapshot) && published == published' && waiters == old(waiters) && settled == old(settled)
      case Kept =>
        && snapshot == old(snapshot) && snapshot.Some? && published == published'
        && AllGot(Resolved(snapshot.value, config, account, old(readAt)))
      case Broken =>
        snapshot == old(snapshot) && published == published' && AllGot(RoundFailed(old(readAt)))
      case Fresh(providers) =>
        && snapshot == Some(Snapshot(config, account, registry.view)) && registry.view.providers == providers
        && published == published' + [Changed(snapshot.value, old(reasons))]
        && AllGot(Resolved(snapshot.value, config, account, old(readAt)))
    }

    twostate predicate AllGot(outcome: Settlement)
      reads this
    {
      waiters == [] && settled == Settle(old(settled), old(waiters), requestedGeneration, outcome)
    }

    method RoundRead(config: ConfigSnapshot, account: AccountSnapshot)
      requires Valid() && loop.Reading? && loop.generation == requestedGeneration && !disposed
      modifies this`waiters, this`settled, this`completedGeneration, this`loop, this`reasons, this`pendingReasons,
               this`clock, this`readAt, this`snapshot, this`published, registry
      ensures Valid() && loop == Ended(false) && completedGeneration == requestedGeneration
      ensures Answered(config, account)
    {
      hide Accounted, Agrees, Settle, Later, NoRepeats, Fair, RequestsAccounted, RoundsInOrder, ReasonsKept,
           PublishedCoherently;
      if !Paired(config, account) {
        if snapshot.Some? {
          KeepSnapshot(config, account);
        } else {
          Park();
        }
        return;
      }
      if snapshot.Some? && SameRevisions(snapshot.value, config, account) {
        KeepSnapshot(config, account);
        return;
      }
      var resolution := resolve(config, account);
      if resolution.None? {
        FailRound();
        return;
      }
      PublishAndAnswer(config, account, resolution.value);
    }

    method Park()
      requires Valid() && loop.Reading? && loop.generation == requestedGeneration && snapshot.None?
      modifies this`completedGeneration, this`loop, this`reasons, this`pendingReasons, this`clock, this`readAt
      ensures Valid() && loop == Ended(false) && completedGeneration == requestedGeneration
    {
      hide Accounted, Agrees;
      assert forall w | w in waiters :: w.generation in Generations(waiters);
      completedGeneration := requestedGeneration;
      BeginRound();
    }

    method KeepSnapshot(config: ConfigSnapshot, account: AccountSnapshot)
      requires Valid() && loop.Reading? && loop.generation == requestedGeneration && snapshot.Some?
      requires Paired(config, account) ==> SameRevisions(snapshot.value, config, account)
      modifies this`waiters, this`settled, this`completedGeneration, this`loop, this`reasons, this`pendingReasons,
               this`clock, this`readAt
      ensures Valid() && loop == Ended(false) && completedGeneration == requestedGeneration
      ensures AllGot(Resolved(snapshot.value, config, account, old(readAt)))
    {
      hide Accounted, Agrees, Settle, NeverRepeats;
      AnswerAll(Resolved(snapshot.value, config, account, readAt));
      reasons := {};
      BeginRound();
    }

    method FailRound()
      requires Valid() && loop.Reading? && loop.generation == requestedGeneration
      modifies this`waiters, this`settled, this`completedGeneration, this`loop
      ensures Valid() && loop == Ended(false) && completedGeneration == requestedGeneration
      ensures AllGot(RoundFailed(old(readAt)))
    {
      hide Accounted, Agrees, Settle, NeverRepeats;
      AnswerAll(RoundFailed(readAt));
      loop := Ended(false);
    }

    method PublishAndAnswer(config: ConfigSnapshot, account: AccountSnapshot, providers: seq<Provider>)
      requires Valid() && loop.Reading? && loop.generation == requestedGeneration && !disposed
      requires NoRepeats(providers) && Paired(config, account)
      modifies this`waiters, this`settled, this`completedGeneration, this`loop, this`reasons, this`pendingReasons,
               this`clock, this`readAt, this`snapshot, this`published, registry
      ensures Valid() && loop == Ended(false) && completedGeneration == requestedGeneration
      ensures snapshot == Some(Snapshot(config, account, registry.view)) && registry.view.providers == providers
      ensures published == old(published) + [Changed(snapshot.value, old(reasons))]
      ensures AllGot(Resolved(snapshot.value, config, account, old(readAt)))
    {
      hide Accounted, Agrees, Settle, NeverRepeats, NoRepeats;
      Publish(config, account, providers);
      AnswerAll(Resolved(snapshot.value, config, account, readAt));
      reasons := {};
      BeginRound();
    }

    // The registry takes the providers because no id repeats; it would throw otherwise.
    method Publish(config: ConfigSnapshot, account: AccountSnapshot, providers: seq<Provider>)
      requires PublishedCoherently() && NoRepeats(providers) && Paired(config, account)
      modifies this`snapshot, this`published, registry
      ensures PublishedCoherently()
      ensures snapshot == Some(Snapshot(config, account, registry.view)) && registry.view.providers == providers
      ensures published == old(published) + [Changed(snapshot.value, reasons)]
    {
      hide NoRepeats, Agrees;
      var ok := registry.Replace(providers);
      assert ok;
      snapshot := Some(Snapshot(config, account, registry.view));
      published := published + [Changed(snapshot.value, reasons)];
    }

    // The loop's promise has settled: finishRefresh, and before it the rejection handler if the loop threw. The handler
    // rejects nobody, for the loop throws only in a disposed service.
    method LoopSettled()
      requires Valid() && loop.Ended?
      modifies this`waiters, this`settled, this`loop, this`reasons, this`pendingReasons, this`clock, this`readAt
      ensures Valid() && waiters == old(waiters) && settled == old(settled)
      ensures loop == if completedGeneration < requestedGeneration && !disposed then Reading(requestedGeneration)
                      else Idle
    {
      hide Accounted, NeverRepeats, PublishedCoherently, Fair;
      if loop.failed {
        SettleWaiters(requestedGeneration, LoopFailed);
      }
      loop := Idle;
      if completedGeneration < requestedGeneration {
        EnsureRefreshLoop();
      }
    }

    // Nobody waits for a disposed service, and it never publishes again: see ReadsSucceeded.
    method Dispose()
      requires Valid()
      modifies this`disposed, this`waiters, this`settled
      ensures Valid() && disposed && waiters == []
      ensures settled == if old(disposed) then old(settled)
                         else Settle(old(settled), old(waiters), requestedGeneration, ServiceDisposed)
    {
      hide NeverRepeats, PublishedCoherently, Accounted;
      if disposed {
        return;
      }
      disposed := true;
      NobodyLater(Fair, issuedAt, waiters, settled);
      SettleWaiters(requestedGeneration, ServiceDisposed);
    }
  }

  // What the resolver publishes, unless it throws, never repeats an id, so the registry never refuses it.
  lemma {:induction false} TheResolverNeverRepeats(resolve: Resolver,
                                                   inputOf: (ConfigSnapshot, AccountSnapshot) -> ProviderResolver.Input)
    requires forall c, a :: resolve(c, a).None? || Backs(inputOf(c, a), resolve(c, a))
    ensures NeverRepeats(resolve)
  {
    hide NoRepeats, Backs;
    forall c, a | resolve(c, a).Some?
      ensures NoRepeats(resolve(c, a).value)
    {
      BackedOnce(inputOf(c, a), resolve(c, a));
    }
  }

  // The outcome is what the resolver makes of a well-formed input.
  ghost predicate Backs(input: ProviderResolver.Input, outcome: Option<seq<Provider>>) {
    && ProviderResolver.WellFormed(input) && ProviderResolver.OrderIsKnown(input)
    && outcome == Some(ProviderResolver.Published(input, ProviderResolver.ProvidersInOrder(input)))
  }

  lemma {:induction false} BackedOnce(input: ProviderResolver.Input, outcome: Option<seq<Provider>>)
    requires Backs(input, outcome)
    ensures outcome.Some? && NoRepeats(outcome.value)
  {
    hide NoRepeats, ProviderResolver.WellFormed, ProviderResolver.ProvidersInOrder, ProviderResolver.Published;
    ProviderResolver.ResolvedProvidersOfferTheExecutable(input, "", "");
  }

  // In every reachable state: a request that got a snapshot had both sources read after it was issued; if these were
  // based on the same built-in revision, the snapshot has the revisions read.
  lemma {:induction false} ResolvedSawTheSources(s: ProviderRegistryService, g: nat)
    requires s.RequestsAccounted() && g in s.settled && s.settled[g].Resolved?
    ensures 1 <= g <= |s.issuedAt| && s.issuedAt[g - 1] < s.settled[g].readAt
    ensures s.settled[g].account.basedOnBuiltinRevision == s.settled[g].config.builtinRevision ==>
      && s.settled[g].snapshot.config.revision == s.settled[g].config.revision
      && s.settled[g].snapshot.account.revision == s.settled[g].account.revision
  {
    assert g - 1 + 1 in s.settled;
  }

  // In every reachable state, which is valid, a request that waits either has a loop at work on it or there never was a
  // snapshot.
  lemma {:induction false} NobodyHangs(s: ProviderRegistryService, w: Waiter)
    requires s.RequestsAccounted() && s.RoundsInOrder() && s.NoLostWakeup() && w in s.waiters
    ensures !s.disposed && w.generation !in s.settled
    ensures !s.loop.Idle? || s.snapshot.None?
    ensures s.loop.Reading? && w.generation <= s.loop.generation ==> s.issuedAt[w.generation - 1] < s.readAt
  {
    assert w.generation in Generations(s.waiters);
  }

  // When a round that nothing overtook publishes, its event names the reasons of all the requests it answers that are
  // not left over from a round without a snapshot.
  lemma {:induction false} EventNamesItsRequests(s: ProviderRegistryService, w: Waiter)
    requires s.RequestsAccounted() && s.ReasonsKept()
    requires s.loop.Reading? && s.loop.generation == s.requestedGeneration
    requires w in s.waiters && w.generation > s.completedGeneration
    ensures w.reason in s.reasons
  {
    assert w.generation in Generations(s.waiters);
  }

  // Without a snapshot a request may be left waiting although nothing runs: the sources disagreed in its round.
  method ParkedRequest(resolve: Resolver, config: ConfigSnapshot, account: AccountSnapshot)
    returns (s: ProviderRegistryService)
    requires NeverRepeats(resolve) && !Paired(config, account)
    ensures s.Valid() && s.loop.Idle? && s.waiters != [] && !s.disposed
  {
    s := new ProviderRegistryService(resolve);
    var _ := s.Start();
    s.ReadsSucceeded(config, account);
    s.LoopSettled();
  }
}
