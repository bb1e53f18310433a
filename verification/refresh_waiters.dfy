// The waiters of packages/provider/src/registry-service.ts and account-provider-service.ts: requests numbered by
// generation, answered in bulk by the round that covers them.

module RefreshWaiters {
  // A request that waits; every request has a generation of its own.
  datatype Waiter = Waiter(generation: nat, reason: string)

  function Generations(waiters: seq<Waiter>): set<nat> {
    set i | 0 <= i < |waiters| :: waiters[i].generation
  }

  // The waiters that a round of the given generation does not answer.
  function Later(waiters: seq<Waiter>, generation: nat): (r: seq<Waiter>)
    ensures forall w :: w in r <==> w in waiters && w.generation > generation
    ensures |r| <= |waiters|
  {
    if waiters == [] then []
    else var n := |waiters| - 1;
         Later(waiters[..n], generation) + if waiters[n].generation > generation then [waiters[n]] else []
  }

  predicate Increasing(waiters: seq<Waiter>) {
    forall i, j | 0 <= i < j < |waiters| :: waiters[i].generation < waiters[j].generation
  }

  lemma {:induction false} AllAnswered(waiters: seq<Waiter>, generation: nat)
    requires forall g | g in Generations(waiters) :: g <= generation
    ensures Later(waiters, generation) == []
  {
    var r := Later(waiters, generation);
    assert r != [] ==> r[0] in r;
    forall w | w in waiters ensures w !in r {
      assert w.generation in Generations(waiters);
    }
  }

  lemma {:induction false} IncreasingAppend(waiters: seq<Waiter>, w: Waiter)
    requires Increasing(waiters) && forall v | v in waiters :: v.generation < w.generation
    ensures Increasing(waiters + [w])
  {
    assert forall i | 0 <= i < |waiters| :: waiters[i] in waiters;
  }

  lemma {:induction false} LaterIsIncreasing(waiters: seq<Waiter>, generation: nat)
    requires Increasing(waiters)
    ensures Increasing(Later(waiters, generation))
    decreases |waiters|
  {
    hide Increasing;
    if waiters != [] {
      var n := |waiters| - 1;
      LastIsLargest(waiters);
      LaterIsIncreasing(waiters[..n], generation);
      IncreasingAppend(Later(waiters[..n], generation), waiters[n]);
      assert Later(waiters[..n], generation) + [] == Later(waiters[..n], generation);
    }
  }

  lemma {:induction false} LastIsLargest(waiters: seq<Waiter>)
    requires waiters != [] && Increasing(waiters)
    ensures Increasing(waiters[..|waiters| - 1])
    ensures forall w | w in waiters[..|waiters| - 1] :: w.generation < waiters[|waiters| - 1].generation
  {
  }

  method WaitersAfter(waiters: seq<Waiter>, generation: nat) returns (remaining: seq<Waiter>)
    ensures remaining == Later(waiters, generation)
  {
    remaining := [];
    var i := 0;
    while i < |waiters|
      invariant i <= |waiters| && remaining == Later(waiters[..i], generation)
    {
      assert waiters[..i + 1][..i] == waiters[..i];
      if waiters[i].generation > generation {
        remaining := remaining + [waiters[i]];
      }
      i := i + 1;
    }
    assert waiters[..i] == waiters;
  }

  lemma {:induction false} OneMoreWaiter(waiters: seq<Waiter>, w: Waiter)
    ensures Generations(waiters + [w]) == Generations(waiters) + {w.generation}
  {
    var all := waiters + [w];
    assert all[|waiters|] == w;
    assert forall i | 0 <= i < |waiters| :: all[i] == waiters[i];
  }

  lemma {:induction false} LaterGenerations(waiters: seq<Waiter>, generation: nat)
    ensures forall g :: g in Generations(Later(waiters, generation)) <==> g in Generations(waiters) && g > generation
  {
    var later := Later(waiters, generation);
    forall g
      ensures g in Generations(later) <==> g in Generations(waiters) && g > generation
    {
      if i :| 0 <= i < |later| && later[i].generation == g {
        assert later[i] in waiters;
      }
      if i :| 0 <= i < |waiters| && waiters[i].generation == g && g > generation {
        assert waiters[i] in later;
      }
    }
  }

  // The settlements after those of the waiters up to a generation.
  function Settle<S>(settled: map<nat, S>, waiters: seq<Waiter>, generation: nat, outcome: S): map<nat, S>
  {
    settled + map g | g in Generations(waiters) && g <= generation :: outcome
  }

  // Each request so far is either waiting or settled, not both, and every settlement was fair. `issuedAt` has the times
  // of the requests in the order of their generations, the first of which is 1.
  ghost predicate Accounted<S>(fair: (S, nat) -> bool, issuedAt: seq<nat>, waiters: seq<Waiter>, settled: map<nat, S>) {
    && Increasing(waiters)
    && (forall g :: g in Generations(waiters) || g in settled <==> 1 <= g <= |issuedAt|)
    && (forall g | g in Generations(waiters) :: g !in settled)
    && forall i | 0 <= i < |issuedAt| && i + 1 in settled :: fair(settled[i + 1], issuedAt[i])
  }

  lemma {:induction false} OneMoreAccounted<S>(fair: (S, nat) -> bool, issuedAt: seq<nat>, now: nat,
                                               waiters: seq<Waiter>, settled: map<nat, S>, reason: string)
    requires Accounted(fair, issuedAt, waiters, settled)
    ensures Accounted(fair, issuedAt + [now], waiters + [Waiter(|issuedAt| + 1, reason)], settled)
  {
    var w := Waiter(|issuedAt| + 1, reason);
    OneMoreWaiter(waiters, w);
    forall v | v in waiters
      ensures v.generation < w.generation
    {
      assert v.generation in Generations(waiters);
    }
    IncreasingAppend(waiters, w);
  }

  lemma {:induction false} SettledAccounted<S>(fair: (S, nat) -> bool, issuedAt: seq<nat>, waiters: seq<Waiter>,
                                               settled: map<nat, S>, generation: nat, outcome: S)
    requires Accounted(fair, issuedAt, waiters, settled)
    requires forall i | 0 <= i < |issuedAt| && i < generation && i + 1 in Generations(waiters) ::
               fair(outcome, issuedAt[i])
    ensures Accounted(fair, issuedAt, Later(waiters, generation), Settle(settled, waiters, generation, outcome))
  {
    hide Generations;
    LaterIsIncreasing(waiters, generation);
    LaterGenerations(waiters, generation);
  }

  // Nobody waits for a generation that was not requested yet.
  lemma {:induction false} NobodyLater<S>(fair: (S, nat) -> bool, issuedAt: seq<nat>, waiters: seq<Waiter>,
                                          settled: map<nat, S>)
    requires Accounted(fair, issuedAt, waiters, settled)
    ensures Later(waiters, |issuedAt|) == []
    ensures forall w | w in waiters :: 1 <= w.generation <= |issuedAt|
  {
    assert forall w | w in waiters :: w.generation in Generations(waiters);
    AllAnswered(waiters, |issuedAt|);
  }
}
