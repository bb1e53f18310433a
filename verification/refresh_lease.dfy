// Model of packages/provider-node/src/zcode-builtin-remote-synchronizer.ts: processes that share a control file, which
// holds a lease and a back-off; each step on the file runs under a file lock and is atomic.

module RefreshLease {
  import opened Options

  type LeaseId = nat

  datatype Control = Control(
    endpoint: string,
    lease: Option<LeaseId>,
    leaseUntil: int,
    nextEligibleAt: int,
    failureCount: nat)

  // What an absent or unreadable control file stands for.
  const EMPTY: Control := Control("", None, 0, 0, 0)

  datatype Settings = Settings(successInterval: nat, leaseDuration: nat, failureBase: nat, failureMax: nat)

  datatype Outcome = Succeeded | Failed | Cancelled

  datatype Attempt = LeaseHeld | NotDue | Acquired(control: Control)

  function Pow2(n: nat): (r: nat)
    ensures r >= 1
  {
    if n == 0 then 1 else 2 * Pow2(n - 1)
  }

  function Min(a: nat, b: nat): nat {
    if a <= b then a else b
  }

  function FailureDelay(settings: Settings, failures: nat): nat {
    Min(settings.failureBase * Pow2(if failures == 0 then 0 else failures - 1), settings.failureMax)
  }

  function Acquire(settings: Settings, control: Control, endpoint: string, force: bool, now: int, id: LeaseId): Attempt
  {
    var same := control.endpoint == endpoint;
    if same && control.leaseUntil > now then LeaseHeld
    else if !force && same && control.nextEligibleAt > now then NotDue
    else Acquired(Control(endpoint, Some(id), now + settings.leaseDuration,
                          if same then control.nextEligibleAt else 0, if same then control.failureCount else 0))
  }

  function Finish(settings: Settings, control: Control, endpoint: string, id: LeaseId, outcome: Outcome,
                  now: int): Control
  {
    if control.endpoint != endpoint || control.lease != Some(id) then control
    else
      var failures := match outcome
                      case Cancelled => control.failureCount
                      case Succeeded => 0
                      case Failed => control.failureCount + 1;
      var delay := match outcome
                   case Cancelled => 0
                   case Succeeded => settings.successInterval
                   case Failed => FailureDelay(settings, failures);
      Control(endpoint, None, 0, now + delay, failures)
  }

  // -- Back-off --

  // More failures never mean a shorter delay, and no delay exceeds the maximum.
  lemma {:induction false} DelayGrows(settings: Settings, n: nat, m: nat)
    requires n <= m
    ensures FailureDelay(settings, n) <= FailureDelay(settings, m) <= settings.failureMax
    decreases m
  {
    if n < m {
      DelayGrows(settings, n, m - 1);
      if m >= 2 {
        assert Pow2(m - 1) == 2 * Pow2(m - 2);
        assert settings.failureBase * (2 * Pow2(m - 2)) >= settings.failureBase * Pow2(m - 2) by {
          MulGrows(settings.failureBase, Pow2(m - 2), 2 * Pow2(m - 2));
        }
      }
    }
  }

  // The first failure costs the base delay and every further one twice as much, up to the maximum.
  lemma {:induction false} DelayDoubles(settings: Settings, n: nat)
    ensures FailureDelay(settings, 0) == FailureDelay(settings, 1) == Min(settings.failureBase, settings.failureMax)
    ensures n >= 1 ==> FailureDelay(settings, n + 1) == Min(2 * FailureDelay(settings, n), settings.failureMax)
  {
    if n >= 1 {
      var base := settings.failureBase;
      assert Pow2(n) == 2 * Pow2(n - 1);
      assert base * (2 * Pow2(n - 1)) == 2 * (base * Pow2(n - 1));
    }
  }

  lemma {:induction false} MulGrows(a: nat, x: nat, y: nat)
    requires x <= y
    ensures a * x <= a * y
  {
  }

  // The failures since the last success; a cancelled refresh is neither.
  function FailuresSinceSuccess(outcomes: seq<Outcome>): nat {
    if outcomes == [] then 0
    else var before := outcomes[..|outcomes| - 1];
         match outcomes[|outcomes| - 1]
         case Succeeded => 0
         case Failed => FailuresSinceSuccess(before) + 1
         case Cancelled => FailuresSinceSuccess(before)
  }

  function DelayAfter(settings: Settings, outcomes: seq<Outcome>): nat {
    if outcomes == [] then 0
    else match outcomes[|outcomes| - 1]
         case Succeeded => settings.successInterval
         case Failed => FailureDelay(settings, FailuresSinceSuccess(outcomes))
         case Cancelled => 0
  }

  // -- The processes --

  // Somebody who acquired a lease.
  datatype Holder = Holder(endpoint: string, acquiredAt: int, finished: bool)

  // All processes together. A holder's lease id is its index. `outcomes` has the finishes that changed
  // the file since the current endpoint took it over, and `finishedAt` the time of the last.
  datatype System = System(settings: Settings, now: nat, control: Control, holders: seq<Holder>,
                           outcomes: seq<Outcome>, finishedAt: nat)

  function Initial(settings: Settings): System {
    System(settings, 0, EMPTY, [], [], 0)
  }

  datatype Step =
    | Wait(time: nat)
    | Try(endpoint: string, force: bool)
    | Complete(holder: nat, outcome: Outcome)

  predicate Live(s: System, i: nat) {
    i < |s.holders| && !s.holders[i].finished && s.holders[i].acquiredAt + s.settings.leaseDuration > s.now
  }

  // Completing a refresh is for a holder that has not completed yet. The source rejects the empty endpoint.
  predicate Enabled(s: System, step: Step) {
    match step
    case Wait(_) => true
    case Try(endpoint, _) => endpoint != ""
    case Complete(i, _) => i < |s.holders| && !s.holders[i].finished
  }

  function Take(s: System, step: Step): System
    requires Enabled(s, step)
  {
    match step
    case Wait(time) => s.(now := s.now + time)
    case Try(endpoint, force) =>
      (match Acquire(s.settings, s.control, endpoint, force, s.now, |s.holders|)
       case Acquired(control) =>
         s.(control := control,
            holders := s.holders + [Holder(endpoint, s.now, false)],
            outcomes := if s.control.endpoint == endpoint then s.outcomes else [])
       case _ => s)
    case Complete(i, outcome) =>
      var h := s.holders[i];
      var effective := s.control.endpoint == h.endpoint && s.control.lease == Some(i);
      s.(control := Finish(s.settings, s.control, h.endpoint, i, outcome, s.now),
         holders := s.holders[i := h.(finished := true)],
         outcomes := if effective then s.outcomes + [outcome] else s.outcomes,
         finishedAt := if effective then s.now else s.finishedAt)
  }

  // The states of a run, the first of which is given.
  predicate IsRun(states: seq<System>, steps: seq<Step>) {
    && |states| == |steps| + 1
    && forall k | 0 <= k < |steps| :: Enabled(states[k], steps[k]) && states[k + 1] == Take(states[k], steps[k])
  }

  // -- Invariants --

  // The lease in the file is that of a holder who has not finished, and the back-off is what the outcomes call for.
  predicate Recorded(s: System) {
    && (match s.control.lease
        case None => s.control.leaseUntil == 0
        case Some(id) =>
          && id < |s.holders| && !s.holders[id].finished && s.holders[id].endpoint == s.control.endpoint
          && s.control.leaseUntil == s.holders[id].acquiredAt + s.settings.leaseDuration)
    && (forall i | 0 <= i < |s.holders| :: s.holders[i].acquiredAt <= s.now)
    && s.control.failureCount == FailuresSinceSuccess(s.outcomes)
    && s.control.nextEligibleAt
       == (if s.outcomes == [] then 0 else s.finishedAt + DelayAfter(s.settings, s.outcomes))
    && s.finishedAt <= s.now
  }

  lemma {:induction false} StepKeepsRecord(s: System, step: Step)
    requires Recorded(s) && Enabled(s, step)
    ensures Recorded(Take(s, step))
  {
    hide FailureDelay;
    if step.Complete? {
      assert (s.outcomes + [step.outcome])[..|s.outcomes|] == s.outcomes;
    }
  }

  // No two holders of one endpoint are unfinished and within their time.
  ghost predicate Exclusive(s: System) {
    forall i: nat, j: nat | Live(s, i) && Live(s, j) && s.holders[i].endpoint == s.holders[j].endpoint :: i == j
  }

  // A live holder of the file's endpoint has the lease in the file.
  ghost predicate FileHasTheLive(s: System) {
    forall i: nat | Live(s, i) && s.holders[i].endpoint == s.control.endpoint :: s.control.lease == Some(i)
  }

  // A try for an endpoint that has a live holder, while the file is another endpoint's.
  ghost predicate Breaks(s: System, step: Step) {
    step.Try? && step.endpoint != s.control.endpoint
    && exists i: nat :: Live(s, i) && s.holders[i].endpoint == step.endpoint
  }

  // Exclusion survives a step exactly if the step does not break it.
  lemma {:induction false} StepKeepsExclusion(s: System, step: Step)
    requires Recorded(s) && Exclusive(s) && FileHasTheLive(s) && Enabled(s, step)
    ensures Exclusive(Take(s, step)) <==> !Breaks(s, step)
    ensures Exclusive(Take(s, step)) ==> FileHasTheLive(Take(s, step))
  {
    hide FailureDelay, FailuresSinceSuccess, DelayAfter;
    var t, n := Take(s, step), |s.holders|;
    forall i: nat | i < n && Live(t, i)
      ensures Live(s, i) && t.holders[i] == s.holders[i]
    {
    }
    if Breaks(s, step) {
      var i: nat :| Live(s, i) && s.holders[i].endpoint == step.endpoint;
      assert Live(t, i) && Live(t, n) && t.holders[n].endpoint == step.endpoint;
    } else if step.Try? && |t.holders| > n {
      forall i: nat | i < n && Live(t, i)
        ensures t.holders[i].endpoint != step.endpoint
      {
        assert s.control.endpoint == step.endpoint && s.holders[i].endpoint == step.endpoint ==>
            s.control.lease == Some(i);
      }
    }
  }

  lemma {:induction false} RunKeepsRecord(states: seq<System>, steps: seq<Step>, k: nat)
    requires IsRun(states, steps) && Recorded(states[0]) && k < |states|
    ensures Recorded(states[k])
    decreases k
  {
    hide Recorded, Take;
    if k > 0 {
      RunKeepsRecord(states, steps, k - 1);
      StepKeepsRecord(states[k - 1], steps[k - 1]);
    }
  }

  // -- Main results --

  // In a run of any processes with any endpoints, exclusion holds in all states up to the k-th exactly if none of the
  // steps up to there was a try for an endpoint with a live holder while the file was another endpoint's.
  lemma {:induction false} ExclusionExactly(settings: Settings, states: seq<System>, steps: seq<Step>, k: nat)
    requires IsRun(states, steps) && states[0] == Initial(settings) && k < |states|
    ensures (forall n | 0 <= n <= k :: Exclusive(states[n]))
            <==> (forall n | 0 <= n < k :: !Breaks(states[n], steps[n]))
    ensures (forall n | 0 <= n < k :: !Breaks(states[n], steps[n])) ==> FileHasTheLive(states[k])
    decreases k
  {
    hide Recorded, Take, Exclusive, FileHasTheLive, Breaks;
    NobodyYet(settings);
    if k > 0 {
      ExclusionExactly(settings, states, steps, k - 1);
      RunKeepsRecord(states, steps, k - 1);
      assert Enabled(states[k - 1], steps[k - 1]) && states[k - 1 + 1] == Take(states[k - 1], steps[k - 1]);
      if forall n | 0 <= n < k - 1 :: !Breaks(states[n], steps[n]) {
        StepKeepsExclusion(states[k - 1], steps[k - 1]);
      }
    }
  }

  lemma {:induction false} NobodyYet(settings: Settings)
    ensures Recorded(Initial(settings)) && Exclusive(Initial(settings)) && FileHasTheLive(Initial(settings))
  {
  }

  // So an unbroken run has at most one live holder of each endpoint, and that of the file's endpoint has the lease
  // there.
  lemma {:induction false} AtMostOneLiveHolder(settings: Settings, states: seq<System>, steps: seq<Step>, k: nat,
                                               i: nat, j: nat)
    requires IsRun(states, steps) && states[0] == Initial(settings) && k < |states|
    requires forall n | 0 <= n < k :: !Breaks(states[n], steps[n])
    requires Live(states[k], i) && Live(states[k], j)
    ensures states[k].holders[i].endpoint == states[k].holders[j].endpoint ==> i == j
    ensures states[k].holders[i].endpoint == states[k].control.endpoint ==> states[k].control.lease == Some(i)
  {
    hide Breaks;
    ExclusionExactly(settings, states, steps, k);
  }

  // With one endpoint nothing breaks the exclusion: no two unfinished holders are within their time.
  lemma {:induction false} OneEndpointExcludes(settings: Settings, states: seq<System>, steps: seq<Step>,
                                               endpoint: string, k: nat, i: nat, j: nat)
    requires IsRun(states, steps) && states[0] == Initial(settings) && k < |states|
    requires forall n | 0 <= n < |steps| && steps[n].Try? :: steps[n].endpoint == endpoint
    requires Live(states[k], i) && Live(states[k], j)
    ensures i == j && states[k].control.lease == Some(i)
  {
    forall n | 0 <= n < k
      ensures !Breaks(states[n], steps[n])
    {
      OnlyOneEndpoint(settings, states, steps, endpoint, n);
    }
    OnlyOneEndpoint(settings, states, steps, endpoint, k);
    AtMostOneLiveHolder(settings, states, steps, k, i, j);
  }

  lemma {:induction false} OnlyOneEndpoint(settings: Settings, states: seq<System>, steps: seq<Step>,
                                           endpoint: string, k: nat)
    requires IsRun(states, steps) && states[0] == Initial(settings) && k < |states|
    requires forall n | 0 <= n < |steps| && steps[n].Try? :: steps[n].endpoint == endpoint
    ensures forall i | 0 <= i < |states[k].holders| :: states[k].holders[i].endpoint == endpoint
    ensures states[k].holders != [] ==> states[k].control.endpoint == endpoint
    decreases k
  {
    hide FailureDelay;
    if k > 0 {
      OnlyOneEndpoint(settings, states, steps, endpoint, k - 1);
      assert states[k - 1 + 1] == Take(states[k - 1], steps[k - 1]);
    }
  }

  // A live holder whose lease is in the file keeps everybody else from its endpoint, by force or not, and nobody from
  // another. In an unbroken run a live holder whose lease has left the file keeps nobody out: a try for its endpoint
  // succeeds, and is the one that breaks the exclusion.
  lemma {:induction false} AcquiredOnlyWhenFree(settings: Settings, states: seq<System>, steps: seq<Step>, k: nat,
                                                i: nat, endpoint: string, force: bool)
    requires IsRun(states, steps) && states[0] == Initial(settings) && k < |states| && Live(states[k], i)
    ensures var s := states[k];
            var acquired := Acquire(s.settings, s.control, endpoint, force, s.now, |s.holders|).Acquired?;
      && (s.control.lease == Some(i) ==> (acquired <==> endpoint != s.holders[i].endpoint))
      && ((forall n | 0 <= n < k :: !Breaks(states[n], steps[n])) && endpoint == s.holders[i].endpoint ==>
            (acquired <==> s.control.lease != Some(i)) && (acquired <==> Breaks(s, Try(endpoint, force))))
  {
    RunKeepsRecord(states, steps, k);
    ExclusionExactly(settings, states, steps, k);
  }

  // When a try succeeds, told by the holders and the outcomes: for another endpoint than the file's always; else if the
  // lease in the file, if any, is past its time, and the try is forced or the delay called for by the last outcome is
  // over.
  lemma {:induction false} AcquiredExactly(settings: Settings, states: seq<System>, steps: seq<Step>, k: nat,
                                           endpoint: string, force: bool)
    requires IsRun(states, steps) && states[0] == Initial(settings) && k < |states| && endpoint != ""
    ensures var s := states[k];
            var t := Take(s, Try(endpoint, force));
            var free := s.control.lease.None? || !Live(s, s.control.lease.value);
            var due := s.outcomes == [] || s.now >= s.finishedAt + DelayAfter(s.settings, s.outcomes);
      (|t.holders| > |s.holders| <==> endpoint != s.control.endpoint || (free && (force || due)))
      && (|t.holders| > |s.holders| ==>
            && t.control.endpoint == endpoint && t.control.lease == Some(|s.holders|)
            && t.control.leaseUntil == s.now + s.settings.leaseDuration
            && t.holders == s.holders + [Holder(endpoint, s.now, false)])
      && (|t.holders| == |s.holders| ==> t == s)
  {
    hide FailureDelay, FailuresSinceSuccess;
    NobodyYet(settings);
    RunKeepsRecord(states, steps, k);
  }

  // Two endpoints break the exclusion: two holders of the first are within their time at once.
  lemma {:induction false} TwoEndpointsOverlap(settings: Settings, a: string, b: string) returns (states: seq<System>,
                                               steps: seq<Step>)
    requires a != b && a != "" && b != "" && settings.leaseDuration > 0
    ensures IsRun(states, steps) && |states| == 4 && states[0] == Initial(settings)
    ensures Live(states[3], 0) && Live(states[3], 2) && states[3].holders[0].endpoint == states[3].holders[2].endpoint
  {
    var s0 := Initial(settings);
    var s1 := Take(s0, Try(a, false));
    var s2 := Take(s1, Try(b, false));
    var s3 := Take(s2, Try(a, false));
    states := [s0, s1, s2, s3];
    steps := [Try(a, false), Try(b, false), Try(a, false)];
  }

  // Once a holder's lease has left the file it never comes back, and completing then changes nothing in the file.
  lemma {:induction false} ReplacedHoldersAreFenced(states: seq<System>, steps: seq<Step>, i: nat, from: nat, k: nat)
    requires IsRun(states, steps) && from <= k < |states|
    requires i < |states[from].holders| && states[from].control.lease != Some(i)
    ensures i < |states[k].holders| && states[k].control.lease != Some(i)
    ensures forall outcome | Enabled(states[k], Complete(i, outcome)) ::
      Take(states[k], Complete(i, outcome)).control == states[k].control
    decreases k
  {
    hide FailureDelay;
    if k > from {
      ReplacedHoldersAreFenced(states, steps, i, from, k - 1);
      assert states[k] == Take(states[k - 1], steps[k - 1]);
    }
  }

  // A refresh that is not forced never starts before the delay that the last finish called for is over.
  lemma {:induction false} NoEarlyRefresh(settings: Settings, states: seq<System>, steps: seq<Step>, k: nat)
    requires IsRun(states, steps) && states[0] == Initial(settings) && k < |steps|
    requires steps[k].Try? && !steps[k].force && |states[k + 1].holders| > |states[k].holders|
    requires states[k].control.endpoint == steps[k].endpoint && states[k].outcomes != []
    ensures states[k].now >= states[k].finishedAt + DelayAfter(states[k].settings, states[k].outcomes)
  {
    RunKeepsRecord(states, steps, k);
    assert states[k + 1] == Take(states[k], steps[k]);
  }

  // -- The classes --

  // The shared file, and the system of all processes that it belongs to.
  class ControlFile {
    var control: Control
    ghost var system: System

    ghost predicate Valid()
      reads this
    {
      system.control == control && Recorded(system)
    }

    constructor (settings: Settings)
      ensures Valid() && system == Initial(settings)
    {
      control := EMPTY;
      system := Initial(settings);
    }
  }

  datatype Result = Applied | Skipped | Disposed | Threw

  datatype Stage =
    | Idle
    | ResolvingEndpoint(force: bool)
    | Acquiring(endpoint: string, force: bool)
    | Fetching(endpoint: string, id: LeaseId)
    | ResolvingAgain(endpoint: string, id: LeaseId)
    | Applying(endpoint: string, id: LeaseId)
    | Finishing(endpoint: string, id: LeaseId, outcome: Outcome, result: Result)
    | Done(result: Result)

  predicate HasLease(stage: Stage) {
    stage.Fetching? || stage.ResolvingAgain? || stage.Applying? || stage.Finishing?
  }

  predicate Holds(stage: Stage, id: LeaseId) {
    HasLease(stage) && stage.id == id
  }

  // A stage with a lease id is that of an unfinished holder of its endpoint.
  predicate Fits(s: System, stage: Stage) {
    && (stage.Acquiring? ==> stage.endpoint != "")
    && (HasLease(stage) ==>
          && stage.id < |s.holders|
          && !s.holders[stage.id].finished
          && s.holders[stage.id].endpoint == stage.endpoint)
  }

  // A stage that fits goes on to fit, unless its own lease is finished; and it does not have the lease id that comes
  // next.
  lemma {:induction false} StepKeepsFit(s: System, stage: Stage, step: Step)
    requires Fits(s, stage) && Enabled(s, step) && !(step.Complete? && Holds(stage, step.holder))
    ensures Fits(Take(s, step), stage) && !Holds(stage, |s.holders|)
  {
    hide Acquire, Finish;
  }

  // One process. The methods are the segments between two awaits. Those that may change the file are a step of the
  // system; the others leave it alone.
  class RemoteSynchronizer {
    const settings: Settings
    const file: ControlFile
    var stage: Stage
    var disposed: bool

    ghost predicate Valid()
      reads this, file
    {
      && file.Valid() && file.system.settings == settings
      && Fits(file.system, stage)
    }

    constructor (settings: Settings, file: ControlFile)
      requires file.Valid() && file.system.settings == settings
      ensures Valid() && this.settings == settings && this.file == file && stage == Idle && !disposed
    {
      this.settings, this.file := settings, file;
      stage, disposed := Idle, false;
    }

    // A refresh joins the one at work, if any.
    method Refresh(force: bool)
      requires Valid()
      modifies this`stage
      ensures Valid()
      ensures stage == if disposed || !old(stage).Idle? then old(stage) else ResolvingEndpoint(force)
    {
      if disposed {
        return;
      }
      if !stage.Idle? {
        return;
      }
      stage := ResolvingEndpoint(force);
    }

    method Dispose()
      requires Valid()
      modifies this`disposed
      ensures Valid() && disposed
    {
      disposed := true;
    }

    method EndpointResolved(endpoint: string)
      requires Valid() && stage.ResolvingEndpoint?
      modifies this`stage
      ensures Valid()
      ensures stage == if disposed then Done(Disposed) else if endpoint == "" then Done(Threw)
                       else Acquiring(endpoint, old(stage).force)
    {
      if disposed {
        stage := Done(Disposed);
        return;
      }
      if endpoint == "" {
        stage := Done(Threw);
        return;
      }
      stage := Acquiring(endpoint, stage.force);
    }

    // Under the lock, with a fresh lease id: the system takes a step Try. A process disposed in the meantime still
    // takes the lease, and goes on to give it back.
    method TryAcquire(now: int, id: LeaseId)
      requires Valid() && stage.Acquiring? && now == file.system.now && id == |file.system.holders|
      modifies this`stage, file
      ensures Valid()
      ensures file.system == Take(old(file.system), Try(old(stage).endpoint, old(stage).force))
      ensures HasLease(stage) <==> |file.system.holders| > |old(file.system.holders)|
      ensures if HasLease(stage) then
                && stage.id == id && file.control.lease == Some(id)
                && stage == if disposed then Finishing(old(stage).endpoint, id, Cancelled, Disposed)
                            else Fetching(old(stage).endpoint, id)
              else stage == Done(Skipped)
    {
      var endpoint := stage.endpoint;
      var current := file.control;
      var same := current.endpoint == endpoint;
      StepKeepsRecord(file.system, Try(endpoint, stage.force));
      file.system := Take(file.system, Try(endpoint, stage.force));
      if same && current.leaseUntil > now {
        stage := Done(Skipped);
        return;
      }
      if !stage.force && same && current.nextEligibleAt > now {
        stage := Done(Skipped);
        return;
      }
      file.control := Control(endpoint, Some(id), now + settings.leaseDuration,
                              if same then current.nextEligibleAt else 0, if same then current.failureCount else 0);
      stage := Fetching(endpoint, id);
      if disposed {
        Throw();
      }
    }

    // Anything thrown while the process has a lease: it goes on to finish it, as cancelled once disposed.
    method Throw()
      requires Valid() && HasLease(stage)
      modifies this`stage
      ensures Valid()
      ensures stage == Finishing(old(stage).endpoint, old(stage).id, if disposed then Cancelled else Failed,
                                 if disposed then Disposed else Threw)
    {
      stage := Finishing(stage.endpoint, stage.id, if disposed then Cancelled else Failed,
                         if disposed then Disposed else Threw);
    }

    method Fetched(ok: bool)
      requires Valid() && stage.Fetching?
      modifies this`stage
      ensures Valid() && Holds(stage, old(stage).id)
      ensures disposed ==> stage.Finishing? && stage.outcome == Cancelled
      ensures !disposed ==> (ok <==> stage.ResolvingAgain?) && (!ok ==> stage.Finishing? && stage.outcome == Failed)
    {
      if !ok {
        Throw();
        return;
      }
      if disposed {
        stage := Finishing(stage.endpoint, stage.id, Cancelled, Disposed);
        return;
      }
      stage := ResolvingAgain(stage.endpoint, stage.id);
    }

    // A release is applied only for the endpoint that the lease is for; for another one the lease is finished as a
    // success.
    method EndpointResolvedAgain(endpoint: Option<string>)
      requires Valid() && stage.ResolvingAgain?
      modifies this`stage
      ensures Valid() && Holds(stage, old(stage).id)
      ensures stage.Applying? <==> !disposed && endpoint == Some(file.system.holders[old(stage).id].endpoint)
      ensures !stage.Applying? ==>
        && stage.Finishing?
        && stage.outcome == if disposed then Cancelled else if endpoint.None? then Failed else Succeeded
    {
      if endpoint.None? || disposed {
        Throw();
        return;
      }
      if endpoint.value != stage.endpoint {
        stage := Finishing(stage.endpoint, stage.id, Succeeded, Skipped);
        return;
      }
      stage := Applying(stage.endpoint, stage.id);
    }

    method ReleaseApplied(ok: bool)
      requires Valid() && stage.Applying?
      modifies this`stage
      ensures Valid() && Holds(stage, old(stage).id) && stage.Finishing?
      ensures stage.outcome == if ok then Succeeded else if disposed then Cancelled else Failed
    {
      if !ok {
        Throw();
        return;
      }
      stage := Finishing(stage.endpoint, stage.id, Succeeded, Applied);
    }

    // Under the lock: the system takes a step Complete.
    method FinishLease(now: int)
      requires Valid() && stage.Finishing? && now == file.system.now
      modifies this`stage, file
      ensures Valid() && stage == Done(old(stage).result)
      ensures file.system == Take(old(file.system), Complete(old(stage).id, old(stage).outcome))
    {
      hide FailureDelay;
      var current := file.control;
      var outcome := stage.outcome;
      StepKeepsRecord(file.system, Complete(stage.id, outcome));
      file.system := Take(file.system, Complete(stage.id, outcome));
      if current.endpoint == stage.endpoint && current.lease == Some(stage.id) {
        var failures := if outcome.Cancelled? then current.failureCount
                        else if outcome.Succeeded? then 0
                        else current.failureCount + 1;
        var delay := if outcome.Cancelled? then 0
                     else if outcome.Succeeded? then settings.successInterval
                     else FailureDelay(settings, failures);
        file.control := Control(stage.endpoint, None, 0, now + delay, failures);
      }
      stage := Done(stage.result);
    }

    method Settled()
      requires Valid() && stage.Done?
      modifies this`stage
      ensures Valid() && stage == Idle
    {
      stage := Idle;
    }
  }

  // What other processes and the clock do to the file keeps a process valid, for nobody else finishes its lease.
  twostate lemma {:induction false} OthersKeepValid(p: RemoteSynchronizer, step: Step)
    requires old(p.Valid()) && p.stage == old(p.stage)
    requires Enabled(old(p.file.system), step) && !(step.Complete? && Holds(p.stage, step.holder))
    requires p.file.system == Take(old(p.file.system), step) && p.file.control == p.file.system.control
    ensures p.Valid()
  {
    hide Take, Recorded, Fits;
    StepKeepsRecord(old(p.file.system), step);
    StepKeepsFit(old(p.file.system), p.stage, step);
    StepKeepsSettings(old(p.file.system), step);
  }

  lemma {:induction false} StepKeepsSettings(s: System, step: Step)
    requires Enabled(s, step)
    ensures Take(s, step).settings == s.settings
  {
  }

  // -- Several processes --

  ghost function Stages(processes: set<RemoteSynchronizer>): map<RemoteSynchronizer, Stage>
    reads processes
  {
    map p | p in processes :: p.stage
  }

  // The stages fit, and no two of them have the same lease.
  ghost predicate StagesApart(s: System, stages: map<RemoteSynchronizer, Stage>) {
    && (forall p | p in stages :: Fits(s, stages[p]))
    && forall p, q | p in stages && q in stages && p != q && HasLease(stages[p]) :: !Holds(stages[q], stages[p].id)
  }

  // Valid processes on one file, no two of which have the same lease.
  ghost predicate Apart(processes: set<RemoteSynchronizer>, file: ControlFile)
    reads processes, file
  {
    && file.Valid()
    && (forall p | p in processes :: p.file == file && p.settings == file.system.settings)
    && StagesApart(file.system, Stages(processes))
  }

  lemma {:induction false} ApartMeansValid(processes: set<RemoteSynchronizer>, file: ControlFile, p: RemoteSynchronizer)
    requires Apart(processes, file) && p in processes
    ensures p.Valid()
  {
    assert Stages(processes)[p] == p.stage;
  }

  // Process `p` runs a segment, in which the system takes a step: all stages go on to fit, and the leases remain
  // different, for a new lease id is fresh and nobody finishes another's lease. The clock, and a segment that leaves
  // the file alone, are steps Wait.
  lemma {:induction false} SegmentKeepsApart(s: System, stages: map<RemoteSynchronizer, Stage>, p: RemoteSynchronizer,
                                             stage: Stage, step: Step)
    requires StagesApart(s, stages) && p in stages && Enabled(s, step) && Fits(Take(s, step), stage)
    requires step.Complete? ==> Holds(stages[p], step.holder)
    requires HasLease(stage) ==> Holds(stages[p], stage.id) || stage.id == |s.holders|
    ensures StagesApart(Take(s, step), stages[p := stage])
  {
    hide Take, Fits;
    forall q | q in stages && q != p
      ensures Fits(Take(s, step), stages[q]) && !Holds(stages[q], |s.holders|)
    {
      StepKeepsFit(s, stages[q], step);
    }
  }

  // From a state with exclusion to the next: exclusion is kept exactly if the step does not break it.
  ghost predicate KeptUnlessBroken(s: System, t: System, step: Step) {
    Exclusive(s) && FileHasTheLive(s) ==> (Exclusive(t) <==> !Breaks(s, step)) && (Exclusive(t) ==> FileHasTheLive(t))
  }

  lemma {:induction false} TakeKeepsUnlessBroken(s: System, step: Step)
    requires Recorded(s) && Enabled(s, step)
    ensures KeptUnlessBroken(s, Take(s, step), step)
  {
    hide Take, Recorded, Exclusive, FileHasTheLive, Breaks;
    if Exclusive(s) && FileHasTheLive(s) {
      StepKeepsExclusion(s, step);
    }
  }

  // A process among others tries for the lease.
  method AcquireAmong(ghost processes: set<RemoteSynchronizer>, p: RemoteSynchronizer, now: int, id: LeaseId)
    requires Apart(processes, p.file) && p in processes
    requires p.stage.Acquiring? && now == p.file.system.now && id == |p.file.system.holders|
    modifies p`stage, p.file
    ensures Apart(processes, p.file)
    ensures KeptUnlessBroken(old(p.file.system), p.file.system, Try(old(p.stage).endpoint, old(p.stage).force))
  {
    hide Take, KeptUnlessBroken;
    ghost var step := Try(p.stage.endpoint, p.stage.force);
    ApartMeansValid(processes, p.file, p);
    TakeKeepsUnlessBroken(p.file.system, step);
    ghost var before, stages := p.file.system, Stages(processes);
    p.TryAcquire(now, id);
    SegmentKeepsApart(before, stages, p, p.stage, step);
    assert Stages(processes) == stages[p := p.stage];
    StepKeepsSettings(before, step);
  }

  // A process among others finishes its lease, and nobody else's.
  method FinishAmong(ghost processes: set<RemoteSynchronizer>, p: RemoteSynchronizer, now: int)
    requires Apart(processes, p.file) && p in processes && p.stage.Finishing? && now == p.file.system.now
    modifies p`stage, p.file
    ensures Apart(processes, p.file)
    ensures KeptUnlessBroken(old(p.file.system), p.file.system, Complete(old(p.stage).id, old(p.stage).outcome))
  {
    hide Take, KeptUnlessBroken;
    ghost var step := Complete(p.stage.id, p.stage.outcome);
    ApartMeansValid(processes, p.file, p);
    TakeKeepsUnlessBroken(p.file.system, step);
    ghost var before, stages := p.file.system, Stages(processes);
    p.FinishLease(now);
    SegmentKeepsApart(before, stages, p, p.stage, step);
    assert Stages(processes) == stages[p := p.stage];
    StepKeepsSettings(before, step);
  }

  // While exclusion holds, of two processes with leases of one endpoint at most one is within its time, whatever they
  // are about to do.
  lemma {:induction false} NotBothLive(processes: set<RemoteSynchronizer>, file: ControlFile, p: RemoteSynchronizer,
                                       q: RemoteSynchronizer)
    requires Apart(processes, file) && Exclusive(file.system) && p in processes && q in processes && p != q
    requires HasLease(p.stage) && HasLease(q.stage) && p.stage.endpoint == q.stage.endpoint
    ensures !(Live(file.system, p.stage.id) && Live(file.system, q.stage.id))
  {
    assert Stages(processes)[p] == p.stage && Stages(processes)[q] == q.stage;
  }
}
