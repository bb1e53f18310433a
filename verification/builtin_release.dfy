// Model of packages/provider-node/src/zcode-builtin-provider-config-source.ts: the active built-in release is a cache
// that processes read and replace under a file lock, next to a bundled release.

module BuiltinRelease {
  import opened Options

  // Two releases serialize alike exactly if revision and content are the same.
  datatype Release = Release(revision: nat, content: string)

  // What reading a file gives.
  datatype Candidate = Absent | Unreadable | Readable(release: Release)

  // The active file may be the bundled file itself.
  datatype Files = Files(bundled: Candidate, active: Candidate, separate: bool)

  // -- Selection --

  function ActiveCandidate(files: Files): Candidate {
    if files.separate then files.active else Absent
  }

  function SelectReleaseCandidate(bundled: Candidate, active: Candidate): Option<Release> {
    match (bundled, active)
    case (Readable(b), Readable(a)) =>
      if b.revision == a.revision && b != a then Some(b)
      else if a.revision > b.revision then Some(a) else Some(b)
    case (Readable(b), _) => Some(b)
    case (_, Readable(a)) => Some(a)
    case _ => None
  }

  function Current(files: Files): Option<Release> {
    SelectReleaseCandidate(files.bundled, ActiveCandidate(files))
  }

  // Writes what was selected unless the active file has it already. Fails if there is nothing to select.
  function Materialized(files: Files): Files {
    match Current(files)
    case None => files
    case Some(release) => if files.separate then files.(active := Readable(release)) else files
  }

  function Write(files: Files, release: Release): Files {
    if files.separate then files.(active := Readable(release)) else files.(bundled := Readable(release))
  }

  datatype ApplyResult = Updated | Unchanged | Stale | Conflict | Unusable | SourceDisposed

  function ApplyVerdict(files: Files, release: Release): ApplyResult {
    match Current(files)
    case None => Unusable
    case Some(current) =>
      if release.revision < current.revision then Stale
      else if release.revision > current.revision then Updated
      else if release == current then Unchanged
      else Conflict
  }

  function Applied(files: Files, release: Release): Files {
    if ApplyVerdict(files, release).Updated? then Write(Materialized(files), release) else Materialized(files)
  }

  // -- Locked steps, by any process, in any order --

  datatype Step = Read | Apply(release: Release)

  function Take(files: Files, step: Step): Files {
    match step
    case Read => Materialized(files)
    case Apply(release) => Applied(files, release)
  }

  function After(files: Files, steps: seq<Step>): Files
    decreases |steps|
  {
    if steps == [] then files else After(Take(files, steps[0]), steps[1..])
  }

  predicate AtLeast(after: Option<Release>, before: Option<Release>) {
    before.Some? ==> after.Some? && after.value.revision >= before.value.revision
  }

  // A step never lowers the revision; it changes what is current only to a newer release, namely the one applied.
  lemma {:induction false} StepIsMonotone(files: Files, step: Step)
    ensures AtLeast(Current(Take(files, step)), Current(files))
    ensures Current(Take(files, step)) != Current(files) ==>
      && step.Apply? && Current(files).Some? && Current(Take(files, step)) == Some(step.release)
      && step.release.revision > Current(files).value.revision
    ensures files.separate ==> Take(files, step).bundled == files.bundled && Take(files, step).separate
    ensures files.separate && Current(files).Some? ==>
      Take(files, step).active == Readable(Current(Take(files, step)).value)
  {
  }

  // Over every run the current release is at least the bundled one, and never goes back.
  lemma {:induction false} RunIsMonotone(files: Files, steps: seq<Step>, k: nat)
    requires k <= |steps|
    ensures AtLeast(Current(After(files, steps)), Current(After(files, steps[..k])))
    ensures AtLeast(Current(After(files, steps)), Current(files))
    ensures files.bundled.Readable? ==>
      && Current(After(files, steps)).Some?
      && Current(After(files, steps)).value.revision >= files.bundled.release.revision
    decreases |steps|
  {
    hide Take, Current, Applied;
    if steps != [] {
      StepIsMonotone(files, steps[0]);
      RunIsMonotone(Take(files, steps[0]), steps[1..], if k == 0 then 0 else k - 1);
      if k == 0 {
        assert steps[..0] == [];
      } else {
        assert steps[..k][1..] == steps[1..][..k - 1];
      }
    }
    BundledIsAFloor(files);
  }

  lemma {:induction false} BundledIsAFloor(files: Files)
    ensures files.bundled.Readable? ==>
      Current(files).Some? && Current(files).value.revision >= files.bundled.release.revision
  {
  }

  // -- Confluence --

  function Releases(steps: seq<Step>): set<Release> {
    set i | 0 <= i < |steps| && steps[i].Apply? :: steps[i].release
  }

  predicate OneContentPerRevision(releases: set<Release>) {
    forall a, b | a in releases && b in releases && a.revision == b.revision :: a == b
  }

  predicate IsNewest(r: Release, releases: set<Release>) {
    r in releases && forall x | x in releases :: x.revision <= r.revision
  }

  // Applying releases ends at the newest of them and of what was current.
  lemma {:induction false} EndsAtTheNewest(files: Files, steps: seq<Step>)
    requires Current(files).Some?
    requires OneContentPerRevision(Releases(steps) + {Current(files).value})
    ensures Current(After(files, steps)).Some?
    ensures IsNewest(Current(After(files, steps)).value, Releases(steps) + {Current(files).value})
    decreases |steps|
  {
    hide Take, Current;
    if steps != [] {
      var next := Take(files, steps[0]);
      StepIsMonotone(files, steps[0]);
      StepTakesTheNewer(files, steps[0]);
      assert Releases(steps) == Releases(steps[1..]) + (if steps[0].Apply? then {steps[0].release} else {}) by {
        assert forall i | 0 < i < |steps| :: steps[i] == steps[1..][i - 1];
      }
      EndsAtTheNewest(next, steps[1..]);
    }
  }

  // And no step of such a run reports a conflict.
  lemma {:induction false} NoStepConflicts(files: Files, steps: seq<Step>, k: nat)
    requires Current(files).Some? && k < |steps| && steps[k].Apply?
    requires OneContentPerRevision(Releases(steps) + {Current(files).value})
    ensures ApplyVerdict(After(files, steps[..k]), steps[k].release) != Conflict
  {
    hide Current, After;
    var before := steps[..k];
    assert forall i | 0 <= i < k :: before[i] == steps[i];
    assert Releases(before) <= Releases(steps);
    assert steps[k].release in Releases(steps);
    EndsAtTheNewest(files, before);
  }

  lemma {:induction false} StepTakesTheNewer(files: Files, step: Step)
    requires Current(files).Some?
    ensures var before, after := Current(files).value, Current(Take(files, step));
      && after.Some?
      && (step.Read? ==> after.value == before)
      && (step.Apply? ==> after.value == if step.release.revision > before.revision then step.release else before)
  {
  }

  // Two processes' worth of steps in whatever order, with repetitions and reads in between, end with the same release.
  lemma {:induction false} OrderDoesNotMatter(files: Files, steps: seq<Step>, others: seq<Step>)
    requires Current(files).Some? && Releases(steps) == Releases(others)
    requires OneContentPerRevision(Releases(steps) + {Current(files).value})
    ensures Current(After(files, steps)) == Current(After(files, others))
  {
    EndsAtTheNewest(files, steps);
    EndsAtTheNewest(files, others);
  }

  // A cached release that contradicts the bundled one of the same revision is replaced by it, whatever the step, or by
  // a newer release that the step applies.
  lemma {:induction false} BundledWinsConflicts(files: Files, step: Step)
    requires files.separate && files.bundled.Readable? && files.active.Readable?
    requires files.active.release.revision == files.bundled.release.revision
    ensures Take(files, step).active
         == if step.Apply? && step.release.revision > files.bundled.release.revision then Readable(step.release)
            else files.bundled
  {
  }

  // What is current: of the two releases the newer one, the bundled one if they are of one revision, and the readable
  // one if only one is.
  lemma {:induction false} CurrentIs(files: Files, b: Release, a: Release)
    requires files.separate
    ensures files.bundled == Readable(b) && files.active == Readable(a) ==>
      Current(files) == Some(if a.revision > b.revision then a else b)
    ensures files.bundled == Readable(b) && !files.active.Readable? ==> Current(files) == Some(b)
    ensures !files.bundled.Readable? && files.active == Readable(a) ==> Current(files) == Some(a)
    ensures !files.bundled.Readable? && !files.active.Readable? ==> Current(files) == None
  {
  }

  // What the verdicts say of the current release; only an update changes it.
  lemma {:induction false} VerdictsMean(files: Files, release: Release)
    requires Current(files).Some?
    ensures var current, after := Current(files).value, Current(Take(files, Apply(release)));
      && (ApplyVerdict(files, release) == Updated <==> after == Some(release) && release != current)
      && (ApplyVerdict(files, release) == Stale <==> release.revision < current.revision)
      && (ApplyVerdict(files, release) == Unchanged <==> release == current)
      && (ApplyVerdict(files, release) == Conflict
          <==> release.revision == current.revision && release.content != current.content)
  {
  }

  // -- The class --

  class SharedFiles {
    var files: Files

    constructor (files: Files)
      ensures this.files == files
    {
      this.files := files;
    }
  }

  class BuiltinConfigSource {
    const shared: SharedFiles
    var observed: Option<Release>
    var disposed: bool
    ghost var events: seq<string>

    constructor (shared: SharedFiles)
      ensures this.shared == shared && observed.None? && !disposed && events == []
    {
      this.shared := shared;
      observed, disposed, events := None, false, [];
    }

    // Under the lock.
    method ReadAndMaterialize() returns (selected: Option<Release>)
      modifies shared
      ensures shared.files == Materialized(old(shared.files)) && selected == Current(old(shared.files))
      ensures selected == Current(shared.files)
    {
      var files := shared.files;
      selected := SelectReleaseCandidate(files.bundled, if files.separate then files.active else Absent);
      if selected.None? {
        return;
      }
      if files.separate {
        if !files.active.Readable? || files.active.release != selected.value {
          shared.files := Write(files, selected.value);
        }
      }
    }

    // Without a usable cache (`usable` is false if a lock or a write failed) the bundled release is read directly.
    method Read(usable: bool) returns (release: Option<Release>)
      modifies this`observed, shared
      ensures old(disposed) ==> release.None? && shared.files == old(shared.files) && observed == old(observed)
      ensures !old(disposed) && usable && Current(old(shared.files)).Some? ==>
        release == Current(old(shared.files)) && shared.files == Materialized(old(shared.files))
      ensures !old(disposed) && !usable ==>
        shared.files == old(shared.files)
        && release == SelectReleaseCandidate(old(shared.files).bundled, Absent)
      ensures observed == if old(observed).Some? then old(observed) else release
    {
      if disposed {
        release := None;
        return;
      }
      release := None;
      if usable {
        release := ReadAndMaterialize();
      }
      if release.None? {
        release := SelectReleaseCandidate(shared.files.bundled, Absent);
      }
      if observed.None? {
        observed := release;
      }
    }

    method ApplyRemoteRelease(release: Release) returns (r: ApplyResult)
      modifies this`observed, this`events, shared
      ensures disposed ==> r == SourceDisposed && shared.files == old(shared.files)
      ensures !disposed ==>
        r == ApplyVerdict(old(shared.files), release) && shared.files == Applied(old(shared.files), release)
      ensures r.Updated? ==> observed == Some(release) && events == old(events) + ["remote-updated"]
      ensures !r.Updated? ==> observed == old(observed) && events == old(events)
    {
      if disposed {
        return SourceDisposed;
      }
      var current := ReadAndMaterialize();
      if current.None? {
        return Unusable;
      }
      if release.revision < current.value.revision {
        return Stale;
      }
      if release.revision == current.value.revision {
        if release == current.value {
          return Unchanged;
        }
        return Conflict;
      }
      shared.files := Write(shared.files, release);
      observed := Some(release);
      events := events + ["remote-updated"];
      r := Updated;
    }

    // The watcher reports a change only if what it reads is not what was observed last.
    method WatchRefresh()
      modifies this`observed, this`events, shared
      ensures disposed ==> shared.files == old(shared.files) && observed == old(observed) && events == old(events)
      ensures !disposed ==>
        var current := Current(old(shared.files));
        && shared.files == Materialized(old(shared.files))
        && observed == (if current.None? then old(observed) else current)
        && events == old(events) + if current.None? then ["watch-error"]
                                   else if current == old(observed) then []
                                   else ["file-changed"]
    {
      if disposed {
        return;
      }
      var release := ReadAndMaterialize();
      if release.None? {
        events := events + ["watch-error"];
        return;
      }
      if release == observed {
        return;
      }
      observed := release;
      events := events + ["file-changed"];
    }
  }
}
