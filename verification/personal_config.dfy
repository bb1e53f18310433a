// Model of packages/provider-node/src/personal-provider-config-repository.ts: a repository that writes its file under a
// lock and polls it without one. The methods are the segments between two awaits.

module PersonalConfig {
  import opened Options

  // A version of the file is known by its revision; a version that cannot be decoded has none.
  type Revision = string
  type Version = Option<Revision>

  // The revision of the empty overlay: what is read of an absent file, and what reading falls back on.
  const EMPTY: Revision := ""

  function Seen(version: Version): Revision {
    if version.Some? then version.value else EMPTY
  }

  // Everything the file has contained, in order, by whichever process.
  class Disk {
    var versions: seq<Version>
    var locked: bool

    constructor ()
      ensures versions == [Some(EMPTY)] && !locked
    {
      versions, locked := [Some(EMPTY)], false;
    }

    function Latest(): (n: int)
      reads this
      ensures n == |versions| - 1
    {
      |versions| - 1
    }

    // Another process writes, under the lock.
    method ExternalWrite(version: Version)
      requires !locked
      modifies this`versions
      ensures versions == old(versions) + [version]
    {
      versions := versions + [version];
    }
  }

  // Where the holder of the lock in this process stands: it has read version `index`, or has written it, and then
  // counted the write.
  datatype Lock = Free | Holding | HasRead(index: nat) | Committed(index: nat) | Counted(index: nat)

  // A poll at work remembers how many writes were counted when it began.
  datatype Poll = NoPoll | Polling(writeGeneration: nat)

  class PersonalConfigRepository {
    const disk: Disk
    const pollingEnabled: bool
    var observed: Option<Revision>
    var writeGeneration: nat
    var poll: Poll
    var timer: bool
    var errorActive: bool
    var disposed: bool
    var lock: Lock
    ghost var observedAt: int
    ghost var pollStart: nat
    ghost var early: bool
    ghost var events: seq<string>

    // `observedAt` is the version that was observed last, `pollStart` the one that was there when the poll began.
    // `early` says that polling began before anything was observed.
    ghost predicate Valid()
      reads this, disk
    {
      Consistent() && Watches()
    }

    // Once something was observed, or an update failed, polling goes on until the repository is disposed.
    ghost predicate Watches()
      reads `observed, `early, `disposed, `timer, `poll
    {
      (observed.Some? || early) && pollingEnabled && !disposed ==> timer || poll.Polling?
    }

    ghost predicate Consistent()
      reads this, disk
    {
      && disk.versions != []
      && (!lock.Free? ==> disk.locked)
      && ((lock.HasRead? || lock.Committed? || lock.Counted?) ==>
            lock.index == disk.Latest() && disk.versions[lock.index].Some?)
      && (if observed.None? then observedAt == -1
          else 0 <= observedAt <= disk.Latest() && observed.value == Seen(disk.versions[observedAt]))
      && (timer || poll.Polling? ==> observed.Some? || early)
      && !(timer && poll.Polling?)
      && (poll.Polling? ==> poll.writeGeneration <= writeGeneration && pollStart <= disk.Latest())
      && (Current() && lock.Counted? ==> lock.index <= pollStart)
      && (AtRisk() ==> early)
    }

    // A poll is at work that no counted write has overtaken.
    ghost predicate Current()
      reads this
    {
      poll.Polling? && poll.writeGeneration == writeGeneration
    }

    // A poll is at work that began before the version that has been observed since.
    ghost predicate AtRisk()
      reads this
    {
      Current() && pollStart < observedAt
    }

    constructor (disk: Disk, pollingEnabled: bool)
      requires disk.versions != [] && !disk.locked
      ensures this.disk == disk && this.pollingEnabled == pollingEnabled
      ensures Valid() && observed.None? && poll.NoPoll? && !early && !disposed && lock.Free?
      ensures events == [] && !timer
    {
      this.disk, this.pollingEnabled := disk, pollingEnabled;
      observed, writeGeneration, poll, timer, errorActive, disposed := None, 0, NoPoll, false, false, false;
      lock, observedAt, pollStart, early, events := Free, -1, 0, false, [];
    }

    // -- Reading --

    // A read has come back with the version it found. Only the first observation counts.
    method ReadFinished(revision: Revision, ghost index: nat)
      requires Valid() && index <= disk.Latest() && revision == Seen(disk.versions[index])
      modifies this`observed, this`observedAt, this`timer
      ensures Valid()
      ensures old(observed).Some? ==> observed == old(observed) && observedAt == old(observedAt)
      ensures old(observed).None? ==> observed == Some(revision) && observedAt == index
      ensures AtRisk() <==> old(AtRisk()) || (old(observed).None? && Current() && pollStart < index)
    {
      if observed.None? {
        observed := Some(revision);
        observedAt := index;
      }
      EnsurePolling();
    }

    method EnsurePolling()
      requires Consistent() && (observed.Some? || early)
      modifies this`timer
      ensures Valid() && timer == (old(timer) || (pollingEnabled && poll.NoPoll? && !disposed))
    {
      if !pollingEnabled || timer || poll.Polling? || disposed {
        return;
      }
      timer := true;
    }

    // -- Writing --

    method TakeLock()
      requires Valid() && lock.Free? && !disk.locked
      modifies this`lock, disk`locked
      ensures Valid() && lock.Holding? && disk.versions == old(disk.versions) && AtRisk() == old(AtRisk())
    {
      lock := Holding;
      disk.locked := true;
    }

    // The file is read under the lock; what cannot be decoded fails the update.
    method ReadLocked() returns (current: Version)
      requires Valid() && lock.Holding?
      modifies this`lock
      ensures Valid() && current == disk.versions[disk.Latest()]
      ensures lock == if current.Some? then HasRead(disk.Latest()) else Holding
    {
      current := disk.versions[disk.Latest()];
      if current.Some? {
        lock := HasRead(disk.Latest());
      }
    }

    // The file is replaced by what the transform made of the version read. That is still the latest one: while the lock
    // is held nobody else writes.
    method Commit(current: Revision, transform: Revision -> Revision)
      requires Valid() && lock.HasRead? && disk.versions[lock.index] == Some(current)
      modifies this`lock, disk`versions
      ensures Valid() && lock == Committed(|old(disk.versions)|)
      ensures old(disk.versions)[|old(disk.versions)| - 1] == Some(current)
      ensures disk.versions == old(disk.versions) + [Some(transform(current))]
    {
      disk.versions := disk.versions + [Some(transform(current))];
      lock := Committed(disk.Latest());
    }

    method CountWrite()
      requires Valid() && lock.Committed?
      modifies this`writeGeneration, this`lock
      ensures Valid() && writeGeneration == old(writeGeneration) + 1 && lock == Counted(old(lock).index)
      ensures !Current() && !AtRisk() && observed == old(observed)
    {
      writeGeneration := writeGeneration + 1;
      lock := Counted(lock.index);
    }

    // A written normal form, in a read or before an update, is not observed.
    method KeepLock()
      requires Valid() && lock.Counted?
      modifies this`lock
      ensures Valid() && lock.Holding?
    {
      lock := Holding;
    }

    method ObserveWrite(revision: Revision)
      requires Valid() && lock.Counted? && Some(revision) == disk.versions[lock.index]
      modifies this`observed, this`observedAt, this`lock, this`events, this`timer, disk`locked
      ensures Valid() && lock.Free? && !disk.locked
      ensures observed == Some(revision) && observedAt == old(lock).index >= old(observedAt)
      ensures events == old(events) + if disposed then [] else ["updated"]
      ensures !AtRisk()
    {
      observed := Some(revision);
      observedAt := lock.index;
      lock := Free;
      disk.locked := false;
      Emit("updated");
      EnsurePolling();
    }

    // The lock is released with nothing observed: a read that had to normalize, or an update that failed. A failed
    // update starts the polling even if nothing was ever observed.
    method Release(failedUpdate: bool)
      requires Valid() && (lock.Holding? || lock.HasRead?)
      modifies this`lock, this`early, this`timer, disk`locked
      ensures Valid() && lock.Free? && !disk.locked && observedAt == old(observedAt) && AtRisk() == old(AtRisk())
      ensures early == (old(early) || (failedUpdate && observed.None?))
      ensures failedUpdate ==> timer || poll.Polling? || disposed || !pollingEnabled
    {
      lock := Free;
      disk.locked := false;
      if failedUpdate {
        early := early || observed.None?;
        EnsurePolling();
      }
    }

    method Emit(reason: string)
      modifies this`events
      ensures events == old(events) + if disposed then [] else [reason]
    {
      if !disposed {
        events := events + [reason];
      }
    }

    // -- Polling --

    method PollBegins()
      requires Valid() && timer
      modifies this`poll, this`timer, this`pollStart
      ensures Valid() && poll == Polling(writeGeneration) && !timer && pollStart == disk.Latest() && !AtRisk()
    {
      timer := false;
      poll := Polling(writeGeneration);
      pollStart := disk.Latest();
    }

    // The poll has read a version that was there at some time since it began. If a write was counted since then the
    // poll leaves no trace; else it observes what it read, and reports it if it is news. The version observed goes back
    // exactly if the poll was at risk and read something earlier than what was observed.
    method PollRead(revision: Revision, ghost index: nat)
      requires Valid() && poll.Polling? && pollStart <= index <= disk.Latest() && disk.versions[index] == Some(revision)
      modifies this`poll, this`timer, this`observed, this`observedAt, this`errorActive, this`events
      ensures Valid() && poll.NoPoll? && timer == (pollingEnabled && !disposed) && !AtRisk()
      ensures !old(Current()) || disposed ==>
        observed == old(observed) && observedAt == old(observedAt) && events == old(events)
      ensures !old(Current()) ==> errorActive == old(errorActive)
      ensures old(Current()) && !disposed ==>
        && observed == Some(revision) && !errorActive
        && events == old(events) + if old(observed) == Some(revision) then [] else ["poll-changed"]
      ensures observedAt < old(observedAt) ==> old(AtRisk()) && index < old(observedAt)
      ensures old(AtRisk()) && index < old(observedAt) && observed != old(observed) ==> observedAt < old(observedAt)
    {
      var overtaken := poll.writeGeneration != writeGeneration;
      poll := NoPoll;
      if !overtaken {
        errorActive := false;
        if !disposed && observed != Some(revision) {
          observed := Some(revision);
          observedAt := index;
          Emit("poll-changed");
        }
      }
      EnsurePolling();
    }

    // The read failed, or what it found cannot be decoded. The first failure in a row is reported.
    method PollFailed()
      requires Valid() && poll.Polling?
      modifies this`poll, this`timer, this`errorActive, this`events
      ensures Valid() && poll.NoPoll? && !AtRisk()
      ensures !old(Current()) || disposed || old(errorActive) ==>
        events == old(events) && errorActive == old(errorActive)
      ensures old(Current()) && !disposed && !old(errorActive) ==>
        errorActive && events == old(events) + ["poll-error"]
    {
      var overtaken := poll.writeGeneration != writeGeneration;
      poll := NoPoll;
      if !disposed && !overtaken && !errorActive {
        errorActive := true;
        Emit("poll-error");
      }
      EnsurePolling();
    }

    method Dispose()
      requires Valid()
      modifies this`disposed, this`timer
      ensures Valid() && disposed && (timer ==> old(disposed))
    {
      if disposed {
        return;
      }
      disposed := true;
      timer := false;
    }
  }

  // Other processes write only while this one does not hold the lock, and its invariant survives.
  method OthersWrite(r: PersonalConfigRepository, version: Version)
    requires r.Valid() && !r.disk.locked
    modifies r.disk`versions
    ensures r.Valid() && r.disk.versions == old(r.disk.versions) + [version] && r.AtRisk() == old(r.AtRisk())
  {
    r.disk.ExternalWrite(version);
  }

  // In every reachable state in which no update failed before something was observed, no poll can take it back.
  lemma {:induction false} NothingIsTakenBack(r: PersonalConfigRepository, index: nat)
    requires r.Valid() && !r.early && r.Current() && r.pollStart <= index
    ensures r.observedAt <= index
  {
  }

  // Polling begins after a failed update, with nothing observed.
  method PollsTooEarly() returns (r: PersonalConfigRepository)
    ensures r.Valid() && fresh(r) && fresh(r.disk) && r.pollingEnabled && !r.disposed && r.Current() && r.pollStart == 0
    ensures r.observed.None? && r.lock.Free? && !r.disk.locked && r.disk.versions == [Some(EMPTY)]
  {
    var disk := new Disk();
    r := new PersonalConfigRepository(disk, true);
    r.TakeLock();
    r.Release(true);
    r.PollBegins();
  }

  // Otherwise one can: an update fails first, the poll this starts is overtaken by a read that sees a newer version,
  // and then takes it back.
  method VersionGoesBack(a: Revision) returns (r: PersonalConfigRepository, ghost newer: int)
    requires a != EMPTY
    ensures r.Valid() && r.observed == Some(EMPTY) && newer == 1 && r.observedAt == 0
    ensures r.disk.versions == [Some(EMPTY), Some(a)]
  {
    r := PollsTooEarly();
    OthersWrite(r, Some(a));
    r.ReadFinished(a, 1);
    newer := r.observedAt;
    r.PollRead(EMPTY, 0);
  }
}
