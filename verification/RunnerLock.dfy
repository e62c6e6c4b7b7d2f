/**
 * The single-runner lock: a file naming a process, handles that release it, and processes that start, acquire,
 * release and die in any order. Acquire and release are single steps; a process number is not used twice.
 */
module RunnerLock {
  import opened Common

  /** The lock file: none, one that cannot be read, or one naming a process. */
  datatype File = Absent | Corrupt | HeldBy(pid: int)

  datatype LockError = AlreadyLive(pid: int)

  predicate Blocks(file: File, pid: int, alive: set<int>, force: bool) {
    file.HeldBy? && file.pid != pid && file.pid in alive && !force
  }

  function AfterRelease(file: File, pid: int, released: bool): File {
    if !released && file == HeldBy(pid) then Absent else file
  }

  class ReportsDir {
    var lock: File

    constructor ()
      ensures lock == Absent
    {
      lock := Absent;
    }
  }

  class Lock {
    const dir: ReportsDir
    const pid: int
    var released: bool

    constructor (dir: ReportsDir, pid: int)
      ensures this.dir == dir && this.pid == pid && !released
    {
      this.dir := dir;
      this.pid := pid;
      released := false;
    }

    /** The first release removes the lock only if it still names this process; a second one does nothing. */
    method Release()
      modifies this`released, dir`lock
      ensures released && dir.lock == AfterRelease(old(dir.lock), pid, old(released))
    {
      if released { return; }
      released := true;
      // A takeover may have replaced the file.
      if dir.lock.HeldBy? && dir.lock.pid == pid {
        dir.lock := Absent;
      }
    }
  }

  method AcquireRunnerLock(dir: ReportsDir, pid: int, forceLock: bool, alive: set<int>)
    returns (r: Result<Lock, LockError>)
    modifies dir`lock
    ensures r.Err? <==> Blocks(old(dir.lock), pid, alive, forceLock)
    ensures r.Err? ==> dir.lock == old(dir.lock) && r.error == AlreadyLive(dir.lock.pid)
    ensures r.Ok? ==>
      dir.lock == HeldBy(pid) && fresh(r.value) && r.value.dir == dir && r.value.pid == pid && !r.value.released
  {
    if dir.lock != Absent {
      var existingAlive := dir.lock.HeldBy? && dir.lock.pid != pid && dir.lock.pid in alive;
      if existingAlive && !forceLock {
        return Err(AlreadyLive(dir.lock.pid));
      }
    }
    dir.lock := HeldBy(pid);
    var lock := new Lock(dir, pid);
    return Ok(lock);
  }

  // ----- Many processes -----

  datatype Handle = Handle(pid: int, released: bool)

  datatype State = State(file: File, alive: set<int>, started: set<int>, handles: seq<Handle>)

  datatype Event =
    | Start(pid: int)
    | Acquire(pid: int, force: bool)
    /** Killed in the middle of writing the file. */
    | DieWriting(pid: int, force: bool)
    | Release(h: nat)
    | Die(pid: int)

  const INITIAL := State(Absent, {}, {}, [])

  function Step(e: Event, s: State): State {
    match e
    case Start(pid) => if pid in s.started then s else s.(alive := s.alive + {pid}, started := s.started + {pid})
    case Acquire(pid, force) =>
      if pid !in s.alive || Blocks(s.file, pid, s.alive, force) then s
      else s.(file := HeldBy(pid), handles := s.handles + [Handle(pid, false)])
    case DieWriting(pid, force) =>
      if pid !in s.alive || Blocks(s.file, pid, s.alive, force) then s
      else s.(file := Corrupt, alive := s.alive - {pid})
    case Release(h) =>
      if h >= |s.handles| || s.handles[h].pid !in s.alive then s
      else s.(file := AfterRelease(s.file, s.handles[h].pid, s.handles[h].released),
              handles := s.handles[h := s.handles[h].(released := true)])
    case Die(pid) => s.(alive := s.alive - {pid})
  }

  function Run(events: seq<Event>, from: State): State {
    if events == [] then from else Step(events[|events| - 1], Run(events[..|events| - 1], from))
  }

  /** A live process with a lock it has not released. */
  ghost predicate Holds(s: State, pid: int) {
    pid in s.alive && exists h :: 0 <= h < |s.handles| && s.handles[h] == Handle(pid, false)
  }

  /** Another handle of the same process than `h` is not released. */
  ghost predicate HoldsAnother(s: State, h: nat)
    requires h < |s.handles|
  {
    exists k :: 0 <= k < |s.handles| && k != h && s.handles[k] == Handle(s.handles[h].pid, false)
  }

  /** Nobody forces, and nobody releases one handle while it holds another. Acquiring again is allowed. */
  ghost predicate Disciplined(events: seq<Event>) {
    events == [] ||
    var n := |events| - 1;
    && Disciplined(events[..n])
    && match events[n]
       case Acquire(_, force) => !force
       case DieWriting(_, force) => !force
       case Release(h) =>
         var s := Run(events[..n], INITIAL);
         h < |s.handles| && s.handles[h].pid in s.alive && !s.handles[h].released ==> !HoldsAnother(s, h)
       case _ => true
  }

  /** The file names a live process exactly when that process holds the lock. */
  ghost predicate FileNamesTheHolder(s: State) {
    && s.alive <= s.started
    && (forall pid :: pid in s.alive ==> (Holds(s, pid) <==> s.file == HeldBy(pid)))
    && (forall h :: 0 <= h < |s.handles| ==> s.handles[h].pid in s.started)
  }

  lemma HoldsBy(s: State, h: nat)
    requires h < |s.handles| && s.handles[h].pid in s.alive && !s.handles[h].released
    ensures Holds(s, s.handles[h].pid)
  {
    assert s.handles[h] == Handle(s.handles[h].pid, false);
  }

  lemma AcquireKeepsHolder(s: State, pid: int)
    requires FileNamesTheHolder(s) && pid in s.alive && !Blocks(s.file, pid, s.alive, false)
    ensures FileNamesTheHolder(Step(Acquire(pid, false), s))
  {
    var q := Step(Acquire(pid, false), s);
    var n := |s.handles|;
    assert q.handles[n] == Handle(pid, false);
    forall p | p in q.alive ensures Holds(q, p) <==> q.file == HeldBy(p) {
      if p == pid {
        HoldsBy(q, n);
      } else {
        assert !Holds(s, p);
        assert forall h :: 0 <= h < |q.handles| ==> q.handles[h] == if h < n then s.handles[h] else Handle(pid, false);
      }
    }
  }

  /** A first release gives the lock up exactly when the process holds no other handle; nobody else is affected. */
  lemma ReleaseGivesUpIff(s: State, h: nat, p: int)
    requires h < |s.handles| && s.handles[h].pid in s.alive && !s.handles[h].released
    ensures var q := Step(Release(h), s);
      Holds(q, p) <==> if p == s.handles[h].pid then HoldsAnother(s, h) else Holds(s, p)
  {
    var q := Step(Release(h), s);
    assert q.handles[h].released;
    assert forall k :: 0 <= k < |s.handles| && k != h ==> q.handles[k] == s.handles[k];
    if p == s.handles[h].pid {
      if HoldsAnother(s, h) {
        var k :| 0 <= k < |s.handles| && k != h && s.handles[k] == Handle(p, false);
        assert q.handles[k] == Handle(p, false);
      }
    } else if Holds(s, p) {
      var k :| 0 <= k < |s.handles| && s.handles[k] == Handle(p, false);
      assert q.handles[k] == Handle(p, false);
    }
  }

  lemma ReleaseKeepsHolder(s: State, h: nat)
    requires FileNamesTheHolder(s) && h < |s.handles| && s.handles[h].pid in s.alive
    requires !s.handles[h].released ==> !HoldsAnother(s, h)
    ensures FileNamesTheHolder(Step(Release(h), s))
  {
    var q := Step(Release(h), s);
    if s.handles[h].released {
      assert q.handles == s.handles && q == s;
    } else {
      HoldsBy(s, h);
      forall p | p in q.alive ensures Holds(q, p) <==> q.file == HeldBy(p) {
        ReleaseGivesUpIff(s, h, p);
      }
    }
  }

  lemma DeathKeepsHolder(s: State, pid: int, file: File)
    requires FileNamesTheHolder(s)
    requires file == s.file || (file == Corrupt && forall p <- s.alive :: p != pid ==> s.file != HeldBy(p))
    ensures FileNamesTheHolder(s.(file := file, alive := s.alive - {pid}))
  {
    var q := s.(file := file, alive := s.alive - {pid});
    forall p | p in q.alive ensures Holds(q, p) <==> q.file == HeldBy(p) {
      assert Holds(q, p) <==> Holds(s, p);
    }
  }

  lemma StartKeepsHolder(s: State, pid: int)
    requires FileNamesTheHolder(s) && pid !in s.started && s.file != HeldBy(pid)
    ensures FileNamesTheHolder(Step(Start(pid), s))
  {
    var q := Step(Start(pid), s);
    forall p | p in q.alive ensures Holds(q, p) <==> q.file == HeldBy(p) {
      if p == pid {
        assert !Holds(q, p);
      } else {
        assert Holds(q, p) <==> Holds(s, p);
      }
    }
  }

  lemma {:induction false} HolderIsNamed(events: seq<Event>)
    requires Disciplined(events)
    ensures var s := Run(events, INITIAL);
      FileNamesTheHolder(s) && (s.file.HeldBy? ==> s.file.pid in s.started)
  {
    if events == [] {
    } else {
      var n := |events| - 1;
      HolderIsNamed(events[..n]);
      var s := Run(events[..n], INITIAL);
      match events[n]
      case Start(pid) => if pid !in s.started { StartKeepsHolder(s, pid); }
      case Acquire(pid, force) =>
        if pid in s.alive && !Blocks(s.file, pid, s.alive, force) { AcquireKeepsHolder(s, pid); }
      case DieWriting(pid, force) =>
        if pid in s.alive && !Blocks(s.file, pid, s.alive, force) { DeathKeepsHolder(s, pid, Corrupt); }
      case Release(h) => if h < |s.handles| && s.handles[h].pid in s.alive { ReleaseKeepsHolder(s, h); }
      case Die(pid) => DeathKeepsHolder(s, pid, s.file);
    }
  }

  /**
   * Without force, and while nobody releases one handle holding another, at most one live process holds the lock,
   * through every start, repeated acquire, release, crash and kill.
   */
  lemma MutualExclusion(events: seq<Event>, p: int, q: int)
    requires Disciplined(events)
    requires Holds(Run(events, INITIAL), p) && Holds(Run(events, INITIAL), q)
    ensures p == q
  {
    HolderIsNamed(events);
  }

  /**
   * In the same runs a live process is refused the lock exactly when another live process holds it at that moment:
   * a lock of a dead process, or one that cannot be read, never blocks.
   */
  lemma RefusedIffHeld(events: seq<Event>, pid: int)
    requires Disciplined(events)
    ensures Blocks(Run(events, INITIAL).file, pid, Run(events, INITIAL).alive, false)
      <==> exists other :: other != pid && Holds(Run(events, INITIAL), other)
  {
    HolderIsNamed(events);
    var s := Run(events, INITIAL);
    if Blocks(s.file, pid, s.alive, false) {
      assert Holds(s, s.file.pid);
    }
  }

  /**
   * Where the discipline is needed: when the holder releases a handle and another process then acquires, both hold
   * the lock exactly when the first had another unreleased handle.
   */
  lemma ReleaseSharesTheLockIff(events: seq<Event>, h: nat, q: int)
    requires Disciplined(events)
    requires var s := Run(events, INITIAL);
      h < |s.handles| && s.handles[h].pid in s.alive && !s.handles[h].released && q in s.alive && q != s.handles[h].pid
    ensures var s := Run(events, INITIAL);
      var after := Step(Acquire(q, false), Step(Release(h), s));
      Holds(after, q) && (Holds(after, s.handles[h].pid) <==> HoldsAnother(s, h))
  {
    HolderIsNamed(events);
    var s := Run(events, INITIAL);
    var p := s.handles[h].pid;
    HoldsBy(s, h);
    var freed := Step(Release(h), s);
    ReleaseGivesUpIff(s, h, p);
    assert freed.file == Absent;
    AcquireAddsOnly(freed, q, p);
  }

  lemma AcquireAddsOnly(s: State, q: int, p: int)
    requires q in s.alive && !Blocks(s.file, q, s.alive, false) && p != q
    ensures Holds(Step(Acquire(q, false), s), q)
    ensures Holds(Step(Acquire(q, false), s), p) <==> Holds(s, p)
  {
    var after := Step(Acquire(q, false), s);
    HoldsBy(after, |s.handles|);
    assert forall k :: 0 <= k < |s.handles| ==> after.handles[k] == s.handles[k];
    if Holds(s, p) {
      var k :| 0 <= k < |s.handles| && s.handles[k] == Handle(p, false);
      assert after.handles[k] == Handle(p, false);
    }
  }

  /** `e` neither acquires nor is a release by `pid`. */
  ghost predicate LeavesLockOf(e: Event, s: State, pid: int) {
    match e
    case Acquire(_, _) => false
    case DieWriting(_, _) => false
    case Release(h) => h < |s.handles| ==> s.handles[h].pid != pid
    case _ => true
  }

  ghost predicate LeaveLockOf(events: seq<Event>, s: State, pid: int) {
    events == [] ||
    var n := |events| - 1;
    LeaveLockOf(events[..n], s, pid) && LeavesLockOf(events[n], Run(events[..n], s), pid)
  }

  /**
   * In any state, forced takeovers included: once `pid` has acquired, no release and no death of other processes
   * removes its lock.
   */
  lemma {:induction false} LastAcquirerKeepsTheLock(events: seq<Event>, s: State, pid: int, force: bool)
    requires pid in s.alive && !Blocks(s.file, pid, s.alive, force)
    requires LeaveLockOf(events, Step(Acquire(pid, force), s), pid)
    ensures Run(events, Step(Acquire(pid, force), s)).file == HeldBy(pid)
    decreases |events|
  {
    if events == [] {
    } else {
      LastAcquirerKeepsTheLock(events[..|events| - 1], s, pid, force);
    }
  }

  /** A process that acquires twice and releases once frees the lock while it still holds a handle. */
  lemma ReacquiringBreaksExclusion()
    ensures var events := [Start(1), Start(2), Acquire(1, false), Acquire(1, false), Release(0), Acquire(2, false)];
      Holds(Run(events, INITIAL), 1) && Holds(Run(events, INITIAL), 2)
  {
    var e2 := [Start(1), Start(2)];
    var e4 := e2 + [Acquire(1, false), Acquire(1, false)];
    var e6 := e4 + [Release(0), Acquire(2, false)];
    RunTwo([], Start(1), Start(2));
    RunTwo(e2, Acquire(1, false), Acquire(1, false));
    RunTwo(e4, Release(0), Acquire(2, false));
    var s := Run(e6, INITIAL);
    assert e6 == [Start(1), Start(2), Acquire(1, false), Acquire(1, false), Release(0), Acquire(2, false)];
    assert s.handles == [Handle(1, true), Handle(1, false), Handle(2, false)];
    assert s.handles[1] == Handle(1, false) && s.handles[2] == Handle(2, false);
  }

  lemma RunTwo(events: seq<Event>, a: Event, b: Event)
    ensures Run(events + [a, b], INITIAL) == Step(b, Step(a, Run(events, INITIAL)))
  {
    assert (events + [a, b])[..|events| + 1] == events + [a];
    assert (events + [a])[..|events|] == events;
  }
}
