/** The `PIDLock` object and its context manager `lock(name)`, split into the
    code before its `yield` (Acquire), the code in its `finally` block
    (Release), and the whole `with` block around a task (LockAndRun).

    The object also holds the state of its lock directory on disk, which the
    methods change step by step as the original does with os.mkdir,
    os.remove and a write. `os.getpid()` and `psutil.pids()` become the
    parameters `pid` and `pids`. */
module Locker {
  import opened PidText
  import opened LockModel

  /** The lock directory and verbosity used when none are given. */
  const DefaultLockdir: string := "~/.pidlock"
  const DefaultVerbose: bool := true

  class PIDLock {
    /** Where lock files are kept, and whether progress is printed. */
    const lockdir: string
    const verbose: bool

    /** The lock directory on disk: whether it exists, and its files. */
    var dirExists: bool
    var files: map<string, string>

    ghost predicate Valid()
      reads this
    {
      WellFormed(State())
    }

    function State(): Dir
      reads this
    {
      Dir(dirExists, files)
    }

    /** `PIDLock(lockdir, verbose)`, created while the lock directory is in
        state `disk`. */
    constructor (lockdir: string, verbose: bool, disk: Dir)
      requires WellFormed(disk)
      ensures Valid()
      ensures this.lockdir == lockdir && this.verbose == verbose
      ensures State() == disk
    {
      this.lockdir := lockdir;
      this.verbose := verbose;
      dirExists := disk.present;
      files := disk.files;
    }

    /** The acquire phase: make the directory if missing; if a lock file
        exists, read its PID and raise if that PID is running and is not the
        caller's, otherwise remove the stale file; then write the caller's
        PID. */
    method Acquire(name: string, pid: int, pids: seq<int>) returns (r: Outcome<LockError>)
      requires Valid() && pid in pids
      modifies this
      ensures Valid()
      ensures Step(r, State()) == Acquired(old(State()), name, pid, pids)
    {
      if !dirExists {
        dirExists := true;
      }
      var pidfile := PidFile(name);
      if pidfile in files {
        var xpid := ParseInt(files[pidfile]);
        if xpid.None? {
          return Raised(InvalidPid(files[pidfile]));
        }
        var live := Removed(pids, pid);  // pids.remove(pid)
        if xpid.value in live {
          return Raised(PIDLocked(name, xpid.value));
        }
        files := files - {pidfile};
      }
      files := files[pidfile := IntToText(pid)];
      r := Completed;
    }

    /** The release phase: remove the lock file. */
    method Release(name: string)
      requires Valid() && PidFile(name) in files
      modifies this
      ensures Valid()
      ensures State() == Released(old(State()), name)
    {
      files := files - {PidFile(name)};
    }

    /** `with self.lock(name): task`. The task runs only once the lock is
        held, its outcome is `task`, and it does not touch the lock
        directory. The lock file is released whether the task completes or
        raises. */
    method LockAndRun<E>(name: string, pid: int, pids: seq<int>, task: Outcome<E>)
      returns (r: Outcome<Failure<E>>)
      requires Valid() && pid in pids
      modifies this
      ensures Valid()
      ensures Step(r, State()) == Locked(old(State()), name, pid, pids, task)
    {
      var acquired := Acquire(name, pid, pids);
      if acquired.Raised? {
        return Raised(LockFailed(acquired.error));
      }
      // the task runs here, between acquire and release
      r := match task
        case Completed => Completed
        case Raised(e) => Raised(TaskFailed(e));
      Release(name);
    }
  }

  /** A caller of the class: the lock file of a holder that crashed is taken
      over by process `a`, and `a`'s release removes it. */
  method TakeOverScenario(disk: Dir, name: string, crashed: int, a: int, b: int)
    requires disk.present && crashed != a && crashed != b
  {
    var left := Dir(true, disk.files[PidFile(name) := IntToText(crashed)]);
    var locker := new PIDLock(DefaultLockdir, DefaultVerbose, left);
    DeadOwnerReplaced(left, name, a, [a, b], crashed);
    var r := locker.Acquire(name, a, [a, b]);
    assert r == Completed;
    assert locker.files[PidFile(name)] == IntToText(a);
    locker.Release(name);
    assert PidFile(name) !in locker.files;
  }

  /** A caller of the class: while process `a` holds the lock and is running,
      process `b` is refused with `a`'s PID, and its task does not run. */
  method RefusedScenario(disk: Dir, name: string, a: int, b: int)
    requires disk.present && a != b
  {
    var held := Dir(true, disk.files[PidFile(name) := IntToText(a)]);
    var locker := new PIDLock(DefaultLockdir, false, held);
    HeldByRunningOther(held, name, b, [a, b], a);
    var r := locker.LockAndRun<string>(name, b, [a, b], Raised("task ran"));
    assert r == Raised(LockFailed(PIDLocked(name, a)));
    assert locker.State() == held;
  }
}
