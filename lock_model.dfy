/** The effect of `PIDLock.lock(name)` on the lock directory, as functions of
    the directory's state before the call, the caller's PID and the list of
    running PIDs. The class in module Locker performs the same steps in place
    and is proved to agree with these functions. */
module LockModel {
  import opened PidText

  /** How a piece of code ends: normally, or by raising an exception. */
  datatype Outcome<E> = Completed | Raised(error: E)

  /** The exceptions the acquire step raises by itself. */
  datatype LockError =
    | PIDLocked(name: string, pid: int)  // PIDLockedException(name, xpid)
    | InvalidPid(text: string)           // the ValueError int() raises on the pid file's text

  /** The exceptions the whole `with locker.lock(name): task` block lets through. */
  datatype Failure<E> = LockFailed(reason: LockError) | TaskFailed(error: E)

  /** The lock directory: whether it exists, and its files by name with their text. */
  datatype Dir = Dir(present: bool, files: map<string, string>)

  /** The state a step leaves behind, with how it ended. */
  datatype Step<E> = Step(outcome: Outcome<E>, dir: Dir)

  /** A directory that does not exist holds no files. */
  predicate WellFormed(d: Dir) { d.present || d.files == map[] }

  /** The name of the lock file for a lock name. */
  function PidFile(name: string): string { name + ".pid" }

  /** The message PIDLockedException carries. The PID in it is the PID read
      from the lock file and can be read back from the message's tail. */
  function LockedMessage(name: string, pid: int): (m: string)
    ensures |m| > |name| + |IntToText(pid)|
    ensures m[0] == '"' && m[1..|name| + 1] == name
    ensures ParseInt(m[|m| - |IntToText(pid)|..]) == Some(pid)
  {
    var head := "\"" + name + "\" is already locked with PID: ";
    var m := head + IntToText(pid);
    assert m[|head|..] == IntToText(pid);
    assert m[1..|name| + 1] == head[1..|name| + 1] == name;
    RoundTrip(pid);
    m
  }

  // ---------------------------------------------------------------------------
  // The process list

  /** `pids.remove(x)`: the list without the first occurrence of x. */
  function Removed(pids: seq<int>, x: int): (r: seq<int>)
    requires x in pids
    ensures |r| == |pids| - 1
    ensures multiset(r) == multiset(pids) - multiset{x}
  {
    assert pids == [pids[0]] + pids[1..];
    if pids[0] == x then pids[1..] else [pids[0]] + Removed(pids[1..], x)
  }

  /** The process table lists each running PID once. */
  predicate Distinct(pids: seq<int>)
  {
    forall i, j :: 0 <= i < j < |pids| ==> pids[i] != pids[j]
  }

  /** With each PID listed once, a PID counts as live after the caller's own
      PID is removed exactly when it is running and is not the caller's. */
  lemma {:induction false} LiveIsOther(pids: seq<int>, pid: int, x: int)
    requires Distinct(pids) && pid in pids
    ensures x in Removed(pids, pid) <==> x in pids && x != pid
  {
    if pids[0] == pid {
      assert pid !in pids[1..] by {
        forall j | 0 <= j < |pids[1..]| ensures pids[1..][j] != pid {
          assert pids[1..][j] == pids[j + 1];
        }
      }
      assert pids == [pids[0]] + pids[1..];
    } else {
      assert Distinct(pids[1..]) by {
        forall i, j | 0 <= i < j < |pids[1..]| ensures pids[1..][i] != pids[1..][j] {
          assert pids[1..][i] == pids[i + 1] && pids[1..][j] == pids[j + 1];
        }
      }
      assert pids == [pids[0]] + pids[1..];
      LiveIsOther(pids[1..], pid, x);
    }
  }

  // ---------------------------------------------------------------------------
  // The three phases of `lock`

  /** Replacing a file, whether or not it was removed first, changes no other file. */
  lemma OnlyKeyChanged(m: map<string, string>, f: string, v: string)
    ensures (m - {f})[f := v] == m[f := v]
    ensures m[f := v] - {f} == m - {f}
  {
  }

  /** The state of the lock file for `name`: absent, unreadable as a number,
      or recording a PID. */
  function Recorded(d: Dir, name: string): Option<Option<int>>
  {
    if PidFile(name) in d.files then Some(ParseInt(d.files[PidFile(name)])) else None
  }

  /** The acquire phase of `lock(name)` (everything before its `yield`), run
      by the process `pid` while `pids` are running. */
  function Acquired(d: Dir, name: string, pid: int, pids: seq<int>): (r: Step<LockError>)
    requires WellFormed(d) && pid in pids
    // the lock directory exists afterwards, and no other file in it changed
    ensures r.dir.present
    ensures r.dir.files - {PidFile(name)} == d.files - {PidFile(name)}
    // a live recorded PID other than the caller's: locked, nothing written or removed
    ensures r.outcome.Raised? && r.outcome.error.PIDLocked? <==>
              Recorded(d, name).Some? && Recorded(d, name).value.Some? &&
              Recorded(d, name).value.value in Removed(pids, pid)
    ensures r.outcome.Raised? && r.outcome.error.PIDLocked? ==>
              r.outcome.error == PIDLocked(name, Recorded(d, name).value.value)
    // a lock file that int() rejects: ValueError, nothing written or removed
    ensures r.outcome.Raised? && r.outcome.error.InvalidPid? <==>
              Recorded(d, name) == Some(None)
    ensures r.outcome.Raised? && r.outcome.error.InvalidPid? ==>
              r.outcome.error.text == d.files[PidFile(name)]
    ensures r.outcome.Raised? ==> r.dir.files == d.files
    // otherwise the lock file, absent or stale, now holds exactly str(pid)
    ensures r.outcome.Completed? ==> r.dir.files == d.files[PidFile(name) := IntToText(pid)]
    ensures r.outcome.Completed? ==> ParseInt(r.dir.files[PidFile(name)]) == Some(pid)
  {
    var d := Dir(true, d.files);  // os.mkdir when the directory is missing
    var f := PidFile(name);
    RoundTrip(pid);
    OnlyKeyChanged(d.files, f, IntToText(pid));
    if f in d.files then
      match ParseInt(d.files[f])
      case None => Step(Raised(InvalidPid(d.files[f])), d)
      case Some(xpid) =>
        if xpid in Removed(pids, pid) then Step(Raised(PIDLocked(name, xpid)), d)
        else Step(Completed, Dir(true, (d.files - {f})[f := IntToText(pid)]))
    else
      Step(Completed, Dir(true, d.files[f := IntToText(pid)]))
  }

  /** The release phase of `lock(name)` (its `finally` block): the lock file
      is removed and nothing else is touched. */
  function Released(d: Dir, name: string): (r: Dir)
    requires WellFormed(d) && PidFile(name) in d.files
    ensures WellFormed(r)
    ensures PidFile(name) !in r.files
    ensures r.present == d.present
    ensures r.files - {PidFile(name)} == d.files - {PidFile(name)}
  {
    Dir(d.present, d.files - {PidFile(name)})
  }

  /** `with locker.lock(name): task`, where `task` is how the block's body
      ends. The body runs only once the lock is held; after it, the lock file
      is removed whatever the outcome, and the task's exception passes through
      unchanged. */
  function Locked<E>(d: Dir, name: string, pid: int, pids: seq<int>, task: Outcome<E>): (r: Step<Failure<E>>)
    requires WellFormed(d) && pid in pids
    ensures r.dir.present
    ensures r.dir.files - {PidFile(name)} == d.files - {PidFile(name)}
    ensures Acquired(d, name, pid, pids).outcome.Raised? ==>
              r.outcome == Raised(LockFailed(Acquired(d, name, pid, pids).outcome.error)) &&
              r.dir.files == d.files
    ensures Acquired(d, name, pid, pids).outcome.Completed? ==>
              PidFile(name) !in r.dir.files &&
              (task.Completed? ==> r.outcome.Completed?) &&
              (task.Raised? ==> r.outcome == Raised(TaskFailed(task.error)))
  {
    var a := Acquired(d, name, pid, pids);
    match a.outcome
    case Raised(e) => Step(Raised(LockFailed(e)), a.dir)
    case Completed =>
      var out := match task
        case Completed => Completed
        case Raised(e) => Raised(TaskFailed(e));
      Step(out, Released(a.dir, name))
  }

  // ---------------------------------------------------------------------------
  // Scenarios

  /** A lock file left behind by the caller's own PID counts as stale: the
      caller's PID is taken off the list before the liveness check. */
  lemma OwnRecordIsStale(d: Dir, name: string, pid: int, pids: seq<int>)
    requires WellFormed(d) && pid in pids && Distinct(pids)
    requires PidFile(name) in d.files && d.files[PidFile(name)] == IntToText(pid)
    ensures Acquired(d, name, pid, pids).outcome.Completed?
  {
    RoundTrip(pid);
    LiveIsOther(pids, pid, pid);
  }

  /** Another running process holds the lock: the caller gets
      PIDLockedException with that process's PID, and only the directory's
      creation (if it was missing) has happened. */
  lemma HeldByRunningOther(d: Dir, name: string, pid: int, pids: seq<int>, owner: int)
    requires WellFormed(d) && pid in pids && Distinct(pids)
    requires owner in pids && owner != pid
    requires PidFile(name) in d.files && d.files[PidFile(name)] == IntToText(owner)
    ensures Acquired(d, name, pid, pids) == Step(Raised(PIDLocked(name, owner)), Dir(true, d.files))
  {
    RoundTrip(owner);
    LiveIsOther(pids, pid, owner);
  }

  /** The owner recorded in the lock file is no longer running (it crashed
      without releasing): the caller takes the lock over. */
  lemma DeadOwnerReplaced(d: Dir, name: string, pid: int, pids: seq<int>, owner: int)
    requires WellFormed(d) && pid in pids && owner !in pids
    requires PidFile(name) in d.files && d.files[PidFile(name)] == IntToText(owner)
    ensures Acquired(d, name, pid, pids) ==
              Step(Completed, Dir(true, d.files[PidFile(name) := IntToText(pid)]))
  {
    RoundTrip(owner);
    assert multiset(pids)[owner] == 0;
    assert multiset(Removed(pids, pid))[owner] == 0;
  }

  /** A lock file with no number in it, such as the empty file left by a
      process that stopped between opening the file and writing its PID,
      makes every later acquire raise ValueError, and nothing is removed. */
  lemma BlankRecordRaises(d: Dir, name: string, pid: int, pids: seq<int>)
    requires WellFormed(d) && pid in pids
    requires PidFile(name) in d.files && AllSpace(d.files[PidFile(name)])
    ensures Acquired(d, name, pid, pids) ==
              Step(Raised(InvalidPid(d.files[PidFile(name)])), Dir(true, d.files))
  {
  }

  /** Acquiring a name that has no lock file writes the caller's PID and
      nothing else. */
  lemma FreeAcquire(d: Dir, name: string, pid: int, pids: seq<int>)
    requires WellFormed(d) && pid in pids && PidFile(name) !in d.files
    ensures Acquired(d, name, pid, pids) == Step(Completed, Dir(true, d.files[PidFile(name) := IntToText(pid)]))
  {
  }

  /** Writing a new file and removing it again gives back the same files. */
  lemma AddThenRemove(m: map<string, string>, f: string, v: string)
    requires f !in m
    ensures m[f := v] - {f} == m
  {
  }

  /** Locking a name that is free and releasing it leaves an existing lock
      directory exactly as it was, whatever the task did. */
  lemma FreeCycleRestores<E>(d: Dir, name: string, pid: int, pids: seq<int>, task: Outcome<E>)
    requires pid in pids && d.present && PidFile(name) !in d.files
    ensures Locked(d, name, pid, pids, task).dir == d
  {
    var f := PidFile(name);
    FreeAcquire(d, name, pid, pids);
    AddThenRemove(d.files, f, IntToText(pid));
  }

  /** The message of the PIDLockedException an acquire raises names the lock
      and ends with the PID recorded in its lock file. */
  lemma LockedMessageNamesHolder(d: Dir, name: string, pid: int, pids: seq<int>)
    requires WellFormed(d) && pid in pids
    requires Acquired(d, name, pid, pids).outcome.Raised?
    requires Acquired(d, name, pid, pids).outcome.error.PIDLocked?
    ensures var e := Acquired(d, name, pid, pids).outcome.error;
            var m := LockedMessage(e.name, e.pid);
            PidFile(name) in d.files && e.name == name &&
            ParseInt(m[|m| - |IntToText(e.pid)|..]) == ParseInt(d.files[PidFile(name)])
  {
  }

  /** Once a holder has released the lock, the next caller acquires it,
      whoever they are and whatever is running. */
  lemma ReleasedLockIsFree<E>(d: Dir, name: string, pid: int, pids: seq<int>, task: Outcome<E>,
                              pid': int, pids': seq<int>)
    requires WellFormed(d) && pid in pids && pid' in pids'
    requires Acquired(d, name, pid, pids).outcome.Completed?
    ensures Acquired(Locked(d, name, pid, pids, task).dir, name, pid', pids').outcome.Completed?
  {
  }
}
