# pidlock: a verified model of PID-file locking

`pidlock` lets cron jobs and scripts make sure only one instance of a named
task runs at a time. `PIDLock(lockdir).lock(name)` is a context manager: it
looks for the file `<lockdir>/<name>.pid`. If that file records the PID of
another running process, it raises `PIDLockedException`. If the recorded
process is gone, the stale file is removed. The caller's own PID is then
written to the file, the body of the `with` block runs, and the file is
removed again in a `finally` block.

This project models that protocol for one caller at a time:

- `pid_text.dfy`, module `PidText`: the PID's two text forms. `IntToText` is
  Python's `str()` on an int. `ParseInt` is Python's `int()` on text in base
  10: surrounding whitespace is stripped, one sign is allowed, and single
  underscores may separate ASCII digits. A parse error stands for the
  `ValueError` that `int()` raises.
- `lock_model.dfy`, module `LockModel`: the lock directory as a value `Dir`
  (does it exist, and a map from file name to text). `Acquired`, `Released`
  and `Locked` give the effect of the acquire phase, the release phase and a
  whole `with` block. The scenario lemmas cover a live holder, a dead holder,
  the caller's own leftover file, a blank file, and a full cycle.
- `locker.dfy`, module `Locker`: the class `PIDLock`. It holds `lockdir` and
  `verbose` and the lock directory's state. Its methods `Acquire`, `Release`
  and `LockAndRun` change that state step by step, as the original does with
  `os.mkdir`, `os.remove` and the write. Each method is proved to agree with
  the matching function of `LockModel`.

`os.getpid()` and `psutil.pids()` are parameters: `pid` and the list `pids`.
The body of the `with` block is an `Outcome` value: it either completes or
raises some exception `e`.

## Model

| member | source | states |
|---|---|---|
| `PidText.NatToText` | pidlock.py:66 | `str()` of a non-negative int is a non-empty run of decimal digits with no leading zero, except for "0" itself |
| `PidText.IntToText` | pidlock.py:66 | `str()` of an int starts with '-' exactly when the int is negative, and every other character is a digit |
| `PidText.ParseInt` | pidlock.py:52 | `int()` on the lock file's text in base 10: whitespace is stripped from both ends, one sign is allowed, and single underscores may separate digits. `None` stands for the `ValueError` it raises. Accepted text, once stripped, starts with a sign or digit and ends with a digit, a negative result needs a leading '-', and blank text is rejected |
| `PidText.RoundTrip` | pidlock.py:52-66 | the text `str(pid)` that is written is read back by `int()` as the same integer |
| `PidText.TextInjective` | pidlock.py:66 | distinct PIDs are written as distinct texts |
| `PidText.PaddingIgnored` | pidlock.py:52 | `int()` gives the same result when the text is surrounded by whitespace, so a PID followed by a newline reads back unchanged |
| `LockModel.LockedMessage` | pidlock.py:19-21 | the message of `PIDLockedException` starts with the quoted lock name and ends with the PID, which `int()` reads back from it |
| `LockModel.Removed` | pidlock.py:55-56 | `pids.remove(pid)` leaves a list one shorter whose multiset is the old one minus one `pid` |
| `LockModel.LiveIsOther` | pidlock.py:55-57 | when each PID is listed once, a PID is in the list after the removal exactly when it is running and is not the caller's |
| `LockModel.Acquired` | pidlock.py:43-67 | the directory exists afterwards and no other file changed. A recorded PID that is live and not the caller's raises `PIDLockedException(name, xpid)`, and a file `int()` rejects raises `ValueError`; in both cases no file is written or removed. Otherwise the file, absent or stale, now holds exactly `str(pid)`, which reads back as `pid` |
| `LockModel.Released` | pidlock.py:72-76 | the `finally` block removes the lock file and changes nothing else |
| `LockModel.Locked` | pidlock.py:42-76 | a failed acquire raises its error and leaves the files as found. After a successful acquire, the lock file is gone at the end whether the task completed or raised, and the task's exception is passed through unchanged. No other file changes |
| `LockModel.LockedMessageNamesHolder` | pidlock.py:52-58 | when the acquire raises `PIDLockedException`, the exception names the lock and its message ends with the PID read from the lock file |
| `LockModel.OwnRecordIsStale` | pidlock.py:55-60 | a lock file recording the caller's own PID counts as stale, so the acquire succeeds |
| `LockModel.HeldByRunningOther` | pidlock.py:50-58 | a lock file recording another running PID makes the acquire raise `PIDLockedException` with that PID. Nothing changes except creating a missing directory |
| `LockModel.DeadOwnerReplaced` | pidlock.py:55-67 | a lock file recording a PID that is not running is replaced by one holding the caller's PID |
| `LockModel.BlankRecordRaises` | pidlock.py:50-53 | a lock file holding no number, such as an empty one, makes the acquire raise `ValueError` before anything is removed |
| `LockModel.FreeAcquire` | pidlock.py:44-67 | with no lock file for the name, the acquire succeeds and adds exactly one file holding `str(pid)` |
| `LockModel.FreeCycleRestores` | pidlock.py:44-76 | locking a free name and releasing it leaves an existing lock directory exactly as it was |
| `LockModel.ReleasedLockIsFree` | pidlock.py:60-76 | after a holder's full cycle, the next caller's acquire succeeds, whatever its PID and whatever is running |
| `Locker.PIDLock.constructor` | pidlock.py:38-40 | the object stores `lockdir` and `verbose` |
| `Locker.PIDLock.Acquire` | pidlock.py:43-67 | the method's outcome and the new directory state are those `Acquired` gives for the old state |
| `Locker.PIDLock.Release` | pidlock.py:72-76 | the new directory state is `Released` of the old one |
| `Locker.PIDLock.LockAndRun` | pidlock.py:42-76 | the outcome and the new directory state are those `Locked` gives for the old state and the task's outcome |

## Left out

- `pidlock_cli` (argument parsing, printing, running the command with `os.system`), the read of the `VERSION` file, and `setup.py`: process and packaging glue.
- The `print` calls made when `verbose` is set: console output with no effect on the lock. `verbose` is stored and otherwise unused.
- `os.path.expanduser` on `lockdir`: `lockdir` is an opaque string. The defaults `~/.pidlock` and `verbose=True` are the constants `Locker.DefaultLockdir` and `Locker.DefaultVerbose`, since Dafny constructors have no default arguments.
- Paths: a lock file is addressed by its name `name + ".pid"` inside the one lock directory. `os.path.join` for names that contain `/` or are absolute is not modelled.
- Operating-system failures: `os.mkdir` failing (missing parent, permissions, a file in the way), the lock path being a directory, and text that is not valid UTF-8.
- `psutil.pids()` and `os.getpid()`: they are the parameters `pids` and `pid`. The caller's PID is required to be in `pids`, because the running process is always listed; otherwise `pids.remove(pid)` would raise.
- The task: it is modelled by its outcome and is assumed not to touch the lock directory. A task that removes the lock file would make `os.remove` in the `finally` block raise.
- Concurrency: the existence check and the write are not atomic, so two processes can both acquire. The model states only the sequential contract of a single caller, with no claim of mutual exclusion.
- PidText.ParseInt: follows Python 3.6 and later, where `int()` accepts underscores between digits (Python 3.2 to 3.5 reject them). It accepts only ASCII digits, while Python's `int()` also accepts other Unicode decimal digits. It does not model the limit of 4300 digits that Python 3.11 added.
- The newer API exercised by the test files (`PIDCorruptException`, host names in the lock file, a `lock.pid` inside a per-name directory, the `wait` and `mininterval` arguments) is not in this `pidlock.py`. The timing and multiprocessing checks in the tests are wall-clock and concurrency concerns.
