/** Rotation of compressed log files (python/src/common/common/log.py). */
module LogRotation {
  import opened Wrappers

  type Log = string

  /** Rotated logs by their number. */
  type Files = map<nat, Log>

  function Look(files: Files, i: nat): Option<Log> {
    if i in files then Some(files[i]) else None
  }

  /** Rename number `i` to the next one, if there is such a file. */
  function Bump(files: Files, i: nat): Files {
    if i in files then files[i + 1 := files[i]] - {i} else files
  }

  /** Rename the files numbered `n` down to one. */
  function Shift(files: Files, n: nat): Files
    decreases n
  {
    if n == 0 then files else Shift(Bump(files, n), n - 1)
  }

  /** One rollover of the current log, when `backups` rotated files are kept. */
  function Rollover(files: Files, current: Log, backups: nat): Files {
    if backups == 0 then files else Shift(files, backups - 1)[1 := current]
  }

  /** After the renaming, each number up to `n + 1` has its predecessor's log. */
  lemma {:induction false} ShiftAt(files: Files, n: nat, i: nat)
    ensures Look(Shift(files, n), i) ==
              if 2 <= i <= n + 1 && i - 1 in files then Some(files[i - 1])
              else if 1 <= i <= n then None
              else Look(files, i)
    decreases n
  {
    if n > 0 {
      ShiftAt(Bump(files, n), n - 1, i);
    }
  }

  function Rollovers(files: Files, logs: seq<Log>, backups: nat): Files {
    if logs == [] then files
    else Rollover(Rollovers(files, logs[..|logs| - 1], backups), logs[|logs| - 1], backups)
  }

  /**
   * Whatever rotated files there are to begin with, after any rollovers each number up to the
   * number kept holds the log rotated that many times ago.
   */
  lemma {:induction false} RecentLogsAreKept(files: Files, logs: seq<Log>, backups: nat, i: nat)
    requires 1 <= i <= backups && i <= |logs|
    ensures Look(Rollovers(files, logs, backups), i) == Some(logs[|logs| - i])
  {
    if i > 1 {
      var front := logs[..|logs| - 1];
      RecentLogsAreKept(files, front, backups, i - 1);
      ShiftAt(Rollovers(files, front, backups), backups - 1, i);
    }
  }

  /** Starting with none, a number is in use exactly up to the rollovers made and kept. */
  lemma {:induction false} FilesExactly(logs: seq<Log>, backups: nat, i: nat)
    requires backups >= 1
    ensures i in Rollovers(map[], logs, backups) <==> 1 <= i <= backups && i <= |logs|
  {
    if logs != [] {
      var front := logs[..|logs| - 1];
      FilesExactly(front, backups, i);
      if i >= 1 {
        FilesExactly(front, backups, i - 1);
      }
      ShiftAt(Rollovers(map[], front, backups), backups - 1, i);
    }
  }

  /** With none kept, rotated files are left alone and the log is lost. */
  lemma {:induction false} NoneKept(files: Files, logs: seq<Log>)
    ensures Rollovers(files, logs, 0) == files
  {
    if logs != [] {
      NoneKept(files, logs[..|logs| - 1]);
    }
  }

  class GzipRotatingFileHandler {
    const backupCount: nat
    var rotated: Files
    var current: Log

    constructor (backupCount: nat, rotated: Files)
      ensures this.backupCount == backupCount && this.rotated == rotated && current == ""
    {
      this.backupCount, this.rotated, current := backupCount, rotated, "";
    }

    /** Renames from the oldest down, then compresses the current log to number one. */
    method DoRollover()
      modifies this
      ensures rotated == Rollover(old(rotated), old(current), backupCount) && current == ""
    {
      if backupCount > 0 {
        var i := backupCount - 1;
        while i > 0
          invariant 0 <= i && current == old(current)
          invariant Shift(rotated, i) == Shift(old(rotated), backupCount - 1)
          decreases i
        {
          if i in rotated {
            rotated := rotated[i + 1 := rotated[i]] - {i};
          }
          i := i - 1;
        }
        rotated := rotated[1 := current];
      }
      current := "";
    }
  }
}
