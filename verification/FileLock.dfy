/**
 * The lock kept in a file of a shared file system (python/src/common/common/file_io.py),
 * with the ESX primitive that opens and locks in one step. Any number of lock objects
 * compete; each file-system call is one event, and a crash releases what it held.
 */
module FileLocking {
  import opened Wrappers
  import opened Runs

  type Proc = nat   // one lock object in one process
  type Inode = nat
  type Uuid = nat

  /** The lock path itself, and the unique path a lock file is moved to before deletion. */
  datatype Path = LockPath | Aside(uuid: Uuid)

  datatype Phase =
    | Idle
    | Holding(file: Inode)             // lock() has returned
    | Unlocking(file: Inode)           // unlock() has begun
    | Moved(file: Inode, uuid: Uuid)   // moved aside, still open
    | NotMoved(file: Inode)            // the move raised; the handler will close
    | Closed(uuid: Uuid)               // closed; the moved file is to be removed

  datatype Sys = Sys(
    files: map<Path, Inode>,
    locks: map<Inode, Proc>,
    phases: map<Proc, Phase>,
    next: Inode,        // the inodes from here on are unused
    uuids: set<Uuid>,   // the unique names handed out so far
    leaked: set<Inode>) // files whose close failed

  function PhaseOf(s: Sys, p: Proc): Phase {
    if p in s.phases then s.phases[p] else Idle
  }

  function At(s: Sys, p: Proc, ph: Phase): Sys {
    s.(phases := s.phases[p := ph])
  }

  /**
   * How `shutil.move` can end: renamed; copied and unlinked; copied but not unlinked;
   * nothing done. The last two raise.
   */
  datatype Move = Renamed | Copied | CopiedOnly | Refused

  /** Whether the file system serves an open at all; one that it does not may still leave a new file. */
  datatype Access = Served | Denied(creates: bool)

  datatype Event =
    | Open(p: Proc, access: Access)
    | BeginUnlock(p: Proc)
    | MoveAside(p: Proc, uuid: Uuid, how: Move)
    | Close(p: Proc, released: bool)
    | Remove(p: Proc, done: bool)
    | Crash(p: Proc)

  const Initial := Sys(map[], map[], map[], 0, {}, {})

  /** Opening for exclusive use is refused (EBUSY) when the file there is locked. */
  predicate Busy(s: Sys) {
    LockPath in s.files && s.files[LockPath] in s.locks
  }

  function OpenAndLock(s: Sys, p: Proc, access: Access): Sys {
    if Busy(s) then s
    else if access.Denied? then
      if access.creates && LockPath !in s.files then s.(files := s.files[LockPath := s.next], next := s.next + 1) else s
    else
      var i := if LockPath in s.files then s.files[LockPath] else s.next;
      At(s.(files := s.files[LockPath := i], locks := s.locks[i := p],
            next := if LockPath in s.files then s.next else s.next + 1), p, Holding(i))
  }

  function Moving(s: Sys, p: Proc, i: Inode, u: Uuid, how: Move): Option<Sys> {
    var t := s.(uuids := s.uuids + {u});
    match how
    case Renamed =>
      if LockPath !in s.files then None
      else Some(At(t.(files := (s.files - {LockPath})[Aside(u) := s.files[LockPath]]), p, Moved(i, u)))
    case Copied =>
      if LockPath !in s.files then None
      else Some(At(t.(files := (s.files - {LockPath})[Aside(u) := s.next], next := s.next + 1), p, Moved(i, u)))
    case CopiedOnly =>
      Some(At(t.(files := s.files[Aside(u) := s.next], next := s.next + 1), p, NotMoved(i)))
    case Refused => Some(At(t, p, NotMoved(i)))
  }

  function Closing(s: Sys, i: Inode, released: bool): Sys {
    if released then s.(locks := s.locks - {i}) else s.(leaked := s.leaked + {i})
  }

  function Next(s: Sys, e: Event): Option<Sys> {
    match e
    case Open(p, access) =>
      if PhaseOf(s, p).Idle? || PhaseOf(s, p).Holding? then Some(OpenAndLock(s, p, access)) else None
    case BeginUnlock(p) =>
      if PhaseOf(s, p).Holding? then Some(At(s, p, Unlocking(PhaseOf(s, p).file))) else None
    case MoveAside(p, u, how) =>
      if PhaseOf(s, p).Unlocking? && u !in s.uuids then Moving(s, p, PhaseOf(s, p).file, u, how) else None
    case Close(p, released) =>
      (match PhaseOf(s, p)
       case Moved(i, u) => Some(At(Closing(s, i, released), p, Closed(u)))
       case NotMoved(i) => Some(At(Closing(s, i, released), p, Idle))
       case _ => None)
    case Remove(p, done) =>
      (match PhaseOf(s, p)
       case Closed(u) => Some(At(if done then s.(files := s.files - {Aside(u)}) else s, p, Idle))
       case _ => None)
    case Crash(p) =>
      Some(At(s.(locks := map i | i in s.locks && s.locks[i] != p :: s.locks[i]), p, Idle))
  }

  function Exec(s: Sys, es: seq<Event>): Option<Sys> {
    Run(Next, s, es)
  }

  // ----- the invariant ---------------------------------------------------------------

  /** Between `lock()` returning and the move made by its `unlock()`. */
  predicate Owns(s: Sys, p: Proc) {
    PhaseOf(s, p).Holding? || PhaseOf(s, p).Unlocking?
  }

  /** The file at the lock path is the one `p` opened, and `p` has it locked. */
  predicate HasLockFile(s: Sys, p: Proc, i: Inode) {
    LockPath in s.files && s.files[LockPath] == i && i in s.locks && s.locks[i] == p
  }

  /** No process other than `p` has the file at `path` locked. */
  predicate NotForeign(s: Sys, p: Proc, path: Path) {
    path in s.files && s.files[path] in s.locks ==> s.locks[s.files[path]] == p
  }

  predicate PhaseInv(s: Sys, p: Proc) {
    match PhaseOf(s, p)
    case Idle => true
    case Holding(i) => HasLockFile(s, p, i)
    case Unlocking(i) => HasLockFile(s, p, i)
    case Moved(i, u) =>
      && i < s.next && u in s.uuids && NotForeign(s, p, Aside(u))
      && (LockPath in s.files ==> s.files[LockPath] != i)
    case NotMoved(i) => HasLockFile(s, p, i)
    case Closed(u) => u in s.uuids && NotForeign(s, p, Aside(u))
  }

  predicate FilesInv(s: Sys) {
    && (forall i :: i in s.locks ==> i < s.next)
    && (forall i :: i in s.leaked ==> i < s.next)
    && (forall a :: a in s.files ==> s.files[a] < s.next && (a.Aside? ==> a.uuid in s.uuids))
    && (forall a, b :: a in s.files && b in s.files && s.files[a] == s.files[b] ==> a == b)
  }

  /** Whoever has the file at the lock path locked is still using it, or leaked it. */
  predicate BusyInv(s: Sys) {
    Busy(s) ==>
      var i := s.files[LockPath];
      i in s.leaked || PhaseOf(s, s.locks[i]) in {Holding(i), Unlocking(i), NotMoved(i)}
  }

  ghost predicate Inv(s: Sys) {
    FilesInv(s) && BusyInv(s) && forall p: Proc :: PhaseInv(s, p)
  }

  lemma OpenKeeps(s: Sys, p: Proc, access: Access)
    requires Inv(s) && Next(s, Open(p, access)).Some?
    ensures Inv(Next(s, Open(p, access)).value)
  {
    var t := Next(s, Open(p, access)).value;
    if !Busy(s) {
      forall q: Proc
        ensures PhaseInv(t, q)
      {
        assert PhaseInv(s, q) && PhaseInv(s, p);
      }
    }
  }

  lemma MoveKeeps(s: Sys, p: Proc, u: Uuid, how: Move)
    requires Inv(s) && Next(s, MoveAside(p, u, how)).Some?
    ensures Inv(Next(s, MoveAside(p, u, how)).value)
  {
    var t := Next(s, MoveAside(p, u, how)).value;
    assert PhaseInv(s, p);
    forall q: Proc
      ensures PhaseInv(t, q)
    {
      assert PhaseInv(s, q);
    }
  }

  lemma CloseKeeps(s: Sys, p: Proc, released: bool)
    requires Inv(s) && Next(s, Close(p, released)).Some?
    ensures Inv(Next(s, Close(p, released)).value)
  {
    var t := Next(s, Close(p, released)).value;
    assert PhaseInv(s, p);
    forall q: Proc
      ensures PhaseInv(t, q)
    {
      assert PhaseInv(s, q);
    }
  }

  lemma CrashKeeps(s: Sys, p: Proc)
    requires Inv(s)
    ensures Inv(Next(s, Crash(p)).value)
  {
    var t := Next(s, Crash(p)).value;
    assert PhaseInv(s, p);
    forall q: Proc
      ensures PhaseInv(t, q)
    {
      assert PhaseInv(s, q);
    }
  }

  lemma OthersKeep(s: Sys, e: Event)
    requires Inv(s) && Next(s, e).Some? && (e.BeginUnlock? || e.Remove?)
    ensures Inv(Next(s, e).value)
  {
    var t := Next(s, e).value;
    assert PhaseInv(s, e.p);
    forall q: Proc
      ensures PhaseInv(t, q)
    {
      assert PhaseInv(s, q);
    }
  }

  lemma {:induction false} InvRun(s: Sys, es: seq<Event>)
    requires Inv(s) && Exec(s, es).Some?
    ensures Inv(Exec(s, es).value)
    decreases |es|
  {
    if es != [] {
      match es[0] {
        case Open(p, access) => OpenKeeps(s, p, access);
        case MoveAside(p, u, how) => MoveKeeps(s, p, u, how);
        case Close(p, released) => CloseKeeps(s, p, released);
        case Crash(p) => CrashKeeps(s, p);
        case _ => OthersKeep(s, es[0]);
      }
      InvRun(Next(s, es[0]).value, es[1..]);
    }
  }

  // ----- what it gives ---------------------------------------------------------------

  /** In every run, at most one lock object is between `lock()` and the end of its move. */
  lemma MutualExclusion(es: seq<Event>, p: Proc, q: Proc)
    requires Exec(Initial, es).Some?
    requires Owns(Exec(Initial, es).value, p) && Owns(Exec(Initial, es).value, q)
    ensures p == q
  {
    InvRun(Initial, es);
    var s := Exec(Initial, es).value;
    assert PhaseInv(s, p) && PhaseInv(s, q);
  }

  /**
   * In every run, removing never touches the lock path, nor the file of an owner, nor
   * any file that another process has locked.
   */
  lemma RemoveIsHarmless(es: seq<Event>, p: Proc, q: Proc)
    requires Exec(Initial, es).Some? && PhaseOf(Exec(Initial, es).value, p).Closed? && q != p
    ensures var s := Exec(Initial, es).value;
            var t := Next(s, Remove(p, true)).value;
            && (forall a :: a in s.files && a !in t.files ==>
                  a != LockPath && (s.files[a] in s.locks ==> s.locks[s.files[a]] != q))
            && (Owns(s, q) ==> Owns(t, q) && HasLockFile(t, q, PhaseOf(t, q).file))
  {
    InvRun(Initial, es);
    var s := Exec(Initial, es).value;
    assert PhaseInv(s, p) && PhaseInv(s, q);
  }

  /** From `lock()` returning to the close of a file that is still at the lock path. */
  predicate UsesLockPath(s: Sys, p: Proc) {
    Owns(s, p) || PhaseOf(s, p).NotMoved?
  }

  /** The file at the lock path is still locked by a descriptor that failed to close. */
  predicate LeakedAtLockPath(s: Sys) {
    Busy(s) && s.files[LockPath] in s.leaked
  }

  /**
   * In every run, an attempt to lock succeeds exactly when the file system serves it, no object
   * is using the lock path and none has left its lock behind by failing to close; otherwise no
   * lock and no object changes, and if it was served nothing at all.
   */
  lemma LockSucceedsExactly(es: seq<Event>, p: Proc, access: Access)
    requires Exec(Initial, es).Some? && PhaseOf(Exec(Initial, es).value, p).Idle?
    ensures var s := Exec(Initial, es).value;
            var t := Next(s, Open(p, access)).value;
            && (Owns(t, p) <==>
                  access.Served? && (forall q: Proc :: !UsesLockPath(s, q)) && !LeakedAtLockPath(s))
            && (Owns(t, p) || (t.locks == s.locks && t.phases == s.phases))
            && (Owns(t, p) && LockPath in s.files ==> t.files == s.files)
            && (Owns(t, p) || access == Denied(true) || t == s)
  {
    InvRun(Initial, es);
    var s := Exec(Initial, es).value;
    if Busy(s) {
      assert LeakedAtLockPath(s) || UsesLockPath(s, s.locks[s.files[LockPath]]);
    } else {
      forall q: Proc
        ensures !UsesLockPath(s, q)
      {
        assert PhaseInv(s, q);
      }
    }
  }

  function UnlockEvents(p: Proc, u: Uuid): seq<Event> {
    [BeginUnlock(p), MoveAside(p, u, Renamed), Close(p, true), Remove(p, true)]
  }

  /** An undisturbed unlock takes the lock and the lock file away. */
  lemma UnlockAlone(s: Sys, p: Proc, i: Inode, u: Uuid)
    requires PhaseOf(s, p) == Holding(i) && HasLockFile(s, p, i) && u !in s.uuids && Aside(u) !in s.files
    ensures var r := Exec(s, UnlockEvents(p, u));
            && r.Some? && r.value.locks == s.locks - {i} && r.value.files == s.files - {LockPath}
            && r.value.phases == s.phases[p := Idle]
  {
    var more := UnlockEvents(p, u);
    var s1 := At(s, p, Unlocking(i));
    var s2 := Moving(s1, p, i, u, Renamed).value;
    var s3 := At(s2.(locks := s.locks - {i}), p, Closed(u));
    var s4 := At(s3.(files := s3.files - {Aside(u)}), p, Idle);
    assert Next(s, more[0]) == Some(s1) && Next(s1, more[1]) == Some(s2);
    assert Next(s2, more[2]) == Some(s3) && Next(s3, more[3]) == Some(s4);
    assert s4.files == s.files - {LockPath} && s4.phases == s.phases[p := Idle];
    assert Exec(s3, more[3..]) == Some(s4) by { assert more[3..][1..] == [] && Exec(s4, []) == Some(s4); }
    assert Exec(s2, more[2..]) == Some(s4) by { assert more[2..][1..] == more[3..]; }
    assert Exec(s1, more[1..]) == Some(s4) by { assert more[1..][1..] == more[2..]; }
  }

  /** In every run, an undisturbed lock and unlock leave no lock, no lock file and nothing else changed. */
  lemma LockUnlockRestores(es: seq<Event>, p: Proc, u: Uuid)
    requires Exec(Initial, es).Some? && PhaseOf(Exec(Initial, es).value, p).Idle?
    requires !Busy(Exec(Initial, es).value) && u !in Exec(Initial, es).value.uuids
    ensures var s := Exec(Initial, es).value;
            var r := Exec(s, [Open(p, Served)] + UnlockEvents(p, u));
            && r.Some? && r.value.locks == s.locks && r.value.files == s.files - {LockPath}
            && r.value.phases == s.phases[p := Idle]
  {
    InvRun(Initial, es);
    var s := Exec(Initial, es).value;
    var t := OpenAndLock(s, p, Served);
    var i := PhaseOf(t, p).file;
    assert Next(s, Open(p, Served)) == Some(t) && i !in s.locks;
    UnlockAlone(t, p, i, u);
    assert ([Open(p, Served)] + UnlockEvents(p, u))[1..] == UnlockEvents(p, u);
  }

  // ----- the objects -----------------------------------------------------------------

  datatype Attempt = Opened(fd: nat) | AlreadyLocked | Inaccessible

  /** The place of the first attempt that opened the file, or the length if none did. */
  function FirstOpened(attempts: seq<Attempt>): (n: nat)
    ensures n <= |attempts|
    ensures n < |attempts| ==> attempts[n].Opened?
    ensures forall k :: 0 <= k < n ==> !attempts[k].Opened?
  {
    if attempts == [] || attempts[0].Opened? then 0 else 1 + FirstOpened(attempts[1..])
  }

  class FileLock {
    var fds: seq<nat>
    var closed: bool

    constructor ()
      ensures fds == [] && !closed
    {
      fds, closed := [], false;
    }

    /**
     * The retry loop of `lock_and_open`, against what the successive attempts would
     * meet: the first that opens the file within `retry + 1` tries wins, and the
     * descriptor is remembered; otherwise it raises and nothing is remembered.
     */
    method LockAndOpen(attempts: seq<Attempt>, retry: int) returns (fd: Option<nat>)
      requires retry < |attempts|
      modifies this
      ensures fd.Some? <==> FirstOpened(attempts) <= retry
      ensures fd.Some? ==> Opened(fd.value) == attempts[FirstOpened(attempts)]
      ensures fd.Some? ==> fds == old(fds) + [fd.value] && !closed
      ensures fd.None? ==> fds == old(fds) && closed == old(closed)
    {
      var left, n := retry, 0;
      while 0 <= left
        invariant 0 <= n && n + left == retry
        invariant n <= |attempts| && forall k :: 0 <= k < n ==> !attempts[k].Opened?
        invariant fds == old(fds) && closed == old(closed)
      {
        if attempts[n].Opened? {
          fds, closed := fds + [attempts[n].fd], false;
          return Some(attempts[n].fd);
        }
        left, n := left - 1, n + 1;
      }
      fd := None;
    }

    /** `close` forgets every descriptor, also those the system would not close. */
    method CloseAll(closes: nat -> bool) returns (released: set<nat>)
      modifies this
      ensures fds == [] && closed
      ensures released == set fd | fd in old(fds) && fd != 0 && closes(fd)
    {
      released := {};
      for k := 0 to |fds|
        invariant fds == old(fds)
        invariant released == set fd | fd in fds[..k] && fd != 0 && closes(fd)
      {
        if fds[k] != 0 && closes(fds[k]) {
          released := released + {fds[k]};
        }
        assert fds[..k + 1] == fds[..k] + [fds[k]];
      }
      assert fds[..|fds|] == fds;
      fds, closed := [], true;
    }
  }

  class FileBackedLock {
    const io: FileLock
    var acquired: bool

    /** An acquired lock has not been closed. */
    predicate Valid()
      reads this, io
    {
      acquired ==> !io.closed
    }

    constructor (io: FileLock)
      ensures this.io == io && !acquired && Valid()
    {
      this.io, acquired := io, false;
    }

    method Lock(attempts: seq<Attempt>, retry: int) returns (raised: bool)
      requires Valid() && retry < |attempts|
      modifies this, io
      ensures Valid()
      ensures raised <==> FirstOpened(attempts) > retry
      ensures acquired <==> !raised || old(acquired)
      ensures raised ==> io.fds == old(io.fds)
      ensures !raised ==> io.fds == old(io.fds) + [attempts[FirstOpened(attempts)].fd]
    {
      var fd := io.LockAndOpen(attempts, retry);
      raised := fd.None?;
      if !raised {
        acquired := true;
      }
    }

    /**
     * Whichever of the move and the removal raise, an acquired lock is closed and given up,
     * and the moved file is removed only after the close; otherwise nothing happens.
     */
    method Unlock(moves: bool, closes: nat -> bool, removes: bool) returns (released: set<nat>, removed: bool)
      requires Valid()
      modifies this, io
      ensures Valid() && !acquired
      ensures old(acquired) ==> io.fds == [] && io.closed
      ensures released == if old(acquired) then set fd | fd in old(io.fds) && fd != 0 && closes(fd) else {}
      ensures removed <==> old(acquired) && moves && removes
      ensures !old(acquired) ==> io.fds == old(io.fds) && io.closed == old(io.closed)
    {
      released, removed := {}, false;
      if !acquired {
        return;
      }
      if moves {
        released := io.CloseAll(closes);
        removed := removes;
      } else {
        if !io.closed {
          released := io.CloseAll(closes);
        }
      }
      acquired := false;
    }
  }
}
