/**
 * The agent's registration loop (python/src/agent/agent/chairman_registrant.py) running
 * against mode changes made by other threads. One event is one step that the locks
 * make atomic; a run is any list of events.
 */
module Registration {
  import opened Wrappers
  import opened Runs
  import opened HostMode

  const MAX_TIMEOUT := 60

  /** Where the loop thread stands. */
  datatype Loop =
    | Top                     // about to call wait_for_update_or_retry
    | Waiting(timed: bool)    // inside the condition wait
    | Woken                   // past the wait, flag not yet cleared
    | Cleared                 // flag cleared, mode not yet read
    | Calling(register: bool) // mode read, request to the chairman in progress

  /** The registrant object and its thread. */
  datatype Registrant = Registrant(pending: bool, tries: nat, loop: Loop)

  const Fresh := Registrant(true, 0, Top)

  /** The host belongs with the chairman unless it is in maintenance or deprovisioned. */
  predicate NeedsRegister(m: Mode) {
    m != Maintenance && m != Deprovisioned
  }

  function Pow2(n: nat): nat {
    if n == 0 then 1 else 2 * Pow2(n - 1)
  }

  function Timeout(tries: nat): nat {
    if Pow2(tries) < MAX_TIMEOUT then Pow2(tries) else MAX_TIMEOUT
  }

  /** The wait doubles with each failure up to the cap, which it reaches with the sixth. */
  lemma {:induction false} BackOff(a: nat, b: nat)
    requires a <= b
    ensures Pow2(a) <= Pow2(b)
    ensures Timeout(a) <= Timeout(b) <= MAX_TIMEOUT == 60
    ensures Timeout(b) == MAX_TIMEOUT <==> 6 <= b
    ensures Timeout(0) == 1
    ensures Timeout(b + 1) == if 2 * Timeout(b) < MAX_TIMEOUT then 2 * Timeout(b) else MAX_TIMEOUT
    decreases b
  {
    if a < b {
      BackOff(a, b - 1);
    } else if 0 < b {
      BackOff(a - 1, b - 1);
    }
    assert Pow2(5) == 32 by {
      assert Pow2(1) == 2 && Pow2(2) == 4 && Pow2(3) == 8 && Pow2(4) == 16;
    }
  }

  // ----- steps of the registrant ---------------------------------------------------

  function Trigger(r: Registrant): Registrant {
    r.(pending := true, loop := if r.loop.Waiting? then Woken else r.loop)
  }

  function EnterWait(r: Registrant): Registrant {
    r.(loop := if r.pending then Woken else Waiting(r.tries != 0))
  }

  function Answer(r: Registrant, ok: bool): Registrant {
    r.(tries := if ok then 0 else r.tries + 1, loop := Top)
  }

  // ----- the system ------------------------------------------------------------------

  /** A thread inside `set_mode`, which holds the mode lock from `Written` on. */
  datatype Setter = Outside | Written | Notified

  /**
   * `chairman` is what the chairman believes. `lastRead` and `untold` are history: what
   * the last mode read asked for, and what the latest `set_mode` since then that ended
   * without running the trigger callback asks for.
   */
  datatype Sys = Sys(
    stored: Option<int>,
    setter: Setter,
    reg: Registrant,
    chairman: Option<bool>,
    lastRead: Option<bool>,
    untold: Option<bool>)

  datatype Event =
    | SetWrite(mode: Mode, allowed: set<Mode>) // set_mode stores the new mode
    | SetNotify                                // its callback triggers the registrant
    | SetEnd                                   // it returns
    | SetAbort                                 // it raises before the callback has run
    | Update                                   // any other trigger
    | LoopEnter                                // wait_for_update_or_retry
    | Wake                                     // the wait ends without a trigger
    | Clear                                    // _pending_update = False
    | Read                                     // _need_to_register
    | CallOk                                   // the chairman answers OK
    | CallFail(applied: bool)                  // the call fails, applied or not

  predicate Initial(s: Sys) {
    s.setter == Outside && s.reg == Fresh && s.lastRead == None && s.untold == None
  }

  function Next(s: Sys, e: Event): Option<Sys> {
    match e
    case SetWrite(m, allowed) =>
      if s.setter == Outside && Admits(s.stored, m, allowed) == Ok(true)
      then Some(s.(stored := Some(Code(m)), setter := Written))
      else None
    case SetNotify =>
      if s.setter == Written then Some(s.(setter := Notified, reg := Trigger(s.reg))) else None
    case SetEnd =>
      if s.setter == Notified then Some(s.(setter := Outside)) else None
    case SetAbort =>
      if s.setter == Written && Decode(s.stored).Some?
      then Some(s.(setter := Outside, untold := Some(NeedsRegister(Decode(s.stored).value))))
      else None
    case Update => Some(s.(reg := Trigger(s.reg)))
    case LoopEnter =>
      if s.reg.loop == Top then Some(s.(reg := EnterWait(s.reg))) else None
    case Wake =>
      if s.reg.loop.Waiting? then Some(s.(reg := s.reg.(loop := Woken))) else None
    case Clear =>
      if s.reg.loop == Woken then Some(s.(reg := s.reg.(pending := false, loop := Cleared))) else None
    case Read =>
      if s.reg.loop == Cleared && s.setter == Outside then // get_mode takes the mode lock
        Some(match Decode(s.stored)
             case None => s.(reg := Answer(s.reg, false), lastRead := None, untold := None)
             case Some(m) =>
               s.(reg := s.reg.(loop := Calling(NeedsRegister(m))),
                  lastRead := Some(NeedsRegister(m)), untold := None))
      else None
    case CallOk =>
      if s.reg.loop.Calling?
      then Some(s.(reg := Answer(s.reg, true), chairman := Some(s.reg.loop.register)))
      else None
    case CallFail(applied) =>
      if s.reg.loop.Calling?
      then Some(s.(reg := Answer(s.reg, false),
                   chairman := if applied then Some(s.reg.loop.register) else s.chairman))
      else None
  }

  function Exec(s: Sys, es: seq<Event>): Option<Sys> {
    Run(Next, s, es)
  }

  /** Another mode read is certain: the flag is up or the loop is on its way to reading. */
  predicate ReadToCome(s: Sys) {
    s.reg.pending || s.reg.loop in {Woken, Cleared}
  }

  /** What the current mode asks for is what was read, or what an aborted change left. */
  predicate Tracked(s: Sys) {
    s.lastRead.Some? ==>
      Decode(s.stored).Some? &&
      NeedsRegister(Decode(s.stored).value) == (if s.untold.Some? then s.untold else s.lastRead).value
  }

  predicate Inv(s: Sys) {
    && (s.reg.loop.Waiting? ==> !s.reg.pending && (s.reg.loop.timed <==> s.reg.tries != 0))
    && (s.setter == Notified ==> ReadToCome(s))
    && (s.setter != Outside ==> Decode(s.stored).Some?)
    && (!ReadToCome(s) ==>
          && (s.reg.tries == 0 || s.reg.loop.Calling? ==> s.lastRead.Some?)
          && (s.setter == Outside ==> Tracked(s))
          && (s.reg.loop.Calling? ==> s.lastRead == Some(s.reg.loop.register))
          && (!s.reg.loop.Calling? && s.reg.tries == 0 ==> s.chairman == s.lastRead))
  }

  lemma InvStep(s: Sys, e: Event)
    requires Inv(s) && Next(s, e).Some?
    ensures Inv(Next(s, e).value)
  {
  }

  lemma {:induction false} InvRun(s: Sys, es: seq<Event>)
    requires Inv(s) && Exec(s, es).Some?
    ensures Inv(Exec(s, es).value)
    decreases |es|
  {
    if es != [] {
      InvStep(s, es[0]);
      InvRun(Next(s, es[0]).value, es[1..]);
    }
  }

  /** The loop sits in its untimed wait and nobody is inside `set_mode`. */
  predicate Quiet(s: Sys) {
    s.reg.loop == Waiting(false) && s.setter == Outside
  }

  predicate Converged(s: Sys) {
    Decode(s.stored).Some? && s.chairman == Some(NeedsRegister(Decode(s.stored).value))
  }

  /**
   * In every run and at every quiet point, the chairman has the host registered exactly when it
   * is neither in maintenance nor deprovisioned, if and only if no `set_mode` since the last read
   * both changed the demand and ended without its callback. A quiet loop never has an update
   * pending.
   */
  lemma QuietExactly(s: Sys, es: seq<Event>)
    requires Initial(s) && Exec(s, es).Some?
    ensures var t := Exec(s, es).value;
            Quiet(t) ==>
              && !t.reg.pending && t.lastRead.Some? && Decode(t.stored).Some?
              && var mode := Decode(t.stored).value;
                 (t.chairman == Some(mode != Maintenance && mode != Deprovisioned) <==>
                    t.untold.None? || t.untold == t.lastRead)
  {
    InvRun(s, es);
  }

  predicate Undisturbed(es: seq<Event>) {
    SetAbort !in es
  }

  lemma {:induction false} UntoldRun(s: Sys, es: seq<Event>)
    requires s.untold.None? && Undisturbed(es) && Exec(s, es).Some?
    ensures Exec(s, es).value.untold.None?
    decreases |es|
  {
    if es != [] {
      assert es[0] in es && forall e :: e in es[1..] ==> e in es;
      UntoldRun(Next(s, es[0]).value, es[1..]);
    }
  }

  /** If every mode change gets as far as its callback, every quiet point is converged. */
  lemma Convergence(s: Sys, es: seq<Event>)
    requires Initial(s) && Undisturbed(es) && Exec(s, es).Some?
    ensures Quiet(Exec(s, es).value) ==> Converged(Exec(s, es).value)
  {
    UntoldRun(s, es);
    QuietExactly(s, es);
  }

  /** A trigger is never lost: from then until the next read, a read is still to come. */
  lemma {:induction false} TriggerLeadsToRead(s: Sys, es: seq<Event>)
    requires Inv(s) && ReadToCome(s) && Read !in es && Exec(s, es).Some?
    ensures ReadToCome(Exec(s, es).value) && !Exec(s, es).value.reg.loop.Waiting?
    decreases |es|
  {
    if es != [] {
      assert es[0] in es && forall e :: e in es[1..] ==> e in es;
      InvStep(s, es[0]);
      TriggerLeadsToRead(Next(s, es[0]).value, es[1..]);
    }
  }

  /** After a failure the loop keeps retrying: until the chairman says OK it never waits untimed. */
  lemma {:induction false} RetriesUntilOk(s: Sys, es: seq<Event>)
    requires Inv(s) && s.reg.tries != 0 && s.reg.loop != Waiting(false) && CallOk !in es && Exec(s, es).Some?
    ensures Exec(s, es).value.reg.tries >= s.reg.tries && Exec(s, es).value.reg.loop != Waiting(false)
    decreases |es|
  {
    if es != [] {
      assert es[0] in es && forall e :: e in es[1..] ==> e in es;
      InvStep(s, es[0]);
      RetriesUntilOk(Next(s, es[0]).value, es[1..]);
    }
  }

  /**
   * From any state of any run with the loop at its top and nobody inside `set_mode`, one more
   * trigger and an iteration in which the chairman says OK end in a quiet, converged state.
   */
  lemma IterationSettles(s: Sys, es: seq<Event>)
    requires Initial(s) && Exec(s, es).Some?
    requires var t := Exec(s, es).value; t.reg.loop == Top && t.setter == Outside && Decode(t.stored).Some?
    ensures var r := Exec(Exec(s, es).value, [Update, LoopEnter, Clear, Read, CallOk, LoopEnter]);
            r.Some? && Quiet(r.value) && Converged(r.value) && r.value.stored == Exec(s, es).value.stored
  {
    var t := Exec(s, es).value;
    var more := [Update, LoopEnter, Clear, Read, CallOk, LoopEnter];
    var need := NeedsRegister(Decode(t.stored).value);
    var t1 := t.(reg := t.reg.(pending := true));
    var t2 := t1.(reg := t1.reg.(loop := Woken));
    var t3 := t2.(reg := t2.reg.(pending := false, loop := Cleared));
    var t4 := t3.(reg := t3.reg.(loop := Calling(need)), lastRead := Some(need), untold := None);
    var t5 := t4.(reg := Registrant(false, 0, Top), chairman := Some(need));
    var t6 := t5.(reg := t5.reg.(loop := Waiting(false)));
    assert Next(t, more[0]) == Some(t1) && Next(t1, more[1]) == Some(t2) && Next(t2, more[2]) == Some(t3);
    assert Next(t3, more[3]) == Some(t4) && Next(t4, more[4]) == Some(t5) && Next(t5, more[5]) == Some(t6);
    assert Exec(t5, more[5..]) == Some(t6) by { assert more[5..][1..] == [] && Exec(t6, []) == Some(t6); }
    assert Exec(t4, more[4..]) == Some(t6) by { assert more[4..][1..] == more[5..]; }
    assert Exec(t3, more[3..]) == Some(t6) by { assert more[3..][1..] == more[4..]; }
    assert Exec(t2, more[2..]) == Some(t6) by { assert more[2..][1..] == more[3..]; }
    assert Exec(t1, more[1..]) == Some(t6) by { assert more[1..][1..] == more[2..]; }
  }

  /** Convergence fails when writing the state file fails after the mode has changed. */
  lemma LostChange(s: Sys)
    requires Initial(s) && s.stored == None
    ensures exists es :: Exec(s, es).Some? && Quiet(Exec(s, es).value) && !Converged(Exec(s, es).value)
  {
    var es := [LoopEnter, Clear, Read, CallOk, LoopEnter, SetWrite(Maintenance, {}), SetAbort];
    var s1 := Next(s, es[0]).value;
    var s2 := Next(s1, es[1]).value;
    var s3 := Next(s2, es[2]).value;
    var s4 := Next(s3, es[3]).value;
    var s5 := Next(s4, es[4]).value;
    var s6 := Next(s5, es[5]).value;
    var s7 := Next(s6, es[6]).value;
    assert Exec(s7, []) == Some(s7);
    assert Exec(s6, es[6..]) == Some(s7) by { assert es[6..][1..] == []; }
    assert Exec(s5, es[5..]) == Some(s7) by { assert es[5..][1..] == es[6..]; }
    assert Exec(s4, es[4..]) == Some(s7) by { assert es[4..][1..] == es[5..]; }
    assert Exec(s3, es[3..]) == Some(s7) by { assert es[3..][1..] == es[4..]; }
    assert Exec(s2, es[2..]) == Some(s7) by { assert es[2..][1..] == es[3..]; }
    assert Exec(s1, es[1..]) == Some(s7) by { assert es[1..][1..] == es[2..]; }
    assert Exec(s, es) == Some(s7);
  }

  // ----- the object ------------------------------------------------------------------

  class ChairmanRegistrant {
    var pendingUpdate: bool
    var tries: nat
    var loop: Loop

    function View(): Registrant
      reads this
    {
      Registrant(pendingUpdate, tries, loop)
    }

    constructor ()
      ensures View() == Fresh
    {
      pendingUpdate, tries, loop := true, 0, Top;
    }

    method TriggerChairmanUpdate()
      modifies this
      ensures View() == Trigger(old(View()))
    {
      pendingUpdate := true;
      if loop.Waiting? {
        loop := Woken;
      }
    }

    /** `wait_for_update_or_retry` up to the wait; `timeout` is `None` for the untimed one. */
    method WaitForUpdateOrRetry() returns (timeout: Option<nat>)
      requires loop == Top
      modifies this
      ensures View() == EnterWait(old(View()))
      ensures timeout.Some? <==> !pendingUpdate && tries != 0
      ensures timeout.Some? ==> timeout.value == Timeout(tries) && 2 <= timeout.value <= MAX_TIMEOUT
    {
      timeout := None;
      if pendingUpdate {
        loop := Woken;
      } else if tries != 0 {
        BackOff(1, tries);
        timeout, loop := Some(Timeout(tries)), Waiting(true);
      } else {
        loop := Waiting(false);
      }
    }

    /**
     * The rest of one loop iteration when nothing interferes: clear the flag, read the
     * mode, call. The retry counter is reset exactly when the mode could be read and the
     * chairman said OK.
     */
    method Iterate(stored: Option<int>, callOk: bool) returns (sent: Option<bool>)
      requires loop == Woken
      modifies this
      ensures View() == Answer(old(View()).(pending := false), sent.Some? && callOk)
      ensures sent == match Decode(stored) {
                        case None => None
                        case Some(m) => Some(m != Maintenance && m != Deprovisioned)
                      }
      ensures tries == if sent.Some? && callOk then 0 else old(tries) + 1
    {
      pendingUpdate := false;
      sent := None;
      var mode := Decode(stored);
      if mode.Some? {
        sent := Some(mode.value != Maintenance && mode.value != Deprovisioned);
      }
      tries := if mode.Some? && callOk then 0 else tries + 1;
      loop := Top;
    }
  }
}
