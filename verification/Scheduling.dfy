/**
 * Leaf schedulers behind the scheduler handler: routing, the latch that counts calls in
 * flight, and the swap-and-drain of a reconfiguration
 * (python/src/scheduler/scheduler/{scheduler_handler,leaf_scheduler,count_up_down_latch}.py).
 */
module Scheduling {
  import opened Wrappers
  import opened Runs

  type RoleId = string
  type LeafId = nat
  type CallId = nat

  /** A scheduler role: an id and how many host and scheduler children it has. */
  datatype Role = Role(id: RoleId, hosts: nat, schedulers: nat)

  predicate IsLeaf(r: Role) { r.hosts > 0 && r.schedulers == 0 }

  /** A role with both kinds of children, or with none, is refused with a ValueError. */
  predicate IsBad(r: Role) { (r.hosts > 0) == (r.schedulers > 0) }

  datatype Scheduler = Leaf(leaf: LeafId) | Branch

  type Table = map<RoleId, Scheduler>

  function LeavesOf(t: Table): set<LeafId> {
    set id | id in t && t[id].Leaf? :: t[id].leaf
  }

  // ----- building the new table -------------------------------------------------------------

  /** What the loop over the roles leaves: the table, the leaves made, the next number, the refusal. */
  datatype Build = Build(table: Table, made: set<LeafId>, next: LeafId, refused: bool)

  /** Add the scheduler of one role, unless the role is bad. */
  function AddRole(b: Build, r: Role): Build {
    if IsBad(r) then b.(refused := true)
    else if IsLeaf(r) then Build(b.table[r.id := Leaf(b.next)], b.made + {b.next}, b.next + 1, false)
    else b.(table := b.table[r.id := Branch])
  }

  /** Leaves are numbered from `first` in the order they are made; a bad role ends the loop. */
  function BuildTable(roles: seq<Role>, first: LeafId): Build {
    if roles == [] then Build(map[], {}, first, false)
    else
      var b := BuildTable(roles[..|roles| - 1], first);
      if b.refused then b else AddRole(b, roles[|roles| - 1])
  }

  predicate Numbered(b: Build, first: LeafId) {
    && (forall l :: l in b.made ==> first <= l < b.next)
    && first <= b.next
    && LeavesOf(b.table) <= b.made
    && (forall x, y :: x in b.table && y in b.table && b.table[x].Leaf? && b.table[x] == b.table[y] ==> x == y)
  }

  lemma {:induction false} BuildIsNumbered(roles: seq<Role>, first: LeafId)
    ensures Numbered(BuildTable(roles, first), first)
  {
    if roles != [] {
      BuildIsNumbered(roles[..|roles| - 1], first);
    }
  }

  /** Some leaf role's id is used again by a later role, whose scheduler takes its place. */
  predicate Shadows(roles: seq<Role>) {
    exists i, j :: 0 <= i < j < |roles| && IsLeaf(roles[i]) && roles[j].id == roles[i].id
  }

  predicate Refused(roles: seq<Role>) {
    exists i :: 0 <= i < |roles| && IsBad(roles[i])
  }

  /** A leaf role stands before every refused one. */
  predicate LeafBeforeBad(roles: seq<Role>) {
    exists i :: 0 <= i < |roles| && IsLeaf(roles[i]) && forall j :: 0 <= j <= i ==> !IsBad(roles[j])
  }

  /** Configuring with these roles leaves a scheduler that no table refers to. */
  predicate Orphans(roles: seq<Role>) {
    if Refused(roles) then LeafBeforeBad(roles) else Shadows(roles)
  }

  lemma {:induction false} RefusalExactly(roles: seq<Role>, first: LeafId)
    ensures BuildTable(roles, first).refused <==> Refused(roles)
    ensures Refused(roles) <==> exists i :: 0 <= i < |roles| && (roles[i].hosts > 0 <==> roles[i].schedulers > 0)
    ensures BuildTable(roles, first).made != {} <==> LeafBeforeBad(roles)
  {
    if roles != [] {
      var front := roles[..|roles| - 1];
      var n := |front|;
      RefusalExactly(front, first);
      assert forall i :: 0 <= i < n ==> roles[i] == front[i];
      if LeafBeforeBad(front) {
        var i :| 0 <= i < n && IsLeaf(front[i]) && forall j :: 0 <= j <= i ==> !IsBad(front[j]);
        assert IsLeaf(roles[i]) && forall j :: 0 <= j <= i ==> !IsBad(roles[j]);
      }
      if Refused(front) {
        var i :| 0 <= i < n && IsBad(front[i]);
        assert IsBad(roles[i]);
      }
    }
  }

  /** The last role with an id decides what its table entry is. */
  predicate LastWith(roles: seq<Role>, i: nat, id: RoleId) {
    i < |roles| && roles[i].id == id && forall j :: i < j < |roles| ==> roles[j].id != id
  }

  lemma {:induction false} EntryIsLastRole(roles: seq<Role>, first: LeafId, id: RoleId) returns (i: nat)
    requires !BuildTable(roles, first).refused && id in BuildTable(roles, first).table
    ensures LastWith(roles, i, id)
    ensures BuildTable(roles, first).table[id].Leaf? <==> roles[i].hosts > 0 && roles[i].schedulers == 0
  {
    var n := |roles| - 1;
    if roles[n].id == id {
      i := n;
    } else {
      i := EntryIsLastRole(roles[..n], first, id);
    }
  }

  /** A leaf outside the table stays outside, and one whose id is taken over drops out. */
  lemma DroppedLeaf(b: Build, r: Role, first: LeafId, l: LeafId)
    requires Numbered(b, first) && !IsBad(r) && l in b.made
    requires l !in LeavesOf(b.table) || (r.id in b.table && b.table[r.id] == Leaf(l))
    ensures l in AddRole(b, r).made && l !in LeavesOf(AddRole(b, r).table)
  {
    var t := AddRole(b, r).table;
    forall id | id in t && t[id].Leaf?
      ensures t[id].leaf != l
    {
      assert id != r.id ==> t[id].leaf in LeavesOf(b.table);
    }
  }

  /** Nothing drops out when the id had no leaf entry. */
  lemma NothingDropped(b: Build, r: Role, first: LeafId)
    requires Numbered(b, first) && !IsBad(r) && LeavesOf(b.table) == b.made
    requires r.id in b.table ==> b.table[r.id].Branch?
    ensures LeavesOf(AddRole(b, r).table) == AddRole(b, r).made
  {
    var b1 := AddRole(b, r);
    forall l
      ensures l in LeavesOf(b1.table) <==> l in b1.made
    {
      if l in LeavesOf(b.table) {
        var id :| id in b.table && b.table[id] == Leaf(l);
        assert b1.table[id] == Leaf(l);
      }
      if l == b.next && IsLeaf(r) {
        assert b1.table[r.id] == Leaf(l);
      }
      if l in LeavesOf(b1.table) {
        var id :| id in b1.table && b1.table[id] == Leaf(l);
        assert id != r.id ==> id in b.table && b.table[id] == Leaf(l);
      }
    }
  }

  /** With the roles accepted, every leaf made is in the table exactly when none is shadowed. */
  lemma {:induction false} AcceptedExactly(roles: seq<Role>, first: LeafId)
    requires !BuildTable(roles, first).refused
    ensures var b := BuildTable(roles, first);
            && (forall k :: 0 <= k < |roles| ==> roles[k].id in b.table)
            && (LeavesOf(b.table) == b.made <==> !Shadows(roles))
  {
    if roles != [] {
      var n := |roles| - 1;
      var front, r := roles[..n], roles[n];
      AcceptedExactly(front, first);
      BuildIsNumbered(front, first);
      var b := BuildTable(front, first);
      assert BuildTable(roles, first) == AddRole(b, r);
      if Shadows(front) {
        var i, j :| 0 <= i < j < n && IsLeaf(front[i]) && front[j].id == front[i].id;
        assert IsLeaf(roles[i]) && roles[j].id == roles[i].id;
        var l :| l in b.made && l !in LeavesOf(b.table);
        DroppedLeaf(b, r, first, l);
      } else if r.id in b.table && b.table[r.id].Leaf? {
        var i := EntryIsLastRole(front, first, r.id);
        assert IsLeaf(roles[i]) && roles[n].id == roles[i].id;
        assert b.table[r.id].leaf in LeavesOf(b.table);
        DroppedLeaf(b, r, first, b.table[r.id].leaf);
      } else {
        NotShadowedByLast(front, r, first);
        assert roles == front + [r];
        NothingDropped(b, r, first);
      }
    }
  }

  /** A role whose id had no leaf entry before shadows nothing new. */
  lemma NotShadowedByLast(front: seq<Role>, r: Role, first: LeafId)
    requires !BuildTable(front, first).refused && !Shadows(front)
    requires var t := BuildTable(front, first).table;
             (r.id in t ==> t[r.id].Branch?) && forall k :: 0 <= k < |front| ==> front[k].id in t
    ensures !Shadows(front + [r])
  {
    forall i, j | 0 <= i < j <= |front| && IsLeaf((front + [r])[i])
      ensures (front + [r])[j].id != (front + [r])[i].id
    {
      if j == |front| && front[i].id == r.id {
        var k := EntryIsLastRole(front, first, r.id);
      }
    }
  }

  /** Configuring makes a scheduler that no table refers to exactly for these role lists. */
  lemma OrphansExactly(roles: seq<Role>, first: LeafId)
    ensures var b := BuildTable(roles, first);
            b.made - (if b.refused then {} else LeavesOf(b.table)) != {} <==> Orphans(roles)
  {
    RefusalExactly(roles, first);
    BuildIsNumbered(roles, first);
    var b := BuildTable(roles, first);
    if b.refused {
      assert b.made - {} == b.made;
    } else {
      AcceptedExactly(roles, first);
      var leaves := LeavesOf(b.table);
      assert leaves <= b.made;
      assert b.made - leaves == {} <==> leaves == b.made by {
        assert forall l :: l in b.made && l !in leaves ==> l in b.made - leaves;
      }
    }
  }

  // ----- the running service ----------------------------------------------------------------

  /** Where a leaf scheduler object is in its life; an orphan was made but put in no table. */
  datatype Place = InTable | SwappedOut | Retired | Orphan

  /** A leaf scheduler object: its configured flag, its latch, and whether its health checker runs. */
  datatype LeafState = LeafState(place: Place, configured: bool, count: nat, checking: bool)

  datatype Phase =
    | Routed           // the handler has looked the leaf up
    | Entered          // counted by the latch, flag not yet tested
    | Running          // past the flag test
    | Turned           // InvalidScheduler raised, not yet counted down
    | Left(ran: bool)

  datatype Call = Call(leaf: LeafId, phase: Phase)

  /** Progress of `cleanup` on one leaf: before the await, after it, after the checker stopped. */
  datatype Cleanup = NoCleanup | Awaiting(leaf: LeafId) | Drained(leaf: LeafId) | Stopped(leaf: LeafId)

  /**
   * `enabled` is the health-check flag of the configure that installed the table. History:
   * `contacted` are calls on whose behalf a host was contacted, `late` those that entered a
   * leaf after its await had passed.
   */
  datatype Sys = Sys(
    table: Table,
    enabled: bool,
    leaves: map<LeafId, LeafState>,
    next: LeafId,
    calls: map<CallId, Call>,
    cleanup: Cleanup,
    contacted: set<CallId>,
    late: set<CallId>)

  const Initial := Sys(map[], true, map[], 0, map[], NoCleanup, {}, {})

  datatype Event =
    | Configure(roles: seq<Role>, checking: bool)
    | Route(call: CallId, id: RoleId)
    | Enter(call: CallId)
    | Test(call: CallId)
    | Contact(call: CallId)
    | Leave(call: CallId)
    | BeginCleanup(leaf: LeafId)
    | PassAwait
    | StopChecker
    | EndCleanup

  /** No configure is in progress: each holds the handler's lock until all it swapped out is cleaned up. */
  predicate LockFree(s: Sys) {
    forall l :: l in s.leaves ==> s.leaves[l].place != SwappedOut
  }

  function Swapped(st: LeafState): LeafState {
    if st.place == InTable then st.(place := SwappedOut) else st
  }

  /** Swap in a table that was built, or keep what a refused build has made. */
  function Install(s: Sys, b: Build, checking: bool): Sys {
    if b.refused then
      var made := map l | l in b.made :: LeafState(Orphan, true, 0, checking);
      s.(leaves := s.leaves + made, next := b.next)
    else
      var kept := map l | l in s.leaves :: Swapped(s.leaves[l]);
      var made := map l | l in b.made ::
                    LeafState(if l in LeavesOf(b.table) then InTable else Orphan, true, 0, checking);
      s.(table := b.table, enabled := checking, leaves := kept + made, next := b.next)
  }

  function SetPhase(s: Sys, c: CallId, ph: Phase): Sys
    requires c in s.calls
  {
    s.(calls := s.calls[c := s.calls[c].(phase := ph)])
  }

  function SetLeaf(s: Sys, l: LeafId, st: LeafState): Sys {
    s.(leaves := s.leaves[l := st])
  }

  predicate InPhase(s: Sys, c: CallId, ph: Phase) {
    c in s.calls && s.calls[c].phase == ph && s.calls[c].leaf in s.leaves
  }

  predicate CleaningPast(s: Sys, l: LeafId) {
    s.cleanup == Drained(l) || s.cleanup == Stopped(l)
  }

  function Next(s: Sys, e: Event): Option<Sys> {
    match e
    case Configure(roles, checking) =>
      if LockFree(s) then Some(Install(s, BuildTable(roles, s.next), checking)) else None
    case Route(c, id) =>
      if c !in s.calls && id in s.table && s.table[id].Leaf?
      then Some(s.(calls := s.calls[c := Call(s.table[id].leaf, Routed)])) else None
    case Enter(c) =>
      if InPhase(s, c, Routed) then
        var l := s.calls[c].leaf;
        Some(SetLeaf(SetPhase(s, c, Entered), l, s.leaves[l].(count := s.leaves[l].count + 1))
             .(late := if CleaningPast(s, l) then s.late + {c} else s.late))
      else None
    case Test(c) =>
      if InPhase(s, c, Entered)
      then Some(SetPhase(s, c, if s.leaves[s.calls[c].leaf].configured then Running else Turned)) else None
    case Contact(c) => // find's workers may outlive the call
      if InPhase(s, c, Running) || InPhase(s, c, Left(true))
      then Some(s.(contacted := s.contacted + {c})) else None
    case Leave(c) =>
      if InPhase(s, c, Running) || InPhase(s, c, Turned) then
        var l := s.calls[c].leaf;
        if s.leaves[l].count == 0 then None // count_down raises
        else Some(SetLeaf(SetPhase(s, c, Left(s.calls[c].phase == Running)), l,
                          s.leaves[l].(count := s.leaves[l].count - 1)))
      else None
    case BeginCleanup(l) =>
      if s.cleanup == NoCleanup && l in s.leaves && s.leaves[l].place == SwappedOut
      then Some(s.(cleanup := Awaiting(l))) else None
    case PassAwait =>
      if s.cleanup.Awaiting? && s.cleanup.leaf in s.leaves && s.leaves[s.cleanup.leaf].count == 0
      then Some(s.(cleanup := Drained(s.cleanup.leaf))) else None
    case StopChecker =>
      if s.cleanup.Drained? && s.cleanup.leaf in s.leaves
      then Some(SetLeaf(s, s.cleanup.leaf, s.leaves[s.cleanup.leaf].(checking := false))
                .(cleanup := Stopped(s.cleanup.leaf)))
      else None
    case EndCleanup =>
      if s.cleanup.Stopped? && s.cleanup.leaf in s.leaves
      then Some(SetLeaf(s, s.cleanup.leaf, s.leaves[s.cleanup.leaf].(configured := false, place := Retired))
                .(cleanup := NoCleanup))
      else None
  }

  function Exec(s: Sys, es: seq<Event>): Option<Sys> {
    Run(Next, s, es)
  }

  // ----- the invariant ------------------------------------------------------------------------

  predicate Counted(ph: Phase) {
    ph == Entered || ph == Running || ph == Turned
  }

  /** The calls counted by the latch of `l`. */
  function InFlight(s: Sys, l: LeafId): set<CallId> {
    set c | c in s.calls && s.calls[c].leaf == l && Counted(s.calls[c].phase)
  }

  predicate LeafInv(s: Sys, l: LeafId)
    requires l in s.leaves
  {
    var st := s.leaves[l];
    && l < s.next
    && (st.place == InTable <==> l in LeavesOf(s.table))
    && (st.place == InTable ==> st.checking == s.enabled)
    && (st.configured <==> st.place != Retired)
    && (st.place == Retired ==> !st.checking)
    && (s.cleanup == Stopped(l) ==> !st.checking)
  }

  predicate LeavesInv(s: Sys) {
    && (forall l :: l in s.leaves ==> LeafInv(s, l))
    && LeavesOf(s.table) <= s.leaves.Keys
    && (s.cleanup != NoCleanup ==> s.cleanup.leaf in s.leaves && s.leaves[s.cleanup.leaf].place == SwappedOut)
  }

  predicate CallInv(s: Sys, c: CallId)
    requires c in s.calls
  {
    var l := s.calls[c].leaf;
    && l in s.leaves
    && (Counted(s.calls[c].phase) && CleaningPast(s, l) ==> c in s.late)
    && (s.calls[c].phase == Running && s.leaves[l].place == Retired ==> c in s.late)
    && (c in s.contacted ==> s.calls[c].phase == Running || s.calls[c].phase == Left(true))
  }

  predicate CallsInv(s: Sys) {
    (forall c :: c in s.calls ==> CallInv(s, c)) && s.contacted <= s.calls.Keys
  }

  predicate LatchInv(s: Sys) {
    forall l :: l in s.leaves ==> s.leaves[l].count == |InFlight(s, l)|
  }

  predicate Inv(s: Sys) {
    LeavesInv(s) && CallsInv(s) && LatchInv(s)
  }

  lemma InstallKeepsLeaves(s: Sys, b: Build, checking: bool)
    requires Inv(s) && LockFree(s) && Numbered(b, s.next)
    ensures LeavesInv(Install(s, b, checking))
  {
    var t := Install(s, b, checking);
    assert s.cleanup == NoCleanup;
    forall l | l in t.leaves
      ensures LeafInv(t, l)
    {
      if l in s.leaves {
        assert LeafInv(s, l) && l !in b.made;
      }
    }
  }

  lemma InstallKeepsCalls(s: Sys, b: Build, checking: bool)
    requires Inv(s) && LockFree(s) && Numbered(b, s.next)
    ensures CallsInv(Install(s, b, checking)) && LatchInv(Install(s, b, checking))
  {
    var t := Install(s, b, checking);
    assert forall l :: l in s.leaves ==> LeafInv(s, l);
    forall c | c in t.calls
      ensures CallInv(t, c)
    {
      assert CallInv(s, c);
    }
    forall l | l in t.leaves
      ensures t.leaves[l].count == |InFlight(t, l)|
    {
      assert InFlight(t, l) == InFlight(s, l);
      if l in b.made {
        assert forall c :: c in s.calls ==> CallInv(s, c);
        assert InFlight(s, l) == {};
      }
    }
  }

  lemma LatchCountsUp(s: Sys, c: CallId)
    requires LatchInv(s) && Next(s, Enter(c)).Some?
    ensures LatchInv(Next(s, Enter(c)).value)
  {
    var t := Next(s, Enter(c)).value;
    var l := s.calls[c].leaf;
    assert InFlight(t, l) == InFlight(s, l) + {c};
    forall k | k in t.leaves && k != l
      ensures t.leaves[k].count == |InFlight(t, k)|
    {
      assert InFlight(t, k) == InFlight(s, k);
    }
  }

  lemma LatchCountsDown(s: Sys, c: CallId)
    requires LatchInv(s) && Next(s, Leave(c)).Some?
    ensures LatchInv(Next(s, Leave(c)).value)
  {
    var t := Next(s, Leave(c)).value;
    var l := s.calls[c].leaf;
    assert c in InFlight(s, l);
    assert InFlight(t, l) == InFlight(s, l) - {c};
    forall k | k in t.leaves && k != l
      ensures t.leaves[k].count == |InFlight(t, k)|
    {
      assert InFlight(t, k) == InFlight(s, k);
    }
  }

  lemma LatchStays(s: Sys, e: Event)
    requires Inv(s) && Next(s, e).Some? && !e.Enter? && !e.Leave? && !e.Configure?
    ensures LatchInv(Next(s, e).value)
  {
    var t := Next(s, e).value;
    forall l | l in t.leaves
      ensures t.leaves[l].count == |InFlight(t, l)|
    {
      assert InFlight(t, l) == InFlight(s, l);
    }
  }

  lemma LeavesKept(s: Sys, e: Event)
    requires Inv(s) && Next(s, e).Some? && !e.Configure?
    ensures LeavesInv(Next(s, e).value)
  {
    var t := Next(s, e).value;
    forall l | l in t.leaves
      ensures LeafInv(t, l)
    {
      assert LeafInv(s, l);
    }
  }

  lemma CallKept(s: Sys, e: Event, c: CallId)
    requires Inv(s) && Next(s, e).Some? && !e.Configure? && c in s.calls
    ensures c in Next(s, e).value.calls && CallInv(Next(s, e).value, c)
  {
    assert CallInv(s, c) && LeafInv(s, s.calls[c].leaf);
    if e.PassAwait? && Counted(s.calls[c].phase) {
      assert c in InFlight(s, s.calls[c].leaf);
    }
  }

  lemma CallsKept(s: Sys, e: Event)
    requires Inv(s) && Next(s, e).Some? && !e.Configure?
    ensures CallsInv(Next(s, e).value)
  {
    var t := Next(s, e).value;
    forall c | c in t.calls
      ensures CallInv(t, c)
    {
      if c in s.calls {
        CallKept(s, e, c);
      } else {
        assert s.table[e.id].leaf in LeavesOf(s.table);
      }
    }
  }

  lemma InvStep(s: Sys, e: Event)
    requires Inv(s) && Next(s, e).Some?
    ensures Inv(Next(s, e).value)
  {
    if e.Configure? {
      BuildIsNumbered(e.roles, s.next);
      InstallKeepsLeaves(s, BuildTable(e.roles, s.next), e.checking);
      InstallKeepsCalls(s, BuildTable(e.roles, s.next), e.checking);
    } else {
      LeavesKept(s, e);
      CallsKept(s, e);
      match e {
        case Enter(c) => LatchCountsUp(s, c);
        case Leave(c) => LatchCountsDown(s, c);
        case _ => LatchStays(s, e);
      }
    }
  }

  lemma {:induction false} InvRun(s: Sys, es: seq<Event>)
    requires Inv(s) && Exec(s, es).Some?
    ensures Inv(Exec(s, es).value)
    decreases |es|
  {
    if es != [] {
      InvStep(s, es[0]);
      InvRun(Next(s, es[0]).value, es[1..]);
    }
  }

  // ----- what it gives --------------------------------------------------------------------------

  /**
   * In every run the latch of a leaf counts exactly its calls in flight, so counting down
   * never raises, and an await that passes finds every call that had entered gone.
   */
  lemma LatchIsExact(es: seq<Event>, l: LeafId)
    requires Exec(Initial, es).Some? && l in Exec(Initial, es).value.leaves
    ensures var s := Exec(Initial, es).value;
            && s.leaves[l].count == |InFlight(s, l)|
            && (forall c :: InPhase(s, c, Running) || InPhase(s, c, Turned) ==> Next(s, Leave(c)).Some?)
            && (s.cleanup == Awaiting(l) && Next(s, PassAwait).Some? ==> InFlight(s, l) == {})
  {
    InvRun(Initial, es);
    var s := Exec(Initial, es).value;
    forall c | InPhase(s, c, Running) || InPhase(s, c, Turned)
      ensures Next(s, Leave(c)).Some?
    {
      assert c in InFlight(s, s.calls[c].leaf);
    }
  }

  /**
   * After a leaf's cleanup has ended, a call on it that is still running is one that entered
   * between the await and the end of the cleanup.
   */
  lemma RetiredLeafIsDrained(es: seq<Event>, c: CallId)
    requires Exec(Initial, es).Some?
    requires var s := Exec(Initial, es).value;
             InPhase(s, c, Running) && s.leaves[s.calls[c].leaf].place == Retired
    ensures c in Exec(Initial, es).value.late
  {
    InvRun(Initial, es);
    assert CallInv(Exec(Initial, es).value, c);
  }

  /** The call is on a retired leaf and has not been let past the flag test. */
  predicate Doomed(s: Sys, c: CallId) {
    c in s.calls && s.calls[c].leaf in s.leaves && s.leaves[s.calls[c].leaf].place == Retired &&
    (s.calls[c].phase in {Routed, Entered, Turned} || s.calls[c].phase == Left(false))
  }

  lemma DoomedStep(s: Sys, e: Event, c: CallId)
    requires Inv(s) && Doomed(s, c) && c !in s.contacted && Next(s, e).Some?
    ensures Doomed(Next(s, e).value, c) && c !in Next(s, e).value.contacted
  {
    var l := s.calls[c].leaf;
    assert LeafInv(s, l);
    if e.Configure? {
      BuildIsNumbered(e.roles, s.next);
      InstallKeepsOld(s, BuildTable(e.roles, s.next), e.checking, l);
    }
  }

  /** A configure leaves a leaf that is not in the table as it is. */
  lemma InstallKeepsOld(s: Sys, b: Build, checking: bool, l: LeafId)
    requires l in s.leaves && LeafInv(s, l) && Numbered(b, s.next)
    requires b.refused || s.leaves[l].place != InTable
    ensures var t := Install(s, b, checking);
            l in t.leaves && t.leaves[l] == s.leaves[l] && l !in b.made
  {
  }

  lemma {:induction false} DoomedRun(s: Sys, es: seq<Event>, c: CallId)
    requires Inv(s) && Doomed(s, c) && c !in s.contacted && Exec(s, es).Some?
    ensures Doomed(Exec(s, es).value, c) && c !in Exec(s, es).value.contacted
    decreases |es|
  {
    if es != [] {
      InvStep(s, es[0]);
      DoomedStep(s, es[0], c);
      DoomedRun(Next(s, es[0]).value, es[1..], c);
    }
  }

  /**
   * A call that has not passed the flag test when its leaf's cleanup ends never runs and never
   * contacts a host, whatever happens afterwards, reconfigurations included.
   */
  lemma LateCallsAreTurnedAway(es: seq<Event>, more: seq<Event>, c: CallId)
    requires Exec(Initial, es).Some? && Doomed(Exec(Initial, es).value, c)
    requires Exec(Exec(Initial, es).value, more).Some?
    ensures var t := Exec(Exec(Initial, es).value, more).value;
            !InPhase(t, c, Running) && c !in t.contacted
  {
    InvRun(Initial, es);
    var s := Exec(Initial, es).value;
    assert CallInv(s, c);
    DoomedRun(s, more, c);
  }

  /** The call has been let past the flag test. */
  predicate HasRun(s: Sys, c: CallId) {
    c in s.calls && (s.calls[c].phase == Running || s.calls[c].phase == Left(true))
  }

  lemma {:induction false} RanStays(s: Sys, es: seq<Event>, c: CallId)
    requires HasRun(s, c) && Exec(s, es).Some?
    ensures HasRun(Exec(s, es).value, c)
    decreases |es|
  {
    if es != [] {
      RanStays(Next(s, es[0]).value, es[1..], c);
    }
  }

  /**
   * For every call on a cleaned-up leaf and every continuation: the call has run if and only if
   * it was past the flag test already; otherwise it has contacted no host either. One that is
   * still running then entered between the await and the end of the cleanup.
   */
  lemma RunsAfterCleanupExactly(es: seq<Event>, more: seq<Event>, c: CallId)
    requires Exec(Initial, es).Some? && Exec(Exec(Initial, es).value, more).Some?
    requires var s := Exec(Initial, es).value;
             c in s.calls && s.calls[c].leaf in s.leaves && s.leaves[s.calls[c].leaf].place == Retired
    ensures var s := Exec(Initial, es).value;
            var t := Exec(s, more).value;
            && (HasRun(t, c) <==> HasRun(s, c))
            && (!HasRun(s, c) ==> c !in t.contacted)
            && (s.calls[c].phase == Running ==> c in s.late)
  {
    var s := Exec(Initial, es).value;
    if HasRun(s, c) {
      RanStays(s, more, c);
      if s.calls[c].phase == Running {
        RetiredLeafIsDrained(es, c);
      }
    } else {
      InvRun(Initial, es);
      assert CallInv(s, c) && Doomed(s, c);
      DoomedRun(s, more, c);
    }
  }

  /**
   * In every run a call is routed to the leaf that the table has under its id, which is configured;
   * and a call that tests the flag goes on to run if and only if its leaf has not been retired.
   */
  lemma TestExactly(es: seq<Event>, c: CallId, id: RoleId)
    requires Exec(Initial, es).Some?
    ensures var s := Exec(Initial, es).value;
            var t := Next(s, Route(c, id));
            t.Some? ==> id in s.table && c in t.value.calls && s.table[id] == Leaf(t.value.calls[c].leaf) &&
                        s.table[id].leaf in s.leaves && s.leaves[s.table[id].leaf].configured
    ensures var s := Exec(Initial, es).value;
            var t := Next(s, Test(c));
            t.Some? ==> c in s.calls && s.calls[c].leaf in s.leaves &&
                        (InPhase(t.value, c, Running) <==> s.leaves[s.calls[c].leaf].place != Retired)
  {
    InvRun(Initial, es);
    var s := Exec(Initial, es).value;
    if Next(s, Route(c, id)).Some? {
      assert s.table[id].leaf in LeavesOf(s.table);
      assert LeafInv(s, s.table[id].leaf);
    }
    if Next(s, Test(c)).Some? {
      assert LeafInv(s, s.calls[c].leaf);
    }
  }

  // ----- which health checkers run -----------------------------------------------------------------

  function CheckersRunning(s: Sys): set<LeafId> {
    set l | l in s.leaves && s.leaves[l].checking
  }

  predicate OrphanChecker(s: Sys) {
    exists l :: l in s.leaves && s.leaves[l].place == Orphan && s.leaves[l].checking
  }

  /** A configure with health checks on that leaves a scheduler outside the table. */
  predicate MakesOrphanChecker(e: Event) {
    e.Configure? && e.checking && Orphans(e.roles)
  }

  lemma OrphanStep(s: Sys, e: Event)
    requires Inv(s) && Next(s, e).Some?
    ensures OrphanChecker(Next(s, e).value) <==> OrphanChecker(s) || MakesOrphanChecker(e)
  {
    var t := Next(s, e).value;
    if e.Configure? {
      BuildIsNumbered(e.roles, s.next);
      OrphansExactly(e.roles, s.next);
      OrphanInstall(s, BuildTable(e.roles, s.next), e.checking);
    } else if OrphanChecker(s) {
      var l :| l in s.leaves && s.leaves[l].place == Orphan && s.leaves[l].checking;
      assert l in t.leaves && t.leaves[l].place == Orphan && t.leaves[l].checking;
    }
  }

  lemma OrphanInstall(s: Sys, b: Build, checking: bool)
    requires LeavesInv(s) && LockFree(s) && Numbered(b, s.next)
    ensures OrphanChecker(Install(s, b, checking)) <==>
              OrphanChecker(s) || (checking && b.made - (if b.refused then {} else LeavesOf(b.table)) != {})
  {
    var t := Install(s, b, checking);
    var outside := b.made - (if b.refused then {} else LeavesOf(b.table));
    assert forall l :: l in s.leaves ==> LeafInv(s, l);
    if checking && outside != {} {
      var l :| l in outside;
      assert t.leaves[l].place == Orphan && t.leaves[l].checking;
    }
    if OrphanChecker(s) {
      var l :| l in s.leaves && s.leaves[l].place == Orphan && s.leaves[l].checking;
      InstallKeepsOld(s, b, checking, l);
    } else if OrphanChecker(t) {
      var l :| l in t.leaves && t.leaves[l].place == Orphan && t.leaves[l].checking;
      assert l in outside;
    }
  }

  predicate OrphansOne(es: seq<Event>) {
    exists e :: e in es && MakesOrphanChecker(e)
  }

  lemma OrphansOneSplits(es: seq<Event>)
    requires es != []
    ensures OrphansOne(es) <==> MakesOrphanChecker(es[0]) || OrphansOne(es[1..])
  {
    assert forall e :: e in es <==> e == es[0] || e in es[1..] by {
      assert es == [es[0]] + es[1..];
    }
  }

  lemma {:induction false} OrphanRun(s: Sys, es: seq<Event>)
    requires Inv(s) && Exec(s, es).Some?
    ensures OrphanChecker(Exec(s, es).value) <==> OrphanChecker(s) || OrphansOne(es)
    decreases |es|
  {
    if es != [] {
      InvStep(s, es[0]);
      OrphanStep(s, es[0]);
      OrphanRun(Next(s, es[0]).value, es[1..]);
      OrphansOneSplits(es);
    }
  }

  /**
   * In every run, whenever no configure is in progress: every leaf swapped out has ended
   * cleaned up, unconfigured and with its checker stopped; and the running checkers are exactly
   * those of the current table if and only if no configure so far has orphaned a leaf.
   */
  lemma CheckersExactly(es: seq<Event>)
    requires Exec(Initial, es).Some? && LockFree(Exec(Initial, es).value)
    ensures var s := Exec(Initial, es).value;
            && (forall l :: l in s.leaves && l !in LeavesOf(s.table) ==>
                  s.leaves[l].place == Orphan || (!s.leaves[l].configured && !s.leaves[l].checking))
            && (CheckersRunning(s) == (if s.enabled then LeavesOf(s.table) else {}) <==>
                  !OrphansOne(es))
  {
    InvRun(Initial, es);
    OrphanRun(Initial, es);
    var s := Exec(Initial, es).value;
    assert forall l :: l in s.leaves ==> LeafInv(s, l);
    if OrphanChecker(s) {
      var l :| l in s.leaves && s.leaves[l].place == Orphan && s.leaves[l].checking;
      assert l in CheckersRunning(s) && l !in LeavesOf(s.table);
    }
  }

  /** Role lists that are accepted and name no id twice. */
  predicate Proper(roles: seq<Role>) {
    !Refused(roles) && forall i, j :: 0 <= i < j < |roles| ==> roles[i].id != roles[j].id
  }

  /** After only such configures, the running checkers are exactly those of the current table. */
  lemma ProperCheckersExactly(es: seq<Event>)
    requires Exec(Initial, es).Some? && LockFree(Exec(Initial, es).value)
    requires forall e :: e in es && e.Configure? ==> Proper(e.roles)
    ensures var s := Exec(Initial, es).value;
            CheckersRunning(s) == if s.enabled then LeavesOf(s.table) else {}
  {
    CheckersExactly(es);
    forall e | e in es
      ensures !MakesOrphanChecker(e)
    {
      assert e.Configure? ==> Proper(e.roles);
    }
  }

  /** Every role list that orphans a leaf leaves, in some run, a checker running outside the table. */
  lemma OrphanedCheckerRuns(roles: seq<Role>) returns (t: Sys)
    requires Orphans(roles)
    ensures Leads(Next, Initial, t) && LockFree(t) && OrphanChecker(t)
    ensures exists l :: l in CheckersRunning(t) && l !in LeavesOf(t.table)
  {
    var e := Configure(roles, true);
    Stays(Next, Initial);
    t := Next(Initial, e).value;
    Onward(Next, Initial, Initial, e, t);
    OrphanStep(Initial, e);
    InvStep(Initial, e);
    var l :| l in t.leaves && t.leaves[l].place == Orphan && t.leaves[l].checking;
    assert LeafInv(t, l);
    assert l in CheckersRunning(t) && l !in LeavesOf(t.table);
  }

  /** Two such lists: an id used twice, and a refusal after a leaf was made. */
  lemma OrphanedCheckersAreReal() returns (repeated: Sys, refused: Sys)
    ensures Leads(Next, Initial, repeated) && OrphanChecker(repeated)
    ensures Leads(Next, Initial, refused) && OrphanChecker(refused)
  {
    var twice := [Role("a", 1, 0), Role("a", 1, 0)];
    assert IsLeaf(twice[0]) && twice[1].id == twice[0].id;
    repeated := OrphanedCheckerRuns(twice);
    var late := [Role("a", 1, 0), Role("b", 0, 0)];
    assert IsBad(late[1]) && IsLeaf(late[0]) && forall j :: 0 <= j <= 0 ==> !IsBad(late[j]);
    refused := OrphanedCheckerRuns(late);
  }

  /** A refused configure changes neither the table nor any scheduler in it. */
  lemma RefusedConfigureChangesNothing(s: Sys, roles: seq<Role>, checking: bool)
    requires Inv(s) && Next(s, Configure(roles, checking)).Some? && Refused(roles)
    ensures var t := Next(s, Configure(roles, checking)).value;
            t.table == s.table && forall l :: l in s.leaves ==> l in t.leaves && t.leaves[l] == s.leaves[l]
  {
    RefusalExactly(roles, s.next);
    BuildIsNumbered(roles, s.next);
    assert forall l :: l in s.leaves ==> LeafInv(s, l);
  }

  lemma OneLeafIsReached() returns (s: Sys)
    ensures Leads(Next, Initial, s) && s.next == 1 && "a" in s.table && s.table["a"] == Leaf(0) && s.calls == map[] && s.cleanup == NoCleanup
    ensures s.leaves == map[0 := LeafState(InTable, true, 0, true)]
  {
    var roles := [Role("a", 1, 0)];
    var b := Build(map["a" := Leaf(0)], {0}, 1, false);
    assert BuildTable(roles, 0) == b by {
      assert roles[..0] == [] && BuildTable([], 0) == Build(map[], {}, 0, false);
    }
    assert 0 in LeavesOf(b.table) by { assert b.table["a"].leaf == 0; }
    Stays(Next, Initial);
    s := Install(Initial, b, true);
    Onward(Next, Initial, Initial, Configure(roles, true), s);
  }

  /** A leaf can be swapped out while a call that was routed to it has not yet entered. */
  lemma SwappedOutIsReached() returns (t: Sys)
    ensures Leads(Next, Initial, t) && InPhase(t, 0, Routed) && t.cleanup == NoCleanup
    ensures t.leaves[t.calls[0].leaf] == LeafState(SwappedOut, true, 0, true)
  {
    var s := OneLeafIsReached();
    var s1 := s.(calls := map[0 := Call(0, Routed)]);
    assert s.calls[0 := Call(0, Routed)] == s1.calls;
    Onward(Next, Initial, s, Route(0, "a"), s1);
    var b := Build(map[], {}, 1, false);
    assert BuildTable([], 1) == b;
    t := Install(s1, b, true);
    Onward(Next, Initial, s1, Configure([], true), t);
  }

  /** A call routed to a leaf that is swapped out and idle can enter just after the await. */
  lemma Overtakes(s: Sys, c: CallId) returns (t: Sys)
    requires Leads(Next, Initial, s) && InPhase(s, c, Routed) && s.cleanup == NoCleanup
    requires var st := s.leaves[s.calls[c].leaf]; st.place == SwappedOut && st.count == 0 && st.configured
    ensures Leads(Next, Initial, t) && InPhase(t, c, Entered) && t.cleanup == Drained(t.calls[c].leaf)
    ensures t.leaves[t.calls[c].leaf].configured
  {
    var l := s.calls[c].leaf;
    var s1 := s.(cleanup := Awaiting(l));
    Onward(Next, Initial, s, BeginCleanup(l), s1);
    var s2 := s1.(cleanup := Drained(l));
    Onward(Next, Initial, s1, PassAwait, s2);
    t := Next(s2, Enter(c)).value;
    Onward(Next, Initial, s2, Enter(c), t);
  }

  /** Such a call passes the flag test. */
  lemma PassesTest(s: Sys, c: CallId) returns (t: Sys)
    requires Leads(Next, Initial, s) && InPhase(s, c, Entered) && s.cleanup == Drained(s.calls[c].leaf)
    requires s.leaves[s.calls[c].leaf].configured
    ensures Leads(Next, Initial, t) && InPhase(t, c, Running) && t.cleanup == Drained(t.calls[c].leaf)
  {
    t := SetPhase(s, c, Running);
    Onward(Next, Initial, s, Test(c), t);
  }

  /** It is still running when the cleanup has ended. */
  lemma OutlivesCleanup(s: Sys, c: CallId) returns (t: Sys)
    requires Leads(Next, Initial, s) && InPhase(s, c, Running) && s.cleanup == Drained(s.calls[c].leaf)
    ensures Leads(Next, Initial, t) && InPhase(t, c, Running)
    ensures t.leaves[t.calls[c].leaf].place == Retired && !t.leaves[t.calls[c].leaf].checking
  {
    var s1 := Next(s, StopChecker).value;
    Onward(Next, Initial, s, StopChecker, s1);
    t := Next(s1, EndCleanup).value;
    Onward(Next, Initial, s1, EndCleanup, t);
  }

  /** So the exception above is real, in some run. */
  lemma CleanupCanLeaveACallRunning() returns (t: Sys, c: CallId)
    ensures Leads(Next, Initial, t) && InPhase(t, c, Running)
    ensures t.leaves[t.calls[c].leaf].place == Retired && !t.leaves[t.calls[c].leaf].checking
  {
    c := 0;
    t := SwappedOutIsReached();
    t := Overtakes(t, c);
    t := PassesTest(t, c);
    t := OutlivesCleanup(t, c);
  }

  // ----- the objects ---------------------------------------------------------------------------------

  class CountUpDownLatch {
    var count: nat

    constructor ()
      ensures count == 0
    {
      count := 0;
    }

    method CountUp()
      modifies this
      ensures count == old(count) + 1
    {
      count := count + 1;
    }

    /** `raised` is the ValueError; `woken` says that those awaiting are notified. */
    method CountDown() returns (raised: bool, woken: bool)
      modifies this
      ensures raised <==> old(count) == 0
      ensures raised ==> count == 0 && !woken
      ensures !raised ==> count == old(count) - 1 && (woken <==> count == 0)
    {
      raised, woken := count == 0, false;
      if !raised {
        count := count - 1;
        woken := count == 0;
      }
    }
  }

  /** What a find worker that is done came back with; `Broke` is an exception. */
  datatype Answer = Match | NoMatch | Broke

  datatype FindResult = Invalid | FoundAt(i: nat) | Raised | NotFound

  /** The first answer that is not a plain miss decides. */
  predicate Decides(done: seq<Answer>, r: FindResult) {
    match r
    case Invalid => false
    case NotFound => forall j :: 0 <= j < |done| ==> done[j] == NoMatch
    case FoundAt(i) => i < |done| && done[i] == Match && forall j :: 0 <= j < i ==> done[j] == NoMatch
    case Raised => exists i :: 0 <= i < |done| && done[i] == Broke && forall j :: 0 <= j < i ==> done[j] == NoMatch
  }

  class LeafScheduler {
    const latch: CountUpDownLatch
    const enabled: bool
    var configured: bool
    var checking: bool   // a health checker runs

    constructor (enabled: bool)
      ensures this.enabled == enabled && !configured && !checking && fresh(latch) && latch.count == 0
    {
      latch := new CountUpDownLatch();
      this.enabled, configured, checking := enabled, false, false;
    }

    /** Any old checker is stopped before a new one starts. */
    method Configure()
      modifies this
      ensures configured && checking == enabled
    {
      checking := false;
      if enabled {
        checking := true;
      }
      configured := true;
    }

    /**
     * `find` under `mark_pending`, with the answers of the workers that were done in time, in
     * the order they are looked at: however it ends, the latch is back where it was.
     */
    method Find(done: seq<Answer>) returns (r: FindResult)
      modifies latch
      ensures r == Invalid <==> !configured
      ensures configured ==> Decides(done, r)
      ensures latch.count == old(latch.count)
    {
      latch.CountUp();
      r := if configured then NotFound else Invalid;
      if configured {
        for i := 0 to |done|
          invariant r == NotFound && forall j :: 0 <= j < i ==> done[j] == NoMatch
        {
          if done[i] != NoMatch {
            r := if done[i] == Match then FoundAt(i) else Raised;
            break;
          }
        }
      }
      var raised, woken := latch.CountDown();
    }

    /** `cleanup`, from the moment its await passes. */
    method Cleanup()
      requires latch.count == 0
      modifies this
      ensures !configured && !checking
    {
      checking := false;
      configured := false;
    }
  }

  class SchedulerHandler {
    var table: Table
    var next: LeafId
    var running: set<LeafId>   // leaves whose health checker runs

    constructor ()
      ensures table == map[] && next == 0 && running == {}
    {
      table, next, running := map[], 0, {};
    }

    /** The handler's `configure` with no call in flight: build all, then swap, then clean up. */
    method Configure(roles: Option<seq<Role>>, checking: bool) returns (raised: bool)
      modifies this
      ensures raised <==> roles.None? ||
                          exists i :: 0 <= i < |roles.value| && (roles.value[i].hosts > 0 <==> roles.value[i].schedulers > 0)
      ensures roles.None? ==> table == old(table) && running == old(running) && next == old(next)
      ensures roles.Some? ==>
                var b := BuildTable(roles.value, old(next));
                && next == b.next
                && (raised ==> table == old(table) &&
                               running == old(running) + if checking then b.made else {})
                && (!raised ==> table == b.table &&
                                running == old(running) + (if checking then b.made else {}) - LeavesOf(old(table)))
    {
      if roles.None? {
        return true;
      }
      var rs := roles.value;
      RefusalExactly(rs, next);
      var schedulers: Table := map[];
      ghost var first := next;
      for k := 0 to |rs|
        invariant var b := BuildTable(rs[..k], first);
                  && !b.refused && schedulers == b.table && next == b.next
                  && running == old(running) + if checking then b.made else {}
        invariant table == old(table)
      {
        assert rs[..k + 1][..k] == rs[..k];
        if IsBad(rs[k]) {
          BuildStopsAtBad(rs, k, first);
          return true;
        } else if rs[k].hosts > 0 {
          schedulers := schedulers[rs[k].id := Leaf(next)];
          if checking {
            running := running + {next};
          }
          next := next + 1;
        } else {
          schedulers := schedulers[rs[k].id := Branch];
        }
      }
      assert rs[..|rs|] == rs;
      var replaced := table;
      table := schedulers;
      var todo := replaced.Keys;
      ghost var before := running;
      while todo != {}
        modifies this`running
        invariant todo <= replaced.Keys
        invariant running == before - set id | id in replaced && id !in todo && replaced[id].Leaf? :: replaced[id].leaf
        decreases todo
      {
        var id :| id in todo;
        if replaced[id].Leaf? {
          running := running - {replaced[id].leaf};
        }
        todo := todo - {id};
      }
      raised := false;
    }

    /** `_get_scheduler`: `None` stands for InvalidScheduler. */
    method GetScheduler(id: Option<RoleId>) returns (r: Option<Scheduler>)
      ensures r.Some? <==> id.Some? && id.value in table
      ensures r.Some? ==> r.value == table[id.value]
    {
      if id.None? || id.value !in table {
        return None;
      }
      r := Some(table[id.value]);
    }
  }

  lemma {:induction false} BuildStopsAtBad(roles: seq<Role>, k: nat, first: LeafId)
    requires k < |roles| && IsBad(roles[k]) && !BuildTable(roles[..k], first).refused
    ensures BuildTable(roles, first) == BuildTable(roles[..k], first).(refused := true)
  {
    var n := |roles| - 1;
    if k < n {
      assert roles[..n][..k] == roles[..k];
      BuildStopsAtBad(roles[..n], k, first);
    }
  }
}
