/**
 * The health checker of a leaf scheduler (python/src/scheduler/scheduler/health_checker.py):
 * a heartbeat thread and a report thread over shared tables. One ping, one table read and
 * one comparison are each one event, in any interleaving.
 */
module HealthChecking {
  import opened Wrappers
  import opened Runs

  type Id = string

  /** The sequence number and time of the last answered ping. */
  datatype Seen = Seen(round: nat, at: real)

  /** An answer OK, or a failed report that the chairman may nevertheless have applied. */
  datatype Reply = Accepted | Failed(applied: bool)

  datatype Reporter =
    | Asleep
    | Scanning(now: real, timeout: real, active: set<Id>, inactive: set<Id>)
    | Comparing(now: real, timeout: real, active: set<Id>, inactive: set<Id>, child: Id, seen: Seen,
                since: nat, upto: nat)   // history: the last round, and how many answers, when it was read

  /**
   * The reported sets and the chairman's accumulated missing set.
   */
  datatype Reports = Reports(resurrected: set<Id>, missing: set<Id>, chairman: set<Id>)

  /**
   * `pinged` are the children already tried in the round in progress. History: `answered`
   * holds the rounds a child has answered, `heard` its answers with their times, after an entry
   * for the start, `judged` how things stood when it was last classed,
   * and `stale` those classed silent in this scan on an entry that had been overtaken: at that
   * moment the entry was no longer behind.
   */
  datatype Sys = Sys(
    children: set<Id>,
    seqnum: nat,
    lastUpdate: map<Id, Seen>,
    pinged: set<Id>,
    reporter: Reporter,
    reports: Reports,
    answered: map<Id, set<nat>>,
    heard: map<Id, seq<Seen>>,
    judged: map<Id, Judgement>,
    stale: set<Id>)

  /**
   * The last completed round, and the rounds the child had answered, when it was classed, and
   * how many of its answers had come when its entry was read.
   */
  datatype Judgement = Judgement(seqnum: nat, answered: set<nat>, upto: nat)

  datatype Event =
    | Ping(child: Id, answer: Option<real>)
    | EndRound
    | BeginReport(now: real, timeout: real)
    | ReadEntry(child: Id)
    | Compare
    | Announce(active: Reply, inactive: Reply)

  function Start(children: set<Id>, now: real): Sys {
    Sys(children, 0, map c | c in children :: Seen(0, now), {}, Asleep,
        Reports({}, {}, {}), map c | c in children :: {}, map c | c in children :: [Seen(0, now)], map[], {})
  }

  // ----- one report round --------------------------------------------------------------

  predicate Silent(seen: Seen, now: real, timeout: real, seqnum: nat) {
    now - seen.at > timeout && seen.round < seqnum
  }

  function ReportResurrected(r: Reports, who: set<Id>, reply: Reply): Reports {
    if who == {} then r
    else match reply
      case Accepted => Reports(r.resurrected + who, r.missing - who, r.chairman - who)
      case Failed(applied) => if applied then r.(chairman := r.chairman - who) else r
  }

  function ReportMissing(r: Reports, who: set<Id>, reply: Reply): Reports {
    if who == {} then r
    else match reply
      case Accepted => Reports(r.resurrected - who, r.missing + who, r.chairman + who)
      case Failed(applied) => if applied then r.(chairman := r.chairman + who) else r
  }

  /** The reports that follow a scan: the newly active first, then the newly inactive. */
  function SendReports(r: Reports, active: set<Id>, inactive: set<Id>, a: Reply, i: Reply): Reports {
    ReportMissing(ReportResurrected(r, active - r.resurrected, a), inactive - r.missing, i)
  }

  predicate ReportsInv(children: set<Id>, r: Reports) {
    r.resurrected <= children && r.missing <= children && r.resurrected !! r.missing
  }

  /** When no attempted report fails, the reported sets become exactly what was scanned. */
  lemma RoundExact(children: set<Id>, r: Reports, active: set<Id>, inactive: set<Id>, a: Reply, i: Reply)
    requires ReportsInv(children, r) && active + inactive == children && active !! inactive
    requires active - r.resurrected != {} ==> a.Accepted?
    requires inactive - r.missing != {} ==> i.Accepted?
    ensures var t := SendReports(r, active, inactive, a, i);
            t.resurrected == active && t.missing == inactive
  {
    var up, down := active - r.resurrected, inactive - r.missing;
    var m := ReportResurrected(r, up, a);
    var t := ReportMissing(m, down, i);
    assert m.resurrected == r.resurrected + up && m.missing == r.missing - up;
    assert t.resurrected == m.resurrected - down && t.missing == m.missing + down;
    forall c
      ensures c in t.resurrected <==> c in active
      ensures c in t.missing <==> c in inactive
    {
      assert c in children <==> c in active + inactive;
    }
  }

  /**
   * A lost reply that matters: a missing report, or a resurrected report naming a child
   * that was reported missing, which the chairman applied although the call failed.
   */
  predicate Misled(r: Reports, active: set<Id>, inactive: set<Id>, a: Reply, i: Reply) {
    (a == Failed(true) && (active - r.resurrected) * r.missing != {}) ||
    (i == Failed(true) && inactive - r.missing != {})
  }

  /** From agreement, a round keeps the chairman in agreement exactly when no such reply is lost. */
  lemma AgreementExactly(children: set<Id>, r: Reports, active: set<Id>, inactive: set<Id>, a: Reply, i: Reply)
    requires ReportsInv(children, r) && active + inactive == children && active !! inactive
    requires r.chairman == r.missing
    ensures var t := SendReports(r, active, inactive, a, i);
            t.chairman == t.missing <==> !Misled(r, active, inactive, a, i)
  {
    var up, down := active - r.resurrected, inactive - r.missing;
    var m := ReportResurrected(r, up, a);
    var t := ReportMissing(m, down, i);
    if a == Failed(true) && up * r.missing != {} {
      var c :| c in up * r.missing;
      assert c in m.missing && c !in m.chairman && c !in down;
      assert c in t.missing && c !in t.chairman;
    } else {
      assert a == Failed(true) ==> r.chairman - up == r.missing by {
        assert forall c :: c in r.missing && c in up ==> c in up * r.missing;
      }
      assert m.chairman == m.missing;
      if i == Failed(true) && down != {} {
        var c :| c in down;
        assert c in t.chairman && c !in t.missing;
      }
    }
  }

  // ----- the interleaved system ----------------------------------------------------------

  function Next(s: Sys, e: Event): Option<Sys> {
    match e
    case Ping(c, answer) =>
      if c in s.children && c in s.answered && c in s.heard && c !in s.pinged then
        var t := s.(pinged := s.pinged + {c});
        Some(match answer
             case None => t
             case Some(now) =>
               t.(lastUpdate := s.lastUpdate[c := Seen(s.seqnum + 1, now)],
                  answered := s.answered[c := s.answered[c] + {s.seqnum + 1}],
                  heard := s.heard[c := s.heard[c] + [Seen(s.seqnum + 1, now)]]))
      else None
    case EndRound =>
      if s.pinged == s.children then Some(s.(seqnum := s.seqnum + 1, pinged := {})) else None
    case BeginReport(now, timeout) =>
      if s.reporter == Asleep then Some(s.(reporter := Scanning(now, timeout, {}, {}), stale := {})) else None
    case ReadEntry(c) =>
      (match s.reporter
       case Scanning(now, timeout, act, inact) =>
         if c in s.lastUpdate && c in s.heard && c !in act + inact
         then Some(s.(reporter := Comparing(now, timeout, act, inact, c, s.lastUpdate[c], s.seqnum, |s.heard[c]|)))
         else None
       case _ => None)
    case Compare =>
      (match s.reporter
       case Comparing(now, timeout, act, inact, c, seen, since, upto) =>
         if c !in s.answered || c !in s.lastUpdate then None
         else
           var t := s.(judged := s.judged[c := Judgement(s.seqnum, s.answered[c], upto)]);
           Some(if Silent(seen, now, timeout, s.seqnum)
                then t.(reporter := Scanning(now, timeout, act, inact + {c}),
                        stale := if s.lastUpdate[c].round < s.seqnum then s.stale else s.stale + {c})
                else t.(reporter := Scanning(now, timeout, act + {c}, inact)))
       case _ => None)
    case Announce(a, i) =>
      (match s.reporter
       case Scanning(now, timeout, act, inact) =>
         if act + inact == s.lastUpdate.Keys
         then Some(s.(reporter := Asleep, reports := SendReports(s.reports, act, inact, a, i)))
         else None
       case _ => None)
  }

  function Exec(s: Sys, es: seq<Event>): Option<Sys> {
    Run(Next, s, es)
  }

  predicate TablesInv(s: Sys) {
    && s.lastUpdate.Keys == s.children && s.answered.Keys == s.children && s.pinged <= s.children
    && s.heard.Keys == s.children
    && ReportsInv(s.children, s.reports)
    && (!s.reporter.Asleep? ==>
          && s.reporter.active !! s.reporter.inactive
          && s.reporter.active + s.reporter.inactive <= s.children)
    && (s.reporter.Comparing? ==>
          s.reporter.child in s.children - s.reporter.active - s.reporter.inactive)
  }

  /** The table entry names the latest answered round; the next round is answered only once pinged. */
  predicate EntryInv(s: Sys, c: Id)
    requires TablesInv(s) && c in s.children
  {
    && (forall k :: k in s.answered[c] ==> 1 <= k <= s.lastUpdate[c].round)
    && (s.lastUpdate[c].round == 0 || s.lastUpdate[c].round in s.answered[c])
    && s.lastUpdate[c].round <= s.seqnum + 1
    && (c !in s.pinged ==> s.lastUpdate[c].round <= s.seqnum)
  }

  /** When classed, the child had answered neither the last completed round nor the one in progress. */
  predicate WasQuiet(j: Judgement) {
    1 <= j.seqnum && j.seqnum !in j.answered && j.seqnum + 1 !in j.answered
  }

  predicate ScanInv(s: Sys)
    requires TablesInv(s)
  {
    && (!s.reporter.Asleep? ==>
          && s.stale <= s.reporter.inactive
          && forall c :: c in s.reporter.inactive ==> c in s.judged && (WasQuiet(s.judged[c]) <==> c !in s.stale))
    && (s.reporter.Comparing? ==>
          && s.reporter.since <= s.seqnum
          && (s.reporter.since == s.seqnum ==>
                forall k :: s.reporter.seen.round < k <= s.seqnum ==> k !in s.answered[s.reporter.child]))
  }

  /** The entry is the latest answer. */
  predicate HeardAt(s: Sys, c: Id) {
    c in s.heard && c in s.lastUpdate && s.heard[c] != [] && s.lastUpdate[c] == s.heard[c][|s.heard[c]| - 1]
  }

  predicate HeardInv(s: Sys) {
    && (forall c {:trigger HeardAt(s, c)} :: c in s.children ==> HeardAt(s, c))
    && (s.reporter.Comparing? ==>
          && s.reporter.child in s.heard && 1 <= s.reporter.upto <= |s.heard[s.reporter.child]|
          && s.reporter.seen == s.heard[s.reporter.child][s.reporter.upto - 1])
  }

  /** The child was classed missing exactly if its latest answer, as read, was too old and its round past. */
  predicate ClassInv(s: Sys, c: Id)
    requires !s.reporter.Asleep?
  {
    && c in s.judged && c in s.heard && 1 <= s.judged[c].upto <= |s.heard[c]|
    && var latest := s.heard[c][s.judged[c].upto - 1];
       (c in s.reporter.inactive <==>
          s.reporter.now - latest.at > s.reporter.timeout && latest.round < s.judged[c].seqnum)
  }

  predicate ClassesInv(s: Sys) {
    !s.reporter.Asleep? ==>
      && s.reporter.active !! s.reporter.inactive
      && forall c {:trigger ClassInv(s, c)} :: c in s.reporter.active + s.reporter.inactive ==> ClassInv(s, c)
  }

  lemma HeardStep(s: Sys, e: Event)
    requires TablesInv(s) && HeardInv(s) && Next(s, e).Some?
    ensures HeardInv(Next(s, e).value)
  {
    var t := Next(s, e).value;
    forall c | c in t.children
      ensures HeardAt(t, c)
    {
      assert HeardAt(s, c);
    }
    if s.reporter.Comparing? && t.reporter.Comparing? {
      HeardGrows(s, e, s.reporter.child);
    } else if e.ReadEntry? {
      assert HeardAt(s, e.child);
    }
  }

  /** How many answers had come, and the answers that had, do not change any more. */
  lemma HeardGrows(s: Sys, e: Event, c: Id)
    requires TablesInv(s) && Next(s, e).Some? && c in s.heard
    ensures c in Next(s, e).value.heard && s.heard[c] <= Next(s, e).value.heard[c]
  {
  }

  lemma ClassStays(s: Sys, e: Event, c: Id)
    requires TablesInv(s) && Next(s, e).Some? && !s.reporter.Asleep? && !Next(s, e).value.reporter.Asleep?
    requires c in s.reporter.active + s.reporter.inactive && ClassInv(s, c)
    ensures ClassInv(Next(s, e).value, c)
  {
    HeardGrows(s, e, c);
  }

  lemma ClassIsMade(s: Sys)
    requires TablesInv(s) && HeardInv(s) && Next(s, Compare).Some?
    ensures ClassInv(Next(s, Compare).value, s.reporter.child)
  {
  }

  lemma ClassesStep(s: Sys, e: Event)
    requires TablesInv(s) && HeardInv(s) && ClassesInv(s) && Next(s, e).Some?
    ensures ClassesInv(Next(s, e).value)
  {
    var t := Next(s, e).value;
    if !t.reporter.Asleep? {
      forall c | c in t.reporter.active + t.reporter.inactive
        ensures ClassInv(t, c)
      {
        if !s.reporter.Asleep? && c in s.reporter.active + s.reporter.inactive {
          assert ClassInv(s, c);
          ClassStays(s, e, c);
        } else {
          ClassIsMade(s);
        }
      }
    }
  }

  lemma {:induction false} ClassesRun(s: Sys, es: seq<Event>)
    requires Inv(s) && HeardInv(s) && ClassesInv(s) && Exec(s, es).Some?
    ensures HeardInv(Exec(s, es).value) && ClassesInv(Exec(s, es).value)
    decreases |es|
  {
    if es != [] {
      InvStep(s, es[0]);
      HeardStep(s, es[0]);
      ClassesStep(s, es[0]);
      ClassesRun(Next(s, es[0]).value, es[1..]);
    }
  }

  predicate Inv(s: Sys) {
    TablesInv(s) && ScanInv(s) && forall c :: c in s.children ==> EntryInv(s, c)
  }

  lemma PingKeepsTables(s: Sys, c: Id, answer: Option<real>)
    requires TablesInv(s) && Next(s, Ping(c, answer)).Some?
    ensures TablesInv(Next(s, Ping(c, answer)).value)
  {
    var t := Next(s, Ping(c, answer)).value;
    assert t.lastUpdate.Keys == s.children && t.answered.Keys == s.children && t.heard.Keys == s.children;
  }

  lemma PingKeeps(s: Sys, c: Id, answer: Option<real>)
    requires Inv(s) && Next(s, Ping(c, answer)).Some?
    ensures Inv(Next(s, Ping(c, answer)).value)
  {
    var t := Next(s, Ping(c, answer)).value;
    PingKeepsTables(s, c, answer);
    assert EntryInv(s, c);
    forall d | d in t.children
      ensures EntryInv(t, d)
    {
      assert EntryInv(s, d);
    }
  }

  lemma ReportsKeep(children: set<Id>, r: Reports, active: set<Id>, inactive: set<Id>, a: Reply, i: Reply)
    requires ReportsInv(children, r) && active !! inactive && active + inactive <= children
    ensures ReportsInv(children, SendReports(r, active, inactive, a, i))
  {
    var m := ReportResurrected(r, active - r.resurrected, a);
    assert ReportsInv(children, m);
  }

  lemma AnnounceKeeps(s: Sys, a: Reply, i: Reply)
    requires Inv(s) && Next(s, Announce(a, i)).Some?
    ensures Inv(Next(s, Announce(a, i)).value)
  {
    var t := Next(s, Announce(a, i)).value;
    ReportsKeep(s.children, s.reports, s.reporter.active, s.reporter.inactive, a, i);
    forall c | c in t.children
      ensures EntryInv(t, c)
    {
      assert EntryInv(s, c);
    }
  }

  lemma CompareKeeps(s: Sys)
    requires Inv(s) && Next(s, Compare).Some?
    ensures Inv(Next(s, Compare).value)
  {
    var t := Next(s, Compare).value;
    assert TablesInv(t);
    assert EntryInv(s, s.reporter.child);
    forall c | c in t.children
      ensures EntryInv(t, c)
    {
      assert EntryInv(s, c);
    }
  }

  lemma OthersKeep(s: Sys, e: Event)
    requires Inv(s) && Next(s, e).Some? && !e.Ping? && !e.Announce? && !e.Compare?
    ensures Inv(Next(s, e).value)
  {
    var t := Next(s, e).value;
    assert TablesInv(t);
    forall c | c in t.children
      ensures EntryInv(t, c)
    {
      assert EntryInv(s, c);
    }
  }

  lemma InvStep(s: Sys, e: Event)
    requires Inv(s) && Next(s, e).Some?
    ensures Inv(Next(s, e).value) && Next(s, e).value.children == s.children
  {
    match e {
      case Ping(c, answer) => PingKeeps(s, c, answer);
      case Announce(a, i) => AnnounceKeeps(s, a, i);
      case Compare => CompareKeeps(s);
      case _ => OthersKeep(s, e);
    }
  }

  lemma {:induction false} InvRun(s: Sys, es: seq<Event>)
    requires Inv(s) && Exec(s, es).Some?
    ensures Inv(Exec(s, es).value) && Exec(s, es).value.children == s.children
    decreases |es|
  {
    if es != [] {
      InvStep(s, es[0]);
      InvRun(Next(s, es[0]).value, es[1..]);
    }
  }

  /** In every run the reported sets stay disjoint sets of children. */
  lemma ReportedSetsStaySound(children: set<Id>, now: real, es: seq<Event>)
    requires Exec(Start(children, now), es).Some?
    ensures ReportsInv(children, Exec(Start(children, now), es).value.reports)
  {
    InvRun(Start(children, now), es);
  }

  /** In every run, a report round whose attempted reports all succeed leaves exactly the scanned sets. */
  lemma ReportRoundExact(children: set<Id>, now: real, es: seq<Event>, a: Reply, i: Reply)
    requires Exec(Start(children, now), es).Some?
    requires var s := Exec(Start(children, now), es).value;
             && Next(s, Announce(a, i)).Some?
             && (s.reporter.active - s.reports.resurrected != {} ==> a.Accepted?)
             && (s.reporter.inactive - s.reports.missing != {} ==> i.Accepted?)
    ensures var s := Exec(Start(children, now), es).value;
            var t := Next(s, Announce(a, i)).value;
            t.reports.resurrected == s.reporter.active && t.reports.missing == s.reporter.inactive
  {
    InvRun(Start(children, now), es);
    var s := Exec(Start(children, now), es).value;
    RoundExact(s.children, s.reports, s.reporter.active, s.reporter.inactive, a, i);
  }

  /**
   * In every run, a single look at a child's entry tells silence exactly: its number is
   * behind if and only if the child has answered neither the latest completed round nor
   * the one in progress, and then some round has completed.
   */
  lemma EntryBehindExactly(children: set<Id>, now: real, es: seq<Event>, c: Id)
    requires Exec(Start(children, now), es).Some? && c in children
    ensures var s := Exec(Start(children, now), es).value;
            && c in s.lastUpdate && c in s.answered
            && (s.lastUpdate[c].round < s.seqnum <==>
                  1 <= s.seqnum && s.seqnum !in s.answered[c] && s.seqnum + 1 !in s.answered[c])
  {
    InvRun(Start(children, now), es);
    var s := Exec(Start(children, now), es).value;
    assert EntryInv(s, c);
  }

  /**
   * In every run standing at a comparison that will class the child silent, however the clocks
   * behave: the child has answered neither the latest completed round nor the one in progress
   * if and only if its entry, as it stands now, is still behind. If no round has ended since
   * the entry was read, the child at least missed the latest completed one.
   */
  lemma JudgementExactly(children: set<Id>, now: real, es: seq<Event>)
    requires Exec(Start(children, now), es).Some?
    requires var s := Exec(Start(children, now), es).value;
             s.reporter.Comparing? && Silent(s.reporter.seen, s.reporter.now, s.reporter.timeout, s.seqnum)
    ensures var s := Exec(Start(children, now), es).value;
            var c := s.reporter.child;
            && c in s.lastUpdate && c in s.answered && 1 <= s.seqnum
            && (s.seqnum !in s.answered[c] && s.seqnum + 1 !in s.answered[c] <==> s.lastUpdate[c].round < s.seqnum)
            && (s.reporter.since == s.seqnum ==> s.seqnum !in s.answered[c])
  {
    InvRun(Start(children, now), es);
    var s := Exec(Start(children, now), es).value;
    assert EntryInv(s, s.reporter.child);
  }

  /**
   * So in every run, a child about to be reported missing was silent in both rounds when it was
   * classed if and only if it was not classed on an overtaken entry.
   */
  lemma ReportedMissingExactly(children: set<Id>, now: real, es: seq<Event>, c: Id)
    requires Exec(Start(children, now), es).Some?
    requires var s := Exec(Start(children, now), es).value;
             !s.reporter.Asleep? && c in s.reporter.inactive
    ensures var s := Exec(Start(children, now), es).value;
            c in s.judged && (WasQuiet(s.judged[c]) <==> c !in s.stale)
  {
    InvRun(Start(children, now), es);
  }

  /**
   * In every run, a child that a scan has classed is about to be reported missing if and only if
   * its latest answer, as read, came more than the timeout before the report began, and was to a
   * round earlier than the last one completed when it was classed.
   */
  lemma ClassedExactly(children: set<Id>, now: real, es: seq<Event>, c: Id)
    requires Exec(Start(children, now), es).Some?
    requires var s := Exec(Start(children, now), es).value;
             !s.reporter.Asleep? && c in s.reporter.active + s.reporter.inactive
    ensures var s := Exec(Start(children, now), es).value;
            && c in s.judged && c in s.heard && 1 <= s.judged[c].upto <= |s.heard[c]|
            && var latest := s.heard[c][s.judged[c].upto - 1];
               (c in s.reporter.inactive <==>
                  s.reporter.now - latest.at > s.reporter.timeout && latest.round < s.judged[c].seqnum)
  {
    ClassesRun(Start(children, now), es);
    assert ClassInv(Exec(Start(children, now), es).value, c);
  }

  // ----- overtaken entries are real ---------------------------------------------------------

  /** A child that has answered every round can be reported missing, if one ends between the reads. */
  lemma AnsweringChildReportedMissing(c: Id) returns (t: Sys)
    ensures Leads(Next, Start({c}, 0.0), t) && t.reporter.Scanning? && c in t.reporter.inactive
    ensures t.seqnum == 1 && t.answered == map[c := {1}]
  {
    var s := Start({c}, 0.0);
    Stays(Next, s);
    var s1 := Next(s, BeginReport(100.0, 60.0)).value;
    Onward(Next, s, s, BeginReport(100.0, 60.0), s1);
    var s2 := Next(s1, ReadEntry(c)).value;
    Onward(Next, s, s1, ReadEntry(c), s2);
    var s3 := Next(s2, Ping(c, Some(101.0))).value;
    Onward(Next, s, s2, Ping(c, Some(101.0)), s3);
    var s4 := s3.(seqnum := 1, pinged := {});
    Onward(Next, s, s3, EndRound, s4);
    t := Next(s4, Compare).value;
    Onward(Next, s, s4, Compare, t);
    assert s.answered[c] + {1} == {1};
  }

  /** So can one that has answered the round in progress, although no round ends in between. */
  lemma InProgressAnswerReportedMissing(c: Id) returns (t: Sys)
    ensures Leads(Next, Start({c}, 0.0), t) && t.reporter.Scanning? && c in t.reporter.inactive
    ensures t.seqnum == 1 && t.answered == map[c := {2}]
  {
    var s := Start({c}, 0.0);
    var s2 := SilentRound(c);
    var s3 := Next(s2, BeginReport(100.0, 60.0)).value;
    Onward(Next, s, s2, BeginReport(100.0, 60.0), s3);
    var s4 := Next(s3, ReadEntry(c)).value;
    Onward(Next, s, s3, ReadEntry(c), s4);
    var s5 := Next(s4, Ping(c, Some(101.0))).value;
    Onward(Next, s, s4, Ping(c, Some(101.0)), s5);
    t := Next(s5, Compare).value;
    Onward(Next, s, s5, Compare, t);
    assert s.answered[c] + {2} == {2};
  }

  /** From the start, a first round that the only child does not answer. */
  lemma SilentRound(c: Id) returns (t: Sys)
    ensures Leads(Next, Start({c}, 0.0), t) && t == Start({c}, 0.0).(seqnum := 1)
  {
    var s := Start({c}, 0.0);
    Stays(Next, s);
    var s1 := s.(pinged := {c});
    assert s.pinged + {c} == {c};
    Onward(Next, s, s, Ping(c, None), s1);
    t := s.(seqnum := 1);
    Onward(Next, s, s1, EndRound, t);
  }

  // ----- agreement with the chairman -----------------------------------------------------------

  predicate Agrees(s: Sys) {
    s.reports.chairman == s.reports.missing
  }

  /** The chairman agrees now and after every step of the run. */
  predicate AgreesThroughout(s: Sys, es: seq<Event>)
    decreases |es|
  {
    Agrees(s) && (es != [] && Next(s, es[0]).Some? ==> AgreesThroughout(Next(s, es[0]).value, es[1..]))
  }

  /** The event announces a scan, and a reply that matters is lost. */
  predicate Misleads(s: Sys, e: Event) {
    e.Announce? && s.reporter.Scanning? &&
    Misled(s.reports, s.reporter.active, s.reporter.inactive, e.active, e.inactive)
  }

  predicate NeverMisled(s: Sys, es: seq<Event>)
    decreases |es|
  {
    es != [] ==> !Misleads(s, es[0]) && (Next(s, es[0]).Some? ==> NeverMisled(Next(s, es[0]).value, es[1..]))
  }

  lemma AgreementStep(s: Sys, e: Event)
    requires Inv(s) && Agrees(s) && Next(s, e).Some?
    ensures Agrees(Next(s, e).value) <==> !Misleads(s, e)
  {
    if e.Announce? {
      AgreementExactly(s.children, s.reports, s.reporter.active, s.reporter.inactive, e.active, e.inactive);
    }
  }

  lemma {:induction false} AgreementRun(s: Sys, es: seq<Event>)
    requires Inv(s) && Agrees(s) && Exec(s, es).Some?
    ensures AgreesThroughout(s, es) <==> NeverMisled(s, es)
    ensures AgreesThroughout(s, es) ==> Agrees(Exec(s, es).value)
    decreases |es|
  {
    if es != [] {
      var t := Next(s, es[0]).value;
      AgreementStep(s, es[0]);
      if Agrees(t) {
        InvStep(s, es[0]);
        AgreementRun(t, es[1..]);
      }
    }
  }

  /**
   * In every run, the chairman's missing set is the local one after every step if and only if
   * no announcement lost a reply that mattered.
   */
  lemma ChairmanAgreesExactly(children: set<Id>, now: real, es: seq<Event>)
    requires Exec(Start(children, now), es).Some?
    ensures AgreesThroughout(Start(children, now), es) <==> NeverMisled(Start(children, now), es)
  {
    AgreementRun(Start(children, now), es);
  }

  /** No failed report was applied by the chairman. */
  predicate NoLostReply(e: Event) {
    e.Announce? ==> e.active != Failed(true) && e.inactive != Failed(true)
  }

  lemma {:induction false} NoLostReplyNoMisleading(s: Sys, es: seq<Event>)
    requires forall e :: e in es ==> NoLostReply(e)
    ensures NeverMisled(s, es)
    decreases |es|
  {
    if es != [] {
      assert NoLostReply(es[0]);
      if Next(s, es[0]).Some? {
        NoLostReplyNoMisleading(Next(s, es[0]).value, es[1..]);
      }
    }
  }

  /** If a failed report never reaches the chairman, its missing set is always the local one. */
  lemma ChairmanAgrees(children: set<Id>, now: real, es: seq<Event>)
    requires Exec(Start(children, now), es).Some?
    requires forall e :: e in es ==> NoLostReply(e)
    ensures Agrees(Exec(Start(children, now), es).value)
  {
    NoLostReplyNoMisleading(Start(children, now), es);
    AgreementRun(Start(children, now), es);
  }

  /** One undisturbed report round over a single child. */
  lemma ReportRound(from: Sys, s: Sys, c: Id, now: real, a: Reply, i: Reply) returns (t: Sys)
    requires Leads(Next, from, s) && s.reporter.Asleep? && s.lastUpdate.Keys == {c} && c in s.answered && c in s.heard
    ensures Leads(Next, from, t) && t == s.(reports := t.reports, judged := t.judged, stale := t.stale)
    ensures var silent := Silent(s.lastUpdate[c], now, 60.0, s.seqnum);
            t.reports == SendReports(s.reports, if silent then {} else {c}, if silent then {c} else {}, a, i)
  {
    var silent := Silent(s.lastUpdate[c], now, 60.0, s.seqnum);
    var s1 := Next(s, BeginReport(now, 60.0)).value;
    Onward(Next, from, s, BeginReport(now, 60.0), s1);
    var s2 := Next(s1, ReadEntry(c)).value;
    Onward(Next, from, s1, ReadEntry(c), s2);
    var s3 := Next(s2, Compare).value;
    Onward(Next, from, s2, Compare, s3);
    assert s3.reporter.active == (if silent then {} else {c}) && s3.reporter.inactive == if silent then {c} else {};
    t := Next(s3, Announce(a, i)).value;
    Onward(Next, from, s3, Announce(a, i), t);
  }

  /** One lost reply can leave the chairman wrong about a child with nothing left to report. */
  lemma MisledIsReached(c: Id) returns (t: Sys)
    ensures Leads(Next, Start({c}, 0.0), t) && t.children == {c} && t.reporter.Asleep?
    ensures t.reports == Reports({c}, {}, {c})
  {
    var s := Start({c}, 0.0);
    var s1 := SilentRound(c);
    var s2 := ReportRound(s, s1, c, 0.0, Accepted, Accepted);
    assert s2.reports == Reports({c}, {}, {});
    t := ReportRound(s, s2, c, 100.0, Accepted, Failed(true));
  }

  /** Every scan that the run announces found nobody silent. */
  predicate NobodySilent(s: Sys, es: seq<Event>)
    decreases |es|
  {
    es != [] ==>
      && (es[0].Announce? && s.reporter.Scanning? ==> s.reporter.inactive == {})
      && (Next(s, es[0]).Some? ==> NobodySilent(Next(s, es[0]).value, es[1..]))
  }

  /** It stays wrong for as long as every child is answering, whatever the replies. */
  lemma {:induction false} MisledForGood(s: Sys, es: seq<Event>)
    requires Inv(s) && s.reports.resurrected == s.children && NobodySilent(s, es) && Exec(s, es).Some?
    ensures Exec(s, es).value.reports == s.reports
    decreases |es|
  {
    if es != [] {
      var t := Next(s, es[0]).value;
      InvStep(s, es[0]);
      if es[0].Announce? {
        assert s.reporter.active - s.reports.resurrected == {} && {} - s.reports.missing == {};
      }
      MisledForGood(t, es[1..]);
    }
  }

  // ----- the object ----------------------------------------------------------------------

  /** The children whose entry is silent at `now`. */
  function SilentOnes(last: map<Id, Seen>, now: real, timeout: real, seqnum: nat): set<Id> {
    set c | c in last && Silent(last[c], now, timeout, seqnum)
  }

  class HealthChecker {
    const children: set<Id>
    var seqnum: nat
    var lastUpdate: map<Id, Seen>
    var resurrected: set<Id>
    var missing: set<Id>

    ghost predicate Valid()
      reads this
    {
      lastUpdate.Keys == children && ReportsInv(children, Reports(resurrected, missing, {}))
    }

    constructor (children: set<Id>, now: real)
      ensures Valid() && this.children == children && seqnum == 0 && resurrected == {} && missing == {}
      ensures lastUpdate == Start(children, now).lastUpdate
    {
      this.children, seqnum, resurrected, missing := children, 0, {}, {};
      lastUpdate := map c | c in children :: Seen(0, now);
    }

    /** One heartbeat round in which exactly the children in `answers` reply, at the given times. */
    method SendHeartbeat(answers: map<Id, real>)
      requires Valid()
      modifies this`seqnum, this`lastUpdate
      ensures Valid() && seqnum == old(seqnum) + 1
      ensures forall c :: c in children ==>
                lastUpdate[c] == if c in answers then Seen(seqnum, answers[c]) else old(lastUpdate[c])
    {
      var todo := children;
      while todo != {}
        invariant todo <= children && lastUpdate.Keys == children && seqnum == old(seqnum)
        invariant forall c :: c in children ==>
                    lastUpdate[c] == if c in answers && c !in todo then Seen(seqnum + 1, answers[c])
                                     else old(lastUpdate[c])
        decreases todo
      {
        var c :| c in todo;
        if c in answers {
          lastUpdate := lastUpdate[c := Seen(seqnum + 1, answers[c])];
        }
        todo := todo - {c};
      }
      seqnum := seqnum + 1;
    }

    /**
     * One report round with nothing interleaved. The silent children are those whose last answer
     * is too old and not to the last round; what is reported with success is remembered.
     */
    method SendReport(now: real, timeout: real, upOk: bool, downOk: bool)
      requires Valid()
      modifies this`resurrected, this`missing
      ensures Valid()
      ensures var silent := set c | c in children && now - lastUpdate[c].at > timeout && lastUpdate[c].round < seqnum;
              && missing == old(missing) - (if upOk then children - silent else {}) + (if downOk then silent else {})
              && resurrected == old(resurrected) + (if upOk then children - silent else {}) -
                                (if downOk then silent else {})
      ensures var silent := SilentOnes(lastUpdate, now, timeout, seqnum);
              var r := SendReports(Reports(old(resurrected), old(missing), {}), children - silent, silent,
                                   if upOk then Accepted else Failed(false),
                                   if downOk then Accepted else Failed(false));
              resurrected == r.resurrected && missing == r.missing
    {
      var active, inactive, todo := {}, {}, lastUpdate.Keys;
      ghost var silent := SilentOnes(lastUpdate, now, timeout, seqnum);
      while todo != {}
        invariant todo <= children
        invariant inactive == silent - todo && active == children - todo - silent
        decreases todo
      {
        var c :| c in todo;
        if now - lastUpdate[c].at > timeout && lastUpdate[c].round < seqnum {
          inactive := inactive + {c};
        } else {
          active := active + {c};
        }
        todo := todo - {c};
      }
      var up, down := active - resurrected, inactive - missing;
      if up != {} && upOk {
        resurrected, missing := resurrected + up, missing - up;
      }
      if down != {} && downOk {
        resurrected, missing := resurrected - down, missing + down;
      }
    }
  }
}
