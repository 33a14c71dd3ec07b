/**
 * A dictionary whose readers can wait for a key to reach a value
 * (python/src/common/common/blocking_dict.py). A write walks the live list of waiters one
 * at a time while other threads may give up and take themselves off that list.
 */
module BlockingDictionary {
  import opened Wrappers
  import opened Runs

  type Key = string
  type Wid = nat

  /** Any Python value; values are told apart by their number. */
  datatype Value = Nil | Obj(id: nat)

  datatype Verifier = Test(holds: Value -> bool) | Equals(value: Value)

  predicate Verify(v: Verifier, x: Value) {
    match v
    case Test(p) => p(x)
    case Equals(y) => x == y
  }

  /** `held` is history: the values the key has shown this waiter since it called. */
  datatype Waiter = Waiter(key: Key, verifier: Verifier, verified: bool, value: Value, held: seq<Value>)

  datatype Outcome = Undecided | Returned(value: Value) | TimedOut

  /**
   * The thread inside `__setitem__` or `__delitem__`, holding the dictionary lock, and its
   * place in the list. `passed` is history: the waiters it has walked past.
   */
  datatype Writer = NoWriter | Writing(key: Key, value: Value, at: nat, deletes: bool, passed: set<Wid>)

  /**
   * `waiters` are the registered waiters, `table` the waiter lists by key. `skipped` is
   * history: waiters the latest write of their key walked past although it satisfies them.
   */
  datatype Sys = Sys(
    dict: map<Key, Value>,
    table: map<Key, seq<Wid>>,
    waiters: map<Wid, Waiter>,
    outcomes: map<Wid, Outcome>,
    writer: Writer,
    skipped: set<Wid>)

  const Initial := Sys(map[], map[], map[], map[], NoWriter, {})

  datatype Event =
    | WaitUntil(w: Wid, key: Key, verifier: Verifier)
    | BeginSet(key: Key, value: Value)
    | BeginDelete(key: Key)
    | Offer             // the writer hands its value to the next waiter on the list
    | EndWrite          // the writer reaches the end of the list and stores
    | Decide(w: Wid)    // the waiter returns its value, or raises TimeoutError
    | Remove(w: Wid)    // it takes itself off the list

  function Current(s: Sys, k: Key): Value {
    if k in s.dict then s.dict[k] else Nil
  }

  function ListOf(s: Sys, k: Key): seq<Wid> {
    if k in s.table then s.table[k] else []
  }

  /** The value of the key as seen by the protocol: a write takes effect when it takes the lock. */
  function Shown(s: Sys, k: Key): Value {
    if s.writer.Writing? && s.writer.key == k then s.writer.value else Current(s, k)
  }

  function Offered(w: Waiter, v: Value): Waiter {
    var t := w.(held := w.held + [v]);
    if Verify(w.verifier, v) then t.(verified := true, value := v) else t
  }

  function IndexOf(ws: seq<Wid>, w: Wid): (i: nat)
    ensures i <= |ws|
    ensures i < |ws| <==> w in ws
    ensures i < |ws| ==> ws[i] == w && w !in ws[..i]
  {
    if ws == [] || ws[0] == w then 0 else 1 + IndexOf(ws[1..], w)
  }

  function Without(ws: seq<Wid>, i: nat): seq<Wid>
    requires i < |ws|
  {
    ws[..i] + ws[i + 1..]
  }

  function BeginWrite(s: Sys, k: Key, v: Value, deletes: bool): Sys {
    s.(writer := Writing(k, v, 0, deletes, {}),
       skipped := set w | w in s.skipped && w in s.waiters && s.waiters[w].key != k)
  }

  /**
   * Taking the waiter at place `i` off its list. When the writer is past that place, the
   * waiter it would have come to next moves up behind it and is not offered the value.
   */
  function RemoveAt(s: Sys, w: Wid, i: nat): Sys
    requires w in s.waiters && i < |ListOf(s, s.waiters[w].key)|
  {
    var k := s.waiters[w].key;
    var ws := ListOf(s, k);
    var rest := Without(ws, i);
    var jumped := if s.writer.Writing? && s.writer.key == k && i < s.writer.at < |ws|
                  then {ws[s.writer.at]} else {};
    s.(table := if rest == [] then s.table - {k} else s.table[k := rest],
       waiters := s.waiters - {w},
       writer := if jumped == {} then s.writer else s.writer.(passed := s.writer.passed + jumped),
       skipped := (s.skipped - {w}) +
                  set u | u in jumped && u in s.waiters && Verify(s.waiters[u].verifier, s.writer.value))
  }

  function Next(s: Sys, e: Event): Option<Sys> {
    match e
    case WaitUntil(w, k, ver) =>
      if s.writer != NoWriter || w in s.outcomes then None
      else
        var v := Current(s, k);
        if Verify(ver, v) then Some(s.(outcomes := s.outcomes[w := Returned(v)]))
        else Some(s.(outcomes := s.outcomes[w := Undecided],
                     waiters := s.waiters[w := Waiter(k, ver, false, Nil, [v])],
                     table := s.table[k := ListOf(s, k) + [w]]))
    case BeginSet(k, v) => if s.writer == NoWriter then Some(BeginWrite(s, k, v, false)) else None
    case BeginDelete(k) => if s.writer == NoWriter then Some(BeginWrite(s, k, Nil, true)) else None
    case Offer =>
      if s.writer.Writing? && s.writer.at < |ListOf(s, s.writer.key)| then
        var w := ListOf(s, s.writer.key)[s.writer.at];
        if w !in s.waiters then None
        else Some(s.(waiters := s.waiters[w := Offered(s.waiters[w], s.writer.value)],
                     writer := s.writer.(at := s.writer.at + 1, passed := s.writer.passed + {w})))
      else None
    case EndWrite =>
      if s.writer.Writing? && s.writer.at >= |ListOf(s, s.writer.key)| then
        Some(s.(dict := if s.writer.deletes then s.dict - {s.writer.key}
                        else s.dict[s.writer.key := s.writer.value],
                writer := NoWriter))
      else None
    case Decide(w) =>
      if w in s.waiters && w in s.outcomes && s.outcomes[w].Undecided? then
        Some(s.(outcomes := s.outcomes[w := if s.waiters[w].verified then Returned(s.waiters[w].value) else TimedOut]))
      else None
    case Remove(w) =>
      if w in s.waiters && w in s.outcomes && !s.outcomes[w].Undecided? then
        var ws := ListOf(s, s.waiters[w].key);
        if w in ws then Some(RemoveAt(s, w, IndexOf(ws, w))) else None // the assertion or remove() raises
      else None
  }

  function Exec(s: Sys, es: seq<Event>): Option<Sys> {
    Run(Next, s, es)
  }

  // ----- the invariant --------------------------------------------------------------------

  predicate Distinct(ws: seq<Wid>) {
    forall i, j :: 0 <= i < j < |ws| ==> ws[i] != ws[j]
  }

  /** A nonempty list without repetition of waiters registered for `k`. */
  predicate ListInv(ws: seq<Wid>, k: Key, waiters: map<Wid, Waiter>) {
    ws != [] && Distinct(ws) && forall i :: 0 <= i < |ws| ==> ws[i] in waiters && waiters[ws[i]].key == k
  }

  /** A registered waiter is on the list of its key. */
  predicate Listed(s: Sys, w: Wid)
    requires w in s.waiters
  {
    w in s.outcomes && w in ListOf(s, s.waiters[w].key)
  }

  /** Every registered waiter is on the list of its key and on no other; no list is empty. */
  predicate TableInv(s: Sys) {
    && (forall k {:trigger ListInv(s.table[k], k, s.waiters)} :: k in s.table ==> ListInv(s.table[k], k, s.waiters))
    && (forall w {:trigger Listed(s, w)} :: w in s.waiters ==> Listed(s, w))
    && s.skipped <= s.waiters.Keys
  }

  /** On the list, exactly the first `n` have been passed. */
  predicate Front(ws: seq<Wid>, passed: set<Wid>, n: nat) {
    forall i :: 0 <= i < |ws| ==> (ws[i] in passed <==> i < n)
  }

  predicate WriterInv(s: Sys) {
    s.writer.Writing? ==>
      && (s.writer.deletes ==> s.writer.value == Nil)
      && Front(ListOf(s, s.writer.key), s.writer.passed, s.writer.at)
  }

  predicate LastHit(vs: seq<Value>, ver: Verifier, v: Value) {
    exists i :: 0 <= i < |vs| && vs[i] == v && Verify(ver, v) && forall j :: i < j < |vs| ==> !Verify(ver, vs[j])
  }

  predicate NoHit(vs: seq<Value>, ver: Verifier) {
    forall i :: 0 <= i < |vs| ==> !Verify(ver, vs[i])
  }

  /** The value is the last that satisfied the waiter; without one it is not verified. */
  predicate HistoryInv(w: Waiter) {
    if w.verified then LastHit(w.held, w.verifier, w.value) else NoHit(w.held, w.verifier)
  }

  /** The writer has yet to come to this waiter. */
  predicate Ahead(s: Sys, w: Wid)
    requires w in s.waiters
  {
    s.writer.Writing? && s.writer.key == s.waiters[w].key && w !in s.writer.passed
  }

  /** An unverified waiter's predicate fails on the value shown, unless it was skipped. */
  predicate WakeInv(s: Sys, w: Wid)
    requires w in s.waiters
  {
    var hit := Verify(s.waiters[w].verifier, Shown(s, s.waiters[w].key));
    if Ahead(s, w) then w !in s.skipped
    else if w in s.skipped then hit
    else s.waiters[w].verified || !hit
  }

  predicate WakesInv(s: Sys) {
    forall w {:trigger WakeInv(s, w)} :: w in s.waiters ==> WakeInv(s, w)
  }

  predicate HistoriesInv(s: Sys) {
    forall w {:trigger HistoryInv(s.waiters[w])} :: w in s.waiters ==> HistoryInv(s.waiters[w])
  }

  predicate Inv(s: Sys) {
    TableInv(s) && WriterInv(s) && WakesInv(s) && HistoriesInv(s)
  }

  // ----- every step keeps it ------------------------------------------------------------------

  lemma FreshIsUnregistered(s: Sys, w: Wid)
    requires TableInv(s) && w !in s.outcomes
    ensures w !in s.waiters && w !in s.skipped && forall k :: w !in ListOf(s, k)
  {
    assert w in s.waiters ==> Listed(s, w);
    forall k
      ensures w !in ListOf(s, k)
    {
      if k in s.table {
        assert ListInv(s.table[k], k, s.waiters);
      }
    }
  }

  lemma WaitKeepsTable(s: Sys, w: Wid, k: Key, ver: Verifier)
    requires Inv(s) && Next(s, WaitUntil(w, k, ver)).Some?
    ensures TableInv(Next(s, WaitUntil(w, k, ver)).value)
  {
    var t := Next(s, WaitUntil(w, k, ver)).value;
    FreshIsUnregistered(s, w);
    forall j | j in t.table
      ensures ListInv(t.table[j], j, t.waiters)
    {
      if j in s.table {
        assert ListInv(s.table[j], j, s.waiters);
      }
    }
    forall u | u in t.waiters
      ensures Listed(t, u)
    {
      if u in s.waiters {
        assert Listed(s, u);
      } else {
        var ws := t.table[k];
        assert ws[|ws| - 1] == w;
      }
    }
  }

  lemma WaitKeepsWakes(s: Sys, w: Wid, k: Key, ver: Verifier)
    requires WakesInv(s) && HistoriesInv(s) && s.writer == NoWriter && Next(s, WaitUntil(w, k, ver)).Some?
    requires w !in s.waiters && w !in s.skipped
    ensures WakesInv(Next(s, WaitUntil(w, k, ver)).value) && HistoriesInv(Next(s, WaitUntil(w, k, ver)).value)
  {
    var t := Next(s, WaitUntil(w, k, ver)).value;
    forall u | u in t.waiters
      ensures WakeInv(t, u) && HistoryInv(t.waiters[u])
    {
      if u in s.waiters {
        assert WakeInv(s, u) && HistoryInv(s.waiters[u]);
      }
    }
  }

  lemma BeginKeeps(s: Sys, k: Key, v: Value, deletes: bool)
    requires Inv(s) && s.writer == NoWriter && (deletes ==> v == Nil)
    ensures Inv(BeginWrite(s, k, v, deletes))
  {
    var t := BeginWrite(s, k, v, deletes);
    forall j | j in t.table
      ensures ListInv(t.table[j], j, t.waiters)
    {
      assert ListInv(s.table[j], j, s.waiters);
    }
    forall u | u in t.waiters
      ensures Listed(t, u) && WakeInv(t, u)
    {
      assert Listed(s, u) && WakeInv(s, u) && HistoryInv(s.waiters[u]);
    }
  }

  lemma LastHitStays(vs: seq<Value>, ver: Verifier, v: Value, x: Value)
    requires LastHit(vs, ver, v) && !Verify(ver, x)
    ensures LastHit(vs + [x], ver, v)
  {
    var i :| 0 <= i < |vs| && vs[i] == v && Verify(ver, v) && forall j :: i < j < |vs| ==> !Verify(ver, vs[j]);
    var us := vs + [x];
    forall j | i < j < |us|
      ensures !Verify(ver, us[j])
    {
      assert us[j] == if j < |vs| then vs[j] else x;
    }
    assert us[i] == v;
  }

  lemma OfferExtendsHistory(w: Waiter, v: Value)
    requires HistoryInv(w)
    ensures HistoryInv(Offered(w, v))
  {
    var us := w.held + [v];
    if Verify(w.verifier, v) {
      assert us[|w.held|] == v;
    } else if w.verified {
      LastHitStays(w.held, w.verifier, w.value, v);
    }
  }

  lemma OfferKeepsTable(s: Sys)
    requires TableInv(s) && Next(s, Offer).Some?
    ensures TableInv(Next(s, Offer).value)
  {
    var t := Next(s, Offer).value;
    assert t.table == s.table && t.waiters.Keys == s.waiters.Keys;
    assert forall u :: u in s.waiters ==> t.waiters[u].key == s.waiters[u].key;
    forall j | j in t.table
      ensures ListInv(t.table[j], j, t.waiters)
    {
      assert ListInv(s.table[j], j, s.waiters);
    }
    forall u | u in t.waiters
      ensures Listed(t, u)
    {
      assert Listed(s, u);
    }
  }

  lemma OfferKeepsWriter(s: Sys)
    requires TableInv(s) && WriterInv(s) && Next(s, Offer).Some?
    ensures WriterInv(Next(s, Offer).value)
  {
    assert ListInv(s.table[s.writer.key], s.writer.key, s.waiters);
  }

  lemma OfferKeepsWakes(s: Sys)
    requires Inv(s) && Next(s, Offer).Some?
    ensures WakesInv(Next(s, Offer).value) && HistoriesInv(Next(s, Offer).value)
  {
    var t := Next(s, Offer).value;
    var w := ListOf(s, s.writer.key)[s.writer.at];
    assert ListInv(s.table[s.writer.key], s.writer.key, s.waiters);
    OfferExtendsHistory(s.waiters[w], s.writer.value);
    forall u | u in t.waiters
      ensures WakeInv(t, u) && HistoryInv(t.waiters[u])
    {
      assert WakeInv(s, u) && HistoryInv(s.waiters[u]);
    }
  }

  lemma EndKeeps(s: Sys)
    requires Inv(s) && Next(s, EndWrite).Some?
    ensures Inv(Next(s, EndWrite).value)
  {
    var t := Next(s, EndWrite).value;
    forall u | u in t.waiters
      ensures Listed(t, u) && WakeInv(t, u)
    {
      assert Listed(s, u) && WakeInv(s, u);
    }
  }

  lemma DecideKeeps(s: Sys, w: Wid)
    requires Inv(s) && Next(s, Decide(w)).Some?
    ensures Inv(Next(s, Decide(w)).value)
  {
    var t := Next(s, Decide(w)).value;
    forall u | u in t.waiters
      ensures Listed(t, u) && WakeInv(t, u)
    {
      assert Listed(s, u) && WakeInv(s, u);
    }
  }

  lemma WithoutAt(ws: seq<Wid>, i: nat)
    requires i < |ws| && Distinct(ws)
    ensures forall m :: 0 <= m < |ws| - 1 ==> Without(ws, i)[m] == ws[if m < i then m else m + 1]
    ensures Distinct(Without(ws, i)) && ws[i] !in Without(ws, i)
    ensures forall u :: u in ws && u != ws[i] ==> u in Without(ws, i)
  {
    forall u | u in ws && u != ws[i]
      ensures u in Without(ws, i)
    {
      var j :| 0 <= j < |ws| && ws[j] == u;
      assert Without(ws, i)[if j < i then j else j - 1] == u;
    }
  }

  predicate At(s: Sys, w: Wid, i: nat) {
    w in s.waiters && i < |ListOf(s, s.waiters[w].key)| && ListOf(s, s.waiters[w].key)[i] == w
  }

  lemma RemoveKeepsTable(s: Sys, w: Wid, i: nat)
    requires Inv(s) && At(s, w, i)
    ensures TableInv(RemoveAt(s, w, i))
  {
    var t := RemoveAt(s, w, i);
    var k := s.waiters[w].key;
    var ws := ListOf(s, k);
    assert ListInv(s.table[k], k, s.waiters);
    WithoutAt(ws, i);
    forall j | j in t.table
      ensures ListInv(t.table[j], j, t.waiters)
    {
      assert ListInv(s.table[j], j, s.waiters);
    }
    forall u | u in t.waiters
      ensures Listed(t, u)
    {
      assert Listed(s, u);
    }
  }

  lemma FrontWithout(ws: seq<Wid>, passed: set<Wid>, n: nat, i: nat)
    requires i < |ws| && Distinct(ws) && Front(ws, passed, n)
    ensures Front(Without(ws, i), passed + (if i < n < |ws| then {ws[n]} else {}), n)
  {
    WithoutAt(ws, i);
  }

  lemma RemoveKeepsWriter(s: Sys, w: Wid, i: nat)
    requires Inv(s) && At(s, w, i)
    ensures WriterInv(RemoveAt(s, w, i))
  {
    var t := RemoveAt(s, w, i);
    var k := s.waiters[w].key;
    assert ListInv(s.table[k], k, s.waiters);
    if s.writer.Writing? {
      if s.writer.key == k {
        FrontWithout(ListOf(s, k), s.writer.passed, s.writer.at, i);
        assert ListOf(t, k) == Without(ListOf(s, k), i);
      } else {
        assert ListOf(t, s.writer.key) == ListOf(s, s.writer.key);
      }
    }
  }

  lemma RemoveKeepsWakes(s: Sys, w: Wid, i: nat)
    requires Inv(s) && At(s, w, i)
    ensures WakesInv(RemoveAt(s, w, i))
  {
    var t := RemoveAt(s, w, i);
    var k := s.waiters[w].key;
    assert ListInv(s.table[k], k, s.waiters);
    forall u | u in t.waiters
      ensures WakeInv(t, u)
    {
      assert WakeInv(s, u);
    }
  }

  lemma InvStep(s: Sys, e: Event)
    requires Inv(s) && Next(s, e).Some?
    ensures Inv(Next(s, e).value)
  {
    match e {
      case WaitUntil(w, k, ver) =>
        FreshIsUnregistered(s, w);
        WaitKeepsTable(s, w, k, ver);
        WaitKeepsWakes(s, w, k, ver);
      case BeginSet(k, v) => BeginKeeps(s, k, v, false);
      case BeginDelete(k) => BeginKeeps(s, k, Nil, true);
      case Offer =>
        OfferKeepsTable(s);
        OfferKeepsWriter(s);
        OfferKeepsWakes(s);
      case EndWrite => EndKeeps(s);
      case Decide(w) => DecideKeeps(s, w);
      case Remove(w) =>
        var i := IndexOf(ListOf(s, s.waiters[w].key), w);
        RemoveKeepsTable(s, w, i);
        RemoveKeepsWriter(s, w, i);
        RemoveKeepsWakes(s, w, i);
    }
  }

  lemma {:induction false} InvRun(s: Sys, es: seq<Event>)
    requires Inv(s) && Exec(s, es).Some?
    ensures Inv(Exec(s, es).value)
    decreases |es|
  {
    if es != [] {
      InvStep(s, es[0]);
      InvRun(Next(s, es[0]).value, es[1..]);
    }
  }

  // ----- what it gives --------------------------------------------------------------------------

  /**
   * In every run, whenever no write is in progress, the current value of the key is one that a
   * registered unverified waiter waits for, one its function accepts or the very value, exactly
   * when the latest write of that key skipped it.
   */
  lemma LostWakeupExactly(es: seq<Event>, w: Wid)
    requires Exec(Initial, es).Some?
    requires var s := Exec(Initial, es).value;
             s.writer == NoWriter && w in s.waiters && !s.waiters[w].verified
    ensures var s := Exec(Initial, es).value;
            var x := Current(s, s.waiters[w].key);
            (match s.waiters[w].verifier case Test(p) => p(x) case Equals(y) => x == y) <==> w in s.skipped
  {
    InvRun(Initial, es);
    assert WakeInv(Exec(Initial, es).value, w);
  }

  /** Someone the writer has already passed leaves the list it is still walking. */
  predicate Jumps(s: Sys, e: Event) {
    e.Remove? && s.writer.Writing? && e.w in s.waiters && s.waiters[e.w].key == s.writer.key &&
    IndexOf(ListOf(s, s.writer.key), e.w) < s.writer.at < |ListOf(s, s.writer.key)|
  }

  predicate Orderly(s: Sys, es: seq<Event>)
    decreases |es|
  {
    es == [] || (!Jumps(s, es[0]) && (Next(s, es[0]).Some? ==> Orderly(Next(s, es[0]).value, es[1..])))
  }

  lemma {:induction false} OrderlySkipsNobody(s: Sys, es: seq<Event>)
    requires s.skipped == {} && Orderly(s, es) && Exec(s, es).Some?
    ensures Exec(s, es).value.skipped == {}
    decreases |es|
  {
    if es != [] {
      OrderlySkipsNobody(Next(s, es[0]).value, es[1..]);
    }
  }

  /** If that never happens, no wakeup is ever lost. */
  lemma NoLostWakeup(es: seq<Event>, w: Wid)
    requires Exec(Initial, es).Some? && Orderly(Initial, es)
    requires var s := Exec(Initial, es).value;
             s.writer == NoWriter && w in s.waiters && !s.waiters[w].verified
    ensures var s := Exec(Initial, es).value;
            !Verify(s.waiters[w].verifier, Current(s, s.waiters[w].key))
  {
    OrderlySkipsNobody(Initial, es);
    LostWakeupExactly(es, w);
  }

  /**
   * In every run a waiter's decision is right by what it was shown: it returns the last value
   * that satisfied it, and times out exactly when none did. Removing it never raises.
   */
  lemma DecisionIsRight(es: seq<Event>, w: Wid)
    requires Exec(Initial, es).Some? && w in Exec(Initial, es).value.waiters
    ensures var s := Exec(Initial, es).value;
            && w in s.outcomes
            && (s.outcomes[w].Undecided? ==>
                  match Next(s, Decide(w)).value.outcomes[w]
                  case Returned(v) => LastHit(s.waiters[w].held, s.waiters[w].verifier, v)
                  case TimedOut => NoHit(s.waiters[w].held, s.waiters[w].verifier)
                  case Undecided => false)
            && (!s.outcomes[w].Undecided? ==> Next(s, Remove(w)).Some?)
            && (forall k :: k in s.table ==> s.table[k] != [])
  {
    InvRun(Initial, es);
    var s := Exec(Initial, es).value;
    assert Listed(s, w) && HistoryInv(s.waiters[w]);
    forall k | k in s.table
      ensures s.table[k] != []
    {
      assert ListInv(s.table[k], k, s.waiters);
    }
  }

  /** What a waiter is shown: the key's value when it registers, afterwards the value being written. */
  lemma ShownByWriter(s: Sys, e: Event, w: Wid)
    requires Inv(s) && Next(s, e).Some? && w in Next(s, e).value.waiters
    ensures var t := Next(s, e).value;
            if w !in s.waiters then t.waiters[w].held == [Current(s, t.waiters[w].key)]
            else
              || t.waiters[w].held == s.waiters[w].held
              || (s.writer.Writing? && s.writer.key == s.waiters[w].key &&
                  t.waiters[w].held == s.waiters[w].held + [s.writer.value])
  {
    if e.WaitUntil? {
      FreshIsUnregistered(s, e.w);
    } else if e.Offer? {
      assert ListInv(s.table[s.writer.key], s.writer.key, s.waiters);
    }
  }

  // ----- what a call returns, over the whole run --------------------------------------------------

  predicate Writes(s: Sys, k: Key, v: Value) {
    s.writer.Writing? && s.writer.key == k && s.writer.value == v
  }

  /** The state after the first `n` events. */
  ghost function StateAt(es: seq<Event>, n: nat): Sys
    requires n <= |es| && Exec(Initial, es).Some?
  {
    RunCut(Next, Initial, es, n);
    Exec(Initial, es[..n]).value
  }

  /** The call is in progress after `n` events: it has just begun, or its waiter is registered. */
  ghost predicate OpenAt(es: seq<Event>, n: nat, w: Wid)
    requires n <= |es| && Exec(Initial, es).Some?
  {
    (n > 0 && es[n - 1].WaitUntil? && es[n - 1].w == w) || w in StateAt(es, n).waiters
  }

  /** At some state during the call, among those after at most `m` events, the key held the value. */
  ghost predicate HeldDuring(es: seq<Event>, m: nat, w: Wid, k: Key, v: Value)
    requires m <= |es| && Exec(Initial, es).Some?
  {
    exists n :: 0 <= n <= m && OpenAt(es, n, w) && Current(StateAt(es, n), k) == v
  }

  /** A write of the value to the key ended while the waiter was registered. */
  ghost predicate WriteEnded(es: seq<Event>, m: nat, w: Wid, k: Key, v: Value)
    requires m <= |es| && Exec(Initial, es).Some?
  {
    exists n :: 0 <= n < m && es[n] == EndWrite && w in StateAt(es, n).waiters && Writes(StateAt(es, n), k, v)
  }

  /** The waiter took itself off the list while a write of the value to the key was in progress. */
  ghost predicate LeftDuringWrite(es: seq<Event>, m: nat, w: Wid, k: Key, v: Value)
    requires m <= |es| && Exec(Initial, es).Some?
  {
    exists n :: 0 <= n < m && es[n] == Remove(w) && Writes(StateAt(es, n), k, v)
  }

  lemma StateThen(es: seq<Event>, n: nat)
    requires n < |es| && Exec(Initial, es).Some?
    ensures Inv(StateAt(es, n)) && Next(StateAt(es, n), es[n]) == Some(StateAt(es, n + 1))
  {
    RunCut(Next, Initial, es, n);
    RunCut(Next, Initial, es, n + 1);
    InvRun(Initial, es[..n]);
  }

  /** One step, as seen by one call. */
  lemma CallStep(s: Sys, e: Event, w: Wid)
    requires Inv(s) && Next(s, e).Some? && w in s.outcomes
    ensures var t := Next(s, e).value;
            && w in t.outcomes
            && (w in t.waiters ==> w in s.waiters && t.waiters[w].key == s.waiters[w].key &&
                                   t.waiters[w].verifier == s.waiters[w].verifier)
            && (w in s.waiters && e != Remove(w) ==> w in t.waiters)
            && (w in t.waiters && t.waiters[w].verified ==>
                  (s.waiters[w].verified && s.waiters[w].value == t.waiters[w].value) ||
                  Writes(t, t.waiters[w].key, t.waiters[w].value))
            && (t.outcomes[w].Returned? && t.outcomes[w] != s.outcomes[w] ==>
                  w in s.waiters && s.waiters[w].verified && s.waiters[w].value == t.outcomes[w].value)
  {
    if e.Offer? {
      assert ListInv(s.table[s.writer.key], s.writer.key, s.waiters);
    }
  }

  /** A key's value changes, and a write goes away, only by the write ending. */
  lemma StoreStep(s: Sys, e: Event, k: Key, v: Value)
    requires Inv(s) && Next(s, e).Some?
    ensures var t := Next(s, e).value;
            && (Current(t, k) == v ==> Current(s, k) == v || (e == EndWrite && Writes(s, k, v)))
            && (Writes(s, k, v) ==> if e == EndWrite then Current(t, k) == v else Writes(t, k, v))
  {
  }

  /** Where a value that the call has taken comes from. */
  ghost predicate Justified(es: seq<Event>, m: nat, w: Wid, k: Key, v: Value)
    requires m <= |es| && Exec(Initial, es).Some?
  {
    || HeldDuring(es, m, w, k, v)
    || LeftDuringWrite(es, m, w, k, v)
    || (w in StateAt(es, m).waiters && Writes(StateAt(es, m), k, v))
  }

  lemma JustifiedStep(es: seq<Event>, m: nat, w: Wid, k: Key, v: Value)
    requires m < |es| && Exec(Initial, es).Some? && w in StateAt(es, m).outcomes && Justified(es, m, w, k, v)
    ensures Justified(es, m + 1, w, k, v)
  {
    var s, t := StateAt(es, m), StateAt(es, m + 1);
    StateThen(es, m);
    if HeldDuring(es, m, w, k, v) {
      var n :| 0 <= n <= m && OpenAt(es, n, w) && Current(StateAt(es, n), k) == v;
      assert HeldDuring(es, m + 1, w, k, v);
    } else if LeftDuringWrite(es, m, w, k, v) {
      assert LeftDuringWrite(es, m + 1, w, k, v);
    } else {
      CallStep(s, es[m], w);
      StoreStep(s, es[m], k, v);
      if es[m] == EndWrite {
        assert OpenAt(es, m + 1, w) && Current(t, k) == v;
      }
    }
  }

  /** What is known of a call once it has begun, after `m` events. */
  ghost predicate CallInv(es: seq<Event>, m: nat, w: Wid, k: Key, ver: Verifier)
    requires m <= |es| && Exec(Initial, es).Some?
  {
    var s := StateAt(es, m);
    && w in s.outcomes
    && (w in s.waiters ==> s.waiters[w].key == k && s.waiters[w].verifier == ver)
    && (w in s.waiters && s.waiters[w].verified ==>
          Verify(ver, s.waiters[w].value) && Justified(es, m, w, k, s.waiters[w].value))
    && (s.outcomes[w].Returned? ==>
          Verify(ver, s.outcomes[w].value) && Justified(es, m, w, k, s.outcomes[w].value))
  }

  lemma CallInvStep(es: seq<Event>, m: nat, w: Wid, k: Key, ver: Verifier)
    requires m < |es| && Exec(Initial, es).Some? && CallInv(es, m, w, k, ver)
    ensures CallInv(es, m + 1, w, k, ver)
  {
    var s, t := StateAt(es, m), StateAt(es, m + 1);
    StateThen(es, m);
    InvStep(s, es[m]);
    CallStep(s, es[m], w);
    if w in t.waiters && t.waiters[w].verified {
      assert HistoryInv(t.waiters[w]);
      if Justified(es, m, w, k, t.waiters[w].value) {
        JustifiedStep(es, m, w, k, t.waiters[w].value);
      }
    }
    if t.outcomes[w].Returned? {
      JustifiedStep(es, m, w, k, t.outcomes[w].value);
    }
  }

  /** The value the key held when the call began, if the call returned it at once. */
  lemma CallBegins(es: seq<Event>, i: nat)
    requires i < |es| && Exec(Initial, es).Some? && es[i].WaitUntil?
    ensures CallInv(es, i + 1, es[i].w, es[i].key, es[i].verifier)
  {
    var s, t := StateAt(es, i), StateAt(es, i + 1);
    var w, k := es[i].w, es[i].key;
    StateThen(es, i);
    FreshIsUnregistered(s, w);
    if t.outcomes[w].Returned? {
      assert OpenAt(es, i + 1, w) && Current(t, k) == t.outcomes[w].value;
    }
  }

  lemma {:induction false} CallRun(es: seq<Event>, i: nat, m: nat)
    requires i < m <= |es| && Exec(Initial, es).Some? && es[i].WaitUntil?
    ensures CallInv(es, m, es[i].w, es[i].key, es[i].verifier)
  {
    if m == i + 1 {
      CallBegins(es, i);
    } else {
      CallRun(es, i, m - 1);
      CallInvStep(es, m - 1, es[i].w, es[i].key, es[i].verifier);
    }
  }

  /** The call returned without registering a waiter. */
  ghost predicate AtOnce(es: seq<Event>, i: nat)
    requires i < |es| && Exec(Initial, es).Some? && es[i].WaitUntil?
  {
    var t := StateAt(es, i + 1);
    es[i].w in t.outcomes && t.outcomes[es[i].w].Returned?
  }

  lemma AtOnceBegins(es: seq<Event>, i: nat)
    requires i < |es| && Exec(Initial, es).Some? && es[i].WaitUntil? && AtOnce(es, i)
    ensures var t := StateAt(es, i + 1);
            es[i].w !in t.waiters && t.outcomes[es[i].w] == Returned(Current(t, es[i].key))
  {
    StateThen(es, i);
    FreshIsUnregistered(StateAt(es, i), es[i].w);
  }

  lemma {:induction false} AtOnceStays(es: seq<Event>, i: nat, m: nat)
    requires i < m <= |es| && Exec(Initial, es).Some? && es[i].WaitUntil? && AtOnce(es, i)
    ensures var w := es[i].w;
            && w !in StateAt(es, m).waiters && w in StateAt(es, m).outcomes
            && StateAt(es, m).outcomes[w] == Returned(Current(StateAt(es, i + 1), es[i].key))
  {
    if m == i + 1 {
      AtOnceBegins(es, i);
    } else {
      AtOnceStays(es, i, m - 1);
      StateThen(es, m - 1);
      CallStep(StateAt(es, m - 1), es[m - 1], es[i].w);
    }
  }

  lemma {:induction false} OutcomesStay(es: seq<Event>, n: nat, m: nat, w: Wid)
    requires n <= m <= |es| && Exec(Initial, es).Some? && w in StateAt(es, n).outcomes
    ensures w in StateAt(es, m).outcomes
  {
    if n < m {
      OutcomesStay(es, n, m - 1, w);
      StateThen(es, m - 1);
      CallStep(StateAt(es, m - 1), es[m - 1], w);
    }
  }

  lemma OpenIsKnown(es: seq<Event>, n: nat, w: Wid)
    requires n <= |es| && Exec(Initial, es).Some? && OpenAt(es, n, w)
    ensures w in StateAt(es, n).outcomes
  {
    if w in StateAt(es, n).waiters {
      RunCut(Next, Initial, es, n);
      InvRun(Initial, es[..n]);
      assert Listed(StateAt(es, n), w);
    } else {
      StateThen(es, n - 1);
    }
  }

  /** A call is in progress only after it has begun. */
  lemma OpenAfterBegin(es: seq<Event>, i: nat, n: nat)
    requires i < |es| && n <= |es| && Exec(Initial, es).Some? && es[i].WaitUntil? && OpenAt(es, n, es[i].w)
    ensures n > i && (n == i + 1 || es[i].w in StateAt(es, n).waiters)
  {
    var w := es[i].w;
    StateThen(es, i);
    if n <= i {
      OpenIsKnown(es, n, w);
      OutcomesStay(es, n, i, w);
    } else if n > i + 1 {
      StateThen(es, n - 1);
      OutcomesBegin(es, i, n - 1);
    }
  }

  /** For a call that had to wait, a value that satisfies it comes to be held only by a write ending. */
  lemma {:induction false} HeldNeedsEnd(es: seq<Event>, i: nat, m: nat, v: Value)
    requires i < m <= |es| && Exec(Initial, es).Some? && es[i].WaitUntil? && !AtOnce(es, i)
    requires Verify(es[i].verifier, v) && Current(StateAt(es, m), es[i].key) == v
    requires m == i + 1 || es[i].w in StateAt(es, m).waiters
    ensures WriteEnded(es, m, es[i].w, es[i].key, v)
  {
    var s, w, k := StateAt(es, m - 1), es[i].w, es[i].key;
    StateThen(es, m - 1);
    StoreStep(s, es[m - 1], k, v);
    if m > i + 1 {
      OutcomesBegin(es, i, m - 1);
      CallStep(s, es[m - 1], w);
      if Current(s, k) == v {
        HeldNeedsEnd(es, i, m - 1, v);
        var n :| 0 <= n < m - 1 && es[n] == EndWrite && w in StateAt(es, n).waiters && Writes(StateAt(es, n), k, v);
      }
      assert WriteEnded(es, m, w, k, v);
    }
  }

  lemma OutcomesBegin(es: seq<Event>, i: nat, m: nat)
    requires i < m <= |es| && Exec(Initial, es).Some? && es[i].WaitUntil?
    ensures es[i].w in StateAt(es, m).outcomes
  {
    StateThen(es, i);
    OutcomesStay(es, i + 1, m, es[i].w);
  }

  lemma EndIsHeld(es: seq<Event>, m: nat, w: Wid, k: Key, v: Value)
    requires m <= |es| && Exec(Initial, es).Some? && WriteEnded(es, m, w, k, v)
    ensures HeldDuring(es, m, w, k, v)
  {
    var n :| 0 <= n < m && es[n] == EndWrite && w in StateAt(es, n).waiters && Writes(StateAt(es, n), k, v);
    StateThen(es, n);
    StoreStep(StateAt(es, n), es[n], k, v);
    assert OpenAt(es, n + 1, w);
  }

  /**
   * In every run, for every call that has returned a value, at once, by a decision or long
   * since: its function accepts the value, or it is the very value asked for. The key held it at some moment during the call if
   * and only if the call returned at once or a write of it ended before the waiter left;
   * otherwise a write of it was still in progress when the waiter left, or is now.
   */
  lemma ReturnedExactly(es: seq<Event>, i: nat, v: Value)
    requires i < |es| && Exec(Initial, es).Some? && es[i].WaitUntil?
    requires var t := Exec(Initial, es).value; es[i].w in t.outcomes && t.outcomes[es[i].w] == Returned(v)
    ensures var w, k, m := es[i].w, es[i].key, |es|;
            && (match es[i].verifier case Test(p) => p(v) case Equals(y) => v == y)
            && (HeldDuring(es, m, w, k, v) <==> AtOnce(es, i) || WriteEnded(es, m, w, k, v))
            && (HeldDuring(es, m, w, k, v) || LeftDuringWrite(es, m, w, k, v) ||
                (w in StateAt(es, m).waiters && Writes(StateAt(es, m), k, v)))
  {
    var w, k, m := es[i].w, es[i].key, |es|;
    assert es[..m] == es;
    CallRun(es, i, m);
    if AtOnce(es, i) {
      AtOnceStays(es, i, m);
      assert OpenAt(es, i + 1, w);
    } else if HeldDuring(es, m, w, k, v) {
      var n :| 0 <= n <= m && OpenAt(es, n, w) && Current(StateAt(es, n), k) == v;
      OpenAfterBegin(es, i, n);
      HeldNeedsEnd(es, i, n, v);
    } else if WriteEnded(es, m, w, k, v) {
      EndIsHeld(es, m, w, k, v);
    }
  }

  // ----- the loss is real -------------------------------------------------------------------------

  /** Two waiters on one key, the first of which has given up but is still on the list. */
  predicate FirstHasGivenUp(s: Sys, k: Key, v: Value) {
    && s.writer == NoWriter && s.table == map[k := [0, 1]] && s.dict == map[] && s.skipped == {}
    && 0 in s.waiters && s.waiters[0].key == k && 0 in s.outcomes && s.outcomes[0] == TimedOut
    && 1 in s.waiters && s.waiters[1] == Waiter(k, Equals(v), false, Nil, [Nil])
  }

  lemma GivingUp(k: Key, v: Value) returns (s: Sys)
    requires v != Nil
    ensures Leads(Next, Initial, s) && FirstHasGivenUp(s, k, v)
  {
    Stays(Next, Initial);
    var s1 := Next(Initial, WaitUntil(0, k, Equals(v))).value;
    Onward(Next, Initial, Initial, WaitUntil(0, k, Equals(v)), s1);
    assert ListOf(Initial, k) + [0] == [0];
    assert s1.table == map[k := [0]];
    var s2 := Next(s1, WaitUntil(1, k, Equals(v))).value;
    Onward(Next, Initial, s1, WaitUntil(1, k, Equals(v)), s2);
    assert [0] + [1] == [0, 1];
    assert s2.table == map[k := [0, 1]];
    s := Next(s2, Decide(0)).value;
    Onward(Next, Initial, s2, Decide(0), s);
  }

  /** A writer that has passed the first of two waiters, who then leaves the list. */
  lemma LeavesBehindWriter(s: Sys, k: Key) returns (t: Sys)
    requires Leads(Next, Initial, s) && s.table == map[k := [0, 1]] && s.writer.Writing? && s.writer.key == k && s.writer.at == 1
    requires 0 in s.waiters && s.waiters[0].key == k && 0 in s.outcomes && s.outcomes[0] == TimedOut
    requires 1 in s.waiters
    ensures Leads(Next, Initial, t) && t.table == map[k := [1]] && t.dict == s.dict && t.waiters == s.waiters - {0}
    ensures t.writer.Writing? && t.writer.(passed := {}) == s.writer.(passed := {})
  {
    assert IndexOf([0, 1], 0) == 0 && Without([0, 1], 0) == [1];
    t := RemoveAt(s, 0, 0);
    Onward(Next, Initial, s, Remove(0), t);
  }

  /** One waiter on the key and a write that satisfies it, begun. */
  lemma WriteBegins(k: Key, v: Value) returns (s: Sys)
    requires v != Nil
    ensures Leads(Next, Initial, s) && s.dict == map[] && s.table == map[k := [0]] && s.skipped == {}
    ensures s.waiters == map[0 := Waiter(k, Equals(v), false, Nil, [Nil])] && s.outcomes == map[0 := Undecided]
    ensures s.writer == Writing(k, v, 0, false, {})
  {
    Stays(Next, Initial);
    var s1 := Next(Initial, WaitUntil(0, k, Equals(v))).value;
    Onward(Next, Initial, Initial, WaitUntil(0, k, Equals(v)), s1);
    assert ListOf(Initial, k) + [0] == [0];
    s := BeginWrite(s1, k, v, false);
    Onward(Next, Initial, s1, BeginSet(k, v), s);
  }

  /** In some run a call is over and has returned a value that its key has never held. */
  lemma ReturnsUnheldValue(k: Key, v: Value) returns (t: Sys)
    requires v != Nil
    ensures Leads(Next, Initial, t) && t.dict == map[] && t.waiters == map[]
    ensures 0 in t.outcomes && t.outcomes[0] == Returned(v)
  {
    var s := WriteBegins(k, v);
    var s1 := Next(s, Offer).value;
    Onward(Next, Initial, s, Offer, s1);
    var s2 := Next(s1, Decide(0)).value;
    Onward(Next, Initial, s1, Decide(0), s2);
    assert IndexOf([0], 0) == 0;
    t := RemoveAt(s2, 0, 0);
    Onward(Next, Initial, s2, Remove(0), t);
  }

  /** A write that satisfies both has been offered to the first of two waiters. */
  lemma OffersToFirst(k: Key, v: Value) returns (t: Sys)
    requires v != Nil
    ensures Leads(Next, Initial, t) && t.table == map[k := [0, 1]] && t.writer == Writing(k, v, 1, false, {0})
    ensures 0 in t.waiters && t.waiters[0].key == k && 0 in t.outcomes && t.outcomes[0] == TimedOut
    ensures 1 in t.waiters && t.waiters[1] == Waiter(k, Equals(v), false, Nil, [Nil])
  {
    var s := GivingUp(k, v);
    var s1 := BeginWrite(s, k, v, false);
    Onward(Next, Initial, s, BeginSet(k, v), s1);
    t := Next(s1, Offer).value;
    Onward(Next, Initial, s1, Offer, t);
    assert {} + {0} == {0};
  }

  /** In some run a waiter sleeps on although its key has come to hold what it waits for. */
  lemma WakeupCanBeLost(k: Key, v: Value) returns (t: Sys)
    requires v != Nil
    ensures Leads(Next, Initial, t) && t.writer == NoWriter && 1 in t.waiters && !t.waiters[1].verified
    ensures t.waiters[1].key == k && Verify(t.waiters[1].verifier, Current(t, k))
  {
    var s := OffersToFirst(k, v);
    var s1 := LeavesBehindWriter(s, k);
    t := s1.(dict := s1.dict[k := v], writer := NoWriter);
    Onward(Next, Initial, s1, EndWrite, t);
  }

  // ----- the objects, one call at a time -----------------------------------------------------------

  class WaiterObject {
    const key: Key
    const verifier: Verifier
    var verified: bool
    var value: Value

    constructor (key: Key, verifier: Verifier)
      ensures this.key == key && this.verifier == verifier && !verified && value == Nil
    {
      this.key, this.verifier, verified, value := key, verifier, false, Nil;
    }

    method SetValue(v: Value)
      modifies this
      ensures var hit := match verifier { case Test(p) => p(v) case Equals(y) => v == y };
              verified == (old(verified) || hit) && value == if hit then v else old(value)
    {
      if Verify(verifier, v) {
        verified, value := true, v;
      }
    }
  }

  class BlockingDict {
    var dict: map<Key, Value>
    var waiters: map<Key, seq<WaiterObject>>

    ghost function Registered(): set<WaiterObject>
      reads this
    {
      set k, i | k in waiters && 0 <= i < |waiters[k]| :: waiters[k][i]
    }

    function Cur(k: Key): Value
      reads this
    {
      if k in dict then dict[k] else Nil
    }

    /** No list is empty or repeats a waiter, and nobody sleeps on a value that is there. */
    ghost predicate Valid()
      reads this, Registered()
    {
      && (forall k :: k in waiters ==> waiters[k] != [])
      && (forall k, i, j :: k in waiters && 0 <= i < j < |waiters[k]| ==> waiters[k][i] != waiters[k][j])
      && (forall k, i :: k in waiters && 0 <= i < |waiters[k]| ==>
            waiters[k][i].key == k && (waiters[k][i].verified || !Verify(waiters[k][i].verifier, Cur(k))))
    }

    constructor ()
      ensures Valid() && dict == map[] && waiters == map[]
    {
      dict, waiters := map[], map[];
    }

    /** The value was shown to the waiters of the key, all of them, and to no others. */
    twostate predicate ShownTo(k: Key, v: Value)
      reads this, Registered()
    {
      && waiters == old(waiters)
      && (forall o :: o in Registered() && o.key != k ==> unchanged(o))
      && (forall o :: o in Registered() && o.key == k ==>
            (o.verified <==> old(o.verified) || Verify(o.verifier, v)) &&
            o.value == if Verify(o.verifier, v) then v else old(o.value))
    }

    /** The loop shared by `__setitem__` and `__delitem__`. */
    method OfferAll(k: Key, v: Value)
      requires Valid()
      modifies Registered()
      ensures ShownTo(k, v)
    {
      if k !in waiters {
        return;
      }
      var ws := waiters[k];
      for n := 0 to |ws|
        invariant forall o :: o in Registered() && o !in ws[..n] ==> unchanged(o)
        invariant forall i :: 0 <= i < n ==>
                    (ws[i].verified <==> old(ws[i].verified) || Verify(ws[i].verifier, v)) &&
                    ws[i].value == if Verify(ws[i].verifier, v) then v else old(ws[i].value)
      {
        assert ws[n] in Registered() && ws[n] !in ws[..n];
        ws[n].SetValue(v);
        assert ws[..n + 1] == ws[..n] + [ws[n]];
      }
    }

    method SetItem(k: Key, v: Value)
      requires Valid()
      modifies this`dict, Registered()
      ensures Valid() && dict == old(dict)[k := v] && ShownTo(k, v)
    {
      OfferAll(k, v);
      dict := dict[k := v];
    }

    /** `found` is false when the deletion raises KeyError. */
    method DeleteItem(k: Key) returns (found: bool)
      requires Valid()
      modifies this`dict, Registered()
      ensures Valid() && dict == old(dict) - {k} && ShownTo(k, Nil)
      ensures found <==> k in old(dict)
    {
      OfferAll(k, Nil);
      found := k in dict;
      dict := dict - {k};
    }

    function Waiting(k: Key): seq<WaiterObject>
      reads this
    {
      if k in waiters then waiters[k] else []
    }

    /** `wait_until` up to the wait: a value at once (`Ok`), or a registered waiter (`Err`). */
    method WaitUntil(k: Key, ver: Verifier) returns (r: Result<Value, WaiterObject>)
      requires Valid()
      modifies this`waiters
      ensures Valid()
      ensures r.Ok? <==> match ver { case Test(p) => p(Cur(k)) case Equals(y) => Cur(k) == y }
      ensures r.Ok? ==> r.value == Cur(k) && waiters == old(waiters)
      ensures r.Err? ==> fresh(r.error) && r.error.key == k && r.error.verifier == ver && !r.error.verified
      ensures r.Err? ==> waiters == old(waiters)[k := old(Waiting(k)) + [r.error]]
    {
      if Verify(ver, Cur(k)) {
        return Ok(Cur(k));
      }
      var w := new WaiterObject(k, ver);
      waiters := waiters[k := Waiting(k) + [w]];
      r := Err(w);
    }

    /** `_remove_waiter`, which finds its waiter on the list of its key. */
    method RemoveWaiter(w: WaiterObject, i: nat)
      requires Valid() && w.key in waiters && i < |waiters[w.key]| && waiters[w.key][i] == w
      modifies this`waiters
      ensures Valid() && w !in Registered()
      ensures var rest := old(waiters)[w.key][..i] + old(waiters)[w.key][i + 1..];
              waiters == if rest == [] then old(waiters) - {w.key} else old(waiters)[w.key := rest]
    {
      var ws := waiters[w.key];
      var rest := ws[..i] + ws[i + 1..];
      assert forall j :: 0 <= j < |rest| ==> rest[j] == ws[if j < i then j else j + 1];
      if rest == [] {
        waiters := waiters - {w.key};
      } else {
        waiters := waiters[w.key := rest];
      }
    }
  }
}
