/**
 * The key/value state kept in a file that is replaced by renaming
 * (python/src/common/common/state.py, python/src/common/common/file_util.py). A write is
 * cut into its system calls, and the process may die between any two of them.
 */
module PersistentState {
  import opened Wrappers
  import opened Runs

  type Key = string
  type Entries = map<Key, int>

  /** A complete JSON document, or a beginning of one, which does not parse. */
  datatype Content = Doc(entries: Entries) | Torn

  /** Where a `set` stands; `entries` is what it is writing. */
  datatype Writing =
    | NotWriting
    | Cached(entries: Entries)    // the cache has the new value
    | Opened(entries: Entries)    // the temporary file is open and cut to nothing
    | Written(entries: Entries)   // all of the document is in it
    | Shut(entries: Entries)      // it is closed, not yet renamed
    | Renamed                     // it has replaced the file; set has not returned yet

  type Assignment = (Key, int)

  /**
   * `main` and `temp` are the two files. History: `done` are the sets that have returned (or
   * were found in the file after a restart), `failed` those since then that raised, whose values
   * are in the cache only, and `doing` is the set in progress.
   */
  datatype Sys = Sys(
    main: Option<Content>,
    temp: Option<Content>,
    cache: Entries,
    writing: Writing,
    done: seq<Assignment>,
    failed: seq<Assignment>,
    doing: seq<Assignment>)

  datatype Event =
    | BeginSet(key: Key, value: int)
    | Open
    | WritePart           // some of the document, not all
    | WriteAll
    | Close
    | Rename
    | Return
    | Fail                // a system call raises, and so does set
    | Restart             // the process dies and a new one loads the file

  /** What `State.__init__` makes of the file: anything unreadable counts as empty. */
  function Reload(main: Option<Content>): Entries {
    if main.Some? && main.value.Doc? then main.value.entries else map[]
  }

  function Start(main: Option<Content>): Sys {
    Sys(main, None, Reload(main), NotWriting, [], [], [])
  }

  /** The set in progress is over; what it wrote has become permanent, with all before it. */
  function Settled(s: Sys): Sys {
    s.(writing := NotWriting, done := s.done + s.failed + s.doing, failed := [], doing := [])
  }

  function Next(s: Sys, e: Event): Option<Sys> {
    match e
    case BeginSet(k, v) =>
      if s.writing == NotWriting then
        var entries := s.cache[k := v];
        Some(s.(cache := entries, writing := Cached(entries), doing := [(k, v)]))
      else None
    case Open =>
      if s.writing.Cached? then Some(s.(temp := Some(Torn), writing := Opened(s.writing.entries))) else None
    case WritePart =>
      if s.writing.Opened? then Some(s.(temp := Some(Torn))) else None
    case WriteAll =>
      if s.writing.Opened?
      then Some(s.(temp := Some(Doc(s.writing.entries)), writing := Written(s.writing.entries))) else None
    case Close =>
      if s.writing.Written? then Some(s.(writing := Shut(s.writing.entries))) else None
    case Rename =>
      if s.writing.Shut? then Some(s.(main := s.temp, temp := None, writing := Renamed)) else None
    case Return =>
      if s.writing.Renamed? then Some(Settled(s)) else None
    case Fail =>
      if s.writing.NotWriting? || s.writing.Renamed? then None
      else Some(s.(writing := NotWriting, failed := s.failed + s.doing, doing := []))
    case Restart =>
      var t := if s.writing.Renamed? then Settled(s) else s;
      Some(t.(cache := Reload(s.main), writing := NotWriting, failed := [], doing := []))
  }

  function Exec(s: Sys, es: seq<Event>): Option<Sys> {
    Run(Next, s, es)
  }

  /** The reference: a map to which the assignments were made one by one. */
  function Replay(from: Entries, log: seq<Assignment>): Entries {
    if log == [] then from else Replay(from, log[..|log| - 1])[log[|log| - 1].0 := log[|log| - 1].1]
  }

  // ----- crash consistency -------------------------------------------------------------------

  predicate Inv(s: Sys, from: Entries) {
    && s.cache == Replay(from, s.done + s.failed + s.doing)
    && Reload(s.main) == Replay(from, if s.writing.Renamed? then s.done + s.failed + s.doing else s.done)
    && (s.writing.NotWriting? ==> s.doing == [])
    && (s.writing.Cached? || s.writing.Opened? || s.writing.Written? || s.writing.Shut? ==>
          s.writing.entries == s.cache)
    && (s.writing.Written? || s.writing.Shut? ==> s.temp == Some(Doc(s.writing.entries)))
  }

  lemma InvStep(s: Sys, e: Event, from: Entries)
    requires Inv(s, from) && Next(s, e).Some?
    ensures Inv(Next(s, e).value, from)
  {
    var t := Next(s, e).value;
    var all := s.done + s.failed + s.doing;
    match e {
      case BeginSet(k, v) =>
        var longer := t.done + t.failed + t.doing;
        assert longer[|longer| - 1] == (k, v);
        assert all == s.done + s.failed && longer[..|longer| - 1] == all;
      case Return =>
        assert t.done + t.failed + t.doing == all;
      case Fail =>
        assert t.done + t.failed + t.doing == all;
      case Restart =>
        assert t.done + t.failed + t.doing == t.done;
      case _ =>
    }
  }

  lemma {:induction false} InvRun(s: Sys, es: seq<Event>, from: Entries)
    requires Inv(s, from) && Exec(s, es).Some?
    ensures Inv(Exec(s, es).value, from)
    decreases |es|
  {
    if es != [] {
      InvStep(s, es[0], from);
      InvRun(Next(s, es[0]).value, es[1..], from);
    }
  }

  /**
   * Over any number of sets, failed writes and crashes at any point: reloading the file gives
   * the map after exactly the sets that have returned, or, once its rename has happened, that
   * plus the one in progress (and, with it, those that failed before). A set that returns is
   * permanent, and the cache always shows every set begun since the last restart.
   */
  lemma CrashConsistency(main: Option<Content>, es: seq<Event>)
    requires Exec(Start(main), es).Some?
    ensures var t := Exec(Start(main), es).value;
            var from := Reload(main);
            && Reload(t.main) == Replay(from, if t.writing == Renamed then t.done + t.failed + t.doing else t.done)
            && t.cache == Replay(from, t.done + t.failed + t.doing)
  {
    InvRun(Start(main), es, Reload(main));
  }

  /** The file is whole or absent, and the temporary one is whole before it is renamed. */
  predicate Whole(s: Sys) {
    && (s.main.Some? ==> s.main.value.Doc?)
    && (s.writing.Written? || s.writing.Shut? ==> s.temp.Some? && s.temp.value.Doc?)
  }

  /** A file that starts whole, or absent, is never torn, crash or no crash. */
  lemma {:induction false} NeverTorn(s: Sys, es: seq<Event>)
    requires Whole(s) && Exec(s, es).Some?
    ensures Whole(Exec(s, es).value)
    decreases |es|
  {
    if es != [] {
      NeverTorn(Next(s, es[0]).value, es[1..]);
    }
  }

  /** What has returned stays: later states only extend it. */
  lemma {:induction false} DoneOnlyGrows(s: Sys, es: seq<Event>)
    requires Exec(s, es).Some?
    ensures s.done <= Exec(s, es).value.done
    decreases |es|
  {
    if es != [] {
      DoneOnlyGrows(Next(s, es[0]).value, es[1..]);
    }
  }

  // ----- the object ---------------------------------------------------------------------------

  /** Where writing the document can fail; what a failed close leaves may be torn or whole. */
  datatype Failure = AtOpen | AtWrite | AtClose(whole: bool) | AtRename

  class State {
    var main: Option<Content>
    var temp: Option<Content>
    var cache: Entries

    constructor (main: Option<Content>)
      ensures this.main == main && temp == None && cache == Reload(main)
    {
      this.main, temp := main, None;
      cache := if main.Some? && main.value.Doc? then main.value.entries else map[];
    }

    method Get(k: Key) returns (r: Option<int>)
      ensures r.Some? <==> k in cache
      ensures r.Some? ==> r.value == cache[k]
    {
      r := if k in cache then Some(cache[k]) else None;
    }

    /** Wherever writing fails, the value is cached and the file as before; else both have it. */
    method Set(k: Key, v: int, fails: Option<Failure>) returns (raised: bool)
      modifies this
      ensures cache == old(cache)[k := v] && (raised <==> fails.Some?)
      ensures main == if raised then old(main) else Some(Doc(cache))
      ensures temp == match fails {
                        case None => None
                        case Some(AtOpen) => old(temp)
                        case Some(AtWrite) => Some(Torn)
                        case Some(AtClose(whole)) => Some(if whole then Doc(cache) else Torn)
                        case Some(AtRename) => Some(Doc(cache))
                      }
    {
      cache := cache[k := v];
      if fails == Some(AtOpen) {
        return true;
      }
      temp := Some(Torn);
      if fails == Some(AtWrite) || fails == Some(AtClose(false)) {
        return true;
      }
      temp := Some(Doc(cache));
      if fails.Some? {
        return true;
      }
      main, temp := temp, None;
      raised := false;
    }
  }
}
