/** The caching decorator with time to live and random eviction (python/src/common/common/cache.py). */
module Caching {
  import opened Wrappers

  const CACHE_LIMIT := 100

  type Key = string

  datatype Entry = Entry(value: int, at: real)

  /** What a call to the decorated function does if it is made: return a value or raise. */
  type Direct = Option<int>

  datatype Answer = Answer(cache: map<Key, Entry>, value: Option<int>, computed: bool)

  /** One call through the cache; `victim` is the key that would be evicted. */
  function Call(cache: map<Key, Entry>, ttl: real, k: Key, now: real, direct: Direct, victim: Key): Answer {
    if k !in cache then
      match direct
      case None => Answer(cache, None, true)
      case Some(v) =>
        var room := if |cache| >= CACHE_LIMIT then cache - {victim} else cache;
        Answer(room[k := Entry(v, now)], Some(v), true)
    else if ttl <= 0.0 || cache[k].at + ttl > now then Answer(cache, Some(cache[k].value), false)
    else match direct
      case None => Answer(cache, None, true)
      case Some(v) => Answer(cache[k := Entry(v, now)], Some(v), true)
  }

  // ----- runs -----------------------------------------------------------------------------------

  /** A value computed for a key by a call that began at the given time. */
  datatype Computed = Computed(key: Key, value: int, at: real)

  /** History: `log` is everything computed, `clock` the time of the latest call. */
  datatype Sys = Sys(cache: map<Key, Entry>, log: seq<Computed>, clock: real)

  datatype Event = Event(key: Key, now: real, direct: Direct, victim: Key)

  /** The clock does not go back, and an evicted key is one that is there. */
  predicate Allowed(s: Sys, e: Event) {
    s.clock <= e.now && (|s.cache| >= CACHE_LIMIT ==> e.victim in s.cache)
  }

  function Step(s: Sys, ttl: real, e: Event): Sys {
    var a := Call(s.cache, ttl, e.key, e.now, e.direct, e.victim);
    Sys(a.cache, if a.computed && a.value.Some? then s.log + [Computed(e.key, a.value.value, e.now)] else s.log, e.now)
  }

  function Exec(s: Sys, ttl: real, es: seq<Event>): Option<Sys>
    decreases |es|
  {
    if es == [] then Some(s)
    else if Allowed(s, es[0]) then Exec(Step(s, ttl, es[0]), ttl, es[1..])
    else None
  }

  const Initial := Sys(map[], [], 0.0)

  predicate Inv(s: Sys) {
    && |s.cache| <= CACHE_LIMIT
    && forall k :: k in s.cache ==> Computed(k, s.cache[k].value, s.cache[k].at) in s.log && s.cache[k].at <= s.clock
  }

  lemma PutSize(cache: map<Key, Entry>, k: Key, x: Entry, victim: Key)
    requires |cache| <= CACHE_LIMIT && (|cache| >= CACHE_LIMIT ==> victim in cache) && k !in cache
    ensures |(if |cache| >= CACHE_LIMIT then cache - {victim} else cache)[k := x]| <= CACHE_LIMIT
  {
    var room := if |cache| >= CACHE_LIMIT then cache - {victim} else cache;
    assert |room| < CACHE_LIMIT by {
      if |cache| >= CACHE_LIMIT {
        assert room.Keys == cache.Keys - {victim};
        assert |room.Keys| == |cache.Keys| - 1;
      }
    }
    assert room[k := x].Keys == room.Keys + {k};
    assert |room[k := x].Keys| == |room.Keys| + 1;
  }

  lemma InvStep(s: Sys, ttl: real, e: Event)
    requires Inv(s) && Allowed(s, e)
    ensures Inv(Step(s, ttl, e))
  {
    var t := Step(s, ttl, e);
    if e.key !in s.cache && e.direct.Some? {
      PutSize(s.cache, e.key, Entry(e.direct.value, e.now), e.victim);
    } else {
      assert t.cache.Keys == s.cache.Keys;
      assert |t.cache.Keys| == |s.cache.Keys|;
    }
    forall k | k in t.cache
      ensures Computed(k, t.cache[k].value, t.cache[k].at) in t.log && t.cache[k].at <= t.clock
    {
      if k in s.cache && t.cache[k] == s.cache[k] {
        assert Computed(k, s.cache[k].value, s.cache[k].at) in s.log;
      } else {
        assert t.log[|t.log| - 1] == Computed(k, t.cache[k].value, t.cache[k].at);
      }
    }
  }

  lemma {:induction false} InvRun(s: Sys, ttl: real, es: seq<Event>)
    requires Inv(s) && Exec(s, ttl, es).Some?
    ensures Inv(Exec(s, ttl, es).value)
    decreases |es|
  {
    if es != [] {
      InvStep(s, ttl, es[0]);
      InvRun(Step(s, ttl, es[0]), ttl, es[1..]);
    }
  }

  /** `c` justifies answering `v` for `k` at `now`: computed by this call, or not yet expired. */
  predicate Justifies(c: Computed, k: Key, v: int, now: real, ttl: real) {
    c.key == k && c.value == v && c.at <= now && (c.at == now || ttl <= 0.0 || now - c.at < ttl)
  }

  /**
   * After any run of calls with any evictions, the cache never holds more than its limit, and
   * whatever the next call returns was computed for the same key, by that call itself or less
   * than the time to live before it (when there is one).
   */
  lemma AnswersAreFresh(ttl: real, es: seq<Event>, e: Event)
    requires Exec(Initial, ttl, es).Some? && Allowed(Exec(Initial, ttl, es).value, e)
    ensures var s := Exec(Initial, ttl, es).value;
            var v := Call(s.cache, ttl, e.key, e.now, e.direct, e.victim).value;
            && |s.cache| <= 100
            && (v.Some? ==> exists c :: c in Step(s, ttl, e).log && Justifies(c, e.key, v.value, e.now, ttl))
            && (v.None? ==> e.direct.None?)
  {
    InvRun(Initial, ttl, es);
    var s := Exec(Initial, ttl, es).value;
    var a := Call(s.cache, ttl, e.key, e.now, e.direct, e.victim);
    if a.value.Some? {
      var t := Step(s, ttl, e);
      if a.computed {
        var c := Computed(e.key, a.value.value, e.now);
        assert t.log[|t.log| - 1] == c && Justifies(c, e.key, a.value.value, e.now, ttl);
      } else {
        var c := Computed(e.key, s.cache[e.key].value, s.cache[e.key].at);
        assert c in t.log && Justifies(c, e.key, a.value.value, e.now, ttl);
      }
    }
  }

  /** The call makes room by dropping this key. */
  predicate Evicts(s: Sys, e: Event, k: Key) {
    e.key !in s.cache && e.direct.Some? && |s.cache| >= 100 && e.victim == k
  }

  predicate Spares(s: Sys, ttl: real, es: seq<Event>, k: Key)
    decreases |es|
  {
    es != [] ==> !Evicts(s, es[0], k) && Spares(Step(s, ttl, es[0]), ttl, es[1..], k)
  }

  /** The entry made at `at` has not expired by the time of the call. */
  predicate InTime(at: real, ttl: real, e: Event) {
    ttl <= 0.0 || e.now < at + ttl
  }

  /**
   * Once there is an entry for a key, after any calls that do not evict it and before it expires,
   * the next call for the key returns its value, computes nothing and leaves the cache as it is.
   */
  lemma {:induction false} EntryIsUsed(s: Sys, ttl: real, es: seq<Event>, e: Event)
    requires Exec(s, ttl, es).Some? && e.key in s.cache && Spares(s, ttl, es, e.key)
    requires InTime(s.cache[e.key].at, ttl, e) && forall d :: d in es ==> InTime(s.cache[e.key].at, ttl, d)
    ensures var t := Exec(s, ttl, es).value;
            && Step(t, ttl, e) == t.(clock := e.now)
            && Call(t.cache, ttl, e.key, e.now, e.direct, e.victim).value == Some(s.cache[e.key].value)
    decreases |es|
  {
    if es != [] {
      assert es[0] in es && forall d :: d in es[1..] ==> d in es;
      assert InTime(s.cache[e.key].at, ttl, es[0]);
      EntryIsUsed(Step(s, ttl, es[0]), ttl, es[1..], e);
    }
  }

  /**
   * In every run: what a call computed is what later calls for the key get, without computing,
   * until the entry is evicted or expires.
   */
  lemma ComputedIsReused(ttl: real, before: seq<Event>, first: Event, es: seq<Event>, e: Event)
    requires Exec(Initial, ttl, before).Some? && Allowed(Exec(Initial, ttl, before).value, first)
    requires var s := Exec(Initial, ttl, before).value;
             var t := Step(s, ttl, first);
             && t.log != s.log && e.key == first.key
             && Exec(t, ttl, es).Some? && Spares(t, ttl, es, e.key)
    requires InTime(first.now, ttl, e) && forall d :: d in es ==> InTime(first.now, ttl, d)
    ensures var u := Exec(Step(Exec(Initial, ttl, before).value, ttl, first), ttl, es).value;
            && first.direct.Some?
            && Call(u.cache, ttl, e.key, e.now, e.direct, e.victim).value == first.direct
            && Step(u, ttl, e).log == u.log
  {
    EntryIsUsed(Step(Exec(Initial, ttl, before).value, ttl, first), ttl, es, e);
  }

  /** If the function's value depends on the key only, every call through the cache gives it. */
  lemma {:induction false} CachedIsDirect(f: Key -> int, s: Sys, ttl: real, es: seq<Event>, e: Event)
    requires forall k :: k in s.cache ==> s.cache[k].value == f(k)
    requires forall d :: d in es ==> d.direct == Some(f(d.key))
    requires e.direct == Some(f(e.key)) && Exec(s, ttl, es).Some?
    ensures Call(Exec(s, ttl, es).value.cache, ttl, e.key, e.now, e.direct, e.victim).value == Some(f(e.key))
    decreases |es|
  {
    if es != [] {
      assert es[0] in es && forall d :: d in es[1..] ==> d in es;
      CachedIsDirect(f, Step(s, ttl, es[0]), ttl, es[1..], e);
    }
  }

  class CachedFunction {
    const ttl: real
    var cache: map<Key, Entry>

    constructor (ttl: real)
      ensures this.ttl == ttl && cache == map[]
    {
      this.ttl, cache := ttl, map[];
    }

    /** The wrapper; `direct` is what calling the function now would give. */
    method Nested(k: Key, now: real, direct: Direct, victim: Key) returns (value: Option<int>)
      requires |cache| >= CACHE_LIMIT ==> victim in cache
      modifies this
      ensures var a := Call(old(cache), ttl, k, now, direct, victim);
              cache == a.cache && value == a.value
    {
      if k !in cache {
        value := direct;
        if value.Some? {
          if |cache| >= CACHE_LIMIT {
            cache := cache - {victim};
          }
          cache := cache[k := Entry(value.value, now)];
        }
        return;
      }
      var hit := cache[k];
      if ttl <= 0.0 || hit.at + ttl > now {
        return Some(hit.value);
      }
      value := direct;
      if value.Some? {
        cache := cache[k := Entry(value.value, now)];
      }
    }
  }
}
