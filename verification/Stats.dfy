/**
 * The in-memory time series store and the publisher that drains it
 * (python/src/stats/stats/memory_tsdb.py, python/src/stats/stats/stats_publisher.py).
 */
module Stats {
  import opened Wrappers
  import opened Runs

  type Key = string

  datatype Sample = Sample(ts: real, data: int)

  // ----- one series ---------------------------------------------------------------------

  /** The last `n` elements. */
  function LastN<T>(s: seq<T>, n: nat): seq<T> {
    if |s| <= n then s else s[|s| - n..]
  }

  /** Appending to a deque of maximal length `n` drops from the left. */
  function Append<T>(s: seq<T>, x: T, n: nat): seq<T> {
    LastN(s + [x], n)
  }

  function Appended<T>(xs: seq<T>, n: nat): seq<T> {
    if xs == [] then [] else Append(Appended(xs[..|xs| - 1], n), xs[|xs| - 1], n)
  }

  /** After any run of additions a series holds exactly the last `n` values added. */
  lemma {:induction false} SeriesHoldsLastN<T>(xs: seq<T>, n: nat)
    ensures Appended(xs, n) == LastN(xs, n)
  {
    if xs != [] {
      var front := xs[..|xs| - 1];
      SeriesHoldsLastN(front, n);
      assert xs == front + [xs[|xs| - 1]];
    }
  }

  /** Where the longest suffix of samples newer than `since` begins. */
  function SuffixStart(s: seq<Sample>, since: real): (k: nat)
    ensures k <= |s|
    ensures forall j :: k <= j < |s| ==> s[j].ts > since
    ensures k > 0 ==> s[k - 1].ts <= since
  {
    if s == [] || s[|s| - 1].ts <= since then |s| else SuffixStart(s[..|s| - 1], since)
  }

  function NewerSuffix(s: seq<Sample>, since: real): seq<Sample> {
    s[SuffixStart(s, since)..]
  }

  /** All samples newer than `since`, wherever they stand. */
  function Newer(s: seq<Sample>, since: real): seq<Sample> {
    if s == [] then []
    else Newer(s[..|s| - 1], since) + if s[|s| - 1].ts > since then [s[|s| - 1]] else []
  }

  /** No newer sample stands before one that is not newer. */
  predicate NewerLast(s: seq<Sample>, since: real) {
    forall i, j :: 0 <= i < j < |s| && s[i].ts > since ==> s[j].ts > since
  }

  lemma {:induction false} NewerExtremes(s: seq<Sample>, since: real)
    ensures (forall i :: 0 <= i < |s| ==> s[i].ts > since) ==> Newer(s, since) == s
    ensures Newer(s, since) == [] <==> forall i :: 0 <= i < |s| ==> s[i].ts <= since
  {
    if s != [] {
      var front := s[..|s| - 1];
      NewerExtremes(front, since);
      assert s == front + [s[|s| - 1]];
      assert forall i :: 0 <= i < |front| ==> front[i] == s[i];
    }
  }

  lemma {:induction false} NewerConcat(a: seq<Sample>, b: seq<Sample>, since: real)
    ensures Newer(a + b, since) == Newer(a, since) + Newer(b, since)
  {
    if b == [] {
      assert a + b == a;
    } else {
      assert (a + b)[..|a + b| - 1] == a + b[..|b| - 1];
      NewerConcat(a, b[..|b| - 1], since);
    }
  }

  lemma NewerLastAt(s: seq<Sample>, since: real, k: nat)
    requires k <= |s| && (forall j :: k <= j < |s| ==> s[j].ts > since) && (k > 0 ==> s[k - 1].ts <= since)
    ensures NewerLast(s, since) <==> forall i :: 0 <= i < k ==> s[i].ts <= since
  {
  }

  lemma NewerFrom(s: seq<Sample>, since: real, k: nat)
    requires k <= |s| && forall j :: k <= j < |s| ==> s[j].ts > since
    ensures Newer(s, since) == Newer(s[..k], since) + s[k..]
    ensures Newer(s[..k], since) == [] <==> forall i :: 0 <= i < k ==> s[i].ts <= since
  {
    assert s == s[..k] + s[k..];
    NewerConcat(s[..k], s[k..], since);
    NewerExtremes(s[k..], since);
    NewerExtremes(s[..k], since);
  }

  lemma PrefixIsEmptyExactly<T>(a: seq<T>, b: seq<T>)
    ensures b == a + b <==> a == []
  {
    assert |a + b| == |a| + |b|;
  }

  /** The backwards scan finds every newer sample exactly when none stands before an older one. */
  lemma ScanIsFilterExactly(s: seq<Sample>, since: real)
    ensures NewerSuffix(s, since) == Newer(s, since) <==> NewerLast(s, since)
  {
    var k := SuffixStart(s, since);
    NewerFrom(s, since, k);
    NewerLastAt(s, since, k);
    PrefixIsEmptyExactly(Newer(s[..k], since), s[k..]);
  }

  /** So it does when timestamps never decrease. */
  lemma ScanIsFilterInOrder(s: seq<Sample>, since: real)
    requires forall i, j :: 0 <= i < j < |s| ==> s[i].ts <= s[j].ts
    ensures NewerSuffix(s, since) == Newer(s, since)
  {
    ScanIsFilterExactly(s, since);
  }

  // ----- the retention policy ---------------------------------------------------------------

  /** `ceil(duration / frequency)` on whole seconds. */
  function NumSamples(frequency: nat, duration: nat): nat
    requires frequency > 0
  {
    (duration + frequency - 1) / frequency
  }

  /** It is the least number of samples at this frequency that covers the duration. */
  lemma NumSamplesIsLeast(frequency: nat, duration: nat, m: nat)
    requires frequency > 0 && duration > 0
    ensures NumSamples(frequency, duration) >= 1
    ensures m * frequency >= duration <==> m >= NumSamples(frequency, duration)
  {
    var n := NumSamples(frequency, duration);
    var top := duration + frequency - 1;
    assert top == n * frequency + top % frequency;
    assert n * frequency >= duration && (n - 1) * frequency < duration by {
      assert (n - 1) * frequency == n * frequency - frequency;
    }
    if m >= n {
      Monotone(n, m, frequency);
    } else {
      Monotone(m, n - 1, frequency);
    }
  }

  lemma Monotone(a: int, b: int, f: nat)
    requires a <= b
    ensures a * f <= b * f
  {
    assert (b - a) * f == b * f - a * f;
  }

  // ----- runs of additions and publications -----------------------------------------------------

  /**
   * A stored series. History: `all` that was added, the lists published so far one after the
   * other (`published`), how much had been added at the last publication (`upto`), and where in
   * `all` the last published list began (`floor`). `sent` are places in `all`, which the proofs
   * show to be those of the published samples.
   */
  datatype Series = Series(
    deque: seq<Sample>,
    all: seq<Sample>,
    published: seq<Sample>,
    upto: nat,
    floor: nat,
    sent: seq<nat>)

  const Empty := Series([], [], [], 0, 0, [])

  datatype Sys = Sys(n: nat, mark: real, series: map<Key, Series>)

  datatype Event = Add(key: Key, sample: Sample) | Publish(mark: real)

  function Range(a: nat, b: nat): (r: seq<nat>)
    requires a <= b
    ensures |r| == b - a && forall i :: 0 <= i < b - a ==> r[i] == a + i
  {
    seq(b - a, i requires 0 <= i < b - a => a + i)
  }

  function AddTo(r: Series, x: Sample, n: nat): Series {
    r.(deque := Append(r.deque, x, n), all := r.all + [x])
  }

  /** Where in `all` the published list begins. */
  function From(r: Series, mark: real): (k: nat)
    ensures k <= |r.all|
  {
    var values := NewerSuffix(r.deque, mark);
    if |values| <= |r.all| then |r.all| - |values| else 0
  }

  function PublishOne(r: Series, mark: real): Series {
    var from := From(r, mark);
    r.(published := r.published + NewerSuffix(r.deque, mark),
       upto := |r.all|, floor := from, sent := r.sent + Range(from, |r.all|))
  }

  /** The next high-water mark: the greatest among the old mark and the published timestamps. */
  predicate IsNextMark(values: map<Key, seq<Sample>>, mark: real, next: real) {
    && mark <= next
    && (forall k, i :: k in values && 0 <= i < |values[k]| ==> values[k][i].ts <= next)
    && (next == mark || exists k, i :: k in values && 0 <= i < |values[k]| && values[k][i].ts == next)
  }

  function Retrieved(s: Sys): map<Key, seq<Sample>> {
    map k | k in s.series :: NewerSuffix(s.series[k].deque, s.mark)
  }

  function Next(s: Sys, e: Event): Option<Sys> {
    match e
    case Add(k, x) =>
      Some(s.(series := s.series[k := AddTo(if k in s.series then s.series[k] else Empty, x, s.n)]))
    case Publish(m) =>
      if IsNextMark(Retrieved(s), s.mark, m)
      then Some(s.(mark := m, series := map k | k in s.series :: PublishOne(s.series[k], s.mark)))
      else None
  }

  function Exec(s: Sys, es: seq<Event>): Option<Sys> {
    Run(Next, s, es)
  }

  function Start(n: nat): Sys {
    Sys(n, 0.0, map[])
  }

  /** What lies before the floor can never be published again. */
  predicate Closed(r: Series, n: nat, mark: real) {
    r.floor <= r.upto <= |r.all| &&
    (r.floor == 0 || r.floor + n <= |r.all| || r.all[r.floor - 1].ts <= mark)
  }

  predicate SeriesInv(r: Series, n: nat, mark: real) {
    && r.deque == LastN(r.all, n)
    && Closed(r, n, mark)
    && (forall i :: 0 <= i < |r.sent| ==> r.sent[i] < r.upto && r.all[r.sent[i]].ts <= mark)
    && (forall i, j :: 0 <= i < j < |r.sent| ==> r.sent[i] < r.sent[j])
    && (forall p :: r.floor <= p < r.upto ==> p in r.sent)
  }

  /** The samples at the given places. */
  function Pick(all: seq<Sample>, places: seq<nat>): seq<Sample>
    requires forall i :: 0 <= i < |places| ==> places[i] < |all|
  {
    seq(|places|, i requires 0 <= i < |places| => all[places[i]])
  }

  /** What was published are the samples at the sent places. */
  predicate PublishedInv(r: Series) {
    (forall i :: 0 <= i < |r.sent| ==> r.sent[i] < |r.all|) && r.published == Pick(r.all, r.sent)
  }

  predicate Inv(s: Sys) {
    forall k :: k in s.series ==> SeriesInv(s.series[k], s.n, s.mark) && PublishedInv(s.series[k])
  }

  lemma AddKeeps(r: Series, x: Sample, n: nat, mark: real)
    requires SeriesInv(r, n, mark) && PublishedInv(r)
    ensures SeriesInv(AddTo(r, x, n), n, mark) && PublishedInv(AddTo(r, x, n))
  {
    var t := AddTo(r, x, n);
    assert t.deque == LastN(t.all, n);
    assert forall i :: 0 <= i < |r.all| ==> t.all[i] == r.all[i];
    assert Pick(t.all, t.sent) == Pick(r.all, r.sent);
  }

  /** The published list is the end of everything added, from `From` on. */
  lemma PublishedAt(r: Series, n: nat, mark: real, i: nat)
    requires r.deque == LastN(r.all, n) && i < |NewerSuffix(r.deque, mark)|
    ensures From(r, mark) + i < |r.all| && NewerSuffix(r.deque, mark)[i] == r.all[From(r, mark) + i]
    ensures NewerSuffix(r.deque, mark)[i].ts > mark
  {
    var off, k := |r.all| - |r.deque|, SuffixStart(r.deque, mark);
    assert NewerSuffix(r.deque, mark)[i] == r.deque[k + i] == r.all[off + k + i];
  }

  lemma FromFacts(r: Series, n: nat, mark: real, from: nat)
    requires r.deque == LastN(r.all, n) && from == From(r, mark)
    ensures |r.all| - from <= n && (from == 0 || from + n <= |r.all| || r.all[from - 1].ts <= mark)
    ensures |NewerSuffix(r.deque, mark)| == |r.all| - from
    ensures forall p :: from <= p < |r.all| ==> mark < r.all[p].ts
  {
    var off, k := |r.all| - |r.deque|, SuffixStart(r.deque, mark);
    assert from == off + k;
    assert k > 0 ==> r.deque[k - 1] == r.all[off + k - 1];
    forall p | from <= p < |r.all|
      ensures mark < r.all[p].ts
    {
      PublishedAt(r, n, mark, p - from);
    }
  }

  lemma PickMore(all: seq<Sample>, sent: seq<nat>, from: nat, values: seq<Sample>)
    requires (forall i :: 0 <= i < |sent| ==> sent[i] < |all|) && from + |values| == |all|
    requires forall i :: 0 <= i < |values| ==> values[i] == all[from + i]
    ensures forall i :: 0 <= i < |sent + Range(from, |all|)| ==> (sent + Range(from, |all|))[i] < |all|
    ensures Pick(all, sent) + values == Pick(all, sent + Range(from, |all|))
  {
    var more := sent + Range(from, |all|);
    forall i | 0 <= i < |more|
      ensures more[i] < |all| && (Pick(all, sent) + values)[i] == all[more[i]]
    {
    }
  }

  lemma PublishedGrows(r: Series, n: nat, mark: real)
    requires r.deque == LastN(r.all, n) && PublishedInv(r)
    ensures PublishedInv(PublishOne(r, mark))
  {
    var from, values := From(r, mark), NewerSuffix(r.deque, mark);
    FromFacts(r, n, mark, from);
    forall i | 0 <= i < |values|
      ensures values[i] == r.all[from + i]
    {
      PublishedAt(r, n, mark, i);
    }
    PickMore(r.all, r.sent, from, values);
  }

  lemma SentGrows(r: Series, n: nat, mark: real, next: real, from: nat)
    requires SeriesInv(r, n, mark) && mark <= next && from <= |r.all| && |r.all| - from <= n
    requires forall p :: from <= p < |r.all| ==> mark < r.all[p].ts <= next
    requires from == 0 || from + n <= |r.all| || r.all[from - 1].ts <= mark
    ensures forall published :: SeriesInv(r.(published := published, upto := |r.all|, floor := from,
                                             sent := r.sent + Range(from, |r.all|)), n, next)
  {
    assert r.floor <= from;
    var sent := r.sent + Range(from, |r.all|);
    forall p | from <= p < |r.all|
      ensures p in sent
    {
      assert sent[|r.sent| + p - from] == p;
    }
  }

  lemma PublishKeeps(r: Series, n: nat, mark: real, next: real, values: seq<Sample>)
    requires SeriesInv(r, n, mark) && mark <= next && values == NewerSuffix(r.deque, mark)
    requires forall i :: 0 <= i < |values| ==> values[i].ts <= next
    ensures SeriesInv(PublishOne(r, mark), n, next)
  {
    var from := From(r, mark);
    FromFacts(r, n, mark, from);
    forall p | from <= p < |r.all|
      ensures mark < r.all[p].ts <= next
    {
      PublishedAt(r, n, mark, p - from);
      assert values[p - from] == r.all[p];
    }
    SentGrows(r, n, mark, next, from);
  }

  lemma InvStep(s: Sys, e: Event)
    requires Inv(s) && Next(s, e).Some?
    ensures Inv(Next(s, e).value)
  {
    var t := Next(s, e).value;
    forall k | k in t.series
      ensures SeriesInv(t.series[k], t.n, t.mark) && PublishedInv(t.series[k])
    {
      if e.Publish? {
        assert Retrieved(s)[k] == NewerSuffix(s.series[k].deque, s.mark);
        PublishedGrows(s.series[k], s.n, s.mark);
        PublishKeeps(s.series[k], s.n, s.mark, t.mark, NewerSuffix(s.series[k].deque, s.mark));
      } else if k == e.key {
        AddKeeps(if k in s.series then s.series[k] else Empty, e.sample, s.n, s.mark);
      }
    }
  }

  lemma {:induction false} InvRun(s: Sys, es: seq<Event>)
    requires Inv(s) && Exec(s, es).Some?
    ensures Inv(Exec(s, es).value) && Exec(s, es).value.n == s.n
    decreases |es|
  {
    if es != [] {
      InvStep(s, es[0]);
      InvRun(Next(s, es[0]).value, es[1..]);
    }
  }

  /**
   * Whatever timestamps and rates, no sample is ever published twice, and samples are published
   * in the order they were added: the published lists together are the samples at increasing
   * places of what was added. The store holds exactly the last `n` of each key.
   */
  lemma NeverTwice(n: nat, es: seq<Event>, k: Key)
    requires Exec(Start(n), es).Some? && k in Exec(Start(n), es).value.series
    ensures var r := Exec(Start(n), es).value.series[k];
            && r.deque == LastN(r.all, n)
            && (forall i, j :: 0 <= i < j < |r.sent| ==> r.sent[i] < r.sent[j])
            && (forall i :: 0 <= i < |r.sent| ==> r.sent[i] < |r.all|)
            && r.published == Pick(r.all, r.sent)
  {
    InvRun(Start(n), es);
  }

  /** Some published sample has this timestamp. */
  predicate PublishedWith(s: Sys, ts: real) {
    exists k, i :: k in s.series && 0 <= i < |s.series[k].published| && s.series[k].published[i].ts == ts
  }

  predicate MarkInv(s: Sys) {
    s.mark == 0.0 || PublishedWith(s, s.mark)
  }

  lemma PublishedStays(s: Sys, e: Event, ts: real)
    requires Next(s, e).Some? && PublishedWith(s, ts)
    ensures PublishedWith(Next(s, e).value, ts)
  {
    var t := Next(s, e).value;
    var k, i :| k in s.series && 0 <= i < |s.series[k].published| && s.series[k].published[i].ts == ts;
    assert k in t.series && s.series[k].published <= t.series[k].published;
    assert t.series[k].published[i].ts == ts;
  }

  lemma MarkStep(s: Sys, e: Event)
    requires MarkInv(s) && Next(s, e).Some?
    ensures MarkInv(Next(s, e).value)
  {
    var t := Next(s, e).value;
    if t.mark == s.mark {
      if t.mark != 0.0 {
        PublishedStays(s, e, s.mark);
      }
    } else {
      var values: map<Key, seq<Sample>> := Retrieved(s);
      var k: Key, i: int :| k in values && 0 <= i < |values[k]| && values[k][i].ts == t.mark;
      var r, q := s.series[k], t.series[k];
      assert q.published == r.published + values[k];
      assert q.published[|r.published| + i].ts == t.mark;
    }
  }

  lemma {:induction false} MarkRun(s: Sys, es: seq<Event>)
    requires MarkInv(s) && Exec(s, es).Some?
    ensures MarkInv(Exec(s, es).value)
    decreases |es|
  {
    if es != [] {
      MarkStep(s, es[0]);
      MarkRun(Next(s, es[0]).value, es[1..]);
    }
  }

  /** In every run the mark is the greatest timestamp published so far, or zero as at the start. */
  lemma MarkIsGreatest(n: nat, es: seq<Event>)
    requires Exec(Start(n), es).Some?
    ensures var s := Exec(Start(n), es).value;
            && (s.mark == 0.0 || PublishedWith(s, s.mark))
            && forall k, i :: k in s.series && 0 <= i < |s.series[k].published| ==> s.series[k].published[i].ts <= s.mark
  {
    InvRun(Start(n), es);
    MarkRun(Start(n), es);
  }

  /** The samples published so far are exactly those that were there at the last publication. */
  predicate Complete(r: Series) {
    r.sent == Range(0, r.upto)
  }

  /** At most `n` samples have arrived since the last publication, all above the mark. */
  predicate Prompt(r: Series, n: nat, mark: real) {
    r.upto <= |r.all| <= r.upto + n && forall p :: r.upto <= p < |r.all| ==> r.all[p].ts > mark
  }

  lemma RangesJoin(a: nat, b: nat, c: nat, d: nat)
    requires a <= b <= c <= d
    ensures Range(a, b) + Range(c, d) == Range(a, d) <==> b == c
  {
    if b == c {
      assert Range(a, b) + Range(c, d) == Range(a, d);
    } else {
      assert |Range(a, b) + Range(c, d)| < |Range(a, d)|;
    }
  }

  lemma PromptIsFrom(r: Series, n: nat, mark: real, from: nat)
    requires SeriesInv(r, n, mark) && Complete(r) && from <= |r.all| && |r.all| - from <= n
    requires forall p :: from <= p < |r.all| ==> r.all[p].ts > mark
    requires from == 0 || from + n <= |r.all| || r.all[from - 1].ts <= mark
    ensures r.upto <= from && (from == r.upto <==> Prompt(r, n, mark))
  {
    if r.upto > 0 {
      assert r.sent[r.upto - 1] == r.upto - 1;
      assert r.all[r.upto - 1].ts <= mark;
    }
  }

  lemma CompleteNeedsComplete(r: Series, n: nat, mark: real, from: nat)
    requires SeriesInv(r, n, mark) && r.floor <= from <= |r.all|
    requires r.sent + Range(from, |r.all|) == Range(0, |r.all|)
    ensures Complete(r)
  {
    var whole := Range(0, |r.all|);
    assert |r.sent| == from;
    assert forall i :: 0 <= i < from ==> r.sent[i] == whole[i];
    assert from > 0 ==> r.sent[from - 1] == from - 1;
    assert from < r.upto ==> from in r.sent;
    assert from !in r.sent;
  }

  lemma CompleteStepAt(r: Series, n: nat, mark: real, from: nat)
    requires SeriesInv(r, n, mark) && from <= |r.all| && |r.all| - from <= n
    requires forall p :: from <= p < |r.all| ==> r.all[p].ts > mark
    requires from == 0 || from + n <= |r.all| || r.all[from - 1].ts <= mark
    ensures r.sent + Range(from, |r.all|) == Range(0, |r.all|) <==> Complete(r) && Prompt(r, n, mark)
  {
    if Complete(r) {
      PromptIsFrom(r, n, mark, from);
      RangesJoin(0, r.upto, from, |r.all|);
    } else if r.sent + Range(from, |r.all|) == Range(0, |r.all|) {
      assert r.floor <= from;
      CompleteNeedsComplete(r, n, mark, from);
    }
  }

  lemma CompleteStep(r: Series, n: nat, mark: real)
    requires SeriesInv(r, n, mark)
    ensures Complete(PublishOne(r, mark)) <==> Complete(r) && Prompt(r, n, mark)
  {
    var from := From(r, mark);
    FromFacts(r, n, mark, from);
    CompleteStepAt(r, n, mark, from);
  }

  predicate AllComplete(s: Sys) {
    forall k :: k in s.series ==> Complete(s.series[k])
  }

  predicate AllPrompt(s: Sys) {
    forall k :: k in s.series ==> Prompt(s.series[k], s.n, s.mark)
  }

  /** Every publication of the run found every key prompt. */
  predicate PromptRun(s: Sys, es: seq<Event>)
    decreases |es|
  {
    es == [] ||
    ((es[0].Publish? ==> AllPrompt(s)) && (Next(s, es[0]).Some? ==> PromptRun(Next(s, es[0]).value, es[1..])))
  }

  lemma StepComplete(s: Sys, e: Event)
    requires Inv(s) && Next(s, e).Some?
    ensures AllComplete(Next(s, e).value) <==> AllComplete(s) && (e.Publish? ==> AllPrompt(s))
  {
    var t := Next(s, e).value;
    if e.Publish? {
      forall k | k in s.series
        ensures Complete(t.series[k]) <==> Complete(s.series[k]) && Prompt(s.series[k], s.n, s.mark)
      {
        CompleteStep(s.series[k], s.n, s.mark);
      }
    } else {
      var was := if e.key in s.series then s.series[e.key] else Empty;
      assert Complete(t.series[e.key]) <==> Complete(was);
      assert forall k :: k in s.series ==> k in t.series && (Complete(t.series[k]) <==> Complete(s.series[k]));
    }
  }

  lemma {:induction false} CompleteRun(s: Sys, es: seq<Event>)
    requires Inv(s) && Exec(s, es).Some?
    ensures AllComplete(Exec(s, es).value) <==> AllComplete(s) && PromptRun(s, es)
    decreases |es|
  {
    if es != [] {
      InvStep(s, es[0]);
      StepComplete(s, es[0]);
      CompleteRun(Next(s, es[0]).value, es[1..]);
    }
  }

  lemma {:induction false} IncreasingAtLeast(places: seq<nat>, i: nat)
    requires i < |places| && forall a, b :: 0 <= a < b < |places| ==> places[a] < places[b]
    ensures places[i] >= i && places[|places| - 1] >= places[i] + (|places| - 1 - i)
    decreases |places|
  {
    if |places| > 1 {
      var front := places[..|places| - 1];
      if i < |front| {
        IncreasingAtLeast(front, i);
      } else {
        IncreasingAtLeast(front, i - 1);
      }
    }
  }

  /** So many increasing places below `u` leave no gap. */
  lemma IncreasingFull(places: seq<nat>, u: nat)
    requires |places| == u && forall a, b :: 0 <= a < b < u ==> places[a] < places[b]
    requires forall a :: 0 <= a < u ==> places[a] < u
    ensures places == Range(0, u)
  {
    forall i | 0 <= i < u
      ensures places[i] == i
    {
      IncreasingAtLeast(places, i);
    }
  }

  /** Everything published so far, followed by what has arrived since, is all that was added. */
  predicate Delivered(r: Series) {
    r.upto <= |r.all| && r.published + r.all[r.upto..] == r.all
  }

  lemma DeliveredIsComplete(r: Series, n: nat, mark: real)
    requires SeriesInv(r, n, mark) && PublishedInv(r)
    ensures Delivered(r) <==> Complete(r)
  {
    if Complete(r) {
      assert Pick(r.all, r.sent) == r.all[..r.upto];
    } else if Delivered(r) {
      assert |r.sent| + (|r.all| - r.upto) == |r.all|;
      IncreasingFull(r.sent, r.upto);
    }
  }

  /**
   * Exactly-once delivery: for every key, the published lists followed by what arrived since
   * the last publication are everything ever added, if and only if every publication found at most `n` new
   * samples per key, all above the high-water mark.
   */
  lemma ExactlyOnceExactly(n: nat, es: seq<Event>)
    requires Exec(Start(n), es).Some?
    ensures var t := Exec(Start(n), es).value;
            (forall k :: k in t.series ==> Delivered(t.series[k])) <==> PromptRun(Start(n), es)
  {
    InvRun(Start(n), es);
    CompleteRun(Start(n), es);
    var t := Exec(Start(n), es).value;
    forall k | k in t.series
      ensures Delivered(t.series[k]) <==> Complete(t.series[k])
    {
      DeliveredIsComplete(t.series[k], n, t.mark);
    }
  }

  // ----- the losses are real -----------------------------------------------------------------------

  lemma NextMarkOnlyKey(s: Sys, k: Key, values: seq<Sample>, next: real)
    requires s.series.Keys == {k} && values == NewerSuffix(s.series[k].deque, s.mark)
    requires s.mark <= next && forall i :: 0 <= i < |values| ==> values[i].ts <= next
    requires next == s.mark || (values != [] && values[0].ts == next)
    ensures IsNextMark(Retrieved(s), s.mark, next)
  {
    assert Retrieved(s)[k] == values;
  }

  /** One publication of a store with one key. */
  lemma PublishOnlyKey(from: Sys, s: Sys, k: Key, values: seq<Sample>, next: real) returns (t: Sys)
    requires Leads(Next, from, s) && s.series.Keys == {k} && values == NewerSuffix(s.series[k].deque, s.mark)
    requires IsNextMark(Retrieved(s), s.mark, next)
    ensures Leads(Next, from, t) && t.series.Keys == {k} && t.n == s.n && t.mark == next
    ensures var r, q := s.series[k], t.series[k];
            q.deque == r.deque && q.all == r.all && q.published == r.published + values && q.upto == |r.all|
  {
    t := PublishStep(s, k, values, next);
    Onward(Next, from, s, Publish(next), t);
  }

  lemma PublishStep(s: Sys, k: Key, values: seq<Sample>, next: real) returns (t: Sys)
    requires s.series.Keys == {k} && values == NewerSuffix(s.series[k].deque, s.mark)
    requires IsNextMark(Retrieved(s), s.mark, next)
    ensures Next(s, Publish(next)) == Some(t) && t.series.Keys == {k} && t.n == s.n && t.mark == next
    ensures var r, q := s.series[k], t.series[k];
            q.deque == r.deque && q.all == r.all && q.published == r.published + values && q.upto == |r.all|
  {
    t := Next(s, Publish(next)).value;
    assert t.series[k] == PublishOne(s.series[k], s.mark);
  }

  lemma AddOnlyKey(from: Sys, s: Sys, k: Key, x: Sample) returns (t: Sys)
    requires Leads(Next, from, s) && s.series.Keys <= {k}
    ensures Leads(Next, from, t)
    ensures t == s.(series := map[k := AddTo(if k in s.series then s.series[k] else Empty, x, s.n)])
  {
    t := Next(s, Add(k, x)).value;
    Onward(Next, from, s, Add(k, x), t);
  }

  lemma FirstSample(n: nat, k: Key, x: Sample) returns (t: Sys)
    requires n > 0
    ensures Leads(Next, Start(n), t) && t == Sys(n, 0.0, map[k := Series([x], [x], [], 0, 0, [])])
  {
    Stays(Next, Start(n));
    t := AddOnlyKey(Start(n), Start(n), k, x);
    assert [] + [x] == [x];
  }

  lemma FirstPublication(k: Key, x: Sample) returns (t: Sys)
    requires x.ts > 0.0
    ensures Leads(Next, Start(2), t) && t.series.Keys == {k} && t.n == 2 && t.mark == x.ts
    ensures var q := t.series[k]; q.deque == [x] && q.all == [x] && q.published == [x]
  {
    var s := FirstSample(2, k, x);
    assert SuffixStart([x], 0.0) == 0;
    NextMarkOnlyKey(s, k, [x], x.ts);
    t := PublishOnlyKey(Start(2), s, k, [x], x.ts);
  }

  /** A sample with a timestamp at or below the mark is never published: here, one that came late. */
  lemma LateSampleIsLost(k: Key, x: Sample, late: Sample) returns (t: Sys)
    requires 0.0 < x.ts && late.ts <= x.ts
    ensures Leads(Next, Start(2), t) && k in t.series && !Delivered(t.series[k])
    ensures t.series[k].all == [x, late] && t.series[k].upto == 2 && t.series[k].published == [x]
  {
    var s := FirstPublication(k, x);
    var s1 := AddOnlyKey(Start(2), s, k, late);
    assert [x] + [late] == [x, late];
    assert NewerSuffix([x, late], x.ts) == [];
    NextMarkOnlyKey(s1, k, [], x.ts);
    t := PublishOnlyKey(Start(2), s1, k, [], x.ts);
  }

  /** One too many between two publications pushes the oldest out before it is published. */
  lemma CrowdedOutSampleIsLost(k: Key, x: Sample, y: Sample) returns (t: Sys)
    requires y.ts > 0.0
    ensures Leads(Next, Start(1), t) && k in t.series && !Delivered(t.series[k])
    ensures t.series[k].all == [x, y] && t.series[k].upto == 2 && t.series[k].published == [y]
  {
    var s := FirstSample(1, k, x);
    var s1 := AddOnlyKey(Start(1), s, k, y);
    assert [x] + [y] == [x, y] && [x, y][1..] == [y];
    assert SuffixStart([y], 0.0) == 0;
    NextMarkOnlyKey(s1, k, [y], y.ts);
    t := PublishOnlyKey(Start(1), s1, k, [y], y.ts);
  }

  // ----- the objects --------------------------------------------------------------------------------

  class MemoryTimeSeriesDB {
    var db: map<Key, seq<Sample>>
    var numSamples: nat

    constructor ()
      ensures db == map[] && numSamples == 0
    {
      db, numSamples := map[], 0;
    }

    /** `set_policy` on parsed times; `raised` is the policy error. Old samples are dropped. */
    method SetPolicy(frequency: nat, duration: nat) returns (raised: bool)
      modifies this
      ensures raised <==> frequency == 0 || duration == 0
      ensures raised ==> db == old(db) && numSamples == old(numSamples)
      ensures !raised ==> db == map[] && numSamples >= 1
      ensures !raised ==> numSamples * frequency >= duration > (numSamples - 1) * frequency
    {
      raised := frequency == 0 || duration == 0;
      if !raised {
        numSamples := NumSamples(frequency, duration);
        db := map[];
        NumSamplesIsLeast(frequency, duration, numSamples);
        NumSamplesIsLeast(frequency, duration, numSamples - 1);
      }
    }

    method Add(k: Key, x: Sample)
      modifies this`db
      ensures db == old(db)[k := Append(if k in old(db) then old(db)[k] else [], x, numSamples)]
    {
      var series := (if k in db then db[k] else []) + [x];
      if |series| > numSamples {
        series := series[|series| - numSamples..];
      }
      db := db[k := series];
    }

    /** The backwards scan; asking for an unknown key creates an empty series. */
    method GetValuesSince(since: real, k: Key) returns (values: seq<Sample>)
      modifies this`db
      ensures db == if k in old(db) then old(db) else old(db)[k := []]
      ensures values == NewerSuffix(db[k], since)
    {
      if k !in db {
        db := db[k := []];
      }
      var s := db[k];
      values := [];
      var i := |s|;
      while i > 0
        invariant 0 <= i <= |s| && values == s[i..]
        invariant forall j :: i <= j < |s| ==> s[j].ts > since
        decreases i
      {
        if s[i - 1].ts > since {
          values := [s[i - 1]] + values;
        } else {
          StartIs(s, since, i);
          return;
        }
        i := i - 1;
      }
      StartIs(s, since, 0);
    }
  }

  lemma StartIs(s: seq<Sample>, since: real, k: nat)
    requires k <= |s| && (forall j :: k <= j < |s| ==> s[j].ts > since) && (k > 0 ==> s[k - 1].ts <= since)
    ensures SuffixStart(s, since) == k
  {
  }

  class StatsPublisher {
    const tsdb: MemoryTimeSeriesDB
    var lastSeen: real

    constructor (tsdb: MemoryTimeSeriesDB)
      ensures this.tsdb == tsdb && lastSeen == 0.0
    {
      this.tsdb, lastSeen := tsdb, 0.0;
    }

    /** The greatest timestamp of `values` and `latest`. */
    method MaxTime(values: seq<Sample>, latest: real) returns (m: real)
      ensures latest <= m && (forall i :: 0 <= i < |values| ==> values[i].ts <= m)
      ensures m == latest || exists i :: 0 <= i < |values| && values[i].ts == m
    {
      m := latest;
      for i := 0 to |values|
        invariant latest <= m && forall j :: 0 <= j < i ==> values[j].ts <= m
        invariant m == latest || exists j :: 0 <= j < |values| && values[j].ts == m
      {
        if values[i].ts > m {
          m := values[i].ts;
        }
      }
    }

    method Publish() returns (retrieved: map<Key, seq<Sample>>)
      modifies this, tsdb`db
      ensures tsdb.db == old(tsdb.db)
      ensures retrieved == map k | k in tsdb.db :: NewerSuffix(tsdb.db[k], old(lastSeen))
      ensures IsNextMark(retrieved, old(lastSeen), lastSeen)
    {
      retrieved := map[];
      var latest := lastSeen;
      var todo := tsdb.db.Keys;
      while todo != {}
        invariant todo <= tsdb.db.Keys && tsdb.db == old(tsdb.db) && lastSeen == old(lastSeen)
        invariant retrieved == map k | k in tsdb.db && k !in todo :: NewerSuffix(tsdb.db[k], lastSeen)
        invariant IsNextMark(retrieved, lastSeen, latest)
        decreases todo
      {
        var k :| k in todo;
        var values := tsdb.GetValuesSince(lastSeen, k);
        var m := MaxTime(values, latest);
        MarkGrows(retrieved, lastSeen, latest, k, values, m);
        retrieved := retrieved[k := values];
        latest := m;
        todo := todo - {k};
      }
      lastSeen := latest;
    }
  }

  lemma MarkGrows(done: map<Key, seq<Sample>>, mark: real, latest: real, k: Key, values: seq<Sample>, m: real)
    requires IsNextMark(done, mark, latest) && k !in done
    requires latest <= m && forall i :: 0 <= i < |values| ==> values[i].ts <= m
    requires m == latest || exists i :: 0 <= i < |values| && values[i].ts == m
    ensures IsNextMark(done[k := values], mark, m)
  {
    var more: map<Key, seq<Sample>> := done[k := values];
    if m != latest {
      var i :| 0 <= i < |values| && values[i].ts == m;
      assert more[k][i].ts == m;
    } else if latest != mark {
      var j, i :| j in done && 0 <= i < |done[j]| && done[j][i].ts == latest;
      assert more[j][i].ts == m;
    }
  }
}
