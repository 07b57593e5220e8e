/**
 The in-memory sliding-window limiter and its background sweeper (common/rate-limit.go).

 `InMemoryRateLimiter` keeps a queue of admission times per key and updates it in place. Runs are
 sequences of requests and sweeps at non-decreasing times, each key with its own fixed limit.
*/
module RateLimit {
  import opened Options

  type Store = map<string, seq<int>>

  /** At most `max` admissions in any `duration` seconds. */
  datatype Limit = Limit(max: int, duration: int)

  /** The answer to a request, with the retry hint in seconds. */
  datatype Answer = Answer(allowed: bool, wait: int)

  function Lookup(st: Store, key: string): Option<seq<int>> {
    if key in st then Some(st[key]) else None
  }

  /** One request against a key's queue, oldest admission first. */
  function Request(q: Option<seq<int>>, lim: Limit, now: int): (Option<seq<int>>, Answer) {
    if lim.max <= 0 then (q, Answer(true, 0))
    else if q.None? then (Some([now]), Answer(true, 0))
    else if |q.value| < lim.max then (Some(q.value + [now]), Answer(true, 0))
    else if now - q.value[0] >= lim.duration then (Some(q.value[1..] + [now]), Answer(true, 0))
    else
      var wait := lim.duration - (now - q.value[0]);
      (q, Answer(false, if wait < 1 then 1 else wait))
  }

  function RequestOn(st: Store, key: string, lim: Limit, now: int): (Store, Answer) {
    var (q, answer) := Request(Lookup(st, key), lim, now);
    (if q.Some? then st[key := q.value] else st, answer)
  }

  /** The sweeper drops a queue whose newest admission is more than `interval` seconds old. */
  predicate Stale(q: seq<int>, interval: int, now: int) {
    |q| == 0 || now - q[|q| - 1] > interval
  }

  function Sweep(st: Store, interval: int, now: int): Store {
    map key | key in st && !Stale(st[key], interval, now) :: st[key]
  }

  class InMemoryRateLimiter {
    var store: Store
    const interval: int  // the sweep interval in whole seconds

    constructor (interval: int)
      ensures store == map[] && this.interval == interval
    {
      store := map[];
      this.interval := interval;
    }

    method RequestWithRetry(key: string, lim: Limit, now: int) returns (answer: Answer)
      modifies this
      ensures (store, answer) == RequestOn(old(store), key, lim, now)
    {
      if lim.max <= 0 {
        assert key in store ==> store[key := store[key]] == store;
        return Answer(true, 0);
      }
      if key in store {
        var queue := store[key];
        if |queue| < lim.max {
          store := store[key := queue + [now]];
          return Answer(true, 0);
        } else if now - queue[0] >= lim.duration {
          store := store[key := queue[1..] + [now]];
          return Answer(true, 0);
        } else {
          var wait := lim.duration - (now - queue[0]);
          if wait < 1 {
            wait := 1;
          }
          assert old(store)[key := queue] == old(store);
          return Answer(false, wait);
        }
      }
      var queue: seq<int> := [];
      store := store[key := queue];
      store := store[key := store[key] + [now]];
      assert queue + [now] == [now];
      assert store == old(store)[key := [now]];
      return Answer(true, 0);
    }

    /** Allow only looks, and predicts what a request at the same instant would be answered. */
    method Allow(key: string, lim: Limit, now: int) returns (allowed: bool)
      ensures allowed == RequestOn(store, key, lim, now).1.allowed
    {
      if lim.max <= 0 {
        return true;
      }
      if key !in store || |store[key]| < lim.max {
        return true;
      }
      return now - store[key][0] >= lim.duration;
    }

    /** One tick of clearExpiredItems, visiting the keys in any order. */
    method ClearExpired(now: int)
      modifies this
      ensures store == Sweep(old(store), interval, now)
    {
      var keys := store.Keys;
      while keys != {}
        invariant keys <= store.Keys
        invariant forall key :: key in store ==> key in old(store) && store[key] == old(store)[key]
        invariant forall key :: key in store && key !in keys ==> key in Sweep(old(store), interval, now)
        invariant forall key :: key in Sweep(old(store), interval, now) ==> key in store
        decreases |keys|
      {
        var key :| key in keys;
        if Stale(store[key], interval, now) {
          store := store - {key};
        }
        keys := keys - {key};
      }
    }
  }

  // ----- Runs

  datatype Event = Ask(key: string, now: int) | Tick(now: int)

  /** The clock does not go back. */
  predicate Timed(evs: seq<Event>) {
    forall i, j :: 0 <= i < j < |evs| ==> evs[i].now <= evs[j].now
  }

  /** The store after a run; with `interval` None the sweeper never runs. */
  function After(limits: string -> Limit, interval: Option<int>, evs: seq<Event>): Store {
    if evs == [] then map[]
    else
      var st := After(limits, interval, evs[..|evs| - 1]);
      match evs[|evs| - 1]
      case Ask(key, now) => RequestOn(st, key, limits(key), now).0
      case Tick(now) => if interval.Some? then Sweep(st, interval.value, now) else st
  }

  /** What the i-th event, a request, is answered. */
  function AnswerAt(limits: string -> Limit, interval: Option<int>, evs: seq<Event>, i: nat): Answer
    requires i < |evs| && evs[i].Ask?
  {
    RequestOn(After(limits, interval, evs[..i]), evs[i].key, limits(evs[i].key), evs[i].now).1
  }

  // ----- The swept limiter simulates the one that is never swept

  function Queue(q: Option<seq<int>>): seq<int> {
    if q.Some? then q.value else []
  }

  /** Queues are non-empty, ordered, not in the future and no longer than the limit. */
  predicate Ordered(q: Option<seq<int>>, lim: Limit, now: int) {
    && (q.Some? ==> 0 < |q.value| <= lim.max)
    && (forall i, j :: 0 <= i < j < |Queue(q)| ==> Queue(q)[i] <= Queue(q)[j])
    && (forall i :: 0 <= i < |Queue(q)| ==> Queue(q)[i] <= now)
  }

  /** The swept queue is the unswept one without a prefix of expired admissions. */
  ghost predicate Similar(unswept: Option<seq<int>>, swept: Option<seq<int>>, lim: Limit, now: int) {
    && Ordered(unswept, lim, now)
    && (swept.Some? ==> swept.value != [])
    && exists n :: DropsExpired(Queue(unswept), Queue(swept), n, lim.duration, now)
  }

  predicate DropsExpired(u: seq<int>, s: seq<int>, n: int, duration: int, now: int) {
    0 <= n <= |u| && s == u[n..] && forall i :: 0 <= i < n ==> now - u[i] >= duration
  }

  lemma SimilarLater(u: Option<seq<int>>, s: Option<seq<int>>, lim: Limit, now: int, later: int)
    requires Similar(u, s, lim, now) && now <= later
    ensures Similar(u, s, lim, later)
  {
    var n :| DropsExpired(Queue(u), Queue(s), n, lim.duration, now);
    assert DropsExpired(Queue(u), Queue(s), n, lim.duration, later);
  }

  lemma SimilarAnswers(u: Option<seq<int>>, s: Option<seq<int>>, lim: Limit, now: int)
    requires Similar(u, s, lim, now)
    ensures Request(u, lim, now).1 == Request(s, lim, now).1
  {
  }

  lemma RequestDrops(u: seq<int>, s: seq<int>, n: int, lim: Limit, now: int)
    requires DropsExpired(u, s, n, lim.duration, now)
    ensures DropsExpired(u + [now], s + [now], n, lim.duration, now)
    ensures n > 0 ==> DropsExpired(u[1..] + [now], s + [now], n - 1, lim.duration, now)
    ensures n == 0 && u != [] ==> DropsExpired(u[1..] + [now], s[1..] + [now], 0, lim.duration, now)
  {
    assert (u + [now])[n..] == s + [now];
    if n > 0 {
      assert (u[1..] + [now])[n - 1..] == s + [now];
    }
  }

  lemma OrderedRequest(u: Option<seq<int>>, lim: Limit, now: int)
    requires Ordered(u, lim, now)
    ensures Ordered(Request(u, lim, now).0, lim, now)
  {
    var a, b := Queue(u), Queue(Request(u, lim, now).0);
    assert b == a || b == a + [now] || (a != [] && b == a[1..] + [now]);
  }

  lemma SimilarRequest(u: Option<seq<int>>, s: Option<seq<int>>, lim: Limit, now: int)
    requires Similar(u, s, lim, now)
    ensures Similar(Request(u, lim, now).0, Request(s, lim, now).0, lim, now)
  {
    var n :| DropsExpired(Queue(u), Queue(s), n, lim.duration, now);
    var u', s' := Queue(Request(u, lim, now).0), Queue(Request(s, lim, now).0);
    OrderedRequest(u, lim, now);
    var drop := if Request(u, lim, now).1.allowed && |Queue(u)| == lim.max && n > 0 then n - 1 else n;
    RequestDrops(Queue(u), Queue(s), n, lim, now);
    assert DropsExpired(u', s', drop, lim.duration, now);
  }

  lemma SimilarSweep(u: Option<seq<int>>, s: seq<int>, lim: Limit, interval: int, now: int)
    requires Similar(u, Some(s), lim, now) && Stale(s, interval, now)
    requires lim.duration <= interval + 1
    ensures Similar(u, None, lim, now)
  {
    var n :| DropsExpired(Queue(u), s, n, lim.duration, now);
    assert forall i :: n <= i < |Queue(u)| ==> Queue(u)[i] <= Queue(u)[|Queue(u)| - 1] == s[|s| - 1];
    assert DropsExpired(Queue(u), Queue(None), |Queue(u)|, lim.duration, now);
  }

  /** The sweeper keeps out of the way of a key whose limit it can outlast. */
  predicate Outlasts(interval: int, lim: Limit) {
    lim.max > 0 ==> lim.duration <= interval + 1
  }

  lemma {:induction false} RunsSimilar(limits: string -> Limit, interval: int, evs: seq<Event>, key: string, now: int)
    requires Timed(evs) && Outlasts(interval, limits(key))
    requires forall ev :: ev in evs ==> ev.now <= now
    ensures Similar(Lookup(After(limits, None, evs), key), Lookup(After(limits, Some(interval), evs), key),
                    limits(key), now)
  {
    var lim := limits(key);
    if evs == [] {
      assert DropsExpired(Queue(None), Queue(None), 0, lim.duration, now);
    } else {
      var before, ev := evs[..|evs| - 1], evs[|evs| - 1];
      RunsSimilar(limits, interval, before, key, ev.now);
      var u, s := Lookup(After(limits, None, before), key), Lookup(After(limits, Some(interval), before), key);
      if ev.Ask? && ev.key == key {
        SimilarRequest(u, s, lim, ev.now);
      } else if ev.Tick? && s.Some? && Stale(s.value, interval, ev.now) {
        if lim.max > 0 {
          SimilarSweep(u, s.value, lim, interval, ev.now);
        }
      }
      SimilarLater(Lookup(After(limits, None, evs), key), Lookup(After(limits, Some(interval), evs), key),
                   lim, ev.now, now);
    }
  }

  ghost predicate SameAnswers(limits: string -> Limit, interval: int, evs: seq<Event>, key: string) {
    forall i :: 0 <= i < |evs| && evs[i].Ask? && evs[i].key == key ==>
      AnswerAt(limits, Some(interval), evs, i) == AnswerAt(limits, None, evs, i)
  }

  lemma SweepsInvisible(limits: string -> Limit, interval: int, evs: seq<Event>, key: string)
    requires Timed(evs) && Outlasts(interval, limits(key))
    ensures SameAnswers(limits, interval, evs, key)
  {
    forall i | 0 <= i < |evs| && evs[i].Ask? && evs[i].key == key
      ensures AnswerAt(limits, Some(interval), evs, i) == AnswerAt(limits, None, evs, i)
    {
      RunsSimilar(limits, interval, evs[..i], key, evs[i].now);
      SimilarAnswers(Lookup(After(limits, None, evs[..i]), key),
                     Lookup(After(limits, Some(interval), evs[..i]), key), limits(key), evs[i].now);
    }
  }

  /** `n` requests for a key at time 0. */
  function Burst(key: string, n: nat): seq<Event> {
    seq(n, _ => Ask(key, 0))
  }

  lemma {:induction false} BurstFills(limits: string -> Limit, interval: Option<int>, key: string, n: nat)
    requires 0 < n <= limits(key).max
    ensures Lookup(After(limits, interval, Burst(key, n)), key) == Some(seq(n, _ => 0))
  {
    assert Burst(key, n)[..n - 1] == Burst(key, n - 1);
    if n == 1 {
      assert After(limits, interval, Burst(key, 0)) == map[];
    } else {
      BurstFills(limits, interval, key, n - 1);
    }
    assert Queue(Lookup(After(limits, interval, Burst(key, n)), key)) == seq(n, _ => 0);
  }

  /**
   With sweeps at arbitrary moments a key is answered as if there were no sweeper, on every run,
   exactly when its duration is at most one second more than the sweep interval. (The rule beside
   the configuration, duration at most the interval, is one second on the safe side.)
  */
  lemma SweepsInvisibleIff(limits: string -> Limit, interval: nat, key: string)
    ensures (forall evs :: Timed(evs) ==> SameAnswers(limits, interval, evs, key)) <==> Outlasts(interval, limits(key))
  {
    if Outlasts(interval, limits(key)) {
      forall evs | Timed(evs)
        ensures SameAnswers(limits, interval, evs, key)
      {
        SweepsInvisible(limits, interval, evs, key);
      }
    } else {
      SweepForgets(limits, interval, key);
    }
  }

  lemma SweepForgets(limits: string -> Limit, interval: nat, key: string)
    requires !Outlasts(interval, limits(key))
    ensures exists evs :: Timed(evs) && !SameAnswers(limits, interval, evs, key)
  {
    var n := limits(key).max;
    var evs := Overrun(key, n, interval + 1);
    OverrunIsAdmitted(limits, interval, key);
    BurstFills(limits, None, key, n);
    assert evs[..n + 1][..n] == Burst(key, n);
    assert !AnswerAt(limits, None, evs, n + 1).allowed;
    assert Timed(evs) && evs[n + 1].Ask? && evs[n + 1].key == key;
  }

  /** A burst, a sweep just late enough to drop the queue, and one more request. */
  function Overrun(key: string, n: nat, t: int): seq<Event> {
    Burst(key, n) + [Tick(t), Ask(key, t)]
  }

  lemma OverrunIsAdmitted(limits: string -> Limit, interval: nat, key: string)
    requires limits(key).max > 0
    ensures var n := limits(key).max; AnswerAt(limits, Some(interval), Overrun(key, n, interval + 1), n + 1).allowed
  {
    var n := limits(key).max;
    var evs := Overrun(key, n, interval + 1);
    BurstFills(limits, Some(interval), key, n);
    assert evs[..n + 1][..n] == Burst(key, n);
    assert key !in After(limits, Some(interval), evs[..n + 1]);
  }

  // ----- The window bound

  /** The times at which requests of `key` were admitted. */
  function Admitted(limits: string -> Limit, interval: Option<int>, evs: seq<Event>, key: string): seq<int> {
    if evs == [] then []
    else
      var n := |evs| - 1;
      var before := Admitted(limits, interval, evs[..n], key);
      if evs[n].Ask? && evs[n].key == key && AnswerAt(limits, interval, evs, n).allowed then before + [evs[n].now]
      else before
  }

  /** Admissions that are `max` apart in the list are at least `duration` apart in time. */
  predicate Spaced(adm: seq<int>, lim: Limit) {
    && (forall i, j :: 0 <= i < j < |adm| ==> adm[i] <= adm[j])
    && (forall i, j :: 0 <= i < j < |adm| && i + lim.max <= j ==> adm[j] - adm[i] >= lim.duration)
  }

  /** Without sweeps the queue is the last `max` admissions. */
  lemma {:induction false} QueueIsLastAdmissions(limits: string -> Limit, evs: seq<Event>, key: string, now: int)
    requires Timed(evs) && limits(key).max > 0
    requires forall ev :: ev in evs ==> ev.now <= now
    ensures LastAdmissions(Lookup(After(limits, None, evs), key), Admitted(limits, None, evs, key), limits(key), now)
  {
    if evs != [] {
      var n := |evs| - 1;
      QueueIsLastAdmissions(limits, evs[..n], key, evs[n].now);
      AfterLastEvent(limits, evs, key);
      LastAdmissionsLater(Lookup(After(limits, None, evs), key), Admitted(limits, None, evs, key),
                          limits(key), evs[n].now, now);
    }
  }

  lemma AfterLastEvent(limits: string -> Limit, evs: seq<Event>, key: string)
    requires evs != []
    requires var n := |evs| - 1;
      LastAdmissions(Lookup(After(limits, None, evs[..n]), key), Admitted(limits, None, evs[..n], key),
                     limits(key), evs[n].now)
    ensures var n := |evs| - 1;
      LastAdmissions(Lookup(After(limits, None, evs), key), Admitted(limits, None, evs, key), limits(key), evs[n].now)
  {
    var ev, before := evs[|evs| - 1], evs[..|evs| - 1];
    LastEventEffect(limits, evs, key);
    if ev.Ask? && ev.key == key {
      AdmissionStep(Lookup(After(limits, None, before), key), Admitted(limits, None, before, key), limits(key), ev.now);
    }
  }

  lemma LastEventEffect(limits: string -> Limit, evs: seq<Event>, key: string)
    requires evs != []
    ensures var ev, before := evs[|evs| - 1], evs[..|evs| - 1];
      var q, adm := Lookup(After(limits, None, before), key), Admitted(limits, None, before, key);
      var (q', answer) := Request(q, limits(key), ev.now);
      if ev.Ask? && ev.key == key
      then Lookup(After(limits, None, evs), key) == q'
           && Admitted(limits, None, evs, key) == if answer.allowed then adm + [ev.now] else adm
      else Lookup(After(limits, None, evs), key) == q && Admitted(limits, None, evs, key) == adm
  {
  }

  ghost predicate LastAdmissions(q: Option<seq<int>>, adm: seq<int>, lim: Limit, now: int) {
    && lim.max > 0
    && Spaced(adm, lim) && (forall i :: 0 <= i < |adm| ==> adm[i] <= now)
    && (q.Some? ==> q.value != [])
    && Queue(q) == if |adm| <= lim.max then adm else adm[|adm| - lim.max..]
  }

  lemma LastAdmissionsLater(q: Option<seq<int>>, adm: seq<int>, lim: Limit, now: int, later: int)
    requires LastAdmissions(q, adm, lim, now) && now <= later
    ensures LastAdmissions(q, adm, lim, later)
  {
  }

  lemma AdmissionStep(q: Option<seq<int>>, adm: seq<int>, lim: Limit, now: int)
    requires LastAdmissions(q, adm, lim, now)
    ensures var (q', answer) := Request(q, lim, now);
            LastAdmissions(q', if answer.allowed then adm + [now] else adm, lim, now)
  {
    var (q', answer) := Request(q, lim, now);
    if answer.allowed && |adm| >= lim.max {
      var adm' := adm + [now];
      assert Queue(q') == adm'[|adm'| - lim.max..];
      assert Queue(q)[0] == adm[|adm| - lim.max];
      SpacedAppend(adm, lim, now);
    }
  }

  lemma SpacedAppend(adm: seq<int>, lim: Limit, now: int)
    requires 0 < lim.max <= |adm| && Spaced(adm, lim) && now - adm[|adm| - lim.max] >= lim.duration
    requires forall i :: 0 <= i < |adm| ==> adm[i] <= now
    ensures Spaced(adm + [now], lim)
  {
    var adm' := adm + [now];
    forall i, j | 0 <= i < j < |adm'| && i + lim.max <= j
      ensures adm'[j] - adm'[i] >= lim.duration
    {
      assert adm'[i] <= adm[|adm| - lim.max];
    }
  }

  lemma {:induction false} SameAdmissions(limits: string -> Limit, interval: int, evs: seq<Event>, key: string)
    requires Timed(evs) && Outlasts(interval, limits(key))
    ensures Admitted(limits, Some(interval), evs, key) == Admitted(limits, None, evs, key)
  {
    if evs != [] {
      SameAdmissions(limits, interval, evs[..|evs| - 1], key);
      SweepsInvisible(limits, interval, evs, key);
    }
  }

  /** How many of the admissions fall in the half-open window of `duration` seconds from `t`. */
  function InWindow(adm: seq<int>, t: int, duration: int): set<int> {
    set i | 0 <= i < |adm| && t <= adm[i] < t + duration
  }

  function Range(lo: int, n: nat): (r: set<int>)
    ensures |r| == n && forall i :: i in r <==> lo <= i < lo + n
  {
    if n == 0 then {} else Range(lo, n - 1) + {lo + n - 1}
  }

  lemma SubsetSize(a: set<int>, b: set<int>)
    requires a <= b
    ensures |a| <= |b|
  {
    assert b == a + (b - a);
  }

  lemma SpacedWindow(adm: seq<int>, lim: Limit, t: int)
    requires Spaced(adm, lim) && lim.max > 0
    ensures |InWindow(adm, t, lim.duration)| <= lim.max
  {
    var win := InWindow(adm, t, lim.duration);
    if win != {} {
      var lo := First(adm, t, lim.duration);
      SubsetSize(win, Range(lo, lim.max));
    }
  }

  lemma First(adm: seq<int>, t: int, duration: int) returns (lo: int)
    requires InWindow(adm, t, duration) != {}
    ensures lo in InWindow(adm, t, duration) && forall i :: i in InWindow(adm, t, duration) ==> lo <= i
  {
    lo := 0;
    while lo !in InWindow(adm, t, duration)
      invariant 0 <= lo && forall i :: i in InWindow(adm, t, duration) ==> lo <= i
      decreases |adm| - lo
    {
      lo := lo + 1;
    }
  }

  /** Over every run with sweeps, no window of `duration` seconds holds more than `max` admissions. */
  lemma WindowBound(limits: string -> Limit, interval: int, evs: seq<Event>, key: string, t: int)
    requires Timed(evs) && limits(key).max > 0 && limits(key).duration <= interval + 1
    ensures |InWindow(Admitted(limits, Some(interval), evs, key), t, limits(key).duration)| <= limits(key).max
  {
    SameAdmissions(limits, interval, evs, key);
    var now := if evs == [] then 0 else evs[|evs| - 1].now;
    QueueIsLastAdmissions(limits, evs, key, now);
    SpacedWindow(Admitted(limits, None, evs, key), limits(key), t);
  }

  ghost predicate Bounded(limits: string -> Limit, interval: int, evs: seq<Event>, key: string) {
    forall t :: |InWindow(Admitted(limits, Some(interval), evs, key), t, limits(key).duration)| <= limits(key).max
  }

  /** Every run keeps the bound, exactly when the sweeps are invisible. */
  lemma WindowBoundIff(limits: string -> Limit, interval: nat, key: string)
    requires limits(key).max > 0
    ensures (forall evs :: Timed(evs) ==> Bounded(limits, interval, evs, key)) <==> limits(key).duration <= interval + 1
  {
    if limits(key).duration <= interval + 1 {
      forall evs | Timed(evs)
        ensures Bounded(limits, interval, evs, key)
      {
        forall t
          ensures |InWindow(Admitted(limits, Some(interval), evs, key), t, limits(key).duration)| <= limits(key).max
        {
          WindowBound(limits, interval, evs, key, t);
        }
      }
    } else {
      OverrunBreaksBound(limits, interval, key);
    }
  }

  lemma OverrunBreaksBound(limits: string -> Limit, interval: nat, key: string)
    requires limits(key).max > 0 && limits(key).duration > interval + 1
    ensures exists evs :: Timed(evs) && !Bounded(limits, interval, evs, key)
  {
    var n, t := limits(key).max, interval + 1;
    var evs := Overrun(key, n, t);
    OverrunAdmissions(limits, interval, key);
    var adm := Admitted(limits, Some(interval), evs, key);
    SubsetSize(Range(0, n + 1), InWindow(adm, 0, limits(key).duration));
    assert Timed(evs);
  }

  lemma OverrunAdmissions(limits: string -> Limit, interval: nat, key: string)
    requires limits(key).max > 0
    ensures var n := limits(key).max;
      Admitted(limits, Some(interval), Overrun(key, n, interval + 1), key) == seq(n, _ => 0) + [interval + 1]
  {
    var n := limits(key).max;
    var evs := Overrun(key, n, interval + 1);
    var swept := Burst(key, n) + [Tick(interval + 1)];
    assert evs[..|evs| - 1] == swept && swept[..|swept| - 1] == Burst(key, n);
    BurstIsAdmitted(limits, interval, key, n);
    assert Admitted(limits, Some(interval), swept, key) == seq(n, _ => 0);
    OverrunIsAdmitted(limits, interval, key);
  }

  lemma {:induction false} BurstIsAdmitted(limits: string -> Limit, interval: nat, key: string, n: nat)
    requires n <= limits(key).max
    ensures Admitted(limits, Some(interval), Burst(key, n), key) == seq(n, _ => 0)
  {
    if n > 0 {
      assert Burst(key, n)[..n - 1] == Burst(key, n - 1);
      if n > 1 {
        BurstFills(limits, Some(interval), key, n - 1);
      }
      BurstIsAdmitted(limits, interval, key, n - 1);
    }
  }

  // ----- When a request is admitted

  /** The admissions less than `duration` seconds ago. */
  function Recent(adm: seq<int>, now: int, duration: int): set<int> {
    set i | 0 <= i < |adm| && now - adm[i] < duration
  }

  lemma FewRecent(q: Option<seq<int>>, adm: seq<int>, lim: Limit, now: int)
    requires LastAdmissions(q, adm, lim, now)
    ensures Request(q, lim, now).1.allowed <==> |Recent(adm, now, lim.duration)| < lim.max
  {
    var recent, n := Recent(adm, now, lim.duration), |adm| - lim.max;
    if n < 0 {
      SubsetSize(recent, Range(0, |adm|));
    } else if now - adm[n] >= lim.duration {
      SubsetSize(recent, Range(n + 1, lim.max - 1));
    } else {
      SubsetSize(Range(n, lim.max), recent);
    }
  }

  /**
   In every run with sweeps a request is admitted exactly when less than `max` admissions of its key
   lie less than `duration` seconds back: none too many, and none refused without need.
  */
  lemma AdmittedIff(limits: string -> Limit, interval: int, evs: seq<Event>, i: nat)
    requires Timed(evs) && i < |evs| && evs[i].Ask?
    requires var lim := limits(evs[i].key); lim.max > 0 && lim.duration <= interval + 1
    ensures var key, lim := evs[i].key, limits(evs[i].key);
      AnswerAt(limits, Some(interval), evs, i).allowed <==>
        |Recent(Admitted(limits, Some(interval), evs[..i], key), evs[i].now, lim.duration)| < lim.max
    ensures AnswerAt(limits, Some(interval), evs, i).allowed ==> AnswerAt(limits, Some(interval), evs, i).wait == 0
  {
    var key, now := evs[i].key, evs[i].now;
    SweepsInvisible(limits, interval, evs, key);
    SameAdmissions(limits, interval, evs[..i], key);
    QueueIsLastAdmissions(limits, evs[..i], key, now);
    FewRecent(Lookup(After(limits, None, evs[..i]), key), Admitted(limits, None, evs[..i], key), limits(key), now);
  }

  /** A limit of zero or less admits every request, in every run and with any sweeper, and keeps no queue. */
  lemma {:induction false} UnlimitedAdmitsAll(limits: string -> Limit, interval: Option<int>, evs: seq<Event>,
                                              key: string)
    requires limits(key).max <= 0
    ensures key !in After(limits, interval, evs)
    ensures forall i :: 0 <= i < |evs| && evs[i].Ask? && evs[i].key == key ==>
      AnswerAt(limits, interval, evs, i) == Answer(true, 0)
  {
    if evs != [] {
      UnlimitedAdmitsAll(limits, interval, evs[..|evs| - 1], key);
    }
  }

  // ----- The retry hint

  lemma {:induction false} QuietQueue(limits: string -> Limit, evs: seq<Event>, n: nat, key: string)
    requires n <= |evs|
    requires forall i :: n <= i < |evs| && evs[i].Ask? && evs[i].key == key ==> !AnswerAt(limits, None, evs, i).allowed
    ensures Lookup(After(limits, None, evs), key) == Lookup(After(limits, None, evs[..n]), key)
  {
    if n < |evs| {
      var before := evs[..|evs| - 1];
      forall i | n <= i < |before| && before[i].Ask? && before[i].key == key
        ensures !AnswerAt(limits, None, before, i).allowed
      {
        assert before[..i] == evs[..i];
      }
      QuietQueue(limits, before, n, key);
      assert before[..n] == evs[..n];
      assert evs[..|evs| - 1] == before;
    } else {
      assert evs[..n] == evs;
    }
  }

  /**
   The hint is exact: after a rejection at event `r`, and as long as no request of the key is
   admitted in between, a later request is admitted exactly from the hinted second on, whatever
   sweeps and rejected requests come in between.
  */
  lemma RetryHintExact(limits: string -> Limit, interval: int, evs: seq<Event>, r: nat, last: nat)
    requires Timed(evs) && r < last < |evs| && evs[r].Ask? && evs[last].Ask? && evs[r].key == evs[last].key
    requires Outlasts(interval, limits(evs[r].key))
    requires !AnswerAt(limits, Some(interval), evs, r).allowed
    requires forall i :: r < i < last && evs[i].Ask? && evs[i].key == evs[r].key ==>
               !AnswerAt(limits, Some(interval), evs, i).allowed
    ensures AnswerAt(limits, Some(interval), evs, last).allowed <==>
            evs[last].now >= evs[r].now + AnswerAt(limits, Some(interval), evs, r).wait
  {
    var key := evs[r].key;
    SweepsInvisible(limits, interval, evs, key);
    forall i | r <= i < last && evs[..last][i].Ask? && evs[..last][i].key == key
      ensures !AnswerAt(limits, None, evs[..last], i).allowed
    {
      assert evs[..last][..i] == evs[..i];
    }
    QuietQueue(limits, evs[..last], r, key);
    assert evs[..last][..r] == evs[..r];
  }
}
