/**
 The sliding-window limiter of public mutations: one bucket of admission times per client key, a
 shared overflow bucket once there are too many keys, and a periodic cleanup of stale buckets.
 */
module RateLimiting {
  import opened Common

  const OVERFLOW := "__overflow__"

  datatype Settings = Settings(limit: nat, window: real, maxKeys: nat)

  predicate Sensible(g: Settings) {
    g.limit >= 1 && g.window > 0.0
  }

  type Buckets = map<string, seq<real>>

  datatype State = State(requests: Buckets, lastCleanup: real)

  datatype Call = Call(key: string, now: real)

  datatype Verdict = Allowed | Denied(retryAfter: int)

  function TimesOf(m: Buckets, key: string): seq<real> {
    if key in m then m[key] else []
  }

  /** What is left of a bucket after dropping its stale head. */
  function Live(times: seq<real>, cutoff: real): seq<real> {
    if times != [] && times[0] <= cutoff then Live(times[1..], cutoff) else times
  }

  function Cleaned(m: Buckets, cutoff: real): Buckets {
    map key | key in m && Live(m[key], cutoff) != [] :: Live(m[key], cutoff)
  }

  function Swept(s: State, now: real, g: Settings): State {
    if now - s.lastCleanup >= g.window then State(Cleaned(s.requests, now - g.window), now) else s
  }

  /** Unknown clients share the overflow bucket when there is no room for another one. */
  function BucketFor(m: Buckets, key: string, maxKeys: nat, overflow: string): string {
    if key !in m && |m| >= maxKeys then overflow else key
  }

  function BucketOf(s: State, c: Call, g: Settings): string {
    BucketFor(Swept(s, c.now, g).requests, c.key, g.maxKeys, OVERFLOW)
  }

  function RetryAfter(live: seq<real>, now: real, g: Settings): int
    requires live != []
  {
    Max(1, (g.window - (now - live[0])).Floor)
  }

  function Judge(s: State, c: Call, g: Settings): (State, Verdict)
    requires Sensible(g)
  {
    var swept := Swept(s, c.now, g);
    var bucket := BucketFor(swept.requests, c.key, g.maxKeys, OVERFLOW);
    var live := Live(TimesOf(swept.requests, bucket), c.now - g.window);
    if |live| >= g.limit then
      (swept.(requests := swept.requests[bucket := live]), Denied(RetryAfter(live, c.now, g)))
    else
      (swept.(requests := swept.requests[bucket := live + [c.now]]), Allowed)
  }

  // ---------------------------------------------------------------- the limiter in place

  class MutationRateLimiter {
    const settings: Settings
    var requests: Buckets
    var lastCleanup: real

    constructor (settings: Settings)
      requires Sensible(settings)
      ensures this.settings == settings && View() == Start()
    {
      this.settings := settings;
      requests := map[];
      lastCleanup := 0.0;
    }

    function View(): State
      reads this
    {
      State(requests, lastCleanup)
    }

    method DropStale(key: string, cutoff: real)
      requires key in requests
      modifies this`requests
      ensures requests == old(requests)[key := Live(old(requests[key]), cutoff)]
    {
      while requests[key] != [] && requests[key][0] <= cutoff
        invariant key in requests
        invariant Live(requests[key], cutoff) == Live(old(requests[key]), cutoff)
        invariant requests == old(requests)[key := requests[key]]
        decreases |requests[key]|
      {
        requests := requests[key := requests[key][1..]];
      }
    }

    method Cleanup(cutoff: real)
      modifies this`requests
      ensures requests == Cleaned(old(requests), cutoff)
    {
      var keys := requests.Keys;
      while keys != {}
        invariant keys <= requests.Keys <= old(requests).Keys
        invariant forall k | k in keys :: requests[k] == old(requests)[k]
        invariant forall k | k in old(requests) && k !in keys ::
                    k in requests <==> Live(old(requests)[k], cutoff) != []
        invariant forall k | k in requests && k !in keys :: requests[k] == Live(old(requests)[k], cutoff)
        decreases |keys|
      {
        var key :| key in keys;
        keys := keys - {key};
        DropStale(key, cutoff);
        if requests[key] == [] {
          requests := requests - {key};
        }
      }
    }

    /** A missing bucket springs into existence when it is first looked at. */
    method Refresh(bucket: string, cutoff: real)
      modifies this`requests
      ensures requests == old(requests)[bucket := Live(TimesOf(old(requests), bucket), cutoff)]
    {
      if bucket !in requests {
        requests := requests[bucket := []];
      }
      DropStale(bucket, cutoff);
    }

    method Sweep(now: real)
      modifies this
      ensures View() == Swept(old(View()), now, settings)
    {
      if now - lastCleanup >= settings.window {
        Cleanup(now - settings.window);
        lastCleanup := now;
      }
    }

    method Allow(key: string, now: real) returns (allowed: bool, retryAfter: int)
      requires Sensible(settings)
      modifies this
      ensures (View(), if allowed then Allowed else Denied(retryAfter)) == Judge(old(View()), Call(key, now), settings)
      ensures allowed ==> retryAfter == 0
    {
      Sweep(now);
      var bucket := key;
      if key !in requests && |requests| >= settings.maxKeys {
        bucket := OVERFLOW;
      }
      ghost var swept := requests;
      Refresh(bucket, now - settings.window);
      var live := requests[bucket];
      if |live| >= settings.limit {
        return false, RetryAfter(live, now, settings);
      }
      assert requests[bucket := live + [now]] == swept[bucket := live + [now]];
      requests := requests[bucket := live + [now]];
      return true, 0;
    }
  }

  // ---------------------------------------------------------------- whole runs

  function Start(): State {
    State(map[], 0.0)
  }

  function After(calls: seq<Call>, g: Settings): State
    requires Sensible(g)
  {
    if calls == [] then Start() else Judge(After(calls[..|calls| - 1], g), calls[|calls| - 1], g).0
  }

  /** Every admission that a bucket has ever made. */
  function Admitted(calls: seq<Call>, bucket: string, g: Settings): seq<real>
    requires Sensible(g)
  {
    if calls == [] then []
    else
      var before, c := calls[..|calls| - 1], calls[|calls| - 1];
      var s := After(before, g);
      if BucketOf(s, c, g) == bucket && Judge(s, c, g).1.Allowed? then Admitted(before, bucket, g) + [c.now]
      else Admitted(before, bucket, g)
  }

  /** Time never runs backwards. */
  ghost predicate Monotone(calls: seq<Call>) {
    forall i, j | 0 <= i < j < |calls| :: calls[i].now <= calls[j].now
  }

  ghost predicate Sorted(times: seq<real>) {
    forall i, j | 0 <= i < j < |times| :: times[i] <= times[j]
  }

  lemma {:induction false} LiveIsSuffix(times: seq<real>, cutoff: real)
    requires Sorted(times)
    ensures var n := |times| - |Live(times, cutoff)|;
            && n >= 0 && Live(times, cutoff) == times[n..]
            && (forall i | 0 <= i < n :: times[i] <= cutoff)
            && (forall i | n <= i < |times| :: times[i] > cutoff)
    decreases |times|
  {
    if times != [] && times[0] <= cutoff {
      LiveIsSuffix(times[1..], cutoff);
    }
  }

  lemma {:induction false} LiveTwice(times: seq<real>, a: real, b: real)
    requires a <= b
    ensures Live(Live(times, a), b) == Live(times, b)
    decreases |times|
  {
    if times != [] && times[0] <= a {
      LiveTwice(times[1..], a, b);
    }
  }

  lemma {:induction false} LiveAppend(times: seq<real>, t: real, cutoff: real)
    requires t > cutoff
    ensures Live(times + [t], cutoff) == Live(times, cutoff) + [t]
    decreases |times|
  {
    if times == [] {
    } else if times[0] <= cutoff {
      assert (times + [t])[1..] == times[1..] + [t];
      LiveAppend(times[1..], t, cutoff);
    } else {
      assert (times + [t])[0] == times[0];
    }
  }

  /** A stored bucket holds what is still live of its whole history; nothing else matters later. */
  ghost predicate Remembers(stored: seq<real>, history: seq<real>, cutoff: real) {
    Live(stored, cutoff) == Live(history, cutoff)
  }

  lemma {:induction false} RemembersLater(stored: seq<real>, history: seq<real>, a: real, b: real)
    requires Remembers(stored, history, a) && a <= b
    ensures Remembers(stored, history, b) && Remembers(Live(stored, b), history, b)
  {
    LiveTwice(stored, a, b);
    LiveTwice(history, a, b);
    LiveTwice(stored, b, b);
  }

  lemma CleanedRemembers(m: Buckets, key: string, history: seq<real>, a: real, b: real)
    requires Remembers(TimesOf(m, key), history, a) && a <= b
    ensures Remembers(TimesOf(Cleaned(m, b), key), history, b)
  {
    RemembersLater(TimesOf(m, key), history, a, b);
  }

  lemma SweptRemembers(s: State, key: string, history: seq<real>, a: real, now: real, g: Settings)
    requires Remembers(TimesOf(s.requests, key), history, a) && a <= now - g.window
    ensures Remembers(TimesOf(Swept(s, now, g).requests, key), history, now - g.window)
  {
    CleanedRemembers(s.requests, key, history, a, now - g.window);
    RemembersLater(TimesOf(s.requests, key), history, a, now - g.window);
  }

  /** The time of the latest call, or any time if there was none. */
  function Clock(calls: seq<Call>, otherwise: real): real {
    if calls == [] then otherwise else calls[|calls| - 1].now
  }

  lemma AllowRemembers(s: State, c: Call, bucket: string, history: seq<real>, a: real, g: Settings)
    requires Sensible(g) && Remembers(TimesOf(s.requests, bucket), history, a) && a <= c.now - g.window
    ensures var (s', verdict) := Judge(s, c, g);
            var history' := if BucketOf(s, c, g) == bucket && verdict.Allowed? then history + [c.now] else history;
            Remembers(TimesOf(s'.requests, bucket), history', c.now - g.window)
  {
    var cutoff := c.now - g.window;
    SweptRemembers(s, bucket, history, a, c.now, g);
    var kept := TimesOf(Swept(s, c.now, g).requests, bucket);
    RemembersLater(kept, history, cutoff, cutoff);
    LiveAppend(Live(kept, cutoff), c.now, cutoff);
    LiveAppend(history, c.now, cutoff);
  }

  lemma MonotonePrefix(calls: seq<Call>, c: Call)
    requires Monotone(calls + [c])
    ensures Monotone(calls) && Clock(calls, c.now) <= c.now
  {
    assert forall i | 0 <= i < |calls| :: (calls + [c])[i] == calls[i];
    assert (calls + [c])[|calls|] == c;
  }

  lemma {:induction false} OneMoreCall(before: seq<Call>, c: Call, bucket: string, g: Settings)
    requires Sensible(g)
    ensures After(before + [c], g) == Judge(After(before, g), c, g).0
    ensures Admitted(before + [c], bucket, g)
         == if BucketOf(After(before, g), c, g) == bucket && Judge(After(before, g), c, g).1.Allowed?
            then Admitted(before, bucket, g) + [c.now] else Admitted(before, bucket, g)
  {
    assert (before + [c])[..|before|] == before;
  }

  lemma {:induction false} StoreRemembers(calls: seq<Call>, bucket: string, g: Settings, otherwise: real)
      returns (s: State, history: seq<real>, cutoff: real)
    requires Sensible(g) && Monotone(calls)
    ensures s == After(calls, g) && history == Admitted(calls, bucket, g)
    ensures cutoff == Clock(calls, otherwise) - g.window && Remembers(TimesOf(s.requests, bucket), history, cutoff)
    decreases |calls|
  {
    cutoff := Clock(calls, otherwise) - g.window;
    if calls == [] {
      s, history := Start(), [];
    } else {
      var before, c := calls[..|calls| - 1], calls[|calls| - 1];
      assert calls == before + [c];
      MonotonePrefix(before, c);
      var s0, history0, cutoff0 := StoreRemembers(before, bucket, g, c.now);
      AllowRemembers(s0, c, bucket, history0, cutoff0, g);
      var (next, verdict) := Judge(s0, c, g);
      s := next;
      history := if BucketOf(s0, c, g) == bucket && verdict.Allowed? then history0 + [c.now] else history0;
      OneMoreCall(before, c, bucket, g);
    }
  }

  /** The decision of a limiter that forgets nothing. */
  function Ideal(history: seq<real>, now: real, g: Settings): Verdict
    requires Sensible(g)
  {
    var recent := Live(history, now - g.window);
    if |recent| < g.limit then Allowed else Denied(RetryAfter(recent, now, g))
  }

  lemma JudgedByHistory(s: State, c: Call, bucket: string, history: seq<real>, a: real, g: Settings)
    requires Sensible(g) && a <= c.now - g.window && bucket == BucketOf(s, c, g)
    requires Remembers(TimesOf(s.requests, bucket), history, a)
    ensures Judge(s, c, g).1 == Ideal(history, c.now, g)
  {
    SweptRemembers(s, bucket, history, a, c.now, g);
  }

  /** Each call is decided by the whole history of the bucket it falls into: it is admitted if and
      only if that bucket has admitted fewer than `limit` calls within the window.  Which bucket that
      is can depend on the periodic cleanup (`SweepMovesExactly`). */
  lemma {:induction false} DecidedByHistory(calls: seq<Call>, c: Call, g: Settings)
    requires Sensible(g) && Monotone(calls + [c])
    ensures var s := After(calls, g);
            Judge(s, c, g).1 == Ideal(Admitted(calls, BucketOf(s, c, g), g), c.now, g)
  {
    MonotonePrefix(calls, c);
    var s, history, cutoff := StoreRemembers(calls, BucketOf(After(calls, g), c, g), g, c.now);
    JudgedByHistory(s, c, BucketOf(s, c, g), history, cutoff, g);
  }

  lemma {:induction false} RecentKeepsBucket(s: State, c: Call, history: seq<real>, a: real, g: Settings)
    requires Remembers(TimesOf(s.requests, c.key), history, a) && a <= c.now - g.window
    requires Live(history, c.now - g.window) != []
    ensures BucketOf(s, c, g) == c.key
  {
    SweptRemembers(s, c.key, history, a, c.now, g);
  }

  lemma RoomGivesBucket(s: State, c: Call, g: Settings)
    requires |s.requests| < g.maxKeys
    ensures BucketOf(s, c, g) == c.key
  {
    var swept := Swept(s, c.now, g).requests;
    SubsetSize(swept.Keys, s.requests.Keys);
    assert |swept.Keys| == |swept| && |s.requests.Keys| == |s.requests|;
  }

  /** A client that was admitted within the window keeps its own bucket, however many others come;
      any other client gets its own while there is room and shares the overflow bucket if not. */
  lemma {:induction false} RecentClientsKeepTheirBucket(calls: seq<Call>, c: Call, g: Settings)
    requires Sensible(g) && Monotone(calls + [c])
    ensures (Live(Admitted(calls, c.key, g), c.now - g.window) != [] || |After(calls, g).requests| < g.maxKeys)
            ==> BucketOf(After(calls, g), c, g) == c.key
  {
    MonotonePrefix(calls, c);
    var s, history, cutoff := StoreRemembers(calls, c.key, g, c.now);
    if Live(history, c.now - g.window) != [] {
      RecentKeepsBucket(s, c, history, cutoff, g);
    } else if |s.requests| < g.maxKeys {
      RoomGivesBucket(s, c, g);
    }
  }

  // ---------------------------------------------------------------- the bound

  /** Any `limit + 1` admissions in a row span at least the window. */
  ghost predicate Spaced(times: seq<real>, g: Settings) {
    forall i, j | 0 <= i && j == i + g.limit < |times| :: times[j] - times[i] >= g.window
  }

  ghost predicate Paced(times: seq<real>, latest: real, g: Settings) {
    Sorted(times) && Spaced(times, g) && forall i | 0 <= i < |times| :: times[i] <= latest
  }

  /** One more admission that the window has room for, or none. */
  ghost predicate Grows(times: seq<real>, next: seq<real>, now: real, g: Settings) {
    next == times || (next == times + [now] && |Live(times, now - g.window)| < g.limit)
  }

  lemma PacedGrows(times: seq<real>, next: seq<real>, earlier: real, now: real, g: Settings)
    requires Sensible(g) && Paced(times, earlier, g) && earlier <= now && Grows(times, next, now, g)
    ensures Paced(next, now, g)
  {
    LiveIsSuffix(times, now - g.window);
  }

  lemma AdmittedGrows(before: seq<Call>, c: Call, bucket: string, g: Settings)
      returns (history: seq<real>, next: seq<real>)
    requires Sensible(g) && Monotone(before + [c])
    ensures history == Admitted(before, bucket, g) && next == Admitted(before + [c], bucket, g)
    ensures Grows(history, next, c.now, g)
  {
    history, next := Admitted(before, bucket, g), Admitted(before + [c], bucket, g);
    assert (before + [c])[..|before|] == before;
    DecidedByHistory(before, c, g);
  }

  lemma {:induction false} AdmittedPaced(calls: seq<Call>, bucket: string, latest: real, g: Settings)
      returns (times: seq<real>)
    requires Sensible(g) && Monotone(calls) && Clock(calls, latest) <= latest
    ensures times == Admitted(calls, bucket, g) && Paced(times, latest, g)
    decreases |calls|
  {
    if calls == [] {
      times := [];
    } else {
      var before, c := calls[..|calls| - 1], calls[|calls| - 1];
      assert calls == before + [c];
      MonotonePrefix(before, c);
      var earlier := AdmittedPaced(before, bucket, c.now, g);
      var history, next := AdmittedGrows(before, c, bucket, g);
      times := next;
      PacedGrows(earlier, times, c.now, c.now, g);
    }
  }

  function Within(times: seq<real>, from: real, until: real): set<int> {
    set i | 0 <= i < |times| && from <= times[i] < until
  }

  function Interval(from: int, n: nat): (s: set<int>)
    ensures |s| == n && forall i :: i in s <==> from <= i < from + n
  {
    if n == 0 then {} else Interval(from, n - 1) + {from + n - 1}
  }

  /** The first position from which all times are at least `from`. */
  function FirstFrom(times: seq<real>, from: real): (p: nat)
    requires Sorted(times)
    ensures p <= |times|
    ensures forall i | 0 <= i < |times| :: times[i] >= from <==> i >= p
  {
    if times == [] || times[|times| - 1] < from then |times| else FirstFrom(times[..|times| - 1], from)
  }

  /** No bucket ever admits more than `limit` calls in any half-open window, wherever it starts and
      whatever the calls were. */
  lemma {:induction false} WindowBound(calls: seq<Call>, bucket: string, from: real, g: Settings)
    requires Sensible(g) && Monotone(calls)
    ensures |Within(Admitted(calls, bucket, g), from, from + g.window)| <= g.limit
  {
    var times := AdmittedPaced(calls, bucket, Clock(calls, 0.0), g);
    var first := FirstFrom(times, from);
    if first + g.limit < |times| {
      assert times[first + g.limit] - times[first] >= g.window;
    }
    SubsetSize(Within(times, from, from + g.window), Interval(first, g.limit));
  }

  // ---------------------------------------------------------------- memory

  /** All buckets but the overflow bucket. */
  function OwnBuckets(m: Buckets, overflow: string): set<string> {
    m.Keys - {overflow}
  }

  lemma SweptKeepsBound(s: State, now: real, overflow: string, g: Settings)
    ensures |OwnBuckets(Swept(s, now, g).requests, overflow)| <= |OwnBuckets(s.requests, overflow)|
  {
    SubsetSize(OwnBuckets(Swept(s, now, g).requests, overflow), OwnBuckets(s.requests, overflow));
  }

  lemma BucketKeepsBound(m: Buckets, key: string, times: seq<real>, n: nat, overflow: string)
    requires |OwnBuckets(m, overflow)| <= n
    ensures |OwnBuckets(m[BucketFor(m, key, n, overflow) := times], overflow)| <= n
  {
  }

  lemma JudgeKeepsBound(s: State, c: Call, g: Settings)
    requires Sensible(g) && |OwnBuckets(s.requests, OVERFLOW)| <= g.maxKeys
    ensures |OwnBuckets(Judge(s, c, g).0.requests, OVERFLOW)| <= g.maxKeys
  {
    SweptKeepsBound(s, c.now, OVERFLOW, g);
    var swept := Swept(s, c.now, g).requests;
    var live := Live(TimesOf(swept, BucketOf(s, c, g)), c.now - g.window);
    BucketKeepsBound(swept, c.key, if |live| >= g.limit then live else live + [c.now], g.maxKeys, OVERFLOW);
  }

  /** However many client keys call, there are never more than `maxKeys + 1` buckets. */
  lemma {:induction false} BucketsBounded(calls: seq<Call>, g: Settings)
    requires Sensible(g)
    ensures |OwnBuckets(After(calls, g).requests, OVERFLOW)| <= g.maxKeys
    ensures |After(calls, g).requests| <= g.maxKeys + 1
  {
    if calls != [] {
      BucketsBounded(calls[..|calls| - 1], g);
      JudgeKeepsBound(After(calls[..|calls| - 1], g), calls[|calls| - 1], g);
    }
    var m := After(calls, g).requests;
    SubsetSize(m.Keys, OwnBuckets(m, OVERFLOW) + {OVERFLOW});
  }

  // ---------------------------------------------------------------- what the cleanup changes

  /** The decision that the same call would get without the cleanup. */
  function Unswept(s: State, c: Call, g: Settings): Verdict
    requires Sensible(g)
  {
    Ideal(TimesOf(s.requests, BucketFor(s.requests, c.key, g.maxKeys, OVERFLOW)), c.now, g)
  }

  predicate Due(s: State, c: Call, g: Settings) {
    c.now - s.lastCleanup >= g.window
  }

  /** All times of a known client are stale and the buckets that survive leave no room for it. */
  predicate LosesBucket(m: Buckets, cutoff: real, key: string, maxKeys: nat) {
    key in m && Live(m[key], cutoff) == [] && |Cleaned(m, cutoff)| >= maxKeys
  }

  /** An unknown client had no room, and the cleanup makes some. */
  predicate GainsBucket(m: Buckets, cutoff: real, key: string, maxKeys: nat) {
    key !in m && |m| >= maxKeys && |Cleaned(m, cutoff)| < maxKeys
  }

  lemma CleaningMoves(m: Buckets, cutoff: real, key: string, maxKeys: nat, overflow: string)
    ensures BucketFor(m, key, maxKeys, overflow) != BucketFor(Cleaned(m, cutoff), key, maxKeys, overflow)
       <==> key != overflow && (LosesBucket(m, cutoff, key, maxKeys) || GainsBucket(m, cutoff, key, maxKeys))
    ensures LosesBucket(m, cutoff, key, maxKeys) ==>
              && BucketFor(m, key, maxKeys, overflow) == key
              && BucketFor(Cleaned(m, cutoff), key, maxKeys, overflow) == overflow
    ensures GainsBucket(m, cutoff, key, maxKeys) ==>
              && BucketFor(m, key, maxKeys, overflow) == overflow
              && BucketFor(Cleaned(m, cutoff), key, maxKeys, overflow) == key
  {
    SubsetSize(Cleaned(m, cutoff).Keys, m.Keys);
    assert |Cleaned(m, cutoff).Keys| == |Cleaned(m, cutoff)| && |m.Keys| == |m|;
  }

  predicate MovesOut(s: State, c: Call, g: Settings) {
    Due(s, c, g) && c.key != OVERFLOW && LosesBucket(s.requests, c.now - g.window, c.key, g.maxKeys)
  }

  predicate MovesIn(s: State, c: Call, g: Settings) {
    Due(s, c, g) && c.key != OVERFLOW && GainsBucket(s.requests, c.now - g.window, c.key, g.maxKeys)
  }

  /** The cleanup sends a call to another bucket in exactly two cases. */
  lemma SweepMovesExactly(s: State, c: Call, g: Settings)
    ensures BucketFor(s.requests, c.key, g.maxKeys, OVERFLOW) != BucketOf(s, c, g)
       <==> MovesOut(s, c, g) || MovesIn(s, c, g)
    ensures MovesOut(s, c, g) ==> BucketOf(s, c, g) == OVERFLOW
    ensures MovesIn(s, c, g) ==> BucketOf(s, c, g) == c.key
  {
    CleaningMoves(s.requests, c.now - g.window, c.key, g.maxKeys, OVERFLOW);
  }

  /** Whatever bucket is looked at, cleaning has not changed what is live in it. */
  lemma {:induction false} CleaningKeepsLive(m: Buckets, cutoff: real, bucket: string)
    ensures Live(TimesOf(Cleaned(m, cutoff), bucket), cutoff) == Live(TimesOf(m, bucket), cutoff)
  {
    LiveTwice(TimesOf(m, bucket), cutoff, cutoff);
  }

  lemma JudgedBy(s: State, c: Call, bucket: string, g: Settings)
    requires Sensible(g) && bucket == BucketOf(s, c, g)
    ensures Judge(s, c, g).1 == Ideal(TimesOf(s.requests, bucket), c.now, g)
  {
    CleaningKeepsLive(s.requests, c.now - g.window, bucket);
  }

  /** For a call that keeps its bucket the cleanup changes nothing, in any state. */
  lemma SweepKeepsDecision(s: State, c: Call, g: Settings)
    requires Sensible(g) && BucketFor(s.requests, c.key, g.maxKeys, OVERFLOW) == BucketOf(s, c, g)
    ensures Judge(s, c, g).1 == Unswept(s, c, g)
  {
    JudgedBy(s, c, BucketOf(s, c, g), g);
  }

  function Crowded(s: State, c: Call, g: Settings): bool {
    |Live(TimesOf(s.requests, OVERFLOW), c.now - g.window)| >= g.limit
  }

  /** The cleanup changes a decision if and only if it moves the call and the overflow bucket is
      full: it then denies a known client that would be admitted, or admits one that would share. */
  lemma SweepChangesDecisionIff(s: State, c: Call, g: Settings)
    requires Sensible(g)
    ensures Judge(s, c, g).1 != Unswept(s, c, g)
       <==> (MovesOut(s, c, g) || MovesIn(s, c, g)) && Crowded(s, c, g)
    ensures MovesOut(s, c, g) ==> Unswept(s, c, g).Allowed? && (Judge(s, c, g).1.Denied? <==> Crowded(s, c, g))
    ensures MovesIn(s, c, g) ==> Judge(s, c, g).1.Allowed? && (Unswept(s, c, g).Denied? <==> Crowded(s, c, g))
  {
    SweepMovesExactly(s, c, g);
    JudgedBy(s, c, BucketOf(s, c, g), g);
  }

  // ---------------------------------------------------------------- the advice to a denied caller

  /** Every bucket is in time order, within the limit and not ahead of the clock. */
  ghost predicate Tame(m: Buckets, latest: real, g: Settings) {
    forall key | key in m :: TameTimes(m[key], latest, g)
  }

  ghost predicate TameTimes(times: seq<real>, latest: real, g: Settings) {
    Sorted(times) && |times| <= g.limit && forall i | 0 <= i < |times| :: times[i] <= latest
  }

  lemma {:induction false} LiveStaysTame(times: seq<real>, a: real, cutoff: real, now: real, g: Settings)
    requires TameTimes(times, a, g) && a <= now
    ensures TameTimes(Live(times, cutoff), now, g)
    ensures |Live(times, cutoff)| < g.limit ==> TameTimes(Live(times, cutoff) + [now], now, g)
  {
    LiveIsSuffix(times, cutoff);
  }

  lemma SweptStaysTame(s: State, a: real, now: real, g: Settings)
    requires Tame(s.requests, a, g) && a <= now
    ensures Tame(Swept(s, now, g).requests, now, g)
  {
    forall key | key in s.requests ensures TameTimes(Live(s.requests[key], now - g.window), now, g) {
      LiveStaysTame(s.requests[key], a, now - g.window, now, g);
    }
  }

  lemma JudgeKeepsTame(s: State, c: Call, a: real, g: Settings)
    requires Sensible(g) && Tame(s.requests, a, g) && a <= c.now
    ensures Tame(Judge(s, c, g).0.requests, c.now, g)
  {
    SweptStaysTame(s, a, c.now, g);
    LiveStaysTame(TimesOf(Swept(s, c.now, g).requests, BucketOf(s, c, g)), c.now, c.now - g.window, c.now, g);
  }

  lemma {:induction false} StaysTame(calls: seq<Call>, otherwise: real, g: Settings) returns (s: State)
    requires Sensible(g) && Monotone(calls)
    ensures s == After(calls, g) && Tame(s.requests, Clock(calls, otherwise), g)
  {
    if calls == [] {
      s := Start();
    } else {
      var before, c := calls[..|calls| - 1], calls[|calls| - 1];
      assert calls == before + [c];
      MonotonePrefix(before, c);
      var s0 := StaysTame(before, c.now, g);
      OneMoreCall(before, c, "", g);
      JudgeKeepsTame(s0, c, Clock(before, c.now), g);
      s := After(calls, g);
    }
  }

  /** In one bucket that nobody else is admitted to, waiting for the advised seconds makes room if
      and only if the oldest time leaves the window within one second or after a whole number. */
  lemma {:induction false} WaitingMakesRoom(live: seq<real>, now: real, g: Settings)
    requires Sensible(g) && Sorted(live) && |live| == g.limit && live[0] > now - g.window
    ensures var left := g.window - (now - live[0]);
            var later := now + RetryAfter(live, now, g) as real;
            |Live(live, later - g.window)| < g.limit <==> left <= 1.0 || left == left.Floor as real
  {
    LiveIsSuffix(live, now + RetryAfter(live, now, g) as real - g.window);
  }

  /** What a denial leaves behind: the full bucket, under the name that the call would get again. */
  lemma DeniedState(s: State, c: Call, a: real, g: Settings) returns (bucket: string, live: seq<real>)
    requires Sensible(g) && Tame(s.requests, a, g) && a <= c.now && Judge(s, c, g).1.Denied?
    ensures bucket == BucketOf(s, c, g) && live == TimesOf(Judge(s, c, g).0.requests, bucket)
    ensures Judge(s, c, g).1 == Denied(RetryAfter(live, c.now, g))
    ensures Sorted(live) && |live| == g.limit && live[0] > c.now - g.window
    ensures BucketFor(Judge(s, c, g).0.requests, c.key, g.maxKeys, OVERFLOW) == bucket
  {
    var swept := Swept(s, c.now, g).requests;
    bucket := BucketOf(s, c, g);
    SweptStaysTame(s, a, c.now, g);
    LiveStaysTame(TimesOf(swept, bucket), c.now, c.now - g.window, c.now, g);
    LiveIsSuffix(TimesOf(swept, bucket), c.now - g.window);
    live := Live(TimesOf(swept, bucket), c.now - g.window);
    DeniedKeepsBucket(swept, c.key, live, g.maxKeys, OVERFLOW);
  }

  lemma DeniedKeepsBucket(m: Buckets, key: string, live: seq<real>, maxKeys: nat, overflow: string)
    ensures var bucket := BucketFor(m, key, maxKeys, overflow);
            BucketFor(m[bucket := live], key, maxKeys, overflow) == bucket
  {
    var bucket := BucketFor(m, key, maxKeys, overflow);
    SubsetSize(m.Keys, m[bucket := live].Keys);
    assert |m.Keys| == |m| && |m[bucket := live].Keys| == |m[bucket := live]|;
  }

  /** How long a denied caller really has to wait for its bucket. */
  function Left(s: State, c: Call, g: Settings): real
    requires Sensible(g) && TimesOf(Judge(s, c, g).0.requests, BucketOf(s, c, g)) != []
  {
    g.window - (c.now - TimesOf(Judge(s, c, g).0.requests, BucketOf(s, c, g))[0])
  }

  /** What becomes of a caller that comes back as `c'` after waiting, when its bucket needed `left`. */
  ghost predicate AdviceOutcome(s': State, c': Call, bucket: string, left: real, g: Settings)
    requires Sensible(g)
  {
    && (BucketOf(s', c', g) != bucket <==> MovesOut(s', c', g) || MovesIn(s', c', g))
    && (BucketOf(s', c', g) == bucket ==>
          (Judge(s', c', g).1.Allowed? <==> left <= 1.0 || left == left.Floor as real))
    && (MovesOut(s', c', g) ==> (Judge(s', c', g).1.Allowed? <==> !Crowded(s', c', g)))
    && (MovesIn(s', c', g) ==> Judge(s', c', g).1.Allowed?)
  }

  lemma RetryJudged(s': State, c: Call, bucket: string, live: seq<real>, g: Settings)
    requires Sensible(g) && live == TimesOf(s'.requests, bucket)
    requires Sorted(live) && |live| == g.limit && live[0] > c.now - g.window
    requires BucketFor(s'.requests, c.key, g.maxKeys, OVERFLOW) == bucket
    ensures AdviceOutcome(s', Call(c.key, c.now + RetryAfter(live, c.now, g) as real), bucket,
                          g.window - (c.now - live[0]), g)
  {
    var c' := Call(c.key, c.now + RetryAfter(live, c.now, g) as real);
    SweepMovesExactly(s', c', g);
    JudgedBy(s', c', BucketOf(s', c', g), g);
    WaitingMakesRoom(live, c.now, g);
    SweepChangesDecisionIff(s', c', g);
  }

  lemma TameRetry(s: State, c: Call, a: real, g: Settings) returns (left: real)
    requires Sensible(g) && Tame(s.requests, a, g) && a <= c.now && Judge(s, c, g).1.Denied?
    ensures TimesOf(Judge(s, c, g).0.requests, BucketOf(s, c, g)) != [] && left == Left(s, c, g)
    ensures AdviceOutcome(Judge(s, c, g).0, Call(c.key, c.now + Judge(s, c, g).1.retryAfter as real),
                          BucketOf(s, c, g), left, g)
  {
    var bucket, live := DeniedState(s, c, a, g);
    RetryJudged(Judge(s, c, g).0, c, bucket, live, g);
    left := g.window - (c.now - live[0]);
  }

  /** A denied caller that comes back after exactly the advised seconds, with no other call in
      between.  Unless the cleanup moves it, it is admitted if and only if the wait left was at most
      one second or a whole number of them.  The cleanup moves it in exactly two cases: out of its
      own bucket, and then it is admitted if and only if the overflow bucket has room; or into one,
      and then it is always admitted. */
  lemma PunctualRetry(calls: seq<Call>, c: Call, g: Settings) returns (s: State, left: real)
    requires Sensible(g) && Monotone(calls + [c]) && Judge(After(calls, g), c, g).1.Denied?
    ensures s == After(calls, g)
    ensures TimesOf(Judge(s, c, g).0.requests, BucketOf(s, c, g)) != [] && left == Left(s, c, g)
    ensures AdviceOutcome(Judge(s, c, g).0, Call(c.key, c.now + Judge(s, c, g).1.retryAfter as real),
                          BucketOf(s, c, g), left, g)
  {
    MonotonePrefix(calls, c);
    s := StaysTame(calls, c.now, g);
    left := TameRetry(s, c, Clock(calls, c.now), g);
  }

  // ---------------------------------------------------------------- runs on which it fails

  lemma {:induction false} TwoCalls(x: Call, y: Call, g: Settings)
    requires Sensible(g)
    ensures After([x, y], g) == Judge(Judge(Start(), x, g).0, y, g).0
  {
    OneMoreCall([], x, "", g);
    OneMoreCall([x], y, "", g);
    assert [] + [x] == [x] && [x] + [y] == [x, y];
  }

  lemma FirstOwns(b: string, g: Settings)
    requires Sensible(g) && g.window == 10.0 && g.maxKeys >= 1
    ensures Judge(Start(), Call(b, 100.0), g).0 == State(map[b := [100.0]], 100.0)
  {
    assert Cleaned(map[], 90.0) == map[];
    assert map[][b := [100.0]] == map[b := [100.0]];
    assert Live([], 90.0) + [100.0] == [100.0];
  }

  lemma SecondShares(b: string, c: string, g: Settings)
    requires g == Settings(1, 10.0, 1) && b != c && OVERFLOW !in {b, c}
    ensures Judge(State(map[b := [100.0]], 100.0), Call(c, 105.0), g).0
         == State(map[b := [100.0], OVERFLOW := [105.0]], 100.0)
  {
    assert |map[b := [100.0]]| == 1;
    assert Live([], 95.0) + [105.0] == [105.0];
    assert map[b := [100.0]][OVERFLOW := [105.0]] == map[b := [100.0], OVERFLOW := [105.0]];
  }

  /** The wait left is nine and a half seconds and the advice nine: the caller keeps its bucket, comes
      back on time, and is denied once more. */
  lemma RetryCanBeTooEarly(b: string)
    requires b != OVERFLOW
    ensures var g, denied, retry := Settings(1, 10.0, 1), Call(b, 100.5), Call(b, 109.5);
            var s := After([Call(b, 100.0)], g);
            && Judge(s, denied, g).1 == Denied(9)
            && TimesOf(Judge(s, denied, g).0.requests, BucketOf(s, denied, g)) != [] && Left(s, denied, g) == 9.5
            && BucketOf(Judge(s, denied, g).0, retry, g) == BucketOf(s, denied, g) == b
            && Judge(Judge(s, denied, g).0, retry, g).1.Denied?
  {
    var g := Settings(1, 10.0, 1);
    OneMoreCall([], Call(b, 100.0), "", g);
    assert [] + [Call(b, 100.0)] == [Call(b, 100.0)];
    FirstOwns(b, g);
    TooEarlyRun(b, g);
  }

  lemma TooEarlyRun(b: string, g: Settings)
    requires g == Settings(1, 10.0, 1) && b != OVERFLOW
    ensures var s := State(map[b := [100.0]], 100.0);
            && BucketOf(s, Call(b, 100.5), g) == b && Judge(s, Call(b, 100.5), g) == (s, Denied(9))
            && BucketOf(s, Call(b, 109.5), g) == b && Judge(s, Call(b, 109.5), g).1.Denied?
  {
    var m := map[b := [100.0]];
    assert m[b := [100.0]] == m;
    assert Live([100.0], 90.5) == [100.0] && Live([100.0], 99.5) == [100.0];
  }

  /** The wait left is a whole number and nobody is admitted in between, but the retry is denied:
      the cleanup drops the caller's own bucket and the overflow bucket takes the only place.
      Without the cleanup the retry would be admitted. */
  lemma RetryCanBeMovedOut(b: string, c: string)
    requires b != c && OVERFLOW !in {b, c}
    ensures var g := Settings(1, 10.0, 1);
            var s, denied, retry := After([Call(b, 100.0), Call(c, 105.0)], g), Call(b, 106.0), Call(b, 110.0);
            && Judge(s, denied, g).1 == Denied(4)
            && TimesOf(Judge(s, denied, g).0.requests, BucketOf(s, denied, g)) != [] && Left(s, denied, g) == 4.0
            && MovesOut(Judge(s, denied, g).0, retry, g)
            && Judge(Judge(s, denied, g).0, retry, g).1.Denied?
            && Unswept(Judge(s, denied, g).0, retry, g).Allowed?
  {
    var g := Settings(1, 10.0, 1);
    TwoCalls(Call(b, 100.0), Call(c, 105.0), g);
    FirstOwns(b, g);
    SecondShares(b, c, g);
    MovedOutRun(b, g);
  }

  lemma MovedOutRun(b: string, g: Settings)
    requires g == Settings(1, 10.0, 1) && b != OVERFLOW
    ensures var s := State(map[b := [100.0], OVERFLOW := [105.0]], 100.0);
            var denied, retry := Call(b, 106.0), Call(b, 110.0);
            && BucketOf(s, denied, g) == b && Judge(s, denied, g) == (s, Denied(4))
            && MovesOut(s, retry, g) && Judge(s, retry, g).1.Denied? && Unswept(s, retry, g).Allowed?
  {
    var m := map[b := [100.0], OVERFLOW := [105.0]];
    assert m[b := [100.0]] == m;
    assert Live([100.0], 96.0) == [100.0] && Live([100.0], 100.0) == [] && Live([105.0], 100.0) == [105.0];
    assert Cleaned(m, 100.0) == map[OVERFLOW := [105.0]];
    SweepChangesDecisionIff(State(m, 100.0), Call(b, 110.0), g);
  }

  /** The wait left is nine and a half seconds and the advice nine, but the retry is admitted: the
      cleanup makes room, and the caller leaves the overflow bucket for one of its own. */
  lemma RetryCanBeMovedIn(a: string, b: string, c: string)
    requires a != b && a != c && b != c && OVERFLOW !in {a, b, c}
    ensures var g, denied, retry := Settings(1, 10.0, 2), Call(c, 104.0), Call(c, 113.0);
            var s := After([Call(a, 100.0), Call(b, 100.0), Call(c, 103.5)], g);
            && Judge(s, denied, g).1 == Denied(9)
            && TimesOf(Judge(s, denied, g).0.requests, BucketOf(s, denied, g)) != [] && Left(s, denied, g) == 9.5
            && MovesIn(Judge(s, denied, g).0, retry, g)
            && Judge(Judge(s, denied, g).0, retry, g).1.Allowed?
            && Unswept(Judge(s, denied, g).0, retry, g).Denied?
  {
    var g := Settings(1, 10.0, 2);
    TwoCalls(Call(a, 100.0), Call(b, 100.0), g);
    FirstOwns(a, g);
    SecondOwns(a, b, g);
    OneMoreCall([Call(a, 100.0), Call(b, 100.0)], Call(c, 103.5), "", g);
    assert [Call(a, 100.0), Call(b, 100.0)] + [Call(c, 103.5)] == [Call(a, 100.0), Call(b, 100.0), Call(c, 103.5)];
    ThirdShares(a, b, c, g);
    DeniedInOverflow(a, b, c, g);
    MovedInRun(a, b, c, g);
  }

  lemma SecondOwns(a: string, b: string, g: Settings)
    requires g == Settings(1, 10.0, 2) && a != b
    ensures Judge(State(map[a := [100.0]], 100.0), Call(b, 100.0), g).0
         == State(map[a := [100.0], b := [100.0]], 100.0)
  {
    assert |map[a := [100.0]]| == 1;
    assert Live([], 90.0) + [100.0] == [100.0];
    assert map[a := [100.0]][b := [100.0]] == map[a := [100.0], b := [100.0]];
  }

  lemma ThirdShares(a: string, b: string, c: string, g: Settings)
    requires g == Settings(1, 10.0, 2) && a != b && a != c && b != c && OVERFLOW !in {a, b, c}
    ensures Judge(State(map[a := [100.0], b := [100.0]], 100.0), Call(c, 103.5), g).0
         == State(map[a := [100.0], b := [100.0], OVERFLOW := [103.5]], 100.0)
  {
    var m := map[a := [100.0], b := [100.0]];
    assert m.Keys == {a, b} && |m| == |m.Keys|;
    assert Live([], 93.5) + [103.5] == [103.5];
    assert m[OVERFLOW := [103.5]] == map[a := [100.0], b := [100.0], OVERFLOW := [103.5]];
  }

  lemma DeniedInOverflow(a: string, b: string, c: string, g: Settings)
    requires g == Settings(1, 10.0, 2) && a != b && a != c && b != c && OVERFLOW !in {a, b, c}
    ensures var s := State(map[a := [100.0], b := [100.0], OVERFLOW := [103.5]], 100.0);
            BucketOf(s, Call(c, 104.0), g) == OVERFLOW && Judge(s, Call(c, 104.0), g) == (s, Denied(9))
  {
    var m := map[a := [100.0], b := [100.0], OVERFLOW := [103.5]];
    assert m.Keys == {a, b, OVERFLOW} && |m| == |m.Keys|;
    assert m[OVERFLOW := [103.5]] == m;
    assert Live([103.5], 94.0) == [103.5];
  }

  lemma MovedInRun(a: string, b: string, c: string, g: Settings)
    requires g == Settings(1, 10.0, 2) && a != b && a != c && b != c && OVERFLOW !in {a, b, c}
    ensures var s, retry := State(map[a := [100.0], b := [100.0], OVERFLOW := [103.5]], 100.0), Call(c, 113.0);
            MovesIn(s, retry, g) && Judge(s, retry, g).1.Allowed? && Unswept(s, retry, g).Denied?
  {
    var m := map[a := [100.0], b := [100.0], OVERFLOW := [103.5]];
    assert m.Keys == {a, b, OVERFLOW} && |m| == |m.Keys|;
    assert Live([100.0], 103.0) == [] && Live([103.5], 103.0) == [103.5];
    assert Cleaned(m, 103.0) == map[OVERFLOW := [103.5]];
    SweepChangesDecisionIff(State(m, 100.0), Call(c, 113.0), g);
  }
}
