/** The sliding-window rate limiter: a sorted set per client, pruned on every call. */
module RateLimiter {
  import opened Domain

  /** Clock readings are nanoseconds; the sorted set scores its members in milliseconds. */
  const NS_PER_MS := 1_000_000
  const MS_PER_SECOND := 1000

  function Ms(ns: int): int {
    ns / NS_PER_MS
  }

  /** One clock reading, as the member and as the score it becomes. */
  datatype Stamp = Stamp(ns: int, ms: int)

  function Read(ns: int): Stamp {
    Stamp(ns, Ms(ns))
  }

  /** A sorted set, member (a nanosecond stamp) to score, and the millisecond it expires, if any. */
  datatype SortedSet = SortedSet(scores: map<int, int>, expires: Option<int>)

  const NO_SET := SortedSet(map[], None)

  /** What a command finds at a key: an expired set is gone. */
  function Current(sets: map<string, SortedSet>, key: string, ms: int): SortedSet {
    if key !in sets then NO_SET else Unexpired(sets[key], ms)
  }

  function Unexpired(s: SortedSet, ms: int): SortedSet {
    if s.expires.Some? && s.expires.value <= ms then NO_SET else s
  }

  function Prune(scores: map<int, int>, low: int, high: int): map<int, int> {
    map m | m in scores && !(low <= scores[m] <= high) :: scores[m]
  }

  /** The server's side of the four pipelined commands, each run at millisecond `ms`. */
  class Redis {
    var sets: map<string, SortedSet>

    constructor ()
      ensures sets == map[]
    {
      sets := map[];
    }

    method ZRemRangeByScore(key: string, low: int, high: int, ms: int)
      modifies this
      ensures var s := Current(old(sets), key, ms); sets == old(sets)[key := s.(scores := Prune(s.scores, low, high))]
    {
      var s := Current(sets, key, ms);
      sets := sets[key := s.(scores := Prune(s.scores, low, high))];
    }

    method ZCard(key: string, ms: int) returns (n: nat)
      ensures n == |Current(sets, key, ms).scores|
    {
      n := |Current(sets, key, ms).scores|;
    }

    method ZAdd(key: string, score: int, member: int, ms: int)
      modifies this
      ensures var s := Current(old(sets), key, ms); sets == old(sets)[key := s.(scores := s.scores[member := score])]
    {
      var s := Current(sets, key, ms);
      sets := sets[key := s.(scores := s.scores[member := score])];
    }

    method Expire(key: string, seconds: nat, ms: int)
      modifies this
      ensures sets == old(sets)[key := Current(old(sets), key, ms).(expires := Some(ms + seconds * MS_PER_SECOND))]
    {
      sets := sets[key := Current(sets, key, ms).(expires := Some(ms + seconds * MS_PER_SECOND))];
    }
  }

  // ---------------------------------------------------------------- one call, as a function

  /** `span` is the window in milliseconds. */
  function Kept(scores: map<int, int>, ms: int, span: nat): map<int, int> {
    Prune(scores, 0, ms - span)
  }

  function Admit(scores: map<int, int>, ms: int, span: nat, limit: int): bool {
    |Kept(scores, ms, span)| < limit
  }

  /** The set after the first `executed` commands of a call, at least one. */
  function AfterSome(found: SortedSet, now: Stamp, span: nat, executed: nat): SortedSet {
    var kept := Kept(found.scores, now.ms, span);
    SortedSet(if executed >= 3 then kept[now.ns := now.ms] else kept,
              if executed >= 4 then Some(now.ms + span) else found.expires)
  }

  class RateLimiter {
    const client: Redis
    const maxRequests: int
    const windowSeconds: nat

    constructor (client: Redis, maxRequests: int, windowSeconds: nat)
      ensures this.client == client && this.maxRequests == maxRequests && this.windowSeconds == windowSeconds
    {
      this.client := client;
      this.maxRequests := maxRequests;
      this.windowSeconds := windowSeconds;
    }

    /** `executed` of the four pipelined commands reach the server, and `replied` tells whether
        the replies come back. Short of both there is an error, but what was executed stays. */
    method Allow(ip: string, now: int, executed: nat, replied: bool) returns (allowed: bool, err: bool)
      modifies client
      ensures var key := "ratelimit:" + ip; var span := windowSeconds * MS_PER_SECOND;
              var found := Current(old(client.sets), key, Ms(now));
              && err == !(executed >= 4 && replied)
              && allowed == (!err && Admit(found.scores, Ms(now), span, maxRequests))
              && client.sets == if executed == 0 then old(client.sets)
                                else old(client.sets)[key := AfterSome(found, Read(now), span, executed)]
      ensures executed >= 4 ==>
              forall clock: seq<int> :: Served(old(client.sets), ip, clock, windowSeconds) && Rising(clock + [now]) ==>
                && Served(client.sets, ip, clock + [now], windowSeconds)
                && (replied ==> (allowed <==> |Recent(clock, now, windowSeconds)| < maxRequests))
    {
      forall clock: seq<int> | Served(client.sets, ip, clock, windowSeconds) && Rising(clock + [now])
        ensures ServedNext(client.sets, ip, clock, now, windowSeconds, maxRequests)
      {
        NextIsServed(client.sets, ip, clock, now, windowSeconds, maxRequests);
      }
      var key := "ratelimit:" + ip;
      var windowStart := now - windowSeconds * MS_PER_SECOND * NS_PER_MS;
      var count: nat := 0;

      if executed >= 1 { client.ZRemRangeByScore(key, 0, Ms(windowStart), Ms(now)); }
      if executed >= 2 { count := client.ZCard(key, Ms(now)); }
      if executed >= 3 { client.ZAdd(key, Ms(now), now, Ms(now)); }
      if executed >= 4 { client.Expire(key, windowSeconds, Ms(now)); }
      if executed < 4 || !replied { return false, true; }

      return count < maxRequests, false;
    }
  }

  // ---------------------------------------------------------------- calls of one address, in turn

  /** Readings of a strictly increasing clock after 1970. */
  ghost predicate Rising(clock: seq<int>) {
    && (forall i :: 0 <= i < |clock| ==> 0 <= clock[i])
    && (forall i, k :: 0 <= i < k < |clock| ==> clock[i] < clock[k])
  }

  /** The server holds what complete calls of `ip` at these readings, and no others, leave. */
  ghost predicate Served(sets: map<string, SortedSet>, ip: string, clock: seq<int>, seconds: nat) {
    var key := "ratelimit:" + ip;
    if clock == [] then key !in sets
    else key in sets && sets[key] == SetAfter(Readings(clock), |clock|, seconds * 1000)
  }

  /** The earlier calls, admitted or not, less than `seconds` seconds before `now`, in milliseconds. */
  ghost function Recent(clock: seq<int>, now: int, seconds: nat): set<nat> {
    set i: nat | i < |clock| && clock[i] / 1_000_000 > now / 1_000_000 - seconds * 1000
  }

  /** One more complete call is served, and its count decides by the recent calls. */
  ghost predicate ServedNext(sets: map<string, SortedSet>, ip: string, clock: seq<int>, now: int, seconds: nat,
                             limit: int)
  {
    var key := "ratelimit:" + ip;
    var found := Current(sets, key, Ms(now));
    && Served(sets[key := AfterSome(found, Read(now), seconds * 1000, 4)], ip, clock + [now], seconds)
    && (Admit(found.scores, Ms(now), seconds * 1000, limit) <==> |Recent(clock, now, seconds)| < limit)
  }

  /** What the next call finds is what it finds as a step of the run. */
  lemma FindsRun(sets: map<string, SortedSet>, ip: string, clock: seq<int>, now: int, seconds: nat)
    requires Served(sets, ip, clock, seconds)
    ensures Current(sets, "ratelimit:" + ip, Ms(now))
            == Unexpired(SetAfter(Readings(clock + [now]), |clock|, seconds * 1000), Ms(now))
  {
    SamePrefix(Readings(clock), Readings(clock + [now]), |clock|, seconds * 1000);
  }

  lemma NextIsServed(sets: map<string, SortedSet>, ip: string, clock: seq<int>, now: int, seconds: nat, limit: int)
    requires Served(sets, ip, clock, seconds) && Rising(clock + [now])
    ensures ServedNext(sets, ip, clock, now, seconds, limit)
  {
    FindsRun(sets, ip, clock, now, seconds);
    StepDecides(clock, now, seconds, limit);
  }

  lemma StepDecides(clock: seq<int>, now: int, seconds: nat, limit: int)
    requires Rising(clock + [now])
    ensures var calls := Readings(clock + [now]);
            var found := Unexpired(SetAfter(calls, |clock|, seconds * 1000), Ms(now));
            && SetAfter(calls, |clock| + 1, seconds * 1000) == AfterSome(found, Read(now), seconds * 1000, 4)
            && (Admit(found.scores, Ms(now), seconds * 1000, limit) <==> |Recent(clock, now, seconds)| < limit)
  {
    var calls := Readings(clock + [now]);
    ReadingsAreClocked(clock + [now]);
    assert calls[|clock|] == Read(now);
    DecidesAsFullLog(calls, |clock|, seconds * 1000, limit);
    RecentIsWindow(clock, now, seconds);
  }

  lemma RecentIsWindow(clock: seq<int>, now: int, seconds: nat)
    ensures InWindow(Readings(clock + [now]), |clock|, seconds * 1000) == Recent(clock, now, seconds)
  {
    var calls := Readings(clock + [now]);
    forall i: nat | i <= |clock| ensures calls[i].ms == (clock + [now])[i] / 1_000_000 { }
  }

  lemma {:induction false} SamePrefix(a: seq<Stamp>, b: seq<Stamp>, n: nat, span: nat)
    requires n <= |a| && n <= |b| && forall i :: 0 <= i < n ==> a[i] == b[i]
    ensures SetAfter(a, n, span) == SetAfter(b, n, span)
  {
    if n == 0 {
    } else {
      SamePrefix(a, b, n - 1, span);
    }
  }

  /** What a pipeline leaves that breaks off: the old entries outside the window are gone; from the
      third command on the call is a member with its millisecond; only the fourth moves the expiry. */
  lemma BrokenPipeline(found: SortedSet, ns: int, seconds: nat, executed: nat)
    requires executed >= 1
    ensures var left := AfterSome(found, Read(ns), seconds * 1000, executed); var ms := ns / 1_000_000;
            && (executed >= 3 ==> ns in left.scores && left.scores[ns] == ms)
            && (forall m :: m in left.scores && (executed < 3 || m != ns) <==>
                  && m in found.scores && (executed < 3 || m != ns)
                  && (found.scores[m] < 0 || found.scores[m] > ms - seconds * 1000))
            && (forall m :: m in left.scores && (executed < 3 || m != ns) ==> left.scores[m] == found.scores[m])
            && left.expires == if executed >= 4 then Some(ms + seconds * 1000) else found.expires
  {
  }

  /** The middleware lets a request through on any limiter error: it fails open. */
  method RateLimit(limiter: RateLimiter, ip: string, now: int, executed: nat, replied: bool) returns (passed: bool)
    modifies limiter.client
    ensures var scores := Current(old(limiter.client.sets), "ratelimit:" + ip, Ms(now)).scores;
            passed <==>
              executed < 4 || !replied
              || Admit(scores, Ms(now), limiter.windowSeconds * MS_PER_SECOND, limiter.maxRequests)
  {
    var allowed, err := limiter.Allow(ip, now, executed, replied);
    if err { return true; }
    return allowed;
  }

  // ---------------------------------------------------------------- runs of one client

  /** Serial calls of one client, stamped by a clock that never goes back, but may stand still. */
  ghost predicate Monotone(calls: seq<Stamp>) {
    && (forall i :: 0 <= i < |calls| ==> 0 <= calls[i].ms)
    && (forall i, k :: 0 <= i < k < |calls| ==> calls[i].ns <= calls[k].ns && calls[i].ms <= calls[k].ms)
    && (forall i, k :: 0 <= i < k < |calls| && calls[i].ns == calls[k].ns ==> calls[i].ms == calls[k].ms)
  }

  /** The same by a strictly increasing clock. */
  ghost predicate Clocked(calls: seq<Stamp>) {
    Monotone(calls) && forall i, k :: 0 <= i < k < |calls| ==> calls[i].ns < calls[k].ns
  }

  /** The server's set after the first `n` calls. */
  ghost function SetAfter(calls: seq<Stamp>, n: nat, span: nat): SortedSet
    requires n <= |calls|
  {
    if n == 0 then NO_SET
    else AfterSome(Unexpired(SetAfter(calls, n - 1, span), calls[n - 1].ms), calls[n - 1], span, 4)
  }

  /** What call `n` finds, expiry included. */
  ghost function Found(calls: seq<Stamp>, n: nat, span: nat): map<int, int>
    requires n < |calls|
  {
    Unexpired(SetAfter(calls, n, span), calls[n].ms).scores
  }

  ghost predicate Admitted(calls: seq<Stamp>, n: nat, span: nat, limit: int)
    requires n < |calls|
  {
    Admit(Found(calls, n, span), calls[n].ms, span, limit)
  }

  /** The earlier calls, admitted or not, whose stamp lies inside the window of call `n`. */
  ghost function InWindow(calls: seq<Stamp>, n: nat, span: nat): set<nat>
    requires n < |calls|
  {
    set i: nat | i < n && calls[i].ms > calls[n].ms - span
  }

  ghost predicate IsCall(calls: seq<Stamp>, n: nat, ns: int, ms: int)
    requires n <= |calls|
  {
    exists i: nat :: i < n && calls[i] == Stamp(ns, ms)
  }

  /** Every entry of the set is one of the first `n` calls, and those inside the window of the
      last of them are all there. */
  ghost predicate Faithful(calls: seq<Stamp>, n: nat, span: nat, scores: map<int, int>)
    requires n <= |calls|
  {
    && (forall m :: m in scores ==> IsCall(calls, n, m, scores[m]))
    && (forall i: nat :: i < n && calls[i].ms > calls[n - 1].ms - span ==> calls[i].ns in scores)
  }

  lemma {:induction false} SetIsFaithful(calls: seq<Stamp>, n: nat, span: nat)
    requires Monotone(calls) && n <= |calls|
    ensures Faithful(calls, n, span, SetAfter(calls, n, span).scores)
  {
    if n == 0 {
    } else {
      var p := n - 1;
      SetIsFaithful(calls, p, span);
      var before := SetAfter(calls, p, span).scores;
      var scores := SetAfter(calls, n, span).scores;
      SameScores(calls, p, span);
      forall m | m in scores ensures IsCall(calls, n, m, scores[m]) {
        if m == calls[p].ns {
          assert calls[p] == Stamp(m, scores[m]);
        } else {
          assert IsCall(calls, p, m, before[m]);
          var i: nat :| i < p && calls[i] == Stamp(m, before[m]);
          assert i < n;
        }
      }
      forall i: nat | i < n && calls[i].ms > calls[p].ms - span ensures calls[i].ns in scores {
        if i < p {
          assert calls[i].ns in before;
          StampOf(calls, p, before, i);
        }
      }
    }
  }

  /** A member has the score of every call with its stamp. */
  lemma StampOf(calls: seq<Stamp>, n: nat, scores: map<int, int>, i: nat)
    requires Monotone(calls) && i < n <= |calls| && calls[i].ns in scores
    requires IsCall(calls, n, calls[i].ns, scores[calls[i].ns])
    ensures scores[calls[i].ns] == calls[i].ms
  {
  }

  /** The key's expiry never removes an entry that pruning would have kept. */
  lemma ExpiryRemovesNothingKept(calls: seq<Stamp>, n: nat, span: nat)
    requires Monotone(calls) && n < |calls|
    ensures Kept(Found(calls, n, span), calls[n].ms, span) == Kept(SetAfter(calls, n, span).scores, calls[n].ms, span)
  {
    SetIsFaithful(calls, n, span);
    SameScores(calls, n, span);
  }

  lemma SameScores(calls: seq<Stamp>, n: nat, span: nat)
    requires Monotone(calls) && n < |calls| && Faithful(calls, n, span, SetAfter(calls, n, span).scores)
    ensures Kept(Found(calls, n, span), calls[n].ms, span) == Kept(SetAfter(calls, n, span).scores, calls[n].ms, span)
  {
    var s := SetAfter(calls, n, span);
    if n > 0 && s.expires.value <= calls[n].ms {
      forall m | m in s.scores ensures 0 <= s.scores[m] <= calls[n].ms - span {
        var i: nat :| i < n && calls[i] == Stamp(m, s.scores[m]);
        assert calls[i].ms <= calls[n - 1].ms;
      }
    }
  }

  // ---------------------------------------------------------------- the decision

  lemma Pick<T>(s: set<T>) returns (x: T)
    requires s != {}
    ensures x in s
  {
    x :| x in s;
  }

  /** The stamps of some calls; equal stamps are one member of the set. */
  ghost function StampsOf(calls: seq<Stamp>, idx: set<nat>): set<int>
    requires forall i :: i in idx ==> i < |calls|
  {
    set i | i in idx :: calls[i].ns
  }

  ghost predicate Distinct(calls: seq<Stamp>, idx: set<nat>)
    requires forall i :: i in idx ==> i < |calls|
  {
    forall i, k :: i in idx && k in idx && i != k ==> calls[i].ns != calls[k].ns
  }

  /** There are as many stamps as calls exactly when no two calls share one, and never more. */
  lemma {:induction false} StampsExactly(calls: seq<Stamp>, idx: set<nat>)
    requires forall i :: i in idx ==> i < |calls|
    ensures |StampsOf(calls, idx)| <= |idx|
    ensures |StampsOf(calls, idx)| == |idx| <==> Distinct(calls, idx)
    decreases |idx|
  {
    var stamps := StampsOf(calls, idx);
    if idx == {} {
      assert stamps == {};
    } else {
      var i := Pick(idx);
      var rest := idx - {i};
      StampsExactly(calls, rest);
      assert stamps == StampsOf(calls, rest) + {calls[i].ns};
      if calls[i].ns in StampsOf(calls, rest) {
        var k :| k in rest && calls[k].ns == calls[i].ns;
        assert stamps == StampsOf(calls, rest);
        assert !Distinct(calls, idx);
      } else {
        assert Distinct(calls, idx) <==> Distinct(calls, rest);
      }
    }
  }

  /** What pruning keeps are the stamps inside the window. */
  lemma KeptStamps(calls: seq<Stamp>, n: nat, span: nat)
    requires Monotone(calls) && n < |calls| && Faithful(calls, n, span, SetAfter(calls, n, span).scores)
    ensures Kept(SetAfter(calls, n, span).scores, calls[n].ms, span).Keys == StampsOf(calls, InWindow(calls, n, span))
  {
    var scores := SetAfter(calls, n, span).scores;
    var kept := Kept(scores, calls[n].ms, span);
    forall m | m in kept ensures m in StampsOf(calls, InWindow(calls, n, span)) {
      var i: nat :| i < n && calls[i] == Stamp(m, scores[m]);
      assert i in InWindow(calls, n, span);
    }
    forall i | i in InWindow(calls, n, span) ensures calls[i].ns in kept {
      assert calls[i].ms > calls[n - 1].ms - span;
      StampOf(calls, n, scores, i);
    }
  }

  /** Whatever the clock, the pruned set decides by the distinct stamps inside the window. */
  lemma DecidesByStamps(calls: seq<Stamp>, n: nat, span: nat, limit: int)
    requires Monotone(calls) && n < |calls|
    ensures Admitted(calls, n, span, limit) <==> |StampsOf(calls, InWindow(calls, n, span))| < limit
  {
    SetIsFaithful(calls, n, span);
    ExpiryRemovesNothingKept(calls, n, span);
    KeptStamps(calls, n, span);
    var kept := Kept(SetAfter(calls, n, span).scores, calls[n].ms, span);
    assert |kept| == |kept.Keys|;
  }

  /** With a strictly increasing clock it decides exactly as the full request log would. */
  lemma DecidesAsFullLog(calls: seq<Stamp>, n: nat, span: nat, limit: int)
    requires Clocked(calls) && n < |calls|
    ensures Admitted(calls, n, span, limit) <==> |InWindow(calls, n, span)| < limit
  {
    DecidesByStamps(calls, n, span, limit);
    StampsExactly(calls, InWindow(calls, n, span));
  }

  /** In general it does so for every limit exactly when no two calls inside the window have the
      same stamp. */
  lemma DecidesAsFullLogExactly(calls: seq<Stamp>, n: nat, span: nat)
    requires Monotone(calls) && n < |calls|
    ensures (forall limit: nat :: Admitted(calls, n, span, limit) <==> |InWindow(calls, n, span)| < limit) <==>
            Distinct(calls, InWindow(calls, n, span))
  {
    var idx := InWindow(calls, n, span);
    StampsExactly(calls, idx);
    forall limit: nat ensures Admitted(calls, n, span, limit) <==> |StampsOf(calls, idx)| < limit {
      DecidesByStamps(calls, n, span, limit);
    }
    if !Distinct(calls, idx) {
      assert Admitted(calls, n, span, |idx|);
    }
  }

  /** While the clock stands still, everybody is admitted, whatever the limit, if it is two or more. */
  lemma StandingClockAdmitsAll(calls: seq<Stamp>, n: nat, span: nat, limit: int)
    requires Monotone(calls) && n < |calls| && limit >= 2
    requires forall i :: 0 <= i < |calls| ==> calls[i] == calls[0]
    ensures Admitted(calls, n, span, limit)
  {
    DecidesByStamps(calls, n, span, limit);
    var stamps := StampsOf(calls, InWindow(calls, n, span));
    CardSubset(stamps, {calls[0].ns});
  }

  // ---------------------------------------------------------------- the bound per window

  ghost function AdmittedWhile(calls: seq<Stamp>, span: nat, limit: int, inside: Stamp -> bool): set<nat> {
    set i: nat | i < |calls| && inside(calls[i]) && Admitted(calls, i, span, limit)
  }

  lemma {:induction false} Largest(s: set<nat>) returns (m: nat)
    requires s != {}
    ensures m in s && forall i :: i in s ==> i <= m
    decreases |s|
  {
    m := Pick(s);
    var rest := s - {m};
    if rest != {} {
      var k := Largest(rest);
      assert s == rest + {m};
      if m < k { m := k; }
    } else {
      assert s == {m};
    }
  }

  lemma {:induction false} CardSubset<T>(a: set<T>, b: set<T>)
    requires a <= b
    ensures |a| <= |b|
    decreases |a|
  {
    if a == {} {
    } else {
      var x := Pick(a);
      CardSubset(a - {x}, b - {x});
    }
  }

  /** If calls inside are always less than the window apart, the limit holds inside. */
  lemma BoundInside(calls: seq<Stamp>, span: nat, limit: nat, inside: Stamp -> bool)
    requires Clocked(calls)
    requires forall i: nat, k: nat :: i < k < |calls| && inside(calls[i]) && inside(calls[k]) ==>
               calls[i].ms > calls[k].ms - span
    ensures |AdmittedWhile(calls, span, limit, inside)| <= limit
  {
    var all := AdmittedWhile(calls, span, limit, inside);
    if all != {} {
      var last := Largest(all);
      DecidesAsFullLog(calls, last, span, limit);
      CardSubset(all - {last}, InWindow(calls, last, span));
    }
  }

  /** Every half-open window (T - W, T] of millisecond stamps admits at most `limit` calls. */
  lemma WindowBound(calls: seq<Stamp>, span: nat, limit: nat, end: int)
    requires Clocked(calls)
    ensures |AdmittedWhile(calls, span, limit, (t: Stamp) => end - span < t.ms <= end)| <= limit
  {
    BoundInside(calls, span, limit, (t: Stamp) => end - span < t.ms <= end);
  }

  // ---------------------------------------------------------------- the bound in nanoseconds

  ghost predicate IsReading(t: Stamp) {
    t == Read(t.ns)
  }

  ghost predicate AreReadings(calls: seq<Stamp>) {
    Clocked(calls) && forall i :: 0 <= i < |calls| ==> IsReading(calls[i])
  }

  /** The calls in the `length` nanoseconds up to `end`. */
  function Nanos(end: int, length: int): Stamp -> bool {
    (t: Stamp) => end - length < t.ns <= end
  }

  /** In no run do `length` nanoseconds contain more admitted calls than the limit. */
  ghost predicate NanoBounded(span: nat, limit: nat, length: int) {
    forall calls, end :: AreReadings(calls) ==> |AdmittedWhile(calls, span, limit, Nanos(end, length))| <= limit
  }

  /** Inside one millisecond less than the window, and one nanosecond, the limit holds. */
  lemma BoundOfWindow(calls: seq<Stamp>, span: nat, limit: nat, length: int, end: int)
    requires AreReadings(calls) && length <= (span - 1) * NS_PER_MS + 1
    ensures |AdmittedWhile(calls, span, limit, Nanos(end, length))| <= limit
  {
    var inside := Nanos(end, length);
    forall i: nat, k: nat | i < k < |calls| && inside(calls[i]) && inside(calls[k])
      ensures calls[i].ms > calls[k].ms - span
    {
      assert IsReading(calls[i]) && IsReading(calls[k]);
    }
    BoundInside(calls, span, limit, inside);
  }

  function Between(low: int, high: int): (s: set<int>)
    requires low <= high
    ensures |s| == high - low
    ensures forall m :: m in s <==> low < m <= high
    decreases high - low
  {
    if low == high then {} else Between(low, high - 1) + {high}
  }

  /** There are no more calls than nanoseconds. */
  lemma BoundOfClock(calls: seq<Stamp>, span: nat, limit: nat, length: int, end: int)
    requires AreReadings(calls) && length <= limit
    ensures |AdmittedWhile(calls, span, limit, Nanos(end, length))| <= limit
  {
    var all := AdmittedWhile(calls, span, limit, Nanos(end, length));
    if length <= 0 {
      assert all == {};
    } else {
      StampsExactly(calls, all);
      CardSubset(StampsOf(calls, all), Between(end - length, end));
    }
  }

  /** `limit` calls at successive nanoseconds, the first the last of its millisecond, and one more
      as early as it can be admitted. */
  function Burst(span: nat, limit: nat): (clock: seq<int>)
    ensures |clock| == limit + 1
    ensures forall i, k :: 0 <= i < k <= limit ==> 0 <= clock[i] < clock[k]
  {
    seq(limit, i requires 0 <= i < limit => NS_PER_MS - 1 + i) + [LastOfBurst(span, limit)]
  }

  function LastOfBurst(span: nat, limit: nat): (ns: int)
    ensures ns >= NS_PER_MS - 1 + limit && ns >= span * NS_PER_MS
  {
    if span * NS_PER_MS > NS_PER_MS - 1 + limit then span * NS_PER_MS else NS_PER_MS - 1 + limit
  }

  function Readings(clock: seq<int>): seq<Stamp> {
    seq(|clock|, i requires 0 <= i < |clock| => Read(clock[i]))
  }

  /** Readings of a strictly increasing clock after 1970 are stamps of a run. */
  lemma ReadingsAreClocked(clock: seq<int>)
    requires Rising(clock)
    ensures AreReadings(Readings(clock))
  {
  }

  lemma BurstIsRun(span: nat, limit: nat)
    requires 1 <= limit
    ensures AreReadings(Readings(Burst(span, limit)))
    ensures Readings(Burst(span, limit))[0].ms == 0 && Readings(Burst(span, limit))[limit].ms >= span
  {
    var clock := Burst(span, limit);
    assert clock[0] == NS_PER_MS - 1 && clock[limit] == LastOfBurst(span, limit);
    assert 0 <= clock[limit - 1] < clock[limit];
    ReadingsAreClocked(clock);
  }

  function Below(n: nat): (s: set<nat>)
    ensures |s| == n
    ensures forall i: nat :: i in s <==> i < n
  {
    if n == 0 then {} else Below(n - 1) + {n - 1}
  }

  lemma BurstIsAdmitted(span: nat, limit: nat, k: nat)
    requires 1 <= limit && k <= limit
    ensures Admitted(Readings(Burst(span, limit)), k, span, limit)
  {
    var calls := Readings(Burst(span, limit));
    BurstIsRun(span, limit);
    DecidesAsFullLog(calls, k, span, limit);
    CardSubset(InWindow(calls, k, span), if k < limit then Below(k) else Below(k) - {0});
  }

  lemma BurstExceeds(span: nat, limit: nat, length: int)
    requires 1 <= limit < length && length > (span - 1) * NS_PER_MS + 1
    ensures !NanoBounded(span, limit, length)
  {
    var calls := Readings(Burst(span, limit));
    var end := LastOfBurst(span, limit);
    BurstIsRun(span, limit);
    var inside := Nanos(end, length);
    forall k: nat | k <= limit ensures inside(calls[k]) && Admitted(calls, k, span, limit) {
      BurstIsAdmitted(span, limit, k);
    }
    assert AdmittedWhile(calls, span, limit, inside) == Below(limit + 1);
  }

  /** Measured in nanoseconds the limit holds in every run exactly for stretches one millisecond
      shorter than the window, plus one nanosecond, or too short to hold more calls; a limit of
      zero admits nothing. */
  lemma NanosecondBoundExactly(span: nat, limit: nat, length: int)
    ensures NanoBounded(span, limit, length) <==>
            limit == 0 || length <= limit || length <= (span - 1) * 1_000_000 + 1
  {
    if limit > 0 && length > limit && length > (span - 1) * NS_PER_MS + 1 {
      BurstExceeds(span, limit, length);
    } else {
      forall calls, end | AreReadings(calls)
        ensures |AdmittedWhile(calls, span, limit, Nanos(end, length))| <= limit
      {
        if limit == 0 {
          assert AdmittedWhile(calls, span, limit, Nanos(end, length)) == {};
        } else if length <= limit {
          BoundOfClock(calls, span, limit, length, end);
        } else {
          BoundOfWindow(calls, span, limit, length, end);
        }
      }
    }
  }
}
