/** The circuit breaker: a three-state machine under a mutex. Admissions and outcomes are its
    atomic steps; admitted requests finish in any order. */
module CircuitBreaker {

  datatype CircuitState = Closed | Open | HalfOpen

  datatype Breaker = Breaker(state: CircuitState, failures: nat, lastFailure: int)

  const FRESH := Breaker(Closed, 0, 0)

  function Admits(b: Breaker, now: int, cooldown: int): bool {
    b.state.Closed? || (b.state.Open? && now - b.lastFailure > cooldown)
  }

  function Asked(b: Breaker, now: int, cooldown: int): Breaker {
    if b.state.Open? && now - b.lastFailure > cooldown then b.(state := HalfOpen) else b
  }

  function Recorded(b: Breaker, ok: bool, now: int, threshold: int): Breaker {
    if ok then b.(failures := 0, state := Closed)
    else Breaker(if b.failures + 1 >= threshold then Open else b.state, b.failures + 1, now)
  }

  class CircuitBreaker {
    var state: CircuitState
    var failures: nat
    var lastFailureTime: int
    const threshold: int
    const cooldown: int

    function Value(): Breaker
      reads this
    {
      Breaker(state, failures, lastFailureTime)
    }

    constructor (threshold: int, cooldown: int)
      ensures Value() == FRESH && this.threshold == threshold && this.cooldown == cooldown
    {
      this.state := Closed;
      this.failures := 0;
      this.lastFailureTime := 0;
      this.threshold := threshold;
      this.cooldown := cooldown;
    }

    method Allow(now: int) returns (allowed: bool)
      modifies this
      ensures allowed == Admits(old(Value()), now, cooldown)
      ensures Value() == Asked(old(Value()), now, cooldown)
    {
      match state
      case Closed => return true;
      case Open =>
        if now - lastFailureTime > cooldown {
          state := HalfOpen;
          return true;
        }
        return false;
      case HalfOpen => return false;
    }

    method RecordSuccess()
      modifies this
      ensures forall now :: Value() == Recorded(old(Value()), true, now, threshold)
    {
      failures := 0;
      state := Closed;
    }

    method RecordFailure(now: int)
      modifies this
      ensures Value() == Recorded(old(Value()), false, now, threshold)
    {
      failures := failures + 1;
      lastFailureTime := now;
      if failures >= threshold {
        state := Open;
      }
    }
  }

  /** The middleware around one request whose handler answers `status` at time `end`, with no
      other request in between. */
  method Handle(cb: CircuitBreaker, start: int, status: int, end: int) returns (served: bool)
    modifies cb
    ensures served == Admits(old(cb.Value()), start, cb.cooldown)
    ensures cb.Value() == if served
      then Recorded(Asked(old(cb.Value()), start, cb.cooldown), status < 500, end, cb.threshold)
      else old(cb.Value())
  {
    served := cb.Allow(start);
    if !served { return; }
    if status >= 500 {
      cb.RecordFailure(end);
    } else {
      cb.RecordSuccess();
    }
  }

  // ---------------------------------------------------------------- runs

  /** A request asks, and if it was admitted is done later: `ask` is the event at which it asked. */
  datatype Event = Ask(now: int) | Done(ask: nat, ok: bool, now: int)

  /** A breaker's configuration and the events it has seen, in the order of the mutex. */
  datatype Run = Run(events: seq<Event>, threshold: int, cooldown: int)

  /** A threshold below one opens the circuit at the first failure, as a threshold of one does. */
  function Limit(r: Run): int {
    if r.threshold >= 1 then r.threshold else 1
  }

  ghost function At(r: Run, n: nat): Breaker
    requires n <= |r.events|
  {
    if n == 0 then FRESH
    else
      match r.events[n - 1]
      case Ask(now) => Asked(At(r, n - 1), now, r.cooldown)
      case Done(_, ok, now) => Recorded(At(r, n - 1), ok, now, r.threshold)
  }

  ghost predicate AdmittedAt(r: Run, i: nat)
    requires i < |r.events|
  {
    r.events[i].Ask? && Admits(At(r, i), r.events[i].now, r.cooldown)
  }

  /** The length of the run of failures at the end of the completion log. */
  ghost function TrailingFailures(r: Run, n: nat): nat
    requires n <= |r.events|
  {
    if n == 0 then 0
    else
      match r.events[n - 1]
      case Ask(_) => TrailingFailures(r, n - 1)
      case Done(_, ok, _) => if ok then 0 else TrailingFailures(r, n - 1) + 1
  }

  /** Under any interleaving, the counter is the trailing run of failures, and the circuit is
      closed exactly while that run is shorter than the threshold. */
  lemma {:induction false} CountsTrailingFailures(r: Run, n: nat)
    requires n <= |r.events|
    ensures At(r, n).failures == TrailingFailures(r, n)
    ensures At(r, n).state.Closed? <==> TrailingFailures(r, n) < Limit(r)
  {
    if n == 0 {
    } else {
      CountsTrailingFailures(r, n - 1);
    }
  }

  ghost predicate NoOutcome(r: Run, i: nat, n: nat)
    requires n <= |r.events|
  {
    forall k :: i <= k < n ==> r.events[k].Ask?
  }

  /** Without an outcome a half-open circuit stays half-open and admits nobody: it leaves that
      state only by a recorded outcome. */
  lemma {:induction false} HalfOpenWaits(r: Run, i: nat, n: nat)
    requires i <= n <= |r.events| && At(r, i).state.HalfOpen? && NoOutcome(r, i, n)
    ensures At(r, n) == At(r, i)
    ensures forall k :: i <= k < n ==> !AdmittedAt(r, k)
    decreases n
  {
    if i == n {
    } else {
      HalfOpenWaits(r, i, n - 1);
    }
  }

  /** The next outcome, whichever it is, ends the half-open state. */
  lemma OutcomeEndsHalfOpen(r: Run, i: nat)
    requires i < |r.events| && At(r, i).state.HalfOpen? && r.events[i].Done?
    ensures At(r, i + 1).state == if r.events[i].ok then Closed else Open
  {
    CountsTrailingFailures(r, i);
  }

  /** While the circuit is not closed, two admissions have an outcome between them. */
  lemma OneProbeAtATime(r: Run, i: nat, k: nat)
    requires i < k < |r.events| && AdmittedAt(r, i) && AdmittedAt(r, k)
    requires !At(r, i).state.Closed?
    ensures !NoOutcome(r, i + 1, k)
  {
    if NoOutcome(r, i + 1, k) {
      assert At(r, i + 1).state.HalfOpen?;
      HalfOpenWaits(r, i + 1, k);
    }
  }

  ghost predicate LatestFailure(r: Run, f: nat, n: nat)
    requires n <= |r.events|
  {
    f < n && r.events[f].Done? && !r.events[f].ok
    && forall k :: f < k < n && r.events[k].Done? ==> r.events[k].ok
  }

  lemma {:induction false} FailureIsRemembered(r: Run, n: nat) returns (f: nat)
    requires n <= |r.events| && !At(r, n).state.Closed?
    ensures LatestFailure(r, f, n) && At(r, n).lastFailure == r.events[f].now
  {
    CountsTrailingFailures(r, n - 1);
    if r.events[n - 1].Done? {
      f := n - 1;
    } else {
      f := FailureIsRemembered(r, n - 1);
    }
  }

  /** A probe is admitted only more than the cooldown after the latest recorded failure. */
  lemma ProbeAfterCooldown(r: Run, i: nat) returns (f: nat)
    requires i < |r.events| && AdmittedAt(r, i) && !At(r, i).state.Closed?
    ensures LatestFailure(r, f, i) && r.events[i].now - r.events[f].now > r.cooldown
  {
    f := FailureIsRemembered(r, i);
  }

  /** An open circuit admits the next request, which makes it half-open, exactly when more than
      the cooldown has passed since the latest failed outcome. */
  lemma OpenProbesAfterCooldown(r: Run, i: nat) returns (f: nat)
    requires i < |r.events| && At(r, i).state.Open? && r.events[i].Ask?
    ensures LatestFailure(r, f, i)
    ensures AdmittedAt(r, i) <==> r.events[i].now - r.events[f].now > r.cooldown
    ensures AdmittedAt(r, i) <==> At(r, i + 1).state.HalfOpen?
  {
    f := FailureIsRemembered(r, i);
  }

  // ---------------------------------------------------------------- in flight

  function One(b: bool): nat { if b then 1 else 0 }

  ghost function Admissions(r: Run, n: nat): nat
    requires n <= |r.events|
  {
    if n == 0 then 0 else Admissions(r, n - 1) + One(AdmittedAt(r, n - 1))
  }

  ghost function Outcomes(r: Run, n: nat): nat
    requires n <= |r.events|
  {
    if n == 0 then 0 else Outcomes(r, n - 1) + One(r.events[n - 1].Done?)
  }

  /** Every outcome belongs to an admitted request that had none yet. */
  ghost predicate Matched(r: Run) {
    forall n :: 0 <= n <= |r.events| ==> Outcomes(r, n) <= Admissions(r, n)
  }

  /** A half-open circuit has its probe, or an older request, still in flight; so if every
      admitted request records an outcome, it cannot stay half-open for good. */
  lemma {:induction false} HalfOpenHasOneInFlight(r: Run, n: nat)
    requires n <= |r.events| && Matched(r) && At(r, n).state.HalfOpen?
    ensures Admissions(r, n) > Outcomes(r, n)
    ensures exists p :: 0 <= p < n && AdmittedAt(r, p) && At(r, p).state.Open? && NoOutcome(r, p + 1, n)
  {
    var before := At(r, n - 1);
    assert Outcomes(r, n - 1) <= Admissions(r, n - 1);
    if r.events[n - 1].Ask? && before.state.Open? {
      assert AdmittedAt(r, n - 1) && NoOutcome(r, n, n);
    } else if r.events[n - 1].Ask? {
      HalfOpenHasOneInFlight(r, n - 1);
      var p :| 0 <= p < n - 1 && AdmittedAt(r, p) && At(r, p).state.Open? && NoOutcome(r, p + 1, n - 1);
      assert NoOutcome(r, p + 1, n);
    } else {
      FailureLeavesHalfOpen(r, n);
    }
  }

  /** A half-open circuit has reached the threshold, so one more failure opens it. */
  lemma {:induction false} HalfOpenReachedThreshold(r: Run, n: nat)
    requires n <= |r.events| && !At(r, n).state.Closed?
    ensures At(r, n).failures >= Limit(r)
  {
    if n == 0 {
    } else if !At(r, n - 1).state.Closed? {
      HalfOpenReachedThreshold(r, n - 1);
    }
  }

  lemma FailureLeavesHalfOpen(r: Run, n: nat)
    requires 0 < n <= |r.events| && r.events[n - 1].Done?
    ensures !At(r, n).state.HalfOpen?
  {
    if !At(r, n - 1).state.Closed? { HalfOpenReachedThreshold(r, n - 1); }
  }

  // ---------------------------------------------------------------- who is admitted

  /** Admission as a property of the log alone: the trailing run of failures is too short, or the
      cooldown since its last one is over and no earlier request has been let through since. */
  ghost predicate MayPass(r: Run, i: nat)
    requires i < |r.events|
    decreases i
  {
    && r.events[i].Ask?
    && (|| TrailingFailures(r, i) < Limit(r)
        || exists f: nat :: LatestFailure(r, f, i) && r.events[i].now - r.events[f].now > r.cooldown
                            && forall k: nat :: f < k < i ==> !MayPass(r, k))
  }

  /** At the end of a trailing run as long as the threshold, the circuit is open, or half-open if
      a request has been admitted since the last failure. */
  lemma {:induction false} AfterLastFailure(r: Run, n: nat) returns (f: nat)
    requires n <= |r.events| && TrailingFailures(r, n) >= Limit(r)
    ensures LatestFailure(r, f, n) && NoOutcome(r, f + 1, n) && At(r, n).lastFailure == r.events[f].now
    ensures At(r, n).state == if forall k: nat :: f < k < n ==> !AdmittedAt(r, k) then Open else HalfOpen
    ensures !At(r, f + 1).state.Closed?
  {
    CountsTrailingFailures(r, n - 1);
    if r.events[n - 1].Done? {
      CountsTrailingFailures(r, n);
      f := n - 1;
    } else {
      f := AfterLastFailure(r, n - 1);
      assert AdmittedAt(r, n - 1) ==> f < n - 1 < n;
      if k: nat :| f < k < n - 1 && AdmittedAt(r, k) { assert f < k < n; }
    }
  }

  /** The breaker admits exactly the requests that the log lets pass. */
  lemma {:induction false} AdmitsExactly(r: Run, i: nat)
    requires i < |r.events|
    ensures AdmittedAt(r, i) <==> MayPass(r, i)
    decreases i
  {
    CountsTrailingFailures(r, i);
    forall k: nat | k < i ensures AdmittedAt(r, k) <==> MayPass(r, k) {
      AdmitsExactly(r, k);
    }
    if TrailingFailures(r, i) >= Limit(r) {
      var f := AfterLastFailure(r, i);
      assert forall g: nat :: LatestFailure(r, g, i) ==> g == f;
    }
  }

  // ---------------------------------------------------------------- outcomes of older requests

  /** Every outcome is that of an admitted request, which has no other. */
  ghost predicate Answered(r: Run) {
    forall k {:trigger r.events[k].ask} :: 0 <= k < |r.events| && r.events[k].Done? ==>
      && r.events[k].ask < k && AdmittedAt(r, r.events[k].ask)
      && forall l {:trigger r.events[l].ask} :: 0 <= l < k && r.events[l].Done? ==> r.events[l].ask != r.events[k].ask
  }

  /** The circuit leaves the open state in two ways: a request is admitted as its probe, or any
      request succeeds, and then it is one admitted before the failure that opened the circuit. */
  lemma LeavesOpenExactly(r: Run, i: nat) returns (f: nat)
    requires i < |r.events| && At(r, i).state.Open? && Answered(r)
    ensures LatestFailure(r, f, i)
    ensures At(r, i + 1).state.HalfOpen? <==> AdmittedAt(r, i)
    ensures At(r, i + 1).state.Closed? <==> r.events[i].Done? && r.events[i].ok
    ensures r.events[i].Done? ==> r.events[i].ask < f
  {
    CountsTrailingFailures(r, i);
    f := AfterLastFailure(r, i);
    if r.events[i].Done? {
      var a := r.events[i].ask;
      assert AdmittedAt(r, a);
      assert a != f;
    }
  }

  /** The outcome that ends the half-open state is its probe's, or that of a request admitted before
      the failure that opened the circuit; either way it decides, whether the probe is done or not. */
  lemma HalfOpenDecidedBy(r: Run, i: nat) returns (f: nat, p: nat)
    requires i < |r.events| && At(r, i).state.HalfOpen? && Answered(r) && r.events[i].Done?
    ensures LatestFailure(r, f, i) && f < p < i && AdmittedAt(r, p) && NoOutcome(r, f + 1, i)
    ensures At(r, i + 1).state == if r.events[i].ok then Closed else Open
    ensures r.events[i].ask == p || r.events[i].ask < f
  {
    CountsTrailingFailures(r, i);
    OutcomeEndsHalfOpen(r, i);
    f := AfterLastFailure(r, i);
    p :| f < p < i && AdmittedAt(r, p);
    AdmittedBefore(r, i, f, p, r.events[i].ask);
  }

  /** Before event `i`, with the last outcome a failure at `f` and the probe at `p`, the admitted
      requests are the probe and those that asked before `f`. */
  lemma AdmittedBefore(r: Run, i: nat, f: nat, p: nat, a: nat)
    requires f < p < i <= |r.events| && a < i && r.events[f].Done? && NoOutcome(r, f + 1, i)
    requires !At(r, f + 1).state.Closed? && AdmittedAt(r, p) && AdmittedAt(r, a)
    ensures a == p || a < f
  {
    if f < a < p {
      ProbeIsAlone(r, f, a, p);
    } else if p < a {
      ProbeIsAlone(r, f, p, a);
    }
  }

  /** After the last failure at most one request is admitted before the next outcome. */
  lemma ProbeIsAlone(r: Run, f: nat, p: nat, q: nat)
    requires f < p < q < |r.events| && AdmittedAt(r, p) && NoOutcome(r, f + 1, q) && !At(r, f + 1).state.Closed?
    ensures !AdmittedAt(r, q)
  {
    StaysUnclosed(r, f + 1, p);
    if AdmittedAt(r, q) { OneProbeAtATime(r, p, q); }
  }

  lemma {:induction false} StaysUnclosed(r: Run, i: nat, n: nat)
    requires i <= n <= |r.events| && NoOutcome(r, i, n) && !At(r, i).state.Closed?
    ensures !At(r, n).state.Closed?
    decreases n
  {
    if i == n {
    } else {
      StaysUnclosed(r, i, n - 1);
    }
  }

  /** An admitted request whose outcome is still to come at event `n`. */
  ghost predicate InFlight(r: Run, n: nat, a: nat)
    requires n <= |r.events|
  {
    a < n && AdmittedAt(r, a) && forall k :: 0 <= k < n && r.events[k].Done? ==> r.events[k].ask != a
  }

  lemma {:induction false} PrefixBreaker(r: Run, more: seq<Event>, n: nat)
    requires n <= |r.events|
    ensures At(r.(events := r.events + more), n) == At(r, n)
  {
    if n == 0 {
    } else {
      PrefixBreaker(r, more, n - 1);
    }
  }

  /** Going on with `more`, the circuit closes without admitting anybody. */
  ghost predicate ClosesUnprobed(r: Run, more: seq<Event>) {
    var e := r.(events := r.events + more);
    && Answered(e) && At(e, |e.events|).state.Closed?
    && forall k :: |r.events| <= k < |e.events| ==> !AdmittedAt(e, k)
  }

  /** A circuit closes by an outcome. */
  lemma {:induction false} FirstOutcome(r: Run, i: nat, n: nat) returns (k: nat)
    requires i <= n <= |r.events| && !At(r, i).state.Closed? && At(r, n).state.Closed?
    ensures i <= k < n && r.events[k].Done?
    decreases n
  {
    if r.events[n - 1].Done? {
      k := n - 1;
    } else {
      k := FirstOutcome(r, i, n - 1);
    }
  }

  lemma ClosedByOlder(r: Run, more: seq<Event>) returns (a: nat)
    requires !At(r, |r.events|).state.Closed? && ClosesUnprobed(r, more)
    ensures InFlight(r, |r.events|, a)
  {
    var n := |r.events|;
    var e := r.(events := r.events + more);
    PrefixBreaker(r, more, n);
    var k := FirstOutcome(e, n, |e.events|);
    a := e.events[k].ask;
    assert AdmittedAt(e, a) && a < n;
    PrefixBreaker(r, more, a);
    forall l | 0 <= l < n && r.events[l].Done? ensures r.events[l].ask != a {
      assert e.events[l] == r.events[l];
    }
  }

  lemma OlderCloses(r: Run, a: nat)
    requires Answered(r) && InFlight(r, |r.events|, a)
    ensures ClosesUnprobed(r, [Done(a, true, 0)])
  {
    var more := [Done(a, true, 0)];
    var e := r.(events := r.events + more);
    forall k | 0 <= k < |e.events| && e.events[k].Done?
      ensures e.events[k].ask < k && AdmittedAt(e, e.events[k].ask)
      ensures forall l :: 0 <= l < k && e.events[l].Done? ==> e.events[l].ask != e.events[k].ask
    {
      assert forall l :: 0 <= l < |r.events| ==> e.events[l] == r.events[l];
      PrefixBreaker(r, more, e.events[k].ask);
    }
  }

  /** A circuit that is open or half-open can close with no cooldown and no further probe exactly
      when some admitted request is still in flight. */
  lemma ClosesUnprobedExactly(r: Run)
    requires Answered(r) && !At(r, |r.events|).state.Closed?
    ensures (exists more :: ClosesUnprobed(r, more)) <==> exists a :: InFlight(r, |r.events|, a)
  {
    if more :| ClosesUnprobed(r, more) {
      var a := ClosedByOlder(r, more);
    }
    if a :| InFlight(r, |r.events|, a) {
      OlderCloses(r, a);
    }
  }
}
