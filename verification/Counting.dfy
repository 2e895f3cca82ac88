/** Counting arguments over whole runs: bounded work and conservation. */
module Counting {
  import opened Domain
  import opened Protocol
  import opened Invariant
  import opened Consequences

  // ---------------------------------------------------------------- counting rows of a table

  ghost function Rows<K, V>(m: map<K, V>, p: V -> bool): set<K> {
    set k | k in m && p(m[k])
  }

  ghost function Count<K, V>(m: map<K, V>, p: V -> bool): nat {
    |Rows(m, p)|
  }

  function One(b: bool): nat { if b then 1 else 0 }

  lemma CountWithout<K, V>(m: map<K, V>, k: K, p: V -> bool)
    ensures Count(m, p) == Count(m - {k}, p) + One(k in m && p(m[k]))
  {
    var all, rest := Rows(m, p), Rows(m - {k}, p);
    if k in m && p(m[k]) {
      assert all == rest + {k};
    } else {
      assert all == rest;
    }
  }

  lemma CountUpdate<K, V>(m: map<K, V>, k: K, v: V, p: V -> bool)
    ensures Count(m[k := v], p) == Count(m, p) - One(k in m && p(m[k])) + One(p(v))
  {
    CountWithout(m, k, p);
    CountWithout(m[k := v], k, p);
    assert m[k := v] - {k} == m - {k};
  }

  // ---------------------------------------------------------------- what is counted

  function Rank(status: OrderStatus): nat {
    match status
    case Pending => 3
    case AwaitingHandoff => 3
    case Assigned => 2
    case PickedUp => 1
    case _ => 0
  }

  function RankedAbove(r: nat): OrderRow -> bool {
    (row: OrderRow) => Rank(row.status) > r
  }

  predicate EnRouteRow(row: DroneRow) { EnRoute(row.status) }

  predicate BrokenRow(row: DroneRow) { row.status.Broken? }

  predicate ReservedRow(row: JobRow) { row.status.Reserved? }

  predicate StrandingRow(row: OrderRow) { row.status.Cancelled? && row.drone.Some? }

  function JobOf(o: Uuid): JobRow -> bool {
    (row: JobRow) => row.order == o
  }

  function CancelledJobOf(o: Uuid): JobRow -> bool {
    (row: JobRow) => row.order == o && row.status.JobCancelled?
  }

  /** The summed rank of all orders: how many more successes they can absorb. */
  ghost function Potential(s: State): nat {
    Count(s.orders, RankedAbove(0)) + Count(s.orders, RankedAbove(1)) + Count(s.orders, RankedAbove(2))
  }

  lemma PotentialUpdate(orders: map<Uuid, OrderRow>, o: Uuid, row: OrderRow, s: State, t: State)
    requires s.orders == orders && t.orders == orders[o := row]
    ensures Potential(t) == Potential(s) - (if o in orders then Rank(orders[o].status) else 0) + Rank(row.status)
  {
    CountUpdate(orders, o, row, RankedAbove(0));
    CountUpdate(orders, o, row, RankedAbove(1));
    CountUpdate(orders, o, row, RankedAbove(2));
  }

  // ---------------------------------------------------------------- successes of a run

  ghost function Successes(ops: seq<Op>, n: nat, kind: Op -> bool): nat
    requires n <= |ops|
  {
    if n == 0 then 0
    else Successes(ops, n - 1, kind) + One(Succeeds(ops, n - 1) && kind(ops[n - 1]))
  }

  predicate IsCreate(op: Op) { op.Create? }

  predicate IsBreak(op: Op) { op.Break? }

  predicate IsFix(op: Op) { op.Fix? }

  predicate IsWork(op: Op) { op.Reserve? || op.Grab? || op.Complete? || op.Cancel? || op.Withdraw? }

  // ---------------------------------------------------------------- bounded work

  lemma RankStep(s: State, op: Op, o: Uuid)
    requires Inv(s) && Verdict(s, op).None? && OrderOf(s, op) == Some(o)
    ensures o in Apply(s, op).orders
    ensures Rank(Apply(s, op).orders[o].status) + One(IsWork(op))
            <= (if o in s.orders then Rank(s.orders[o].status) else 0) + 3 * One(IsCreate(op)) + 2 * One(IsBreak(op))
  {
    TouchesOneOrder(s, op);
    if op.Cancel? { LiveJobIffUnfinished(s, o); }
  }

  /** Every success of the working kind lowers the summed rank; only creations and broken
      reports raise it, by at most three and two. */
  lemma WorkStep(s: State, op: Op)
    requires Inv(s) && Verdict(s, op).None?
    ensures Potential(Apply(s, op)) + One(IsWork(op)) <= Potential(s) + 3 * One(IsCreate(op)) + 2 * One(IsBreak(op))
  {
    TouchesOneOrder(s, op);
    if OrderOf(s, op).Some? {
      var o := OrderOf(s, op).value;
      RankStep(s, op, o);
      PotentialUpdate(s.orders, o, Apply(s, op).orders[o], s, Apply(s, op));
    }
  }

  lemma {:induction false} BoundedWork(ops: seq<Op>, n: nat)
    requires n <= |ops|
    ensures Successes(ops, n, IsWork) + Potential(StateAt(ops, n))
            <= 3 * Successes(ops, n, IsCreate) + 2 * Successes(ops, n, IsBreak)
  {
    if n == 0 {
    } else {
      BoundedWork(ops, n - 1);
      RunKeeps(ops, n - 1);
      if Succeeds(ops, n - 1) { WorkStep(StateAt(ops, n - 1), ops[n - 1]); }
    }
  }

  // ---------------------------------------------------------------- conservation

  /** The live job a successful cancellation or handoff replaces, as one row update. */
  lemma ReplacedJob(s: State, o: Uuid) returns (j: Uuid)
    requires Inv(s) && LiveJobs(s, o) != {}
    ensures LiveFor(s, o, j) && CancelLive(s.jobs, o) == s.jobs[j := CancelRow(s.jobs[j])]
    ensures o in s.orders && (s.jobs[j].status.Reserved? <==> s.orders[o].drone.Some?)
  {
    j := LiveWitness(s, o);
    CancelLiveIsSingle(s, o, j);
    assert JobCoupled(s, j);
    assert OrderCoupled(s, o);
  }

  ghost predicate EnRouteBalanced(s: State) {
    Count(s.drones, EnRouteRow) == Count(s.jobs, ReservedRow) + Count(s.orders, StrandingRow)
  }

  /** The net change of the three counts, operation by operation. */
  lemma ReservedJobsStep(s: State, op: Op)
    requires Inv(s) && Verdict(s, op).None?
    ensures Count(Apply(s, op).jobs, ReservedRow) + One(op.Complete?) + One(EndsCarry(s, op))
            == Count(s.jobs, ReservedRow) + One(op.Reserve?)
  {
    match op
    case Create(o, _, _, _, j, now) => CountUpdate(s.jobs, j, NewJobRow(o, now), ReservedRow);
    case Cancel(o, _) => CalledOffReserved(s, o);
    case Withdraw(o) =>
      assert OrderCoupled(s, o);
      CalledOffReserved(s, o);
    case Reserve(j, d) =>
      CountUpdate(s.jobs, j, s.jobs[j].(status := JobStatus.Reserved, reserver := Some(d)), ReservedRow);
    case Complete(_, _, _, pick) =>
      CountUpdate(s.jobs, pick.value, s.jobs[pick.value].(status := Completed), ReservedRow);
    case Break(d, k, now) => if s.drones[d].order.Some? { HandedOffReserved(s, d, k, now); }
    case _ =>
  }

  lemma CalledOffReserved(s: State, o: Uuid)
    requires Inv(s) && LiveJobs(s, o) != {}
    ensures o in s.orders
    ensures Count(CancelLive(s.jobs, o), ReservedRow) + One(s.orders[o].drone.Some?) == Count(s.jobs, ReservedRow)
  {
    var j := ReplacedJob(s, o);
    CountUpdate(s.jobs, j, CancelRow(s.jobs[j]), ReservedRow);
  }

  lemma HandedOffReserved(s: State, d: DroneId, k: Uuid, now: int)
    requires Inv(s) && BreakVerdict(s, d, k).None? && s.drones[d].order.Some?
    ensures Count(BreakEffect(s, d, k, now).jobs, ReservedRow) + 1 == Count(s.jobs, ReservedRow)
  {
    var o := s.drones[d].order.value;
    assert DroneCoupled(s, d);
    CalledOffReserved(s, o);
    CountUpdate(CancelLive(s.jobs, o), k, NewJobRow(o, now), ReservedRow);
  }

  /** The operation cancels an order that a drone holds, or breaks a drone that holds one. */
  ghost predicate EndsCarry(s: State, op: Op) {
    || (op.Cancel? && op.order in s.orders && s.orders[op.order].drone.Some?)
    || (op.Break? && op.drone in s.drones && s.drones[op.drone].order.Some?)
  }

  lemma CountDrone(s: State, op: Op, p: DroneRow -> bool)
    requires Verdict(s, op).None?
    ensures match DroneOf(op)
            case None => Count(Apply(s, op).drones, p) == Count(s.drones, p)
            case Some(d) =>
              && d in Apply(s, op).drones
              && Count(Apply(s, op).drones, p)
                 == Count(s.drones, p) - One(d in s.drones && p(s.drones[d])) + One(p(Apply(s, op).drones[d]))
  {
    TouchesOneDrone(s, op);
    if DroneOf(op).Some? {
      var d := DroneOf(op).value;
      CountUpdate(s.drones, d, Apply(s, op).drones[d], p);
    }
  }

  lemma EnRouteDronesStep(s: State, op: Op)
    requires Inv(s) && Verdict(s, op).None?
    ensures Count(Apply(s, op).drones, EnRouteRow) + One(op.Complete?) + One(op.Break? && EndsCarry(s, op))
            == Count(s.drones, EnRouteRow) + One(op.Reserve?)
  {
    CountDrone(s, op, EnRouteRow);
    if op.Complete? { assert OrderCoupled(s, op.order); }
    if op.Break? { assert DroneCoupled(s, op.drone); }
  }

  lemma StrandingOrdersStep(s: State, op: Op)
    requires Inv(s) && Verdict(s, op).None?
    ensures Count(Apply(s, op).orders, StrandingRow)
            == Count(s.orders, StrandingRow) + One(op.Cancel? && EndsCarry(s, op))
  {
    TouchesOneOrder(s, op);
    if OrderOf(s, op).Some? {
      var o := OrderOf(s, op).value;
      if op.Cancel? { LiveJobIffUnfinished(s, o); }
      CountUpdate(s.orders, o, Apply(s, op).orders[o], StrandingRow);
    }
  }

  /** EN_ROUTE drones are the RESERVED jobs plus the cancelled orders still recording a drone. */
  lemma {:induction false} EnRouteConserved(ops: seq<Op>, n: nat)
    requires n <= |ops|
    ensures EnRouteBalanced(StateAt(ops, n))
  {
    if n == 0 {
    } else {
      EnRouteConserved(ops, n - 1);
      RunKeeps(ops, n - 1);
      if Succeeds(ops, n - 1) {
        ReservedJobsStep(StateAt(ops, n - 1), ops[n - 1]);
        EnRouteDronesStep(StateAt(ops, n - 1), ops[n - 1]);
        StrandingOrdersStep(StateAt(ops, n - 1), ops[n - 1]);
      }
    }
  }

  /** BROKEN drones are the successful broken reports minus the successful fixes. */
  lemma {:induction false} BrokenConserved(ops: seq<Op>, n: nat)
    requires n <= |ops|
    ensures Count(StateAt(ops, n).drones, BrokenRow) + Successes(ops, n, IsFix) == Successes(ops, n, IsBreak)
  {
    if n == 0 {
    } else {
      BrokenConserved(ops, n - 1);
      RunKeeps(ops, n - 1);
      if Succeeds(ops, n - 1) { BrokenStep(StateAt(ops, n - 1), ops[n - 1]); }
    }
  }

  lemma BrokenStep(s: State, op: Op)
    requires Inv(s) && Verdict(s, op).None?
    ensures Count(Apply(s, op).drones, BrokenRow) + One(IsFix(op)) == Count(s.drones, BrokenRow) + One(IsBreak(op))
  {
    CountDrone(s, op, BrokenRow);
    if op.Complete? { assert OrderCoupled(s, op.order); }
  }

  // ---------------------------------------------------------------- jobs of one order

  /** Successful handoffs of `o`: broken reports of the drone that held it. */
  ghost function Handoffs(ops: seq<Op>, n: nat, o: Uuid): nat
    requires n <= |ops|
  {
    if n == 0 then 0
    else Handoffs(ops, n - 1, o) + One(Succeeds(ops, n - 1) && HandsOff(StateAt(ops, n - 1), ops[n - 1], o))
  }

  ghost predicate HandsOff(s: State, op: Op, o: Uuid) {
    op.Break? && op.drone in s.drones && s.drones[op.drone].order == Some(o)
  }

  predicate CalledOff(s: State, o: Uuid) {
    o in s.orders && (s.orders[o].status.Cancelled? || s.orders[o].status.Withdrawn?)
  }

  /** The job counts of `o` changed by `more`, of them `cancelled` cancelled. */
  ghost predicate JobCounts(s: State, t: State, o: Uuid, more: int, cancelled: int) {
    && Count(t.jobs, JobOf(o)) == Count(s.jobs, JobOf(o)) + more
    && Count(t.jobs, CancelledJobOf(o)) == Count(s.jobs, CancelledJobOf(o)) + cancelled
  }

  /** One step changes the job counts of `o` as its creation, handoff or cancellation says. */
  lemma JobsStep(s: State, op: Op, o: Uuid)
    requires Inv(s) && Verdict(s, op).None?
    ensures var t := Apply(s, op); var handoffs := One(HandsOff(s, op, o));
            JobCounts(s, t, o, handoffs + One(o in t.orders) - One(o in s.orders),
                      handoffs + One(CalledOff(t, o)) - One(CalledOff(s, o)))
  {
    match op
    case Create(p, _, _, _, j, now) => NewJobCounts(s.jobs, p, j, now, o);
    case Cancel(p, _) => CancelJobsStep(s, op, o);
    case Withdraw(p) => CancelJobsStep(s, op, o);
    case Break(d, _, _) => BreakJobsStep(s, op, o);
    case _ =>
      OrdersCalledOff(s, op, o);
      OtherJobsStep(s, op, o);
  }

  lemma OrdersCalledOff(s: State, op: Op, o: Uuid)
    requires Verdict(s, op).None? && !op.Create? && !op.Cancel? && !op.Withdraw? && !op.Break?
    ensures (o in Apply(s, op).orders <==> o in s.orders) && (CalledOff(Apply(s, op), o) <==> CalledOff(s, o))
  {
  }

  lemma OtherJobsStep(s: State, op: Op, o: Uuid)
    requires Inv(s) && Verdict(s, op).None? && !op.Create? && !op.Cancel? && !op.Withdraw? && !op.Break?
    ensures JobCounts(s, Apply(s, op), o, 0, 0)
  {
    match op
    case Reserve(j, d) => SameJobCounts(s, j, s.jobs[j].(status := JobStatus.Reserved, reserver := Some(d)), o);
    case Complete(_, _, _, pick) => SameJobCounts(s, pick.value, s.jobs[pick.value].(status := Completed), o);
    case _ =>
  }

  lemma NewJobCounts(jobs: map<Uuid, JobRow>, p: Uuid, j: Uuid, now: int, o: Uuid)
    requires j !in jobs
    ensures Count(jobs[j := NewJobRow(p, now)], JobOf(o)) == Count(jobs, JobOf(o)) + One(o == p)
    ensures Count(jobs[j := NewJobRow(p, now)], CancelledJobOf(o)) == Count(jobs, CancelledJobOf(o))
  {
    CountUpdate(jobs, j, NewJobRow(p, now), JobOf(o));
    CountUpdate(jobs, j, NewJobRow(p, now), CancelledJobOf(o));
  }

  lemma SameJobCounts(s: State, j: Uuid, row: JobRow, o: Uuid)
    requires j in s.jobs && Active(s.jobs[j]) && Active(row) && row.order == s.jobs[j].order
    ensures Count(s.jobs[j := row], JobOf(o)) == Count(s.jobs, JobOf(o))
    ensures Count(s.jobs[j := row], CancelledJobOf(o)) == Count(s.jobs, CancelledJobOf(o))
  {
    CountUpdate(s.jobs, j, row, JobOf(o));
    CountUpdate(s.jobs, j, row, CancelledJobOf(o));
  }

  lemma CancelledOne(s: State, p: Uuid, o: Uuid)
    requires Inv(s) && LiveJobs(s, p) != {}
    ensures p in s.orders
    ensures Count(CancelLive(s.jobs, p), JobOf(o)) == Count(s.jobs, JobOf(o))
    ensures Count(CancelLive(s.jobs, p), CancelledJobOf(o)) == Count(s.jobs, CancelledJobOf(o)) + One(o == p)
  {
    var j := ReplacedJob(s, p);
    CountUpdate(s.jobs, j, CancelRow(s.jobs[j]), JobOf(o));
    CountUpdate(s.jobs, j, CancelRow(s.jobs[j]), CancelledJobOf(o));
  }

  lemma BreakJobsStep(s: State, op: Op, o: Uuid)
    requires Inv(s) && op.Break? && Verdict(s, op).None?
    ensures var t := Apply(s, op);
            && Count(t.jobs, JobOf(o)) == Count(s.jobs, JobOf(o)) + One(HandsOff(s, op, o))
            && Count(t.jobs, CancelledJobOf(o)) == Count(s.jobs, CancelledJobOf(o)) + One(HandsOff(s, op, o))
            && (o in t.orders <==> o in s.orders) && (CalledOff(t, o) <==> CalledOff(s, o))
  {
    var t := Apply(s, op);
    if s.drones[op.drone].order.Some? {
      var p := s.drones[op.drone].order.value;
      CancelledOne(s, p, o);
      NewJobCounts(CancelLive(s.jobs, p), p, op.job, op.now, o);
    }
  }

  lemma CancelJobsStep(s: State, op: Op, o: Uuid)
    requires Inv(s) && (op.Cancel? || op.Withdraw?) && Verdict(s, op).None?
    ensures var t := Apply(s, op);
            && Count(t.jobs, JobOf(o)) == Count(s.jobs, JobOf(o))
            && Count(t.jobs, CancelledJobOf(o)) == Count(s.jobs, CancelledJobOf(o)) + One(o == op.order)
            && !CalledOff(s, op.order) && CalledOff(t, op.order)
  {
    LiveJobIffUnfinished(s, op.order);
    CancelledOne(s, op.order, o);
  }

  /** An order has one job and one more for each handoff; its cancelled jobs are the handoffs
      and one more once the order itself is called off. */
  lemma {:induction false} JobsConserved(ops: seq<Op>, n: nat, o: Uuid)
    requires n <= |ops|
    ensures var s := StateAt(ops, n);
            && Count(s.jobs, JobOf(o)) == Handoffs(ops, n, o) + One(o in s.orders)
            && Count(s.jobs, CancelledJobOf(o)) == Handoffs(ops, n, o) + One(CalledOff(s, o))
  {
    if n == 0 {
    } else {
      JobsConserved(ops, n - 1, o);
      RunKeeps(ops, n - 1);
      if Succeeds(ops, n - 1) { JobsStep(StateAt(ops, n - 1), ops[n - 1], o); }
    }
  }
}
