/** What the coupling invariant says about any reachable committed state. */
module Consequences {
  import opened Domain
  import opened Protocol
  import opened Invariant

  function JobsWith(s: State, o: Uuid, status: JobStatus): set<Uuid> {
    set j | j in s.jobs && s.jobs[j].order == o && s.jobs[j].status == status
  }

  /** The jobs of `o` that are not cancelled are exactly `job`, in the given status. */
  ghost predicate OnlyJob(s: State, o: Uuid, job: Uuid, status: JobStatus, reserver: Option<DroneId>) {
    && JobsWith(s, o, Open) == (if status.Open? then {job} else {})
    && JobsWith(s, o, Reserved) == (if status.Reserved? then {job} else {})
    && JobsWith(s, o, Completed) == (if status.Completed? then {job} else {})
    && job in s.jobs && s.jobs[job].reserver == reserver
  }

  // ---------------------------------------------------------------- coupling

  /** Orders and drones record each other, cancelled orders included. */
  lemma AssignedIffCurrent(s: State, o: Uuid, d: DroneId)
    requires Reachable(s)
    ensures (o in s.orders && s.orders[o].drone == Some(d)) <==> (d in s.drones && s.drones[d].order == Some(o))
  {
    ReachableInv(s);
    assert o in s.orders ==> OrderCoupled(s, o);
    assert d in s.drones ==> DroneCoupled(s, d);
  }

  /** The unordered single-row lookup of a drone's order has at most one row to return. */
  lemma LookupByDroneUnambiguous(s: State, o: Uuid, p: Uuid, d: DroneId)
    requires Reachable(s)
    requires o in s.orders && s.orders[o].drone == Some(d)
    requires p in s.orders && s.orders[p].drone == Some(d)
    ensures o == p
  {
    AssignedIffCurrent(s, o, d);
    AssignedIffCurrent(s, p, d);
  }

  lemma OnlyJobFrom(s: State, o: Uuid, j: Uuid)
    requires Inv(s) && ActiveFor(s, o, j)
    ensures OnlyJob(s, o, j, s.jobs[j].status, s.jobs[j].reserver)
  {
    forall i | i in s.jobs && s.jobs[i].order == o && !s.jobs[i].status.JobCancelled?
      ensures i == j
    {
      assert ActiveFor(s, o, i);
    }
  }

  /** The whole coupling of an order with its jobs and its drone, status by status. */
  lemma FullCoupling(s: State, o: Uuid) returns (job: Uuid)
    requires Reachable(s) && o in s.orders
    ensures var row := s.orders[o];
      match row.status
      case Assigned =>
        && row.drone.Some? && Holds(s, row.drone.value, o, EnRoutePickup)
        && OnlyJob(s, o, job, Reserved, row.drone)
      case PickedUp =>
        && row.drone.Some? && Holds(s, row.drone.value, o, EnRouteDelivery)
        && OnlyJob(s, o, job, Reserved, row.drone)
      case Delivered =>
        && row.drone.None? && job in s.jobs && s.jobs[job].reserver.Some?
        && OnlyJob(s, o, job, Completed, s.jobs[job].reserver)
      case Failed =>
        && row.drone.None? && job in s.jobs && s.jobs[job].reserver.Some?
        && OnlyJob(s, o, job, Completed, s.jobs[job].reserver)
      case Pending => row.drone.None? && OnlyJob(s, o, job, Open, None)
      case AwaitingHandoff => row.drone.None? && OnlyJob(s, o, job, Open, None)
      case _ => JobsWith(s, o, Open) == JobsWith(s, o, Reserved) == JobsWith(s, o, Completed) == {}
  {
    ReachableInv(s);
    assert OrderCoupled(s, o);
    if s.orders[o].status.Cancelled? || s.orders[o].status.Withdrawn? {
      job := 0;
      assert forall j :: j in s.jobs ==> JobCoupled(s, j);
    } else {
      job :| ActiveFor(s, o, job);
      OnlyJobFrom(s, o, job);
      assert JobCoupled(s, job);
    }
  }

  /** The row that ORDER BY/LIMIT picks is the only candidate, whatever the time stamps. */
  lemma PickIsUnique(s: State, o: Uuid, pick: Option<Uuid>)
    requires Reachable(s) && o in s.orders && s.orders[o].status.PickedUp?
    ensures QueryMayReturn(s, o, pick) <==>
            pick.Some? && JobsWith(s, o, Reserved) == {pick.value} && s.jobs[pick.value].reserver == s.orders[o].drone
  {
    ReachableInv(s);
    var j := FullCoupling(s, o);
    assert j in JobsWith(s, o, Reserved);
    assert ActiveFor(s, o, j);
    forall i | ActiveFor(s, o, i) ensures i == j { }
    assert Latest(s, o, j);
    if pick.Some? && JobsWith(s, o, Reserved) == {pick.value} {
      assert pick.value in JobsWith(s, o, Reserved);
    }
  }

  // ---------------------------------------------------------------- late checks never fire

  /** Once the job is open and the drone exists and is idle, reserving succeeds. */
  lemma ReserveNeverFailsAtTheOrder(s: State, j: Uuid, d: DroneId)
    requires Reachable(s)
    ensures ReserveVerdict(s, j, d).None? <==>
            j in s.jobs && s.jobs[j].status.Open? && d in s.drones && s.drones[d].status.Idle?
  {
    ReachableInv(s);
    assert j in s.jobs ==> JobCoupled(s, j);
  }

  /** Once the order passes, grabbing succeeds. */
  lemma GrabNeverFailsAtTheDrone(s: State, o: Uuid, d: DroneId)
    requires Reachable(s)
    ensures GrabVerdict(s, o, d).None? <==>
            o in s.orders && s.orders[o].drone == Some(d) && s.orders[o].status.Assigned?
  {
    ReachableInv(s);
    assert o in s.orders ==> OrderCoupled(s, o);
  }

  /** Once the order passes, completing succeeds, and the drone that the unguarded GoIdle
      resets was delivering this very order. */
  lemma CompleteNeverFailsLate(s: State, o: Uuid, d: DroneId, pick: Option<Uuid>)
    requires Reachable(s) && QueryMayReturn(s, o, pick)
    ensures CompleteVerdict(s, o, d, pick).None? <==>
            o in s.orders && s.orders[o].drone == Some(d) && s.orders[o].status.PickedUp?
    ensures CompleteVerdict(s, o, d, pick).None? ==>
            && Holds(s, d, o, EnRouteDelivery)
            && s.jobs[pick.value].status.Reserved? && s.jobs[pick.value].reserver == Some(d)
  {
    ReachableInv(s);
    if o in s.orders && s.orders[o].status.PickedUp? {
      assert OrderCoupled(s, o);
      PickIsUnique(s, o, pick);
      assert pick.value in JobsWith(s, o, Reserved);
    }
  }

  /** A report fails exactly for an unknown drone, a broken one, one whose order was cancelled
      under it, or a handoff job identifier already taken. */
  lemma BreakExactly(s: State, d: DroneId, j: Uuid)
    requires Reachable(s)
    ensures BreakVerdict(s, d, j).None? <==>
            && d in s.drones && !s.drones[d].status.Broken?
            && (s.drones[d].order.Some? ==>
                  && s.drones[d].order.value in s.orders
                  && !s.orders[s.drones[d].order.value].status.Cancelled?
                  && j !in s.jobs)
  {
    ReachableInv(s);
    if d in s.drones && s.drones[d].order.Some? {
      var o := s.drones[d].order.value;
      assert DroneCoupled(s, d);
      assert OrderCoupled(s, o);
      if !s.orders[o].status.Cancelled? {
        var k := FullCoupling(s, o);
        assert k in JobsWith(s, o, Reserved);
        assert k in LiveJobs(s, o);
      }
    }
  }

  // ---------------------------------------------------------------- cancellation

  lemma LiveJobIffUnfinished(s: State, o: Uuid)
    requires Inv(s) && o in s.orders
    ensures LiveJobs(s, o) != {} <==> Unfinished(s.orders[o].status)
  {
    assert OrderCoupled(s, o);
    if LiveJobs(s, o) != {} {
      var j := LiveWitness(s, o);
      assert JobCoupled(s, j);
    }
    if Unfinished(s.orders[o].status) {
      var j :| ActiveFor(s, o, j);
      assert JobCoupled(s, j);
      assert j in LiveJobs(s, o);
    }
  }

  predicate Unfinished(status: OrderStatus) {
    status.Pending? || status.AwaitingHandoff? || status.Assigned? || status.PickedUp?
  }

  /** The order UPDATE alone would match a delivered or failed order; the zero-row job UPDATE
      is what makes the transaction roll back. */
  lemma CancelExactly(s: State, o: Uuid)
    requires Reachable(s)
    ensures CancelVerdict(s, o).None? <==> o in s.orders && Unfinished(s.orders[o].status)
  {
    ReachableInv(s);
    if o in s.orders { LiveJobIffUnfinished(s, o); }
  }

  /** The documentation promises withdrawal of a pending order. The code cancels more: it
      agrees with the aggregate's rule exactly outside three statuses. */
  lemma CancelAgreesWithWithdraw(s: State, o: Uuid)
    requires Reachable(s)
    ensures (CancelVerdict(s, o).None? <==> WithdrawVerdict(s, o).None?) <==>
            (o in s.orders ==>
               var status := s.orders[o].status;
               !status.Assigned? && !status.PickedUp? && !status.AwaitingHandoff?)
  {
    CancelExactly(s, o);
    ReachableInv(s);
    if o in s.orders { LiveJobIffUnfinished(s, o); }
  }

  // ---------------------------------------------------------------- progress

  /** Reserve, grab and complete carry any waiting order to DELIVERED with any idle drone. */
  lemma Progress(s: State, o: Uuid, d: DroneId) returns (j: Uuid, ops: seq<Op>)
    requires Reachable(s)
    requires o in s.orders && Assignable(s.orders[o].status)
    requires d in s.drones && s.drones[d].status.Idle?
    ensures LiveJobs(s, o) == {j}
    ensures ops == [Reserve(j, d), Grab(o, d), Complete(o, d, true, Some(j))]
    ensures var s1 := Apply(s, ops[0]); var s2 := Apply(s1, ops[1]); var s3 := Apply(s2, ops[2]);
            && Verdict(s, ops[0]).None? && Verdict(s1, ops[1]).None? && Verdict(s2, ops[2]).None?
            && (forall pick :: QueryMayReturn(s2, o, pick) <==> pick == Some(j))
            && s3.orders[o].status.Delivered? && s3.orders[o].drone.None?
            && s3.drones[d].status.Idle? && s3.drones[d].order.None?
            && s3.jobs[j].status.Completed? && s3.jobs[j].reserver == Some(d)
  {
    ReachableInv(s);
    assert OrderCoupled(s, o);
    j :| ActiveFor(s, o, j);
    assert JobCoupled(s, j);
    CancelLiveIsSingle(s, o, j);
    ops := [Reserve(j, d), Grab(o, d), Complete(o, d, true, Some(j))];
    var s1 := Apply(s, ops[0]);
    var s2 := Apply(s1, ops[1]);
    forall i | ActiveFor(s2, o, i) ensures i == j {
      assert ActiveFor(s, o, i);
    }
    assert ActiveFor(s2, o, j);
    assert Latest(s2, o, j);
  }

  /** A broken report followed by a fix returns an en-route drone to IDLE and its order to the
      open jobs, unless the order was cancelled under it. */
  lemma BreakThenFix(s: State, d: DroneId, j: Uuid, now: int)
    requires Reachable(s)
    requires d in s.drones && EnRoute(s.drones[d].status) && j !in s.jobs
    ensures s.drones[d].order.Some? && s.drones[d].order.value in s.orders
    ensures var o := s.drones[d].order.value;
            var s1 := Apply(s, Break(d, j, now)); var s2 := Apply(s1, Fix(d));
            if s.orders[o].status.Cancelled? then
              s1 == s && s2 == s
            else
              && s2.drones[d].status.Idle? && s2.drones[d].order.None?
              && s2.orders[o].status.AwaitingHandoff? && LiveJobs(s2, o) == {j} && s2.jobs[j].status.Open?
  {
    ReachableInv(s);
    assert DroneCoupled(s, d);
    var o := s.drones[d].order.value;
    assert OrderCoupled(s, o);
    BreakExactly(s, d, j);
    if !s.orders[o].status.Cancelled? {
      var s1 := Apply(s, Break(d, j, now));
      BreakKeeps(s, Break(d, j, now));
      CancelLiveIsSingle(s1, o, j);
      assert LiveJobs(Apply(s1, Fix(d)), o) == LiveJobs(s1, o);
    }
  }
}
