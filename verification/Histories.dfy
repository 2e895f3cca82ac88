/** Properties of whole runs: final statuses, attribution of a delivery, and what the
    cancellation as written does to a drone that already holds the order. */
module Histories {
  import opened Domain
  import opened Protocol
  import opened Invariant
  import opened Consequences

  // ---------------------------------------------------------------- final statuses

  predicate Final(status: OrderStatus) {
    status.Delivered? || status.Failed? || status.Withdrawn? || status.Cancelled?
  }

  /** What no later step may change: the whole row of a terminal order; of a cancelled one,
      everything but the two locations, which the admin update still accepts. */
  ghost predicate FinalKept(before: OrderRow, after: OrderRow) {
    if before.status.Cancelled? then
      after == before.(origin := after.origin, destination := after.destination)
    else after == before
  }

  /** No operation but an admin update touches the row of a finished order. */
  lemma FinalUntouched(s: State, op: Op, o: Uuid)
    requires Inv(s) && o in s.orders && Final(s.orders[o].status) && Verdict(s, op).None?
    ensures op.AdminUpdate? || OrderOf(s, op) != Some(o)
  {
    match op
    case Cancel(p, _) => LiveJobIffUnfinished(s, o);
    case Reserve(j, d) => assert JobCoupled(s, j);
    case Break(d, j, now) => assert DroneCoupled(s, d);
    case _ =>
  }

  lemma FinalStep(s: State, op: Op, o: Uuid)
    requires Inv(s) && o in s.orders && Final(s.orders[o].status)
    ensures o in Apply(s, op).orders && FinalKept(s.orders[o], Apply(s, op).orders[o])
  {
    if Verdict(s, op).None? {
      TouchesOneOrder(s, op);
      FinalUntouched(s, op, o);
    }
  }

  /** Final statuses are absorbing over every run. */
  lemma {:induction false} FinalForever(ops: seq<Op>, k: nat, n: nat, o: Uuid)
    requires k <= n <= |ops|
    requires o in StateAt(ops, k).orders && Final(StateAt(ops, k).orders[o].status)
    ensures o in StateAt(ops, n).orders && FinalKept(StateAt(ops, k).orders[o], StateAt(ops, n).orders[o])
    decreases n
  {
    if k == n {
    } else {
      FinalForever(ops, k, n - 1, o);
      RunKeeps(ops, n - 1);
      FinalStep(StateAt(ops, n - 1), ops[n - 1], o);
    }
  }

  /** A final row changes in one case only: an admin update moves a cancelled order. */
  lemma FinalChangesExactly(s: State, op: Op, o: Uuid)
    requires Inv(s) && o in s.orders && Final(s.orders[o].status)
    ensures o in Apply(s, op).orders
    ensures Apply(s, op).orders[o] != s.orders[o] <==>
            && s.orders[o].status.Cancelled? && op.AdminUpdate? && op.order == o
            && AdminVerdict(s, o, op.newOrigin, op.newDestination).None?
            && (|| (op.newOrigin.Some? && op.newOrigin.value.at != s.orders[o].origin)
                || (op.newDestination.Some? && op.newDestination.value.at != s.orders[o].destination))
  {
    FinalStep(s, op, o);
  }

  // ---------------------------------------------------------------- who submitted an order

  ghost predicate CreatedAt(ops: seq<Op>, i: nat, o: Uuid)
    requires i < |ops|
  {
    ops[i].Create? && ops[i].order == o && Succeeds(ops, i)
  }

  ghost predicate CancelledAt(ops: seq<Op>, i: nat, o: Uuid)
    requires i < |ops|
  {
    ops[i].Cancel? && ops[i].order == o && Succeeds(ops, i)
  }

  lemma {:induction false} OrdersStay(ops: seq<Op>, k: nat, n: nat, o: Uuid)
    requires k <= n <= |ops| && o in StateAt(ops, k).orders
    ensures o in StateAt(ops, n).orders
    decreases n
  {
    if k == n {
    } else {
      OrdersStay(ops, k, n - 1, o);
    }
  }

  /** An order is created once, and cancelled at most once. */
  lemma OnlyOnce(ops: seq<Op>, i: nat, n: nat, o: Uuid)
    requires i < n < |ops|
    ensures CreatedAt(ops, i, o) ==> !CreatedAt(ops, n, o)
    ensures CancelledAt(ops, i, o) ==> !CancelledAt(ops, n, o) && !CreatedAt(ops, n, o)
  {
    assert StateAt(ops, i + 1) == Apply(StateAt(ops, i), ops[i]);
    if CreatedAt(ops, i, o) || CancelledAt(ops, i, o) {
      OrdersStay(ops, i + 1, n, o);
    }
    if CancelledAt(ops, i, o) {
      FinalForever(ops, i + 1, n, o);
    }
  }

  /** The step that named the submitter: the creation, or the cancellation if there has been one. */
  ghost predicate NamedAt(ops: seq<Op>, i: nat, n: nat, o: Uuid)
    requires n <= |ops|
  {
    i < n && (CancelledAt(ops, i, o) || (CreatedAt(ops, i, o) && forall k :: i < k < n ==> !CancelledAt(ops, k, o)))
  }

  /** An order's submitter is its creator until it is cancelled, and from then on whoever
      cancelled it. */
  lemma {:induction false} SubmitterExactly(ops: seq<Op>, n: nat, o: Uuid, who: string)
    requires n <= |ops|
    ensures o in StateAt(ops, n).orders && StateAt(ops, n).orders[o].submittedBy == who <==>
            exists i: nat :: NamedAt(ops, i, n, o) && ops[i].submitter == who
  {
    if n == 0 {
    } else {
      var p := n - 1;
      var s := StateAt(ops, p);
      SubmitterExactly(ops, p, o, who);
      assert StateAt(ops, n) == Apply(s, ops[p]);
      if CreatedAt(ops, p, o) || CancelledAt(ops, p, o) {
        assert NamedAt(ops, p, n, o);
        forall i: nat | NamedAt(ops, i, n, o) ensures i == p {
          if i < p { OnlyOnce(ops, i, p, o); }
        }
      } else {
        SubmitterKept(s, ops[p], o);
        forall i: nat ensures NamedAt(ops, i, n, o) <==> NamedAt(ops, i, p, o) { }
      }
    }
  }

  lemma SubmitterKept(s: State, op: Op, o: Uuid)
    requires (op.Create? || op.Cancel?) && op.order == o ==> Verdict(s, op).Some?
    ensures o in Apply(s, op).orders <==> o in s.orders
    ensures o in s.orders ==> Apply(s, op).orders[o].submittedBy == s.orders[o].submittedBy
  {
  }

  // ---------------------------------------------------------------- where drones and orders are

  ghost predicate HeardAt(ops: seq<Op>, i: nat, d: DroneId)
    requires i < |ops|
  {
    ops[i].Heartbeat? && ops[i].drone == d && Succeeds(ops, i)
  }

  ghost predicate LastHeard(ops: seq<Op>, i: nat, n: nat, d: DroneId)
    requires n <= |ops|
  {
    i < n && HeardAt(ops, i, d) && forall k :: i < k < n ==> !HeardAt(ops, k, d)
  }

  ghost predicate Stamped(row: DroneRow, at: Location, now: int) {
    row.heartbeat == Some(now) && row.at == at
  }

  /** A drone's row is stamped `now` at `at` exactly when its latest accepted heartbeat said so. */
  lemma {:induction false} LocationExactly(ops: seq<Op>, n: nat, d: DroneId, at: Location, now: int)
    requires n <= |ops| && d in StateAt(ops, n).drones
    ensures Stamped(StateAt(ops, n).drones[d], at, now) <==>
            exists i: nat :: LastHeard(ops, i, n, d) && ops[i].spot.at == at && ops[i].now == now
  {
    var p := n - 1;
    var s := StateAt(ops, p);
    assert StateAt(ops, n) == Apply(s, ops[p]);
    if HeardAt(ops, p, d) {
      assert LastHeard(ops, p, n, d);
      assert forall i: nat :: LastHeard(ops, i, n, d) ==> i == p;
    } else {
      StampKept(s, ops[p], d, at, now);
      if d in s.drones { LocationExactly(ops, p, d, at, now); } else { NeverHeard(ops, p, d); }
      forall i: nat ensures LastHeard(ops, i, n, d) <==> LastHeard(ops, i, p, d) { }
    }
  }

  lemma StampKept(s: State, op: Op, d: DroneId, at: Location, now: int)
    requires op.Heartbeat? && op.drone == d ==> Verdict(s, op).Some?
    requires d in Apply(s, op).drones
    ensures d in s.drones ==> (Stamped(Apply(s, op).drones[d], at, now) <==> Stamped(s.drones[d], at, now))
    ensures d !in s.drones ==> Apply(s, op).drones[d] == NEW_DRONE
  {
  }

  /** A drone that has sent no heartbeat is at the origin point, unstamped. */
  lemma {:induction false} UnheardAtOrigin(ops: seq<Op>, n: nat, d: DroneId)
    requires n <= |ops| && d in StateAt(ops, n).drones
    requires forall i :: 0 <= i < n ==> !HeardAt(ops, i, d)
    ensures StateAt(ops, n).drones[d].at == Location(0.0, 0.0) && StateAt(ops, n).drones[d].heartbeat.None?
  {
    var s := StateAt(ops, n - 1);
    var op := ops[n - 1];
    assert !HeardAt(ops, n - 1, d);
    if d in s.drones {
      UnheardAtOrigin(ops, n - 1, d);
      UnheardKept(s, op, d);
    } else {
      StampKept(s, op, d, ORIGIN_POINT, 0);
    }
  }

  lemma UnheardKept(s: State, op: Op, d: DroneId)
    requires d in s.drones && (op.Heartbeat? && op.drone == d ==> Verdict(s, op).Some?)
    ensures d in Apply(s, op).drones
    ensures Apply(s, op).drones[d].at == s.drones[d].at && Apply(s, op).drones[d].heartbeat == s.drones[d].heartbeat
  {
  }

  lemma {:induction false} NeverHeard(ops: seq<Op>, n: nat, d: DroneId)
    requires n <= |ops| && d !in StateAt(ops, n).drones
    ensures forall i :: 0 <= i < n ==> !HeardAt(ops, i, d)
  {
    if n == 0 {
    } else {
      NeverHeard(ops, n - 1, d);
    }
  }

  /** Latitude and longitude in range, and inside the zone. */
  predicate Accepted(at: Location, zone: Location -> bool) {
    -90.0 <= at.lat <= 90.0 && -180.0 <= at.lng <= 180.0 && zone(at)
  }

  /** The answer of a request's zone test is that of `zone`, and orders are placed through the
      handler, which validates both their locations. */
  ghost predicate ZonedOp(op: Op, zone: Location -> bool) {
    match op
    case Create(_, _, origin, destination, _, _) => Accepted(origin, zone) && Accepted(destination, zone)
    case Heartbeat(_, spot, _) => spot.inZone == zone(spot.at)
    case AdminUpdate(_, origin, destination) =>
      && (origin.Some? ==> origin.value.inZone == zone(origin.value.at))
      && (destination.Some? ==> destination.value.inZone == zone(destination.value.at))
    case _ => true
  }

  ghost predicate InZone(s: State, zone: Location -> bool) {
    && (forall o :: o in s.orders ==> Accepted(s.orders[o].origin, zone) && Accepted(s.orders[o].destination, zone))
    && (forall d :: d in s.drones && s.drones[d].heartbeat.Some? ==> Accepted(s.drones[d].at, zone))
  }

  lemma ZonedStep(s: State, op: Op, zone: Location -> bool)
    requires InZone(s, zone) && ZonedOp(op, zone)
    ensures InZone(Apply(s, op), zone)
  {
  }

  /** No stored location is ever out of range or out of the zone, but for drones that have never
      sent a heartbeat. */
  lemma {:induction false} StaysInZone(ops: seq<Op>, n: nat, zone: Location -> bool)
    requires n <= |ops| && forall i :: 0 <= i < n ==> ZonedOp(ops[i], zone)
    ensures InZone(StateAt(ops, n), zone)
  {
    if n == 0 {
    } else {
      StaysInZone(ops, n - 1, zone);
      ZonedStep(StateAt(ops, n - 1), ops[n - 1], zone);
    }
  }

  // ---------------------------------------------------------------- stranded drones

  /** Drone `d` is still recorded on order `o`, which was cancelled under it. */
  ghost predicate Stranded(s: State, d: DroneId, o: Uuid) {
    && d in s.drones && EnRoute(s.drones[d].status) && s.drones[d].order == Some(o)
    && o in s.orders && s.orders[o].status.Cancelled?
  }

  /** A cancellation strands a drone exactly when the order was assigned or picked up. */
  lemma CancelStrandsExactly(s: State, o: Uuid, submitter: string)
    requires Reachable(s) && CancelVerdict(s, o).None?
    ensures (exists d :: Stranded(Apply(s, Cancel(o, submitter)), d, o)) <==>
            s.orders[o].status.Assigned? || s.orders[o].status.PickedUp?
  {
    ReachableInv(s);
    var t := Apply(s, Cancel(o, submitter));
    assert OrderCoupled(s, o);
    if s.orders[o].status.Assigned? || s.orders[o].status.PickedUp? {
      assert Stranded(t, s.orders[o].drone.value, o);
    }
    forall d | Stranded(t, d, o)
      ensures s.orders[o].status.Assigned? || s.orders[o].status.PickedUp?
    {
      assert DroneCoupled(s, d);
      CancelExactly(s, o);
    }
  }

  lemma StrandedStep(s: State, op: Op, d: DroneId, o: Uuid)
    requires Inv(s) && Stranded(s, d, o)
    ensures Stranded(Apply(s, op), d, o)
    ensures Apply(s, op).drones[d].status == s.drones[d].status
  {
  }

  /** A stranded drone keeps its status and its order under every later step. */
  lemma {:induction false} StrandedForever(ops: seq<Op>, k: nat, n: nat, d: DroneId, o: Uuid)
    requires k <= n <= |ops|
    requires Stranded(StateAt(ops, k), d, o)
    ensures Stranded(StateAt(ops, n), d, o)
    ensures StateAt(ops, n).drones[d].status == StateAt(ops, k).drones[d].status
    decreases n
  {
    if k == n {
    } else {
      StrandedForever(ops, k, n - 1, d, o);
      RunKeeps(ops, n - 1);
      StrandedStep(StateAt(ops, n - 1), ops[n - 1], d, o);
    }
  }

  /** Four ordinary requests that strand a drone. */
  lemma StrandedExample() returns (ops: seq<Op>)
    ensures ops == [Create(7, "user", ORIGIN_POINT, ORIGIN_POINT, 8, 0),
                    Heartbeat("drone", Placed(ORIGIN_POINT, true), 1), Reserve(8, "drone"), Cancel(7, "user")]
    ensures Stranded(StateAt(ops, 4), "drone", 7)
  {
    ops := [Create(7, "user", ORIGIN_POINT, ORIGIN_POINT, 8, 0),
            Heartbeat("drone", Placed(ORIGIN_POINT, true), 1), Reserve(8, "drone"), Cancel(7, "user")];
    var s1 := StateAt(ops, 1);
    assert s1 == Apply(StateAt(ops, 0), ops[0]);
    var s2 := StateAt(ops, 2);
    assert s2 == Apply(s1, ops[1]);
    var s3 := StateAt(ops, 3);
    assert s3 == Apply(s2, ops[2]);
    assert 8 in LiveJobs(s3, 7);
  }

  lemma GuardedStep(s: State, op: Op)
    requires Inv(s) && !op.Cancel?
    requires forall o :: o in s.orders ==> !s.orders[o].status.Cancelled?
    ensures forall o :: o in Apply(s, op).orders ==> !Apply(s, op).orders[o].status.Cancelled?
  {
  }

  lemma {:induction false} GuardedRunHasNoCancelled(ops: seq<Op>, n: nat)
    requires n <= |ops|
    requires forall i :: 0 <= i < n ==> !ops[i].Cancel?
    ensures forall o :: o in StateAt(ops, n).orders ==> !StateAt(ops, n).orders[o].status.Cancelled?
  {
    if n == 0 {
    } else {
      GuardedRunHasNoCancelled(ops, n - 1);
      RunKeeps(ops, n - 1);
      GuardedStep(StateAt(ops, n - 1), ops[n - 1]);
    }
  }

  /** If cancellation went through the aggregate's PENDING-only Withdraw, every en-route drone
      would hold an assigned or picked-up order and could always report itself broken. */
  lemma GuardedRunStrandsNoDrone(ops: seq<Op>, n: nat, d: DroneId, j: Uuid)
    requires n <= |ops|
    requires forall i :: 0 <= i < n ==> !ops[i].Cancel?
    requires d in StateAt(ops, n).drones && EnRoute(StateAt(ops, n).drones[d].status)
    ensures var s := StateAt(ops, n);
            && s.drones[d].order.Some? && s.drones[d].order.value in s.orders
            && var o := s.drones[d].order.value;
               && s.orders[o].drone == Some(d)
               && (s.orders[o].status == if s.drones[d].status.EnRoutePickup? then Assigned else PickedUp)
               && (j !in s.jobs ==> BreakVerdict(s, d, j).None?)
  {
    var s := StateAt(ops, n);
    GuardedRunHasNoCancelled(ops, n);
    RunKeeps(ops, n);
    assert Reachable(s);
    assert DroneCoupled(s, d);
    var o := s.drones[d].order.value;
    assert OrderCoupled(s, o);
    BreakExactly(s, d, j);
  }

  // ---------------------------------------------------------------- attribution

  ghost predicate ReservedAt(ops: seq<Op>, i: nat, o: Uuid, d: DroneId)
    requires i < |ops|
  {
    && ops[i].Reserve? && ops[i].drone == d && Succeeds(ops, i)
    && StateAt(ops, i).jobs[ops[i].job].order == o
  }

  ghost predicate GrabbedAt(ops: seq<Op>, i: nat, o: Uuid, d: DroneId)
    requires i < |ops|
  {
    ops[i] == Grab(o, d) && Succeeds(ops, i)
  }

  /** Step `i` changes who carries `o`: somebody reserves it or grabs it, or `d` breaks. */
  ghost predicate Disturbs(ops: seq<Op>, i: nat, o: Uuid, d: DroneId)
    requires i < |ops|
  {
    || (exists e :: ReservedAt(ops, i, o, e))
    || (exists e :: GrabbedAt(ops, i, o, e))
    || (ops[i].Break? && ops[i].drone == d && Succeeds(ops, i))
  }

  ghost predicate QuietFrom(ops: seq<Op>, i: nat, n: nat, o: Uuid, d: DroneId)
    requires n <= |ops|
  {
    forall k: nat {:trigger Disturbs(ops, k, o, d)} :: i <= k < n ==> !Disturbs(ops, k, o, d)
  }

  /** `d` reserved `o` at step `r` and nothing has disturbed that since. */
  ghost predicate AssignedTrail(ops: seq<Op>, n: nat, o: Uuid, d: DroneId, r: nat)
    requires n <= |ops|
  {
    r < n && ReservedAt(ops, r, o, d) && QuietFrom(ops, r + 1, n, o, d)
  }

  /** `d` reserved `o` at step `r`, grabbed it at step `g`, and nothing else disturbed it. */
  ghost predicate CarriedTrail(ops: seq<Op>, n: nat, o: Uuid, d: DroneId, r: nat, g: nat)
    requires n <= |ops|
  {
    r < g < n && AssignedTrail(ops, g, o, d, r) && GrabbedAt(ops, g, o, d) && QuietFrom(ops, g + 1, n, o, d)
  }

  ghost predicate Carried(s: State, o: Uuid, d: DroneId) {
    && o in s.orders && s.orders[o].drone == Some(d)
    && (s.orders[o].status.Assigned? || s.orders[o].status.PickedUp?)
  }

  lemma QuietStep(ops: seq<Op>, n: nat, o: Uuid, d: DroneId)
    requires n < |ops|
    requires Carried(StateAt(ops, n), o, d) && Carried(StateAt(ops, n + 1), o, d)
    requires StateAt(ops, n + 1).orders[o].status == StateAt(ops, n).orders[o].status
    ensures !Disturbs(ops, n, o, d)
  {
    RunKeeps(ops, n);
    var s := StateAt(ops, n);
    assert OrderCoupled(s, o);
    assert StateAt(ops, n + 1) == Apply(s, ops[n]);
  }

  /** How a carried order can have come about in one step. */
  lemma CarriedBefore(s: State, op: Op, o: Uuid, d: DroneId)
    requires Inv(s) && Carried(Apply(s, op), o, d)
    ensures var toAssigned := Apply(s, op).orders[o].status.Assigned?;
            || (Verdict(s, op).None? && op.Reserve? && op.drone == d && s.jobs[op.job].order == o && toAssigned)
            || (&& Verdict(s, op).None? && op == Grab(o, d) && Carried(s, o, d)
                && s.orders[o].status.Assigned? && !toAssigned)
            || (Carried(s, o, d) && s.orders[o].status == Apply(s, op).orders[o].status)
  {
  }

  lemma TrailsExtend(ops: seq<Op>, n: nat, o: Uuid, d: DroneId, r: nat, g: nat)
    requires n < |ops| && !Disturbs(ops, n, o, d)
    ensures AssignedTrail(ops, n, o, d, r) ==> AssignedTrail(ops, n + 1, o, d, r)
    ensures CarriedTrail(ops, n, o, d, r, g) ==> CarriedTrail(ops, n + 1, o, d, r, g)
  {
  }

  /** Every carried order has a trail to the steps that brought it to its drone. */
  lemma {:induction false} Trails(ops: seq<Op>, n: nat, o: Uuid, d: DroneId) returns (r: nat, g: nat)
    requires n <= |ops| && Carried(StateAt(ops, n), o, d)
    ensures if StateAt(ops, n).orders[o].status.Assigned? then AssignedTrail(ops, n, o, d, r)
            else CarriedTrail(ops, n, o, d, r, g)
  {
    var p := n - 1;
    var s, t := StateAt(ops, p), StateAt(ops, n);
    r, g := p, p;
    RunKeeps(ops, p);
    assert t == Apply(s, ops[p]);
    CarriedBefore(s, ops[p], o, d);
    if Carried(s, o, d) && s.orders[o].status == t.orders[o].status {
      r, g := Trails(ops, p, o, d);
      QuietStep(ops, p, o, d);
      TrailsExtend(ops, p, o, d, r, g);
    } else if ops[p] == Grab(o, d) {
      r, g := Trails(ops, p, o, d);
      g := p;
    }
  }

  /** Whoever completes an order made its latest reservation and its latest pick-up, did not
      break in between, and is the reserver recorded on the completed job. */
  lemma Attribution(ops: seq<Op>, n: nat) returns (r: nat, g: nat)
    requires n < |ops| && ops[n].Complete? && Succeeds(ops, n)
    ensures CarriedTrail(ops, n, ops[n].order, ops[n].drone, r, g)
    ensures var job := StateAt(ops, n + 1).jobs[ops[n].pick.value];
            job.order == ops[n].order && job.status.Completed? && job.reserver == Some(ops[n].drone)
  {
    var s := StateAt(ops, n);
    RunKeeps(ops, n);
    r, g := Trails(ops, n, ops[n].order, ops[n].drone);
    assert Reachable(s);
    CompleteNeverFailsLate(s, ops[n].order, ops[n].drone, ops[n].pick);
  }
}
