/** Every error a request may be answered with, and exactly which requests get it, in every
    reachable state: each in terms of the rows and the request, across all operations. */
module Refusals {
  import opened Domain
  import opened Protocol
  import opened Invariant
  import opened Consequences

  /** The order exists but records another drone, or none. */
  predicate NotCarriedBy(s: State, o: Uuid, d: DroneId) {
    o in s.orders && s.orders[o].drone != Some(d)
  }

  /** Forbidden: a pick-up or a completion by a drone that the order does not record. */
  lemma ForbiddenExactly(s: State, op: Op)
    ensures Verdict(s, op) == Some(Forbidden) <==> (op.Grab? || op.Complete?) && NotCarriedBy(s, op.order, op.drone)
  {
  }

  /** Already reserved: a reservation of a job that is reserved, completed or cancelled. */
  lemma AlreadyReservedExactly(s: State, op: Op)
    ensures Verdict(s, op) == Some(AlreadyReserved) <==>
            op.Reserve? && op.job in s.jobs && s.jobs[op.job].status != Open
  {
  }

  /** Already broken: a report of a drone that is broken. */
  lemma AlreadyBrokenExactly(s: State, op: Op)
    ensures Verdict(s, op) == Some(AlreadyBroken) <==>
            op.Break? && op.drone in s.drones && s.drones[op.drone].status == Broken
  {
  }

  /** Not found: the row that a request names first is not there. */
  lemma NotFoundExactly(s: State, op: Op)
    requires Reachable(s)
    ensures Verdict(s, op) == Some(NotFound) <==>
            || ((op.Withdraw? || op.Grab? || op.Complete? || op.AdminUpdate?) && op.order !in s.orders)
            || (op.Reserve? && op.job !in s.jobs)
            || ((op.Break? || op.Fix?) && op.drone !in s.drones)
  {
    ReachableInv(s);
    match op
    case Reserve(j, _) => assert j in s.jobs ==> JobCoupled(s, j);
    case Grab(o, _) => assert o in s.orders ==> OrderCoupled(s, o);
    case Complete(o, _, _, _) => assert o in s.orders ==> OrderCoupled(s, o);
    case Break(d, _, _) => assert d in s.drones ==> DroneCoupled(s, d);
    case _ =>
  }

  // ---------------------------------------------------------------- locations

  /** Latitudes go from -90 to 90 degrees and longitudes from -180 to 180, ends included. */
  predicate OnEarth(at: Location) {
    -90.0 <= at.lat <= 90.0 && -180.0 <= at.lng <= 180.0
  }

  /** A location that may be stored. */
  predicate Fine(spot: Placed) {
    OnEarth(spot.at) && spot.inZone
  }

  /** A location that is given. */
  predicate Given(spot: Option<Placed>, p: Placed -> bool) {
    spot.Some? && p(spot.value)
  }

  predicate OffEarth(spot: Placed) {
    !OnEarth(spot.at)
  }

  predicate OutsideZone(spot: Placed) {
    OnEarth(spot.at) && !spot.inZone
  }

  /** The statuses in which the locations of an order are frozen: not CANCELLED. */
  predicate Frozen(status: OrderStatus) {
    status == Delivered || status == Failed || status == Withdrawn
  }

  /** An admin update gets past its origin: none is given, or a fine one while that is allowed. */
  predicate PastOrigin(s: State, op: Op)
    requires op.AdminUpdate? && op.order in s.orders
  {
    op.newOrigin.None? || (Fine(op.newOrigin.value) && !Frozen(s.orders[op.order].status))
  }

  /** Validation: the first location looked at that is not fine is out of range. */
  lemma ValidationExactly(s: State, op: Op)
    ensures Verdict(s, op) == Some(Validation) <==>
            || (op.Heartbeat? && OffEarth(op.spot))
            || (op.AdminUpdate? && op.order in s.orders
                && (Given(op.newOrigin, OffEarth) || (PastOrigin(s, op) && Given(op.newDestination, OffEarth))))
  {
  }

  /** Out of zone: that location is in range, but outside the zone. */
  lemma OutOfZoneExactly(s: State, op: Op)
    ensures Verdict(s, op) == Some(OutOfZone) <==>
            || (op.Heartbeat? && OutsideZone(op.spot))
            || (op.AdminUpdate? && op.order in s.orders
                && (Given(op.newOrigin, OutsideZone) || (PastOrigin(s, op) && Given(op.newDestination, OutsideZone))))
  {
  }

  // ---------------------------------------------------------------- transitions and the rest

  /** What a report of an unbroken drone that holds an order is answered. */
  lemma HandOffRefused(s: State, d: DroneId, j: Uuid)
    requires Reachable(s)
    ensures d in s.drones && s.drones[d].status != Broken && s.drones[d].order.Some? ==>
              && s.drones[d].order.value in s.orders
              && var o := s.drones[d].order.value;
                 BreakVerdict(s, d, j) == if s.orders[o].status == Cancelled then Some(InvalidTransition)
                                          else if j in s.jobs then Some(Internal) else None
  {
    ReachableInv(s);
    if d in s.drones && s.drones[d].status != Broken && s.drones[d].order.Some? {
      var o := s.drones[d].order.value;
      assert DroneCoupled(s, d) && OrderCoupled(s, o);
      LiveJobIffUnfinished(s, o);
    }
  }

  /** Invalid transition: the one row whose status decides is in the wrong one. */
  lemma InvalidTransitionExactly(s: State, op: Op)
    requires Reachable(s)
    ensures Verdict(s, op) == Some(InvalidTransition) <==>
            match op
            case Withdraw(o) => o in s.orders && s.orders[o].status != Pending
            case Reserve(j, d) =>
              j in s.jobs && s.jobs[j].status == Open && d in s.drones && s.drones[d].status != Idle
            case Grab(o, d) => o in s.orders && s.orders[o].drone == Some(d) && s.orders[o].status != Assigned
            case Complete(o, d, _, _) => o in s.orders && s.orders[o].drone == Some(d) && s.orders[o].status != PickedUp
            case Break(d, _, _) =>
              && d in s.drones && s.drones[d].status != Broken && s.drones[d].order.Some?
              && s.drones[d].order.value in s.orders && s.orders[s.drones[d].order.value].status == Cancelled
            case Fix(d) => d in s.drones && s.drones[d].status != Broken
            case AdminUpdate(o, origin, destination) =>
              && o in s.orders && Frozen(s.orders[o].status)
              && (Given(origin, Fine) || (origin.None? && Given(destination, Fine)))
            case _ => false
  {
    ReachableInv(s);
    match op
    case Withdraw(o) => if o in s.orders { LiveJobIffUnfinished(s, o); }
    case Reserve(j, d) => ReserveNeverFailsAtTheOrder(s, j, d);
    case Grab(o, d) => GrabNeverFailsAtTheDrone(s, o, d);
    case Complete(o, d, _, pick) =>
      if pick.Some? && Latest(s, o, pick.value) { CompleteNeverFailsLate(s, o, d, pick); }
    case Break(d, j, _) => HandOffRefused(s, d, j);
    case _ =>
  }

  /** Internal: an identifier drawn twice, for an order, its job or the job of a handoff; a
      cancellation of an order that is finished or unknown; or a reservation by an unknown drone. */
  lemma InternalExactly(s: State, op: Op)
    requires Reachable(s) && (op.Complete? ==> QueryMayReturn(s, op.order, op.pick))
    ensures Verdict(s, op) == Some(Internal) <==>
            match op
            case Create(o, _, _, _, j, _) => o in s.orders || j in s.jobs
            case Cancel(o, _) => o in s.orders ==> s.orders[o].status in {Delivered, Failed, Withdrawn, Cancelled}
            case Reserve(j, d) => j in s.jobs && s.jobs[j].status == Open && d !in s.drones
            case Break(d, j, _) =>
              && d in s.drones && s.drones[d].status != Broken && s.drones[d].order.Some? && j in s.jobs
              && s.drones[d].order.value in s.orders && s.orders[s.drones[d].order.value].status != Cancelled
            case _ => false
  {
    ReachableInv(s);
    match op
    case Cancel(o, _) => CancelExactly(s, o);
    case Withdraw(o) => if o in s.orders { LiveJobIffUnfinished(s, o); }
    case Complete(o, d, _, pick) => CompleteNeverFailsLate(s, o, d, pick);
    case Break(d, j, _) => HandOffRefused(s, d, j);
    case _ =>
  }
}
