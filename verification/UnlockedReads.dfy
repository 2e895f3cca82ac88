/** What happens when an operation reads a row without a lock and later writes the whole row
    back: exactly when the write is the atomic operation, and exactly when it leaves the tables
    coupled. Heartbeat, mark-fixed and admin update work this way. */
module UnlockedReads {
  import opened Domain
  import opened Protocol
  import opened Invariant

  // ---------------------------------------------------------------- drones

  /** An UPDATE of every column of a drone. */
  function PutRow(s: State, d: DroneId, row: DroneRow): State {
    s.(drones := s.drones[d := row])
  }

  /** A heartbeat writes back `row`, read at some earlier time, with location and time stamp. */
  function WriteBack(s: State, d: DroneId, row: DroneRow, at: Location, now: int): State {
    PutRow(s, d, row.(at := at, heartbeat := Some(now)))
  }

  /** A fix writes back `row`, read at some earlier time, as idle. */
  function WriteBackFixed(s: State, d: DroneId, row: DroneRow): State {
    PutRow(s, d, row.(status := Idle, order := None))
  }

  /** The write-back is the atomic heartbeat exactly when status and order are still as read. */
  lemma WriteBackIsAtomicExactly(s: State, d: DroneId, row: DroneRow, at: Location, now: int)
    requires d in s.drones
    ensures WriteBack(s, d, row, at, now) == HeartbeatEffect(s, d, at, now) <==>
            row.status == s.drones[d].status && row.order == s.drones[d].order
  {
    assert WriteBack(s, d, row, at, now).drones[d] == row.(at := at, heartbeat := Some(now));
    assert HeartbeatEffect(s, d, at, now).drones[d] == s.drones[d].(at := at, heartbeat := Some(now));
  }

  /** The fix's write-back is an atomic fix exactly when the drone is still broken and has sent
      no heartbeat. */
  lemma WriteBackFixedIsAtomicExactly(s: State, d: DroneId, row: DroneRow)
    requires d in s.drones
    ensures FixVerdict(s, d).None? && WriteBackFixed(s, d, row) == FixEffect(s, d) <==>
            s.drones[d].status.Broken? && row.at == s.drones[d].at && row.heartbeat == s.drones[d].heartbeat
  {
    assert WriteBackFixed(s, d, row).drones[d] == row.(status := Idle, order := None);
    assert FixVerdict(s, d).None? ==> FixEffect(s, d).drones[d] == s.drones[d].(status := Idle, order := None);
  }

  /** Which rows, written over a drone's, leave the tables coupled. */
  ghost predicate Harmless(s: State, d: DroneId, row: DroneRow)
    requires d in s.drones
  {
    && row.order == s.drones[d].order
    && match row.order
       case None => !EnRoute(row.status)
       case Some(o) =>
         && EnRoute(row.status)
         && (o in s.orders && !s.orders[o].status.Cancelled? ==> row.status == s.drones[d].status)
  }

  lemma PutKeepsCouplingExactly(s: State, d: DroneId, row: DroneRow)
    requires Inv(s) && d in s.drones
    ensures Inv(PutRow(s, d, row)) <==> Harmless(s, d, row)
  {
    var t := PutRow(s, d, row);
    assert forall o, j :: ActiveFor(t, o, j) <==> ActiveFor(s, o, j);
    assert DroneCoupled(s, d);
    if Inv(t) {
      assert DroneCoupled(t, d);
      if s.drones[d].order.Some? {
        var o := s.drones[d].order.value;
        assert OrderCoupled(s, o) && OrderCoupled(t, o);
      }
      if row.order.Some? {
        var o := row.order.value;
        assert OrderCoupled(s, o);
      }
    }
    if Harmless(s, d, row) {
      forall o | o in t.orders ensures OrderCoupled(t, o) {
        assert OrderCoupled(s, o);
        KeepsActive(s, t, o);
      }
      forall e | e in t.drones ensures DroneCoupled(t, e) {
        assert e != d ==> DroneCoupled(s, e);
      }
      forall j | j in t.jobs ensures JobCoupled(t, j) {
        assert JobCoupled(s, j);
      }
    }
  }

  lemma WriteBackKeepsCouplingExactly(s: State, d: DroneId, row: DroneRow, at: Location, now: int)
    requires Inv(s) && d in s.drones
    ensures Inv(WriteBack(s, d, row, at, now)) <==> Harmless(s, d, row)
  {
    PutKeepsCouplingExactly(s, d, row.(at := at, heartbeat := Some(now)));
  }

  /** A stale fix keeps the coupling exactly when the drone has no order by now. */
  lemma WriteBackFixedKeepsCouplingExactly(s: State, d: DroneId, row: DroneRow)
    requires Inv(s) && d in s.drones
    ensures Inv(WriteBackFixed(s, d, row)) <==> s.drones[d].order.None?
  {
    PutKeepsCouplingExactly(s, d, row.(status := Idle, order := None));
  }

  /** EnsureExists takes any failing read for a missing drone and upserts a new one. Over an
      existing drone that keeps the coupling exactly when the drone holds no order. */
  lemma ResetKeepsCouplingExactly(s: State, d: DroneId)
    requires Inv(s) && d in s.drones
    ensures Inv(Reset(s, d)) <==> s.drones[d].order.None?
  {
    PutKeepsCouplingExactly(s, d, NEW_DRONE);
  }

  /** A heartbeat over such a reset is the atomic heartbeat exactly when the drone was unknown,
      or idle without an order. */
  lemma ResetHeartbeatIsAtomicExactly(s: State, d: DroneId, at: Location, now: int)
    ensures HeartbeatEffect(Reset(s, d), d, at, now) == HeartbeatEffect(s, d, at, now) <==>
            (d in s.drones ==> s.drones[d].status.Idle? && s.drones[d].order.None?)
  {
    assert HeartbeatEffect(Reset(s, d), d, at, now) == WriteBack(s, d, NEW_DRONE, at, now);
    if d in s.drones { WriteBackIsAtomicExactly(s, d, NEW_DRONE, at, now); }
  }

  /** A heartbeat that read before a reservation committed and writes after it loses the
      reservation: the drone is idle again while the order still waits for it. */
  lemma HeartbeatLosesReservation(s: State, j: Uuid, d: DroneId, at: Location, now: int)
    requires Reachable(s) && ReserveVerdict(s, j, d).None?
    ensures var o := s.jobs[j].order;
            var t := WriteBack(ReserveEffect(s, j, d), d, s.drones[d], at, now);
            && !Inv(t)
            && t.orders[o].drone == Some(d) && t.orders[o].status.Assigned?
            && t.drones[d].status.Idle? && t.drones[d].order.None?
            && GrabVerdict(t, o, d) == Some(InvalidTransition)
  {
    ReachableInv(s);
    var t := WriteBack(ReserveEffect(s, j, d), d, s.drones[d], at, now);
    assert DroneCoupled(s, d);
    assert !OrderCoupled(t, s.jobs[j].order);
  }

  // ---------------------------------------------------------------- orders

  /** An admin update writes back `row`, read at some earlier time, with the given locations; the
      UPDATE leaves the submitter alone. */
  function WriteBackOrder(s: State, o: Uuid, row: OrderRow,
                          origin: Option<Placed>, destination: Option<Placed>): State
    requires o in s.orders
  {
    s.(orders := s.orders[o := row.(submittedBy := s.orders[o].submittedBy,
                                    origin := MoveTo(row.origin, origin),
                                    destination := MoveTo(row.destination, destination))])
  }

  /** It is the atomic update exactly when everything it does not set is still as read. */
  lemma WriteBackOrderIsAtomicExactly(s: State, o: Uuid, row: OrderRow,
                                      origin: Option<Placed>, destination: Option<Placed>)
    requires AdminVerdict(s, o, origin, destination).None?
    ensures WriteBackOrder(s, o, row, origin, destination) == AdminEffect(s, o, origin, destination) <==>
            && row.status == s.orders[o].status && row.drone == s.orders[o].drone
            && (origin.None? ==> row.origin == s.orders[o].origin)
            && (destination.None? ==> row.destination == s.orders[o].destination)
  {
    var mine := WriteBackOrder(s, o, row, origin, destination).orders[o];
    var atomic := AdminEffect(s, o, origin, destination).orders[o];
    assert mine == atomic <==>
           WriteBackOrder(s, o, row, origin, destination) == AdminEffect(s, o, origin, destination);
  }

  /** Statuses that the coupling cannot tell apart. */
  predicate Alike(status: OrderStatus, other: OrderStatus, drone: Option<DroneId>) {
    || status == other
    || (Assignable(status) && Assignable(other))
    || (Finished(status) && Finished(other))
    || (drone.None? && Abandoned(status) && Abandoned(other))
  }

  predicate Finished(status: OrderStatus) {
    status.Delivered? || status.Failed?
  }

  predicate Abandoned(status: OrderStatus) {
    status.Cancelled? || status.Withdrawn?
  }

  /** Two coupled states with the same drones record the same drone on an order. */
  lemma CoupledSameDrone(s: State, t: State, o: Uuid)
    requires Inv(s) && Inv(t) && s.drones == t.drones && o in s.orders && o in t.orders
    ensures s.orders[o].drone == t.orders[o].drone
  {
    assert OrderCoupled(s, o) && OrderCoupled(t, o);
    if s.orders[o].drone.Some? { assert DroneCoupled(t, s.orders[o].drone.value); }
    if t.orders[o].drone.Some? { assert DroneCoupled(s, t.orders[o].drone.value); }
  }

  /** Two coupled states with the same drones and jobs give an order alike statuses. */
  lemma CoupledAlike(s: State, t: State, o: Uuid)
    requires Inv(s) && Inv(t) && s.drones == t.drones && s.jobs == t.jobs && o in s.orders && o in t.orders
    requires s.orders[o].drone == t.orders[o].drone
    ensures Alike(t.orders[o].status, s.orders[o].status, t.orders[o].drone)
  {
    assert OrderCoupled(s, o) && OrderCoupled(t, o);
    assert forall j :: ActiveFor(s, o, j) <==> ActiveFor(t, o, j);
    if HasActive(s, o) {
      var j :| ActiveFor(s, o, j);
      assert JobCoupled(s, j) && JobCoupled(t, j);
    }
  }

  lemma AlikeKeeps(s: State, t: State, o: Uuid)
    requires Inv(s) && o in s.orders && o in t.orders && t == s.(orders := s.orders[o := t.orders[o]])
    requires t.orders[o].drone == s.orders[o].drone
    requires Alike(t.orders[o].status, s.orders[o].status, t.orders[o].drone)
    ensures Inv(t)
  {
    assert forall p, j :: ActiveFor(t, p, j) <==> ActiveFor(s, p, j);
    forall p | p in t.orders ensures OrderCoupled(t, p) {
      assert OrderCoupled(s, p);
      KeepsActive(s, t, p);
    }
    forall d | d in t.drones ensures DroneCoupled(t, d) {
      assert DroneCoupled(s, d);
    }
    forall j | j in t.jobs ensures JobCoupled(t, j) {
      assert JobCoupled(s, j);
    }
  }

  /** A stale admin update keeps the coupling exactly when the order's drone is still as read and
      its status at most an indistinguishable one. */
  lemma WriteBackOrderKeepsCouplingExactly(s: State, o: Uuid, row: OrderRow,
                                           origin: Option<Placed>, destination: Option<Placed>)
    requires Inv(s) && o in s.orders
    ensures Inv(WriteBackOrder(s, o, row, origin, destination)) <==>
            row.drone == s.orders[o].drone && Alike(row.status, s.orders[o].status, row.drone)
  {
    var t := WriteBackOrder(s, o, row, origin, destination);
    if Inv(t) {
      CoupledSameDrone(s, t, o);
      CoupledAlike(s, t, o);
    }
    if row.drone == s.orders[o].drone && Alike(row.status, s.orders[o].status, row.drone) {
      AlikeKeeps(s, t, o);
    }
  }

  /** An admin update that read before a reservation committed and writes after it undoes the
      order's half of the reservation: the order waits for a drone that is on its way, its job
      stays reserved, and nobody can grab it or reserve it again. */
  lemma AdminUpdateLosesReservation(s: State, j: Uuid, d: DroneId,
                                    origin: Option<Placed>, destination: Option<Placed>)
    requires Reachable(s) && ReserveVerdict(s, j, d).None?
    ensures var o := s.jobs[j].order;
            var t := WriteBackOrder(ReserveEffect(s, j, d), o, s.orders[o], origin, destination);
            && !Inv(t)
            && Assignable(t.orders[o].status) && t.drones[d].order == Some(o) && t.drones[d].status.EnRoutePickup?
            && GrabVerdict(t, o, d) == Some(Forbidden)
            && forall i, e :: i in t.jobs && t.jobs[i].order == o ==> ReserveVerdict(t, i, e) == Some(AlreadyReserved)
  {
    ReachableInv(s);
    var o := s.jobs[j].order;
    var t := WriteBackOrder(ReserveEffect(s, j, d), o, s.orders[o], origin, destination);
    assert OrderCoupled(s, o) && ActiveFor(s, o, j);
    assert !DroneCoupled(t, d);
    forall i | i in t.jobs && t.jobs[i].order == o ensures !t.jobs[i].status.Open? {
      assert i != j && s.jobs[i].status.Open? ==> ActiveFor(s, o, i);
    }
  }
}
