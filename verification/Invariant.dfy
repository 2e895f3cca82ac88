/** The coupling invariant between the three tables, stated nowhere in the source, and its
    preservation by every operation. */
module Invariant {
  import opened Domain
  import opened Protocol

  ghost predicate HasActive(s: State, o: Uuid) {
    exists j :: ActiveFor(s, o, j)
  }

  ghost predicate Holds(s: State, d: DroneId, o: Uuid, status: DroneStatus) {
    d in s.drones && s.drones[d].order == Some(o) && s.drones[d].status == status
  }

  ghost predicate OrderCoupled(s: State, o: Uuid)
    requires o in s.orders
  {
    var row := s.orders[o];
    match row.status
    case Assigned => row.drone.Some? && Holds(s, row.drone.value, o, EnRoutePickup) && HasActive(s, o)
    case PickedUp => row.drone.Some? && Holds(s, row.drone.value, o, EnRouteDelivery) && HasActive(s, o)
    case Cancelled =>
      row.drone.Some? ==> Holds(s, row.drone.value, o, EnRoutePickup) || Holds(s, row.drone.value, o, EnRouteDelivery)
    case Withdrawn => row.drone.None?
    case _ => row.drone.None? && HasActive(s, o)
  }

  ghost predicate DroneCoupled(s: State, d: DroneId)
    requires d in s.drones
  {
    match s.drones[d].order
    case None => !EnRoute(s.drones[d].status)
    case Some(o) => EnRoute(s.drones[d].status) && o in s.orders && s.orders[o].drone == Some(d)
  }

  ghost predicate JobCoupled(s: State, j: Uuid)
    requires j in s.jobs
  {
    var row := s.jobs[j];
    && row.order in s.orders
    && var o := s.orders[row.order];
       match row.status
       case Open => row.reserver.None? && Assignable(o.status)
       case Reserved => row.reserver.Some? && row.reserver == o.drone && (o.status.Assigned? || o.status.PickedUp?)
       case Completed => row.reserver.Some? && (o.status.Delivered? || o.status.Failed?)
       case JobCancelled => row.reserver.None?
  }

  ghost predicate OneActive(s: State) {
    forall o, i, j :: ActiveFor(s, o, i) && ActiveFor(s, o, j) ==> i == j
  }

  ghost predicate Inv(s: State) {
    && (forall o :: o in s.orders ==> OrderCoupled(s, o))
    && (forall d :: d in s.drones ==> DroneCoupled(s, d))
    && (forall j :: j in s.jobs ==> JobCoupled(s, j))
    && OneActive(s)
  }

  // ---------------------------------------------------------------- helpers

  /** Under the invariant the cancelling UPDATE touches exactly one row. */
  lemma CancelLiveIsSingle(s: State, o: Uuid, j: Uuid)
    requires OneActive(s) && LiveFor(s, o, j)
    ensures CancelLive(s.jobs, o) == s.jobs[j := CancelRow(s.jobs[j])]
    ensures LiveJobs(s, o) == {j}
  {
    forall i | i in s.jobs ensures LiveFor(s, o, i) <==> i == j {
      assert ActiveFor(s, o, j);
      assert LiveFor(s, o, i) ==> ActiveFor(s, o, i);
    }
    assert forall i | i in s.jobs :: CancelLive(s.jobs, o)[i] == s.jobs[j := CancelRow(s.jobs[j])][i];
  }

  lemma LiveWitness(s: State, o: Uuid) returns (j: Uuid)
    requires LiveJobs(s, o) != {}
    ensures LiveFor(s, o, j) && ActiveFor(s, o, j)
  {
    j :| j in LiveJobs(s, o);
  }

  /** Rewriting rows without changing which jobs are active for an order keeps `HasActive`. */
  lemma KeepsActive(s: State, t: State, o: Uuid)
    requires forall j :: ActiveFor(s, o, j) ==> ActiveFor(t, o, j)
    ensures HasActive(s, o) ==> HasActive(t, o)
  {
  }

  // ---------------------------------------------------------------- one lemma per operation

  lemma CreateKeeps(s: State, op: Op)
    requires Inv(s) && op.Create? && Verdict(s, op).None?
    ensures Inv(Effect(s, op))
  {
    var t := Effect(s, op);
    CreatedJob(s, t, op.order, op.job, op.now);
    forall o | o in t.orders ensures OrderCoupled(t, o) {
      if o in s.orders {
        assert OrderCoupled(s, o);
        KeepsActive(s, t, o);
      }
    }
    forall d | d in t.drones ensures DroneCoupled(t, d) {
      assert DroneCoupled(s, d);
    }
    forall i | i in t.jobs ensures JobCoupled(t, i) {
      if i in s.jobs { assert JobCoupled(s, i); }
    }
  }

  lemma CreatedJob(s: State, t: State, o: Uuid, j: Uuid, now: int)
    requires Inv(s) && o !in s.orders && j !in s.jobs && t.jobs == s.jobs[j := NewJobRow(o, now)]
    ensures ActiveFor(t, o, j) && OneActive(t)
    ensures forall p, i :: ActiveFor(s, p, i) ==> ActiveFor(t, p, i)
  {
    forall i | ActiveFor(t, o, i) ensures i == j {
      assert i in s.jobs ==> JobCoupled(s, i);
    }
    forall p, i, k | ActiveFor(t, p, i) && ActiveFor(t, p, k) ensures i == k {
      if p != o { assert ActiveFor(s, p, i) && ActiveFor(s, p, k); }
    }
  }

  /** Calling an order off: its row becomes final and its live job is cancelled. */
  lemma CallOffKeeps(s: State, o: Uuid, row: OrderRow)
    requires Inv(s) && o in s.orders && LiveJobs(s, o) != {} && row.drone == s.orders[o].drone
    requires row.status.Cancelled? || (row.status.Withdrawn? && row.drone.None?)
    ensures Inv(State(s.orders[o := row], s.drones, CancelLive(s.jobs, o)))
  {
    var t := State(s.orders[o := row], s.drones, CancelLive(s.jobs, o));
    var j := LiveWitness(s, o);
    CancelLiveIsSingle(s, o, j);
    assert OrderCoupled(s, o) && JobCoupled(s, j);
    forall p | p in s.orders && p != o ensures OrderCoupled(t, p) {
      assert OrderCoupled(s, p);
      forall i | ActiveFor(s, p, i) ensures ActiveFor(t, p, i) { assert i != j; }
      KeepsActive(s, t, p);
    }
    forall i | i in t.jobs ensures JobCoupled(t, i) {
      assert JobCoupled(s, i);
      if s.jobs[i].order == o && i != j { assert !ActiveFor(s, o, i); }
    }
    forall p, i, k | ActiveFor(t, p, i) && ActiveFor(t, p, k) ensures i == k {
      assert ActiveFor(s, p, i) && ActiveFor(s, p, k);
    }
    forall d | d in t.drones ensures DroneCoupled(t, d) {
      assert DroneCoupled(s, d);
    }
  }

  lemma CancelKeeps(s: State, op: Op)
    requires Inv(s) && (op.Cancel? || op.Withdraw?) && Verdict(s, op).None?
    ensures Inv(Effect(s, op))
  {
    assert OrderCoupled(s, op.order);
    CallOffKeeps(s, op.order, Effect(s, op).orders[op.order]);
  }

  lemma ReserveKeeps(s: State, op: Op)
    requires Inv(s) && op.Reserve? && Verdict(s, op).None?
    ensures Inv(Effect(s, op))
  {
    var t := Effect(s, op);
    var x := s.jobs[op.job].order;
    assert forall o, i :: ActiveFor(t, o, i) <==> ActiveFor(s, o, i);
    assert DroneCoupled(s, op.drone) && OrderCoupled(s, x);
    forall o | o in t.orders ensures OrderCoupled(t, o) {
      KeepsActive(s, t, o);
      assert OrderCoupled(s, o);
    }
    forall i | i in t.jobs ensures JobCoupled(t, i) {
      assert JobCoupled(s, i);
      if i != op.job && s.jobs[i].order == x { assert ActiveFor(s, x, op.job); assert !ActiveFor(s, x, i); }
    }
    forall d | d in t.drones ensures DroneCoupled(t, d) {
      assert DroneCoupled(s, d);
    }
  }

  lemma GrabKeeps(s: State, op: Op)
    requires Inv(s) && op.Grab? && Verdict(s, op).None?
    ensures Inv(Effect(s, op))
  {
    var t := Effect(s, op);
    assert forall o, i :: ActiveFor(t, o, i) <==> ActiveFor(s, o, i);
    assert OrderCoupled(s, op.order);
    forall o | o in t.orders ensures OrderCoupled(t, o) {
      KeepsActive(s, t, o);
      assert OrderCoupled(s, o);
    }
    forall i | i in t.jobs ensures JobCoupled(t, i) {
      assert JobCoupled(s, i);
    }
  }

  lemma CompleteKeeps(s: State, op: Op)
    requires Inv(s) && op.Complete? && Verdict(s, op).None?
    ensures Inv(Effect(s, op))
  {
    var t := Effect(s, op);
    var j := op.pick.value;
    assert forall o, i :: ActiveFor(t, o, i) <==> ActiveFor(s, o, i);
    assert OrderCoupled(s, op.order);
    forall o | o in t.orders ensures OrderCoupled(t, o) {
      KeepsActive(s, t, o);
      assert OrderCoupled(s, o);
    }
    forall i | i in t.jobs ensures JobCoupled(t, i) {
      assert JobCoupled(s, i);
      if i != j && s.jobs[i].order == op.order { assert !ActiveFor(s, op.order, i); }
    }
    forall d | d in t.drones ensures DroneCoupled(t, d) {
      assert DroneCoupled(s, d);
    }
  }

  /** Cancelling the live job of `o` and inserting a fresh one makes the fresh one its only active job. */
  lemma ReplaceJob(s: State, t: State, o: Uuid, j: Uuid, now: int) returns (k: Uuid)
    requires OneActive(s) && LiveJobs(s, o) != {} && j !in s.jobs
    requires t.jobs == CancelLive(s.jobs, o)[j := NewJobRow(o, now)]
    ensures LiveFor(s, o, k) && t.jobs == s.jobs[k := CancelRow(s.jobs[k])][j := NewJobRow(o, now)]
    ensures forall i :: ActiveFor(t, o, i) <==> i == j
    ensures forall p, i :: p != o ==> (ActiveFor(t, p, i) <==> ActiveFor(s, p, i))
  {
    k := LiveWitness(s, o);
    CancelLiveIsSingle(s, o, k);
    forall i ensures ActiveFor(t, o, i) <==> i == j {
      assert ActiveFor(s, o, i) ==> i == k by { assert ActiveFor(s, o, k); }
    }
  }

  /** Handing an order over: it waits again, with a fresh open job for the cancelled one. */
  lemma HandOffKeeps(s: State, d: DroneId, o: Uuid, j: Uuid, now: int)
    requires Inv(s) && BreakVerdict(s, d, j).None? && s.drones[d].order == Some(o)
    ensures Inv(BreakEffect(s, d, j, now))
  {
    var t := BreakEffect(s, d, j, now);
    var k := ReplaceJob(s, t, o, j, now);
    assert DroneCoupled(s, d) && OrderCoupled(s, o);
    forall p | p in t.orders ensures OrderCoupled(t, p) {
      assert OrderCoupled(s, p);
      if p == o { assert ActiveFor(t, o, j); } else { KeepsActive(s, t, p); }
    }
    forall i | i in t.jobs && i != j ensures JobCoupled(t, i) {
      assert JobCoupled(s, i);
      assert !ActiveFor(t, o, i);
    }
    forall p, i, l | ActiveFor(t, p, i) && ActiveFor(t, p, l) ensures i == l {
      if p != o { assert ActiveFor(s, p, i) && ActiveFor(s, p, l); }
    }
  }

  lemma BreakKeeps(s: State, op: Op)
    requires Inv(s) && op.Break? && Verdict(s, op).None?
    ensures Inv(Effect(s, op))
  {
    var t := Effect(s, op);
    assert DroneCoupled(s, op.drone);
    match s.drones[op.drone].order
    case None =>
      assert forall o, i :: ActiveFor(t, o, i) <==> ActiveFor(s, o, i);
      forall o | o in t.orders ensures OrderCoupled(t, o) {
        KeepsActive(s, t, o);
        assert OrderCoupled(s, o);
      }
      forall i | i in t.jobs ensures JobCoupled(t, i) {
        assert JobCoupled(s, i);
      }
    case Some(o) => HandOffKeeps(s, op.drone, o, op.job, op.now);
  }

  /** An operation on one drone that keeps its order, and its status as far as that matters. */
  lemma DroneRowKeeps(s: State, d: DroneId, row: DroneRow)
    requires Inv(s)
    requires if d in s.drones && s.drones[d].order.Some?
             then row.order == s.drones[d].order && row.status == s.drones[d].status
             else row.order.None? && !EnRoute(row.status)
    ensures Inv(s.(drones := s.drones[d := row]))
  {
    var t := s.(drones := s.drones[d := row]);
    assert forall o, i :: ActiveFor(t, o, i) <==> ActiveFor(s, o, i);
    forall o | o in t.orders ensures OrderCoupled(t, o) {
      KeepsActive(s, t, o);
      assert OrderCoupled(s, o);
    }
    forall i | i in t.jobs ensures JobCoupled(t, i) {
      assert JobCoupled(s, i);
    }
    forall e | e in t.drones ensures DroneCoupled(t, e) {
      if e in s.drones { assert DroneCoupled(s, e); }
    }
  }

  /** An operation on one order that keeps its status and its drone. */
  lemma OrderRowKeeps(s: State, o: Uuid, row: OrderRow)
    requires Inv(s) && o in s.orders && row.status == s.orders[o].status && row.drone == s.orders[o].drone
    ensures Inv(s.(orders := s.orders[o := row]))
  {
    var t := s.(orders := s.orders[o := row]);
    assert forall p, i :: ActiveFor(t, p, i) <==> ActiveFor(s, p, i);
    forall p | p in t.orders ensures OrderCoupled(t, p) {
      KeepsActive(s, t, p);
      assert OrderCoupled(s, p);
    }
    forall i | i in t.jobs ensures JobCoupled(t, i) {
      assert JobCoupled(s, i);
    }
    forall d | d in t.drones ensures DroneCoupled(t, d) {
      assert DroneCoupled(s, d);
    }
  }

  lemma SingleRowKeeps(s: State, op: Op)
    requires Inv(s) && (op.Heartbeat? || op.Enroll? || op.Fix? || op.AdminUpdate?) && Verdict(s, op).None?
    ensures Inv(Effect(s, op))
  {
    var t := Effect(s, op);
    if op.AdminUpdate? {
      OrderRowKeeps(s, op.order, t.orders[op.order]);
    } else {
      if op.drone in s.drones { assert DroneCoupled(s, op.drone); }
      if !(op.Enroll? && op.drone in s.drones) { DroneRowKeeps(s, op.drone, t.drones[op.drone]); }
    }
  }

  // ---------------------------------------------------------------- the invariant over runs

  lemma StepKeeps(s: State, op: Op)
    requires Inv(s)
    ensures Inv(Apply(s, op))
  {
    if Verdict(s, op).None? {
      match op
      case Create(_, _, _, _, _, _) => CreateKeeps(s, op);
      case Cancel(_, _) => CancelKeeps(s, op);
      case Withdraw(_) => CancelKeeps(s, op);
      case Reserve(_, _) => ReserveKeeps(s, op);
      case Grab(_, _) => GrabKeeps(s, op);
      case Complete(_, _, _, _) => CompleteKeeps(s, op);
      case Break(_, _, _) => BreakKeeps(s, op);
      case Heartbeat(_, _, _) => SingleRowKeeps(s, op);
      case Enroll(_) => SingleRowKeeps(s, op);
      case Fix(_) => SingleRowKeeps(s, op);
      case AdminUpdate(_, _, _) => SingleRowKeeps(s, op);
    }
  }

  lemma {:induction false} RunKeeps(ops: seq<Op>, n: nat)
    requires n <= |ops|
    ensures Inv(StateAt(ops, n))
  {
    if n == 0 {
    } else {
      RunKeeps(ops, n - 1);
      StepKeeps(StateAt(ops, n - 1), ops[n - 1]);
    }
  }

  lemma ReachableInv(s: State)
    requires Reachable(s)
    ensures Inv(s)
  {
    var ops: seq<Op>, n: nat :| n <= |ops| && StateAt(ops, n) == s;
    RunKeeps(ops, n);
  }
}
