/** The six cross-table transactions. Each opens a transaction, issues its statements one by
    one and commits; any early return drops the transaction's copy of the tables, which is the
    deferred rollback.

    Every method is proved against `Protocol`: it commits exactly when `Verdict` has no error,
    publishes exactly `Effect`, and leaves every table unchanged on any error. The error is the
    one `Verdict` names unless a statement was not answered. */
module Delivery {
  import opened Domain
  import opened Protocol
  import opened Aggregates
  import opened Repositories

  /** No transaction issues more statements than this, BEGIN and COMMIT included. */
  const MAX_STATEMENTS := 10

  /** What every transaction promises: `verdict` and `next` are the protocol's guard and the
      tables it leads to when the guard has no error. */
  ghost predicate Outcome(before: State, after: State, verdict: Option<Error>, next: State,
                          err: Option<Error>, uptime: Uptime)
  {
    && after == (if err.None? then next else before)
    && (err.None? ==> verdict.None?)
    && (uptime.health >= MAX_STATEMENTS ==> err == verdict)
    && Reported(err, verdict)
  }

  /** An error that is not the verdict's is that of a statement that was not answered: not found if
      it was to read a row, internal otherwise. */
  predicate Reported(err: Option<Error>, verdict: Option<Error>) {
    err == verdict || err == Some(Internal) || err == Some(NotFound)
  }

  class Repository {
    const db: Ext

    constructor (db: Ext)
      ensures this.db == db
    {
      this.db := db;
    }

    method CreateOrderAndJob(o: Order, jobId: Uuid, now: int) returns (err: Option<Error>)
      modifies db
      ensures var s := old(db.Tables()); var verdict := CreateVerdict(s, o.id, jobId);
              Outcome(s, db.Tables(), verdict,
                      if verdict.None? then CreateEffect(s, o.id, o.Row(), jobId, now) else s,
                      err, old(db.uptime))
      ensures old(db.uptime).health == 0 ==> err == Some(Internal)
    {
      var e, tx := db.Begin();
      if e.Some? { return Some(Internal); }

      e := tx.CreateOrder(o);
      if e.Some? { return Some(Internal); }

      var j := new Job.New(jobId, o.id, now);
      e := tx.CreateJob(j);
      if e.Some? { return Some(Internal); }

      e := db.Commit(tx);
      return if e.Some? then Some(Internal) else None;
    }

    method CancelOrderAndJob(orderId: Uuid, submitter: string) returns (err: Option<Error>)
      modifies db
      ensures var s := old(db.Tables()); var verdict := CancelVerdict(s, orderId);
              Outcome(s, db.Tables(), verdict,
                      if verdict.None? then CancelEffect(s, orderId, submitter) else s,
                      err, old(db.uptime))
      ensures old(db.uptime).health == 0 ==> err == Some(Internal)
    {
      var e, tx := db.Begin();
      if e.Some? { return Some(Internal); }

      e := tx.CancelOrder(orderId, submitter);
      if e.Some? { return Some(Internal); }

      e := tx.CancelJobsOfOrder(orderId);
      if e.Some? { return Some(Internal); }

      e := db.Commit(tx);
      return if e.Some? then Some(Internal) else None;
    }

    method ReserveJobAndAssign(jobId: Uuid, droneId: DroneId) returns (err: Option<Error>, j: Job)
      requires ForeignKeys(db.Tables())
      modifies db
      ensures var s := old(db.Tables()); var verdict := ReserveVerdict(s, jobId, droneId);
              Outcome(s, db.Tables(), verdict,
                      if verdict.None? then ReserveEffect(s, jobId, droneId) else s,
                      err, old(db.uptime))
      ensures old(db.uptime).health == 0 ==> err == Some(Internal)
      ensures err.None? ==> j.id == jobId && jobId in db.jobs && j.Row() == db.jobs[jobId]
    {
      var e, tx := db.Begin();
      if e.Some? { j := new Job.New(jobId, 0, 0); return Some(Internal), j; }

      // The job: open, and now the drone's.
      e, j := tx.GetJob(jobId);
      if e.Some? { return Some(NotFound), j; }
      err := j.Reserve(droneId);
      if err.Some? { return err, j; }
      e := tx.UpdateJob(j);
      if e.Some? { return Some(Internal), j; }

      // Its order: waiting, and now assigned.
      var o: Order;
      e, o := tx.GetOrder(j.order);
      if e.Some? { return Some(NotFound), j; }
      err := o.Assign(droneId);
      if err.Some? { return err, j; }
      e := tx.UpdateOrder(o);
      if e.Some? { return Some(Internal), j; }

      // The drone: idle, and now on its way.
      err := ReserveDrone(tx, droneId, j.order);
      if err.Some? { return err, j; }

      e := db.Commit(tx);
      err := if e.Some? then Some(Internal) else None;
    }

    /** Third part of the reservation: the drone is created if it does not exist, then reserved. */
    method ReserveDrone(tx: Ext, droneId: DroneId, orderId: Uuid) returns (err: Option<Error>)
      requires orderId in tx.orders && tx.uptime.outages == []
      modifies tx
      ensures old(tx.uptime).health <= tx.uptime.health + 4
      ensures var row := if droneId in old(tx.drones) then old(tx.drones)[droneId] else NEW_DRONE;
              && (err.None? ==> row.status.Idle?)
              && (old(tx.uptime).health >= 4 ==> err == if row.status.Idle? then None else Some(InvalidTransition))
              && Reported(err, if row.status.Idle? then None else Some(InvalidTransition))
              && (err.None? ==> tx.Tables() == old(tx.Tables()).(
                    drones := old(tx.drones)[droneId := row.(status := EnRoutePickup, order := Some(orderId))]))
    {
      var e, d := tx.GetDrone(droneId);
      if e.Some? {
        var newDrone := new Drone.New(droneId);
        e := tx.UpsertDrone(newDrone);
        if e.Some? { return Some(Internal); }
      }
      e, d := tx.GetDrone(droneId);
      if e.Some? { return Some(NotFound); }
      err := d.Reserve(orderId);
      if err.Some? { return err; }
      e := tx.UpdateDrone(d);
      return if e.Some? then Some(Internal) else None;
    }

    method GrabOrder(orderId: Uuid, droneId: DroneId) returns (err: Option<Error>)
      modifies db
      ensures var s := old(db.Tables()); var verdict := GrabVerdict(s, orderId, droneId);
              Outcome(s, db.Tables(), verdict,
                      if verdict.None? then GrabEffect(s, orderId, droneId) else s,
                      err, old(db.uptime))
      ensures old(db.uptime).health == 0 ==> err == Some(Internal)
    {
      var e, tx := db.Begin();
      if e.Some? { return Some(Internal); }

      // The order: the caller's, and now picked up.
      var o: Order;
      e, o := tx.GetOrder(orderId);
      if e.Some? { return Some(NotFound); }
      if o.drone == None || o.drone.value != droneId { return Some(Forbidden); }
      err := o.MarkPickedUp();
      if err.Some? { return err; }
      e := tx.UpdateOrder(o);
      if e.Some? { return Some(Internal); }

      // The drone: from pick-up to delivery.
      var d: Drone;
      e, d := tx.GetDrone(droneId);
      if e.Some? { return Some(NotFound); }
      err := d.StartDelivery();
      if err.Some? { return err; }
      e := tx.UpdateDrone(d);
      if e.Some? { return Some(Internal); }

      e := db.Commit(tx);
      return if e.Some? then Some(Internal) else None;
    }

    method CompleteDelivery(orderId: Uuid, droneId: DroneId, delivered: bool)
      returns (err: Option<Error>, ghost pick: Option<Uuid>)
      modifies db
      ensures QueryMayReturn(old(db.Tables()), orderId, pick)
      ensures var s := old(db.Tables()); var verdict := CompleteVerdict(s, orderId, droneId, pick);
              Outcome(s, db.Tables(), verdict,
                      if verdict.None? then CompleteEffect(s, orderId, droneId, delivered, pick) else s,
                      err, old(db.uptime))
      ensures old(db.uptime).health == 0 ==> err == Some(Internal)
    {
      pick := SomePick(db.Tables(), orderId);
      var e, tx := db.Begin();
      if e.Some? { return Some(Internal), pick; }

      // The order: closed either way.
      err := CloseOrder(tx, orderId, droneId, delivered);
      if err.Some? { return err, pick; }

      // The drone: free, whatever it was doing.
      var d: Drone;
      e, d := tx.GetDrone(droneId);
      if e.Some? { return Some(NotFound), pick; }
      d.GoIdle();
      e := tx.UpdateDrone(d);
      if e.Some? { return Some(Internal), pick; }

      // The job, whichever the query returns.
      err, pick := CompleteJob(tx, orderId);
      SameQuery(State(tx.orders, tx.drones, db.jobs), db.Tables(), orderId, pick);
      if err.Some? { return err, pick; }

      e := db.Commit(tx);
      err := if e.Some? then Some(Internal) else None;
    }

    /** First part of the completion: the order is delivered or failed, and lets go of its drone. */
    method CloseOrder(tx: Ext, orderId: Uuid, droneId: DroneId, delivered: bool) returns (err: Option<Error>)
      modifies tx
      ensures old(tx.uptime).health <= tx.uptime.health + 2
      ensures var orders := old(tx.orders);
              && (err.None? ==> CloseVerdict(orders, orderId, droneId).None?)
              && (old(tx.uptime).health >= 2 ==> err == CloseVerdict(orders, orderId, droneId))
              && Reported(err, CloseVerdict(orders, orderId, droneId))
              && tx.Tables() == if err.None?
                then old(tx.Tables()).(orders := orders[orderId := orders[orderId].(
                       status := if delivered then Delivered else Failed, drone := None)])
                else old(tx.Tables())
    {
      var e, o := tx.GetOrder(orderId);
      if e.Some? { return Some(NotFound); }
      if o.drone == None || o.drone.value != droneId { return Some(Forbidden); }
      if delivered {
        err := o.MarkDelivered();
      } else {
        err := o.MarkFailed();
      }
      if err.Some? { return err; }
      e := tx.UpdateOrder(o);
      return if e.Some? then Some(Internal) else None;
    }

    /** Third part of the completion: whatever job the query returns is completed. */
    method CompleteJob(tx: Ext, orderId: Uuid) returns (err: Option<Error>, ghost pick: Option<Uuid>)
      modifies tx
      ensures old(tx.uptime).health <= tx.uptime.health + 2
      ensures QueryMayReturn(old(tx.Tables()), orderId, pick)
      ensures err.None? ==> pick.Some? && old(tx.jobs)[pick.value].status.Reserved?
      ensures var verdict := if pick.None? then Some(Internal)
                             else if old(tx.jobs)[pick.value].status.Reserved? then None
                             else Some(InvalidTransition);
              (old(tx.uptime).health >= 2 ==> err == verdict) && Reported(err, verdict)
      ensures tx.Tables() == if err.None?
        then old(tx.Tables()).(jobs := old(tx.jobs)[pick.value := old(tx.jobs)[pick.value].(status := Completed)])
        else old(tx.Tables())
    {
      var e, j;
      e, j, pick := tx.GetJobOfOrder(orderId);
      if e.Some? { return Some(Internal), pick; }
      err := j.Complete();
      if err.Some? { return err, pick; }
      e := tx.UpdateJob(j);
      err := if e.Some? then Some(Internal) else None;
    }

    method HandleDroneBroken(droneId: DroneId, jobId: Uuid, now: int) returns (err: Option<Error>)
      modifies db
      ensures var s := old(db.Tables()); var verdict := BreakVerdict(s, droneId, jobId);
              Outcome(s, db.Tables(), verdict,
                      if verdict.None? then BreakEffect(s, droneId, jobId, now) else s,
                      err, old(db.uptime))
      ensures old(db.uptime).health == 0 ==> err == Some(Internal)
    {
      var e, tx := db.Begin();
      if e.Some? { return Some(Internal); }

      // The drone: broken, and without its order.
      var d: Drone, event: DroneBrokenEvent;
      e, d := tx.GetDrone(droneId);
      if e.Some? { return Some(NotFound); }
      err, event := d.MarkBroken();
      if err.Some? { return err; }
      e := tx.UpdateDrone(d);
      if e.Some? { return Some(Internal); }

      // The order it held, if any: back among the waiting, with a job of its own.
      if event.order.Some? {
        err := HandOff(tx, event.order.value, jobId, now);
        if err.Some? { return err; }
      }

      e := db.Commit(tx);
      return if e.Some? then Some(Internal) else None;
    }

    /** Second part of a broken report: the order waits again and gets a fresh job. */
    method HandOff(tx: Ext, orderId: Uuid, jobId: Uuid, now: int) returns (err: Option<Error>)
      modifies tx
      ensures old(tx.uptime).health <= tx.uptime.health + 4
      ensures var s := old(tx.Tables());
              && (err.None? ==> HandOffVerdict(s, orderId, jobId).None?)
              && (old(tx.uptime).health >= 4 ==> err == HandOffVerdict(s, orderId, jobId))
              && Reported(err, HandOffVerdict(s, orderId, jobId))
              && (err.None? ==> tx.Tables() == HandOffEffect(s, orderId, jobId, now))
    {
      var e, o := tx.GetOrder(orderId);
      if e.Some? { return Some(NotFound); }
      err := o.AwaitHandoff();
      if err.Some? { return err; }
      e := tx.UpdateOrder(o);
      if e.Some? { return Some(Internal); }

      e := tx.CancelJobsOfOrder(orderId);
      if e.Some? { return Some(Internal); }

      var j := new Job.New(jobId, orderId, now);
      e := tx.CreateJob(j);
      return if e.Some? then Some(Internal) else None;
    }
  }

  /** The job query looks at the jobs table only. */
  lemma SameQuery(s: State, t: State, o: Uuid, pick: Option<Uuid>)
    requires s.jobs == t.jobs
    ensures QueryMayReturn(s, o, pick) <==> QueryMayReturn(t, o, pick)
  {
    assert forall j :: ActiveFor(s, o, j) <==> ActiveFor(t, o, j);
  }
}
