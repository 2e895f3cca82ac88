/** The statements the repositories send to the database or to an open transaction.

    `Ext` stands for either: the committed tables, or a transaction's private copy of them.
    Any statement may fail to be answered. Outside a transaction later statements may well be
    answered again; a transaction in which one has failed answers nothing more. */
module Repositories {
  import opened Domain
  import opened Protocol
  import opened Aggregates

  /** What a statement may report besides success. */
  datatype DbError = Unavailable | NoRows | Constraint | ZeroRows

  /** `health` statements are answered, then one fails; each entry of `outages` is how many are
      answered between one failure and the next. After the last failure all of them fail. */
  datatype Uptime = Uptime(health: nat, outages: seq<nat>) {
    function Next(): Uptime {
      if health > 0 then Uptime(health - 1, outages)
      else if outages != [] then Uptime(outages[0], outages[1..])
      else this
    }
  }

  class Ext {
    var orders: map<Uuid, OrderRow>
    var drones: map<DroneId, DroneRow>
    var jobs: map<Uuid, JobRow>
    var uptime: Uptime

    function Tables(): State
      reads this
    {
      State(orders, drones, jobs)
    }

    constructor (tables: State, uptime: Uptime)
      ensures Tables() == tables && this.uptime == uptime
    {
      this.orders := tables.orders;
      this.drones := tables.drones;
      this.jobs := tables.jobs;
      this.uptime := uptime;
    }

    /** Every statement begins with this: is the database still answering? */
    method Send() returns (up: bool)
      modifies this`uptime
      ensures up <==> old(uptime).health > 0
      ensures uptime == old(uptime).Next()
    {
      up := uptime.health > 0;
      uptime := uptime.Next();
    }

    // -------------------------------------------------------------- transactions

    /** A transaction has a connection to itself; whatever fails on it fails for good. */
    method Begin() returns (err: Option<DbError>, tx: Ext)
      modifies this`uptime
      ensures err.None? <==> old(uptime).health > 0
      ensures fresh(tx) && tx.Tables() == Tables() && tx.uptime == Uptime(uptime.health, [])
      ensures uptime == old(uptime).Next()
    {
      var up := Send();
      tx := new Ext(Tables(), Uptime(uptime.health, []));
      err := if up then None else Some(Unavailable);
    }

    /** Publish a transaction's tables. A transaction that is dropped instead leaves no trace. */
    method Commit(tx: Ext) returns (err: Option<DbError>)
      requires tx != this
      modifies this`orders, this`drones, this`jobs, tx`uptime
      ensures err.None? <==> old(tx.uptime).health > 0
      ensures Tables() == if err.None? then old(tx.Tables()) else old(Tables())
    {
      var up := tx.Send();
      if !up { return Some(Unavailable); }
      orders, drones, jobs := tx.orders, tx.drones, tx.jobs;
      return None;
    }

    // -------------------------------------------------------------- orders

    method CreateOrder(o: Order) returns (err: Option<DbError>)
      modifies this
      ensures uptime == old(uptime).Next()
      ensures err == (if old(uptime).health == 0 then Some(Unavailable)
                      else if o.id in old(orders) then Some(Constraint) else None)
      ensures Tables() == if err.None? then old(Tables()).(orders := old(orders)[o.id := o.Row()]) else old(Tables())
    {
      var up := Send();
      if !up { return Some(Unavailable); }
      if o.id in orders { return Some(Constraint); }
      orders := orders[o.id := o.Row()];
      return None;
    }

    method GetOrder(id: Uuid) returns (err: Option<DbError>, o: Order)
      modifies this`uptime
      ensures uptime == old(uptime).Next()
      ensures err == (if old(uptime).health == 0 then Some(Unavailable)
                      else if id !in orders then Some(NoRows) else None)
      ensures fresh(o) && o.id == id && (err.None? ==> o.Row() == orders[id])
    {
      var up := Send();
      if !up || id !in orders {
        o := new Order.New(id, "", ORIGIN_POINT, ORIGIN_POINT);
        return Some(if up then NoRows else Unavailable), o;
      }
      o := new Order.Load(id, orders[id]);
      err := None;
    }

    /** The order recording a drone; the query is unordered, so any such row may be the answer. */
    method GetOrderByDrone(d: DroneId) returns (err: Option<DbError>, o: Order)
      modifies this`uptime
      ensures uptime == old(uptime).Next()
      ensures err.None? ==> o.id in orders && o.Row() == orders[o.id] && orders[o.id].drone == Some(d)
      ensures err == Some(NoRows) ==> forall i :: i in orders ==> orders[i].drone != Some(d)
      ensures old(uptime).health > 0 ==> err != Some(Unavailable)
      ensures fresh(o)
    {
      var up := Send();
      var found := set i | i in orders && orders[i].drone == Some(d);
      if !up || found == {} {
        o := new Order.New(0, "", ORIGIN_POINT, ORIGIN_POINT);
        assert up ==> forall i :: i in orders && orders[i].drone == Some(d) ==> i in found;
        return Some(if up then NoRows else Unavailable), o;
      }
      var id :| id in found;
      o := new Order.Load(id, orders[id]);
      err := None;
    }

    /** The UPDATE lists every column but the submitter. */
    method UpdateOrder(o: Order) returns (err: Option<DbError>)
      modifies this
      ensures uptime == old(uptime).Next()
      ensures err == if old(uptime).health == 0 then Some(Unavailable) else None
      ensures Tables() == if err.None? && o.id in old(orders)
        then old(Tables()).(orders := old(orders)[o.id := o.Row().(submittedBy := old(orders)[o.id].submittedBy)])
        else old(Tables())
    {
      var up := Send();
      if !up { return Some(Unavailable); }
      if o.id in orders {
        orders := orders[o.id := o.Row().(submittedBy := orders[o.id].submittedBy)];
      }
      return None;
    }

    method CancelOrder(id: Uuid, submitter: string) returns (err: Option<DbError>)
      modifies this
      ensures uptime == old(uptime).Next()
      ensures err == (if old(uptime).health == 0 then Some(Unavailable)
                      else if id !in old(orders) || old(orders)[id].status.Cancelled? then Some(ZeroRows) else None)
      ensures Tables() == if err.None?
        then old(Tables()).(
               orders := old(orders)[id := old(orders)[id].(status := Cancelled, submittedBy := submitter)])
        else old(Tables())
    {
      var up := Send();
      if !up { return Some(Unavailable); }
      if id !in orders || orders[id].status.Cancelled? { return Some(ZeroRows); }
      orders := orders[id := orders[id].(status := Cancelled, submittedBy := submitter)];
      return None;
    }

    // -------------------------------------------------------------- drones

    method UpsertDrone(d: Drone) returns (err: Option<DbError>)
      modifies this
      ensures uptime == old(uptime).Next()
      ensures err == (if old(uptime).health == 0 then Some(Unavailable)
                      else if BadOrderRef(old(orders), old(drones), d.id, d.Row()) then Some(Constraint) else None)
      ensures Tables() == if err.None? then old(Tables()).(drones := old(drones)[d.id := d.Row()]) else old(Tables())
    {
      var up := Send();
      if !up { return Some(Unavailable); }
      if BadOrderRef(orders, drones, d.id, d.Row()) { return Some(Constraint); }
      drones := drones[d.id := d.Row()];
      return None;
    }

    method GetDrone(id: DroneId) returns (err: Option<DbError>, d: Drone)
      modifies this`uptime
      ensures uptime == old(uptime).Next()
      ensures err == (if old(uptime).health == 0 then Some(Unavailable)
                      else if id !in drones then Some(NoRows) else None)
      ensures fresh(d) && d.id == id && (err.None? ==> d.Row() == drones[id])
    {
      var up := Send();
      if !up || id !in drones {
        d := new Drone.New(id);
        return Some(if up then NoRows else Unavailable), d;
      }
      d := new Drone.Load(id, drones[id]);
      err := None;
    }

    method UpdateDrone(d: Drone) returns (err: Option<DbError>)
      modifies this
      ensures uptime == old(uptime).Next()
      ensures err == (if old(uptime).health == 0 then Some(Unavailable)
                      else if d.id in old(drones) && BadOrderRef(old(orders), old(drones), d.id, d.Row())
                        then Some(Constraint)
                      else None)
      ensures Tables() == if err.None? && d.id in old(drones)
        then old(Tables()).(drones := old(drones)[d.id := d.Row()]) else old(Tables())
    {
      var up := Send();
      if !up { return Some(Unavailable); }
      if d.id in drones {
        if BadOrderRef(orders, drones, d.id, d.Row()) { return Some(Constraint); }
        drones := drones[d.id := d.Row()];
      }
      return None;
    }

    // -------------------------------------------------------------- jobs

    method CreateJob(j: Job) returns (err: Option<DbError>)
      modifies this
      ensures uptime == old(uptime).Next()
      ensures err == (if old(uptime).health == 0 then Some(Unavailable)
                      else if j.id in old(jobs) || j.order !in old(orders)
                              || BadDroneRef(old(drones), old(jobs), j.id, j.reserver) then Some(Constraint)
                      else None)
      ensures Tables() == if err.None? then old(Tables()).(jobs := old(jobs)[j.id := j.Row()]) else old(Tables())
    {
      var up := Send();
      if !up { return Some(Unavailable); }
      if j.id in jobs || j.order !in orders || BadDroneRef(drones, jobs, j.id, j.reserver) {
        return Some(Constraint);
      }
      jobs := jobs[j.id := j.Row()];
      return None;
    }

    method GetJob(id: Uuid) returns (err: Option<DbError>, j: Job)
      modifies this`uptime
      ensures uptime == old(uptime).Next()
      ensures err == (if old(uptime).health == 0 then Some(Unavailable)
                      else if id !in jobs then Some(NoRows) else None)
      ensures fresh(j) && j.id == id && (err.None? ==> j.Row() == jobs[id])
    {
      var up := Send();
      if !up || id !in jobs {
        j := new Job.New(id, 0, 0);
        return Some(if up then NoRows else Unavailable), j;
      }
      j := new Job.Load(id, jobs[id]);
      err := None;
    }

    /** The latest active job of an order; equal stamps leave the database a choice. */
    method GetJobOfOrder(o: Uuid) returns (err: Option<DbError>, j: Job, ghost pick: Option<Uuid>)
      modifies this`uptime
      ensures uptime == old(uptime).Next()
      ensures QueryMayReturn(Tables(), o, pick)
      ensures err == (if old(uptime).health == 0 then Some(Unavailable) else if pick.None? then Some(NoRows) else None)
      ensures fresh(j) && (err.None? ==> j.id == pick.value && j.Row() == jobs[j.id])
      ensures err.None? ==>
        && j.id in jobs && jobs[j.id].order == o && jobs[j.id].status != JobCancelled
        && forall i :: i in jobs && jobs[i].order == o && jobs[i].status != JobCancelled ==>
             jobs[i].createdAt <= jobs[j.id].createdAt
      ensures err == Some(NoRows) ==> forall i :: i in jobs && jobs[i].order == o ==> jobs[i].status == JobCancelled
    {
      var up := Send();
      var found := set i | i in jobs && ActiveFor(Tables(), o, i);
      if found == {} {
        j := new Job.New(0, o, 0);
        pick := None;
        forall i ensures !ActiveFor(Tables(), o, i) { assert i !in found; }
        assert forall i :: i in jobs && jobs[i].order == o && jobs[i].status != JobCancelled ==> i in found;
        return Some(if up then NoRows else Unavailable), j, pick;
      }
      LatestExists(jobs, found);
      var q :| q in found && forall i :: i in found ==> jobs[i].createdAt <= jobs[q].createdAt;
      pick := Some(q);
      forall i | ActiveFor(Tables(), o, i) ensures jobs[i].createdAt <= jobs[q].createdAt { assert i in found; }
      j := new Job.Load(q, jobs[q]);
      err := if up then None else Some(Unavailable);
    }

    method UpdateJob(j: Job) returns (err: Option<DbError>)
      modifies this
      ensures uptime == old(uptime).Next()
      ensures err == (if old(uptime).health == 0 then Some(Unavailable)
                      else if j.id in old(jobs) && BadDroneRef(old(drones), old(jobs), j.id, j.reserver)
                        then Some(Constraint)
                      else None)
      ensures Tables() == if err.None? && j.id in old(jobs)
        then old(Tables()).(jobs := old(jobs)[j.id := old(jobs)[j.id].(status := j.status, reserver := j.reserver)])
        else old(Tables())
    {
      var up := Send();
      if !up { return Some(Unavailable); }
      if j.id in jobs {
        if BadDroneRef(drones, jobs, j.id, j.reserver) { return Some(Constraint); }
        jobs := jobs[j.id := jobs[j.id].(status := j.status, reserver := j.reserver)];
      }
      return None;
    }

    method CancelJobsOfOrder(o: Uuid) returns (err: Option<DbError>)
      modifies this
      ensures uptime == old(uptime).Next()
      ensures err == (if old(uptime).health == 0 then Some(Unavailable)
                      else if LiveJobs(old(Tables()), o) == {} then Some(ZeroRows) else None)
      ensures Tables() == if err.None? then old(Tables()).(jobs := CancelLive(old(jobs), o)) else old(Tables())
    {
      var up := Send();
      if !up { return Some(Unavailable); }
      var matched := LiveJobs(Tables(), o);
      if |matched| == 0 { return Some(ZeroRows); }
      jobs := CancelLive(jobs, o);
      return None;
    }
  }

  /** The foreign key of current_order_id, checked when a statement changes the column. */
  predicate BadOrderRef(orders: map<Uuid, OrderRow>, drones: map<DroneId, DroneRow>, id: DroneId, row: DroneRow) {
    && row.order.Some? && row.order.value !in orders
    && (id in drones ==> drones[id].order != row.order)
  }

  /** The foreign key of reserved_by_drone_id, checked when a statement changes the column. */
  predicate BadDroneRef(drones: map<DroneId, DroneRow>, jobs: map<Uuid, JobRow>, id: Uuid, reserver: Option<DroneId>) {
    && reserver.Some? && reserver.value !in drones
    && (id in jobs ==> jobs[id].reserver != reserver)
  }

  // ---------------------------------------------------------------- what the checks are for

  /** On tables that satisfy the references, a drone's row may be written exactly when they still hold. */
  lemma OrderRefExactly(s: State, id: DroneId, row: DroneRow)
    requires ForeignKeys(s)
    ensures ForeignKeys(s.(drones := s.drones[id := row])) <==> !BadOrderRef(s.orders, s.drones, id, row)
  {
    var t := s.(drones := s.drones[id := row]);
    assert t.drones[id] == row;
  }

  /** And a job's, of an order that exists, likewise. */
  lemma DroneRefExactly(s: State, id: Uuid, row: JobRow)
    requires ForeignKeys(s) && row.order in s.orders
    ensures ForeignKeys(s.(jobs := s.jobs[id := row])) <==> !BadDroneRef(s.drones, s.jobs, id, row.reserver)
  {
    var t := s.(jobs := s.jobs[id := row]);
    assert t.jobs[id] == row;
  }

  /** Statement number `k` is answered. */
  function Answered(u: Uptime, k: nat): bool
    decreases k
  {
    if k == 0 then u.health > 0 else Answered(u.Next(), k - 1)
  }

  /** `health` statements are answered and the next is not; from then on the first entry of `outages`
      takes the place of `health`, and without one nothing is answered any more. */
  lemma {:induction false} AnsweredExactly(u: Uptime, k: nat)
    ensures Answered(u, k) <==>
            k < u.health
            || (k > u.health && u.outages != [] && Answered(Uptime(u.outages[0], u.outages[1..]), k - u.health - 1))
    decreases k
  {
    if k == 0 {
    } else if u.health > 0 {
      AnsweredExactly(Uptime(u.health - 1, u.outages), k - 1);
    } else if u.outages == [] {
      AnsweredExactly(u, k - 1);
    }
  }
}
