/** The three aggregates: objects read from a row, changed through guarded transitions and
    written back. `Row` is the row an object would be written as. */
module Aggregates {
  import opened Domain

  class Order {
    const id: Uuid
    var submittedBy: string
    var origin: Location
    var destination: Location
    var status: OrderStatus
    var drone: Option<DroneId>

    function Row(): OrderRow
      reads this
    {
      OrderRow(submittedBy, origin, destination, status, drone)
    }

    constructor New(id: Uuid, submitter: string, origin: Location, destination: Location)
      ensures this.id == id && Row() == NewOrderRow(submitter, origin, destination)
    {
      this.id := id;
      this.submittedBy := submitter;
      this.origin := origin;
      this.destination := destination;
      this.status := Pending;
      this.drone := None;
    }

    constructor Load(id: Uuid, row: OrderRow)
      ensures this.id == id && Row() == row
    {
      this.id := id;
      this.submittedBy := row.submittedBy;
      this.origin := row.origin;
      this.destination := row.destination;
      this.status := row.status;
      this.drone := row.drone;
    }

    method Withdraw() returns (err: Option<Error>)
      modifies this
      ensures err == if old(status).Pending? then None else Some(InvalidTransition)
      ensures Row() == if err.None? then old(Row()).(status := Withdrawn) else old(Row())
    {
      if status != Pending { return Some(InvalidTransition); }
      status := Withdrawn;
      return None;
    }

    method Assign(d: DroneId) returns (err: Option<Error>)
      modifies this
      ensures err == if old(status).Pending? || old(status).AwaitingHandoff? then None else Some(InvalidTransition)
      ensures Row() == if err.None? then old(Row()).(status := Assigned, drone := Some(d)) else old(Row())
    {
      if status != Pending && status != AwaitingHandoff { return Some(InvalidTransition); }
      status := Assigned;
      drone := Some(d);
      return None;
    }

    method MarkPickedUp() returns (err: Option<Error>)
      modifies this
      ensures err == if old(status).Assigned? then None else Some(InvalidTransition)
      ensures Row() == if err.None? then old(Row()).(status := PickedUp) else old(Row())
    {
      if status != Assigned { return Some(InvalidTransition); }
      status := PickedUp;
      return None;
    }

    method MarkDelivered() returns (err: Option<Error>)
      modifies this
      ensures err == if old(status).PickedUp? then None else Some(InvalidTransition)
      ensures Row() == if err.None? then old(Row()).(status := Delivered, drone := None) else old(Row())
    {
      if status != PickedUp { return Some(InvalidTransition); }
      status := Delivered;
      drone := None;
      return None;
    }

    method MarkFailed() returns (err: Option<Error>)
      modifies this
      ensures err == if old(status).PickedUp? then None else Some(InvalidTransition)
      ensures Row() == if err.None? then old(Row()).(status := Failed, drone := None) else old(Row())
    {
      if status != PickedUp { return Some(InvalidTransition); }
      status := Failed;
      drone := None;
      return None;
    }

    method AwaitHandoff() returns (err: Option<Error>)
      modifies this
      ensures err == if old(status).Assigned? || old(status).PickedUp? then None else Some(InvalidTransition)
      ensures Row() == if err.None? then old(Row()).(status := AwaitingHandoff, drone := None) else old(Row())
    {
      if status != Assigned && status != PickedUp { return Some(InvalidTransition); }
      status := AwaitingHandoff;
      drone := None;
      return None;
    }

    method UpdateOrigin(at: Location) returns (err: Option<Error>)
      modifies this
      ensures err == if IsTerminal(old(status)) then Some(InvalidTransition) else None
      ensures Row() == if err.None? then old(Row()).(origin := at) else old(Row())
    {
      if IsTerminal(status) { return Some(InvalidTransition); }
      origin := at;
      return None;
    }

    method UpdateDestination(at: Location) returns (err: Option<Error>)
      modifies this
      ensures err == if IsTerminal(old(status)) then Some(InvalidTransition) else None
      ensures Row() == if err.None? then old(Row()).(destination := at) else old(Row())
    {
      if IsTerminal(status) { return Some(InvalidTransition); }
      destination := at;
      return None;
    }
  }

  datatype DroneBrokenEvent = DroneBrokenEvent(drone: DroneId, at: Location, order: Option<Uuid>)

  class Drone {
    const id: DroneId
    var status: DroneStatus
    var at: Location
    var order: Option<Uuid>
    var lastHeartbeat: Option<int>

    function Row(): DroneRow
      reads this
    {
      DroneRow(status, at, order, lastHeartbeat)
    }

    constructor New(id: DroneId)
      ensures this.id == id && Row() == NEW_DRONE
    {
      this.id := id;
      this.status := Idle;
      this.at := ORIGIN_POINT;
      this.order := None;
      this.lastHeartbeat := None;
    }

    constructor Load(id: DroneId, row: DroneRow)
      ensures this.id == id && Row() == row
    {
      this.id := id;
      this.status := row.status;
      this.at := row.at;
      this.order := row.order;
      this.lastHeartbeat := row.heartbeat;
    }

    method Reserve(o: Uuid) returns (err: Option<Error>)
      modifies this
      ensures err == if old(status).Idle? then None else Some(InvalidTransition)
      ensures Row() == if err.None? then old(Row()).(status := EnRoutePickup, order := Some(o)) else old(Row())
    {
      if status != Idle { return Some(InvalidTransition); }
      status := EnRoutePickup;
      order := Some(o);
      return None;
    }

    method StartDelivery() returns (err: Option<Error>)
      modifies this
      ensures err == if old(status).EnRoutePickup? then None else Some(InvalidTransition)
      ensures Row() == if err.None? then old(Row()).(status := EnRouteDelivery) else old(Row())
    {
      if status != EnRoutePickup { return Some(InvalidTransition); }
      status := EnRouteDelivery;
      return None;
    }

    method GoIdle()
      modifies this
      ensures Row() == old(Row()).(status := Idle, order := None)
    {
      status := Idle;
      order := None;
    }

    method MarkBroken() returns (err: Option<Error>, event: DroneBrokenEvent)
      modifies this
      ensures err == if old(status).Broken? then Some(AlreadyBroken) else None
      ensures Row() == if err.None? then old(Row()).(status := Broken, order := None) else old(Row())
      ensures event == DroneBrokenEvent(id, old(at), old(order))
    {
      event := DroneBrokenEvent(id, at, order);
      if status == Broken { return Some(AlreadyBroken), event; }
      status := Broken;
      order := None;
      return None, event;
    }

    method MarkFixed() returns (err: Option<Error>)
      modifies this
      ensures err == if old(status).Broken? then None else Some(InvalidTransition)
      ensures Row() == if err.None? then old(Row()).(status := Idle, order := None) else old(Row())
    {
      if status != Broken { return Some(InvalidTransition); }
      status := Idle;
      order := None;
      return None;
    }

    method UpdateLocation(loc: Location, now: int)
      modifies this
      ensures Row() == old(Row()).(at := loc, heartbeat := Some(now))
    {
      at := loc;
      lastHeartbeat := Some(now);
    }
  }

  class Job {
    const id: Uuid
    const order: Uuid
    const createdAt: int
    var status: JobStatus
    var reserver: Option<DroneId>

    function Row(): JobRow
      reads this
    {
      JobRow(order, status, reserver, createdAt)
    }

    constructor New(id: Uuid, order: Uuid, now: int)
      ensures this.id == id && Row() == NewJobRow(order, now)
    {
      this.id := id;
      this.order := order;
      this.createdAt := now;
      this.status := Open;
      this.reserver := None;
    }

    constructor Load(id: Uuid, row: JobRow)
      ensures this.id == id && Row() == row
    {
      this.id := id;
      this.order := row.order;
      this.createdAt := row.createdAt;
      this.status := row.status;
      this.reserver := row.reserver;
    }

    method Reserve(d: DroneId) returns (err: Option<Error>)
      modifies this
      ensures err == if old(status).Open? then None else Some(AlreadyReserved)
      ensures Row() == if err.None? then old(Row()).(status := Reserved, reserver := Some(d)) else old(Row())
    {
      if status != Open { return Some(AlreadyReserved); }
      status := Reserved;
      reserver := Some(d);
      return None;
    }

    method Cancel() returns (err: Option<Error>)
      modifies this
      ensures err == if old(status).Completed? || old(status).JobCancelled? then Some(InvalidTransition) else None
      ensures Row() == if err.None? then old(Row()).(status := JobCancelled, reserver := None) else old(Row())
    {
      if status == Completed || status == JobCancelled { return Some(InvalidTransition); }
      status := JobCancelled;
      reserver := None;
      return None;
    }

    method Complete() returns (err: Option<Error>)
      modifies this
      ensures err == if old(status).Reserved? then None else Some(InvalidTransition)
      ensures Row() == if err.None? then old(Row()).(status := Completed) else old(Row())
    {
      if status != Reserved { return Some(InvalidTransition); }
      status := Completed;
      return None;
    }
  }
}
