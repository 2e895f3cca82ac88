/** The serial protocol: each operation as a guard (`Verdict`) and an atomic effect on the
    three tables. The imperative transactions and the interleaved step machines are both
    proved against this module. */
module Protocol {
  import opened Domain

  datatype State = State(
    orders: map<Uuid, OrderRow>,
    drones: map<DroneId, DroneRow>,
    jobs: map<Uuid, JobRow>)

  const EMPTY := State(map[], map[], map[])

  /** A location together with the answer of the delivery-zone test. */
  datatype Placed = Placed(at: Location, inZone: bool)

  /** A request. Identifiers the code draws at random (`job`, the new `order`) and the row
      that the ORDER BY/LIMIT query returned (`pick`) are part of the request.
      `Withdraw` is the cancellation guarded by the aggregate's own rule; no caller uses it.
      `Enroll` makes sure a drone exists: the first half of a heartbeat. */
  datatype Op =
    | Create(order: Uuid, submitter: string, origin: Location, destination: Location, job: Uuid, now: int)
    | Cancel(order: Uuid, submitter: string)
    | Withdraw(order: Uuid)
    | Reserve(job: Uuid, drone: DroneId)
    | Grab(order: Uuid, drone: DroneId)
    | Complete(order: Uuid, drone: DroneId, delivered: bool, pick: Option<Uuid>)
    | Break(drone: DroneId, job: Uuid, now: int)
    | Heartbeat(drone: DroneId, spot: Placed, now: int)
    | Enroll(drone: DroneId)
    | Fix(drone: DroneId)
    | AdminUpdate(order: Uuid, newOrigin: Option<Placed>, newDestination: Option<Placed>)

  // ---------------------------------------------------------------- the two job queries

  predicate LiveFor(s: State, o: Uuid, j: Uuid) {
    j in s.jobs && s.jobs[j].order == o && Live(s.jobs[j])
  }

  predicate ActiveFor(s: State, o: Uuid, j: Uuid) {
    j in s.jobs && s.jobs[j].order == o && Active(s.jobs[j])
  }

  function LiveJobs(s: State, o: Uuid): set<Uuid> {
    set j | j in s.jobs && LiveFor(s, o, j)
  }

  function CancelRow(j: JobRow): JobRow {
    j.(status := JobCancelled, reserver := None)
  }

  /** The UPDATE that cancels every live job of an order. */
  function CancelLive(jobs: map<Uuid, JobRow>, o: Uuid): map<Uuid, JobRow> {
    map j | j in jobs :: if jobs[j].order == o && Live(jobs[j]) then CancelRow(jobs[j]) else jobs[j]
  }

  /** What the SELECT ... ORDER BY created_at DESC LIMIT 1 may return: equal stamps leave a choice. */
  ghost predicate QueryMayReturn(s: State, o: Uuid, pick: Option<Uuid>) {
    match pick
    case None => forall j :: !ActiveFor(s, o, j)
    case Some(q) => Latest(s, o, q)
  }

  ghost predicate Latest(s: State, o: Uuid, q: Uuid) {
    ActiveFor(s, o, q) && forall j :: ActiveFor(s, o, j) ==> s.jobs[j].createdAt <= s.jobs[q].createdAt
  }

  /** A job that is not cancelled, and none of the order's others is newer; or there is none. */
  lemma ReturnsNewest(s: State, o: Uuid, pick: Option<Uuid>)
    ensures QueryMayReturn(s, o, pick) <==>
            match pick
            case None => forall j :: j in s.jobs && s.jobs[j].order == o ==> s.jobs[j].status == JobCancelled
            case Some(q) =>
              && q in s.jobs && s.jobs[q].order == o && s.jobs[q].status != JobCancelled
              && forall j :: j in s.jobs && s.jobs[j].order == o && s.jobs[j].status != JobCancelled ==>
                   s.jobs[j].createdAt <= s.jobs[q].createdAt
  {
    forall j ensures ActiveFor(s, o, j) <==> j in s.jobs && s.jobs[j].order == o && s.jobs[j].status != JobCancelled { }
  }

  lemma {:induction false} LatestExists(jobs: map<Uuid, JobRow>, found: set<Uuid>)
    requires found != {} && found <= jobs.Keys
    ensures exists q :: q in found && forall i :: i in found ==> jobs[i].createdAt <= jobs[q].createdAt
    decreases |found|
  {
    var x :| x in found;
    var rest := found - {x};
    assert found == rest + {x};
    if rest == {} {
      assert found == {x};
    } else {
      LatestExists(jobs, rest);
      var q :| q in rest && forall i :: i in rest ==> jobs[i].createdAt <= jobs[q].createdAt;
      var best := if jobs[x].createdAt <= jobs[q].createdAt then q else x;
      assert best in found && forall i :: i in found ==> jobs[i].createdAt <= jobs[best].createdAt by {
        assert forall i :: i in found ==> i == x || i in rest;
      }
    }
  }

  /** The job query always has an answer. */
  lemma SomePick(s: State, o: Uuid) returns (pick: Option<Uuid>)
    ensures QueryMayReturn(s, o, pick)
  {
    var found := set j | j in s.jobs && ActiveFor(s, o, j);
    pick := None;
    if found == {} {
      forall j ensures !ActiveFor(s, o, j) { assert j !in found; }
    } else {
      LatestExists(s.jobs, found);
      var q :| q in found && forall i :: i in found ==> s.jobs[i].createdAt <= s.jobs[q].createdAt;
      forall i | ActiveFor(s, o, i) ensures s.jobs[i].createdAt <= s.jobs[q].createdAt { assert i in found; }
      pick := Some(q);
    }
  }

  // ---------------------------------------------------------------- guards

  function CreateVerdict(s: State, o: Uuid, j: Uuid): Option<Error> {
    if o in s.orders || j in s.jobs then Some(Internal) else None
  }

  function CancelVerdict(s: State, o: Uuid): Option<Error> {
    if o !in s.orders || s.orders[o].status.Cancelled? then Some(Internal)
    else if LiveJobs(s, o) == {} then Some(Internal)
    else None
  }

  function WithdrawVerdict(s: State, o: Uuid): Option<Error> {
    if o !in s.orders then Some(NotFound)
    else if !s.orders[o].status.Pending? then Some(InvalidTransition)
    else if LiveJobs(s, o) == {} then Some(Internal)
    else None
  }

  function ReserveVerdict(s: State, j: Uuid, d: DroneId): Option<Error> {
    if j !in s.jobs then Some(NotFound)
    else if !s.jobs[j].status.Open? then Some(AlreadyReserved)
    else if d !in s.drones then Some(Internal)  // the foreign key of reserved_by_drone_id
    else if s.jobs[j].order !in s.orders then Some(NotFound)
    else if !Assignable(s.orders[s.jobs[j].order].status) then Some(InvalidTransition)
    else if !s.drones[d].status.Idle? then Some(InvalidTransition)
    else None
  }

  predicate Assignable(status: OrderStatus) {
    status.Pending? || status.AwaitingHandoff?
  }

  function GrabVerdict(s: State, o: Uuid, d: DroneId): Option<Error> {
    if o !in s.orders then Some(NotFound)
    else if s.orders[o].drone != Some(d) then Some(Forbidden)
    else if !s.orders[o].status.Assigned? then Some(InvalidTransition)
    else if d !in s.drones then Some(NotFound)
    else if !s.drones[d].status.EnRoutePickup? then Some(InvalidTransition)
    else None
  }

  /** The order's part of the completion guard. */
  function CloseVerdict(orders: map<Uuid, OrderRow>, o: Uuid, d: DroneId): Option<Error> {
    if o !in orders then Some(NotFound)
    else if orders[o].drone != Some(d) then Some(Forbidden)
    else if !orders[o].status.PickedUp? then Some(InvalidTransition)
    else None
  }

  ghost function CompleteVerdict(s: State, o: Uuid, d: DroneId, pick: Option<Uuid>): Option<Error> {
    if CloseVerdict(s.orders, o, d).Some? then CloseVerdict(s.orders, o, d)
    else if d !in s.drones then Some(NotFound)
    else if pick.None? || !Latest(s, o, pick.value) then Some(Internal)
    else if !s.jobs[pick.value].status.Reserved? then Some(InvalidTransition)
    else None
  }

  function BreakVerdict(s: State, d: DroneId, j: Uuid): Option<Error> {
    if d !in s.drones then Some(NotFound)
    else if s.drones[d].status.Broken? then Some(AlreadyBroken)
    else match s.drones[d].order
      case None => None
      case Some(o) => HandOffVerdict(s, o, j)
  }

  /** The order's and the jobs' part of the guard of a broken report. */
  function HandOffVerdict(s: State, o: Uuid, j: Uuid): Option<Error> {
    if o !in s.orders then Some(NotFound)
    else if !s.orders[o].status.Assigned? && !s.orders[o].status.PickedUp? then Some(InvalidTransition)
    else if LiveJobs(s, o) == {} || j in s.jobs then Some(Internal)
    else None
  }

  function SpotVerdict(spot: Placed): Option<Error> {
    if !ValidLatLng(spot.at) then Some(Validation)
    else if !spot.inZone then Some(OutOfZone)
    else None
  }

  function FixVerdict(s: State, d: DroneId): Option<Error> {
    if d !in s.drones then Some(NotFound)
    else if !s.drones[d].status.Broken? then Some(InvalidTransition)
    else None
  }

  function MoveVerdict(status: OrderStatus, spot: Option<Placed>): Option<Error> {
    if spot.None? then None
    else if SpotVerdict(spot.value).Some? then SpotVerdict(spot.value)
    else if IsTerminal(status) then Some(InvalidTransition)
    else None
  }

  function AdminVerdict(s: State, o: Uuid, origin: Option<Placed>, destination: Option<Placed>): Option<Error> {
    if o !in s.orders then Some(NotFound)
    else if MoveVerdict(s.orders[o].status, origin).Some? then MoveVerdict(s.orders[o].status, origin)
    else MoveVerdict(s.orders[o].status, destination)
  }

  /** `None` when the operation commits, otherwise the error its caller receives. */
  ghost function Verdict(s: State, op: Op): Option<Error> {
    match op
    case Create(o, _, _, _, j, _) => CreateVerdict(s, o, j)
    case Cancel(o, _) => CancelVerdict(s, o)
    case Withdraw(o) => WithdrawVerdict(s, o)
    case Reserve(j, d) => ReserveVerdict(s, j, d)
    case Grab(o, d) => GrabVerdict(s, o, d)
    case Complete(o, d, _, pick) => CompleteVerdict(s, o, d, pick)
    case Break(d, j, _) => BreakVerdict(s, d, j)
    case Heartbeat(_, spot, _) => SpotVerdict(spot)
    case Enroll(_) => None
    case Fix(d) => FixVerdict(s, d)
    case AdminUpdate(o, origin, destination) => AdminVerdict(s, o, origin, destination)
  }

  // ---------------------------------------------------------------- effects

  function MoveTo(default: Location, spot: Option<Placed>): Location {
    if spot.Some? then spot.value.at else default
  }

  function CreateEffect(s: State, o: Uuid, row: OrderRow, j: Uuid, now: int): State {
    s.(orders := s.orders[o := row], jobs := s.jobs[j := NewJobRow(o, now)])
  }

  function CancelEffect(s: State, o: Uuid, submitter: string): State
    requires CancelVerdict(s, o).None?
  {
    s.(orders := s.orders[o := s.orders[o].(status := Cancelled, submittedBy := submitter)],
       jobs := CancelLive(s.jobs, o))
  }

  function WithdrawEffect(s: State, o: Uuid): State
    requires WithdrawVerdict(s, o).None?
  {
    s.(orders := s.orders[o := s.orders[o].(status := Withdrawn)], jobs := CancelLive(s.jobs, o))
  }

  function ReserveEffect(s: State, j: Uuid, d: DroneId): State
    requires ReserveVerdict(s, j, d).None?
  {
    var o := s.jobs[j].order;
    State(s.orders[o := s.orders[o].(status := Assigned, drone := Some(d))],
          s.drones[d := s.drones[d].(status := EnRoutePickup, order := Some(o))],
          s.jobs[j := s.jobs[j].(status := Reserved, reserver := Some(d))])
  }

  function GrabEffect(s: State, o: Uuid, d: DroneId): State
    requires GrabVerdict(s, o, d).None?
  {
    s.(orders := s.orders[o := s.orders[o].(status := PickedUp)],
       drones := s.drones[d := s.drones[d].(status := EnRouteDelivery)])
  }

  ghost function CompleteEffect(s: State, o: Uuid, d: DroneId, delivered: bool, pick: Option<Uuid>): State
    requires CompleteVerdict(s, o, d, pick).None?
  {
    State(s.orders[o := s.orders[o].(status := if delivered then Delivered else Failed, drone := None)],
          s.drones[d := s.drones[d].(status := Idle, order := None)],
          s.jobs[pick.value := s.jobs[pick.value].(status := Completed)])
  }

  function BreakEffect(s: State, d: DroneId, j: Uuid, now: int): State
    requires BreakVerdict(s, d, j).None?
  {
    var drones := s.drones[d := s.drones[d].(status := Broken, order := None)];
    match s.drones[d].order
    case None => s.(drones := drones)
    case Some(o) => HandOffEffect(s.(drones := drones), o, j, now)
  }

  function HandOffEffect(s: State, o: Uuid, j: Uuid, now: int): State
    requires o in s.orders
  {
    State(s.orders[o := s.orders[o].(status := AwaitingHandoff, drone := None)],
          s.drones,
          CancelLive(s.jobs, o)[j := NewJobRow(o, now)])
  }

  function EnrollEffect(s: State, d: DroneId): State {
    if d in s.drones then s else s.(drones := s.drones[d := NEW_DRONE])
  }

  /** What the upsert of a new drone leaves, whether or not the drone was known. */
  function Reset(s: State, d: DroneId): State {
    s.(drones := s.drones[d := NEW_DRONE])
  }

  function HeartbeatEffect(s: State, d: DroneId, at: Location, now: int): State {
    var row := if d in s.drones then s.drones[d] else NEW_DRONE;
    s.(drones := s.drones[d := row.(at := at, heartbeat := Some(now))])
  }

  function FixEffect(s: State, d: DroneId): State
    requires FixVerdict(s, d).None?
  {
    s.(drones := s.drones[d := s.drones[d].(status := Idle, order := None)])
  }

  function AdminEffect(s: State, o: Uuid, origin: Option<Placed>, destination: Option<Placed>): State
    requires AdminVerdict(s, o, origin, destination).None?
  {
    var row := s.orders[o];
    s.(orders := s.orders[o := row.(origin := MoveTo(row.origin, origin),
                                    destination := MoveTo(row.destination, destination))])
  }

  /** The committed tables after a successful operation. */
  ghost function Effect(s: State, op: Op): State
    requires Verdict(s, op).None?
  {
    match op
    case Create(o, submitter, origin, destination, j, now) =>
      CreateEffect(s, o, NewOrderRow(submitter, origin, destination), j, now)
    case Cancel(o, submitter) => CancelEffect(s, o, submitter)
    case Withdraw(o) => WithdrawEffect(s, o)
    case Reserve(j, d) => ReserveEffect(s, j, d)
    case Grab(o, d) => GrabEffect(s, o, d)
    case Complete(o, d, delivered, pick) => CompleteEffect(s, o, d, delivered, pick)
    case Break(d, j, now) => BreakEffect(s, d, j, now)
    case Heartbeat(d, spot, now) => HeartbeatEffect(s, d, spot.at, now)
    case Enroll(d) => EnrollEffect(s, d)
    case Fix(d) => FixEffect(s, d)
    case AdminUpdate(o, origin, destination) => AdminEffect(s, o, origin, destination)
  }

  /** One serial step: commit the effect, or roll everything back. */
  ghost function Apply(s: State, op: Op): State {
    if Verdict(s, op).None? then Effect(s, op) else s
  }

  // ---------------------------------------------------------------- what an operation touches

  /** The one order an operation touches, if any. */
  ghost function OrderOf(s: State, op: Op): Option<Uuid>
    requires Verdict(s, op).None?
  {
    match op
    case Reserve(j, _) => Some(s.jobs[j].order)
    case Break(d, _, _) => s.drones[d].order
    case Heartbeat(_, _, _) => None
    case Enroll(_) => None
    case Fix(_) => None
    case _ => Some(op.order)
  }

  lemma TouchesOneOrder(s: State, op: Op)
    requires Verdict(s, op).None?
    ensures var t := Apply(s, op);
            match OrderOf(s, op)
            case None => t.orders == s.orders
            case Some(o) => o in t.orders && t.orders == s.orders[o := t.orders[o]]
  {
  }

  /** The one drone an operation touches, if any. */
  function DroneOf(op: Op): Option<DroneId> {
    match op
    case Create(_, _, _, _, _, _) => None
    case Cancel(_, _) => None
    case Withdraw(_) => None
    case AdminUpdate(_, _, _) => None
    case _ => Some(op.drone)
  }

  lemma TouchesOneDrone(s: State, op: Op)
    requires Verdict(s, op).None?
    ensures var t := Apply(s, op);
            match DroneOf(op)
            case None => t.drones == s.drones
            case Some(d) => d in t.drones && t.drones == s.drones[d := t.drones[d]]
  {
  }

  // ---------------------------------------------------------------- foreign keys

  /** The references the schema enforces between the tables. */
  ghost predicate ForeignKeys(s: State) {
    && (forall j :: j in s.jobs ==> s.jobs[j].order in s.orders)
    && (forall j :: j in s.jobs && s.jobs[j].reserver.Some? ==> s.jobs[j].reserver.value in s.drones)
    && (forall d :: d in s.drones && s.drones[d].order.Some? ==> s.drones[d].order.value in s.orders)
  }

  lemma ForeignKeysKept(s: State, op: Op)
    requires ForeignKeys(s)
    ensures ForeignKeys(Apply(s, op))
  {
  }

  // ---------------------------------------------------------------- runs

  /** The committed state after the first `n` operations of a run from empty tables. */
  ghost function StateAt(ops: seq<Op>, n: nat): State
    requires n <= |ops|
  {
    if n == 0 then EMPTY else Apply(StateAt(ops, n - 1), ops[n - 1])
  }

  ghost predicate Succeeds(ops: seq<Op>, i: nat)
    requires i < |ops|
  {
    Verdict(StateAt(ops, i), ops[i]).None?
  }

  ghost predicate Reachable(s: State) {
    exists ops: seq<Op>, n: nat :: n <= |ops| && StateAt(ops, n) == s
  }

  lemma {:induction false} RunForeignKeys(ops: seq<Op>, n: nat)
    requires n <= |ops|
    ensures ForeignKeys(StateAt(ops, n))
  {
    if n == 0 {
    } else {
      RunForeignKeys(ops, n - 1);
      ForeignKeysKept(StateAt(ops, n - 1), ops[n - 1]);
    }
  }
}
