/** Which operations write which column, and the history law of every column: at any point of any
    run it holds what the latest successful operation that writes it wrote. `Writes` is the table of
    writers, column by column, in terms of the requests alone. */
module Chronicle {
  import opened Domain
  import opened Protocol
  import opened Invariant
  import opened Consequences
  import opened Histories

  /** A column of a row of one of the tables. */
  datatype Cell =
    | OrderStatusOf(order: Uuid)
    | CarrierOf(order: Uuid)
    | OriginOf(order: Uuid)
    | DestinationOf(order: Uuid)
    | DroneStatusOf(drone: DroneId)
    | LoadOf(drone: DroneId)
    | JobStatusOf(job: Uuid)
    | ReserverOf(job: Uuid)
    | JobOrderOf(job: Uuid)
    | JobTimeOf(job: Uuid)

  datatype Value =
    | IsOrder(status: OrderStatus)
    | IsDrone(fleet: DroneStatus)
    | IsJob(work: JobStatus)
    | By(drone: Option<DroneId>)
    | Holding(order: Option<Uuid>)
    | Where(at: Location)
    | When(time: int)

  /** What the tables hold, if the row exists. */
  function Content(s: State, cell: Cell): Option<Value> {
    match cell
    case OrderStatusOf(o) => if o in s.orders then Some(IsOrder(s.orders[o].status)) else None
    case CarrierOf(o) => if o in s.orders then Some(By(s.orders[o].drone)) else None
    case OriginOf(o) => if o in s.orders then Some(Where(s.orders[o].origin)) else None
    case DestinationOf(o) => if o in s.orders then Some(Where(s.orders[o].destination)) else None
    case DroneStatusOf(d) => if d in s.drones then Some(IsDrone(s.drones[d].status)) else None
    case LoadOf(d) => if d in s.drones then Some(Holding(s.drones[d].order)) else None
    case JobStatusOf(j) => if j in s.jobs then Some(IsJob(s.jobs[j].status)) else None
    case ReserverOf(j) => if j in s.jobs then Some(By(s.jobs[j].reserver)) else None
    case JobOrderOf(j) => if j in s.jobs then Some(Holding(Some(s.jobs[j].order))) else None
    case JobTimeOf(j) => if j in s.jobs then Some(When(s.jobs[j].createdAt)) else None
  }

  // ---------------------------------------------------------------- who writes what

  /** The operation is about order `o` by name. */
  predicate Names(op: Op, o: Uuid) {
    (op.Create? || op.Cancel? || op.Withdraw? || op.Grab? || op.Complete? || op.AdminUpdate?) && op.order == o
  }

  /** It reserves a job of order `o`. */
  predicate ReservesFor(s: State, op: Op, o: Uuid) {
    op.Reserve? && op.job in s.jobs && s.jobs[op.job].order == o
  }

  /** It reports the drone broken that holds order `o`. */
  predicate BreaksUnder(s: State, op: Op, o: Uuid) {
    op.Break? && op.drone in s.drones && s.drones[op.drone].order == Some(o)
  }

  function OrderStatusBy(s: State, op: Op, o: Uuid): Option<OrderStatus> {
    if ReservesFor(s, op, o) then Some(Assigned)
    else if BreaksUnder(s, op, o) then Some(AwaitingHandoff)
    else if !Names(op, o) then None
    else
      match op
      case Create(_, _, _, _, _, _) => Some(Pending)
      case Cancel(_, _) => Some(Cancelled)
      case Withdraw(_) => Some(Withdrawn)
      case Grab(_, _) => Some(PickedUp)
      case Complete(_, _, delivered, _) => Some(if delivered then Delivered else Failed)
      case _ => None
  }

  function CarrierBy(s: State, op: Op, o: Uuid): Option<Option<DroneId>> {
    if ReservesFor(s, op, o) then Some(Some(op.drone))
    else if BreaksUnder(s, op, o) || ((op.Create? || op.Complete?) && op.order == o) then Some(None)
    else None
  }

  function OriginBy(op: Op, o: Uuid): Option<Location> {
    if op.Create? && op.order == o then Some(op.origin)
    else if op.AdminUpdate? && op.order == o && op.newOrigin.Some? then Some(op.newOrigin.value.at)
    else None
  }

  function DestinationBy(op: Op, o: Uuid): Option<Location> {
    if op.Create? && op.order == o then Some(op.destination)
    else if op.AdminUpdate? && op.order == o && op.newDestination.Some? then Some(op.newDestination.value.at)
    else None
  }

  /** A heartbeat, or the enrolment that precedes it, of a drone not known yet. */
  predicate Introduces(s: State, op: Op, d: DroneId) {
    (op.Heartbeat? || op.Enroll?) && op.drone == d && d !in s.drones
  }

  function DroneStatusBy(s: State, op: Op, d: DroneId): Option<DroneStatus> {
    if Introduces(s, op, d) then Some(Idle)
    else
      match op
      case Reserve(_, e) => if e == d then Some(EnRoutePickup) else None
      case Grab(_, e) => if e == d then Some(EnRouteDelivery) else None
      case Complete(_, e, _, _) => if e == d then Some(Idle) else None
      case Break(e, _, _) => if e == d then Some(Broken) else None
      case Fix(e) => if e == d then Some(Idle) else None
      case _ => None
  }

  function LoadBy(s: State, op: Op, d: DroneId): Option<Option<Uuid>> {
    if op.Reserve? && op.drone == d && op.job in s.jobs then Some(Some(s.jobs[op.job].order))
    else if Introduces(s, op, d) || ((op.Complete? || op.Break? || op.Fix?) && op.drone == d) then Some(None)
    else None
  }

  /** The operation opens job `j`, for the order and at the time it returns. */
  function Opens(s: State, op: Op, j: Uuid): Option<(Uuid, int)> {
    if op.Create? && op.job == j then Some((op.order, op.now))
    else if op.Break? && op.job == j && op.drone in s.drones && s.drones[op.drone].order.Some?
    then Some((s.drones[op.drone].order.value, op.now))
    else None
  }

  /** It calls off or hands over the order of job `j`, which is open or reserved. */
  predicate Cancels(s: State, op: Op, j: Uuid) {
    && j in s.jobs && (s.jobs[j].status == Open || s.jobs[j].status == Reserved)
    && (((op.Cancel? || op.Withdraw?) && op.order == s.jobs[j].order) || BreaksUnder(s, op, s.jobs[j].order))
  }

  function JobStatusBy(s: State, op: Op, j: Uuid): Option<JobStatus> {
    if Opens(s, op, j).Some? then Some(Open)
    else if Cancels(s, op, j) then Some(JobCancelled)
    else if op.Reserve? && op.job == j then Some(JobStatus.Reserved)
    else if op.Complete? && op.pick == Some(j) then Some(JobStatus.Completed)
    else None
  }

  function ReserverBy(s: State, op: Op, j: Uuid): Option<Option<DroneId>> {
    if Opens(s, op, j).Some? || Cancels(s, op, j) then Some(None)
    else if op.Reserve? && op.job == j then Some(Some(op.drone))
    else None
  }

  /** What a successful operation writes to a column, if anything. */
  function Writes(s: State, op: Op, cell: Cell): Option<Value> {
    match cell
    case OrderStatusOf(o) =>
      var x := OrderStatusBy(s, op, o); if x.Some? then Some(IsOrder(x.value)) else None
    case CarrierOf(o) => var x := CarrierBy(s, op, o); if x.Some? then Some(By(x.value)) else None
    case OriginOf(o) => var x := OriginBy(op, o); if x.Some? then Some(Where(x.value)) else None
    case DestinationOf(o) => var x := DestinationBy(op, o); if x.Some? then Some(Where(x.value)) else None
    case DroneStatusOf(d) =>
      var x := DroneStatusBy(s, op, d); if x.Some? then Some(IsDrone(x.value)) else None
    case LoadOf(d) => var x := LoadBy(s, op, d); if x.Some? then Some(Holding(x.value)) else None
    case JobStatusOf(j) => var x := JobStatusBy(s, op, j); if x.Some? then Some(IsJob(x.value)) else None
    case ReserverOf(j) => var x := ReserverBy(s, op, j); if x.Some? then Some(By(x.value)) else None
    case JobOrderOf(j) => var x := Opens(s, op, j); if x.Some? then Some(Holding(Some(x.value.0))) else None
    case JobTimeOf(j) => var x := Opens(s, op, j); if x.Some? then Some(When(x.value.1)) else None
  }

  // ---------------------------------------------------------------- one step

  ghost predicate StepOf(s: State, t: State, op: Op, cell: Cell) {
    Content(t, cell) == if Writes(s, op, cell).Some? then Writes(s, op, cell) else Content(s, cell)
  }

  lemma OrderStep(s: State, op: Op, o: Uuid)
    requires Verdict(s, op).None?
    ensures StepOf(s, Effect(s, op), op, OrderStatusOf(o)) && StepOf(s, Effect(s, op), op, CarrierOf(o))
  {
  }

  lemma PlaceStep(s: State, op: Op, o: Uuid)
    requires Verdict(s, op).None?
    ensures StepOf(s, Effect(s, op), op, OriginOf(o)) && StepOf(s, Effect(s, op), op, DestinationOf(o))
  {
  }

  lemma DroneStep(s: State, op: Op, d: DroneId)
    requires Verdict(s, op).None?
    ensures StepOf(s, Effect(s, op), op, DroneStatusOf(d)) && StepOf(s, Effect(s, op), op, LoadOf(d))
  {
  }

  ghost predicate JobSteps(s: State, t: State, op: Op, j: Uuid) {
    && StepOf(s, t, op, JobStatusOf(j)) && StepOf(s, t, op, ReserverOf(j))
    && StepOf(s, t, op, JobOrderOf(j)) && StepOf(s, t, op, JobTimeOf(j))
  }

  lemma JobStep(s: State, op: Op, j: Uuid)
    requires Verdict(s, op).None?
    ensures JobSteps(s, Effect(s, op), op, j)
  {
    match op
    case Create(o, _, _, _, k, now) => CreateJobStep(s, op, j);
    case Cancel(o, _) => CallOffJobStep(s, op, j);
    case Withdraw(o) => CallOffJobStep(s, op, j);
    case Break(d, k, now) => BreakJobStep(s, op, j);
    case Reserve(_, _) => ReserveJobStep(s, op, j);
    case Complete(_, _, _, _) => CompleteJobStep(s, op, j);
    case _ => QuietJobStep(s, Effect(s, op), op, j);
  }

  lemma CreateJobStep(s: State, op: Op, j: Uuid)
    requires op.Create? && CreateVerdict(s, op.order, op.job).None?
    ensures JobSteps(s, Effect(s, op), op, j)
  {
  }

  lemma CallOffJobStep(s: State, op: Op, j: Uuid)
    requires (op.Cancel? || op.Withdraw?) && Verdict(s, op).None?
    ensures JobSteps(s, Effect(s, op), op, j)
  {
    assert Effect(s, op).jobs == CancelLive(s.jobs, op.order);
  }

  lemma BreakJobStep(s: State, op: Op, j: Uuid)
    requires op.Break? && BreakVerdict(s, op.drone, op.job).None?
    ensures JobSteps(s, BreakEffect(s, op.drone, op.job, op.now), op, j)
  {
    if s.drones[op.drone].order.Some? {
      assert op.job !in s.jobs;
    }
  }

  lemma ReserveJobStep(s: State, op: Op, j: Uuid)
    requires op.Reserve? && ReserveVerdict(s, op.job, op.drone).None?
    ensures JobSteps(s, ReserveEffect(s, op.job, op.drone), op, j)
  {
  }

  lemma CompleteJobStep(s: State, op: Op, j: Uuid)
    requires op.Complete? && Verdict(s, op).None?
    ensures JobSteps(s, Effect(s, op), op, j)
  {
    assert !Cancels(s, op, j) && Opens(s, op, j).None?;
  }

  lemma QuietJobStep(s: State, t: State, op: Op, j: Uuid)
    requires op.Grab? || op.Heartbeat? || op.Enroll? || op.Fix? || op.AdminUpdate?
    requires t.jobs == s.jobs
    ensures JobSteps(s, t, op, j)
  {
  }

  /** A successful operation writes what the table of writers says, and leaves all else alone. */
  lemma StepWrites(s: State, op: Op, cell: Cell)
    requires Verdict(s, op).None?
    ensures StepOf(s, Effect(s, op), op, cell)
  {
    match cell
    case OrderStatusOf(o) => OrderStep(s, op, o);
    case CarrierOf(o) => OrderStep(s, op, o);
    case OriginOf(o) => PlaceStep(s, op, o);
    case DestinationOf(o) => PlaceStep(s, op, o);
    case DroneStatusOf(d) => DroneStep(s, op, d);
    case LoadOf(d) => DroneStep(s, op, d);
    case JobStatusOf(j) => JobStep(s, op, j);
    case ReserverOf(j) => JobStep(s, op, j);
    case JobOrderOf(j) => JobStep(s, op, j);
    case JobTimeOf(j) => JobStep(s, op, j);
  }

  // ---------------------------------------------------------------- whole runs

  /** What step `i` of a run wrote to a column, if it succeeded and writes it. */
  ghost function WrittenAt(ops: seq<Op>, i: nat, cell: Cell): Option<Value>
    requires i < |ops|
  {
    if Succeeds(ops, i) then Writes(StateAt(ops, i), ops[i], cell) else None
  }

  /** Step `i` was the last of the first `n` to write the column, and wrote `v`. */
  ghost predicate LatestWrite(ops: seq<Op>, i: nat, n: nat, cell: Cell, v: Value)
    requires n <= |ops|
  {
    i < n && WrittenAt(ops, i, cell) == Some(v) && forall k: nat :: i < k < n ==> WrittenAt(ops, k, cell).None?
  }

  lemma CellStep(ops: seq<Op>, n: nat, cell: Cell)
    requires n < |ops|
    ensures Content(StateAt(ops, n + 1), cell) ==
            if WrittenAt(ops, n, cell).Some? then WrittenAt(ops, n, cell) else Content(StateAt(ops, n), cell)
  {
    if Succeeds(ops, n) { StepWrites(StateAt(ops, n), ops[n], cell); }
  }

  lemma SameLatestWrite(ops: seq<Op>, i: nat, n: nat, cell: Cell, v: Value)
    requires n < |ops| && WrittenAt(ops, n, cell).None?
    ensures LatestWrite(ops, i, n + 1, cell, v) <==> LatestWrite(ops, i, n, cell, v)
  {
  }

  /** The history law: at any point of any run a column holds `v` exactly when the latest successful
      operation that writes it wrote `v`. */
  lemma {:induction false} ContentExactly(ops: seq<Op>, n: nat, cell: Cell, v: Value)
    requires n <= |ops|
    ensures Content(StateAt(ops, n), cell) == Some(v) <==> exists i: nat :: LatestWrite(ops, i, n, cell, v)
  {
    if n == 0 {
    } else {
      var p := n - 1;
      ContentExactly(ops, p, cell, v);
      CellStep(ops, p, cell);
      if WrittenAt(ops, p, cell).Some? {
        assert forall i: nat :: LatestWrite(ops, i, n, cell, v) ==> i == p;
        assert LatestWrite(ops, p, n, cell, WrittenAt(ops, p, cell).value);
      } else {
        forall i: nat ensures LatestWrite(ops, i, n, cell, v) <==> LatestWrite(ops, i, p, cell, v) {
          SameLatestWrite(ops, i, p, cell, v);
        }
      }
    }
  }

  // ---------------------------------------------------------------- how orders end, and where they are

  /** Step `i` completes order `o` with the given result. */
  ghost predicate CompletedAt(ops: seq<Op>, i: nat, o: Uuid, delivered: bool)
    requires i < |ops|
  {
    ops[i].Complete? && ops[i].order == o && ops[i].delivered == delivered && Succeeds(ops, i)
  }

  lemma EndsAs(ops: seq<Op>, i: nat, n: nat, o: Uuid)
    requires i < n <= |ops| && ops[i].Complete? && ops[i].order == o && Succeeds(ops, i)
    ensures o in StateAt(ops, n).orders
    ensures StateAt(ops, n).orders[o].status == if ops[i].delivered then Delivered else Failed
  {
    OrderStep(StateAt(ops, i), ops[i], o);
    assert StateAt(ops, i + 1) == Apply(StateAt(ops, i), ops[i]);
    FinalForever(ops, i + 1, n, o);
  }

  lemma EndsAsExactly(ops: seq<Op>, n: nat, o: Uuid, delivered: bool)
    requires n <= |ops|
    ensures o in StateAt(ops, n).orders
            && StateAt(ops, n).orders[o].status == (if delivered then Delivered else Failed) <==>
            exists i: nat :: i < n && CompletedAt(ops, i, o, delivered)
  {
    var v := IsOrder(if delivered then Delivered else Failed);
    ContentExactly(ops, n, OrderStatusOf(o), v);
    if i: nat :| LatestWrite(ops, i, n, OrderStatusOf(o), v) {
      assert CompletedAt(ops, i, o, delivered);
    }
    if i: nat :| i < n && CompletedAt(ops, i, o, delivered) {
      EndsAs(ops, i, n, o);
    }
  }

  /** At any point of any run an order is DELIVERED exactly when some completion reported it delivered,
      and FAILED exactly when one reported it not delivered. */
  lemma EndsExactly(ops: seq<Op>, n: nat, o: Uuid)
    requires n <= |ops|
    ensures o in StateAt(ops, n).orders && StateAt(ops, n).orders[o].status == Delivered <==>
            exists i: nat :: i < n && CompletedAt(ops, i, o, true)
    ensures o in StateAt(ops, n).orders && StateAt(ops, n).orders[o].status == Failed <==>
            exists i: nat :: i < n && CompletedAt(ops, i, o, false)
  {
    EndsAsExactly(ops, n, o, true);
    EndsAsExactly(ops, n, o, false);
  }

  /** A creation of order `o`, or an admin update of it that names an origin. */
  predicate SetsOrigin(op: Op, o: Uuid) {
    (op.Create? && op.order == o) || (op.AdminUpdate? && op.order == o && op.newOrigin.Some?)
  }

  predicate GivesOrigin(op: Op, o: Uuid, at: Location) {
    SetsOrigin(op, o) && at == if op.Create? then op.origin else op.newOrigin.value.at
  }

  predicate SetsDestination(op: Op, o: Uuid) {
    (op.Create? && op.order == o) || (op.AdminUpdate? && op.order == o && op.newDestination.Some?)
  }

  predicate GivesDestination(op: Op, o: Uuid, at: Location) {
    SetsDestination(op, o) && at == if op.Create? then op.destination else op.newDestination.value.at
  }

  /** The latest of the first `n` steps to do so was step `i`, and gave `at`. */
  ghost predicate LatestOrigin(ops: seq<Op>, i: nat, n: nat, o: Uuid, at: Location)
    requires n <= |ops|
  {
    && i < n && Succeeds(ops, i) && GivesOrigin(ops[i], o, at)
    && forall k: nat :: i < k < n && Succeeds(ops, k) ==> !SetsOrigin(ops[k], o)
  }

  lemma OriginWritten(ops: seq<Op>, i: nat, n: nat, o: Uuid, at: Location)
    requires n <= |ops|
    ensures LatestOrigin(ops, i, n, o, at) <==> LatestWrite(ops, i, n, OriginOf(o), Where(at))
  {
    forall k: nat | k < n
      ensures WrittenAt(ops, k, OriginOf(o)).Some? <==> Succeeds(ops, k) && SetsOrigin(ops[k], o)
    {
    }
  }

  /** The latest of the first `n` steps to do so was step `i`, and gave `at`. */
  ghost predicate LatestDestination(ops: seq<Op>, i: nat, n: nat, o: Uuid, at: Location)
    requires n <= |ops|
  {
    && i < n && Succeeds(ops, i) && GivesDestination(ops[i], o, at)
    && forall k: nat :: i < k < n && Succeeds(ops, k) ==> !SetsDestination(ops[k], o)
  }

  lemma DestinationWritten(ops: seq<Op>, i: nat, n: nat, o: Uuid, at: Location)
    requires n <= |ops|
    ensures LatestDestination(ops, i, n, o, at) <==> LatestWrite(ops, i, n, DestinationOf(o), Where(at))
  {
    forall k: nat | k < n
      ensures WrittenAt(ops, k, DestinationOf(o)).Some? <==> Succeeds(ops, k) && SetsDestination(ops[k], o)
    {
    }
  }

  /** An order's origin is the one its creation gave until an admin update gives another, and then
      always the latest; nothing else moves it. */
  lemma OriginExactly(ops: seq<Op>, n: nat, o: Uuid, at: Location)
    requires n <= |ops|
    ensures o in StateAt(ops, n).orders && StateAt(ops, n).orders[o].origin == at <==>
            exists i: nat :: LatestOrigin(ops, i, n, o, at)
  {
    ContentExactly(ops, n, OriginOf(o), Where(at));
    forall i: nat ensures LatestOrigin(ops, i, n, o, at) <==> LatestWrite(ops, i, n, OriginOf(o), Where(at)) {
      OriginWritten(ops, i, n, o, at);
    }
  }

  /** And its destination likewise. */
  lemma DestinationExactly(ops: seq<Op>, n: nat, o: Uuid, at: Location)
    requires n <= |ops|
    ensures o in StateAt(ops, n).orders && StateAt(ops, n).orders[o].destination == at <==>
            exists i: nat :: LatestDestination(ops, i, n, o, at)
  {
    ContentExactly(ops, n, DestinationOf(o), Where(at));
    forall i: nat
      ensures LatestDestination(ops, i, n, o, at) <==> LatestWrite(ops, i, n, DestinationOf(o), Where(at))
    {
      DestinationWritten(ops, i, n, o, at);
    }
  }
}
