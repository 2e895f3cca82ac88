/** The rows of the three tables, their status enumerations and the error kinds.

    Row identifiers are the keys of the tables, so a row does not repeat its own id.
    Of the time stamps two are kept: a job's creation time, which one query sorts by, and a
    drone's last heartbeat, which the aggregate sets. */
module Domain {

  datatype Option<+T> = None | Some(value: T)

  type Uuid = nat
  type DroneId = string

  /** How long a cached entry lives; a configured lifetime is positive. */
  type Lifetime = n: int | n > 0 witness 1

  datatype Location = Location(lat: real, lng: real)

  /** The error kinds that reach a caller. */
  datatype Error =
    | NotFound
    | AlreadyReserved
    | InvalidTransition
    | Forbidden
    | AlreadyBroken
    | Validation
    | OutOfZone
    | Internal

  /** The seven order statuses of the domain, and `Cancelled`, which only the SQL of Cancel writes. */
  datatype OrderStatus =
    | Pending | Assigned | PickedUp | Delivered | Failed | Withdrawn | AwaitingHandoff
    | Cancelled

  datatype DroneStatus = Idle | EnRoutePickup | EnRouteDelivery | Broken

  datatype JobStatus = Open | Reserved | Completed | JobCancelled

  datatype OrderRow = OrderRow(
    submittedBy: string,
    origin: Location,
    destination: Location,
    status: OrderStatus,
    drone: Option<DroneId>)

  datatype DroneRow = DroneRow(
    status: DroneStatus,
    at: Location,
    order: Option<Uuid>,
    heartbeat: Option<int>)

  datatype JobRow = JobRow(
    order: Uuid,
    status: JobStatus,
    reserver: Option<DroneId>,
    createdAt: int)

  const ORIGIN_POINT := Location(0.0, 0.0)
  const NEW_DRONE := DroneRow(Idle, ORIGIN_POINT, None, None)

  function NewOrderRow(submitter: string, origin: Location, destination: Location): OrderRow {
    OrderRow(submitter, origin, destination, Pending, None)
  }

  function NewJobRow(order: Uuid, now: int): JobRow {
    JobRow(order, Open, None, now)
  }

  /** Terminal in the sense of the aggregate: `Cancelled` is not among the statuses it lists. */
  predicate IsTerminal(status: OrderStatus) {
    status.Delivered? || status.Failed? || status.Withdrawn?
  }

  predicate EnRoute(status: DroneStatus) {
    status.EnRoutePickup? || status.EnRouteDelivery?
  }

  /** A live job is one the cancelling UPDATE still matches. */
  predicate Live(j: JobRow) {
    !j.status.Completed? && !j.status.JobCancelled?
  }

  /** An active job is one the completing SELECT still matches. */
  predicate Active(j: JobRow) {
    !j.status.JobCancelled?
  }

  predicate ValidLatLng(at: Location) {
    -90.0 <= at.lat <= 90.0 && -180.0 <= at.lng <= 180.0
  }
}
