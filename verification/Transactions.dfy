/** The transactions as interleaved step machines over shared tables.

    A transaction executes one statement at a time. A statement that reads for update or writes
    first takes the lock of its row and waits while another transaction holds it; it then sees
    the committed row, or the transaction's own buffered version. Writes stay in the buffer
    until COMMIT publishes them; an abort, possible at any point, drops them. The multi-row
    UPDATE is a snapshot of the matching rows followed by one locking step per row, which
    checks the WHERE clause again.

    The single-row requests read without a lock and write later, outside any transaction. */
module Transactions {
  import opened Domain
  import opened Protocol
  import opened UnlockedReads

  datatype Key = OrderKey(o: Uuid) | DroneKey(d: DroneId) | JobKey(j: Uuid)

  /** A running transaction: its request, position, locks, buffered writes and local variables. */
  datatype Tx = Tx(
    op: Op,
    pc: nat,
    locks: set<Key>,
    buf: State,
    order: Option<OrderRow>,
    drone: Option<DroneRow>,
    job: Option<JobRow>,
    pick: Uuid,
    todo: set<Uuid>)

  function Begin(op: Op): Tx {
    Tx(op, 0, {}, EMPTY, None, None, None, 0, {})
  }

  datatype Stmt =
    | LockOrder(o: Uuid)                     // SELECT ... FOR UPDATE
    | LockDrone(d: DroneId)
    | LockJob(j: Uuid)
    | PickJob(o: Uuid)                       // SELECT ... ORDER BY created_at DESC LIMIT 1 FOR UPDATE:
    | LockPicked(o: Uuid)                    //   choose in the snapshot, then lock and check again
    | PeekDrone(d: DroneId)                  // plain SELECT
    | PutOrder(o: Uuid, orderRow: OrderRow)  // UPDATE of one row
    | PutDrone(d: DroneId, droneRow: DroneRow)
    | PutJob(j: Uuid, jobRow: JobRow)
    | AddOrder(o: Uuid, orderRow: OrderRow)  // INSERT
    | AddJob(j: Uuid, jobRow: JobRow)
    | UpsertDrone(d: DroneId, droneRow: DroneRow)
    | CancelOrder(o: Uuid, submitter: string)
    | FindLive(o: Uuid)                      // UPDATE jobs ... WHERE order_id: the snapshot,
    | CancelNext(o: Uuid)                    //   then one matching row
    | Commit
    | Fail(err: Error)                       // an early return

  /** The statement a transaction executes next. */
  function Program(tx: Tx): Stmt {
    match tx.op
    case Create(o, submitter, origin, destination, j, now) =>
      if tx.pc == 0 then AddOrder(o, NewOrderRow(submitter, origin, destination))
      else if tx.pc == 1 then AddJob(j, NewJobRow(o, now))
      else Commit
    case Cancel(o, submitter) =>
      if tx.pc == 0 then CancelOrder(o, submitter)
      else if tx.pc == 1 then FindLive(o)
      else CancelLoop(tx, o, Commit)
    case Withdraw(o) =>
      if tx.pc == 0 then LockOrder(o)
      else if tx.pc == 1 then
        if tx.order.Some? && tx.order.value.status.Pending?
        then PutOrder(o, tx.order.value.(status := Withdrawn)) else Fail(InvalidTransition)
      else if tx.pc == 2 then FindLive(o)
      else CancelLoop(tx, o, Commit)
    case Reserve(j, d) => ReserveProgram(tx, j, d)
    case Grab(o, d) => GrabProgram(tx, o, d)
    case Complete(o, d, delivered, _) => CompleteProgram(tx, o, d, delivered)
    case Break(d, j, now) => BreakProgram(tx, d, j, now)
    case _ => Fail(Internal)
  }

  /** The rest of a multi-row UPDATE; no matching row is an error. */
  function CancelLoop(tx: Tx, o: Uuid, andThen: Stmt): Stmt {
    if tx.todo != {} then CancelNext(o) else if tx.buf.jobs == map[] then Fail(Internal) else andThen
  }

  function ReserveProgram(tx: Tx, j: Uuid, d: DroneId): Stmt {
    if tx.pc == 0 then LockJob(j)
    else if tx.job.None? then Fail(NotFound)
    else if tx.pc == 1 then
      if tx.job.value.status.Open?
      then PutJob(j, tx.job.value.(status := Reserved, reserver := Some(d)))
      else Fail(AlreadyReserved)
    else if tx.pc == 2 then LockOrder(tx.job.value.order)
    else if tx.pc == 3 then
      if tx.order.Some? && Assignable(tx.order.value.status)
      then PutOrder(tx.job.value.order, tx.order.value.(status := Assigned, drone := Some(d)))
      else Fail(InvalidTransition)
    else if tx.pc == 4 then PeekDrone(d)
    else if tx.pc == 5 then UpsertDrone(d, NEW_DRONE)
    else if tx.pc == 6 then LockDrone(d)
    else if tx.pc == 7 then
      if tx.drone.Some? && tx.drone.value.status.Idle?
      then PutDrone(d, tx.drone.value.(status := EnRoutePickup, order := Some(tx.job.value.order)))
      else Fail(InvalidTransition)
    else Commit
  }

  function GrabProgram(tx: Tx, o: Uuid, d: DroneId): Stmt {
    if tx.pc == 0 then LockOrder(o)
    else if tx.order.None? then Fail(NotFound)
    else if tx.pc == 1 then
      if tx.order.value.drone != Some(d) then Fail(Forbidden)
      else if !tx.order.value.status.Assigned? then Fail(InvalidTransition)
      else PutOrder(o, tx.order.value.(status := PickedUp))
    else if tx.pc == 2 then LockDrone(d)
    else if tx.pc == 3 then
      if tx.drone.Some? && tx.drone.value.status.EnRoutePickup?
      then PutDrone(d, tx.drone.value.(status := EnRouteDelivery)) else Fail(InvalidTransition)
    else Commit
  }

  function CompleteProgram(tx: Tx, o: Uuid, d: DroneId, delivered: bool): Stmt {
    if tx.pc == 0 then LockOrder(o)
    else if tx.order.None? then Fail(NotFound)
    else if tx.pc == 1 then
      if tx.order.value.drone != Some(d) then Fail(Forbidden)
      else if !tx.order.value.status.PickedUp? then Fail(InvalidTransition)
      else PutOrder(o, tx.order.value.(status := if delivered then Delivered else Failed, drone := None))
    else if tx.pc == 2 then LockDrone(d)
    else if tx.pc == 3 then
      if tx.drone.Some? then PutDrone(d, tx.drone.value.(status := Idle, order := None)) else Fail(NotFound)
    else if tx.pc == 4 then PickJob(o)
    else if tx.pc == 5 then LockPicked(o)
    else if tx.pc == 6 then
      if tx.job.Some? && tx.job.value.status.Reserved?
      then PutJob(tx.pick, tx.job.value.(status := Completed)) else Fail(InvalidTransition)
    else Commit
  }

  function BreakProgram(tx: Tx, d: DroneId, j: Uuid, now: int): Stmt {
    if tx.pc == 0 then LockDrone(d)
    else if tx.drone.None? then Fail(NotFound)
    else if tx.pc == 1 then
      if tx.drone.value.status.Broken? then Fail(AlreadyBroken)
      else PutDrone(d, tx.drone.value.(status := Broken, order := None))
    else match tx.drone.value.order
      case None => Commit
      case Some(o) =>
        if tx.pc == 2 then LockOrder(o)
        else if tx.pc == 3 then
          if tx.order.Some? && (tx.order.value.status.Assigned? || tx.order.value.status.PickedUp?)
          then PutOrder(o, tx.order.value.(status := AwaitingHandoff, drone := None)) else Fail(InvalidTransition)
        else if tx.pc == 4 then FindLive(o)
        else if tx.pc == 5 then CancelLoop(tx, o, AddJob(j, NewJobRow(o, now)))
        else Commit
  }

  // ---------------------------------------------------------------- executing one statement

  /** What the transaction sees: the committed tables under its own writes. */
  function Overlay(c: State, buf: State): State {
    State(c.orders + buf.orders, c.drones + buf.drones, c.jobs + buf.jobs)
  }

  /** The row lock a statement needs. */
  function Needs(tx: Tx, stmt: Stmt, choice: Uuid): Option<Key> {
    match stmt
    case LockOrder(o) => Some(OrderKey(o))
    case LockDrone(d) => Some(DroneKey(d))
    case LockJob(j) => Some(JobKey(j))
    case LockPicked(_) => Some(JobKey(tx.pick))
    case PutOrder(o, _) => Some(OrderKey(o))
    case PutDrone(d, _) => Some(DroneKey(d))
    case PutJob(j, _) => Some(JobKey(j))
    case AddOrder(o, _) => Some(OrderKey(o))
    case AddJob(j, _) => Some(JobKey(j))
    case UpsertDrone(d, _) => Some(DroneKey(d))
    case CancelOrder(o, _) => Some(OrderKey(o))
    case CancelNext(_) => Some(JobKey(choice))
    case _ => None
  }

  /** A statement moves the transaction on, ends it with an error, or cannot run with this choice. */
  datatype Result = Next(tx: Tx) | Abort(err: Error) | Disabled

  function BufOrder(tx: Tx, o: Uuid, row: OrderRow): Tx {
    tx.(pc := tx.pc + 1, buf := tx.buf.(orders := tx.buf.orders[o := row]))
  }

  function BufDrone(tx: Tx, d: DroneId, row: DroneRow): Tx {
    tx.(pc := tx.pc + 1, buf := tx.buf.(drones := tx.buf.drones[d := row]))
  }

  function BufJob(tx: Tx, j: Uuid, row: JobRow): Tx {
    tx.(pc := tx.pc + 1, buf := tx.buf.(jobs := tx.buf.jobs[j := row]))
  }

  /** Execute a statement whose lock, if it needs one, has been granted. */
  ghost function Execute(c: State, tx: Tx, stmt: Stmt, choice: Uuid): Result {
    var v := Overlay(c, tx.buf);
    match stmt
    case LockOrder(o) =>
      if o in v.orders then Next(tx.(pc := tx.pc + 1, order := Some(v.orders[o]))) else Abort(NotFound)
    case LockDrone(d) =>
      if d in v.drones then Next(tx.(pc := tx.pc + 1, drone := Some(v.drones[d]))) else Abort(NotFound)
    case LockJob(j) => if j in v.jobs then Next(tx.(pc := tx.pc + 1, job := Some(v.jobs[j]))) else Abort(NotFound)
    case PickJob(o) =>
      if forall j :: !ActiveFor(v, o, j) then Abort(Internal)
      else if Latest(v, o, choice) then Next(tx.(pc := tx.pc + 1, pick := choice))
      else Disabled
    case LockPicked(o) =>
      if ActiveFor(v, o, tx.pick) then Next(tx.(pc := tx.pc + 1, job := Some(v.jobs[tx.pick]))) else Abort(Internal)
    case PeekDrone(d) => Next(tx.(pc := if d in v.drones then tx.pc + 2 else tx.pc + 1))
    case PutOrder(o, row) => Next(BufOrder(tx, o, row))
    case PutDrone(d, row) =>
      if row.order.Some? && row.order.value !in v.orders then Abort(Internal) else Next(BufDrone(tx, d, row))
    case PutJob(j, row) =>
      if row.reserver.Some? && row.reserver.value !in v.drones then Abort(Internal) else Next(BufJob(tx, j, row))
    case AddOrder(o, row) => if o in v.orders then Abort(Internal) else Next(BufOrder(tx, o, row))
    case AddJob(j, row) => if j in v.jobs || row.order !in v.orders then Abort(Internal) else Next(BufJob(tx, j, row))
    case UpsertDrone(d, row) => Next(BufDrone(tx, d, row))
    case CancelOrder(o, submitter) =>
      if o !in v.orders || v.orders[o].status.Cancelled? then Abort(Internal)
      else Next(BufOrder(tx, o, v.orders[o].(status := Cancelled, submittedBy := submitter)))
    case FindLive(o) => Next(tx.(pc := tx.pc + 1, todo := LiveJobs(v, o)))
    case CancelNext(o) =>
      if choice !in tx.todo then Disabled
      else if LiveFor(v, o, choice) then
        Next(tx.(todo := tx.todo - {choice}, buf := tx.buf.(jobs := tx.buf.jobs[choice := CancelRow(v.jobs[choice])])))
      else Next(tx.(todo := tx.todo - {choice}))
    case Commit => Disabled
    case Fail(err) => Abort(err)
  }

  // ---------------------------------------------------------------- the system

  predicate SingleRow(op: Op) {
    op.Heartbeat? || op.Enroll? || op.Fix? || op.AdminUpdate?
  }

  function RowOf(op: Op): Key
    requires SingleRow(op)
  {
    if op.AdminUpdate? then OrderKey(op.order) else DroneKey(op.drone)
  }

  /** A single-row request that has read its row, without a lock, and has not written it yet. */
  datatype Read = Read(op: Op, order: Option<OrderRow>, drone: Option<DroneRow>)

  /** The unlocked SELECT, and the checks that follow it. A heartbeat takes a SELECT that is not
      answered for a missing drone. */
  function Look(c: State, op: Op, answered: bool): Option<Read> {
    match op
    case Heartbeat(d, spot, _) =>
      if SpotVerdict(spot).Some? then None
      else Some(Read(op, None, if answered && d in c.drones then Some(c.drones[d]) else None))
    case Fix(d) =>
      if !answered || FixVerdict(c, d).Some? then None else Some(Read(op, None, Some(c.drones[d])))
    case AdminUpdate(o, origin, destination) =>
      if !answered || AdminVerdict(c, o, origin, destination).Some? then None
      else Some(Read(op, Some(c.orders[o]), None))
    case _ => None
  }

  /** The write: an UPDATE of the whole row, or for a missing drone first an upsert. */
  function Written(c: State, r: Read): State {
    match r.op
    case Heartbeat(d, spot, now) =>
      if r.drone.None? then Reset(c, d)
      else if d in c.drones then WriteBack(c, d, r.drone.value, spot.at, now) else c
    case Fix(d) => if r.drone.Some? && d in c.drones then WriteBackFixed(c, d, r.drone.value) else c
    case AdminUpdate(o, origin, destination) =>
      if r.order.Some? && o in c.orders then WriteBackOrder(c, o, r.order.value, origin, destination) else c
    case _ => c
  }

  /** Whether that write was the upsert, after which the heartbeat still has to write the location. */
  predicate Enrolls(r: Read) {
    r.op.Heartbeat? && r.drone.None?
  }

  /** The request which that write completes, as logged. */
  function Done(r: Read): Op {
    if Enrolls(r) then Enroll(r.op.drone) else r.op
  }

  /** Committed tables, running transactions, single-row requests between read and write, and the
      log of committed requests. */
  datatype System = System(c: State, txs: map<nat, Tx>, pending: map<nat, Read>, log: seq<Op>)

  const BOOT := System(EMPTY, map[], map[], [])

  /** Start a transaction, let one execute a statement, abort one; let a single-row request read
      its row, or write it, which waits for the row's lock. */
  datatype Move =
    | Start(t: nat, op: Op)
    | Step(t: nat, choice: Uuid)
    | Kill(t: nat)
    | Fetch(t: nat, op: Op, answered: bool)
    | Store(t: nat)

  predicate Unlocked(txs: map<nat, Tx>, k: Key) {
    forall u :: u in txs ==> k !in txs[u].locks
  }

  /** The request as logged: a completion records the job it found. */
  function Logged(tx: Tx): Op {
    if tx.op.Complete? then tx.op.(pick := Some(tx.pick)) else tx.op
  }

  ghost function StepTx(s: System, t: nat, choice: Uuid): System
    requires t in s.txs
  {
    var tx := s.txs[t];
    var stmt := Program(tx);
    var need := Needs(tx, stmt, choice);
    if stmt.Commit? then
      s.(c := Overlay(s.c, tx.buf), txs := s.txs - {t}, log := s.log + [Logged(tx)])
    else if need.Some? && !Unlocked(s.txs - {t}, need.value) then s
    else
      match Execute(s.c, tx, stmt, choice)
      case Disabled => s
      case Abort(_) => s.(txs := s.txs - {t})
      case Next(moved) =>
        s.(txs := s.txs[t := moved.(locks := tx.locks + if need.Some? then {need.value} else {})])
  }

  ghost function SystemNext(s: System, move: Move): System {
    match move
    case Start(t, op) => if t in s.txs || SingleRow(op) then s else s.(txs := s.txs[t := Begin(op)])
    case Step(t, choice) => if t in s.txs then StepTx(s, t, choice) else s
    case Kill(t) => s.(txs := s.txs - {t}, pending := s.pending - {t})
    case Fetch(t, op, answered) =>
      if t in s.pending || Look(s.c, op, answered).None? then s
      else s.(pending := s.pending[t := Look(s.c, op, answered).value])
    case Store(t) => if Stores(s, t) then StoreRead(s, t) else s
  }

  predicate Stores(s: System, t: nat) {
    t in s.pending && SingleRow(s.pending[t].op) && Unlocked(s.txs, RowOf(s.pending[t].op))
  }

  function StoreRead(s: System, t: nat): System
    requires t in s.pending
  {
    var r := s.pending[t];
    System(Written(s.c, r), s.txs,
           if Enrolls(r) then s.pending[t := r.(drone := Some(NEW_DRONE))] else s.pending - {t},
           s.log + [Done(r)])
  }

  ghost function SystemAt(moves: seq<Move>, n: nat): System
    requires n <= |moves|
  {
    if n == 0 then BOOT else SystemNext(SystemAt(moves, n - 1), moves[n - 1])
  }
}
