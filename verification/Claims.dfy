/** For each running transaction, the claim that its reads and buffered writes are what the atomic
    operation would read and write on the tables committed at this very moment.

    Its own statements keep the claim, and with it a commit is the atomic operation and an error
    is the atomic operation's error. Others cannot falsify it: they change only rows that are not
    locked against them, and the jobs of an order only under that order's lock. */
module Claims {
  import opened Domain
  import opened Protocol
  import opened Transactions

  // ---------------------------------------------------------------- one claim per operation

  ghost predicate HasOrder(c: State, tx: Tx, o: Uuid) {
    OrderKey(o) in tx.locks && o in c.orders && tx.order == Some(c.orders[o])
  }

  ghost predicate HasDrone(c: State, tx: Tx, d: DroneId) {
    DroneKey(d) in tx.locks && d in c.drones && tx.drone == Some(c.drones[d])
  }

  ghost predicate CreateClaim(c: State, tx: Tx)
    requires tx.op.Create?
  {
    var o, j := tx.op.order, tx.op.job;
    && tx.pc <= 2 && tx.buf.drones == map[]
    && (tx.pc == 0 ==> tx.buf == EMPTY)
    && (tx.pc >= 1 ==> OrderKey(o) in tx.locks && o !in c.orders
                       && tx.buf.orders == map[o := NewOrderRow(tx.op.submitter, tx.op.origin, tx.op.destination)])
    && (tx.pc == 1 ==> tx.buf.jobs == map[])
    && (tx.pc == 2 ==> JobKey(j) in tx.locks && j !in c.jobs && tx.buf.jobs == map[j := NewJobRow(o, tx.op.now)])
  }

  /** Part of the multi-row UPDATE is done, `todo` is the rest. */
  ghost predicate Cancelling(c: State, tx: Tx, o: Uuid) {
    && tx.todo + tx.buf.jobs.Keys == LiveJobs(c, o)
    && forall k :: k in tx.buf.jobs ==> k in c.jobs && JobKey(k) in tx.locks && tx.buf.jobs[k] == CancelRow(c.jobs[k])
  }

  ghost predicate CancelClaim(c: State, tx: Tx)
    requires tx.op.Cancel?
  {
    var o := tx.op.order;
    && tx.pc <= 2 && tx.buf.drones == map[]
    && (tx.pc == 0 ==> tx.buf == EMPTY)
    && (tx.pc >= 1 ==> OrderKey(o) in tx.locks && o in c.orders && !c.orders[o].status.Cancelled?
                       && tx.buf.orders == map[o := c.orders[o].(status := Cancelled, submittedBy := tx.op.submitter)])
    && (tx.pc == 1 ==> tx.buf.jobs == map[])
    && (tx.pc == 2 ==> Cancelling(c, tx, o))
  }

  ghost predicate WithdrawClaim(c: State, tx: Tx)
    requires tx.op.Withdraw?
  {
    var o := tx.op.order;
    && tx.pc <= 3 && tx.buf.drones == map[]
    && (tx.pc <= 1 ==> tx.buf == EMPTY)
    && (tx.pc >= 1 ==> HasOrder(c, tx, o))
    && (tx.pc >= 2 ==> c.orders[o].status.Pending? && tx.buf.orders == map[o := c.orders[o].(status := Withdrawn)])
    && (tx.pc == 2 ==> tx.buf.jobs == map[])
    && (tx.pc == 3 ==> Cancelling(c, tx, o))
  }

  ghost predicate ReserveClaim(c: State, tx: Tx)
    requires tx.op.Reserve?
  {
    var j, d := tx.op.job, tx.op.drone;
    && tx.pc <= 8 && tx.pc != 5
    && (tx.pc <= 1 ==> tx.buf == EMPTY)
    && (tx.pc >= 1 ==> JobKey(j) in tx.locks && j in c.jobs && tx.job == Some(c.jobs[j]))
    && (tx.pc >= 2 ==> c.jobs[j].status.Open? && d in c.drones
                       && tx.buf.jobs == map[j := c.jobs[j].(status := Reserved, reserver := Some(d))])
    && (tx.pc <= 3 ==> tx.buf.orders == map[])
    && (tx.pc >= 3 ==> HasOrder(c, tx, c.jobs[j].order))
    && (tx.pc >= 4 ==> var o := c.jobs[j].order;
                       && Assignable(c.orders[o].status)
                       && tx.buf.orders == map[o := c.orders[o].(status := Assigned, drone := Some(d))])
    && (tx.pc <= 7 ==> tx.buf.drones == map[])
    && (tx.pc >= 7 ==> HasDrone(c, tx, d))
    && (tx.pc >= 8 ==> c.drones[d].status.Idle?
                       && tx.buf.drones
                          == map[d := c.drones[d].(status := EnRoutePickup, order := Some(c.jobs[j].order))])
  }

  ghost predicate GrabClaim(c: State, tx: Tx)
    requires tx.op.Grab?
  {
    var o, d := tx.op.order, tx.op.drone;
    && tx.pc <= 4 && tx.buf.jobs == map[]
    && (tx.pc <= 1 ==> tx.buf == EMPTY)
    && (tx.pc >= 1 ==> HasOrder(c, tx, o))
    && (tx.pc >= 2 ==> c.orders[o].drone == Some(d) && c.orders[o].status.Assigned?
                       && tx.buf.orders == map[o := c.orders[o].(status := PickedUp)])
    && (tx.pc <= 3 ==> tx.buf.drones == map[])
    && (tx.pc >= 3 ==> HasDrone(c, tx, d))
    && (tx.pc >= 4 ==> c.drones[d].status.EnRoutePickup?
                       && tx.buf.drones == map[d := c.drones[d].(status := EnRouteDelivery)])
  }

  ghost predicate CompleteClaim(c: State, tx: Tx)
    requires tx.op.Complete?
  {
    var o, d := tx.op.order, tx.op.drone;
    && tx.pc <= 7
    && (tx.pc <= 1 ==> tx.buf == EMPTY)
    && (tx.pc >= 1 ==> HasOrder(c, tx, o))
    && (tx.pc >= 2 ==> c.orders[o].drone == Some(d) && c.orders[o].status.PickedUp?
                       && tx.buf.orders
                          == map[o := c.orders[o].(
                               status := if tx.op.delivered then Delivered else Failed, drone := None)])
    && (tx.pc <= 3 ==> tx.buf.drones == map[])
    && (tx.pc >= 3 ==> HasDrone(c, tx, d))
    && (tx.pc >= 4 ==> tx.buf.drones == map[d := c.drones[d].(status := Idle, order := None)])
    && (tx.pc >= 5 ==> Latest(c, o, tx.pick))
    && (tx.pc <= 6 ==> tx.buf.jobs == map[])
    && (tx.pc >= 6 ==> JobKey(tx.pick) in tx.locks && tx.job == Some(c.jobs[tx.pick]))
    && (tx.pc == 7 ==> c.jobs[tx.pick].status.Reserved?
                       && tx.buf.jobs == map[tx.pick := c.jobs[tx.pick].(status := Completed)])
  }

  ghost predicate BreakClaim(c: State, tx: Tx)
    requires tx.op.Break?
  {
    var d := tx.op.drone;
    && tx.pc <= 6
    && (tx.pc <= 1 ==> tx.buf == EMPTY)
    && (tx.pc >= 1 ==> HasDrone(c, tx, d))
    && (tx.pc >= 2 ==> !c.drones[d].status.Broken?
                       && tx.buf.drones == map[d := c.drones[d].(status := Broken, order := None)])
    && (tx.pc <= 3 ==> tx.buf.orders == map[])
    && (tx.pc <= 4 ==> tx.buf.jobs == map[])
    && (tx.pc >= 3 ==> c.drones[d].order.Some? && HandOffClaim(c, tx, c.drones[d].order.value))
  }

  ghost predicate HandOffClaim(c: State, tx: Tx, o: Uuid)
    requires tx.op.Break?
  {
    && HasOrder(c, tx, o)
    && (tx.pc >= 4 ==> (c.orders[o].status.Assigned? || c.orders[o].status.PickedUp?)
                       && tx.buf.orders == map[o := c.orders[o].(status := AwaitingHandoff, drone := None)])
    && (tx.pc == 5 ==> Cancelling(c, tx, o))
    && (tx.pc == 6 ==> var j := tx.op.job;
          && JobKey(j) in tx.locks && j !in c.jobs && LiveJobs(c, o) != {}
          && j in tx.buf.jobs && tx.buf.jobs[j] == NewJobRow(o, tx.op.now)
          && tx.todo == {} && Cancelling(c, tx.(buf := tx.buf.(jobs := tx.buf.jobs - {j})), o))
  }

  ghost predicate Claim(c: State, tx: Tx) {
    match tx.op
    case Create(_, _, _, _, _, _) => CreateClaim(c, tx)
    case Cancel(_, _) => CancelClaim(c, tx)
    case Withdraw(_) => WithdrawClaim(c, tx)
    case Reserve(_, _) => ReserveClaim(c, tx)
    case Grab(_, _) => GrabClaim(c, tx)
    case Complete(_, _, _, _) => CompleteClaim(c, tx)
    case Break(_, _, _) => BreakClaim(c, tx)
    case _ => tx.pc == 0 && tx.buf == EMPTY
  }

  // ---------------------------------------------------------------- own steps

  /** The transaction after a statement whose lock was granted. */
  ghost function Granted(c: State, tx: Tx, stmt: Stmt, choice: Uuid): Tx
    requires Execute(c, tx, stmt, choice).Next?
  {
    var need := Needs(tx, stmt, choice);
    Execute(c, tx, stmt, choice).tx.(locks := tx.locks + if need.Some? then {need.value} else {})
  }

  /** A transaction's own statement, its lock granted, keeps its claim. */
  lemma OwnStep(c: State, tx: Tx, stmt: Stmt, choice: Uuid)
    requires Claim(c, tx) && stmt == Program(tx) && Execute(c, tx, stmt, choice).Next?
    ensures Claim(c, Granted(c, tx, stmt, choice))
  {
    match tx.op
    case Create(_, _, _, _, _, _) => CreateOwn(c, tx, stmt, choice);
    case Cancel(_, _) => CancelOwn(c, tx, stmt, choice);
    case Withdraw(_) => WithdrawOwn(c, tx, stmt, choice);
    case Reserve(_, _) => ReserveOwn(c, tx, stmt, choice);
    case Grab(_, _) => GrabOwn(c, tx, stmt, choice);
    case Complete(_, _, _, _) => CompleteOwn(c, tx, stmt, choice);
    case Break(_, _, _) => BreakOwn(c, tx, stmt, choice);
    case _ =>
  }

  lemma SameLive(s: State, t: State, o: Uuid)
    requires s.jobs == t.jobs
    ensures LiveJobs(s, o) == LiveJobs(t, o)
  {
  }

  /** One row of the multi-row UPDATE. */
  lemma CancellingStep(c: State, tx: Tx, o: Uuid, choice: Uuid)
    requires Cancelling(c, tx, o) && Program(tx) == CancelNext(o) && choice in tx.todo
    ensures Execute(c, tx, CancelNext(o), choice).Next?
    ensures Cancelling(c, Granted(c, tx, CancelNext(o), choice), o)
  {
  }

  lemma CreateOwn(c: State, tx: Tx, stmt: Stmt, choice: Uuid)
    requires tx.op.Create? && CreateClaim(c, tx)
    requires stmt == Program(tx) && Execute(c, tx, stmt, choice).Next?
    ensures Claim(c, Granted(c, tx, stmt, choice))
  {
  }

  lemma CancelOwn(c: State, tx: Tx, stmt: Stmt, choice: Uuid)
    requires tx.op.Cancel? && CancelClaim(c, tx)
    requires stmt == Program(tx) && Execute(c, tx, stmt, choice).Next?
    ensures Claim(c, Granted(c, tx, stmt, choice))
  {
    var o := tx.op.order;
    if tx.pc == 1 {
      assert Overlay(c, tx.buf).jobs == c.jobs;
      SameLive(Overlay(c, tx.buf), c, o);
    } else if tx.pc == 2 {
      CancelLoopOwn(c, tx, o, choice);
    }
  }

  lemma WithdrawOwn(c: State, tx: Tx, stmt: Stmt, choice: Uuid)
    requires tx.op.Withdraw? && WithdrawClaim(c, tx)
    requires stmt == Program(tx) && Execute(c, tx, stmt, choice).Next?
    ensures Claim(c, Granted(c, tx, stmt, choice))
  {
    var o := tx.op.order;
    if tx.pc == 2 {
      assert Overlay(c, tx.buf).jobs == c.jobs;
      SameLive(Overlay(c, tx.buf), c, o);
    } else if tx.pc == 3 {
      CancelLoopOwn(c, tx, o, choice);
    }
  }

  /** The multi-row UPDATE of a transaction that calls an order off. */
  lemma CancelLoopOwn(c: State, tx: Tx, o: Uuid, choice: Uuid)
    requires Claim(c, tx) && Cancelling(c, tx, o) && tx.todo != {} && choice in tx.todo
    requires (tx.op.Cancel? && tx.op.order == o && tx.pc == 2) || (tx.op == Withdraw(o) && tx.pc == 3)
    ensures Execute(c, tx, CancelNext(o), choice).Next?
    ensures Claim(c, Granted(c, tx, CancelNext(o), choice))
  {
    CancellingStep(c, tx, o, choice);
  }

  lemma ReserveOwn(c: State, tx: Tx, stmt: Stmt, choice: Uuid)
    requires tx.op.Reserve? && ReserveClaim(c, tx)
    requires stmt == ReserveProgram(tx, tx.op.job, tx.op.drone) && Execute(c, tx, stmt, choice).Next?
    ensures Claim(c, Granted(c, tx, stmt, choice))
  {
    if tx.pc >= 3 { ReserveLaterOwn(c, tx, stmt, choice); }
  }

  lemma ReserveLaterOwn(c: State, tx: Tx, stmt: Stmt, choice: Uuid)
    requires tx.op.Reserve? && ReserveClaim(c, tx) && tx.pc >= 3
    requires stmt == ReserveProgram(tx, tx.op.job, tx.op.drone) && Execute(c, tx, stmt, choice).Next?
    ensures Claim(c, Granted(c, tx, stmt, choice))
  {
  }

  lemma GrabOwn(c: State, tx: Tx, stmt: Stmt, choice: Uuid)
    requires tx.op.Grab? && GrabClaim(c, tx)
    requires stmt == GrabProgram(tx, tx.op.order, tx.op.drone) && Execute(c, tx, stmt, choice).Next?
    ensures Claim(c, Granted(c, tx, stmt, choice))
  {
  }

  lemma CompleteOwn(c: State, tx: Tx, stmt: Stmt, choice: Uuid)
    requires tx.op.Complete? && CompleteClaim(c, tx)
    requires stmt == CompleteProgram(tx, tx.op.order, tx.op.drone, tx.op.delivered)
    requires Execute(c, tx, stmt, choice).Next?
    ensures Claim(c, Granted(c, tx, stmt, choice))
  {
    if tx.pc >= 4 { CompleteJobOwn(c, tx, stmt, choice); }
  }

  lemma CompleteJobOwn(c: State, tx: Tx, stmt: Stmt, choice: Uuid)
    requires tx.op.Complete? && CompleteClaim(c, tx) && tx.pc >= 4
    requires stmt == CompleteProgram(tx, tx.op.order, tx.op.drone, tx.op.delivered)
    requires Execute(c, tx, stmt, choice).Next?
    ensures Claim(c, Granted(c, tx, stmt, choice))
  {
    assert tx.pc <= 6 ==> Overlay(c, tx.buf).jobs == c.jobs;
  }

  lemma BreakOwn(c: State, tx: Tx, stmt: Stmt, choice: Uuid)
    requires tx.op.Break? && BreakClaim(c, tx)
    requires stmt == BreakProgram(tx, tx.op.drone, tx.op.job, tx.op.now) && Execute(c, tx, stmt, choice).Next?
    ensures Claim(c, Granted(c, tx, stmt, choice))
  {
    if tx.pc >= 4 {
      HandOffOwn(c, tx, c.drones[tx.op.drone].order.value, stmt, choice);
    } else {
      BreakEarlyOwn(c, tx, stmt, choice);
    }
  }

  lemma BreakEarlyOwn(c: State, tx: Tx, stmt: Stmt, choice: Uuid)
    requires tx.op.Break? && BreakClaim(c, tx) && tx.pc < 4
    requires stmt == BreakProgram(tx, tx.op.drone, tx.op.job, tx.op.now) && Execute(c, tx, stmt, choice).Next?
    ensures Claim(c, Granted(c, tx, stmt, choice))
  {
  }

  /** The handoff part of a broken report: the multi-row UPDATE, then the new job. */
  lemma HandOffOwn(c: State, tx: Tx, o: Uuid, stmt: Stmt, choice: Uuid)
    requires tx.op.Break? && BreakClaim(c, tx) && tx.pc >= 4 && c.drones[tx.op.drone].order == Some(o)
    requires stmt == BreakProgram(tx, tx.op.drone, tx.op.job, tx.op.now) && Execute(c, tx, stmt, choice).Next?
    ensures var g := Granted(c, tx, stmt, choice);
            && g.op == tx.op && 5 <= g.pc <= 6 && HandOffClaim(c, g, o)
            && HasDrone(c, g, tx.op.drone) && g.buf.drones == tx.buf.drones
  {
    if tx.pc == 4 {
      assert Overlay(c, tx.buf).jobs == c.jobs;
      SameLive(Overlay(c, tx.buf), c, o);
    } else if tx.todo != {} {
      CancellingStep(c, tx, o, choice);
    } else {
      HandOffJobOwn(c, tx, o, choice);
    }
  }

  lemma HandOffJobOwn(c: State, tx: Tx, o: Uuid, choice: Uuid)
    requires tx.op.Break? && HandOffClaim(c, tx, o) && tx.pc == 5 && tx.todo == {} && tx.buf.jobs != map[]
    requires Execute(c, tx, AddJob(tx.op.job, NewJobRow(o, tx.op.now)), choice).Next?
    ensures HandOffClaim(c, Granted(c, tx, AddJob(tx.op.job, NewJobRow(o, tx.op.now)), choice), o)
  {
  }

  // ---------------------------------------------------------------- commits

  /** Key lemma: a commit of a transaction whose claim holds is the atomic operation, applied
      to the tables committed at this moment. */
  lemma CommitIsAtomic(c: State, tx: Tx)
    requires Claim(c, tx) && Program(tx).Commit?
    ensures Verdict(c, Logged(tx)).None?
    ensures Overlay(c, tx.buf) == Effect(c, Logged(tx))
  {
    match tx.op
    case Create(_, _, _, _, _, _) => CreateCommit(c, tx);
    case Cancel(o, _) => CancelCommit(c, tx);
    case Withdraw(o) => WithdrawCommit(c, tx);
    case Reserve(_, _) => ReserveCommit(c, tx);
    case Grab(_, _) => GrabCommit(c, tx);
    case Complete(_, _, _, _) => CompleteCommit(c, tx);
    case Break(_, _, _) => BreakCommit(c, tx);
    case _ =>
  }

  lemma CreateCommit(c: State, tx: Tx)
    requires tx.op.Create? && CreateClaim(c, tx) && tx.pc == 2
    ensures CreateVerdict(c, tx.op.order, tx.op.job).None?
    ensures Overlay(c, tx.buf) ==
            CreateEffect(c, tx.op.order, NewOrderRow(tx.op.submitter, tx.op.origin, tx.op.destination),
                         tx.op.job, tx.op.now)
  {
  }

  lemma CancelCommit(c: State, tx: Tx)
    requires tx.op.Cancel? && CancelClaim(c, tx) && tx.pc == 2 && tx.todo == {} && tx.buf.jobs != map[]
    ensures CancelVerdict(c, tx.op.order).None?
    ensures Overlay(c, tx.buf) == CancelEffect(c, tx.op.order, tx.op.submitter)
  {
  }

  lemma WithdrawCommit(c: State, tx: Tx)
    requires tx.op.Withdraw? && WithdrawClaim(c, tx) && tx.pc == 3 && tx.todo == {} && tx.buf.jobs != map[]
    ensures WithdrawVerdict(c, tx.op.order).None?
    ensures Overlay(c, tx.buf) == WithdrawEffect(c, tx.op.order)
  {
  }

  lemma ReserveCommit(c: State, tx: Tx)
    requires tx.op.Reserve? && ReserveClaim(c, tx) && tx.pc == 8
    ensures ReserveVerdict(c, tx.op.job, tx.op.drone).None?
    ensures Overlay(c, tx.buf) == ReserveEffect(c, tx.op.job, tx.op.drone)
  {
  }

  lemma GrabCommit(c: State, tx: Tx)
    requires tx.op.Grab? && GrabClaim(c, tx) && tx.pc == 4
    ensures GrabVerdict(c, tx.op.order, tx.op.drone).None?
    ensures Overlay(c, tx.buf) == GrabEffect(c, tx.op.order, tx.op.drone)
  {
  }

  lemma CompleteCommit(c: State, tx: Tx)
    requires tx.op.Complete? && CompleteClaim(c, tx) && tx.pc == 7
    ensures CompleteVerdict(c, tx.op.order, tx.op.drone, Some(tx.pick)).None?
    ensures Overlay(c, tx.buf) == CompleteEffect(c, tx.op.order, tx.op.drone, tx.op.delivered, Some(tx.pick))
  {
  }

  /** The finished multi-row UPDATE, published, is the UPDATE in one go. */
  lemma CancelledAll(c: State, tx: Tx, o: Uuid)
    requires Cancelling(c, tx, o) && tx.todo == {} && tx.buf.jobs != map[]
    ensures LiveJobs(c, o) != {} && c.jobs + tx.buf.jobs == CancelLive(c.jobs, o)
  {
  }

  lemma BreakCommit(c: State, tx: Tx)
    requires tx.op.Break? && BreakClaim(c, tx) && BreakProgram(tx, tx.op.drone, tx.op.job, tx.op.now).Commit?
    ensures BreakVerdict(c, tx.op.drone, tx.op.job).None?
    ensures Overlay(c, tx.buf) == BreakEffect(c, tx.op.drone, tx.op.job, tx.op.now)
  {
    if c.drones[tx.op.drone].order.Some? {
      HandOffCommit(c, tx, c.drones[tx.op.drone].order.value);
    } else {
      assert c.orders + map[] == c.orders && c.jobs + map[] == c.jobs;
    }
  }

  lemma HandOffCommit(c: State, tx: Tx, o: Uuid)
    requires tx.op.Break? && tx.pc == 6 && HandOffClaim(c, tx, o)
    ensures HandOffVerdict(c, o, tx.op.job).None?
    ensures c.orders + tx.buf.orders == HandOffEffect(c, o, tx.op.job, tx.op.now).orders
    ensures c.jobs + tx.buf.jobs == HandOffEffect(c, o, tx.op.job, tx.op.now).jobs
  {
    var j := tx.op.job;
    var rest := tx.(buf := tx.buf.(jobs := tx.buf.jobs - {j}));
    var k :| k in LiveJobs(c, o);
    assert k in rest.buf.jobs;
    CancelledAll(c, rest, o);
    assert c.jobs + tx.buf.jobs == (c.jobs + rest.buf.jobs)[j := NewJobRow(o, tx.op.now)];
  }

  // ---------------------------------------------------------------- failures

  /** The request of a running transaction; the job a completion will find is open until it has
      looked for it. */
  ghost predicate SameRequest(tx: Tx, op: Op) {
    if tx.op.Complete?
    then op.Complete? && tx.op == op.(pick := tx.op.pick) && (tx.pc >= 5 ==> op.pick == Some(tx.pick))
    else op == tx.op
  }

  /** A transaction that ends itself with an error does so because the atomic operation fails
      with that error on the tables committed at this moment. */
  lemma FailureIsAtomic(c: State, tx: Tx, choice: Uuid, op: Op)
    requires ForeignKeys(c) && Claim(c, tx) && SameRequest(tx, op) && !SingleRow(op)
    requires Execute(c, tx, Program(tx), choice).Abort?
    ensures Verdict(c, op) == Some(Execute(c, tx, Program(tx), choice).err)
  {
    match tx.op
    case Create(_, _, _, _, _, _) => CreateFails(c, tx, choice);
    case Cancel(_, _) => CancelFails(c, tx, choice);
    case Withdraw(_) => WithdrawFails(c, tx, choice);
    case Reserve(j, d) => ReserveFails(c, tx, ReserveProgram(tx, j, d), choice);
    case Grab(o, d) => GrabFails(c, tx, GrabProgram(tx, o, d), choice);
    case Complete(o, d, delivered, _) => CompleteFails(c, tx, CompleteProgram(tx, o, d, delivered), choice, op.pick);
    case Break(d, j, now) => BreakFails(c, tx, BreakProgram(tx, d, j, now), choice);
    case _ =>
  }

  lemma CreateFails(c: State, tx: Tx, choice: Uuid)
    requires tx.op.Create? && CreateClaim(c, tx) && Execute(c, tx, Program(tx), choice).Abort?
    ensures CreateVerdict(c, tx.op.order, tx.op.job) == Some(Execute(c, tx, Program(tx), choice).err)
  {
  }

  lemma CancelFails(c: State, tx: Tx, choice: Uuid)
    requires tx.op.Cancel? && CancelClaim(c, tx) && Execute(c, tx, Program(tx), choice).Abort?
    ensures CancelVerdict(c, tx.op.order) == Some(Execute(c, tx, Program(tx), choice).err)
  {
  }

  lemma WithdrawFails(c: State, tx: Tx, choice: Uuid)
    requires tx.op.Withdraw? && WithdrawClaim(c, tx) && Execute(c, tx, Program(tx), choice).Abort?
    ensures WithdrawVerdict(c, tx.op.order) == Some(Execute(c, tx, Program(tx), choice).err)
  {
  }

  lemma ReserveFails(c: State, tx: Tx, stmt: Stmt, choice: Uuid)
    requires tx.op.Reserve? && ReserveClaim(c, tx) && ForeignKeys(c)
    requires stmt == ReserveProgram(tx, tx.op.job, tx.op.drone) && Execute(c, tx, stmt, choice).Abort?
    ensures ReserveVerdict(c, tx.op.job, tx.op.drone) == Some(Execute(c, tx, stmt, choice).err)
  {
    if tx.pc >= 4 { ReserveDroneFails(c, tx, stmt, choice); }
  }

  lemma ReserveDroneFails(c: State, tx: Tx, stmt: Stmt, choice: Uuid)
    requires tx.op.Reserve? && ReserveClaim(c, tx) && tx.pc >= 4
    requires stmt == ReserveProgram(tx, tx.op.job, tx.op.drone) && Execute(c, tx, stmt, choice).Abort?
    ensures ReserveVerdict(c, tx.op.job, tx.op.drone) == Some(Execute(c, tx, stmt, choice).err)
  {
  }

  lemma GrabFails(c: State, tx: Tx, stmt: Stmt, choice: Uuid)
    requires tx.op.Grab? && GrabClaim(c, tx) && ForeignKeys(c)
    requires stmt == GrabProgram(tx, tx.op.order, tx.op.drone) && Execute(c, tx, stmt, choice).Abort?
    ensures GrabVerdict(c, tx.op.order, tx.op.drone) == Some(Execute(c, tx, stmt, choice).err)
  {
  }

  lemma CompleteFails(c: State, tx: Tx, stmt: Stmt, choice: Uuid, pick: Option<Uuid>)
    requires tx.op.Complete? && CompleteClaim(c, tx) && ForeignKeys(c) && (tx.pc >= 5 ==> pick == Some(tx.pick))
    requires stmt == CompleteProgram(tx, tx.op.order, tx.op.drone, tx.op.delivered)
    requires Execute(c, tx, stmt, choice).Abort?
    ensures CompleteVerdict(c, tx.op.order, tx.op.drone, pick) == Some(Execute(c, tx, stmt, choice).err)
  {
    if tx.pc == 4 || tx.pc == 5 { CompletePickFails(c, tx, stmt, choice, pick); }
  }

  lemma CompletePickFails(c: State, tx: Tx, stmt: Stmt, choice: Uuid, pick: Option<Uuid>)
    requires tx.op.Complete? && CompleteClaim(c, tx) && 4 <= tx.pc <= 5 && (tx.pc == 5 ==> pick == Some(tx.pick))
    requires stmt == if tx.pc == 4 then PickJob(tx.op.order) else LockPicked(tx.op.order)
    requires Execute(c, tx, stmt, choice).Abort?
    ensures CompleteVerdict(c, tx.op.order, tx.op.drone, pick) == Some(Execute(c, tx, stmt, choice).err)
  {
    assert Overlay(c, tx.buf).jobs == c.jobs;
    assert forall j :: ActiveFor(Overlay(c, tx.buf), tx.op.order, j) <==> ActiveFor(c, tx.op.order, j);
  }

  lemma BreakFails(c: State, tx: Tx, stmt: Stmt, choice: Uuid)
    requires tx.op.Break? && BreakClaim(c, tx) && ForeignKeys(c)
    requires stmt == BreakProgram(tx, tx.op.drone, tx.op.job, tx.op.now) && Execute(c, tx, stmt, choice).Abort?
    ensures BreakVerdict(c, tx.op.drone, tx.op.job) == Some(Execute(c, tx, stmt, choice).err)
  {
  }

  /** Nothing but a lock ever keeps a transaction from moving on. */
  lemma NeverStuck(c: State, tx: Tx) returns (choice: Uuid)
    requires !Program(tx).Commit?
    ensures !Execute(c, tx, Program(tx), choice).Disabled?
  {
    choice := 0;
    match Program(tx)
    case PickJob(o) =>
      var pick := SomePick(Overlay(c, tx.buf), o);
      if pick.Some? { choice := pick.value; }
    case CancelNext(_) =>
      choice :| choice in tx.todo;
    case _ =>
  }

  // ---------------------------------------------------------------- interference

  /** What others may have done meanwhile to a transaction holding `locks`: nothing to the rows
      it locked, nothing to the jobs of an order it locked, and no row has disappeared. */
  ghost predicate Undisturbed(c: State, e: State, locks: set<Key>) {
    && c.drones.Keys <= e.drones.Keys
    && (forall o {:trigger OrderKey(o)} :: OrderKey(o) in locks ==>
          (o in c.orders <==> o in e.orders) && (o in c.orders ==> c.orders[o] == e.orders[o]))
    && (forall d {:trigger DroneKey(d)} :: DroneKey(d) in locks ==>
          (d in c.drones <==> d in e.drones) && (d in c.drones ==> c.drones[d] == e.drones[d]))
    && (forall j {:trigger JobKey(j)} :: JobKey(j) in locks ==>
          (j in c.jobs <==> j in e.jobs) && (j in c.jobs ==> c.jobs[j] == e.jobs[j]))
    && (forall o {:trigger OrderKey(o)} :: OrderKey(o) in locks ==> SameJobs(c, e, o))
  }

  ghost predicate SameJobs(c: State, e: State, o: Uuid) {
    && (forall j :: j in c.jobs && c.jobs[j].order == o ==> j in e.jobs && e.jobs[j] == c.jobs[j])
    && (forall j :: j in e.jobs && e.jobs[j].order == o ==> j in c.jobs && e.jobs[j] == c.jobs[j])
  }

  lemma SameJobsSameQueries(c: State, e: State, o: Uuid)
    requires SameJobs(c, e, o)
    ensures LiveJobs(c, o) == LiveJobs(e, o)
    ensures forall j :: ActiveFor(c, o, j) <==> ActiveFor(e, o, j)
    ensures forall q :: Latest(c, o, q) <==> Latest(e, o, q)
  {
  }

  /** A claim survives everything others may do. */
  lemma ClaimSurvives(c: State, e: State, tx: Tx)
    requires Claim(c, tx) && Undisturbed(c, e, tx.locks)
    ensures Claim(e, tx)
  {
    match tx.op
    case Create(_, _, _, _, _, _) =>
    case Cancel(_, _) => CancelSurvives(c, e, tx);
    case Withdraw(_) => WithdrawSurvives(c, e, tx);
    case Reserve(_, _) => ReserveSurvives(c, e, tx);
    case Grab(_, _) => GrabSurvives(c, e, tx);
    case Complete(_, _, _, _) => CompleteSurvives(c, e, tx);
    case Break(_, _, _) => BreakSurvives(c, e, tx);
    case _ =>
  }

  lemma CancellingSurvives(c: State, e: State, tx: Tx, o: Uuid)
    requires Cancelling(c, tx, o) && SameJobs(c, e, o)
    ensures Cancelling(e, tx, o)
  {
    SameJobsSameQueries(c, e, o);
    forall k | k in tx.buf.jobs ensures k in e.jobs && e.jobs[k] == c.jobs[k] {
      assert k in LiveJobs(c, o);
    }
  }

  lemma CancelSurvives(c: State, e: State, tx: Tx)
    requires tx.op.Cancel? && CancelClaim(c, tx) && Undisturbed(c, e, tx.locks)
    ensures CancelClaim(e, tx)
  {
    if tx.pc == 2 { CancellingSurvives(c, e, tx, tx.op.order); }
  }

  lemma WithdrawSurvives(c: State, e: State, tx: Tx)
    requires tx.op.Withdraw? && WithdrawClaim(c, tx) && Undisturbed(c, e, tx.locks)
    ensures WithdrawClaim(e, tx)
  {
    if tx.pc == 3 { CancellingSurvives(c, e, tx, tx.op.order); }
  }

  lemma ReserveSurvives(c: State, e: State, tx: Tx)
    requires tx.op.Reserve? && ReserveClaim(c, tx) && Undisturbed(c, e, tx.locks)
    ensures ReserveClaim(e, tx)
  {
    if tx.pc >= 1 { assert e.jobs[tx.op.job] == c.jobs[tx.op.job]; }
  }

  lemma GrabSurvives(c: State, e: State, tx: Tx)
    requires tx.op.Grab? && GrabClaim(c, tx) && Undisturbed(c, e, tx.locks)
    ensures GrabClaim(e, tx)
  {
  }

  lemma CompleteSurvives(c: State, e: State, tx: Tx)
    requires tx.op.Complete? && CompleteClaim(c, tx) && Undisturbed(c, e, tx.locks)
    ensures CompleteClaim(e, tx)
  {
    if tx.pc >= 5 { SameJobsSameQueries(c, e, tx.op.order); }
  }

  lemma BreakSurvives(c: State, e: State, tx: Tx)
    requires tx.op.Break? && BreakClaim(c, tx) && Undisturbed(c, e, tx.locks)
    ensures BreakClaim(e, tx)
  {
    if tx.pc >= 3 {
      var o := c.drones[tx.op.drone].order.value;
      SameJobsSameQueries(c, e, o);
      if tx.pc == 5 {
        CancellingSurvives(c, e, tx, o);
      } else if tx.pc == 6 {
        CancellingSurvives(c, e, tx.(buf := tx.buf.(jobs := tx.buf.jobs - {tx.op.job})), o);
      }
    }
  }

  /** The tables differ at most in rows whose keys are in `held`, where jobs of an order change
      only with that order's key. */
  ghost predicate ChangesOnly(c: State, e: State, held: set<Key>) {
    && c.orders.Keys <= e.orders.Keys && c.drones.Keys <= e.drones.Keys
    && (forall o {:trigger OrderKey(o)} :: OrderKey(o) !in held ==>
          (o in c.orders <==> o in e.orders) && (o in c.orders ==> c.orders[o] == e.orders[o]) && SameJobs(c, e, o))
    && (forall d {:trigger DroneKey(d)} :: DroneKey(d) !in held ==>
          (d in c.drones <==> d in e.drones) && (d in c.drones ==> c.drones[d] == e.drones[d]))
    && (forall j {:trigger JobKey(j)} :: JobKey(j) !in held ==>
          (j in c.jobs <==> j in e.jobs) && (j in c.jobs ==> c.jobs[j] == e.jobs[j]))
  }

  /** A commit changes only rows whose locks the transaction holds, and the jobs of an order
      only under that order's lock. */
  lemma CommitFootprint(c: State, tx: Tx)
    requires Claim(c, tx) && Program(tx).Commit?
    ensures ChangesOnly(c, Overlay(c, tx.buf), tx.locks)
  {
    forall j | j in tx.buf.jobs ensures CoversJob(c, tx.locks, j, tx.buf.jobs[j]) {
      FootprintOfJob(c, tx, j);
    }
    FootprintOfRows(c, tx);
    CoveredChanges(c, tx.buf, tx.locks);
  }

  /** `locks` allows job `j` to be written as `row`. */
  ghost predicate CoversJob(c: State, locks: set<Key>, j: Uuid, row: JobRow) {
    && JobKey(j) in locks && OrderKey(row.order) in locks
    && (j in c.jobs ==> c.jobs[j].order == row.order)
  }

  lemma CoveredChanges(c: State, buf: State, locks: set<Key>)
    requires forall j :: j in buf.jobs ==> CoversJob(c, locks, j, buf.jobs[j])
    requires forall o :: o in buf.orders ==> OrderKey(o) in locks
    requires forall d :: d in buf.drones ==> DroneKey(d) in locks
    ensures ChangesOnly(c, Overlay(c, buf), locks)
  {
  }

  lemma FootprintOfRows(c: State, tx: Tx)
    requires Claim(c, tx) && Program(tx).Commit?
    ensures forall o :: o in tx.buf.orders ==> OrderKey(o) in tx.locks
    ensures forall d :: d in tx.buf.drones ==> DroneKey(d) in tx.locks
  {
  }

  lemma FootprintOfJob(c: State, tx: Tx, j: Uuid)
    requires Claim(c, tx) && Program(tx).Commit? && j in tx.buf.jobs
    ensures CoversJob(c, tx.locks, j, tx.buf.jobs[j])
  {
    match tx.op
    case Cancel(o, _) => assert j in LiveJobs(c, o);
    case Withdraw(o) => assert j in LiveJobs(c, o);
    case Break(d, k, _) =>
      if j != k {
        assert j in tx.(buf := tx.buf.(jobs := tx.buf.jobs - {k})).buf.jobs;
        assert j in LiveJobs(c, c.drones[d].order.value);
      }
    case _ =>
  }

  lemma DisjointUndisturbed(c: State, e: State, held: set<Key>, locks: set<Key>)
    requires ChangesOnly(c, e, held) && held !! locks
    ensures Undisturbed(c, e, locks)
  {
  }
}
