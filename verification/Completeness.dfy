/** The converse of serializability: what the serial protocol commits, some interleaved run
    commits. A transaction whose request would succeed can always be brought to its COMMIT. */
module Completeness {
  import opened Domain
  import opened Protocol
  import opened Invariant
  import opened UnlockedReads
  import opened Transactions
  import opened Claims
  import opened Serializability

  // ---------------------------------------------------------------- longer runs

  /** The run of all of `moves` ends in `s`. */
  ghost predicate Runs(moves: seq<Move>, s: System) {
    SystemAt(moves, |moves|) == s
  }

  /** Every single-row request of the run has written in time. */
  ghost predicate InTimeThroughout(moves: seq<Move>) {
    AllInTime(moves, |moves|)
  }

  lemma {:induction false} PrefixRun(moves: seq<Move>, move: Move, n: nat)
    requires n <= |moves|
    ensures SystemAt(moves + [move], n) == SystemAt(moves, n)
    ensures AllInTime(moves + [move], n) == AllInTime(moves, n)
  {
    if n == 0 {
    } else {
      PrefixRun(moves, move, n - 1);
      assert (moves + [move])[n - 1] == moves[n - 1];
    }
  }

  lemma Longer(moves: seq<Move>, s: System, move: Move, t: System) returns (more: seq<Move>)
    requires Runs(moves, s) && t == SystemNext(s, move)
    ensures Runs(more, t)
    ensures InTimeThroughout(moves) && StoresInTime(s, move) ==> InTimeThroughout(more)
  {
    more := moves + [move];
    PrefixRun(moves, move, |moves|);
  }

  // ---------------------------------------------------------------- one transaction

  /** A choice that lets a transaction go on towards its request. */
  lemma Choose(c: State, tx: Tx, op: Op) returns (choice: Uuid)
    requires Claim(c, tx) && SameRequest(tx, op) && !Program(tx).Commit? && Verdict(c, op).None?
    ensures !Execute(c, tx, Program(tx), choice).Disabled?
    ensures Program(tx).PickJob? ==> op.Complete? && op.pick == Some(choice)
  {
    if Program(tx).PickJob? {
      PickOfCompletion(c, tx);
      choice := op.pick.value;
      var v := Overlay(c, tx.buf);
      assert forall j :: ActiveFor(v, op.order, j) <==> ActiveFor(c, op.order, j);
      assert ActiveFor(v, op.order, choice);
    } else {
      choice := NeverStuck(c, tx);
    }
  }

  lemma PickOfCompletion(c: State, tx: Tx)
    requires Claim(c, tx) && Program(tx).PickJob?
    ensures tx.op.Complete? && Program(tx) == PickJob(tx.op.order) && Overlay(c, tx.buf).jobs == c.jobs
  {
    if tx.op.Complete? { assert tx.buf.jobs == map[]; }
  }

  /** A statement takes a transaction further, by position or by a row of the multi-row UPDATE,
      and leaves its request alone. */
  lemma Advances(c: State, tx: Tx, stmt: Stmt, choice: Uuid)
    requires Execute(c, tx, stmt, choice).Next?
    ensures var g := Granted(c, tx, stmt, choice);
            && (g.pc > tx.pc || (g.pc == tx.pc && g.todo < tx.todo))
            && g.op == tx.op && g.pick == if stmt.PickJob? then choice else tx.pick
  {
  }

  lemma BoundedPosition(c: State, tx: Tx)
    requires Claim(c, tx)
    ensures tx.pc <= 8
  {
  }

  lemma KeepsRequest(c: State, tx: Tx, choice: Uuid, op: Op)
    requires Claim(c, tx) && SameRequest(tx, op) && Execute(c, tx, Program(tx), choice).Next?
    requires Program(tx).PickJob? ==> op.Complete? && op.pick == Some(choice)
    ensures SameRequest(Granted(c, tx, Program(tx), choice), op)
  {
    Advances(c, tx, Program(tx), choice);
    if tx.op.Complete? && tx.pc <= 4 && !Program(tx).PickJob? {
      PicksAtFour(c, tx, CompleteProgram(tx, tx.op.order, tx.op.drone, tx.op.delivered), choice);
    }
  }

  lemma PicksAtFour(c: State, tx: Tx, stmt: Stmt, choice: Uuid)
    requires tx.op.Complete? && stmt == CompleteProgram(tx, tx.op.order, tx.op.drone, tx.op.delivered)
    requires Execute(c, tx, stmt, choice).Next? && tx.pc <= 4 && !stmt.PickJob?
    ensures Granted(c, tx, stmt, choice).pc <= 4
  {
  }

  // ---------------------------------------------------------------- the locks of a request

  function JobKeys(jobs: set<Uuid>): set<Key> {
    set j | j in jobs :: JobKey(j)
  }

  /** The row locks a request that succeeds on tables `c` needs. */
  ghost function Wanted(c: State, op: Op): set<Key>
    requires Verdict(c, op).None?
  {
    match op
    case Create(o, _, _, _, j, _) => {OrderKey(o), JobKey(j)}
    case Cancel(o, _) => {OrderKey(o)} + JobKeys(LiveJobs(c, o))
    case Withdraw(o) => {OrderKey(o)} + JobKeys(LiveJobs(c, o))
    case Reserve(j, d) => {JobKey(j), OrderKey(c.jobs[j].order), DroneKey(d)}
    case Grab(o, d) => {OrderKey(o), DroneKey(d)}
    case Complete(o, d, _, pick) => {OrderKey(o), DroneKey(d), JobKey(pick.value)}
    case Break(d, j, _) =>
      {DroneKey(d)} + (if c.drones[d].order.None? then {} else
        {OrderKey(c.drones[d].order.value), JobKey(j)} + JobKeys(LiveJobs(c, c.drones[d].order.value)))
    case _ => {RowOf(op)}
  }

  /** Every lock a transaction asks for on its way is one its request needs. */
  lemma AsksForWanted(c: State, tx: Tx, choice: Uuid, op: Op)
    requires Claim(c, tx) && SameRequest(tx, op) && Verdict(c, op).None? && !SingleRow(op)
    requires Execute(c, tx, Program(tx), choice).Next? && Needs(tx, Program(tx), choice).Some?
    requires Program(tx).PickJob? ==> op.Complete? && op.pick == Some(choice)
    ensures Needs(tx, Program(tx), choice).value in Wanted(c, op)
  {
    match tx.op
    case Reserve(j, d) => ReserveAsks(c, tx, ReserveProgram(tx, j, d), choice);
    case Complete(o, d, delivered, _) => CompleteAsks(c, tx, CompleteProgram(tx, o, d, delivered), choice);
    case Break(d, j, now) => BreakAsks(c, tx, BreakProgram(tx, d, j, now), choice);
    case _ =>
  }

  lemma ReserveAsks(c: State, tx: Tx, stmt: Stmt, choice: Uuid)
    requires tx.op.Reserve? && ReserveClaim(c, tx) && ReserveVerdict(c, tx.op.job, tx.op.drone).None?
    requires stmt == ReserveProgram(tx, tx.op.job, tx.op.drone) && Needs(tx, stmt, choice).Some?
    ensures Needs(tx, stmt, choice).value
            in {JobKey(tx.op.job), OrderKey(c.jobs[tx.op.job].order), DroneKey(tx.op.drone)}
  {
  }

  lemma CompleteAsks(c: State, tx: Tx, stmt: Stmt, choice: Uuid)
    requires tx.op.Complete? && CompleteClaim(c, tx)
    requires stmt == CompleteProgram(tx, tx.op.order, tx.op.drone, tx.op.delivered) && Needs(tx, stmt, choice).Some?
    ensures Needs(tx, stmt, choice).value in {OrderKey(tx.op.order), DroneKey(tx.op.drone)}
            || (tx.pc >= 5 && Needs(tx, stmt, choice).value == JobKey(tx.pick))
  {
  }

  lemma BreakAsks(c: State, tx: Tx, stmt: Stmt, choice: Uuid)
    requires tx.op.Break? && BreakClaim(c, tx) && BreakVerdict(c, tx.op.drone, tx.op.job).None?
    requires stmt == BreakProgram(tx, tx.op.drone, tx.op.job, tx.op.now)
    requires Execute(c, tx, stmt, choice).Next? && Needs(tx, stmt, choice).Some?
    ensures Needs(tx, stmt, choice).value in Wanted(c, tx.op)
  {
  }

  /** No other transaction holds a lock that the request needs. */
  ghost predicate Free(s: System, t: nat, op: Op)
    requires Verdict(s.c, op).None?
  {
    forall u :: u in s.txs && u != t ==> s.txs[u].locks !! Wanted(s.c, op)
  }

  /** One statement of a transaction that nobody blocks and whose request would succeed. */
  lemma Drive1(s: System, t: nat, op: Op) returns (choice: Uuid, g: Tx)
    requires Sound(s) && t in s.txs && !SingleRow(op)
    requires SameRequest(s.txs[t], op) && Verdict(s.c, op).None? && !Program(s.txs[t]).Commit?
    requires Free(s, t, op)
    ensures SystemNext(s, Step(t, choice)) == s.(txs := s.txs[t := g])
    ensures SameRequest(g, op)
    ensures s.txs[t].pc <= 8 && (g.pc > s.txs[t].pc || (g.pc == s.txs[t].pc && g.todo < s.txs[t].todo))
  {
    var tx := s.txs[t];
    var stmt := Program(tx);
    choice := Choose(s.c, tx, op);
    DoesNotFail(s.c, tx, choice, op);
    g := Granted(s.c, tx, stmt, choice);
    Advances(s.c, tx, stmt, choice);
    BoundedPosition(s.c, tx);
    KeepsRequest(s.c, tx, choice, op);
    if Needs(tx, stmt, choice).Some? { AsksForWanted(s.c, tx, choice, op); }
    FreeStep(s, t, stmt, choice, g);
  }

  lemma DoesNotFail(c: State, tx: Tx, choice: Uuid, op: Op)
    requires ForeignKeys(c) && Claim(c, tx) && SameRequest(tx, op) && !SingleRow(op) && Verdict(c, op).None?
    requires !Execute(c, tx, Program(tx), choice).Disabled?
    ensures Execute(c, tx, Program(tx), choice).Next?
  {
    if Execute(c, tx, Program(tx), choice).Abort? {
      FailureIsAtomic(c, tx, choice, op);
      assert false;
    }
  }

  lemma FreeStep(s: System, t: nat, stmt: Stmt, choice: Uuid, g: Tx)
    requires t in s.txs && stmt == Program(s.txs[t]) && !stmt.Commit?
    requires Needs(s.txs[t], stmt, choice).Some? ==> Unlocked(s.txs - {t}, Needs(s.txs[t], stmt, choice).value)
    requires Execute(s.c, s.txs[t], stmt, choice).Next? && g == Granted(s.c, s.txs[t], stmt, choice)
    ensures SystemNext(s, Step(t, choice)) == s.(txs := s.txs[t := g])
  {
    SameLocks(s.c, s.txs[t], choice);
  }

  lemma LastStep(s: System, t: nat, op: Op)
    requires Sound(s) && t in s.txs && SameRequest(s.txs[t], op) && Program(s.txs[t]).Commit?
    ensures Verdict(s.c, op).None?
    ensures SystemNext(s, Step(t, 0)) == System(Effect(s.c, op), s.txs - {t}, s.pending, s.log + [op])
  {
    var tx := s.txs[t];
    CommitIsAtomic(s.c, tx);
    assert Logged(tx) == op by {
      if tx.op.Complete? { CompletePosition(s.c, tx); }
    }
  }

  lemma CompletePosition(c: State, tx: Tx)
    requires tx.op.Complete? && CompleteProgram(tx, tx.op.order, tx.op.drone, tx.op.delivered).Commit?
    ensures tx.pc >= 7
  {
  }

  /** A running transaction whose request would succeed, and the locks of whose request nobody
      else holds, can be brought to commit it, with everything else as it is. */
  lemma {:induction false} Drive(moves: seq<Move>, s: System, t: nat, op: Op) returns (more: seq<Move>)
    requires Runs(moves, s) && t in s.txs && !SingleRow(op)
    requires SameRequest(s.txs[t], op) && Verdict(s.c, op).None? && Free(s, t, op)
    ensures Runs(more, System(Effect(s.c, op), s.txs - {t}, s.pending, s.log + [op]))
    ensures InTimeThroughout(moves) ==> InTimeThroughout(more)
    decreases 9 - s.txs[t].pc, s.txs[t].todo
  {
    RunSound(moves, |moves|);
    if Program(s.txs[t]).Commit? {
      LastStep(s, t, op);
      more := Longer(moves, s, Step(t, 0), System(Effect(s.c, op), s.txs - {t}, s.pending, s.log + [op]));
    } else {
      var choice, g := Drive1(s, t, op);
      var next := s.(txs := s.txs[t := g]);
      more := Longer(moves, s, Step(t, choice), next);
      more := Drive(more, next, t, op);
      assert next.txs - {t} == s.txs - {t};
    }
  }

  // ---------------------------------------------------------------- one request

  /** A single-row request whose read and write nobody comes between. */
  lemma Single(moves: seq<Move>, s: System, op: Op) returns (more: seq<Move>, t: System)
    requires Runs(moves, s) && s.txs == map[] && s.pending == map[]
    requires Verdict(s.c, op).None? && SingleRow(op) && (op.Heartbeat? || op.Enroll? ==> op.drone in s.c.drones)
    ensures Runs(more, t) && t.c == Effect(s.c, op) && t.txs == map[] && t.pending == map[]
    ensures InTimeThroughout(moves) ==> InTimeThroughout(more)
  {
    if op.Enroll? { return moves, s; }
    var r := Look(s.c, op, true).value;
    var u := s.(pending := map[0 := r]);
    more := Longer(moves, s, Fetch(0, op, true), u);
    StoreIsAtomicExactly(s.c, r);
    t := StoreRead(u, 0);
    more := Longer(more, u, Store(0), t);
  }

  /** A heartbeat that nobody comes between: refused without a trace if its location is not accepted;
      the atomic heartbeat of a drone whose SELECT is answered; otherwise first the reset, known or
      not, which counts as enrolment, and then the heartbeat. */
  lemma UndividedHeartbeat(s: System, t: nat, d: DroneId, spot: Placed, now: int, answered: bool)
    requires t !in s.pending && Unlocked(s.txs, DroneKey(d))
    ensures var op := Heartbeat(d, spot, now);
            var u := SystemNext(s, Fetch(t, op, answered));
            var v := SystemNext(u, Store(t)); var w := SystemNext(v, Store(t));
            if !(spot.inZone && -90.0 <= spot.at.lat <= 90.0 && -180.0 <= spot.at.lng <= 180.0) then
              u == s
            else if answered && d in s.c.drones then
              v == s.(c := HeartbeatEffect(s.c, d, spot.at, now), log := s.log + [op])
            else
              && v.c == Reset(s.c, d) && v.log == s.log + [Enroll(d)]
              && w == s.(c := HeartbeatEffect(Reset(s.c, d), d, spot.at, now), log := s.log + [Enroll(d), op])
  {
    var op := Heartbeat(d, spot, now);
    var u := SystemNext(s, Fetch(t, op, answered));
    if Look(s.c, op, answered).Some? {
      assert u == s.(pending := s.pending[t := Look(s.c, op, answered).value]);
      assert u.pending - {t} == s.pending;
      var v := SystemNext(u, Store(t));
      if !(answered && d in s.c.drones) {
        assert v.pending - {t} == s.pending;
        assert s.log + [Enroll(d)] + [op] == s.log + [Enroll(d), op];
      }
    }
  }

  /** A fix, or an admin update, that nobody comes between: the atomic one if it succeeds and its
      SELECT is answered, and otherwise nothing. */
  lemma UndividedUpdate(s: System, t: nat, op: Op, answered: bool)
    requires (op.Fix? || op.AdminUpdate?) && t !in s.pending && Unlocked(s.txs, RowOf(op))
    ensures var u := SystemNext(s, Fetch(t, op, answered)); var v := SystemNext(u, Store(t));
            v == if answered && Verdict(s.c, op).None?
                 then s.(c := Effect(s.c, op), log := s.log + [op]) else s
  {
    var u := SystemNext(s, Fetch(t, op, answered));
    if answered && Verdict(s.c, op).None? {
      assert u == s.(pending := s.pending[t := Look(s.c, op, true).value]);
      assert u.pending - {t} == s.pending;
      StoreIsAtomicExactly(s.c, Look(s.c, op, true).value);
    }
  }

  /** The upsert of an unknown drone is an operation of its own. */
  lemma EnrollFirst(moves: seq<Move>, s: System, d: DroneId) returns (more: seq<Move>)
    requires Runs(moves, s) && s.txs == map[] && s.pending == map[] && d !in s.c.drones
    ensures Runs(more, System(EnrollEffect(s.c, d), map[], map[], s.log + [Enroll(d)]))
    ensures InTimeThroughout(moves) ==> InTimeThroughout(more)
  {
    var op := Heartbeat(d, Placed(ORIGIN_POINT, true), 0);
    var u := s.(pending := map[0 := Read(op, None, None)]);
    more := Longer(moves, s, Fetch(0, op, true), u);
    var v := StoreRead(u, 0);
    more := Longer(more, u, Store(0), v);
    more := Longer(more, v, Kill(0), System(EnrollEffect(s.c, d), map[], map[], s.log + [Enroll(d)]));
  }

  /** Every request that would succeed can be served. */
  lemma Serve(moves: seq<Move>, s: System, op: Op) returns (more: seq<Move>, t: System)
    requires Runs(moves, s) && s.txs == map[] && s.pending == map[] && Verdict(s.c, op).None?
    ensures Runs(more, t) && t.c == Effect(s.c, op) && t.txs == map[] && t.pending == map[]
    ensures InTimeThroughout(moves) ==> InTimeThroughout(more)
  {
    if !SingleRow(op) {
      var u := s.(txs := map[0 := Begin(op)]);
      more := Longer(moves, s, Start(0, op), u);
      more := Drive(more, u, 0, op);
      t := System(Effect(s.c, op), map[], map[], s.log + [op]);
      assert u.txs - {0} == map[];
    } else if (op.Heartbeat? || op.Enroll?) && op.drone !in s.c.drones {
      more := EnrollFirst(moves, s, op.drone);
      t := System(EnrollEffect(s.c, op.drone), map[], map[], s.log + [Enroll(op.drone)]);
      more, t := Single(more, t, op);
      assert op.Heartbeat? ==> t.c == HeartbeatEffect(s.c, op.drone, op.spot.at, op.now);
    } else {
      more, t := Single(moves, s, op);
    }
  }

  // ---------------------------------------------------------------- all runs

  /** Every serial run is the outcome of an interleaved one. */
  lemma {:induction false} Realizable(ops: seq<Op>, n: nat) returns (moves: seq<Move>, s: System)
    requires n <= |ops|
    ensures Runs(moves, s) && s.c == StateAt(ops, n) && s.txs == map[] && s.pending == map[]
    ensures InTimeThroughout(moves)
  {
    if n == 0 {
      moves, s := [], BOOT;
    } else {
      moves, s := Realizable(ops, n - 1);
      if Verdict(s.c, ops[n - 1]).None? {
        moves, s := Serve(moves, s, ops[n - 1]);
      }
    }
  }

  /** The tables that interleaved runs commit are exactly those that serial runs reach. */
  lemma SameReach(c: State)
    ensures Reachable(c) <==> exists moves :: InTimeThroughout(moves) && SystemAt(moves, |moves|).c == c
  {
    if Reachable(c) {
      var ops: seq<Op>, n: nat :| n <= |ops| && StateAt(ops, n) == c;
      var moves, s := Realizable(ops, n);
      assert Runs(moves, s);
    }
    if moves :| InTimeThroughout(moves) && SystemAt(moves, |moves|).c == c {
      Serializable(moves, |moves|);
    }
  }
}
