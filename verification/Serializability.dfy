/** Every interleaved run of the transactions and the single-row requests: what holds of all of
    them, when their tables are those of a serial run, and when their tables stay coupled.

    Transactions are atomic in every run. A single-row request writes without having locked what
    it read; its write is an atomic request exactly when it comes in time. */
module Serializability {
  import opened Domain
  import opened Protocol
  import opened Invariant
  import opened UnlockedReads
  import opened Transactions
  import opened Claims

  // ---------------------------------------------------------------- single-row requests

  /** The row a single-row request has read passed its checks. */
  predicate Accepts(r: Read) {
    match r.op
    case Heartbeat(_, spot, _) => SpotVerdict(spot).None?
    case Fix(_) => r.drone.Some? && r.drone.value.status.Broken?
    case AdminUpdate(_, origin, destination) =>
      r.order.Some? && MoveVerdict(r.order.value.status, origin).None?
      && MoveVerdict(r.order.value.status, destination).None?
    case _ => false
  }

  /** What the write does not mean to change is still as the request read it: nobody has enrolled
      the drone it took for missing, or changed the columns it carries along. */
  predicate InTime(c: State, r: Read) {
    match r.op
    case Heartbeat(d, _, _) =>
      if r.drone.None? then d in c.drones ==> c.drones[d] == NEW_DRONE
      else d in c.drones && r.drone.value.status == c.drones[d].status && r.drone.value.order == c.drones[d].order
    case Fix(d) =>
      && r.drone.Some? && d in c.drones && c.drones[d].status.Broken?
      && r.drone.value.at == c.drones[d].at && r.drone.value.heartbeat == c.drones[d].heartbeat
    case AdminUpdate(o, origin, destination) =>
      && r.order.Some? && o in c.orders
      && r.order.value.status == c.orders[o].status && r.order.value.drone == c.orders[o].drone
      && (origin.None? ==> r.order.value.origin == c.orders[o].origin)
      && (destination.None? ==> r.order.value.destination == c.orders[o].destination)
    case _ => false
  }

  /** A write without a lock is an atomic request exactly when it comes in time. */
  lemma StoreIsAtomicExactly(c: State, r: Read)
    requires Accepts(r)
    ensures Verdict(c, Done(r)).None? && Written(c, r) == Effect(c, Done(r)) <==> InTime(c, r)
  {
    match r.op
    case Heartbeat(d, spot, now) =>
      if r.drone.None? {
        assert Reset(c, d).drones[d] == NEW_DRONE;
        if d in c.drones && c.drones[d] == NEW_DRONE { assert Reset(c, d) == c; }
      } else if d in c.drones {
        WriteBackIsAtomicExactly(c, d, r.drone.value, spot.at, now);
      } else {
        assert d in HeartbeatEffect(c, d, spot.at, now).drones;
      }
    case Fix(d) => if d in c.drones { WriteBackFixedIsAtomicExactly(c, d, r.drone.value); }
    case AdminUpdate(o, origin, destination) =>
      if o in c.orders && AdminVerdict(c, o, origin, destination).None? {
        WriteBackOrderIsAtomicExactly(c, o, r.order.value, origin, destination);
      }
    case _ =>
  }

  // ---------------------------------------------------------------- what every run keeps

  /** What a pending request carries along still exists. */
  ghost predicate Remembers(c: State, r: Read) {
    && Accepts(r)
    && (r.drone.Some? && r.drone.value.order.Some? ==> r.drone.value.order.value in c.orders)
    && match r.op
       case Heartbeat(d, _, _) => r.drone.Some? ==> d in c.drones
       case Fix(d) => d in c.drones
       case AdminUpdate(o, _, _) => o in c.orders
       case _ => false
  }

  ghost predicate Sound(s: System) {
    && ForeignKeys(s.c)
    && (forall t :: t in s.txs ==> Claim(s.c, s.txs[t]))
    && (forall t, u :: t in s.txs && u in s.txs && t != u ==> s.txs[t].locks !! s.txs[u].locks)
    && (forall t :: t in s.pending ==> Remembers(s.c, s.pending[t]))
  }

  /** Committing one transaction, or one single-row operation, leaves the others' claims true. */
  lemma OthersSurvive(c: State, e: State, held: set<Key>, txs: map<nat, Tx>)
    requires ChangesOnly(c, e, held)
    requires forall t :: t in txs ==> Claim(c, txs[t]) && held !! txs[t].locks
    ensures forall t :: t in txs ==> Claim(e, txs[t])
  {
    forall t | t in txs ensures Claim(e, txs[t]) {
      DisjointUndisturbed(c, e, held, txs[t].locks);
      ClaimSurvives(c, e, txs[t]);
    }
  }

  /** New committed tables that differ from the old in rows nobody else has locked. */
  lemma ChangedSound(s: System, t: System, held: set<Key>)
    requires Sound(s) && ForeignKeys(t.c) && ChangesOnly(s.c, t.c, held)
    requires forall i :: i in t.txs ==> i in s.txs && t.txs[i] == s.txs[i] && held !! t.txs[i].locks
    requires forall i :: i in t.pending ==> Remembers(t.c, t.pending[i])
    ensures Sound(t)
  {
    OthersSurvive(s.c, t.c, held, t.txs);
  }

  lemma StillRemembers(c: State, e: State, held: set<Key>, r: Read)
    requires ChangesOnly(c, e, held) && Remembers(c, r)
    ensures Remembers(e, r)
  {
  }

  lemma CommitSound(s: System, t: nat, choice: Uuid)
    requires Sound(s) && t in s.txs && Program(s.txs[t]).Commit?
    ensures Sound(StepTx(s, t, choice))
  {
    var tx := s.txs[t];
    var e := Overlay(s.c, tx.buf);
    CommitIsAtomic(s.c, tx);
    CommitFootprint(s.c, tx);
    ForeignKeysKept(s.c, Logged(tx));
    forall i | i in s.pending ensures Remembers(e, s.pending[i]) {
      StillRemembers(s.c, e, tx.locks, s.pending[i]);
    }
    ChangedSound(s, StepTx(s, t, choice), tx.locks);
  }

  lemma AdvanceSound(s: System, t: nat, moved: Tx)
    requires Sound(s) && t in s.txs && Claim(s.c, moved)
    requires forall u :: u in s.txs && u != t ==> moved.locks !! s.txs[u].locks
    ensures Sound(s.(txs := s.txs[t := moved]))
  {
  }

  lemma StepSound(s: System, t: nat, choice: Uuid)
    requires Sound(s) && t in s.txs
    ensures Sound(StepTx(s, t, choice))
  {
    var tx := s.txs[t];
    var stmt := Program(tx);
    var need := Needs(tx, stmt, choice);
    if stmt.Commit? {
      CommitSound(s, t, choice);
    } else if need.None? || Unlocked(s.txs - {t}, need.value) {
      if Execute(s.c, tx, stmt, choice).Next? {
        OwnStep(s.c, tx, stmt, choice);
        forall u | u in s.txs && u != t ensures Granted(s.c, tx, stmt, choice).locks !! s.txs[u].locks {
          assert u in s.txs - {t};
          SameLocks(s.c, tx, choice);
        }
        AdvanceSound(s, t, Granted(s.c, tx, stmt, choice));
      }
    }
  }

  lemma SameLocks(c: State, tx: Tx, choice: Uuid)
    requires Execute(c, tx, Program(tx), choice).Next?
    ensures var need := Needs(tx, Program(tx), choice);
            Granted(c, tx, Program(tx), choice).locks == tx.locks + if need.Some? then {need.value} else {}
  {
  }

  /** A write without a lock, in time or not, changes only its row and keeps the references. */
  lemma WrittenFootprint(c: State, r: Read)
    requires ForeignKeys(c) && Remembers(c, r)
    ensures SingleRow(r.op) && ChangesOnly(c, Written(c, r), {RowOf(r.op)})
    ensures ForeignKeys(Written(c, r)) && Written(c, r).jobs == c.jobs
  {
  }

  lemma StoreSound(s: System, t: nat)
    requires Sound(s) && Stores(s, t)
    ensures Sound(StoreRead(s, t))
  {
    var r := s.pending[t];
    var u := StoreRead(s, t);
    WrittenFootprint(s.c, r);
    forall i | i in s.pending ensures Remembers(u.c, s.pending[i]) {
      StillRemembers(s.c, u.c, {RowOf(r.op)}, s.pending[i]);
    }
    ChangedSound(s, u, {RowOf(r.op)});
  }

  lemma FetchRemembers(c: State, op: Op, answered: bool)
    requires ForeignKeys(c) && Look(c, op, answered).Some?
    ensures Remembers(c, Look(c, op, answered).value)
  {
  }

  lemma StartSound(s: System, t: nat, op: Op)
    requires Sound(s) && t !in s.txs
    ensures Sound(s.(txs := s.txs[t := Begin(op)]))
  {
  }

  lemma FetchSound(s: System, t: nat, op: Op, answered: bool)
    requires Sound(s) && Look(s.c, op, answered).Some?
    ensures Sound(s.(pending := s.pending[t := Look(s.c, op, answered).value]))
  {
    FetchRemembers(s.c, op, answered);
  }

  lemma KillSound(s: System, t: nat)
    requires Sound(s)
    ensures Sound(s.(txs := s.txs - {t}, pending := s.pending - {t}))
  {
  }

  lemma MoveSound(s: System, move: Move)
    requires Sound(s)
    ensures Sound(SystemNext(s, move))
  {
    match move
    case Start(t, op) => if t !in s.txs { StartSound(s, t, op); }
    case Step(t, choice) => if t in s.txs { StepSound(s, t, choice); }
    case Kill(t) => KillSound(s, t);
    case Fetch(t, op, answered) => if Look(s.c, op, answered).Some? { FetchSound(s, t, op, answered); }
    case Store(t) => if Stores(s, t) { StoreSound(s, t); }
  }

  lemma {:induction false} RunSound(moves: seq<Move>, n: nat)
    requires n <= |moves|
    ensures Sound(SystemAt(moves, n))
  {
    if n == 0 {
    } else {
      RunSound(moves, n - 1);
      MoveSound(SystemAt(moves, n - 1), moves[n - 1]);
    }
  }

  // ---------------------------------------------------------------- what holds of every run

  /** Move `n` of a run is the COMMIT of a transaction. */
  ghost predicate Commits(moves: seq<Move>, n: nat)
    requires n < |moves|
  {
    moves[n].Step? && moves[n].t in SystemAt(moves, n).txs && Program(SystemAt(moves, n).txs[moves[n].t]).Commit?
  }

  /** Whatever the interleaving, a COMMIT has the guard and the effect of its request, issued
      atomically at that moment. */
  lemma CommitsAreAtomic(moves: seq<Move>, n: nat)
    requires n < |moves| && Commits(moves, n)
    ensures var s := SystemAt(moves, n); var t := SystemAt(moves, n + 1);
            var op := Logged(s.txs[moves[n].t]);
            Verdict(s.c, op).None? && t.c == Effect(s.c, op) && t.log == s.log + [op]
  {
    RunSound(moves, n);
    var s := SystemAt(moves, n);
    CommitIsAtomic(s.c, s.txs[moves[n].t]);
  }

  /** Whatever the interleaving, a transaction ends itself with an error only when its request,
      issued atomically at that moment, would fail with the same error. */
  lemma FailuresAreAtomic(moves: seq<Move>, n: nat, t: nat, choice: Uuid, op: Op)
    requires n <= |moves| && t in SystemAt(moves, n).txs
    requires var s := SystemAt(moves, n); var tx := s.txs[t];
             Execute(s.c, tx, Program(tx), choice).Abort? && SameRequest(tx, op) && !SingleRow(op)
    ensures var s := SystemAt(moves, n);
            Verdict(s.c, op) == Some(Execute(s.c, s.txs[t], Program(s.txs[t]), choice).err)
  {
    RunSound(moves, n);
    var s := SystemAt(moves, n);
    FailureIsAtomic(s.c, s.txs[t], choice, op);
  }

  /** The jobs of an order change only when a transaction holding that order's lock commits. */
  lemma JobsChangeOnlyUnderLock(moves: seq<Move>, n: nat, o: Uuid)
    requires n < |moves|
    ensures var s := SystemAt(moves, n); var t := SystemAt(moves, n + 1);
            LiveJobs(s.c, o) == LiveJobs(t.c, o) || (Commits(moves, n) && OrderKey(o) in s.txs[moves[n].t].locks)
  {
    RunSound(moves, n);
    var s := SystemAt(moves, n);
    var t := SystemAt(moves, n + 1);
    if Commits(moves, n) {
      CommitFootprint(s.c, s.txs[moves[n].t]);
      assert OrderKey(o) in s.txs[moves[n].t].locks || SameJobs(s.c, t.c, o);
      if SameJobs(s.c, t.c, o) { SameJobsSameQueries(s.c, t.c, o); }
    } else {
      QuietMove(s, moves[n]);
      SameLive(s.c, t.c, o);
    }
  }

  lemma QuietMove(s: System, move: Move)
    requires Sound(s)
    requires !(move.Step? && move.t in s.txs && Program(s.txs[move.t]).Commit?)
    ensures SystemNext(s, move).c.jobs == s.c.jobs
    ensures !(move.Store? && Stores(s, move.t)) ==> SystemNext(s, move).c == s.c && SystemNext(s, move).log == s.log
  {
    if move.Store? && Stores(s, move.t) { WrittenFootprint(s.c, s.pending[move.t]); }
  }

  // ---------------------------------------------------------------- serial runs

  lemma {:induction false} PrefixState(ops: seq<Op>, op: Op, n: nat)
    requires n <= |ops|
    ensures StateAt(ops + [op], n) == StateAt(ops, n)
  {
    if n == 0 {
    } else {
      PrefixState(ops, op, n - 1);
    }
  }

  lemma LogGrows(log: seq<Op>, op: Op)
    requires forall i :: 0 <= i < |log| ==> Succeeds(log, i)
    requires Verdict(StateAt(log, |log|), op).None?
    ensures StateAt(log + [op], |log| + 1) == Effect(StateAt(log, |log|), op)
    ensures forall i :: 0 <= i < |log + [op]| ==> Succeeds(log + [op], i)
  {
    PrefixState(log, op, |log|);
    forall i | 0 <= i < |log + [op]| ensures Succeeds(log + [op], i) {
      PrefixState(log, op, i);
      if i < |log| { assert Succeeds(log, i); }
    }
  }

  /** Every single-row request that writes at this move writes in time. */
  ghost predicate StoresInTime(s: System, move: Move) {
    move.Store? && Stores(s, move.t) ==> InTime(s.c, s.pending[move.t])
  }

  ghost predicate AllInTime(moves: seq<Move>, n: nat)
    requires n <= |moves|
  {
    n == 0 || (AllInTime(moves, n - 1) && StoresInTime(SystemAt(moves, n - 1), moves[n - 1]))
  }

  /** The committed tables are those of the serial run of the committed requests, which succeed. */
  ghost predicate Serial(s: System) {
    s.c == StateAt(s.log, |s.log|) && forall i :: 0 <= i < |s.log| ==> Succeeds(s.log, i)
  }

  lemma OneMoreSerial(s: System, t: System, op: Op)
    requires Serial(s) && Verdict(s.c, op).None? && t.c == Effect(s.c, op) && t.log == s.log + [op]
    ensures Serial(t)
  {
    LogGrows(s.log, op);
  }

  lemma MoveSerial(s: System, move: Move)
    requires Sound(s) && Serial(s) && StoresInTime(s, move)
    ensures Serial(SystemNext(s, move))
  {
    var t := SystemNext(s, move);
    if move.Step? && move.t in s.txs && Program(s.txs[move.t]).Commit? {
      CommitIsAtomic(s.c, s.txs[move.t]);
      OneMoreSerial(s, t, Logged(s.txs[move.t]));
    } else if move.Store? && Stores(s, move.t) {
      StoreIsAtomicExactly(s.c, s.pending[move.t]);
      OneMoreSerial(s, t, Done(s.pending[move.t]));
    } else {
      QuietMove(s, move);
    }
  }

  lemma {:induction false} RunSerial(moves: seq<Move>, n: nat)
    requires n <= |moves| && AllInTime(moves, n)
    ensures Serial(SystemAt(moves, n))
  {
    if n == 0 {
    } else {
      RunSerial(moves, n - 1);
      RunSound(moves, n - 1);
      MoveSerial(SystemAt(moves, n - 1), moves[n - 1]);
    }
  }

  /** Whatever the interleaving, as long as the single-row requests write in time, the committed
      tables are those of the serial run of the committed requests in commit order, each of which
      succeeds; so every theorem about reachable states and serial runs holds of them. */
  lemma Serializable(moves: seq<Move>, n: nat)
    requires n <= |moves| && AllInTime(moves, n)
    ensures Serial(SystemAt(moves, n))
    ensures Reachable(SystemAt(moves, n).c) && Inv(SystemAt(moves, n).c)
  {
    RunSerial(moves, n);
    ReachableInv(SystemAt(moves, n).c);
  }

  /** Without single-row requests there is no proviso. */
  lemma {:induction false} TransactionsAreSerializable(moves: seq<Move>, n: nat)
    requires n <= |moves| && forall i :: 0 <= i < n ==> !moves[i].Fetch?
    ensures AllInTime(moves, n) && SystemAt(moves, n).pending == map[]
  {
    if n == 0 {
    } else {
      TransactionsAreSerializable(moves, n - 1);
    }
  }

  // ---------------------------------------------------------------- coupled runs

  /** Which late writes leave coupled tables coupled. */
  ghost predicate HarmlessWrite(c: State, r: Read) {
    match r.op
    case Heartbeat(d, _, _) =>
      d in c.drones ==> if r.drone.None? then c.drones[d].order.None? else Harmless(c, d, r.drone.value)
    case Fix(d) => d in c.drones ==> c.drones[d].order.None?
    case AdminUpdate(o, _, _) =>
      r.order.Some? && o in c.orders ==>
        r.order.value.drone == c.orders[o].drone
        && Alike(r.order.value.status, c.orders[o].status, r.order.value.drone)
    case _ => true
  }

  lemma WriteKeepsCouplingExactly(c: State, r: Read)
    requires Inv(c) && Remembers(c, r)
    ensures Inv(Written(c, r)) <==> HarmlessWrite(c, r)
  {
    match r.op
    case Heartbeat(d, spot, now) =>
      if d !in c.drones {
        EnrollKeeps(c, d);
      } else if r.drone.None? {
        ResetKeepsCouplingExactly(c, d);
      } else {
        WriteBackKeepsCouplingExactly(c, d, r.drone.value, spot.at, now);
      }
    case Fix(d) => WriteBackFixedKeepsCouplingExactly(c, d, r.drone.value);
    case AdminUpdate(o, origin, destination) =>
      WriteBackOrderKeepsCouplingExactly(c, o, r.order.value, origin, destination);
    case _ =>
  }

  lemma EnrollKeeps(c: State, d: DroneId)
    requires Inv(c) && d !in c.drones
    ensures Inv(Reset(c, d))
  {
    StepKeeps(c, Enroll(d));
    assert Apply(c, Enroll(d)) == Reset(c, d);
  }

  ghost predicate StoresHarmlessly(s: System, move: Move) {
    move.Store? && Stores(s, move.t) ==> HarmlessWrite(s.c, s.pending[move.t])
  }

  ghost predicate AllHarmless(moves: seq<Move>, n: nat)
    requires n <= |moves|
  {
    n == 0 || (AllHarmless(moves, n - 1) && StoresHarmlessly(SystemAt(moves, n - 1), moves[n - 1]))
  }

  ghost predicate AllCoupled(moves: seq<Move>, n: nat)
    requires n <= |moves|
  {
    Inv(SystemAt(moves, n).c) && (n == 0 || AllCoupled(moves, n - 1))
  }

  lemma MoveKeepsCouplingExactly(s: System, move: Move)
    requires Sound(s) && Inv(s.c)
    ensures Inv(SystemNext(s, move).c) <==> StoresHarmlessly(s, move)
  {
    if move.Step? && move.t in s.txs && Program(s.txs[move.t]).Commit? {
      CommitIsAtomic(s.c, s.txs[move.t]);
      StepKeeps(s.c, Logged(s.txs[move.t]));
    } else if move.Store? && Stores(s, move.t) {
      WriteKeepsCouplingExactly(s.c, s.pending[move.t]);
    } else {
      QuietMove(s, move);
    }
  }

  /** Whatever the interleaving, the tables are coupled at every point of a run exactly when every
      write of a single-row request in it is harmless. */
  lemma {:induction false} CoupledExactly(moves: seq<Move>, n: nat)
    requires n <= |moves|
    ensures AllCoupled(moves, n) <==> AllHarmless(moves, n)
  {
    if n == 0 {
    } else {
      CoupledExactly(moves, n - 1);
      if AllCoupled(moves, n - 1) {
        RunSound(moves, n - 1);
        CoupledNow(moves, n - 1);
        MoveKeepsCouplingExactly(SystemAt(moves, n - 1), moves[n - 1]);
      }
    }
  }

  lemma CoupledNow(moves: seq<Move>, n: nat)
    requires n <= |moves| && AllCoupled(moves, n)
    ensures Inv(SystemAt(moves, n).c)
  {
  }
}
