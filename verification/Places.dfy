/** Where drones are recorded to be, in every interleaved run: location and heartbeat stamp are
    those of the latest write of the row without a lock, which may be a heartbeat, the reset of
    a drone taken for missing, or a fix that carries along what it read. */
module Places {
  import opened Domain
  import opened Protocol
  import opened Transactions
  import opened Claims
  import opened Serializability

  datatype Place = Place(at: Location, heartbeat: Option<int>)

  const NOWHERE := Place(ORIGIN_POINT, None)

  function PlaceOf(row: DroneRow): Place {
    Place(row.at, row.heartbeat)
  }

  function Recorded(c: State, d: DroneId): Option<Place> {
    if d in c.drones then Some(PlaceOf(c.drones[d])) else None
  }

  // ---------------------------------------------------------------- one move

  /** The request reads and writes the row of drone `d`. */
  predicate Concerns(op: Op, d: DroneId) {
    (op.Heartbeat? || op.Fix?) && op.drone == d
  }

  /** The move writes the row of drone `d` without a lock. */
  predicate PutsOn(s: System, move: Move, d: DroneId) {
    move.Store? && Stores(s, move.t) && Concerns(s.pending[move.t].op, d)
  }

  /** The place it writes. */
  function Put(s: System, move: Move): Place
    requires move.Store? && Stores(s, move.t)
  {
    var r := s.pending[move.t];
    if r.drone.None? then NOWHERE
    else if r.op.Heartbeat? then Place(r.op.spot.at, Some(r.op.now))
    else PlaceOf(r.drone.value)
  }

  lemma OperationKeepsPlace(s: State, op: Op, d: DroneId)
    requires Verdict(s, op).None? && !op.Heartbeat? && !op.Enroll?
    ensures Recorded(Effect(s, op), d) == Recorded(s, d)
  {
  }

  lemma WrittenPlace(c: State, r: Read, d: DroneId)
    requires Remembers(c, r)
    ensures Recorded(Written(c, r), d) ==
            if !Concerns(r.op, d) then Recorded(c, d)
            else if r.drone.None? then Some(NOWHERE)
            else if r.op.Heartbeat? then Some(Place(r.op.spot.at, Some(r.op.now)))
            else Some(PlaceOf(r.drone.value))
  {
  }

  /** Nothing else moves, stamps, creates or forgets a drone: no transaction, and no admin update. */
  lemma OnlyPutsMove(s: System, move: Move, d: DroneId)
    requires Sound(s)
    ensures Recorded(SystemNext(s, move).c, d) ==
            if PutsOn(s, move, d) then Some(Put(s, move)) else Recorded(s.c, d)
  {
    if move.Step? && move.t in s.txs && Program(s.txs[move.t]).Commit? {
      CommitIsAtomic(s.c, s.txs[move.t]);
      RequestsRun(s.c, s.txs[move.t]);
      OperationKeepsPlace(s.c, Logged(s.txs[move.t]), d);
    } else if move.Store? && Stores(s, move.t) {
      WrittenPlace(s.c, s.pending[move.t], d);
    } else {
      QuietMove(s, move);
    }
  }

  /** Only a transaction's request runs as a transaction. */
  lemma RequestsRun(c: State, tx: Tx)
    requires Program(tx).Commit?
    ensures !SingleRow(Logged(tx))
  {
  }

  // ---------------------------------------------------------------- runs

  /** What moves `0` to `n - 1` wrote, one after the other, to the row of `d`. */
  ghost function PutAt(moves: seq<Move>, i: nat, d: DroneId): Option<Place>
    requires i < |moves|
  {
    var s := SystemAt(moves, i);
    if PutsOn(s, moves[i], d) then Some(Put(s, moves[i])) else None
  }

  /** Move `i` was the last before move `n` to write the row of `d` without a lock, and wrote `p`. */
  ghost predicate LatestPut(moves: seq<Move>, i: nat, n: nat, d: DroneId, p: Place)
    requires n <= |moves|
  {
    i < n && PutAt(moves, i, d) == Some(p) && forall k: nat :: i < k < n ==> PutAt(moves, k, d).None?
  }

  lemma PlaceStep(moves: seq<Move>, n: nat, d: DroneId)
    requires n < |moves|
    ensures Recorded(SystemAt(moves, n + 1).c, d) ==
            if PutAt(moves, n, d).Some? then PutAt(moves, n, d) else Recorded(SystemAt(moves, n).c, d)
  {
    RunSound(moves, n);
    OnlyPutsMove(SystemAt(moves, n), moves[n], d);
  }

  lemma SameLatestPut(moves: seq<Move>, i: nat, n: nat, d: DroneId, p: Place)
    requires n < |moves| && PutAt(moves, n, d).None?
    ensures LatestPut(moves, i, n + 1, d, p) <==> LatestPut(moves, i, n, d, p)
  {
  }

  /** Whatever the interleaving, and whatever goes unanswered, a drone is recorded at a place exactly
      when the latest such write put it there. */
  lemma {:induction false} PlaceExactly(moves: seq<Move>, n: nat, d: DroneId, p: Place)
    requires n <= |moves|
    ensures Recorded(SystemAt(moves, n).c, d) == Some(p) <==> exists i: nat :: LatestPut(moves, i, n, d, p)
  {
    if n == 0 {
    } else {
      var k := n - 1;
      PlaceExactly(moves, k, d, p);
      PlaceStep(moves, k, d);
      if PutAt(moves, k, d).Some? {
        assert forall i: nat :: LatestPut(moves, i, n, d, p) ==> i == k;
        assert LatestPut(moves, k, n, d, PutAt(moves, k, d).value);
      } else {
        forall i: nat ensures LatestPut(moves, i, n, d, p) <==> LatestPut(moves, i, k, d, p) {
          SameLatestPut(moves, i, k, d, p);
        }
      }
    }
  }

  /** An accepted heartbeat of `d` among the first `n` moves reported `p`. */
  ghost predicate Reported(moves: seq<Move>, n: nat, d: DroneId, p: Place)
    requires n <= |moves|
  {
    exists i: nat :: i < n && ReportsAt(SystemAt(moves, i), moves[i], d, p)
  }

  predicate ReportsAt(s: System, move: Move, d: DroneId, p: Place) {
    && PutsOn(s, move, d) && s.pending[move.t].op.Heartbeat? && SpotVerdict(s.pending[move.t].op.spot).None?
    && Put(s, move) == p
  }

  lemma ReportedLater(moves: seq<Move>, n: nat, d: DroneId, p: Place)
    requires n < |moves| && Reported(moves, n, d, p)
    ensures Reported(moves, n + 1, d, p)
  {
    var i: nat :| i < n && ReportsAt(SystemAt(moves, i), moves[i], d, p);
    assert i < n + 1;
  }

  /** A row some request has read for `d` carries the place `p`. */
  ghost predicate Carries(s: System, t: nat, d: DroneId, p: Place) {
    && t in s.pending && Concerns(s.pending[t].op, d)
    && s.pending[t].drone.Some? && PlaceOf(s.pending[t].drone.value) == p
  }

  lemma CarriesFrom(s: System, move: Move, t: nat, d: DroneId, p: Place)
    requires Sound(s) && Carries(SystemNext(s, move), t, d, p)
    ensures Carries(s, t, d, p) || Recorded(s.c, d) == Some(p) || p == NOWHERE
  {
  }

  /** A drone is never recorded, nor carried along by a request, at a place other than the origin
      point that it has not itself reported. */
  lemma {:induction false} PlacesAreReported(moves: seq<Move>, n: nat, d: DroneId, p: Place)
    requires n <= |moves| && p != NOWHERE
    requires Recorded(SystemAt(moves, n).c, d) == Some(p) || exists t :: Carries(SystemAt(moves, n), t, d, p)
    ensures Reported(moves, n, d, p)
  {
    var k := n - 1;
    var s := SystemAt(moves, k);
    RunSound(moves, k);
    assert SystemAt(moves, n) == SystemNext(s, moves[k]);
    OnlyPutsMove(s, moves[k], d);
    if ReportsAt(s, moves[k], d, p) {
    } else {
      if t :| Carries(SystemAt(moves, n), t, d, p) { CarriesFrom(s, moves[k], t, d, p); }
      if PutsOn(s, moves[k], d) && Put(s, moves[k]) == p { assert Carries(s, moves[k].t, d, p); }
      PlacesAreReported(moves, k, d, p);
      ReportedLater(moves, k, d, p);
    }
  }
}
