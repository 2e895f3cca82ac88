/** Runs of the whole service against table and cache. The tables follow any interleaving of
    transactions and single-row requests, with whatever goes unanswered; heartbeats and location
    queries write the cache after they have written or read the table, so others may come in
    between, and what they still have to write is pending. */
module CacheAgreement {
  import opened Domain
  import opened Protocol
  import opened Services
  import opened UnlockedReads
  import opened Transactions
  import opened Serializability
  import opened Places

  /** What the location query sees: the tables, the cache and the clock. */
  datatype View = View(db: State, cache: Entries, now: int)

  /** The unexpired entry of a drone. */
  function Cached(v: View, d: DroneId): Option<Location> {
    Lookup(v.cache, d, v.now)
  }

  function FromTable(v: View, d: DroneId): Option<Location> {
    if d in v.db.drones then Some(v.db.drones[d].at) else None
  }

  /** What a location query answers. */
  function Answer(v: View, d: DroneId): Option<Location> {
    if Cached(v, d).Some? then Cached(v, d) else FromTable(v, d)
  }

  predicate AgreesOn(v: View, d: DroneId) {
    Answer(v, d) == FromTable(v, d)
  }

  ghost predicate Agrees(v: View) {
    forall d :: AgreesOn(v, d)
  }

  /** No operation but a heartbeat moves a drone, and none forgets one. */
  lemma OnlyHeartbeatMoves(s: State, op: Op, d: DroneId)
    requires d in s.drones && !op.Heartbeat?
    ensures d in Apply(s, op).drones && Apply(s, op).drones[d].at == s.drones[d].at
  {
  }

  /** An UPDATE of a drone's row keeps the agreement exactly when it leaves the location, or no
      unexpired entry says what it was. */
  lemma RowKeepsAgreementExactly(v: View, d: DroneId, row: DroneRow)
    requires Agrees(v) && d in v.db.drones
    ensures Agrees(v.(db := PutRow(v.db, d, row))) <==> (Cached(v, d).Some? ==> row.at == v.db.drones[d].at)
  {
    var t := v.(db := PutRow(v.db, d, row));
    assert AgreesOn(v, d);
    forall e | e != d ensures AgreesOn(t, e) { assert AgreesOn(v, e); }
    if Agrees(t) { assert AgreesOn(t, d); }
  }

  /** The reset of a known drone keeps it exactly when no unexpired entry says the drone is
      anywhere but at the origin point. */
  lemma ResetKeepsAgreementExactly(v: View, d: DroneId)
    requires Agrees(v)
    ensures Agrees(v.(db := Reset(v.db, d))) <==> Cached(v, d) == None || Cached(v, d) == Some(ORIGIN_POINT)
  {
    assert AgreesOn(v, d);
    if d in v.db.drones {
      RowKeepsAgreementExactly(v, d, NEW_DRONE);
    } else {
      var t := v.(db := Reset(v.db, d));
      forall e ensures AgreesOn(t, e) { assert AgreesOn(v, e); }
    }
  }

  // ---------------------------------------------------------------- one request after the other

  /** How far a heartbeat gets: to nothing, to the upsert of a missing drone, to the UPDATE of the
      table, to the cache. */
  datatype Reach = ToNothing | ToUpsert | ToTable | ToCache

  /** A request served with nothing in between. `read` tells whether a heartbeat's SELECT was
      answered; a query may fail to read or to write the cache. */
  datatype Request =
    | Serve(op: Op)
    | Beat(drone: DroneId, spot: Placed, read: bool, reach: Reach)
    | Query(drone: DroneId, readUp: bool, writeUp: bool)
    | Wait(elapsed: nat)
    | Drop(drone: DroneId)

  function Enter(d: DroneId, at: Location, v: View, ttl: Lifetime): Entries {
    v.cache[d := Entry(at, v.now + ttl)]
  }

  function Beaten(v: View, d: DroneId, at: Location, read: bool, reach: Reach, ttl: Lifetime): View {
    var base := if read then EnrollEffect(v.db, d) else Reset(v.db, d);
    match reach
    case ToNothing => v
    case ToUpsert => v.(db := base)
    case ToTable => v.(db := HeartbeatEffect(base, d, at, v.now))
    case ToCache => v.(db := HeartbeatEffect(base, d, at, v.now), cache := Enter(d, at, v, ttl))
  }

  ghost function Served(v: View, q: Request, ttl: Lifetime): View {
    match q
    case Serve(op) => if op.Heartbeat? then v else v.(db := Apply(v.db, op))
    case Beat(d, spot, read, reach) =>
      if SpotVerdict(spot).Some? then v else Beaten(v, d, spot.at, read, reach, ttl)
    case Query(d, readUp, writeUp) =>
      if (readUp && Cached(v, d).Some?) || d !in v.db.drones || !writeUp then v
      else v.(cache := Enter(d, v.db.drones[d].at, v, ttl))
    case Wait(n) => v.(now := v.now + n)
    case Drop(d) => v.(cache := v.cache - {d})
  }

  /** A heartbeat that stops short of the cache leaves the table at a place that an unexpired entry
      contradicts: after the reset of a drone taken for missing, or after the UPDATE. */
  predicate StopsShort(v: View, q: Request) {
    && q.Beat? && SpotVerdict(q.spot).None? && Cached(v, q.drone).Some?
    && match q.reach
       case ToUpsert => !q.read && Cached(v, q.drone) != Some(ORIGIN_POINT)
       case ToTable => Cached(v, q.drone) != Some(q.spot.at)
       case _ => false
  }

  lemma ServedAgreesExactly(v: View, q: Request, ttl: Lifetime)
    requires Agrees(v)
    ensures Agrees(Served(v, q, ttl)) <==> !StopsShort(v, q)
  {
    var t := Served(v, q, ttl);
    forall d ensures AgreesOn(t, d) <==> !(q.Beat? && q.drone == d && StopsShort(v, q)) {
      assert AgreesOn(v, d);
      if q.Serve? && !q.op.Heartbeat? && d in v.db.drones { OnlyHeartbeatMoves(v.db, q.op, d); }
    }
    if Agrees(t) && q.Beat? { assert AgreesOn(t, q.drone); }
  }

  ghost function ViewAt(requests: seq<Request>, n: nat, ttl: Lifetime): View
    requires n <= |requests|
  {
    if n == 0 then View(EMPTY, map[], 0) else Served(ViewAt(requests, n - 1, ttl), requests[n - 1], ttl)
  }

  ghost predicate AlwaysAgrees(requests: seq<Request>, n: nat, ttl: Lifetime)
    requires n <= |requests|
  {
    Agrees(ViewAt(requests, n, ttl)) && (n == 0 || AlwaysAgrees(requests, n - 1, ttl))
  }

  ghost predicate NoneStopsShort(requests: seq<Request>, n: nat, ttl: Lifetime)
    requires n <= |requests|
  {
    n == 0 || (!StopsShort(ViewAt(requests, n - 1, ttl), requests[n - 1]) && NoneStopsShort(requests, n - 1, ttl))
  }

  /** One after the other, location queries answer what the table would at every point of a run
      exactly when no heartbeat of the run stops short of the cache. */
  lemma {:induction false} SerialAgreesExactly(requests: seq<Request>, n: nat, ttl: Lifetime)
    requires n <= |requests|
    ensures AlwaysAgrees(requests, n, ttl) <==> NoneStopsShort(requests, n, ttl)
  {
    if n == 0 {
      assert forall d :: AgreesOn(ViewAt(requests, 0, ttl), d);
    } else {
      SerialAgreesExactly(requests, n - 1, ttl);
      if AlwaysAgrees(requests, n - 1, ttl) {
        assert Agrees(ViewAt(requests, n - 1, ttl));
        ServedAgreesExactly(ViewAt(requests, n - 1, ttl), requests[n - 1], ttl);
      }
    }
  }

  /** In particular when every heartbeat that gets anywhere gets to the cache. */
  lemma {:induction false} SerialCacheAgrees(requests: seq<Request>, n: nat, ttl: Lifetime)
    requires n <= |requests|
    requires forall i :: 0 <= i < n && requests[i].Beat? ==> requests[i].reach.ToCache? || requests[i].reach.ToNothing?
    ensures NoneStopsShort(requests, n, ttl) && AlwaysAgrees(requests, n, ttl)
  {
    if n == 0 {
    } else {
      SerialCacheAgrees(requests, n - 1, ttl);
    }
    SerialAgreesExactly(requests, n, ttl);
  }

  // ---------------------------------------------------------------- interleaved

  /** A cache write under way, of a heartbeat that has changed the table or of a query that has
      read it. */
  datatype Write = Write(drone: DroneId, at: Location, beat: bool)

  datatype World = World(sys: System, cache: Entries, now: int, writes: map<nat, Write>)

  function Seen(w: World): View {
    View(w.sys.c, w.cache, w.now)
  }

  /** What may happen next: a move of the system; the table's half of a query that misses the cache
      or cannot read it; a pending cache write, or its failure; the passing of time; or the cache
      dropping an entry. */
  datatype Act =
    | Do(move: Move)
    | Ask(id: nat, drone: DroneId, cacheUp: bool)
    | Land(id: nat)
    | Lose(id: nat)
    | Tick(elapsed: nat)
    | Evict(drone: DroneId)

  /** The move is a heartbeat's UPDATE, after which it goes on to the cache. */
  predicate Beats(s: System, move: Move) {
    move.Store? && Stores(s, move.t) && s.pending[move.t].op.Heartbeat? && s.pending[move.t].drone.Some?
  }

  /** What a heartbeat tells the cache. */
  function Told(op: Op): Write
    requires op.Heartbeat?
  {
    Write(op.drone, op.spot.at, true)
  }

  /** A request waits while its name is taken by a cache write. */
  predicate NameTaken(w: World, act: Act) {
    match act
    case Do(move) => Beats(w.sys, move) && move.t in w.writes
    case Ask(id, _, _) => id in w.writes
    case _ => false
  }

  ghost function Next(w: World, act: Act, ttl: Lifetime): World {
    if NameTaken(w, act) then w
    else
      match act
      case Do(move) =>
        w.(sys := SystemNext(w.sys, move),
           writes := if Beats(w.sys, move)
                     then w.writes[move.t := Told(w.sys.pending[move.t].op)] else w.writes)
      case Ask(id, d, cacheUp) =>
        if (cacheUp && Cached(Seen(w), d).Some?) || d !in w.sys.c.drones then w
        else w.(writes := w.writes[id := Write(d, w.sys.c.drones[d].at, false)])
      case Land(id) =>
        if id !in w.writes then w
        else w.(cache := Enter(w.writes[id].drone, w.writes[id].at, Seen(w), ttl), writes := w.writes - {id})
      case Lose(id) => w.(writes := w.writes - {id})
      case Tick(n) => w.(now := w.now + n)
      case Evict(d) => w.(cache := w.cache - {d})
  }

  ghost function WorldAt(acts: seq<Act>, n: nat, ttl: Lifetime): World
    requires n <= |acts|
  {
    if n == 0 then World(BOOT, map[], 0, map[]) else Next(WorldAt(acts, n - 1, ttl), acts[n - 1], ttl)
  }

  lemma {:induction false} WorldSound(acts: seq<Act>, n: nat, ttl: Lifetime)
    requires n <= |acts|
    ensures Sound(WorldAt(acts, n, ttl).sys)
  {
    if n == 0 {
    } else {
      WorldSound(acts, n - 1, ttl);
      NextSound(WorldAt(acts, n - 1, ttl), acts[n - 1], ttl);
    }
  }

  lemma NextSound(w: World, act: Act, ttl: Lifetime)
    requires Sound(w.sys)
    ensures Sound(Next(w, act, ttl).sys)
  {
    if act.Do? { MoveSound(w.sys, act.move); }
  }

  // ---------------------------------------------------------------- where the table moves

  /** The act moves drone `d` in the table, to the location given: a heartbeat, a reset or a fix. */
  ghost function MovesTo(w: World, act: Act, d: DroneId): Option<Location> {
    if act.Do? && !NameTaken(w, act) && PutsOn(w.sys, act.move, d) then Some(Put(w.sys, act.move).at) else None
  }

  lemma TableMove(w: World, act: Act, d: DroneId, ttl: Lifetime)
    requires Sound(w.sys)
    ensures FromTable(Seen(Next(w, act, ttl)), d) ==
            if MovesTo(w, act, d).Some? then MovesTo(w, act, d) else FromTable(Seen(w), d)
  {
    if act.Do? && !NameTaken(w, act) { OnlyPutsMove(w.sys, act.move, d); }
  }

  /** The location of the latest such act among acts `i` to `n - 1`, if any. */
  ghost function MovedTo(acts: seq<Act>, i: nat, n: nat, d: DroneId, ttl: Lifetime): Option<Location>
    requires i <= n <= |acts|
    decreases n
  {
    if n == i then None
    else
      var moved := MovesTo(WorldAt(acts, n - 1, ttl), acts[n - 1], d);
      if moved.Some? then moved else MovedTo(acts, i, n - 1, d, ttl)
  }

  /** The table has the location of the latest heartbeat, reset or fix. */
  lemma {:induction false} TableFollowsPuts(acts: seq<Act>, i: nat, n: nat, d: DroneId, ttl: Lifetime)
    requires i <= n <= |acts|
    ensures var moved := MovedTo(acts, i, n, d, ttl);
            FromTable(Seen(WorldAt(acts, n, ttl)), d)
            == if moved.Some? then moved else FromTable(Seen(WorldAt(acts, i, ttl)), d)
    decreases n
  {
    if n == i {
    } else {
      TableFollowsPuts(acts, i, n - 1, d, ttl);
      WorldSound(acts, n - 1, ttl);
      TableMove(WorldAt(acts, n - 1, ttl), acts[n - 1], d, ttl);
    }
  }

  // ---------------------------------------------------------------- cache writes in time

  /** Pending write `id` says what the table says. */
  ghost predicate UpToDate(w: World, id: nat) {
    id in w.writes && FromTable(Seen(w), w.writes[id].drone) == Some(w.writes[id].at)
  }

  /** A cache write begun at act `i` is up to date at act `n` exactly when the drone has not been
      moved in between, or last to the same location. */
  lemma InTimeExactly(acts: seq<Act>, i: nat, n: nat, id: nat, p: Write, ttl: Lifetime)
    requires i <= n <= |acts| && UpToDate(WorldAt(acts, i, ttl), id)
    requires WorldAt(acts, i, ttl).writes[id] == p
    requires id in WorldAt(acts, n, ttl).writes && WorldAt(acts, n, ttl).writes[id] == p
    ensures var moved := MovedTo(acts, i, n, p.drone, ttl);
            UpToDate(WorldAt(acts, n, ttl), id) <==> moved.None? || moved.value == p.at
  {
    TableFollowsPuts(acts, i, n, p.drone, ttl);
  }

  /** A cache write keeps, or restores, the agreement exactly when it still says what the table
      says. */
  lemma LandKeepsAgreementExactly(w: World, id: nat, ttl: Lifetime)
    requires id in w.writes && forall d :: d != w.writes[id].drone ==> AgreesOn(Seen(w), d)
    ensures Agrees(Seen(Next(w, Land(id), ttl))) <==> UpToDate(w, id)
  {
    var t := Seen(Next(w, Land(id), ttl));
    var p := w.writes[id];
    assert Answer(t, p.drone) == Some(p.at);
    forall d | d != p.drone ensures AgreesOn(t, d) { assert AgreesOn(Seen(w), d); }
    if Agrees(t) { assert AgreesOn(t, p.drone); }
  }

  /** A write of a drone's row without a lock keeps the agreement exactly when no unexpired entry
      says anything else. */
  lemma PutKeepsAgreementExactly(w: World, move: Move, d: DroneId, ttl: Lifetime)
    requires Sound(w.sys) && Agrees(Seen(w)) && !NameTaken(w, Do(move)) && PutsOn(w.sys, move, d)
    ensures Agrees(Seen(Next(w, Do(move), ttl))) <==>
            Cached(Seen(w), d) == None || Cached(Seen(w), d) == Some(Put(w.sys, move).at)
  {
    var t := Seen(Next(w, Do(move), ttl));
    var kept := Cached(Seen(w), d) == None || Cached(Seen(w), d) == Some(Put(w.sys, move).at);
    forall e ensures AgreesOn(t, e) <==> (e == d ==> kept) {
      TableMove(w, Do(move), e, ttl);
      assert AgreesOn(Seen(w), e);
    }
    if Agrees(t) { assert AgreesOn(t, d); }
  }

  // ---------------------------------------------------------------- two races

  /** A heartbeat of a known drone, undivided. */
  lemma WholeHeartbeat(w: World, b: nat, d: DroneId, spot: Placed, now: int, ttl: Lifetime)
    requires b !in w.sys.pending && b !in w.writes && d in w.sys.c.drones
    requires Unlocked(w.sys.txs, DroneKey(d)) && SpotVerdict(spot).None?
    ensures var op := Heartbeat(d, spot, now);
            var w1 := Next(w, Do(Fetch(b, op, true)), ttl); var w2 := Next(w1, Do(Store(b)), ttl);
            var w3 := Next(w2, Land(b), ttl);
            w3 == w.(sys := w.sys.(c := HeartbeatEffect(w.sys.c, d, spot.at, now), log := w.sys.log + [op]),
                     cache := Enter(d, spot.at, Seen(w), ttl))
  {
    var op := Heartbeat(d, spot, now);
    var w1 := Next(w, Do(Fetch(b, op, true)), ttl);
    assert w1.sys.pending == w.sys.pending[b := Read(op, None, Some(w.sys.c.drones[d]))];
    assert w1.sys.pending - {b} == w.sys.pending;
    var w2 := Next(w1, Do(Store(b)), ttl);
    assert w2.writes - {b} == w.writes;
  }

  lemma AgreesAfterHeartbeat(v: View, t: View, d: DroneId, at: Location, now: int, ttl: Lifetime)
    requires t == View(HeartbeatEffect(v.db, d, at, now), Enter(d, at, v, ttl), v.now)
    requires forall e :: e != d ==> AgreesOn(v, e)
    ensures Agrees(t) && Answer(t, d) == Some(at)
  {
    forall e ensures AgreesOn(t, e) { assert e != d ==> AgreesOn(v, e); }
  }

  /** A query that read the table before a heartbeat and writes the cache after it leaves the old
      position there, and agreement survives exactly if the drone has not moved. */
  lemma LateQueryExactly(w: World, q: nat, cacheUp: bool, b: nat, d: DroneId, spot: Placed, now: int, ttl: Lifetime)
    requires Agrees(Seen(w)) && q != b && q !in w.writes && b !in w.writes && b !in w.sys.pending
    requires d in w.sys.c.drones && Unlocked(w.sys.txs, DroneKey(d)) && SpotVerdict(spot).None?
    requires !cacheUp || Cached(Seen(w), d).None?
    ensures var w1 := Next(w, Ask(q, d, cacheUp), ttl);
            var w2 := Next(w1, Do(Fetch(b, Heartbeat(d, spot, now), true)), ttl);
            var w3 := Next(w2, Do(Store(b)), ttl); var w4 := Next(w3, Land(b), ttl); var w5 := Next(w4, Land(q), ttl);
            && Agrees(Seen(w4)) && Answer(Seen(w5), d) == FromTable(Seen(w), d)
            && (Agrees(Seen(w5)) <==> spot.at == w.sys.c.drones[d].at)
  {
    var w1 := Next(w, Ask(q, d, cacheUp), ttl);
    WholeHeartbeat(w1, b, d, spot, now, ttl);
    var w4 := w1.(sys := w1.sys.(c := HeartbeatEffect(w1.sys.c, d, spot.at, now),
                                 log := w1.sys.log + [Heartbeat(d, spot, now)]),
                  cache := Enter(d, spot.at, Seen(w1), ttl));
    AgreesAfterHeartbeat(Seen(w), Seen(w4), d, spot.at, now, ttl);
    LandKeepsAgreementExactly(w4, q, ttl);
  }

  /** A fix that read a broken drone before its heartbeat and writes the row after it takes the
      table back to the old position, with no cache write late or lost; agreement survives exactly
      if the drone has not moved. */
  lemma StaleFixExactly(w: World, f: nat, b: nat, d: DroneId, spot: Placed, now: int, ttl: Lifetime)
    requires Sound(w.sys) && Agrees(Seen(w)) && f != b && f !in w.sys.pending && b !in w.sys.pending && b !in w.writes
    requires FixVerdict(w.sys.c, d).None? && Unlocked(w.sys.txs, DroneKey(d)) && SpotVerdict(spot).None?
    ensures var w1 := Next(w, Do(Fetch(f, Fix(d), true)), ttl);
            var w2 := Next(w1, Do(Fetch(b, Heartbeat(d, spot, now), true)), ttl);
            var w3 := Next(w2, Do(Store(b)), ttl); var w4 := Next(w3, Land(b), ttl);
            var w5 := Next(w4, Do(Store(f)), ttl);
            && Agrees(Seen(w4)) && Answer(Seen(w5), d) == Some(spot.at)
            && FromTable(Seen(w5), d) == FromTable(Seen(w), d)
            && (Agrees(Seen(w5)) <==> spot.at == w.sys.c.drones[d].at)
  {
    var w1 := Next(w, Do(Fetch(f, Fix(d), true)), ttl);
    assert w1.sys == w.sys.(pending := w.sys.pending[f := Read(Fix(d), None, Some(w.sys.c.drones[d]))]);
    WholeHeartbeat(w1, b, d, spot, now, ttl);
    var w4 := w1.(sys := w1.sys.(c := HeartbeatEffect(w1.sys.c, d, spot.at, now),
                                 log := w1.sys.log + [Heartbeat(d, spot, now)]),
                  cache := Enter(d, spot.at, Seen(w1), ttl));
    AgreesAfterHeartbeat(Seen(w), Seen(w4), d, spot.at, now, ttl);
    FixWrites(w4, f, d, w.sys.c.drones[d], ttl);
    RowKeepsAgreementExactly(Seen(w4), d, w.sys.c.drones[d].(status := Idle, order := None));
  }

  lemma FixWrites(w: World, f: nat, d: DroneId, row: DroneRow, ttl: Lifetime)
    requires f in w.sys.pending && w.sys.pending[f] == Read(Fix(d), None, Some(row))
    requires d in w.sys.c.drones && Unlocked(w.sys.txs, DroneKey(d))
    ensures Seen(Next(w, Do(Store(f)), ttl)) == Seen(w).(db := WriteBackFixed(w.sys.c, d, row))
  {
  }

  // ---------------------------------------------------------------- interleaved runs

  /** A heartbeat that still has to tell the cache of the table's location of `d`. */
  ghost predicate Coming(w: World, d: DroneId, id: nat) {
    UpToDate(w, id) && w.writes[id].beat && w.writes[id].drone == d
  }

  ghost predicate CurrentOn(w: World, d: DroneId) {
    AgreesOn(Seen(w), d) || exists id :: Coming(w, d, id)
  }

  /** The cache disagrees with the table about a drone only while a heartbeat is about to correct it. */
  ghost predicate Current(w: World) {
    forall d :: CurrentOn(w, d)
  }

  /** Another heartbeat than `id` is about to write location `at` of `d`. */
  ghost predicate AlsoComing(w: World, d: DroneId, at: Location, id: nat) {
    exists other :: other in w.writes && other != id && w.writes[other] == Write(d, at, true)
  }

  /** The acts that break this: a cache write that comes late; the loss of a heartbeat's; the reset
      or the fix of a drone that moves it away from an unexpired entry. Each only if no other
      heartbeat is about to write what the table then says. */
  ghost predicate Spoils(w: World, act: Act) {
    match act
    case Land(id) =>
      && id in w.writes && !UpToDate(w, id)
      && var d := w.writes[id].drone;
         FromTable(Seen(w), d).Some? ==> !AlsoComing(w, d, FromTable(Seen(w), d).value, id)
    case Lose(id) =>
      && id in w.writes && Coming(w, w.writes[id].drone, id)
      && !AgreesOn(Seen(w), w.writes[id].drone) && !AlsoComing(w, w.writes[id].drone, w.writes[id].at, id)
    case Do(move) =>
      && move.Store? && Stores(w.sys, move.t) && !w.sys.pending[move.t].op.AdminUpdate? && !Beats(w.sys, move)
      && var d := w.sys.pending[move.t].op.drone; var at := Put(w.sys, move).at;
         && PutsOn(w.sys, move, d) && Cached(Seen(w), d).Some? && Cached(Seen(w), d).value != at
         && forall id :: id in w.writes ==> w.writes[id] != Write(d, at, true)
    case _ => false
  }

  lemma LandCurrentExactly(w: World, id: nat, d: DroneId, ttl: Lifetime)
    requires CurrentOn(w, d) && id in w.writes
    ensures CurrentOn(Next(w, Land(id), ttl), d) <==> !(w.writes[id].drone == d && Spoils(w, Land(id)))
  {
    var t := Next(w, Land(id), ttl);
    forall k ensures Coming(t, d, k) <==> k != id && Coming(w, d, k) { }
    if w.writes[id].drone == d {
      assert Answer(Seen(t), d) == Some(w.writes[id].at);
      if k :| k in w.writes && k != id && FromTable(Seen(w), d).Some?
              && w.writes[k] == Write(d, FromTable(Seen(w), d).value, true) {
        assert Coming(w, d, k);
      }
    }
  }

  lemma LoseCurrentExactly(w: World, id: nat, d: DroneId, ttl: Lifetime)
    requires CurrentOn(w, d) && id in w.writes
    ensures CurrentOn(Next(w, Lose(id), ttl), d) <==> !(w.writes[id].drone == d && Spoils(w, Lose(id)))
  {
    var t := Next(w, Lose(id), ttl);
    forall k ensures Coming(t, d, k) <==> k != id && Coming(w, d, k) { }
    if w.writes[id].drone == d && Coming(w, d, id) {
      if k :| k in w.writes && k != id && w.writes[k] == Write(d, w.writes[id].at, true) {
        assert Coming(w, d, k);
      }
    }
  }

  lemma MoveCurrentExactly(w: World, move: Move, d: DroneId, ttl: Lifetime)
    requires Sound(w.sys) && CurrentOn(w, d) && !NameTaken(w, Do(move))
    ensures CurrentOn(Next(w, Do(move), ttl), d) <==> !(PutsOn(w.sys, move, d) && Spoils(w, Do(move)))
  {
    var t := Next(w, Do(move), ttl);
    TableMove(w, Do(move), d, ttl);
    if !PutsOn(w.sys, move, d) {
      forall k | Coming(w, d, k) ensures Coming(t, d, k) { }
    } else if Beats(w.sys, move) {
      assert Coming(t, d, move.t);
    } else {
      var at := Put(w.sys, move).at;
      forall k ensures Coming(t, d, k) <==> k in w.writes && w.writes[k] == Write(d, at, true) { }
    }
  }

  lemma OtherCurrent(w: World, act: Act, d: DroneId, ttl: Lifetime)
    requires CurrentOn(w, d) && (act.Ask? || act.Tick? || act.Evict?)
    ensures CurrentOn(Next(w, act, ttl), d)
  {
    var t := Next(w, act, ttl);
    forall k | Coming(w, d, k) ensures Coming(t, d, k) { }
  }

  /** The drone an act could spoil. */
  ghost predicate Touches(w: World, act: Act, d: DroneId) {
    match act
    case Land(id) => id in w.writes && w.writes[id].drone == d
    case Lose(id) => id in w.writes && w.writes[id].drone == d
    case Do(move) => PutsOn(w.sys, move, d)
    case _ => false
  }

  lemma CurrentOnExactly(w: World, act: Act, d: DroneId, ttl: Lifetime)
    requires Sound(w.sys) && CurrentOn(w, d)
    ensures CurrentOn(Next(w, act, ttl), d) <==> !(Touches(w, act, d) && !NameTaken(w, act) && Spoils(w, act))
  {
    if !NameTaken(w, act) {
      match act
      case Land(id) => if id in w.writes { LandCurrentExactly(w, id, d, ttl); }
      case Lose(id) =>
        if id in w.writes { LoseCurrentExactly(w, id, d, ttl); } else { assert w.writes - {id} == w.writes; }
      case Do(move) => MoveCurrentExactly(w, move, d, ttl);
      case _ => OtherCurrent(w, act, d, ttl);
    }
  }

  lemma SpoilsTouches(w: World, act: Act) returns (d: DroneId)
    requires Spoils(w, act)
    ensures Touches(w, act, d) && !NameTaken(w, act)
  {
    match act
    case Land(id) => d := w.writes[id].drone;
    case Lose(id) => d := w.writes[id].drone;
    case Do(move) => d := w.sys.pending[move.t].op.drone;
  }

  lemma NextCurrentExactly(w: World, act: Act, ttl: Lifetime)
    requires Sound(w.sys) && Current(w)
    ensures Current(Next(w, act, ttl)) <==> !Spoils(w, act)
  {
    var t := Next(w, act, ttl);
    forall d ensures CurrentOn(t, d) <==> !(Touches(w, act, d) && !NameTaken(w, act) && Spoils(w, act)) {
      assert CurrentOn(w, d);
      CurrentOnExactly(w, act, d, ttl);
    }
    if Spoils(w, act) {
      var d := SpoilsTouches(w, act);
      assert !CurrentOn(t, d);
    } else {
      assert forall d :: CurrentOn(t, d);
    }
  }

  ghost predicate AllCurrent(acts: seq<Act>, n: nat, ttl: Lifetime)
    requires n <= |acts|
  {
    Current(WorldAt(acts, n, ttl)) && (n == 0 || AllCurrent(acts, n - 1, ttl))
  }

  ghost predicate NothingSpoils(acts: seq<Act>, n: nat, ttl: Lifetime)
    requires n <= |acts|
  {
    n == 0 || (!Spoils(WorldAt(acts, n - 1, ttl), acts[n - 1]) && NothingSpoils(acts, n - 1, ttl))
  }

  /** Whatever the interleaving and whatever goes unanswered, the cache disagrees with the table
      about a drone only while a heartbeat is about to correct it, at every point of a run, exactly
      when no act of the run spoils that. */
  lemma {:induction false} CacheAgreesExactly(acts: seq<Act>, n: nat, ttl: Lifetime)
    requires n <= |acts|
    ensures AllCurrent(acts, n, ttl) <==> NothingSpoils(acts, n, ttl)
  {
    if n == 0 {
      assert forall d :: AgreesOn(Seen(WorldAt(acts, 0, ttl)), d);
    } else {
      CacheAgreesExactly(acts, n - 1, ttl);
      if AllCurrent(acts, n - 1, ttl) {
        CurrentNow(acts, n - 1, ttl);
        WorldSound(acts, n - 1, ttl);
        NextCurrentExactly(WorldAt(acts, n - 1, ttl), acts[n - 1], ttl);
      }
    }
  }

  lemma CurrentNow(acts: seq<Act>, n: nat, ttl: Lifetime)
    requires n <= |acts| && AllCurrent(acts, n, ttl)
    ensures Current(WorldAt(acts, n, ttl))
  {
  }

  /** So a query about a drone with no cache write under way answers what the table would. */
  lemma CacheAgrees(acts: seq<Act>, n: nat, d: DroneId, ttl: Lifetime)
    requires n <= |acts| && NothingSpoils(acts, n, ttl)
    requires var w := WorldAt(acts, n, ttl); forall id :: id in w.writes ==> w.writes[id].drone != d
    ensures Answer(Seen(WorldAt(acts, n, ttl)), d) == FromTable(Seen(WorldAt(acts, n, ttl)), d)
  {
    CacheAgreesExactly(acts, n, ttl);
    CurrentNow(acts, n, ttl);
    assert CurrentOn(WorldAt(acts, n, ttl), d);
  }

  // ---------------------------------------------------------------- what is found

  /** Act `i` writes the cache entry of `d`. */
  ghost predicate Lands(acts: seq<Act>, i: nat, d: DroneId, ttl: Lifetime)
    requires i < |acts|
  {
    var writes := WorldAt(acts, i, ttl).writes;
    acts[i].Land? && acts[i].id in writes && writes[acts[i].id].drone == d
  }

  /** Acts `i` to `n - 1` leave the entry of `d` alone. */
  ghost predicate Untouched(acts: seq<Act>, i: nat, n: nat, d: DroneId, ttl: Lifetime)
    requires n <= |acts|
  {
    forall k: nat {:trigger Lands(acts, k, d, ttl)} ::
      i <= k < n ==> !Lands(acts, k, d, ttl) && acts[k] != Evict(d)
  }

  /** Act `i` wrote `at` for `d`, the last thing to happen to that entry before act `n`. */
  ghost predicate LastWrite(acts: seq<Act>, i: nat, n: nat, d: DroneId, at: Location, ttl: Lifetime)
    requires n <= |acts|
  {
    && i < n && Lands(acts, i, d, ttl) && WorldAt(acts, i, ttl).writes[acts[i].id].at == at
    && Untouched(acts, i + 1, n, d, ttl)
  }

  lemma SameLastWrite(acts: seq<Act>, i: nat, n: nat, d: DroneId, at: Location, ttl: Lifetime)
    requires 0 < n <= |acts| && acts[n - 1] != Evict(d) && !Lands(acts, n - 1, d, ttl)
    ensures LastWrite(acts, i, n, d, at, ttl) <==> LastWrite(acts, i, n - 1, d, at, ttl)
  {
  }

  lemma EntryStep(w: World, act: Act, d: DroneId, ttl: Lifetime)
    ensures var e := Next(w, act, ttl).cache;
            if act.Land? && act.id in w.writes && w.writes[act.id].drone == d then
              d in e && e[d] == Entry(w.writes[act.id].at, w.now + ttl)
            else if act == Evict(d) then d !in e
            else (d in e <==> d in w.cache) && (d in e ==> e[d] == w.cache[d])
  {
  }

  lemma {:induction false} EntryOfLastWrite(acts: seq<Act>, n: nat, d: DroneId, entry: Entry, ttl: Lifetime)
    requires n <= |acts|
    ensures d in WorldAt(acts, n, ttl).cache && WorldAt(acts, n, ttl).cache[d] == entry <==>
            exists i :: LastWrite(acts, i, n, d, entry.at, ttl) && entry.expires == WorldAt(acts, i, ttl).now + ttl
  {
    if n == 0 {
    } else {
      var p := n - 1;
      EntryOfLastWrite(acts, p, d, entry, ttl);
      EntryStep(WorldAt(acts, p, ttl), acts[p], d, ttl);
      if Lands(acts, p, d, ttl) {
        assert Untouched(acts, n, n, d, ttl);
        assert forall i: nat :: LastWrite(acts, i, n, d, entry.at, ttl) ==> i == p;
        assert WorldAt(acts, p, ttl).writes[acts[p].id].at == entry.at ==> LastWrite(acts, p, n, d, entry.at, ttl);
      } else if acts[p] == Evict(d) {
        assert forall i: nat :: LastWrite(acts, i, n, d, entry.at, ttl) ==> i == p;
      } else {
        forall i ensures LastWrite(acts, i, n, d, entry.at, ttl) <==> LastWrite(acts, i, p, d, entry.at, ttl) {
          SameLastWrite(acts, i, n, d, entry.at, ttl);
        }
      }
    }
  }

  /** The cache finds a position exactly when the latest write for the drone is that position, is
      not a whole lifetime old and has not been dropped since. */
  lemma FindsLatestWrite(acts: seq<Act>, n: nat, d: DroneId, at: Location, ttl: Lifetime)
    requires n <= |acts|
    ensures Cached(Seen(WorldAt(acts, n, ttl)), d) == Some(at) <==>
            exists i :: LastWrite(acts, i, n, d, at, ttl) && WorldAt(acts, n, ttl).now < WorldAt(acts, i, ttl).now + ttl
  {
    var w := WorldAt(acts, n, ttl);
    if d in w.cache { EntryOfLastWrite(acts, n, d, w.cache[d], ttl); }
    if i :| LastWrite(acts, i, n, d, at, ttl) && w.now < WorldAt(acts, i, ttl).now + ttl {
      EntryOfLastWrite(acts, n, d, Entry(at, WorldAt(acts, i, ttl).now + ttl), ttl);
    }
  }
}
