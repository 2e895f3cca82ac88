/** The drone location cache, the handler that validates an order before it is placed, and the
    three operations that change a single row outside any transaction: heartbeat, admin fix and
    admin order update. */
module Services {
  import opened Domain
  import opened Protocol
  import opened Aggregates
  import opened Repositories
  import Delivery

  datatype Entry = Entry(at: Location, expires: int)

  type Entries = map<DroneId, Entry>

  function Lookup(entries: Entries, d: DroneId, now: int): Option<Location> {
    if d in entries && now < entries[d].expires then Some(entries[d].at) else None
  }

  class LocationCache {
    var entries: Entries
    var up: bool
    const ttl: Lifetime

    constructor (ttl: Lifetime)
      ensures this.ttl == ttl && entries == map[] && up
    {
      this.ttl := ttl;
      this.entries := map[];
      this.up := true;
    }

    method Set(d: DroneId, at: Location, now: int) returns (ok: bool)
      modifies this`entries
      ensures ok == up
      ensures entries == if ok then old(entries)[d := Entry(at, now + ttl)] else old(entries)
    {
      if up { entries := entries[d := Entry(at, now + ttl)]; }
      return up;
    }

    method Get(d: DroneId, now: int) returns (ok: bool, found: Option<Location>)
      ensures ok == up
      ensures found == if ok then Lookup(entries, d, now) else None
    {
      ok := up;
      found := if up && d in entries && now < entries[d].expires then Some(entries[d].at) else None;
    }
  }

  class DroneService {
    const db: Ext
    const cache: LocationCache

    constructor (db: Ext, cache: LocationCache)
      ensures this.db == db && this.cache == cache
    {
      this.db := db;
      this.cache := cache;
    }

    /** Any failing read counts as a missing drone, and the upsert that follows overwrites: an
        unknown drone is created, and a known one whose read was not answered is reset. */
    method EnsureExists(d: DroneId) returns (err: Option<Error>, drone: Drone)
      modifies db
      ensures fresh(drone) && drone.id == d
      ensures var s := old(db.Tables()); var first := old(db.uptime); var second := first.Next();
              if first.health > 0 && d in s.drones then
                err.None? && db.Tables() == s && db.uptime == second
              else if second.health > 0 then
                err.None? && db.Tables() == Reset(s, d) && db.uptime == second.Next()
              else
                err == Some(Internal) && db.Tables() == s
      ensures err.None? ==> drone.Row() == db.drones[d]
      ensures err.None? && !(old(db.uptime).health > 0 && d in old(db.drones)) ==>
              drone.Row() == DroneRow(Idle, Location(0.0, 0.0), None, None)
    {
      var e;
      e, drone := db.GetDrone(d);
      if e.Some? {
        drone := new Drone.New(d);
        e := db.UpsertDrone(drone);
        if e.Some? { return Some(Internal), drone; }
      }
      err := None;
    }

    /** The heartbeat stores the location in the table first and in the cache second. A failing
        cache write is reported, but the table keeps the new location. A failing update is
        reported, but the drone stays created, or reset. */
    method Heartbeat(d: DroneId, spot: Placed, now: int) returns (err: Option<Error>)
      modifies db, cache`entries
      ensures var s := old(db.Tables()); var t := db.Tables();
              var base := if old(db.uptime).health > 0 then EnrollEffect(s, d) else Reset(s, d);
        if SpotVerdict(spot).Some? then
          err == SpotVerdict(spot) && t == s && cache.entries == old(cache.entries)
        else if err.None? then
          && t == HeartbeatEffect(base, d, spot.at, now)
          && cache.entries == old(cache.entries)[d := Entry(spot.at, now + cache.ttl)]
        else
          && err == Some(Internal) && cache.entries == old(cache.entries)
          && (t == s || t == base || t == HeartbeatEffect(base, d, spot.at, now))
      ensures old(db.uptime).health >= 3 && SpotVerdict(spot).None? ==>
        db.Tables() == HeartbeatEffect(old(db.Tables()), d, spot.at, now)
      ensures old(db.uptime).health >= 3 && cache.up ==> err == SpotVerdict(spot)
      ensures err == Some(Validation) <==> !(-90.0 <= spot.at.lat <= 90.0 && -180.0 <= spot.at.lng <= 180.0)
      ensures err == Some(OutOfZone) <==>
              -90.0 <= spot.at.lat <= 90.0 && -180.0 <= spot.at.lng <= 180.0 && !spot.inZone
    {
      if !ValidLatLng(spot.at) { return Some(Validation); }
      if !spot.inZone { return Some(OutOfZone); }

      var drone;
      err, drone := EnsureExists(d);
      if err.Some? { return err; }

      drone.UpdateLocation(spot.at, now);
      var e := db.UpdateDrone(drone);
      if e.Some? { return Some(Internal); }

      var ok := cache.Set(d, spot.at, now);
      return if ok then None else Some(Internal);
    }

    /** Read-through: the cached position if there is one, else the table's, which is then cached. */
    method GetDroneLocation(d: DroneId, now: int) returns (err: Option<Error>, at: Option<Location>)
      modifies db`uptime, cache`entries
      ensures cache.up && Lookup(old(cache.entries), d, now).Some? ==>
        err.None? && at == Lookup(old(cache.entries), d, now) && cache.entries == old(cache.entries)
      ensures !(cache.up && Lookup(old(cache.entries), d, now).Some?) ==>
        if old(db.uptime).health == 0 || d !in db.drones then
          err.None? && at.None? && cache.entries == old(cache.entries)
        else if cache.up then
          && err.None? && at == Some(db.drones[d].at)
          && cache.entries == old(cache.entries)[d := Entry(db.drones[d].at, now + cache.ttl)]
        else err == Some(Internal) && cache.entries == old(cache.entries)
    {
      var ok, found := cache.Get(d, now);
      if ok && found.Some? { return None, found; }

      var e, drone := db.GetDrone(d);
      if e.Some? { return None, None; }
      ok := cache.Set(d, drone.at, now);
      if !ok { return Some(Internal), None; }
      return None, Some(drone.at);
    }
  }

  class OrderService {
    const db: Ext

    constructor (db: Ext)
      ensures this.db == db
    {
      this.db := db;
    }

    /** The answer of the zone test arrives with each location. */
    method ValidateLocation(spot: Placed) returns (err: Option<Error>)
      ensures err == SpotVerdict(spot)
      ensures err.None? <==> spot.inZone && -90.0 <= spot.at.lat <= 90.0 && -180.0 <= spot.at.lng <= 180.0
    {
      if !ValidLatLng(spot.at) { return Some(Validation); }
      if !spot.inZone { return Some(OutOfZone); }
      return None;
    }

    method AdminUpdateOrder(o: Uuid, origin: Option<Placed>, destination: Option<Placed>) returns (err: Option<Error>)
      modifies db
      ensures var s := old(db.Tables()); var verdict := AdminVerdict(s, o, origin, destination);
              Delivery.Outcome(s, db.Tables(), verdict,
                               if verdict.None? then AdminEffect(s, o, origin, destination) else s, err, old(db.uptime))
    {
      var e, order := db.GetOrder(o);
      if e.Some? { return Some(NotFound); }
      if origin.Some? {
        err := ValidateLocation(origin.value);
        if err.Some? { return err; }
        err := order.UpdateOrigin(origin.value.at);
        if err.Some? { return err; }
      }
      if destination.Some? {
        err := ValidateLocation(destination.value);
        if err.Some? { return err; }
        err := order.UpdateDestination(destination.value.at);
        if err.Some? { return err; }
      }
      e := db.UpdateOrder(order);
      return if e.Some? then Some(Internal) else None;
    }
  }

  class OrderHandler {
    const service: OrderService
    const delivery: Delivery.Repository

    constructor (service: OrderService, delivery: Delivery.Repository)
      ensures this.service == service && this.delivery == delivery
    {
      this.service := service;
      this.delivery := delivery;
    }

    /** Either location failing its validation is a validation error, outside the zone included. */
    method PlaceOrder(id: Uuid, sub: string, origin: Placed, destination: Placed, jobId: Uuid, now: int)
      returns (err: Option<Error>)
      modifies delivery.db
      ensures var s := old(delivery.db.Tables()); var t := delivery.db.Tables();
              if SpotVerdict(origin).Some? || SpotVerdict(destination).Some? then
                err == Some(Validation) && t == s
              else
                var verdict := CreateVerdict(s, id, jobId);
                var row := NewOrderRow(sub, origin.at, destination.at);
                Delivery.Outcome(s, t, verdict, if verdict.None? then CreateEffect(s, id, row, jobId, now) else s,
                                 err, old(delivery.db.uptime))
    {
      var o := new Order.New(id, sub, origin.at, destination.at);
      err := service.ValidateLocation(origin);
      if err.Some? { return Some(Validation); }
      err := service.ValidateLocation(destination);
      if err.Some? { return Some(Validation); }
      err := delivery.CreateOrderAndJob(o, jobId, now);
    }
  }

  class AdminService {
    const delivery: Delivery.Repository

    constructor (delivery: Delivery.Repository)
      ensures this.delivery == delivery
    {
      this.delivery := delivery;
    }

    method MarkDroneFixed(d: DroneId) returns (err: Option<Error>)
      modifies delivery.db
      ensures var s := old(delivery.db.Tables()); var verdict := FixVerdict(s, d);
              Delivery.Outcome(s, delivery.db.Tables(), verdict, if verdict.None? then FixEffect(s, d) else s,
                               err, old(delivery.db.uptime))
    {
      var db := delivery.db;
      var e, drone := db.GetDrone(d);
      if e.Some? { return Some(NotFound); }
      err := drone.MarkFixed();
      if err.Some? { return err; }
      e := db.UpdateDrone(drone);
      return if e.Some? then Some(Internal) else None;
    }

    method UpdateDroneStatus(d: DroneId, status: string, jobId: Uuid, now: int) returns (err: Option<Error>)
      modifies delivery.db
      ensures var s := old(delivery.db.Tables()); var t := delivery.db.Tables(); var uptime := old(delivery.db.uptime);
              if status == "broken" then
                var verdict := BreakVerdict(s, d, jobId);
                Delivery.Outcome(s, t, verdict, if verdict.None? then BreakEffect(s, d, jobId, now) else s, err, uptime)
              else if status == "fixed" then
                var verdict := FixVerdict(s, d);
                Delivery.Outcome(s, t, verdict, if verdict.None? then FixEffect(s, d) else s, err, uptime)
              else err == Some(Validation) && t == s
    {
      if status == "broken" {
        err := delivery.HandleDroneBroken(d, jobId, now);
      } else if status == "fixed" {
        err := MarkDroneFixed(d);
      } else {
        err := Some(Validation);
      }
    }
  }
}
