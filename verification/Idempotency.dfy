/** Idempotent replay: the first successful response to a user's key is stored and replayed
    until it expires. */
module Idempotency {
  import opened Domain

  datatype Stored = Stored(body: string, expires: int)

  type Entries = map<string, Stored>

  function IdempotencyKey(user: string, key: string): string {
    "idempotency:" + user + ":" + key
  }

  function Lookup(entries: Entries, k: string, now: int): Option<string> {
    if k in entries && now < entries[k].expires then Some(entries[k].body) else None
  }

  /** SET IF ABSENT: an expired entry counts as absent. */
  function SetIfAbsent(entries: Entries, k: string, body: string, now: int, ttl: Lifetime): Entries {
    if Lookup(entries, k, now).Some? then entries else entries[k := Stored(body, now + ttl)]
  }

  predicate IsSuccess(status: int) {
    200 <= status < 300
  }

  class IdempotencyStore {
    var entries: Entries
    const ttl: Lifetime

    constructor (ttl: Lifetime)
      ensures this.ttl == ttl && entries == map[]
    {
      this.ttl := ttl;
      this.entries := map[];
    }

    /** `up` tells whether the store answers this command. */
    method Check(user: string, key: string, now: int, up: bool) returns (err: bool, found: Option<string>)
      ensures err == !up && found == if up then Lookup(entries, IdempotencyKey(user, key), now) else None
    {
      err := !up;
      found := if up then Lookup(entries, IdempotencyKey(user, key), now) else None;
    }

    method Set(user: string, key: string, response: string, now: int, up: bool) returns (err: bool)
      modifies this
      ensures err == !up
      ensures entries == if up then SetIfAbsent(old(entries), IdempotencyKey(user, key), response, now, ttl)
                         else old(entries)
    {
      if up { entries := SetIfAbsent(entries, IdempotencyKey(user, key), response, now, ttl); }
      return !up;
    }
  }

  /** The middleware around one request. `status` and `body` are what the handler answers if it
      is run between `start` and `end`; a failing check lets the request through unrecorded. */
  method Handle(store: IdempotencyStore, user: string, key: string, status: int, body: string,
                start: int, end: int, checkUp: bool, setUp: bool)
    returns (executed: bool, answer: (int, string))
    modifies store
    ensures var k := IdempotencyKey(user, key); var found := Lookup(old(store.entries), k, start);
            && executed == (key == "" || !checkUp || found.None?)
            && answer == (if executed then (status, body) else (200, found.value))
            && store.entries == if key != "" && checkUp && found.None? && 200 <= status <= 299 && setUp
                 then SetIfAbsent(old(store.entries), k, body, end, store.ttl)
                 else old(store.entries)
  {
    if key == "" { return true, (status, body); }

    var err, cached := store.Check(user, key, start, checkUp);
    if err { return true, (status, body); }
    if cached.Some? { return false, (200, cached.value); }

    if IsSuccess(status) {
      var _ := store.Set(user, key, body, end, setUp);
    }
    return true, (status, body);
  }

  // ---------------------------------------------------------------- interleaved requests

  /** Requests with their store key, the method and path they ask for, which is no part of the
      key, and whether the store answers them: `Enter` is the check,
      which either replays or starts the handler; `Leave` is the end of a running handler, which
      stores a success. */
  datatype Event =
    | Enter(request: nat, key: string, endpoint: string, now: int, up: bool)
    | Leave(request: nat, status: int, body: string, now: int, up: bool)

  /** A request inside its handler; one whose check failed is not recorded. */
  datatype Running = Running(key: string, endpoint: string, recorded: bool)

  datatype World = World(entries: Entries, running: map<nat, Running>)

  ghost function At(events: seq<Event>, n: nat, ttl: Lifetime): World
    requires n <= |events|
  {
    if n == 0 then World(map[], map[])
    else
      var w := At(events, n - 1, ttl);
      match events[n - 1]
      case Enter(r, k, endpoint, now, up) =>
        if up && Lookup(w.entries, k, now).Some? then w else w.(running := w.running[r := Running(k, endpoint, up)])
      case Leave(r, status, body, now, up) =>
        if r !in w.running then w
        else World(if IsSuccess(status) && w.running[r].recorded && up
                   then SetIfAbsent(w.entries, w.running[r].key, body, now, ttl) else w.entries,
                   w.running - {r})
  }

  /** The clock never goes back. */
  ghost predicate Timed(events: seq<Event>) {
    forall i, k :: 0 <= i < k < |events| ==> events[i].now <= events[k].now
  }

  ghost predicate RunsFor(w: World, request: nat, k: string) {
    request in w.running && w.running[request].key == k
  }

  /** Event `i` starts a handler for `k`. */
  ghost predicate Starts(events: seq<Event>, i: nat, k: string, ttl: Lifetime)
    requires i < |events|
  {
    && events[i].Enter? && events[i].key == k
    && (!events[i].up || Lookup(At(events, i, ttl).entries, k, events[i].now).None?)
  }

  /** Event `i` ends a handler for `k` with success. */
  ghost predicate Succeeds(events: seq<Event>, i: nat, k: string, ttl: Lifetime)
    requires i < |events|
  {
    events[i].Leave? && 200 <= events[i].status <= 299 && RunsFor(At(events, i, ttl), events[i].request, k)
  }

  /** Event `i` ends a handler for `k` with a success that reaches the store. */
  ghost predicate Records(events: seq<Event>, i: nat, k: string, ttl: Lifetime)
    requires i < |events|
  {
    Succeeds(events, i, k, ttl) && At(events, i, ttl).running[events[i].request].recorded && events[i].up
  }

  /** What an event does to the store: the end of a recorded handler with a status from 200 to 299,
      answered, with nothing unexpired stored for its key, stores its response; nothing else does. */
  lemma StoresExactlySuccesses(events: seq<Event>, n: nat, ttl: Lifetime)
    requires n < |events|
    ensures var w := At(events, n, ttl); var e := events[n];
            At(events, n + 1, ttl).entries ==
            if && e.Leave? && 200 <= e.status <= 299 && e.up
               && e.request in w.running && w.running[e.request].recorded
               && var k := w.running[e.request].key;
                  k in w.entries ==> w.entries[k].expires <= e.now
            then w.entries[w.running[e.request].key := Stored(e.body, e.now + ttl)]
            else w.entries
  {
  }

  /** A stored response never changes before it expires. */
  lemma {:induction false} StoredForItsLifetime(events: seq<Event>, i: nat, n: nat, k: string, ttl: Lifetime)
    requires Timed(events) && i <= n <= |events|
    requires k in At(events, i, ttl).entries
    requires n > i ==> events[n - 1].now < At(events, i, ttl).entries[k].expires
    ensures k in At(events, n, ttl).entries && At(events, n, ttl).entries[k] == At(events, i, ttl).entries[k]
    decreases n
  {
    if i == n {
    } else {
      if i < n - 1 { assert events[n - 2].now <= events[n - 1].now; }
      StoredForItsLifetime(events, i, n - 1, k, ttl);
    }
  }

  /** After the first success is stored, a handler starts for the key only if the store fails to
      answer its check, until the entry expires. */
  lemma NoStartAfterSuccess(events: seq<Event>, i: nat, n: nat, k: string, ttl: Lifetime)
    requires Timed(events) && i < n < |events| && Records(events, i, k, ttl)
    ensures k in At(events, i + 1, ttl).entries
    ensures events[n].now < At(events, i + 1, ttl).entries[k].expires ==>
              (Starts(events, n, k, ttl) <==> events[n].Enter? && events[n].key == k && !events[n].up)
  {
    var entry := At(events, i + 1, ttl).entries[k];
    if events[n].now < entry.expires {
      if i + 1 < n { assert events[n - 1].now <= events[n].now; }
      StoredForItsLifetime(events, i + 1, n, k, ttl);
    }
  }

  // ---------------------------------------------------------------- what is replayed

  /** Event `i` records a success for `k` when no earlier one is still within its lifetime. */
  ghost predicate FirstSuccess(events: seq<Event>, i: nat, k: string, ttl: Lifetime)
    requires i < |events|
    decreases i
  {
    && Records(events, i, k, ttl)
    && forall j: nat :: j < i && FirstSuccess(events, j, k, ttl) ==> events[i].now >= events[j].now + ttl
  }

  ghost predicate StoresAt(events: seq<Event>, i: nat, k: string, ttl: Lifetime)
    requires i < |events|
  {
    Records(events, i, k, ttl) && Lookup(At(events, i, ttl).entries, k, events[i].now).None?
  }

  lemma {:induction false} EntryWasStored(events: seq<Event>, n: nat, k: string, ttl: Lifetime) returns (i: nat)
    requires n <= |events| && k in At(events, n, ttl).entries
    ensures i < n && StoresAt(events, i, k, ttl)
    ensures At(events, n, ttl).entries[k] == Stored(events[i].body, events[i].now + ttl)
  {
    if StoresAt(events, n - 1, k, ttl) {
      i := n - 1;
    } else {
      i := EntryWasStored(events, n - 1, k, ttl);
    }
  }

  lemma {:induction false} StoresExactly(events: seq<Event>, i: nat, k: string, ttl: Lifetime)
    requires Timed(events) && i < |events|
    ensures StoresAt(events, i, k, ttl) <==> FirstSuccess(events, i, k, ttl)
    decreases i, 1
  {
    var found := Lookup(At(events, i, ttl).entries, k, events[i].now);
    assert i > 0 ==> events[i - 1].now <= events[i].now;
    if found.Some? {
      ReplaysExactly(events, i, k, events[i].now, found.value, ttl);
    } else {
      forall j: nat | j < i && FirstSuccess(events, j, k, ttl) ensures events[i].now >= events[j].now + ttl {
        ReplaysExactly(events, i, k, events[i].now, events[j].body, ttl);
      }
    }
  }

  /** At any time the store answers exactly with the response of the first recorded success that
      is still within its lifetime. */
  lemma {:induction false} ReplaysExactly(events: seq<Event>, n: nat, k: string, now: int, body: string, ttl: Lifetime)
    requires Timed(events) && n <= |events| && (n > 0 ==> events[n - 1].now <= now)
    ensures Lookup(At(events, n, ttl).entries, k, now) == Some(body) <==>
            exists i: nat :: i < n && FirstSuccess(events, i, k, ttl) && events[i].body == body
                             && now < events[i].now + ttl
    decreases n, 0
  {
    forall i: nat | i < n ensures StoresAt(events, i, k, ttl) <==> FirstSuccess(events, i, k, ttl) {
      StoresExactly(events, i, k, ttl);
    }
    if Lookup(At(events, n, ttl).entries, k, now) == Some(body) {
      var i := EntryWasStored(events, n, k, ttl);
      assert FirstSuccess(events, i, k, ttl);
    }
    if i: nat :| i < n && FirstSuccess(events, i, k, ttl) && events[i].body == body && now < events[i].now + ttl {
      assert At(events, i + 1, ttl).entries[k] == Stored(body, events[i].now + ttl);
      StoredForItsLifetime(events, i + 1, n, k, ttl);
    }
  }

  // ---------------------------------------------------------------- whose response it is

  /** The request of event `n` is answered from the store, with the response that event `i` stored. */
  ghost predicate ReplaysResponse(events: seq<Event>, n: nat, i: nat, ttl: Lifetime)
    requires n < |events|
  {
    && events[n].Enter? && events[n].up && i < n && FirstSuccess(events, i, events[n].key, ttl)
    && events[n].now < events[i].now + ttl
  }

  /** The handler that event `i` ends was started by event `j`. */
  ghost predicate StartedAt(events: seq<Event>, j: nat, i: nat, k: string, ttl: Lifetime)
    requires i < |events|
  {
    && j < i && Starts(events, j, k, ttl) && Succeeds(events, i, k, ttl) && events[j].request == events[i].request
    && events[j].endpoint == At(events, i, ttl).running[events[i].request].endpoint
    && events[j].up == At(events, i, ttl).running[events[i].request].recorded
  }

  /** Every running handler was started by a check for its key and endpoint that found nothing, or was
      not answered; and its end is recorded exactly if the check was answered. */
  lemma {:induction false} RunningWasStarted(events: seq<Event>, n: nat, request: nat, k: string, ttl: Lifetime)
    returns (j: nat)
    requires n <= |events| && RunsFor(At(events, n, ttl), request, k)
    ensures j < n && Starts(events, j, k, ttl) && events[j].request == request
    ensures events[j].endpoint == At(events, n, ttl).running[request].endpoint
    ensures events[j].up <==> At(events, n, ttl).running[request].recorded
  {
    if Starts(events, n - 1, k, ttl) && events[n - 1].request == request {
      j := n - 1;
    } else {
      j := RunningWasStarted(events, n - 1, request, k, ttl);
    }
  }

  /** A replayed response comes from one success, and it answers the endpoint asked for exactly when
      the request that succeeded had asked for the same: the store knows the key only. */
  lemma ReplayOrigin(events: seq<Event>, n: nat, ttl: Lifetime) returns (i: nat, j: nat)
    requires Timed(events) && n < |events| && events[n].Enter? && events[n].up
    requires Lookup(At(events, n, ttl).entries, events[n].key, events[n].now).Some?
    ensures ReplaysResponse(events, n, i, ttl) && forall l: nat :: ReplaysResponse(events, n, l, ttl) ==> l == i
    ensures Lookup(At(events, n, ttl).entries, events[n].key, events[n].now) == Some(events[i].body)
    ensures StartedAt(events, j, i, events[n].key, ttl) && events[j].up
  {
    var k := events[n].key;
    var body := Lookup(At(events, n, ttl).entries, k, events[n].now).value;
    assert n > 0 ==> events[n - 1].now <= events[n].now;
    ReplaysExactly(events, n, k, events[n].now, body, ttl);
    i :| i < n && FirstSuccess(events, i, k, ttl) && events[i].body == body && events[n].now < events[i].now + ttl;
    j := RunningWasStarted(events, i, events[i].request, k, ttl);
    forall l: nat | ReplaysResponse(events, n, l, ttl) ensures l == i {
      assert events[l].now <= events[n].now && events[i].now <= events[n].now;
    }
  }

  /** Event `n` is answered with the response to another endpoint. */
  ghost predicate Misanswered(events: seq<Event>, n: nat, ttl: Lifetime)
    requires n < |events|
  {
    exists i: nat, j: nat {:trigger StartedAt(events, j, i, events[n].key, ttl)} ::
      ReplaysResponse(events, n, i, ttl) && StartedAt(events, j, i, events[n].key, ttl)
      && events[j].endpoint != events[n].endpoint
  }

  lemma {:induction false} PrefixWorld(events: seq<Event>, more: seq<Event>, n: nat, ttl: Lifetime)
    requires n <= |events|
    ensures At(events + more, n, ttl) == At(events, n, ttl)
  {
    if n == 0 {
    } else {
      PrefixWorld(events, more, n - 1, ttl);
    }
  }

  lemma {:induction false} PrefixFirst(events: seq<Event>, more: seq<Event>, i: nat, k: string, ttl: Lifetime)
    requires i < |events|
    ensures FirstSuccess(events + more, i, k, ttl) <==> FirstSuccess(events, i, k, ttl)
  {
    PrefixWorld(events, more, i, ttl);
    forall j: nat | j < i ensures FirstSuccess(events + more, j, k, ttl) <==> FirstSuccess(events, j, k, ttl) {
      PrefixFirst(events, more, j, k, ttl);
    }
  }

  /** A response that has just been stored is what the next request for the key gets before it
      expires, and that is the wrong response exactly if the two ask for different endpoints. */
  lemma NextIsMisansweredExactly(events: seq<Event>, i: nat, next: Event, ttl: Lifetime)
    requires events != [] && i == |events| - 1 && next.Enter? && next.up
    requires Timed(events + [next]) && FirstSuccess(events, i, next.key, ttl) && next.now < events[i].now + ttl
    ensures Misanswered(events + [next], i + 1, ttl) <==>
            At(events, i, ttl).running[events[i].request].endpoint != next.endpoint
  {
    var all := events + [next];
    PrefixWorld(events, [next], i, ttl);
    PrefixFirst(events, [next], i, next.key, ttl);
    assert ReplaysResponse(all, i + 1, i, ttl);
    ReplaysExactly(all, i + 1, next.key, next.now, events[i].body, ttl);
    var l, j := ReplayOrigin(all, i + 1, ttl);
    assert l == i;
  }

  // ---------------------------------------------------------------- requests one after the other

  /** Each entry is followed at once by its own end, if it started. */
  ghost predicate Serial(events: seq<Event>) {
    forall i :: 0 <= i < |events| ==>
      if i % 2 == 0 then events[i].Enter? else events[i].Leave? && events[i].request == events[i - 1].request
  }

  lemma {:induction false} SerialIdle(events: seq<Event>, n: nat, ttl: Lifetime)
    requires Serial(events) && n <= |events| && n % 2 == 0
    ensures At(events, n, ttl).running == map[]
  {
    if n == 0 {
    } else {
      SerialIdle(events, n - 2, ttl);
      var v := At(events, n - 1, ttl);
      assert events[n - 2].Enter? && events[n - 1].Leave? && events[n - 2].request == events[n - 1].request;
      assert v.running.Keys <= {events[n - 1].request};
      assert v.running - {events[n - 1].request} == map[];
    }
  }

  /** In serial runs a key is executed successfully once in the lifetime of its entry, but for
      requests whose check the store does not answer. */
  lemma SerialExecutesOnce(events: seq<Event>, i: nat, n: nat, k: string, ttl: Lifetime)
    requires Timed(events) && Serial(events)
    requires i < n < |events| && Records(events, i, k, ttl) && Succeeds(events, n, k, ttl)
    ensures k in At(events, i + 1, ttl).entries
    ensures events[n - 1].up ==> events[n].now >= At(events, i + 1, ttl).entries[k].expires
  {
    SerialIdle(events, n - 1, ttl);
    assert Starts(events, n - 1, k, ttl) by {
      assert events[n - 1].Enter?;
      assert At(events, n, ttl).running[events[n].request].key == k;
    }
    NoStartAfterSuccess(events, i, n - 1, k, ttl);
    assert events[n - 1].now <= events[n].now;
  }

  // ---------------------------------------------------------------- overlapping requests

  /** Event `j` is an unanswered check of `request` for `k`. */
  ghost predicate Unchecked(events: seq<Event>, j: nat, request: nat, k: string)
    requires j < |events|
  {
    events[j].Enter? && events[j].request == request && events[j].key == k && !events[j].up
  }

  /** A request that is running for `k` at event `m` has been since the success at event `i`, if
      the response stored then has not expired, or else its check was not answered. */
  lemma {:induction false} RunningSince(events: seq<Event>, i: nat, m: nat, request: nat, k: string, ttl: Lifetime)
    requires Timed(events) && i < m <= |events| && Records(events, i, k, ttl)
    requires k in At(events, i + 1, ttl).entries
    requires m > i + 1 ==> events[m - 1].now < At(events, i + 1, ttl).entries[k].expires
    requires RunsFor(At(events, m, ttl), request, k)
    ensures RunsFor(At(events, i + 1, ttl), request, k) || exists j :: i < j < m && Unchecked(events, j, request, k)
    decreases m
  {
    if m == i + 1 {
    } else if Unchecked(events, m - 1, request, k) {
    } else {
      NoStartAfterSuccess(events, i, m - 1, k, ttl);
      assert !(Starts(events, m - 1, k, ttl) && events[m - 1].request == request);
      if m - 1 > i + 1 { assert events[m - 2].now <= events[m - 1].now; }
      RunningSince(events, i, m - 1, request, k, ttl);
    }
  }

  /** A second success before the first one's response expires is that of a request that was
      already in its handler when the first response was stored, or whose check failed since. */
  lemma SecondSuccessOverlapped(events: seq<Event>, i: nat, n: nat, k: string, ttl: Lifetime)
    requires Timed(events) && i < n < |events| && Records(events, i, k, ttl) && Succeeds(events, n, k, ttl)
    ensures k in At(events, i + 1, ttl).entries
    ensures events[n].now < At(events, i + 1, ttl).entries[k].expires ==>
              || RunsFor(At(events, i + 1, ttl), events[n].request, k)
              || exists j :: i < j < n && Unchecked(events, j, events[n].request, k)
  {
    NoStartAfterSuccess(events, i, n, k, ttl);
    if events[n].now < At(events, i + 1, ttl).entries[k].expires {
      assert i + 1 < n ==> events[n - 1].now <= events[n].now;
      RunningSince(events, i, n, events[n].request, k, ttl);
    }
  }

  /** Going on with `more`, all of whose checks are answered, there is another success for `k`
      before what is stored now expires. */
  ghost predicate SucceedsAgain(events: seq<Event>, more: seq<Event>, n: nat, k: string, ttl: Lifetime) {
    && Timed(events + more) && |events| <= n < |events + more|
    && (forall e :: e in more && e.Enter? ==> e.up)
    && Succeeds(events + more, n, k, ttl)
    && var entries := At(events, |events|, ttl).entries;
       k in entries && (events + more)[n].now < entries[k].expires
  }

  /** When a success has just been stored, and the store goes on answering, a second success for
      the key within the lifetime of the stored response is possible exactly if another request
      for the key is in its handler now. */
  lemma ExecutesAgainExactly(events: seq<Event>, k: string, ttl: Lifetime)
    requires Timed(events) && events != [] && Records(events, |events| - 1, k, ttl)
    ensures (exists more, n: nat :: SucceedsAgain(events, more, n, k, ttl)) <==>
            exists request :: RunsFor(At(events, |events|, ttl), request, k)
  {
    var i := |events| - 1;
    if more, n: nat :| SucceedsAgain(events, more, n, k, ttl) {
      PrefixWorld(events, more, i, ttl);
      PrefixWorld(events, more, i + 1, ttl);
      var request := (events + more)[n].request;
      SecondSuccessOverlapped(events + more, i, n, k, ttl);
      forall j | i < j < n ensures !Unchecked(events + more, j, request, k) {
        assert (events + more)[j] in more;
      }
      assert RunsFor(At(events, |events|, ttl), request, k);
    }
    if request :| RunsFor(At(events, |events|, ttl), request, k) {
      var more := [Leave(request, 200, "", events[i].now, true)];
      PrefixWorld(events, more, i + 1, ttl);
      assert SucceedsAgain(events, more, i + 1, k, ttl);
    }
  }

  /** Overlapping requests with one key may both execute: the store is consulted only before. */
  lemma OverlapExecutesTwice() returns (events: seq<Event>)
    ensures events == [Enter(1, "k", "POST", 0, true), Enter(2, "k", "POST", 0, true),
                       Leave(1, 201, "first", 1, true), Leave(2, 201, "second", 1, true)]
    ensures Timed(events) && Records(events, 2, "k", 300) && Succeeds(events, 3, "k", 300)
    ensures At(events, 4, 300).entries["k"].body == "first"
  {
    events := [Enter(1, "k", "POST", 0, true), Enter(2, "k", "POST", 0, true),
               Leave(1, 201, "first", 1, true), Leave(2, 201, "second", 1, true)];
    var waiting := Running("k", "POST", true);
    assert At(events, 1, 300) == World(map[], map[1 := waiting]);
    assert At(events, 2, 300) == World(map[], map[1 := waiting, 2 := waiting]);
    assert At(events, 3, 300) == World(map["k" := Stored("first", 301)], map[2 := waiting]);
    assert At(events, 4, 300).entries == map["k" := Stored("first", 301)];
  }

  // ---------------------------------------------------------------- the composed key

  lemma {:induction false} FirstColon(a: string, b: string, x: string, y: string)
    requires a + ":" + x == b + ":" + y && ':' !in a && ':' !in b
    ensures a == b && x == y
  {
    var s := a + ":" + x;
    assert s[|a|] == ':' && s[|b|] == ':';
    assert forall k :: 0 <= k < |a| ==> s[k] == a[k];
    assert forall k :: 0 <= k < |b| ==> s[k] == b[k];
    assert s[..|a|] == a && s[..|b|] == b;
    assert s[|a| + 1..] == x && s[|b| + 1..] == y;
  }

  /** The composed key tells two users' keys apart as long as user names contain no colon. */
  lemma KeysAreDistinct(user: string, key: string, other: string, otherKey: string)
    requires ':' !in user && ':' !in other
    ensures IdempotencyKey(user, key) == IdempotencyKey(other, otherKey) <==> user == other && key == otherKey
  {
    var p := "idempotency:";
    if IdempotencyKey(user, key) == IdempotencyKey(other, otherKey) {
      assert IdempotencyKey(user, key)[|p|..] == user + ":" + key;
      assert IdempotencyKey(other, otherKey)[|p|..] == other + ":" + otherKey;
      FirstColon(user, other, key, otherKey);
    }
  }

  /** With a colon in a user name they may coincide. */
  lemma KeysMayCoincide()
    ensures IdempotencyKey("a:b", "c") == IdempotencyKey("a", "b:c")
  {
  }

  lemma ComposedTail(user: string, key: string)
    ensures IdempotencyKey(user, key)[|"idempotency:"|..] == user + ":" + key
  {
  }

  /** Two users can collide exactly when one name, with a colon after it, begins the other. */
  lemma UsersCollideExactly(user: string, other: string)
    requires user != other
    ensures (exists key, otherKey :: IdempotencyKey(user, key) == IdempotencyKey(other, otherKey)) <==>
            user + ":" <= other || other + ":" <= user
  {
    if key, otherKey :| IdempotencyKey(user, key) == IdempotencyKey(other, otherKey) {
      ComposedTail(user, key);
      ComposedTail(other, otherKey);
      Begins(user, key, other, otherKey);
    }
    if user + ":" <= other {
      Collide(user, other);
    } else if other + ":" <= user {
      Collide(other, user);
    }
  }

  lemma Begins(a: string, x: string, b: string, y: string)
    requires a + ":" + x == b + ":" + y && a != b
    ensures a + ":" <= b || b + ":" <= a
  {
    var s := a + ":" + x;
    assert s[..|a|] == a && s[..|b|] == b && s[|a|] == ':' && s[|b|] == ':';
    if |a| < |b| {
      assert s[..|a| + 1] == a + ":";
    } else if |b| < |a| {
      assert s[..|b| + 1] == b + ":";
    }
  }

  lemma Collide(user: string, other: string)
    requires user + ":" <= other
    ensures exists key, otherKey :: IdempotencyKey(user, key) == IdempotencyKey(other, otherKey)
    ensures exists key, otherKey :: IdempotencyKey(other, key) == IdempotencyKey(user, otherKey)
  {
    var key := other[|user| + 1..] + ":";
    assert other == user + ":" + other[|user| + 1..];
    assert "idempotency:" + user + ":" + key == "idempotency:" + other + ":" + "";
    assert IdempotencyKey(user, key) == IdempotencyKey(other, "");
  }
}
