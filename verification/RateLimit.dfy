/** The sliding-window request limiter: per client and per class of path, with pruning of idle clients. */
module RateLimit {
  import opened Common

  const WINDOW := 60.0
  const PRUNE_AGE := 600.0
  const PRUNE_FROM := 1000

  datatype Request = Request(ip: string, heavy: bool, now: real)

  datatype Limits = Limits(general: int, heavy: int) {
    function For(heavyPath: bool): int { if heavyPath then heavy else general }
  }

  // ---------------------------------------------------------------- the limiter without any pruning

  // The times at which one client's requests of one class were let through.
  function Times(passed: seq<Request>, ip: string, heavy: bool): seq<real> {
    if passed == [] then []
    else
      var r, rest := passed[|passed| - 1], Times(passed[..|passed| - 1], ip, heavy);
      if r.ip == ip && r.heavy == heavy then rest + [r.now] else rest
  }

  function Fresh(ts: seq<real>, now: real): seq<real> {
    if ts == [] then []
    else
      var t, rest := ts[|ts| - 1], Fresh(ts[..|ts| - 1], now);
      if now - t < WINDOW then rest + [t] else rest
  }

  predicate Passes(limits: Limits, passed: seq<Request>, r: Request) {
    |Fresh(Times(passed, r.ip, r.heavy), r.now)| < limits.For(r.heavy)
  }

  function Handled(limits: Limits, passed: seq<Request>, r: Request): seq<Request> {
    if Passes(limits, passed, r) then passed + [r] else passed
  }

  function HandledAll(limits: Limits, rs: seq<Request>): seq<Request> {
    if rs == [] then [] else Handled(limits, HandledAll(limits, rs[..|rs| - 1]), rs[|rs| - 1])
  }

  function InInterval(ts: seq<real>, x: real): nat {
    if ts == [] then 0
    else InInterval(ts[..|ts| - 1], x) + if x <= ts[|ts| - 1] < x + 60.0 then 1 else 0
  }

  ghost predicate NoLaterThan(ts: seq<real>, now: real) { forall i :: 0 <= i < |ts| ==> ts[i] <= now }

  ghost predicate Ordered(rs: seq<Request>) { forall i, j :: 0 <= i < j < |rs| ==> rs[i].now <= rs[j].now }

  // What falls into an interval that is still open now is in the window now.
  lemma {:induction false} IntervalInWindow(ts: seq<real>, x: real, now: real)
    requires NoLaterThan(ts, now) && x <= now < x + WINDOW
    ensures InInterval(ts, x) <= |Fresh(ts, now)|
  {
    if ts != [] { IntervalInWindow(ts[..|ts| - 1], x, now); }
  }

  lemma {:induction false} TimesNoLater(limits: Limits, rs: seq<Request>, ip: string, heavy: bool, now: real)
    requires forall i :: 0 <= i < |rs| ==> rs[i].now <= now
    ensures NoLaterThan(Times(HandledAll(limits, rs), ip, heavy), now)
  {
    if rs != [] {
      var front := HandledAll(limits, rs[..|rs| - 1]);
      TimesNoLater(limits, rs[..|rs| - 1], ip, heavy, now);
      assert (front + [rs[|rs| - 1]])[..|front|] == front;
    }
  }

  // Over any run with a clock that does not go back, no interval of sixty seconds contains more
  // requests of one client and class than the limit for the class, and none at all if that is negative.
  lemma {:induction false} NoIntervalOverLimit(limits: Limits, rs: seq<Request>, ip: string, heavy: bool, x: real)
    requires Ordered(rs)
    ensures var n := InInterval(Times(HandledAll(limits, rs), ip, heavy), x);
            n <= (if heavy then limits.heavy else limits.general) || n == 0
  {
    if rs != [] {
      var front, r := rs[..|rs| - 1], rs[|rs| - 1];
      NoIntervalOverLimit(limits, front, ip, heavy, x);
      var passed := HandledAll(limits, front);
      assert (passed + [r])[..|passed|] == passed;
      var ts := Times(passed, ip, heavy);
      assert (ts + [r.now])[..|ts|] == ts;
      TimesNoLater(limits, front, ip, heavy, r.now);
      if x <= r.now < x + WINDOW { IntervalInWindow(ts, x, r.now); }
    }
  }

  // How many requests of a client and class were let through less than a window ago.
  function RecentCount(passed: seq<Request>, ip: string, heavy: bool, now: real): nat {
    if passed == [] then 0
    else
      var r := passed[|passed| - 1];
      RecentCount(passed[..|passed| - 1], ip, heavy, now)
      + if r.ip == ip && r.heavy == heavy && now - r.now < 60.0 then 1 else 0
  }

  // A request is refused exactly when the limit of its class is used up by the client's own requests of
  // that class in the last sixty seconds; nobody else's count.
  lemma {:induction false} RefusedExactlyAtLimit(limits: Limits, passed: seq<Request>, r: Request)
    ensures Passes(limits, passed, r) <==>
              RecentCount(passed, r.ip, r.heavy, r.now) < if r.heavy then limits.heavy else limits.general
  {
    CountIsWindow(passed, r.ip, r.heavy, r.now);
  }

  lemma {:induction false} CountIsWindow(passed: seq<Request>, ip: string, heavy: bool, now: real)
    ensures RecentCount(passed, ip, heavy, now) == |Fresh(Times(passed, ip, heavy), now)|
  {
    if passed != [] {
      var front, r := passed[..|passed| - 1], passed[|passed| - 1];
      CountIsWindow(front, ip, heavy, now);
      FreshSnoc(Times(front, ip, heavy), r.now, now);
    }
  }

  // ---------------------------------------------------------------- forgetting what is stale

  lemma {:induction false} FreshOfFresh(ts: seq<real>, now: real, later: real)
    requires now <= later
    ensures Fresh(Fresh(ts, now), later) == Fresh(ts, later)
  {
    if ts != [] {
      var front, t := ts[..|ts| - 1], ts[|ts| - 1];
      FreshOfFresh(front, now, later);
      var u := Fresh(front, now);
      assert (u + [t])[..|u|] == u;
    }
  }

  lemma FreshLater(a: seq<real>, b: seq<real>, now: real, later: real)
    requires now <= later && Fresh(a, now) == Fresh(b, now)
    ensures Fresh(a, later) == Fresh(b, later)
  {
    FreshOfFresh(a, now, later);
    FreshOfFresh(b, now, later);
  }

  lemma FreshSnoc(ts: seq<real>, t: real, now: real)
    ensures Fresh(ts + [t], now) == if now - t < WINDOW then Fresh(ts, now) + [t] else Fresh(ts, now)
  {
    assert (ts + [t])[..|ts|] == ts;
  }

  ghost predicate Rising(ts: seq<real>) { ts == [] || (Rising(ts[..|ts| - 1]) && NoLaterThan(ts, ts[|ts| - 1])) }

  lemma {:induction false} FreshRising(ts: seq<real>, now: real)
    requires Rising(ts)
    ensures Rising(Fresh(ts, now))
    ensures ts != [] ==> NoLaterThan(Fresh(ts, now), ts[|ts| - 1])
  {
    if ts != [] {
      var front, t := ts[..|ts| - 1], ts[|ts| - 1];
      FreshRising(front, now);
      var u := Fresh(front, now);
      if front != [] { assert front[|front| - 1] == ts[|ts| - 2]; }
      assert NoLaterThan(u, t);
      assert (u + [t])[..|u|] == u;
    }
  }

  lemma {:induction false} NoneFresh(ts: seq<real>, now: real)
    requires forall i :: 0 <= i < |ts| ==> now - ts[i] >= WINDOW
    ensures Fresh(ts, now) == []
  {
    if ts != [] { NoneFresh(ts[..|ts| - 1], now); }
  }

  type Store = map<string, seq<real>>

  function Get(store: Store, ip: string): seq<real> { if ip in store then store[ip] else [] }

  predicate Stale(ts: seq<real>, now: real) { ts == [] || now - ts[|ts| - 1] > PRUNE_AGE }

  // What the store holds for a client counts, now and later, as its whole history would.
  ghost predicate Tracks(store: Store, passed: seq<Request>, heavy: bool, clock: real) {
    forall ip :: Rising(Get(store, ip)) && NoLaterThan(Get(store, ip), clock)
              && Fresh(Get(store, ip), clock) == Fresh(Times(passed, ip, heavy), clock)
  }

  lemma TracksLater(store: Store, passed: seq<Request>, heavy: bool, clock: real, now: real)
    requires Tracks(store, passed, heavy, clock) && clock <= now
    ensures Tracks(store, passed, heavy, now)
  {
    forall ip ensures NoLaterThan(Get(store, ip), now) && Fresh(Get(store, ip), now) == Fresh(Times(passed, ip, heavy), now) {
      FreshLater(Get(store, ip), Times(passed, ip, heavy), clock, now);
    }
  }

  // Only a large store is swept, and then exactly the idle clients go.
  method Prune(store: Store, now: real) returns (kept: Store)
    ensures |store| < 1000 ==> kept == store
    ensures |store| >= 1000 ==>
              kept == map ip | ip in store && store[ip] != [] && now - store[ip][|store[ip]| - 1] <= 600.0 :: store[ip]
  {
    if |store| < PRUNE_FROM { return store; }
    var stale: set<string> := {};
    var todo := store.Keys;
    while todo != {}
      invariant todo <= store.Keys
      invariant forall ip :: ip in stale <==> ip in store && ip !in todo && Stale(store[ip], now)
    {
      var ip := PickAny(todo);
      todo := todo - {ip};
      if Stale(store[ip], now) { stale := stale + {ip}; }
    }
    kept := store;
    while stale != {}
      invariant forall ip :: ip in kept ==> ip in store && kept[ip] == store[ip]
      invariant forall ip :: ip in store ==> (ip !in kept || ip in stale <==> Stale(store[ip], now))
    {
      var ip := PickAny(stale);
      stale := stale - {ip};
      kept := kept - {ip};
    }
  }

  function Swept(store: Store, now: real): Store {
    if |store| < 1000 then store
    else map ip | ip in store && store[ip] != [] && now - store[ip][|store[ip]| - 1] <= 600.0 :: store[ip]
  }

  lemma PruneKeepsTracks(store: Store, passed: seq<Request>, heavy: bool, now: real, kept: Store)
    requires Tracks(store, passed, heavy, now)
    requires kept == store || kept == map ip | ip in store && !Stale(store[ip], now) :: store[ip]
    ensures Tracks(kept, passed, heavy, now)
  {
    forall ip ensures Rising(Get(kept, ip)) && NoLaterThan(Get(kept, ip), now)
                   && Fresh(Get(kept, ip), now) == Fresh(Times(passed, ip, heavy), now)
    {
      var ts := Get(store, ip);
      if ip in store && ip !in kept { NoneFresh(ts, now); }
    }
  }

  // ---------------------------------------------------------------- the limiter

  class Limiter {
    const limits: Limits
    var general: Store
    var heavyStore: Store
    ghost var passed: seq<Request>
    ghost var clock: real

    ghost predicate Valid() reads this {
      Tracks(general, passed, false, clock) && Tracks(heavyStore, passed, true, clock)
    }

    constructor (limits: Limits)
      ensures Valid() && this.limits == limits && passed == [] && clock == 0.0
    {
      this.limits := limits;
      general, heavyStore, passed, clock := map[], map[], [], 0.0;
    }

    method FreshTimes(ts: seq<real>, now: real) returns (window: seq<real>)
      ensures window == Fresh(ts, now)
    {
      window := [];
      for i := 0 to |ts|
        invariant window == Fresh(ts[..i], now)
      {
        assert ts[..i + 1][..i] == ts[..i];
        if now - ts[i] < WINDOW { window := window + [ts[i]]; }
      }
      assert ts[..|ts|] == ts;
    }

    // Both stores are pruned before a request is judged.
    method Sweep(now: real)
      requires Valid() && clock <= now
      modifies this
      ensures Valid() && clock == now && passed == old(passed)
      ensures general == Swept(old(general), now) && heavyStore == Swept(old(heavyStore), now)
    {
      TracksLater(general, passed, false, clock, now);
      TracksLater(heavyStore, passed, true, clock, now);
      clock := now;
      var g := Prune(general, now);
      PruneKeepsTracks(general, passed, false, now, g);
      general := g;
      var h := Prune(heavyStore, now);
      PruneKeepsTracks(heavyStore, passed, true, now, h);
      heavyStore := h;
    }

    // With pruning and with windows cut down to what is fresh, every decision is the one the whole
    // history calls for.
    method Handle(r: Request, bypass: bool) returns (ok: bool)
      requires Valid() && clock <= r.now
      modifies this
      ensures Valid()
      ensures bypass ==> ok && passed == old(passed) && clock == old(clock)
      ensures !bypass ==> ok == Passes(limits, old(passed), r) && clock == r.now
      ensures !bypass ==> passed == if ok then old(passed) + [r] else old(passed)
      ensures !bypass ==> SameButFor(Swept(old(general), r.now), general, r.ip)
      ensures !bypass ==> SameButFor(Swept(old(heavyStore), r.now), heavyStore, r.ip)
    {
      if bypass { return true; }
      Sweep(r.now);
      ok := Judge(r);
    }

    // The client's recent requests of the class decide; one that passes is recorded.
    method Judge(r: Request) returns (ok: bool)
      requires Valid() && clock == r.now
      modifies this
      ensures Valid() && clock == r.now
      ensures ok == Passes(limits, old(passed), r)
      ensures passed == if ok then old(passed) + [r] else old(passed)
      ensures SameButFor(old(general), general, r.ip) && SameButFor(old(heavyStore), heavyStore, r.ip)
    {
      var window := FreshTimes(Get(if r.heavy then heavyStore else general, r.ip), r.now);
      if |window| >= (if r.heavy then limits.heavy else limits.general) { return false; }
      if r.heavy {
        RecordKeepsTracks(heavyStore, passed, r);
        OtherKeepsTracks(general, passed, r);
        heavyStore := heavyStore[r.ip := window + [r.now]];
      } else {
        RecordKeepsTracks(general, passed, r);
        OtherKeepsTracks(heavyStore, passed, r);
        general := general[r.ip := window + [r.now]];
      }
      passed := passed + [r];
      return true;
    }
  }

  // Two stores agree on every other client.
  ghost predicate SameButFor(store: Store, store': Store, ip: string) { store - {ip} == store' - {ip} }

  lemma RecordKeepsTracks(store: Store, passed: seq<Request>, r: Request)
    requires Tracks(store, passed, r.heavy, r.now)
    ensures Tracks(store[r.ip := Fresh(Get(store, r.ip), r.now) + [r.now]], passed + [r], r.heavy, r.now)
  {
    var window := Fresh(Get(store, r.ip), r.now);
    var store' := store[r.ip := window + [r.now]];
    assert (passed + [r])[..|passed|] == passed;
    forall ip ensures Rising(Get(store', ip)) && NoLaterThan(Get(store', ip), r.now)
                   && Fresh(Get(store', ip), r.now) == Fresh(Times(passed + [r], ip, r.heavy), r.now)
    {
      if ip == r.ip { WindowRecorded(Get(store, ip), Times(passed, ip, r.heavy), r.now); }
    }
  }

  // Storing the fresh part of a list with the new time is as good as adding the time to the history.
  lemma WindowRecorded(ts: seq<real>, history: seq<real>, now: real)
    requires Rising(ts) && NoLaterThan(ts, now) && Fresh(ts, now) == Fresh(history, now)
    ensures var stored := Fresh(ts, now) + [now];
            Rising(stored) && NoLaterThan(stored, now) && Fresh(stored, now) == Fresh(history + [now], now)
  {
    var window := Fresh(ts, now);
    FreshRising(ts, now);
    FreshNoLater(ts, now, now);
    assert (window + [now])[..|window|] == window;
    FreshOfFresh(ts, now, now);
    FreshSnoc(window, now, now);
    FreshSnoc(history, now, now);
  }

  lemma {:induction false} FreshNoLater(ts: seq<real>, now: real, bound: real)
    requires NoLaterThan(ts, bound)
    ensures NoLaterThan(Fresh(ts, now), bound)
  {
    if ts != [] { FreshNoLater(ts[..|ts| - 1], now, bound); }
  }

  lemma OtherKeepsTracks(store: Store, passed: seq<Request>, r: Request)
    requires Tracks(store, passed, !r.heavy, r.now)
    ensures Tracks(store, passed + [r], !r.heavy, r.now)
  {
    assert (passed + [r])[..|passed|] == passed;
  }
}
