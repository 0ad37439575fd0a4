/** The per-route caches kept by the request handlers: the buses of each route
    with the time they were last refreshed, and each route's path geometry. */
module Handlers {
  import opened Vehicles
  import opened Routes

  type RouteId = string

  /** A route is polled again only when its cached buses are older than this
      many seconds. */
  const RefreshInterval: real := 12.0

  /** One cached route: when it was refreshed and the buses it then had. */
  datatype Entry = Entry(timestamp: real, buses: map<VehicleId, BusState>)

  /** The buses cached for `route`; none when the route was never fetched. */
  function CachedBuses(cache: map<RouteId, Entry>, route: RouteId): (m: map<VehicleId, BusState>)
    ensures route !in cache ==> m == map[]
    ensures route in cache ==> m == cache[route].buses
  {
    if route in cache then cache[route].buses else map[]
  }

  /** The refresh time cached for `route`; 0 when the route was never fetched. */
  function CachedTimestamp(cache: map<RouteId, Entry>, route: RouteId): (t: real)
    ensures route !in cache ==> t == 0.0
    ensures route in cache ==> t == cache[route].timestamp
  {
    if route in cache then cache[route].timestamp else 0.0
  }

  /** Whether a request for `route` at `now` polls the feed again. */
  predicate Due(cache: map<RouteId, Entry>, route: RouteId, now: real)
    ensures route !in cache ==> (Due(cache, route, now) <==> now > RefreshInterval)
  {
    now - CachedTimestamp(cache, route) > RefreshInterval
  }

  /** The cache after one request for `route` at `now`, where `reports` is what
      the feed would return: when the route is due, its entry becomes `now`
      and the merge of the cached buses with the poll; otherwise nothing
      changes. */
  function CacheStep(cache: map<RouteId, Entry>, route: RouteId, reports: seq<VehicleReport>, now: real)
    : (c: map<RouteId, Entry>)
    ensures c.Keys == if Due(cache, route, now) then cache.Keys + {route} else cache.Keys
    ensures forall r :: r in cache && r != route ==> c[r] == cache[r]
  {
    if Due(cache, route, now) then
      cache[route := Entry(now, UpdatedBuses(CachedBuses(cache, route), FreshBuses(reports, now), now))]
    else cache
  }

  /** A request refreshes its route exactly when the cached entry is more than
      `RefreshInterval` seconds old; a refresh stores the request time and the
      merged buses, and no other route's entry ever changes. */
  lemma StepRule(cache: map<RouteId, Entry>, route: RouteId, reports: seq<VehicleReport>, now: real)
    ensures var c := CacheStep(cache, route, reports, now);
      && (forall r :: r != route ==> CachedTimestamp(c, r) == CachedTimestamp(cache, r) && CachedBuses(c, r) == CachedBuses(cache, r))
      && (Due(cache, route, now) ==>
            && route in c && c[route].timestamp == now
            && c[route].buses == UpdatedBuses(CachedBuses(cache, route), FreshBuses(reports, now), now))
      && (!Due(cache, route, now) ==> c == cache)
  {
  }

  /** The buses a request returns are exactly the vehicles of the latest poll
      of that route. */
  lemma StepBusesArePolled(cache: map<RouteId, Entry>, route: RouteId, reports: seq<VehicleReport>, now: real)
    requires Due(cache, route, now)
    ensures CachedBuses(CacheStep(cache, route, reports, now), route).Keys
            == set i | 0 <= i < |reports| :: reports[i].id
  {
  }

  /** A route never fetched reads as refresh time 0 with no buses; once the
      clock is past `RefreshInterval` its first request stores the poll as
      it is, every bus with a fresh history. */
  lemma StepFirstFetch(cache: map<RouteId, Entry>, route: RouteId, reports: seq<VehicleReport>, now: real)
    requires route !in cache && now > RefreshInterval
    ensures CacheStep(cache, route, reports, now)[route] == Entry(now, FreshBuses(reports, now))
  {
  }

  /** At most one poll per route per `RefreshInterval`: a second request within
      that time returns what the first one stored, whatever the feed says. */
  lemma StepWithinInterval(cache: map<RouteId, Entry>, route: RouteId,
                                              reports: seq<VehicleReport>, reports': seq<VehicleReport>,
                                              now: real, later: real)
    requires Due(cache, route, now) && later <= now + RefreshInterval
    ensures var once := CacheStep(cache, route, reports, now);
            CacheStep(once, route, reports', later) == once
  {
  }

  /** Every cached route files each bus under its own vehicle id. */
  predicate CacheKeyedById(cache: map<RouteId, Entry>)
  {
    forall r :: r in cache ==> KeyedById(cache[r].buses)
  }

  /** A request keeps every cached bus filed under its own id. */
  lemma StepKeyedById(cache: map<RouteId, Entry>, route: RouteId, reports: seq<VehicleReport>, now: real)
    requires CacheKeyedById(cache)
    ensures CacheKeyedById(CacheStep(cache, route, reports, now))
  {
  }

  /** Route 77, one bus. A request at time 100 finds it reported just then at
      latitude 42.0; a request at 113 finds it reported 3 seconds earlier, at
      time 110, at latitude 42.01. A request at 115 is served from the cache
      (even an empty feed is not consulted) and shows the second report aged
      5 seconds, the first as its previous sample, and the bus estimated
      further along, at 42.015. */
  lemma StepScenario()
    ensures
      var first := [VehicleReport("0611", "77", "77_1_var0", 90, 42.0, -71.0, 0)];
      var second := [VehicleReport("0611", "77", "77_1_var0", 90, 42.01, -71.0, 3)];
      var c := CacheStep(CacheStep(map[], "77", first, 100.0), "77", second, 113.0);
      var bus := CachedBuses(c, "77")["0611"];
      && CacheStep(c, "77", [], 115.0) == c
      && CachedBuses(c, "77").Keys == {"0611"}
      && bus.cur == Sample(110.0, 42.01, -71.0)
      && bus.prev == Sample(100.0, 42.0, -71.0)
      && bus.Age(115.0) == 5.0
      && bus.ELat(115.0) == 42.015
      && bus.ELon(115.0) == -71.0
  {
  }

  // ---------------------------------------------------------------------
  // The handlers' caches as objects

  /** The class-level cache of the bus handler: route -> (refresh time, buses). */
  class BusesCache {
    var cache: map<RouteId, (real, map<VehicleId, Bus>)>

    /** Every cached route files each bus under its own id. */
    ghost predicate Valid()
      reads this
    {
      forall r :: r in cache ==> BusesKeyedById(cache[r].1)
    }

    /** Every bus object held by the cache. */
    ghost function Footprint(): set<Bus>
      reads this
    {
      set r, k | r in cache && k in cache[r].1 :: cache[r].1[k]
    }

    /** The field values of everything the cache holds. */
    ghost function Contents(): map<RouteId, Entry>
      reads this, Footprint()
    {
      map r | r in cache :: Entry(cache[r].0, Snapshot(cache[r].1))
    }

    /** Every bus of every cached route still has the state `before` records. */
    ghost predicate Unchanged(before: map<RouteId, Entry>)
      reads this, Footprint()
    {
      && before.Keys == cache.Keys
      && forall r :: r in cache ==> before[r] == Entry(cache[r].0, Snapshot(cache[r].1))
    }

    /** Helper: `Contents()` is determined route by route. */
    lemma ContentsAre(c: map<RouteId, Entry>)
      requires c.Keys == cache.Keys
      requires forall r :: r in cache ==> c[r] == Entry(cache[r].0, Snapshot(cache[r].1))
      ensures Contents() == c
    {
    }

    constructor ()
      ensures Valid() && Contents() == map[]
    {
      cache := map[];
    }

    /** The buses cached for `route`, or none. */
    function Buses(route: RouteId): (m: map<VehicleId, Bus>)
      reads this
      ensures route !in cache ==> m == map[]
      ensures route in cache ==> m == cache[route].1
    {
      if route in cache then cache[route].1 else map[]
    }

    /** The refresh time cached for `route`, or 0. */
    function Timestamp(route: RouteId): (t: real)
      reads this
      ensures route !in cache ==> t == 0.0
      ensures route in cache ==> t == cache[route].0
    {
      if route in cache then cache[route].0 else 0.0
    }

    /** One request for `route` at `now`, `reports` being the feed's answer if
        it is polled: refreshes the route when it is due and returns the buses
        now cached for it. */
    method Get(route: RouteId, reports: seq<VehicleReport>, now: real) returns (buses: map<VehicleId, Bus>)
      requires Valid()
      modifies this
      ensures Valid()
      ensures Contents() == CacheStep(old(Contents()), route, reports, now)
      ensures buses == Buses(route)
      ensures now - old(Timestamp(route)) <= RefreshInterval ==> cache == old(cache)
      ensures now - old(Timestamp(route)) > RefreshInterval ==> route in cache && Timestamp(route) == now
    {
      if now - Timestamp(route) > RefreshInterval {
        Refresh(route, reports, now);
      }
      buses := Buses(route);
    }

    /** Polls `route`, merges the poll into its cached buses and stores the
        result with time `now`. */
    method Refresh(route: RouteId, reports: seq<VehicleReport>, now: real)
      requires Valid()
      modifies this
      ensures Valid()
      ensures Contents() == old(Contents())[route := Entry(now, UpdatedBuses(CachedBuses(old(Contents()), route), FreshBuses(reports, now), now))]
      ensures route in cache && cache[route].0 == now
    {
      ghost var before := Contents();
      var oldBuses := Buses(route);
      assert Snapshot(oldBuses) == CachedBuses(before, route);
      var merged := PollAndMerge(oldBuses, reports, now);
      assert Unchanged(before);
      ghost var expected := before[route := Entry(now, Snapshot(merged))];
      ghost var unrefreshed := cache;
      cache := cache[route := (now, merged)];
      forall r | r in cache ensures expected[r] == Entry(cache[r].0, Snapshot(cache[r].1)) {
        if r != route {
          assert cache[r] == unrefreshed[r];
        }
      }
      ContentsAre(expected);
    }
  }

  /** A route's path geometry: a list of polylines of (lat, lon) points. */
  datatype Point = Point(lat: real, lon: real)
  type Path = seq<Point>

  /** The class-level cache of the path handler: each route's geometry is
      fetched on the first request and served from the cache ever after. */
  class PathsCache {
    var cache: map<RouteId, seq<Path>>

    constructor ()
      ensures cache == map[]
    {
      cache := map[];
    }

    /** One request for `route`, `fetched` being the feed's answer if it is
        asked: a cached route is served unchanged, an uncached one is stored. */
    method Get(route: RouteId, fetched: seq<Path>) returns (paths: seq<Path>)
      modifies this
      ensures route in old(cache) ==> cache == old(cache) && paths == old(cache)[route]
      ensures route !in old(cache) ==> cache == old(cache)[route := fetched] && paths == fetched
    {
      if route !in cache {
        cache := cache[route := fetched];
      }
      paths := cache[route];
    }
  }
}
