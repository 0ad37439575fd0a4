/** One route's set of buses, as the `BusRoute` class handles it (not the
    `Routes` request handler, which lists all routes): building the set from
    a feed poll, and merging a fresh poll with the previous one so that every
    bus keeps a two-sample history. */
module Routes {
  import opened Vehicles

  /** Seconds by which a report must be newer than the previous one before the
      history shifts. */
  const ShiftThreshold: real := 5.0

  /** Every entry of `m` is filed under its own vehicle id. */
  predicate KeyedById(m: map<VehicleId, BusState>)
  {
    forall k :: k in m ==> m[k].id == k
  }

  /** Every bus object of `m` is filed under its own vehicle id. */
  predicate BusesKeyedById(m: map<VehicleId, Bus>)
  {
    forall k :: k in m ==> m[k].id == k
  }

  /** The field values of every bus of `m`. */
  ghost function Snapshot(m: map<VehicleId, Bus>): (s: map<VehicleId, BusState>)
    reads m.Values
    ensures s.Keys == m.Keys
  {
    map k | k in m :: m[k].State()
  }

  /** Helper: a snapshot is determined by the state of each bus. */
  lemma SnapshotOf(m: map<VehicleId, Bus>, s: map<VehicleId, BusState>)
    requires m.Keys == s.Keys
    requires forall k :: k in m ==> m[k].State() == s[k]
    ensures Snapshot(m) == s
  {
  }

  // ---------------------------------------------------------------------
  // Building the id-keyed map of one poll

  /** The reports of one poll filed by vehicle id; when an id occurs more than
      once, the last report wins, as repeated dictionary stores do. */
  function IndexById(reports: seq<VehicleReport>): (m: map<VehicleId, VehicleReport>)
    ensures m.Keys == set i | 0 <= i < |reports| :: reports[i].id
    ensures forall k :: k in m ==> m[k].id == k && m[k] in reports
  {
    if reports == [] then map[]
    else
      var n := |reports| - 1;
      var front := reports[..n];
      var m0 := IndexById(front);
      assert forall i :: 0 <= i < n ==> front[i] == reports[i];
      assert (set i | 0 <= i < |reports| :: reports[i].id) == (set i | 0 <= i < n :: front[i].id) + {reports[n].id};
      m0[reports[n].id := reports[n]]
  }

  /** Each vehicle id is filed with its last report in the poll. */
  lemma {:induction false} IndexByIdLastWins(reports: seq<VehicleReport>, i: nat)
    requires i < |reports|
    requires forall j :: i < j < |reports| ==> reports[j].id != reports[i].id
    ensures reports[i].id in IndexById(reports) && IndexById(reports)[reports[i].id] == reports[i]
  {
    var n := |reports| - 1;
    if i < n {
      var front := reports[..n];
      assert forall j :: i < j < n ==> front[j] == reports[j];
      IndexByIdLastWins(front, i);
      assert reports[n].id != reports[i].id;
    }
  }

  /** The bus states a poll yields: one fresh history per vehicle id. */
  function FreshBuses(reports: seq<VehicleReport>, now: real): (m: map<VehicleId, BusState>)
    ensures m.Keys == IndexById(reports).Keys
    ensures KeyedById(m)
    ensures forall k :: k in m ==> m[k].prev == m[k].cur
  {
    var idx := IndexById(reports);
    map k | k in idx :: FromReport(idx[k], now)
  }

  /** Each polled bus carries the time and position of the last report with
      its id. */
  lemma FreshBusesLastReport(reports: seq<VehicleReport>, now: real, i: nat)
    requires i < |reports|
    requires forall j :: i < j < |reports| ==> reports[j].id != reports[i].id
    ensures FreshBuses(reports, now)[reports[i].id] == FromReport(reports[i], now)
  {
    IndexByIdLastWins(reports, i);
  }

  /** Helper: one more report updates the index at that report's id. */
  lemma IndexByIdSnoc(reports: seq<VehicleReport>, i: nat)
    requires i < |reports|
    ensures IndexById(reports[..i + 1]) == IndexById(reports[..i])[reports[i].id := reports[i]]
  {
    assert reports[..i + 1][..i] == reports[..i];
  }

  /** Builds the dictionary of new `Bus` objects for one poll received at `now`. */
  method BusHash(reports: seq<VehicleReport>, now: real) returns (m: map<VehicleId, Bus>)
    ensures BusesKeyedById(m)
    ensures forall k :: k in m ==> fresh(m[k])
    ensures Snapshot(m) == FreshBuses(reports, now)
  {
    m := map[];
    var i := 0;
    while i < |reports|
      invariant 0 <= i <= |reports|
      invariant BusesKeyedById(m)
      invariant forall k :: k in m ==> fresh(m[k])
      invariant m.Keys == IndexById(reports[..i]).Keys
      invariant forall k :: k in m ==> m[k].State() == FromReport(IndexById(reports[..i])[k], now)
    {
      IndexByIdSnoc(reports, i);
      var bus := new Bus(reports[i], now);
      m := m[bus.id := bus];
      i := i + 1;
    }
    assert reports[..i] == reports;
    SnapshotOf(m, FreshBuses(reports, now));
  }

  // ---------------------------------------------------------------------
  // Merging two polls

  /** The history of one newly polled bus after the merge: a bus not seen
      before keeps its fresh history; otherwise the previous sample becomes
      the old bus's current sample when the new report is at least
      `ShiftThreshold` seconds newer, and stays the old bus's previous sample
      when it is not. The old bus is looked up by the new bus's own id. */
  function MergeBus(oldBuses: map<VehicleId, BusState>, nb: BusState, now: real): (r: BusState)
    ensures r.(prev := nb.prev) == nb
    ensures nb.id !in oldBuses ==> r == nb
    ensures nb.id in oldBuses ==> r.prev in {oldBuses[nb.id].prev, oldBuses[nb.id].cur}
  {
    if nb.id !in oldBuses then nb
    else
      var ob := oldBuses[nb.id];
      if ob.Age(now) - nb.Age(now) < ShiftThreshold then nb.(prev := ob.prev)
      else nb.(prev := ob.cur)
  }

  /** The buses after a poll: exactly the newly polled ids, each with its
      merged history. */
  function UpdatedBuses(oldBuses: map<VehicleId, BusState>, newBuses: map<VehicleId, BusState>, now: real)
    : (r: map<VehicleId, BusState>)
    ensures r.Keys == newBuses.Keys
  {
    map k | k in newBuses :: MergeBus(oldBuses, newBuses[k], now)
  }

  /** The merge rule, stated with observation times: the clock reading plays
      no part. Everything but the previous sample comes from the new poll. */
  lemma UpdateRule(oldBuses: map<VehicleId, BusState>, newBuses: map<VehicleId, BusState>, now: real, k: VehicleId)
    requires k in newBuses
    ensures var nb, r := newBuses[k], UpdatedBuses(oldBuses, newBuses, now)[k];
      && r.(prev := nb.prev) == nb
      && (nb.id !in oldBuses ==> r.prev == nb.prev)
      && (nb.id in oldBuses && nb.cur.t - oldBuses[nb.id].cur.t < ShiftThreshold ==> r.prev == oldBuses[nb.id].prev)
      && (nb.id in oldBuses && nb.cur.t - oldBuses[nb.id].cur.t >= ShiftThreshold ==> r.prev == oldBuses[nb.id].cur)
  {
    if newBuses[k].id in oldBuses {
      AgeGap(oldBuses[newBuses[k].id], newBuses[k], now);
    }
  }

  /** Buses that are missing from the new poll are dropped; no bus lingers. */
  lemma UpdateDropsMissing(oldBuses: map<VehicleId, BusState>, newBuses: map<VehicleId, BusState>, now: real, k: VehicleId)
    requires k in oldBuses && k !in newBuses
    ensures k !in UpdatedBuses(oldBuses, newBuses, now)
  {
  }

  /** Merging into an empty history leaves the poll as it is. */
  lemma UpdateFromNothing(newBuses: map<VehicleId, BusState>, now: real)
    ensures UpdatedBuses(map[], newBuses, now) == newBuses
  {
  }

  /** The merge keeps every bus filed under its own id. */
  lemma UpdateKeyedById(oldBuses: map<VehicleId, BusState>, newBuses: map<VehicleId, BusState>, now: real)
    requires KeyedById(newBuses)
    ensures KeyedById(UpdatedBuses(oldBuses, newBuses, now))
  {
  }

  /** Merging the same poll a second time changes nothing, whenever it
      happens: every bus is then at most 0 seconds newer than itself, so its
      previous sample is kept. */
  lemma UpdateIdempotent(oldBuses: map<VehicleId, BusState>, newBuses: map<VehicleId, BusState>, now: real, later: real)
    requires KeyedById(newBuses)
    ensures var once := UpdatedBuses(oldBuses, newBuses, now);
            UpdatedBuses(once, newBuses, later) == once
  {
  }

  /** Every history lists its previous sample no later than its current one. */
  predicate Ordered(m: map<VehicleId, BusState>)
  {
    forall k :: k in m ==> m[k].prev.t <= m[k].cur.t
  }

  /** The order of the two samples is kept by a merge with a fresh poll whose
      reports are never older than the ones they replace. */
  lemma UpdateKeepsOrder(oldBuses: map<VehicleId, BusState>, newBuses: map<VehicleId, BusState>, now: real)
    requires Ordered(oldBuses) && Ordered(newBuses)
    requires forall k :: k in newBuses ==> newBuses[k].prev == newBuses[k].cur
    requires forall k :: k in newBuses && newBuses[k].id in oldBuses ==> oldBuses[newBuses[k].id].cur.t <= newBuses[k].cur.t
    ensures Ordered(UpdatedBuses(oldBuses, newBuses, now))
  {
  }

  /** With ordered old histories and a fresh poll, a merged history is out of
      order exactly when its new report is older than the previous sample it
      inherits from the old bus with the same id. */
  lemma UpdateOrderedExactly(oldBuses: map<VehicleId, BusState>, newBuses: map<VehicleId, BusState>, now: real, k: VehicleId)
    requires Ordered(oldBuses)
    requires k in newBuses && newBuses[k].prev == newBuses[k].cur
    ensures var nb, r := newBuses[k], UpdatedBuses(oldBuses, newBuses, now)[k];
            r.prev.t <= r.cur.t <==> (nb.id !in oldBuses || oldBuses[nb.id].prev.t <= nb.cur.t)
  {
    UpdateRule(oldBuses, newBuses, now, k);
  }

  /** The order is not kept when a report is older than the previous sample
      it inherits: a bus whose samples are both at time 100, reported again
      at time 98, keeps previous sample 100 and gets current sample 98. */
  lemma UpdateMayDisorder()
    ensures var ob := BusState("1", "77", "77_0", 0, Sample(100.0, 42.0, -71.0), Sample(100.0, 42.0, -71.0));
            var nb := BusState("1", "77", "77_0", 0, Sample(98.0, 42.0, -71.0), Sample(98.0, 42.0, -71.0));
            var r := UpdatedBuses(map["1" := ob], map["1" := nb], 120.0);
            Ordered(map["1" := ob]) && Ordered(map["1" := nb]) && !Ordered(r)
  {
    var ob := BusState("1", "77", "77_0", 0, Sample(100.0, 42.0, -71.0), Sample(100.0, 42.0, -71.0));
    var nb := BusState("1", "77", "77_0", 0, Sample(98.0, 42.0, -71.0), Sample(98.0, 42.0, -71.0));
    var r := UpdatedBuses(map["1" := ob], map["1" := nb], 120.0);
    assert r["1"].prev.t == 100.0;
  }

  /** The body of the merge loop for one new bus: overwrites its previous
      sample from the old bus with the same id, if there is one. */
  method MergeInto(oldBuses: map<VehicleId, Bus>, ghost olds: map<VehicleId, BusState>, nb: Bus, now: real)
    requires olds.Keys == oldBuses.Keys
    requires forall k :: k in oldBuses ==> oldBuses[k].State() == olds[k]
    requires nb !in oldBuses.Values
    modifies nb
    ensures nb.State() == MergeBus(olds, old(nb.State()), now)
  {
    if nb.id in oldBuses {
      var ob := oldBuses[nb.id];
      assert ob.State() == olds[nb.id];
      if ob.State().Age(now) - nb.State().Age(now) < ShiftThreshold {
        nb.oldT, nb.oldLat, nb.oldLon := ob.oldT, ob.oldLat, ob.oldLon;
      } else {
        nb.oldT, nb.oldLat, nb.oldLon := ob.t, ob.lat, ob.lon;
      }
    }
  }

  /** Merges a fresh poll into the buses of the previous poll, in place: each
      new bus's previous sample is overwritten according to `MergeBus`, and the
      new dictionary itself is returned. The new bus objects are distinct and
      none of them is an old bus, as they are when freshly built by `BusHash`. */
  method UpdateBuses(oldBuses: map<VehicleId, Bus>, newBuses: map<VehicleId, Bus>, now: real)
    returns (r: map<VehicleId, Bus>)
    requires forall a, b :: a in newBuses && b in newBuses && a != b ==> newBuses[a] != newBuses[b]
    requires newBuses.Values !! oldBuses.Values
    modifies newBuses.Values
    ensures r == newBuses
    ensures Snapshot(oldBuses) == old(Snapshot(oldBuses))
    ensures Snapshot(newBuses) == UpdatedBuses(old(Snapshot(oldBuses)), old(Snapshot(newBuses)), now)
  {
    ghost var olds := Snapshot(oldBuses);
    ghost var news := Snapshot(newBuses);
    var todo := newBuses.Keys;
    while todo != {}
      invariant todo <= newBuses.Keys
      invariant forall k :: k in oldBuses ==> oldBuses[k].State() == olds[k]
      invariant forall k :: k in todo ==> newBuses[k].State() == news[k]
      invariant forall k :: k in newBuses && k !in todo ==> newBuses[k].State() == MergeBus(olds, news[k], now)
      decreases todo
    {
      var k :| k in todo;
      MergeInto(oldBuses, olds, newBuses[k], now);
      todo := todo - {k};
    }
    SnapshotOf(oldBuses, olds);
    SnapshotOf(newBuses, UpdatedBuses(olds, news, now));
    r := newBuses;
  }

  /** One poll of a route merged into its previous buses: the new `Bus`
      objects built from `reports` get their histories from `oldBuses`, which
      are left as they were. */
  method PollAndMerge(oldBuses: map<VehicleId, Bus>, reports: seq<VehicleReport>, now: real)
    returns (merged: map<VehicleId, Bus>)
    ensures BusesKeyedById(merged)
    ensures forall k :: k in merged ==> fresh(merged[k])
    ensures Snapshot(merged) == UpdatedBuses(Snapshot(oldBuses), FreshBuses(reports, now), now)
  {
    var polled := BusHash(reports, now);
    merged := UpdateBuses(oldBuses, polled, now);
  }
}
