/** One tracked vehicle: its two-sample position history, the dead-reckoning
    estimate computed from that history, and its heading bucket. */
module Vehicles {
  import opened PyArith

  type VehicleId = string

  /** The attributes of one `vehicle` element of the vehicleLocations feed,
      already parsed into numbers. */
  datatype VehicleReport = VehicleReport(
    id: VehicleId,
    routeTag: string,
    dirTag: string,
    heading: int,
    lat: real,
    lon: real,
    secsSinceReport: int)

  /** A position observed at absolute time `t` (seconds since the epoch). */
  datatype Sample = Sample(t: real, lat: real, lon: real)

  /** The value of a `Bus` object's fields at one moment: the attributes taken
      from the feed, the current sample (`t`, `lat`, `lon`) and the previous
      sample (`oldT`, `oldLat`, `oldLon`). */
  datatype BusState = BusState(
    id: VehicleId,
    routeTag: string,
    dirTag: string,
    heading: int,
    cur: Sample,
    prev: Sample)
  {
    /** Seconds since the current sample was observed. */
    function Age(now: real): (a: real)
      ensures 0.0 <= a <==> cur.t <= now
    {
      now - cur.t
    }

    /** Seconds since the previous sample was observed. */
    function OldAge(now: real): (a: real)
      ensures 0.0 <= a <==> prev.t <= now
    {
      now - prev.t
    }

    /** The icon bucket of the reported heading. */
    function RoundedHeading(): (r: int)
      ensures 0 <= r < 120 && r % 3 == 0
    {
      RoundHeading(heading)
    }

    /** Estimated latitude at `now`, projected from the two samples. */
    function ELat(now: real): (r: real)
      ensures prev == cur ==> r == cur.lat
      ensures NoVelocity(prev.lat, cur.lat, prev.t, cur.t) ==> r == cur.lat
      ensures !NoVelocity(prev.lat, cur.lat, prev.t, cur.t) ==>
                cur.t != prev.t && (r - cur.lat) * (cur.t - prev.t) == (now - cur.t) * (cur.lat - prev.lat)
    {
      EstimatePos(prev.lat, cur.lat, prev.t, cur.t, now)
    }

    /** Estimated longitude at `now`, projected from the two samples. */
    function ELon(now: real): (r: real)
      ensures prev == cur ==> r == cur.lon
      ensures NoVelocity(prev.lon, cur.lon, prev.t, cur.t) ==> r == cur.lon
      ensures !NoVelocity(prev.lon, cur.lon, prev.t, cur.t) ==>
                cur.t != prev.t && (r - cur.lon) * (cur.t - prev.t) == (now - cur.t) * (cur.lon - prev.lon)
    {
      EstimatePos(prev.lon, cur.lon, prev.t, cur.t, now)
    }
  }

  /** The state of a `Bus` built from a feed report received at `now`: the
      report's age gives the observation time, and the previous sample is a
      copy of the current one. */
  function FromReport(r: VehicleReport, now: real): (s: BusState)
    ensures s.prev == s.cur
    ensures s.Age(now) == r.secsSinceReport as real
    ensures s.cur.lat == r.lat && s.cur.lon == r.lon
    ensures s.id == r.id && s.routeTag == r.routeTag && s.dirTag == r.dirTag && s.heading == r.heading
  {
    var sample := Sample(now - r.secsSinceReport as real, r.lat, r.lon);
    BusState(r.id, r.routeTag, r.dirTag, r.heading, sample, sample)
  }

  /** The age comparison made when merging histories does not depend on the
      clock reading: it compares the two observation times. */
  lemma AgeGap(ob: BusState, nb: BusState, now: real)
    ensures ob.Age(now) - nb.Age(now) == nb.cur.t - ob.cur.t
    ensures nb.Age(now) <= ob.Age(now) <==> ob.cur.t <= nb.cur.t
  {
  }

  /** A history whose previous sample is no later than its current one has a
      previous sample at least as old as the current one, and the difference
      of the two ages is the time between the samples at every clock reading. */
  lemma AgesOrdered(s: BusState, now: real)
    requires s.prev.t <= s.cur.t
    ensures s.Age(now) <= s.OldAge(now)
    ensures s.OldAge(now) - s.Age(now) == s.cur.t - s.prev.t
  {
  }

  // ---------------------------------------------------------------------
  // Dead reckoning

  /** Below this coordinate difference a vehicle counts as not moving. */
  const StationaryEpsilon: real := 0.00001

  function Abs(x: real): real { if x < 0.0 then -x else x }

  /** True when the two samples give no usable velocity: the coordinate has
      not moved, or both observation times have the same whole second. */
  predicate NoVelocity(li: real, lj: real, ti: real, tj: real)
    ensures ti == tj || li == lj ==> NoVelocity(li, lj, ti, tj)
  {
    Abs(li - lj) < StationaryEpsilon || TruncToInt(ti) == TruncToInt(tj)
  }

  /** One coordinate at time `tk`, extrapolated from the previous sample
      `(ti, li)` and the current sample `(tj, lj)`. Without a usable velocity
      it is the current value; otherwise it lies on the straight line through
      the two samples. */
  function EstimatePos(li: real, lj: real, ti: real, tj: real, tk: real): (lk: real)
    ensures NoVelocity(li, lj, ti, tj) ==> lk == lj
    ensures !NoVelocity(li, lj, ti, tj) ==>
              ti != tj && (lk - lj) * (tj - ti) == (tk - tj) * (lj - li)
  {
    if NoVelocity(li, lj, ti, tj) then lj
    else
      assert ti != tj;
      lj + (tk - tj) * (lj - li) / (tj - ti)
  }

  /** A stationary vehicle stays where it is, however much time passes. */
  lemma EstimateStationary(li: real, lj: real, ti: real, tj: real, tk: real, tk': real)
    requires Abs(li - lj) < StationaryEpsilon
    ensures EstimatePos(li, lj, ti, tj, tk) == EstimatePos(li, lj, ti, tj, tk') == lj
  {
  }

  /** Evaluated at the current sample's time, the estimate is the current value. */
  lemma EstimateAtCurrent(li: real, lj: real, ti: real, tj: real)
    ensures EstimatePos(li, lj, ti, tj, tj) == lj
  {
  }

  /** Evaluated at the previous sample's time, a moving estimate gives back the
      previous value: the line really passes through both samples. */
  lemma EstimateAtPrevious(li: real, lj: real, ti: real, tj: real)
    requires !NoVelocity(li, lj, ti, tj)
    ensures EstimatePos(li, lj, ti, tj, ti) == li
  {
    var lk := EstimatePos(li, lj, ti, tj, ti);
    assert (lk - lj) * (tj - ti) == (ti - tj) * (lj - li);
    assert (lk - li) * (tj - ti) == 0.0;
    ZeroProduct(lk - li, tj - ti);
  }

  /** Helper: a product of reals vanishes only when a factor does. */
  lemma ZeroProduct(x: real, d: real)
    requires x * d == 0.0 && d != 0.0
    ensures x == 0.0
  {
  }

  /** Helper: a non-negative product with a positive factor has a
      non-negative other factor. */
  lemma NonNegativeFactor(x: real, d: real)
    requires x * d >= 0.0 && d > 0.0
    ensures x >= 0.0
  {
  }

  /** The estimate moves at a constant velocity: between two evaluation times
      it changes by the velocity of the two samples times the elapsed time. */
  lemma EstimateConstantVelocity(li: real, lj: real, ti: real, tj: real, tk: real, tk': real)
    requires !NoVelocity(li, lj, ti, tj)
    ensures (EstimatePos(li, lj, ti, tj, tk') - EstimatePos(li, lj, ti, tj, tk)) * (tj - ti)
            == (tk' - tk) * (lj - li)
  {
  }

  /** A vehicle that moved forward between its samples keeps moving forward:
      the estimate never decreases as time goes on. */
  lemma EstimateMonotone(li: real, lj: real, ti: real, tj: real, tk: real, tk': real)
    requires !NoVelocity(li, lj, ti, tj)
    requires ti < tj && li < lj && tk <= tk'
    ensures EstimatePos(li, lj, ti, tj, tk) <= EstimatePos(li, lj, ti, tj, tk')
  {
    var a := EstimatePos(li, lj, ti, tj, tk);
    var b := EstimatePos(li, lj, ti, tj, tk');
    EstimateConstantVelocity(li, lj, ti, tj, tk, tk');
    assert (b - a) * (tj - ti) >= 0.0;
    NonNegativeFactor(b - a, tj - ti);
  }

  /** Samples (0, 0) and (10, 10) put the vehicle at 15 when evaluated at time 15. */
  lemma EstimateExample()
    ensures EstimatePos(0.0, 10.0, 0.0, 10.0, 15.0) == 15.0
  {
  }

  // ---------------------------------------------------------------------
  // Heading buckets

  /** `(int(int(heading)/3)*3) % 120` under Python 2: round down to a
      multiple of 3, then reduce modulo 120. */
  function RoundHeading(heading: int): (r: int)
    ensures 0 <= r < 120 && r % 3 == 0
  {
    var q := FloorDiv(heading, 3);
    var r := FloorMod(q * 3, 120);
    assert r == 3 * (q - 40 * FloorDiv(q * 3, 120));
    r
  }

  /** For headings in [0, 120) the bucket is the heading rounded down to a
      multiple of 3. */
  lemma RoundHeadingBucket(heading: int)
    requires 0 <= heading < 120
    ensures RoundHeading(heading) <= heading < RoundHeading(heading) + 3
  {
  }

  /** Two headings share a bucket exactly when their multiples of 3 agree
      modulo 120; in particular `h` and `h + 120` always share one. */
  lemma RoundHeadingSameBucket(h: int, h': int)
    ensures RoundHeading(h) == RoundHeading(h') <==> FloorMod(FloorDiv(h, 3), 40) == FloorMod(FloorDiv(h', 3), 40)
  {
  }

  /** A heading and the same heading plus a full 120 land in the same bucket. */
  lemma RoundHeadingPeriodic(h: int)
    ensures RoundHeading(h + 120) == RoundHeading(h)
  {
  }

  /** Python's floor semantics: heading -1 rounds down to -3, which is bucket
      117; south (180) falls in bucket 60, as does 60 itself. */
  lemma RoundHeadingExamples()
    ensures RoundHeading(-1) == 117
    ensures RoundHeading(180) == 60 == RoundHeading(60)
    ensures RoundHeading(359) == 117
  {
  }

  // ---------------------------------------------------------------------
  // The Bus object

  /** A tracked vehicle. The attributes copied from the feed and the current
      sample are fixed at construction; the previous sample is reassigned by
      the history merge. */
  class Bus {
    const id: VehicleId
    const routeTag: string
    const dirTag: string
    const heading: int
    const t: real
    const lat: real
    const lon: real
    var oldT: real
    var oldLat: real
    var oldLon: real

    /** The current value of every field. */
    function State(): BusState
      reads this
    {
      BusState(id, routeTag, dirTag, heading, Sample(t, lat, lon), Sample(oldT, oldLat, oldLon))
    }

    /** A bus built from one feed report received at `now`. */
    constructor (report: VehicleReport, now: real)
      ensures State() == FromReport(report, now)
    {
      id := report.id;
      routeTag := report.routeTag;
      dirTag := report.dirTag;
      heading := report.heading;
      lat := report.lat;
      lon := report.lon;
      var observed := now - report.secsSinceReport as real;
      t := observed;
      oldT := observed;
      oldLat := report.lat;
      oldLon := report.lon;
    }
  }
}
