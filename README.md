# mbtaplot vehicle tracking, modelled in Dafny

mbtaplot draws MBTA buses on a map. Each request for a route's buses goes to
the `Buses` handler. At most once every 12 seconds, that handler polls the
NextBus vehicle feed for the route. It builds one `Bus` object per reported
vehicle and merges the new objects with the previous poll. The merge gives
every bus a two-sample history: a previous sample and a current sample. From
those two samples the client gets a dead-reckoned position ("elat"/"elon") and
a heading bucket that chooses the bus icon. The `Paths` handler keeps each
route's path geometry after its first request.

The Dafny project models that core of `mbtaplot.py`:

- `pyarith.dfy` (module `PyArith`): the Python 2 operators the code relies on.
  `int(x)` on a float truncates toward zero. `/` on integers floors. `%` takes
  the sign of the divisor. Dafny's own `/` and `%` are Euclidean, so each of
  these is written out.
- `vehicles.dfy` (module `Vehicles`): the feed report, the `Bus` class and the
  value of its fields (`BusState`: current and previous `Sample`). It holds
  `age`/`oldAge`, the dead-reckoning rule `estimate_pos` with `elat`/`elon`,
  and `round_heading`.
  - `Bus` is a class. The attributes copied from the feed and the current
    sample are `const`, because nothing reassigns them after `__init__`. The
    previous sample (`oldT`, `oldLat`, `oldLon`) is `var`, because
    `update_buses` overwrites it in place.
- `routes.dfy` (module `Routes`): `BusRoute.buses` and `BusRoute.update_buses`.
  The module models the `BusRoute` class, not the `Routes` request handler.
  - `BusHash` builds the id-keyed dictionary of new `Bus` objects in a loop.
  - `UpdateBuses` walks the new dictionary and overwrites each new bus's
    previous sample.
  - Both are proved against pure specifications: `IndexById`/`FreshBuses`,
    and `MergeBus`/`UpdatedBuses`.
- `handlers.dfy` (module `Handlers`): the class-level caches of the `Buses` and
  `Paths` handlers.
  - `BusesCache.Get` is proved against `CacheStep`, a pure function on the
    cache's value. The lemmas about `CacheStep` state the refresh rule.

The clock (`time.time()`) becomes a parameter `now`. The feed's answer becomes
a parameter: a sequence of parsed `VehicleReport`s, or the fetched path list.
Coordinates and times are `real`; headings and report ages are `int`.

Some behaviours of the code are worth knowing before reading the lemmas:

- A report less than 5 s newer than the bus's last one still replaces the
  current sample; only the previous sample is kept from the old bus
  (`UpdateRule`).
- "Previous sample no later than current sample" is kept when no report is
  older than the one it replaces (`UpdateKeepsOrder`). A history goes out of
  order exactly when its new report is older than the previous sample it
  inherits (`UpdateOrderedExactly`); `UpdateMayDisorder` is a concrete case.
- Heading buckets wrap at 120 (`(h/3*3) % 120`), so a heading `h` and
  `h + 120` share an icon (`RoundHeadingPeriodic`). South (180) shows the icon
  of 60 (`RoundHeadingExamples`), although `mkicons.py` draws icons for 0 to
  357.
- A route is refreshed only when more than 12 s have passed since its last
  refresh, so `StepScenario` makes its second request at 113, 13 s after the
  first, with a report that is 3 s old.

## Model

| member | source | states |
|---|---|---|
| `PyArith.TruncToInt` | mbtaplot.py:45 | `int()` of a float lies within one unit of it, rounding toward zero on both sides of 0 |
| `PyArith.FloorDiv` | mbtaplot.py:36 | Python 2 integer division is the floor of the quotient, for either sign of divisor |
| `PyArith.FloorMod` | mbtaplot.py:36 | Python `%` completes `FloorDiv` (`a == b*q + r`) and carries the divisor's sign |
| `Vehicles.FromReport` | mbtaplot.py:16-24 | a bus built from a report has previous sample equal to current, age equal to the report's seconds since report, and the report's id, route, direction, heading and position |
| `Vehicles.Bus.constructor` | mbtaplot.py:16-24 | the new object's fields are exactly `FromReport(report, now)` |
| `Vehicles.BusState.Age` | mbtaplot.py:26-28 | the age is non-negative exactly when the current sample was observed no later than `now` |
| `Vehicles.BusState.OldAge` | mbtaplot.py:30-32 | the previous sample's age is non-negative exactly when it was observed no later than `now` |
| `Vehicles.AgesOrdered` | mbtaplot.py:26-32 | with samples in order the previous sample is at least as old as the current one, and the two ages differ by the time between the samples at every clock reading |
| `Vehicles.AgeGap` | mbtaplot.py:26-32 | the difference of two ages is the difference of the observation times, whatever the clock reads |
| `Vehicles.NoVelocity` | mbtaplot.py:45 | two samples at the same time, or at the same position, never give a velocity (so the estimate never divides by zero) |
| `Vehicles.EstimatePos` | mbtaplot.py:38-53 | without usable velocity (move < 0.00001 or same whole second) the estimate is the current value; otherwise the two times differ and the estimate lies on the line through both samples |
| `Vehicles.EstimateStationary` | mbtaplot.py:45-46 | a coordinate that moved less than 0.00001 is returned unchanged at every time |
| `Vehicles.EstimateAtCurrent` | mbtaplot.py:45-53 | evaluated at the current sample's time the estimate is the current value |
| `Vehicles.EstimateAtPrevious` | mbtaplot.py:48-53 | for a moving vehicle, evaluated at the previous sample's time the estimate is the previous value |
| `Vehicles.EstimateConstantVelocity` | mbtaplot.py:51 | the estimate changes by the two samples' velocity times the elapsed time |
| `Vehicles.EstimateMonotone` | mbtaplot.py:51 | a vehicle that moved forward keeps moving forward: the estimate never decreases with time |
| `Vehicles.EstimateExample` | mbtaplot.py:45-53 | samples (0, 0) and (10, 10) evaluated at 15 give 15 |
| `Vehicles.BusState.ELat` | mbtaplot.py:55-57 | a bus seen once reports its own latitude; without a usable velocity (`NoVelocity`) the estimate is the current latitude; with one, the two times differ and the estimate lies on the line through both samples |
| `Vehicles.BusState.ELon` | mbtaplot.py:59-61 | a bus seen once reports its own longitude; without a usable velocity the estimate is the current longitude; with one, the two times differ and the estimate lies on the line through both samples |
| `Vehicles.RoundHeading` | mbtaplot.py:34-36 | the bucket is in [0, 120) and a multiple of 3, for every integer heading |
| `Vehicles.BusState.RoundedHeading` | mbtaplot.py:34-36 | a bus's heading bucket is in [0, 120) and a multiple of 3 |
| `Vehicles.RoundHeadingBucket` | mbtaplot.py:36 | a heading in [0, 120) is rounded down to a multiple of 3, by less than 3 |
| `Vehicles.RoundHeadingSameBucket` | mbtaplot.py:36 | two headings share a bucket if and only if their floors divided by 3 agree modulo 40 |
| `Vehicles.RoundHeadingPeriodic` | mbtaplot.py:36 | `h` and `h + 120` always share a bucket |
| `Vehicles.RoundHeadingExamples` | mbtaplot.py:36 | -1 goes to 117 (floor semantics); 180 and 60 both go to 60; 359 goes to 117 |
| `Routes.IndexById` | mbtaplot.py:108-113 | the poll's dictionary has exactly the reported ids, each filed with a report of that id |
| `Routes.IndexByIdLastWins` | mbtaplot.py:109-111 | an id reported several times is filed with its last report |
| `Routes.FreshBuses` | mbtaplot.py:108-113 | the poll's buses are filed under their own ids, each with previous sample equal to current |
| `Routes.FreshBusesLastReport` | mbtaplot.py:108-111 | each polled bus carries the observation time and position of the last report with its id (`FromReport` of that report) |
| `Routes.BusHash` | mbtaplot.py:96-113 | the dictionary holds fresh `Bus` objects filed by id whose fields are `FreshBuses(reports, now)` |
| `Routes.MergeBus` | mbtaplot.py:118-133 | the merged bus is the new bus except for its previous sample; an unseen id keeps the new bus as it is; otherwise the previous sample is the old bus's previous or current sample. Which one, by the 5 s rule, is stated by `UpdateRule` |
| `Routes.UpdatedBuses` | mbtaplot.py:115-135 | the merged dictionary has exactly the ids of the new poll |
| `Routes.UpdateRule` | mbtaplot.py:117-133 | current sample, id, route, direction and heading come from the new poll. An unseen bus keeps its fresh history. A report less than 5 s newer keeps the old previous sample; otherwise the old current sample becomes the previous one |
| `Routes.UpdateDropsMissing` | mbtaplot.py:116-135 | an id missing from the new poll is dropped |
| `Routes.UpdateFromNothing` | mbtaplot.py:118-121 | merging into no previous buses leaves the poll unchanged |
| `Routes.UpdateKeyedById` | mbtaplot.py:119 | the merge keeps every bus filed under its own id |
| `Routes.UpdateIdempotent` | mbtaplot.py:123-129 | merging the same poll again, at any time, changes nothing |
| `Routes.UpdateKeepsOrder` | mbtaplot.py:123-133 | previous-not-after-current is kept when no report is older than the one it replaces |
| `Routes.UpdateMayDisorder` | mbtaplot.py:123-129 | a concrete case: a bus with both samples at 100, reported again at 98, keeps previous sample 100 with current sample 98, so its history is out of order |
| `Routes.UpdateOrderedExactly` | mbtaplot.py:123-133 | with ordered old histories, a merged history is in order if and only if the bus is new or its report is no older than the previous sample it inherits |
| `Routes.MergeInto` | mbtaplot.py:118-133 | one loop step: the new bus's fields become `MergeBus` of the old buses and its former fields |
| `Routes.UpdateBuses` | mbtaplot.py:115-135 | returns the new dictionary, whose buses' fields are now `UpdatedBuses` of the previous ones; old buses are untouched |
| `Routes.PollAndMerge` | mbtaplot.py:198-199 | a poll merged into a route's buses gives fresh objects filed by id whose fields are `UpdatedBuses(old, FreshBuses(reports, now))` |
| `Handlers.CachedBuses` | mbtaplot.py:180-185 | an uncached route has no buses; a cached one has the stored buses |
| `Handlers.CachedTimestamp` | mbtaplot.py:187-192 | an uncached route reads as time 0; a cached one as the stored time |
| `Handlers.Due` | mbtaplot.py:196-197 | a route never fetched reads as time 0, so it is due exactly when the clock is past 12 |
| `Handlers.CacheStep` | mbtaplot.py:194-200 | a request adds at most its own route to the cache and leaves every other route's entry as it was; the full refresh rule is stated by `StepRule` |
| `Handlers.StepRule` | mbtaplot.py:194-200 | a request refreshes its route exactly when `now` minus the stored time exceeds 12; a refresh stores `now` and the merged buses; no other route changes; otherwise nothing changes |
| `Handlers.StepBusesArePolled` | mbtaplot.py:197-200 | after a refresh the route's buses are exactly the vehicles of the latest poll |
| `Handlers.StepFirstFetch` | mbtaplot.py:184-200 | a never-fetched route, once the clock is past 12, stores the poll with fresh histories |
| `Handlers.StepWithinInterval` | mbtaplot.py:196-200 | within 12 s of a refresh another request returns what was stored, whatever the feed says |
| `Handlers.StepKeyedById` | mbtaplot.py:198-200 | requests keep every cached bus filed under its own id |
| `Handlers.StepScenario` | mbtaplot.py:194-203 | two polls of one bus on route 77, then a cached request at 115 showing age 5 and latitude estimated at 42.015 |
| `Handlers.BusesCache.constructor` | mbtaplot.py:179 | the cache starts empty |
| `Handlers.BusesCache.Buses` | mbtaplot.py:180-185 | an uncached route has no bus objects; a cached one has the stored objects |
| `Handlers.BusesCache.Timestamp` | mbtaplot.py:187-192 | an uncached route reads as time 0; a cached one as the stored time |
| `Handlers.BusesCache.Refresh` | mbtaplot.py:197-200 | the route's entry becomes `now` and the merged poll; every other entry's value is unchanged |
| `Handlers.BusesCache.Get` | mbtaplot.py:194-203 | the cache's value moves by `CacheStep`, it stays keyed by id, and the route's cached buses are returned; with no refresh the cache is untouched; after a refresh the route's time is `now` |
| `Handlers.PathsCache.constructor` | mbtaplot.py:160 | the path cache starts empty |
| `Handlers.PathsCache.Get` | mbtaplot.py:162-169 | a cached route is served unchanged; an uncached one stores and serves the fetched paths |

## Left out

- HTTP requests and XML parsing (`urllib2.urlopen`, `minidom`, the URL building in `BusRoute.paths`, `BusRoute.buses` and `BusRoute.allRoutes`, and the `Routes` handler): this is I/O. The parsed vehicle reports and fetched paths are parameters.
- Parsing the feed's attribute strings (`int(self.heading)`, `int(self.secsSinceReport)`, `float(l_i)`) is not modelled: reports arrive already parsed, and a malformed attribute, which would raise in the code, cannot occur.
- `Bus.sendable`, `json.dumps`, `cgi.escape` and the `MainPage` template: serialisation and UI with no invariants. `BusesCache.Get` returns the cached bus objects instead of their JSON.
- `Handlers.PathsCache.Get`: stores the fetched path geometry instead of its JSON text, and always receives the fetched paths. In the code a `urllib2` or `minidom` error (lines 90-91, called from line 168) leaves `Paths.get` before anything is stored: the route stays uncached and the next request fetches it again. That failure path is not modelled.
- `time.time()`: each operation receives one `now`. The code reads the clock separately in `Bus.__init__` (line 19), `age`, `oldAge` and `estimate_pos`. The model uses the request's `now` for every new bus's observation time, although the code reads the clock in `__init__` after the feed is fetched and the cache's refresh time before it (line 196). The drift between those reads is not modelled.
- IEEE floating point: coordinates and times are exact reals and the 0.00001 threshold is exact, so float rounding in `estimate_pos` is not modelled.
- `Routes.UpdateBuses` requires the new bus objects to be distinct and disjoint from the old ones. Its only caller passes freshly built objects. With aliased objects the Python result would depend on dictionary order, and that case is not modelled.
- `Handlers.BusesCache.Get`: always receives the feed's reports and always refreshes when due. In the code a `urllib2` or `minidom` error (lines 104-105, called from line 199) propagates out of `Buses.get`: that request fails and the cache stays as it was. That failure path is not modelled.
- Concurrent requests that share the class-level caches are not modelled; requests are taken one at a time.
- `mkicons.py` and `minute_image.py`: floating-point rasterisation and image/file output.
