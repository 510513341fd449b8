# Trip planner itinerary model

A Dafny model of the itinerary state of the browser trip planner (`app.js`):
the collection of trips, the current trip and its id, the destination-list
operations that change them, the date proposed for a new destination, the
display order derived from destination dates, and the waypoints handed to the
routing control.

Modules, leaf first:

- `Itinerary` (itinerary.dfy): trips, destinations, positions. Dates are whole
  day numbers; a `null` or empty date is `None`.
- `Lookup` (lookup.dfy): first-match search (`findIndex`/`find`), the `filter`
  by id, and the assignment to the slot found.
- `Ordering` (ordering.dfy): the date comparator and the sorted copy used for
  the destination list and for the route.
- `Routing` (routing.dfy): the waypoints and the rule "no route below two
  destinations".
- `Scheduling` (scheduling.dfy): the default date of `showAddLocationModal`.
- `Reordering` (reordering.dfy): move up / move down as date exchanges.
- `Planner` (planner.dfy): class `TripPlanner` with the global state
  (`allTrips`, `tripData`, `currentTripId`, the route on the map, the
  localStorage entry) and one method per state-changing operation.

In `app.js`, `tripData` is the same object as its slot in `allTrips`. The model
keeps it as a separate value. Each method performs the write-back that app.js
does right after a change (`saveTripData` / `saveAllTrips`, app.js:830-849).
`TripPlanner.Valid()` states the resulting agreement:

- there is a current id exactly when the collection is non-empty;
- the first trip with that id equals `tripData`;
- the route shown is the route of `tripData`'s destinations.

Every public operation (the constructor and every method except the helpers
`SaveAllTrips`, `SaveTripData` and `UpdateRoute`, which run while a change is
half done) keeps `Valid()`. This reproduces the shared object only while trip
ids are distinct; see `CreateNewTrip` under "## Left out".

Inputs from the environment are parameters:

- the user's answer to `confirm`;
- the `Date.now()` ids;
- today's date and today's locale date label;
- the position clicked on the map;
- the content of localStorage (`Missing`, `Malformed` or `Saved(trips)`).

`Array.prototype.sort` is modelled as a stable insertion sort. The comparator
returns 0 whenever a side is undated, so it is not a consistent order on mixed
input. For mixed input the model therefore claims only that the result is a
permutation of the input. When every destination is dated, it proves three
things that pin down the stable sort: the result is in date order, it is a
permutation of the input, and destinations sharing a date keep their insertion
order.

Behaviour of app.js that the model makes explicit:

- Move up / move down exchange the `date` values of two neighbours in the
  insertion-order array (app.js:477-486); they do not give the moved entry a
  date next to its display-order neighbour. Since the list's buttons follow
  display order (app.js:404-405), "move up" on a destination that was inserted
  first but is listed second does nothing (`MoveUpFollowsInsertionOrder`).
  Moving one destination up and then down does not restore the dates
  (`MoveUpThenDownDiffers`). Moving it up twice does. So does moving its former
  predecessor down.
- The comparator (app.js:386-391) does not make undated destinations sort
  last, and the model does not claim it.
- Deleting a trip is refused not only when one trip is left but also when
  `currentTripId` is null or 0 (`!currentTripId`, app.js:758).

## Model

| member | source | states |
|---|---|---|
| Lookup.FindIndex | app.js:832 | the result is -1 exactly when no element has the id; otherwise it is the index of the first element with the id |
| Lookup.Without | app.js:448 | an element is kept exactly when it was present and its id differs from the given one; the result is no longer than the input |
| Lookup.WithoutAppend | app.js:448 | filtering distributes over concatenation, so the kept elements keep their relative order |
| Lookup.WithoutAbsent | app.js:448 | filtering out an id that does not occur returns the input unchanged |
| Lookup.Replace | app.js:832-835 | the length is unchanged; only the first slot with the id takes the new value; an absent id changes nothing |
| Lookup.ReplaceKeepsIndex | app.js:843-848 | writing a value that carries the id leaves its slot the first match |
| Lookup.ReplaceTwice | app.js:841-849 | the double write-back of saveTripData followed by saveAllTrips equals a single one |
| Lookup.ReplaceStored | app.js:784-799 | writing back the value already in the first matching slot changes nothing |
| Ordering.Compare | app.js:386-391 | returns 0 when either side lacks a date; otherwise its sign is the sign of the date difference |
| Ordering.Insert | app.js:385-391 | the insertion step yields the input plus the new element, as a multiset |
| Ordering.DisplayOrder | app.js:385-391 | the sorted copy has the same length and is a permutation of the destinations |
| Ordering.DisplayOrderChronological | app.js:386-391 | when every destination is dated, the sorted copy is in non-decreasing date order |
| Ordering.DisplayOrderStable | app.js:386-391 | when every destination is dated, the destinations of each date appear in insertion order |
| Ordering.DisplayOrderOfChronological | app.js:527-533 | a sequence already in date order is its own sorted copy |
| Ordering.DisplayOrderIdempotent | app.js:527-533 | re-sorting the sorted copy of dated destinations reproduces it |
| Routing.Waypoints | app.js:535 | waypoint i is the position of destination i, and there are as many waypoints as destinations |
| Routing.Route | app.js:521-535 | there is no route exactly when there are fewer than two destinations; otherwise waypoint i is the position of the i-th destination in display order |
| Routing.RouteVisitsEveryDestination | app.js:527-535 | the route's waypoints are a permutation of the positions of all destinations |
| Scheduling.Dated | app.js:268 | the result holds exactly the dated destinations, and all of them are dated |
| Scheduling.LatestDate | app.js:270-276 | the date of the last destination once the dated ones are sorted by date; its maximality is proved by LatestDateIsMaximum |
| Scheduling.LatestDateIsMaximum | app.js:270-276 | the last date of the sorted dated destinations is at least every date and is the date of one of them |
| Scheduling.DefaultDate | app.js:265-299 | the four-case rule, proved by DefaultDateAfterLatest and DefaultDateUndated |
| Scheduling.DefaultDateAfterLatest | app.js:266-283 | with a dated destination, the proposed date is later than every existing date and is one day after one of them |
| Scheduling.DefaultDateUndated | app.js:284-299 | with no dated destination, the proposed date is the start date plus the number of destinations (the start date itself for an empty trip), or today without a start date |
| Reordering.ExchangeDates | app.js:484-486 | the two dates are exchanged; every other field and every other destination is unchanged |
| Reordering.MovedUp | app.js:475-486 | an unknown id or the first entry is a no-op; otherwise the dates at the index and its predecessor are exchanged; order, ids, names, notes and positions are unchanged |
| Reordering.MovedDown | app.js:495-506 | an unknown id or the last entry is a no-op; otherwise the dates at the index and its successor are exchanged; order and other fields are unchanged |
| Reordering.FindIndexSameIds | app.js:477 | the search by id gives the same index on two sequences with the same ids |
| Reordering.MoveUpTwice | app.js:475-486 | moving the same destination up twice restores every date |
| Reordering.MoveDownTwice | app.js:495-506 | moving the same destination down twice restores every date |
| Reordering.MoveDownUndoesMoveUp | app.js:475-506 | moving a destination up is undone by moving its former predecessor down |
| Reordering.MoveUpFollowsInsertionOrder | app.js:475-478 | a destination inserted first but listed second cannot be moved up |
| Reordering.MoveUpThenDownDiffers | app.js:475-506 | moving a destination up and then down exchanges its date with two different neighbours, so the dates are not restored |
| Planner.NewTrip | app.js:718-724 | the new trip has the given id, the name "New Trip " followed by the date label, no start or end date and no destinations |
| Planner.WriteBack | app.js:832-835 | the length is unchanged; a null or unknown current id changes nothing; otherwise only the first trip with that id becomes the current trip |
| Planner.Truthy | app.js:758 | a current id passes `!currentTripId` exactly when it is neither null nor 0 |
| Planner.SaveAfterLoad | app.js:864-866 | saving right after loading a non-empty collection stores it unchanged |
| Planner.WriteBackFresh | app.js:727-746 | a new trip with a fresh id is appended exactly once by the push and the write-back |
| Planner.TripPlanner.constructor | app.js:8-16 | the initial globals: no trips, no current id, an empty trip, no route |
| Planner.TripPlanner.SaveAllTrips | app.js:830-838 | the first slot with the current id takes tripData, and storage then holds the collection |
| Planner.TripPlanner.SaveTripData | app.js:841-849 | has the same effect as saveAllTrips |
| Planner.TripPlanner.UpdateRoute | app.js:515-535 | the route shown becomes the route of the current destinations |
| Planner.TripPlanner.CreateNewTrip | app.js:716-755 | the new trip has no dates or destinations and becomes current; with a fresh id, the collection grows by exactly that trip at the end and earlier trips are unchanged; the map is cleared and the collection saved |
| Planner.TripPlanner.DeleteCurrentTrip | app.js:757-781 | refused with no truthy current id or at most one trip; a declined confirmation changes nothing; otherwise every trip with the current id is removed, the rest keep their order, and the first remaining trip becomes current |
| Planner.TripPlanner.SwitchTrip | app.js:783-801 | an unknown id changes nothing; otherwise the first trip with the id becomes current, the collection is unchanged and its route is shown |
| Planner.TripPlanner.LoadAllTrips | app.js:852-881 | a stored non-empty collection is taken as it is, with its first trip current; missing, empty or malformed storage yields one new trip at startup |
| Planner.TripPlanner.SetTripName | app.js:133-137 | only the current trip's name changes, and it is written back and saved |
| Planner.TripPlanner.SetStartDate | app.js:139-142 | only the current trip's start date changes, and it is written back and saved |
| Planner.TripPlanner.SetEndDate | app.js:144-147 | only the current trip's end date changes, and it is written back and saved |
| Planner.TripPlanner.SaveNewLocation | app.js:314-351 | without a name or a position nothing changes; otherwise exactly the new destination is appended, saved and routed |
| Planner.TripPlanner.DeleteDestination | app.js:445-462 | a declined confirmation changes nothing; otherwise exactly the destinations with the id are removed, then saved and routed |
| Planner.TripPlanner.MoveDestinationUp | app.js:475-492 | the state changes only by the move-up exchange, written back, saved and routed |
| Planner.TripPlanner.MoveDestinationDown | app.js:495-512 | the state changes only by the move-down exchange, written back, saved and routed |
| Planner.TripPlanner.ClearRoute | app.js:678-695 | a declined confirmation changes nothing; otherwise the destinations are emptied, the route is removed and the trip is saved |

## Left out

- DOM reading and writing, modals, `alert`, the trip-select options and the destination list markup. They are rendering. The user's confirmation is a boolean parameter.
- Leaflet markers, tile layers, the directions toggle and the routing control's own behaviour. The model keeps only the waypoints of the route shown. Markers are rendering (a marker's label is `destinations.length` at the time it is added, app.js:355 and app.js:629).
- Nominatim search (`performSearch`) and `navigator.geolocation`. They are network I/O and browser APIs.
- `localStorage` and the `JSON.stringify`/`JSON.parse` round trip. Storage is an abstract stored sequence of trips. Stored JSON that parses but is not an array of trips (for example `null`) is not modelled, and neither is its crash path.
- JavaScript `Date` parsing, `setDate` and `toISOString` time-zone behaviour. Dates are whole days. A date string that is non-empty but invalid is not modelled.
- Reordering.MoveUpDated / Reordering.MoveDownDated: the move methods require both exchanged dates to be present, because app.js:481-486 turns each date into `new Date(date).toISOString()`. A `null` date becomes 1970-01-01, so that day is written into the neighbour and no error occurs. An empty-string date is an Invalid Date and `toISOString` throws. If the neighbour's date is the empty one, the throw comes at line 485 before anything is written. If only the moved entry's date is empty, line 485 writes the neighbour's date into it and line 486 throws, which leaves half an exchange in `tripData`, not saved and not re-routed. The model treats `null` and `''` alike as `None` and covers neither path.
- Planner.TripPlanner.CreateNewTrip: when the new id is already used by a trip, app.js:727 and app.js:834 put the same trip object into two slots of `allTrips`, so every later edit of `tripData` changes both. The model's write-back updates only the first slot with the id, and the second slot keeps the values it had when created. The model reproduces the shared object only while trip ids are distinct.
- Planner.TripPlanner.DeleteCurrentTrip: requires that some trip with another id remains when the deletion goes ahead. If every trip carries the current id, app.js empties `allTrips` and then fails on `allTrips[0].id` (app.js:765-769).
- `Array.prototype.sort`'s output on a mix of dated and undated destinations depends on the engine. For such input the model's insertion sort is one possible result, and only the permutation property is claimed.
- `exportTrip` (JSON serialisation and file download) and `editDestination` (a placeholder alert).
- google-drive.js: OAuth, Drive REST calls and asynchronous flow. Its replace-on-load rule repeats `LoadAllTrips`.
- `Date.now()` ids are supplied. Uniqueness is assumed only where a contract says so (`CreateNewTrip` with a fresh id).
