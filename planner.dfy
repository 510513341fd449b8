/** The planner's global state (`allTrips`, `tripData`, `currentTripId`, the route
    on the map and the localStorage entry) and the operations of app.js that
    change it. In app.js `tripData` is the very object held in its slot of
    `allTrips`; here it is a value, every mutation is followed by the write-back
    app.js performs (`saveTripData` / `saveAllTrips`), and `Valid` states that
    the slot and `tripData` agree. */
module Planner {
  import opened Itinerary
  import opened Lookup
  import opened Routing
  import opened Reordering

  /** What localStorage holds under the collection's key. `Missing` is also the
      empty string; `Malformed` is text that `JSON.parse` rejects. */
  datatype Stored = Missing | Malformed | Saved(trips: seq<Trip>)

  datatype DeleteOutcome = TripDeleted | NotConfirmed | LastTripRefused

  /** A trip as `createNewTrip` makes it; `dateLabel` is today's locale date string. */
  function NewTrip(id: int, dateLabel: string): (t: Trip)
    ensures t.id == id && t.name == "New Trip " + dateLabel
    ensures t.startDate == None && t.endDate == None && t.destinations == []
  {
    Trip(id, "New Trip " + dateLabel, None, None, [])
  }

  /** `!currentTripId` is false for null and for the id 0. */
  predicate Truthy(id: Option<int>)
    ensures Truthy(id) <==> id != None && id != Some(0)
  {
    id.Some? && id.value != 0
  }

  /** The write-back of `saveAllTrips`: the first trip whose id is `current` becomes `trip`. */
  function WriteBack(trips: seq<Trip>, current: Option<int>, trip: Trip): (r: seq<Trip>)
    ensures |r| == |trips|
    ensures current.None? || FindIndex(trips, TripId, current.value) < 0 ==> r == trips
    ensures current.Some? && 0 <= FindIndex(trips, TripId, current.value) ==>
              var i := FindIndex(trips, TripId, current.value);
              r[i] == trip && forall k :: 0 <= k < |trips| && k != i ==> r[k] == trips[k]
  {
    if current.None? then trips else Replace(trips, TripId, current.value, trip)
  }

  /** The first trip with id `id` is `t`. */
  ghost predicate Stores(trips: seq<Trip>, id: int, t: Trip) {
    var i := FindIndex(trips, TripId, id);
    0 <= i && trips[i] == t
  }

  /** After loading a non-empty collection and saving it again, the stored collection is unchanged. */
  lemma SaveAfterLoad(trips: seq<Trip>)
    requires |trips| > 0
    ensures WriteBack(trips, Some(trips[0].id), trips[0]) == trips
  {
    ReplaceStored(trips, TripId, trips[0].id, trips[0]);
  }

  /** Appending a trip with a fresh id and writing it back leaves it appended once. */
  lemma WriteBackFresh(trips: seq<Trip>, t: Trip)
    requires forall k :: 0 <= k < |trips| ==> trips[k].id != t.id
    ensures WriteBack(trips + [t], Some(t.id), t) == trips + [t]
  {
    var s := trips + [t];
    assert forall k :: 0 <= k < |trips| ==> TripId(s[k]) != t.id;
    assert TripId(s[|trips|]) == t.id;
    ReplaceStored(s, TripId, t.id, t);
  }

  class TripPlanner {
    var allTrips: seq<Trip>
    var tripData: Trip
    var currentTripId: Option<int>
    /** Waypoints of the routing control on the map, if one is shown. */
    var route: Option<seq<LatLng>>
    /** The localStorage entry. */
    var stored: Stored

    /** The current trip has a slot: the write-back has somewhere to go. */
    ghost predicate HasSlot()
      reads this
    {
      currentTripId.Some? ==>
        tripData.id == currentTripId.value && 0 <= FindIndex(allTrips, TripId, currentTripId.value)
    }

    /** There is a current trip exactly when the collection is non-empty, it sits in
        the first slot with its id, and the map shows the route of its destinations. */
    ghost predicate Valid()
      reads this
    {
      && (currentTripId.None? ==> allTrips == [])
      && (currentTripId.Some? ==> Stores(allTrips, currentTripId.value, tripData))
      && route == Route(tripData.destinations)
    }

    /** The state before `loadAllTrips` runs: the initial globals of app.js. */
    constructor (initialId: int, storage: Stored)
      ensures Valid()
      ensures allTrips == [] && currentTripId == None && route == None && stored == storage
      ensures tripData == Trip(initialId, "", None, None, [])
    {
      allTrips := [];
      tripData := Trip(initialId, "", None, None, []);
      currentTripId := None;
      route := None;
      stored := storage;
    }

    /** `saveAllTrips`: write the current trip into its slot, then store the collection. */
    method SaveAllTrips()
      requires HasSlot()
      modifies this
      ensures allTrips == WriteBack(old(allTrips), currentTripId, tripData)
      ensures stored == Saved(allTrips)
      ensures tripData == old(tripData) && currentTripId == old(currentTripId) && route == old(route)
      ensures currentTripId.Some? ==> Stores(allTrips, currentTripId.value, tripData)
    {
      if currentTripId.Some? {
        ReplaceKeepsIndex(allTrips, TripId, currentTripId.value, tripData);
        allTrips := Replace(allTrips, TripId, currentTripId.value, tripData);
      }
      stored := Saved(allTrips);
    }

    /** `saveTripData`: the same write-back, done once more before `saveAllTrips`. */
    method SaveTripData()
      requires HasSlot()
      modifies this
      ensures allTrips == WriteBack(old(allTrips), currentTripId, tripData)
      ensures stored == Saved(allTrips)
      ensures tripData == old(tripData) && currentTripId == old(currentTripId) && route == old(route)
      ensures currentTripId.Some? ==> Stores(allTrips, currentTripId.value, tripData)
    {
      if currentTripId.Some? {
        ReplaceKeepsIndex(allTrips, TripId, currentTripId.value, tripData);
        ReplaceTwice(allTrips, TripId, currentTripId.value, tripData);
        allTrips := Replace(allTrips, TripId, currentTripId.value, tripData);
      }
      SaveAllTrips();
    }

    /** `updateRoute`: discard the routing control and build one for the display order. */
    method UpdateRoute()
      modifies this
      ensures route == Route(tripData.destinations)
      ensures allTrips == old(allTrips) && tripData == old(tripData)
      ensures currentTripId == old(currentTripId) && stored == old(stored)
    {
      route := Route(tripData.destinations);
    }

    /** `createNewTrip`: append an empty trip, make it current and save. */
    method CreateNewTrip(freshId: int, dateLabel: string)
      requires Valid()
      modifies this
      ensures Valid()
      ensures tripData == NewTrip(freshId, dateLabel) && currentTripId == Some(freshId)
      ensures allTrips == WriteBack(old(allTrips) + [tripData], currentTripId, tripData)
      ensures (forall k :: 0 <= k < |old(allTrips)| ==> old(allTrips)[k].id != freshId) ==>
                allTrips == old(allTrips) + [tripData]
      ensures route == None && stored == Saved(allTrips)
    {
      var t := NewTrip(freshId, dateLabel);
      allTrips := allTrips + [t];
      tripData := t;
      currentTripId := Some(freshId);
      route := None;
      assert TripId(allTrips[|allTrips| - 1]) == freshId;
      SaveAllTrips();
      if forall k :: 0 <= k < |old(allTrips)| ==> old(allTrips)[k].id != freshId {
        WriteBackFresh(old(allTrips), t);
      }
    }

    /** `deleteCurrentTrip`: refused when there is no current id or a single trip;
        otherwise, once confirmed, drop every trip with the current id and select
        the first remaining one. */
    method DeleteCurrentTrip(confirmed: bool) returns (outcome: DeleteOutcome)
      requires Valid()
      requires Truthy(currentTripId) && |allTrips| > 1 && confirmed ==>
                 Without(allTrips, TripId, currentTripId.value) != []
      modifies this
      ensures Valid()
      ensures outcome == (if !Truthy(old(currentTripId)) || |old(allTrips)| <= 1 then LastTripRefused
                          else if !confirmed then NotConfirmed
                          else TripDeleted)
      ensures outcome != TripDeleted ==>
                allTrips == old(allTrips) && tripData == old(tripData) && currentTripId == old(currentTripId) &&
                route == old(route) && stored == old(stored)
      ensures outcome == TripDeleted ==>
                && allTrips == Without(old(allTrips), TripId, old(currentTripId).value)
                && |allTrips| > 0
                && tripData == allTrips[0]
                && currentTripId == Some(allTrips[0].id)
                && route == Route(tripData.destinations)
                && stored == Saved(allTrips)
    {
      if !Truthy(currentTripId) || |allTrips| <= 1 {
        return LastTripRefused;
      }
      if !confirmed {
        return NotConfirmed;
      }
      allTrips := Without(allTrips, TripId, currentTripId.value);
      tripData := allTrips[0];
      currentTripId := Some(tripData.id);
      UpdateRoute();
      ReplaceStored(allTrips, TripId, tripData.id, tripData);
      SaveAllTrips();
      outcome := TripDeleted;
    }

    /** `switchTrip`: select the first trip with the given id; an unknown id changes nothing. */
    method SwitchTrip(id: int)
      requires Valid()
      modifies this
      ensures Valid()
      ensures FindIndex(old(allTrips), TripId, id) < 0 ==>
                allTrips == old(allTrips) && tripData == old(tripData) && currentTripId == old(currentTripId) &&
                route == old(route) && stored == old(stored)
      ensures 0 <= FindIndex(old(allTrips), TripId, id) ==>
                && allTrips == old(allTrips)
                && tripData == old(allTrips)[FindIndex(old(allTrips), TripId, id)]
                && currentTripId == Some(id)
                && route == Route(tripData.destinations)
                && stored == Saved(allTrips)
    {
      var i := FindIndex(allTrips, TripId, id);
      if i >= 0 {
        tripData := allTrips[i];
        currentTripId := Some(id);
        UpdateRoute();
        ReplaceStored(allTrips, TripId, id, tripData);
        SaveAllTrips();
      }
    }

    /** `loadAllTrips`: a stored non-empty collection is taken as it is, with its first
        trip current; missing, empty or malformed storage falls back to a new trip. */
    method LoadAllTrips(freshId: int, dateLabel: string)
      requires Valid()
      modifies this
      ensures Valid()
      ensures old(stored).Saved? && |old(stored).trips| > 0 ==>
                && allTrips == old(stored).trips
                && tripData == allTrips[0]
                && currentTripId == Some(allTrips[0].id)
                && route == Route(tripData.destinations)
                && stored == old(stored)
      ensures !(old(stored).Saved? && |old(stored).trips| > 0) ==>
                && tripData == NewTrip(freshId, dateLabel)
                && currentTripId == Some(freshId)
                && allTrips == WriteBack((if old(stored).Saved? then [] else old(allTrips)) + [tripData],
                                         currentTripId, tripData)
                && route == None
                && stored == Saved(allTrips)
      ensures !(old(stored).Saved? && |old(stored).trips| > 0) && (old(stored).Saved? || old(allTrips) == []) ==>
                |allTrips| == 1
    {
      match stored
      case Saved(trips) =>
        if |trips| == 0 {
          allTrips := [];
          currentTripId := None;
          CreateNewTrip(freshId, dateLabel);
        } else {
          allTrips := trips;
          tripData := trips[0];
          currentTripId := Some(tripData.id);
          UpdateRoute();
        }
      case Missing =>
        CreateNewTrip(freshId, dateLabel);
      case Malformed =>
        CreateNewTrip(freshId, dateLabel);
    }

    /** The change handler of the trip-name field. */
    method SetTripName(name: string)
      requires Valid()
      modifies this
      ensures Valid()
      ensures tripData == old(tripData).(name := name) && currentTripId == old(currentTripId)
      ensures allTrips == WriteBack(old(allTrips), currentTripId, tripData)
      ensures route == old(route) && stored == Saved(allTrips)
    {
      tripData := tripData.(name := name);
      SaveTripData();
    }

    /** The change handler of the start-date field (an empty field is `None`). */
    method SetStartDate(date: Option<Day>)
      requires Valid()
      modifies this
      ensures Valid()
      ensures tripData == old(tripData).(startDate := date) && currentTripId == old(currentTripId)
      ensures allTrips == WriteBack(old(allTrips), currentTripId, tripData)
      ensures route == old(route) && stored == Saved(allTrips)
    {
      tripData := tripData.(startDate := date);
      SaveTripData();
    }

    /** The change handler of the end-date field (an empty field is `None`). */
    method SetEndDate(date: Option<Day>)
      requires Valid()
      modifies this
      ensures Valid()
      ensures tripData == old(tripData).(endDate := date) && currentTripId == old(currentTripId)
      ensures allTrips == WriteBack(old(allTrips), currentTripId, tripData)
      ensures route == old(route) && stored == Saved(allTrips)
    {
      tripData := tripData.(endDate := date);
      SaveTripData();
    }

    /** `saveNewLocation`: without a name or a clicked position nothing changes;
        otherwise the destination is appended, saved and routed. */
    method SaveNewLocation(newId: int, name: string, date: Option<Day>, notes: string, position: Option<LatLng>)
      returns (saved: bool)
      requires Valid()
      modifies this
      ensures Valid()
      ensures saved <==> name != "" && position.Some?
      ensures !saved ==>
                allTrips == old(allTrips) && tripData == old(tripData) && currentTripId == old(currentTripId) &&
                route == old(route) && stored == old(stored)
      ensures saved ==>
                && tripData == old(tripData).(destinations := old(tripData.destinations) +
                     [Destination(newId, name, date, notes, position.value.lat, position.value.lng)])
                && currentTripId == old(currentTripId)
                && allTrips == WriteBack(old(allTrips), currentTripId, tripData)
                && route == Route(tripData.destinations)
                && stored == Saved(allTrips)
    {
      if name == "" || position.None? {
        return false;
      }
      var d := Destination(newId, name, date, notes, position.value.lat, position.value.lng);
      tripData := tripData.(destinations := tripData.destinations + [d]);
      SaveTripData();
      UpdateRoute();
      saved := true;
    }

    /** `deleteDestination`: once confirmed, drop every destination with the id. */
    method DeleteDestination(id: int, confirmed: bool)
      requires Valid()
      modifies this
      ensures Valid()
      ensures !confirmed ==>
                allTrips == old(allTrips) && tripData == old(tripData) && currentTripId == old(currentTripId) &&
                route == old(route) && stored == old(stored)
      ensures confirmed ==>
                && tripData == old(tripData).(destinations := Without(old(tripData.destinations), DestId, id))
                && currentTripId == old(currentTripId)
                && allTrips == WriteBack(old(allTrips), currentTripId, tripData)
                && route == Route(tripData.destinations)
                && stored == Saved(allTrips)
    {
      if confirmed {
        tripData := tripData.(destinations := Without(tripData.destinations, DestId, id));
        UpdateRoute();
        SaveTripData();
      }
    }

    /** `moveDestinationUp`: exchange the date with the insertion-order predecessor;
        an unknown id or the first entry changes nothing. */
    method MoveDestinationUp(id: int)
      requires Valid()
      requires MoveUpDated(tripData.destinations, id)
      modifies this
      ensures Valid()
      ensures FindIndex(old(tripData.destinations), DestId, id) <= 0 ==>
                allTrips == old(allTrips) && tripData == old(tripData) && currentTripId == old(currentTripId) &&
                route == old(route) && stored == old(stored)
      ensures 0 < FindIndex(old(tripData.destinations), DestId, id) ==>
                && tripData == old(tripData).(destinations := MovedUp(old(tripData.destinations), id))
                && currentTripId == old(currentTripId)
                && allTrips == WriteBack(old(allTrips), currentTripId, tripData)
                && route == Route(tripData.destinations)
                && stored == Saved(allTrips)
    {
      var ds := tripData.destinations;
      var i := FindIndex(ds, DestId, id);
      if i <= 0 {
        return;
      }
      // the two in-place date writes of app.js:485-486
      tripData := tripData.(destinations := ExchangeDates(ds, i, i - 1));
      UpdateRoute();
      SaveTripData();
    }

    /** `moveDestinationDown`: exchange the date with the insertion-order successor;
        an unknown id or the last entry changes nothing. */
    method MoveDestinationDown(id: int)
      requires Valid()
      requires MoveDownDated(tripData.destinations, id)
      modifies this
      ensures Valid()
      ensures (FindIndex(old(tripData.destinations), DestId, id) < 0 ||
               FindIndex(old(tripData.destinations), DestId, id) >= |old(tripData.destinations)| - 1) ==>
                allTrips == old(allTrips) && tripData == old(tripData) && currentTripId == old(currentTripId) &&
                route == old(route) && stored == old(stored)
      ensures 0 <= FindIndex(old(tripData.destinations), DestId, id) < |old(tripData.destinations)| - 1 ==>
                && tripData == old(tripData).(destinations := MovedDown(old(tripData.destinations), id))
                && currentTripId == old(currentTripId)
                && allTrips == WriteBack(old(allTrips), currentTripId, tripData)
                && route == Route(tripData.destinations)
                && stored == Saved(allTrips)
    {
      var ds := tripData.destinations;
      var i := FindIndex(ds, DestId, id);
      if i < 0 || i >= |ds| - 1 {
        return;
      }
      // the two in-place date writes of app.js:505-506
      tripData := tripData.(destinations := ExchangeDates(ds, i, i + 1));
      UpdateRoute();
      SaveTripData();
    }

    /** `clearRoute`: once confirmed, remove the route and every destination. */
    method ClearRoute(confirmed: bool)
      requires Valid()
      modifies this
      ensures Valid()
      ensures !confirmed ==>
                allTrips == old(allTrips) && tripData == old(tripData) && currentTripId == old(currentTripId) &&
                route == old(route) && stored == old(stored)
      ensures confirmed ==>
                && tripData == old(tripData).(destinations := [])
                && currentTripId == old(currentTripId)
                && allTrips == WriteBack(old(allTrips), currentTripId, tripData)
                && route == None
                && stored == Saved(allTrips)
    {
      if confirmed {
        route := None;
        tripData := tripData.(destinations := []);
        SaveTripData();
      }
    }
  }
}
