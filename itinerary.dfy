/** The data model of the trip planner: trips, destinations and coordinates.
    Calendar dates are whole day numbers; a missing or empty date is `None`. */
module Itinerary {

  datatype Option<T> = None | Some(value: T)

  /** A calendar date, counted in days from a fixed epoch. */
  type Day = int

  /** A map position, as a Leaflet LatLng carries it. */
  datatype LatLng = LatLng(lat: real, lng: real)

  /** One stop of a trip. `date` is the only ordering key. */
  datatype Destination = Destination(
    id: int,
    name: string,
    date: Option<Day>,
    notes: string,
    lat: real,
    lng: real)

  /** A trip; `destinations` is kept in insertion order. */
  datatype Trip = Trip(
    id: int,
    name: string,
    startDate: Option<Day>,
    endDate: Option<Day>,
    destinations: seq<Destination>)

  function DestId(d: Destination): int { d.id }

  function TripId(t: Trip): int { t.id }
}
