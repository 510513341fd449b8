/** The waypoints handed to the routing control (`updateRoute` in app.js). */
module Routing {
  import opened Itinerary
  import opened Ordering

  function Coord(d: Destination): LatLng {
    LatLng(d.lat, d.lng)
  }

  /** `destinations.map(d => L.latLng(d.lat, d.lng))`. */
  function Waypoints(ds: seq<Destination>): (r: seq<LatLng>)
    ensures |r| == |ds|
    ensures forall i :: 0 <= i < |ds| ==> r[i] == Coord(ds[i])
  {
    if |ds| == 0 then []
    else Waypoints(ds[..|ds| - 1]) + [Coord(ds[|ds| - 1])]
  }

  /** The route shown for a trip: none below two destinations, otherwise the
      waypoints of the display order. */
  function Route(ds: seq<Destination>): (r: Option<seq<LatLng>>)
    ensures r.None? <==> |ds| < 2
    ensures r.Some? ==> |r.value| == |ds|
    ensures r.Some? ==> forall i :: 0 <= i < |ds| ==> r.value[i] == Coord(DisplayOrder(ds)[i])
  {
    if |ds| < 2 then None else Some(Waypoints(DisplayOrder(ds)))
  }

  lemma WaypointsSnoc(t: seq<Destination>, x: Destination)
    ensures Waypoints(t + [x]) == Waypoints(t) + [Coord(x)]
  {
    assert (t + [x])[..|t|] == t;
  }

  lemma {:induction false} WaypointsInsert(t: seq<Destination>, x: Destination)
    ensures multiset(Waypoints(Insert(t, x))) == multiset(Waypoints(t)) + multiset{Coord(x)}
  {
    if |t| == 0 {
      WaypointsSnoc([], x);
    } else {
      var n := |t| - 1;
      assert t == t[..n] + [t[n]];
      WaypointsSnoc(t[..n], t[n]);
      if Compare(t[n], x) <= 0 {
        WaypointsSnoc(t, x);
      } else {
        WaypointsInsert(t[..n], x);
        WaypointsSnoc(Insert(t[..n], x), t[n]);
      }
    }
  }

  lemma {:induction false} WaypointsDisplayOrder(ds: seq<Destination>)
    ensures multiset(Waypoints(DisplayOrder(ds))) == multiset(Waypoints(ds))
  {
    if |ds| > 0 {
      var n := |ds| - 1;
      assert ds == ds[..n] + [ds[n]];
      WaypointsDisplayOrder(ds[..n]);
      WaypointsInsert(DisplayOrder(ds[..n]), ds[n]);
      WaypointsSnoc(ds[..n], ds[n]);
    }
  }

  /** A route, when there is one, visits the position of every destination exactly once. */
  lemma RouteVisitsEveryDestination(ds: seq<Destination>)
    requires |ds| >= 2
    ensures Route(ds).Some?
    ensures multiset(Route(ds).value) == multiset(Waypoints(ds))
  {
    WaypointsDisplayOrder(ds);
  }
}
