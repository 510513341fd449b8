/** The date proposed for a new destination when the add-location dialog opens
    (`showAddLocationModal` in app.js). "Today" is a parameter. */
module Scheduling {
  import opened Itinerary
  import opened Ordering

  /** `destinations.filter(d => d.date)`. */
  function Dated(ds: seq<Destination>): (r: seq<Destination>)
    ensures AllDated(r)
    ensures forall d :: d in r <==> d in ds && d.date.Some?
  {
    if |ds| == 0 then []
    else
      var n := |ds| - 1;
      assert ds == ds[..n] + [ds[n]];
      Dated(ds[..n]) + (if ds[n].date.Some? then [ds[n]] else [])
  }

  /** The last date of the dated destinations once sorted by date. */
  function LatestDate(dated: seq<Destination>): Day
    requires |dated| > 0 && AllDated(dated)
  {
    var sorted := DisplayOrder(dated);
    DisplayOrderChronological(dated);
    sorted[|sorted| - 1].date.value
  }

  /** The default date: the day after the latest dated destination; else the start
      date advanced by the number of destinations; else the start date itself when
      there are none; else today. */
  function DefaultDate(trip: Trip, today: Day): Day {
    var ds := trip.destinations;
    if |ds| > 0 then
      var dated := Dated(ds);
      if |dated| > 0 then LatestDate(dated) + 1
      else if trip.startDate.Some? then trip.startDate.value + |ds|
      else today
    else if trip.startDate.Some? then trip.startDate.value
    else today
  }

  /** The latest date is the largest date of the dated destinations, and it is one of them. */
  lemma LatestDateIsMaximum(dated: seq<Destination>)
    requires |dated| > 0 && AllDated(dated)
    ensures forall i :: 0 <= i < |dated| ==> dated[i].date.value <= LatestDate(dated)
    ensures exists i :: 0 <= i < |dated| && dated[i].date == Some(LatestDate(dated))
  {
    var s := DisplayOrder(dated);
    var n := |s| - 1;
    DisplayOrderChronological(dated);
    forall i | 0 <= i < |dated| ensures dated[i].date.value <= LatestDate(dated) {
      assert dated[i] in multiset(s);
      var k :| 0 <= k < |s| && s[k] == dated[i];
      if k < n {
        assert s[k].date.value <= s[n].date.value;
      }
    }
    assert s[n] in multiset(dated);
    var m :| 0 <= m < |dated| && dated[m] == s[n];
  }

  /** With a dated destination, the proposed date is strictly later than every
      existing date and exactly one day after the latest of them. */
  lemma DefaultDateAfterLatest(trip: Trip, today: Day)
    requires exists i :: 0 <= i < |trip.destinations| && trip.destinations[i].date.Some?
    ensures forall i :: 0 <= i < |trip.destinations| && trip.destinations[i].date.Some? ==>
              trip.destinations[i].date.value < DefaultDate(trip, today)
    ensures exists i :: 0 <= i < |trip.destinations| && trip.destinations[i].date == Some(DefaultDate(trip, today) - 1)
  {
    var ds := trip.destinations;
    var dated := Dated(ds);
    var w :| 0 <= w < |ds| && ds[w].date.Some?;
    assert ds[w] in dated;
    var latest := LatestDate(dated);
    assert DefaultDate(trip, today) == latest + 1;
    LatestDateIsMaximum(dated);
    forall i | 0 <= i < |ds| && ds[i].date.Some? ensures ds[i].date.value <= latest {
      assert ds[i] in dated;
      var k :| 0 <= k < |dated| && dated[k] == ds[i];
    }
    var m :| 0 <= m < |dated| && dated[m].date == Some(latest);
    assert dated[m] in ds;
  }

  /** Without any dated destination, the proposed date is the start date advanced by
      the number of destinations (the start date itself for an empty trip), and today
      when the trip has no start date. */
  lemma DefaultDateUndated(trip: Trip, today: Day)
    requires forall i :: 0 <= i < |trip.destinations| ==> trip.destinations[i].date.None?
    ensures DefaultDate(trip, today) ==
              if trip.startDate.Some? then trip.startDate.value + |trip.destinations| else today
  {
  }
}
