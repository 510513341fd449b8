/** Moving a destination up or down (`moveDestinationUp` / `moveDestinationDown`
    in app.js): the destination's date is exchanged with the date of its neighbour
    in the insertion-order sequence; entries are never moved. */
module Reordering {
  import opened Itinerary
  import opened Lookup
  import opened Ordering

  /** Everything but the date is the same. */
  predicate SameButDate(a: Destination, b: Destination) {
    a.id == b.id && a.name == b.name && a.notes == b.notes && a.lat == b.lat && a.lng == b.lng
  }

  /** The dates at positions `i` and `j` are exchanged; nothing else changes. */
  function ExchangeDates(ds: seq<Destination>, i: nat, j: nat): (r: seq<Destination>)
    requires i < |ds| && j < |ds|
    ensures |r| == |ds|
    ensures r[i].date == ds[j].date && r[j].date == ds[i].date
    ensures forall k :: 0 <= k < |ds| ==> SameButDate(r[k], ds[k])
    ensures forall k :: 0 <= k < |ds| && k != i && k != j ==> r[k] == ds[k]
  {
    ds[i := ds[i].(date := ds[j].date)][j := ds[j].(date := ds[i].date)]
  }

  /** `moveDestinationUp` (app.js:475-486): move up, on the insertion-order sequence. */
  function MovedUp(ds: seq<Destination>, id: int): (r: seq<Destination>)
    ensures |r| == |ds|
    ensures forall k :: 0 <= k < |ds| ==> SameButDate(r[k], ds[k])
    ensures FindIndex(ds, DestId, id) <= 0 ==> r == ds
    ensures 0 < FindIndex(ds, DestId, id) ==>
              var i := FindIndex(ds, DestId, id);
              r[i].date == ds[i - 1].date && r[i - 1].date == ds[i].date &&
              forall k :: 0 <= k < |ds| && k != i && k != i - 1 ==> r[k] == ds[k]
  {
    var i := FindIndex(ds, DestId, id);
    if i <= 0 then ds else ExchangeDates(ds, i, i - 1)
  }

  /** `moveDestinationDown` (app.js:495-506): move down, on the insertion-order sequence. */
  function MovedDown(ds: seq<Destination>, id: int): (r: seq<Destination>)
    ensures |r| == |ds|
    ensures forall k :: 0 <= k < |ds| ==> SameButDate(r[k], ds[k])
    ensures (FindIndex(ds, DestId, id) < 0 || FindIndex(ds, DestId, id) >= |ds| - 1) ==> r == ds
    ensures 0 <= FindIndex(ds, DestId, id) < |ds| - 1 ==>
              var i := FindIndex(ds, DestId, id);
              r[i].date == ds[i + 1].date && r[i + 1].date == ds[i].date &&
              forall k :: 0 <= k < |ds| && k != i && k != i + 1 ==> r[k] == ds[k]
  {
    var i := FindIndex(ds, DestId, id);
    if i < 0 || i >= |ds| - 1 then ds else ExchangeDates(ds, i, i + 1)
  }

  /** The two exchanged dates are real dates (app.js:481-486 passes them through
      `new Date(...).toISOString()`, which turns a null date into 1970-01-01 and
      throws on an empty one). */
  predicate MoveUpDated(ds: seq<Destination>, id: int) {
    var i := FindIndex(ds, DestId, id);
    0 < i ==> ds[i].date.Some? && ds[i - 1].date.Some?
  }

  predicate MoveDownDated(ds: seq<Destination>, id: int) {
    var i := FindIndex(ds, DestId, id);
    0 <= i < |ds| - 1 ==> ds[i].date.Some? && ds[i + 1].date.Some?
  }

  /** The first-match search only looks at ids, so it gives the same answer on two
      sequences with the same ids. */
  lemma {:induction false} FindIndexSameIds(a: seq<Destination>, b: seq<Destination>, id: int)
    requires |a| == |b| && forall k :: 0 <= k < |a| ==> a[k].id == b[k].id
    ensures FindIndex(a, DestId, id) == FindIndex(b, DestId, id)
  {
    if |a| > 0 {
      FindIndexSameIds(a[1..], b[1..], id);
    }
  }

  /** Moving the same destination up twice restores every date. */
  lemma MoveUpTwice(ds: seq<Destination>, id: int)
    ensures MovedUp(MovedUp(ds, id), id) == ds
  {
    var once := MovedUp(ds, id);
    FindIndexSameIds(ds, once, id);
    var twice := MovedUp(once, id);
    assert forall k :: 0 <= k < |ds| ==> twice[k] == ds[k];
  }

  /** Moving the same destination down twice restores every date. */
  lemma MoveDownTwice(ds: seq<Destination>, id: int)
    ensures MovedDown(MovedDown(ds, id), id) == ds
  {
    var once := MovedDown(ds, id);
    FindIndexSameIds(ds, once, id);
    var twice := MovedDown(once, id);
    assert forall k :: 0 <= k < |ds| ==> twice[k] == ds[k];
  }

  /** Moving a destination up is undone by moving its former predecessor down, when
      that predecessor is the first destination carrying its id. */
  lemma MoveDownUndoesMoveUp(ds: seq<Destination>, id: int)
    requires 0 < FindIndex(ds, DestId, id)
    requires FindIndex(ds, DestId, ds[FindIndex(ds, DestId, id) - 1].id) == FindIndex(ds, DestId, id) - 1
    ensures MovedDown(MovedUp(ds, id), ds[FindIndex(ds, DestId, id) - 1].id) == ds
  {
    var i := FindIndex(ds, DestId, id);
    var prev := ds[i - 1].id;
    var once := ExchangeDates(ds, i, i - 1);
    assert once == MovedUp(ds, id);
    FindIndexSameIds(ds, once, prev);
    assert MovedDown(once, prev) == ExchangeDates(once, i - 1, i);
    var back := ExchangeDates(once, i - 1, i);
    forall k | 0 <= k < |ds| ensures back[k] == ds[k] {
      assert SameButDate(back[k], ds[k]);
    }
  }

  /** Moves work on insertion order, not on display order: A (day 2) inserted before
      B (day 1) is listed second, yet moving A up leaves every date as it was. */
  lemma MoveUpFollowsInsertionOrder()
    ensures var a := Destination(1, "A", Some(2), "", 0.0, 0.0);
            var b := Destination(2, "B", Some(1), "", 0.0, 0.0);
            DisplayOrder([a, b]) == [b, a] && MovedUp([a, b], 1) == [a, b]
  {
    var a := Destination(1, "A", Some(2), "", 0.0, 0.0);
    var b := Destination(2, "B", Some(1), "", 0.0, 0.0);
    assert [a, b][..1] == [a];
    assert DisplayOrder([a]) == [a];
    assert Insert([a], b) == Insert([], b) + [a];
  }

  /** Moving a destination up and then down exchanges its date with two different
      neighbours, so the dates are not restored: with days 1, 2, 3 in insertion
      order, moving the second destination up and then down leaves days 2, 3, 1. */
  lemma MoveUpThenDownDiffers()
    ensures var a := Destination(1, "A", Some(1), "", 0.0, 0.0);
            var b := Destination(2, "B", Some(2), "", 0.0, 0.0);
            var c := Destination(3, "C", Some(3), "", 0.0, 0.0);
            MovedDown(MovedUp([a, b, c], 2), 2) == [a.(date := Some(2)), b.(date := Some(3)), c.(date := Some(1))]
  {
    var a := Destination(1, "A", Some(1), "", 0.0, 0.0);
    var b := Destination(2, "B", Some(2), "", 0.0, 0.0);
    var c := Destination(3, "C", Some(3), "", 0.0, 0.0);
    assert FindIndex([a, b, c], DestId, 2) == 1;
    var up := [a.(date := Some(2)), b.(date := Some(1)), c];
    assert MovedUp([a, b, c], 2) == up;
    assert FindIndex(up, DestId, 2) == 1;
  }
}
