/** Display order of a trip's destinations: the copy that app.js sorts with its
    date comparator before listing the destinations and before routing. */
module Ordering {
  import opened Itinerary

  /** `new Date(a) - new Date(b)` between two calendar dates is a difference in milliseconds. */
  const MillisPerDay: int := 86_400_000

  /** The sort comparator: the date difference when both sides are dated, 0 otherwise. */
  function Compare(a: Destination, b: Destination): (r: int)
    ensures a.date.None? || b.date.None? ==> r == 0
    ensures a.date.Some? && b.date.Some? ==>
              (r < 0 <==> a.date.value < b.date.value) &&
              (r == 0 <==> a.date.value == b.date.value) &&
              (r > 0 <==> a.date.value > b.date.value)
  {
    if a.date.Some? && b.date.Some? then (a.date.value - b.date.value) * MillisPerDay else 0
  }

  /** Stable insertion of `x` behind every element that does not compare above it,
      scanning `t` from its end. */
  function Insert(t: seq<Destination>, x: Destination): (r: seq<Destination>)
    ensures |r| == |t| + 1
    ensures multiset(r) == multiset(t) + multiset{x}
  {
    if |t| == 0 then [x]
    else
      var n := |t| - 1;
      assert t == t[..n] + [t[n]];
      if Compare(t[n], x) <= 0 then t + [x]
      else Insert(t[..n], x) + [t[n]]
  }

  /** The sorted copy `[...destinations].sort(comparator)`, as a stable insertion sort. */
  function DisplayOrder(ds: seq<Destination>): (r: seq<Destination>)
    ensures |r| == |ds|
    ensures multiset(r) == multiset(ds)
  {
    if |ds| == 0 then []
    else
      var n := |ds| - 1;
      assert ds == ds[..n] + [ds[n]];
      Insert(DisplayOrder(ds[..n]), ds[n])
  }

  predicate AllDated(ds: seq<Destination>) {
    forall i :: 0 <= i < |ds| ==> ds[i].date.Some?
  }

  /** Every destination is dated and the dates never decrease along the sequence. */
  predicate Chronological(ds: seq<Destination>) {
    AllDated(ds) && forall i, j :: 0 <= i < j < |ds| ==> ds[i].date.value <= ds[j].date.value
  }

  /** The destinations of `ds` whose date is `day`, in their order in `ds`. */
  function OnDay(ds: seq<Destination>, day: Option<Day>): seq<Destination> {
    if |ds| == 0 then []
    else OnDay(ds[..|ds| - 1], day) + (if ds[|ds| - 1].date == day then [ds[|ds| - 1]] else [])
  }

  lemma OnDaySnoc(t: seq<Destination>, x: Destination, day: Option<Day>)
    ensures OnDay(t + [x], day) == OnDay(t, day) + (if x.date == day then [x] else [])
  {
    assert (t + [x])[..|t|] == t;
  }

  lemma ChronologicalPrefix(t: seq<Destination>, n: nat)
    requires Chronological(t) && n <= |t|
    ensures Chronological(t[..n])
  {
    forall i, j | 0 <= i < j < n ensures t[..n][i].date.value <= t[..n][j].date.value {
      assert t[..n][i] == t[i] && t[..n][j] == t[j];
    }
  }

  lemma ChronologicalSnoc(t: seq<Destination>, x: Destination)
    requires Chronological(t) && x.date.Some?
    requires forall k :: 0 <= k < |t| ==> t[k].date.value <= x.date.value
    ensures Chronological(t + [x])
  {
    var r := t + [x];
    forall i, j | 0 <= i < j < |r| ensures r[i].date.value <= r[j].date.value {
      assert r[i] == t[i];
    }
  }

  lemma {:induction false} InsertChronological(t: seq<Destination>, x: Destination)
    requires Chronological(t) && x.date.Some?
    ensures Chronological(Insert(t, x))
  {
    if |t| > 0 {
      var n := |t| - 1;
      if Compare(t[n], x) <= 0 {
        forall k | 0 <= k < |t| ensures t[k].date.value <= x.date.value {
          if k < n {
            assert t[k].date.value <= t[n].date.value;
          }
        }
        ChronologicalSnoc(t, x);
      } else {
        ChronologicalPrefix(t, n);
        InsertChronological(t[..n], x);
        var u := Insert(t[..n], x);
        forall k | 0 <= k < |u| ensures u[k].date.value <= t[n].date.value {
          var e := u[k];
          assert e in multiset(u);
          if e != x {
            assert e in multiset(t[..n]);
            var m :| 0 <= m < n && t[..n][m] == e;
            assert t[m].date.value <= t[n].date.value;
          }
        }
        ChronologicalSnoc(u, t[n]);
      }
    }
  }

  /** When every destination is dated, the display order is chronological. */
  lemma {:induction false} DisplayOrderChronological(ds: seq<Destination>)
    requires AllDated(ds)
    ensures Chronological(DisplayOrder(ds))
  {
    if |ds| > 0 {
      var n := |ds| - 1;
      assert AllDated(ds[..n]) by {
        forall i | 0 <= i < n ensures ds[..n][i].date.Some? {
          assert ds[..n][i] == ds[i];
        }
      }
      DisplayOrderChronological(ds[..n]);
      InsertChronological(DisplayOrder(ds[..n]), ds[n]);
    }
  }

  lemma {:induction false} InsertOnDay(t: seq<Destination>, x: Destination, day: Option<Day>)
    ensures OnDay(Insert(t, x), day) == OnDay(t, day) + (if x.date == day then [x] else [])
  {
    if |t| == 0 {
      OnDaySnoc([], x, day);
    } else {
      var n := |t| - 1;
      assert t == t[..n] + [t[n]];
      OnDaySnoc(t[..n], t[n], day);
      if Compare(t[n], x) <= 0 {
        OnDaySnoc(t, x, day);
      } else {
        InsertOnDay(t[..n], x, day);
        OnDaySnoc(Insert(t[..n], x), t[n], day);
        assert t[n].date != x.date;
      }
    }
  }

  /** When every destination is dated, the sort is stable: destinations that share a
      date appear in the display order as they were inserted. */
  lemma {:induction false} DisplayOrderStable(ds: seq<Destination>, day: Option<Day>)
    requires AllDated(ds)
    ensures OnDay(DisplayOrder(ds), day) == OnDay(ds, day)
  {
    if |ds| > 0 {
      var n := |ds| - 1;
      assert AllDated(ds[..n]) by {
        forall i | 0 <= i < n ensures ds[..n][i].date.Some? {
          assert ds[..n][i] == ds[i];
        }
      }
      DisplayOrderStable(ds[..n], day);
      InsertOnDay(DisplayOrder(ds[..n]), ds[n], day);
    }
  }

  /** A chronological sequence is its own display order. */
  lemma {:induction false} DisplayOrderOfChronological(ds: seq<Destination>)
    requires Chronological(ds)
    ensures DisplayOrder(ds) == ds
  {
    if |ds| > 0 {
      var n := |ds| - 1;
      var p := ds[..n];
      ChronologicalPrefix(ds, n);
      DisplayOrderOfChronological(p);
      assert DisplayOrder(ds) == Insert(p, ds[n]);
      if n > 0 {
        assert p[n - 1] == ds[n - 1];
        assert ds[n - 1].date.value <= ds[n].date.value;
        assert Compare(p[n - 1], ds[n]) <= 0;
      }
      assert Insert(p, ds[n]) == p + [ds[n]];
      assert p + [ds[n]] == ds;
    }
  }

  /** Re-sorting the display order of dated destinations reproduces it. */
  lemma DisplayOrderIdempotent(ds: seq<Destination>)
    requires AllDated(ds)
    ensures DisplayOrder(DisplayOrder(ds)) == DisplayOrder(ds)
  {
    DisplayOrderChronological(ds);
    DisplayOrderOfChronological(DisplayOrder(ds));
  }
}
