/** Lookup by id over sequences of records: the first-match search of
    `findIndex`/`find`, the `filter` by id and the assignment to the slot
    found, as the planner applies them to trips and destinations. */
module Lookup {

  /** Index of the first element whose key is `id`, or -1 when there is none. */
  function FindIndex<T>(s: seq<T>, key: T -> int, id: int): (r: int)
    ensures -1 <= r < |s|
    ensures r == -1 <==> forall i :: 0 <= i < |s| ==> key(s[i]) != id
    ensures 0 <= r ==> key(s[r]) == id && forall i :: 0 <= i < r ==> key(s[i]) != id
  {
    if |s| == 0 then -1
    else if key(s[0]) == id then 0
    else
      var k := FindIndex(s[1..], key, id);
      if k < 0 then -1 else k + 1
  }

  /** The elements whose key is not `id`, in their original order. */
  function Without<T(!new)>(s: seq<T>, key: T -> int, id: int): (r: seq<T>)
    ensures |r| <= |s|
    ensures forall x :: x in r <==> x in s && key(x) != id
  {
    if |s| == 0 then []
    else (if key(s[0]) == id then [] else [s[0]]) + Without(s[1..], key, id)
  }

  /** Filtering distributes over concatenation: the kept elements keep their relative order. */
  lemma {:induction false} WithoutAppend<T(!new)>(a: seq<T>, b: seq<T>, key: T -> int, id: int)
    ensures Without(a + b, key, id) == Without(a, key, id) + Without(b, key, id)
  {
    if |a| == 0 {
      assert a + b == b;
    } else {
      assert (a + b)[1..] == a[1..] + b;
      WithoutAppend(a[1..], b, key, id);
    }
  }

  /** Filtering out an id that does not occur changes nothing. */
  lemma {:induction false} WithoutAbsent<T(!new)>(s: seq<T>, key: T -> int, id: int)
    requires forall i :: 0 <= i < |s| ==> key(s[i]) != id
    ensures Without(s, key, id) == s
  {
    if |s| > 0 {
      WithoutAbsent(s[1..], key, id);
    }
  }

  /** `s[FindIndex(s, key, id)] = v` when the index is not -1. */
  function Replace<T>(s: seq<T>, key: T -> int, id: int, v: T): (r: seq<T>)
    ensures |r| == |s|
    ensures FindIndex(s, key, id) < 0 ==> r == s
    ensures 0 <= FindIndex(s, key, id) ==> r[FindIndex(s, key, id)] == v
    ensures forall i :: 0 <= i < |s| && i != FindIndex(s, key, id) ==> r[i] == s[i]
  {
    var i := FindIndex(s, key, id);
    if i < 0 then s else s[i := v]
  }

  /** Writing a value with the same key leaves it the first match. */
  lemma ReplaceKeepsIndex<T>(s: seq<T>, key: T -> int, id: int, v: T)
    requires key(v) == id
    ensures FindIndex(Replace(s, key, id, v), key, id) == FindIndex(s, key, id)
  {
    var i := FindIndex(s, key, id);
    var r := Replace(s, key, id, v);
    if i >= 0 {
      assert key(r[i]) == id;
    } else {
      assert r == s;
    }
  }

  /** Writing the same value twice is writing it once. */
  lemma ReplaceTwice<T>(s: seq<T>, key: T -> int, id: int, v: T)
    requires key(v) == id
    ensures Replace(Replace(s, key, id, v), key, id, v) == Replace(s, key, id, v)
  {
    ReplaceKeepsIndex(s, key, id, v);
  }

  /** Writing back the value that already sits in the first matching slot changes nothing. */
  lemma ReplaceStored<T>(s: seq<T>, key: T -> int, id: int, v: T)
    requires 0 <= FindIndex(s, key, id) && s[FindIndex(s, key, id)] == v
    ensures Replace(s, key, id, v) == s
  {
  }
}
