/** Painter's order: `renderOrderComparator` (public/javascripts/main.js:121-133) and a
    stable insertion sort standing in for the library's `stableSort`. */
module Ordering {
  import opened Vectors
  import opened Objects

  /** `campos`: the point camera-relative centres are measured from. */
  const CAMPOS := Vector(0.0, 0.0, -100.0)

  /** The camera-relative centre of an object under the perspective transform `view`. */
  function Key(view: Vector -> Vector, o: SceneObject): Vector {
    Subtract(CAMPOS, view(o.center))
  }

  /** Lexicographic order on (z, x, y), strict. */
  predicate LexBefore(a: Vector, b: Vector) {
    a.z < b.z || (a.z == b.z && (a.x < b.x || (a.x == b.x && a.y < b.y)))
  }

  /** The comparator on camera-relative centres: -1, 0 or 1, negative exactly when `a`
      precedes `b` in (z, x, y) order, positive exactly when `b` precedes `a`, and 0
      exactly when the two are equal. */
  function CompareKeys(a: Vector, b: Vector): (c: int)
    ensures c == -1 || c == 0 || c == 1
    ensures c < 0 <==> LexBefore(a, b)
    ensures c > 0 <==> LexBefore(b, a)
    ensures c == 0 <==> a == b
  {
    if a.z < b.z then -1
    else if a.z > b.z then 1
    else if a.x < b.x then -1
    else if a.x > b.x then 1
    else if a.y < b.y then -1
    else if a.y > b.y then 1
    else 0
  }

  /** `renderOrderComparator(a, b)`: the comparator on the two objects' centres, each
      taken relative to CAMPOS after the perspective transform `view`. */
  function Compare(view: Vector -> Vector, a: SceneObject, b: SceneObject): (c: int)
    ensures c == -1 || c == 0 || c == 1
    ensures c < 0 <==> LexBefore(Key(view, a), Key(view, b))
    ensures c > 0 <==> LexBefore(Key(view, b), Key(view, a))
    ensures c == 0 <==> Key(view, a) == Key(view, b)
  {
    CompareKeys(Key(view, a), Key(view, b))
  }

  lemma CompareAntisymmetric(a: Vector, b: Vector)
    ensures CompareKeys(a, b) == -CompareKeys(b, a)
  {
  }

  /** Together with totality (`CompareKeys(a, b) <= 0 || CompareKeys(b, a) <= 0`, from
      antisymmetry) these make the comparator a total preorder. */
  lemma CompareTransitive(a: Vector, b: Vector, c: Vector)
    ensures CompareKeys(a, b) <= 0 && CompareKeys(b, c) <= 0 ==> CompareKeys(a, c) <= 0
    ensures CompareKeys(a, b) < 0 && CompareKeys(b, c) <= 0 ==> CompareKeys(a, c) < 0
    ensures CompareKeys(a, b) <= 0 && CompareKeys(b, c) < 0 ==> CompareKeys(a, c) < 0
  {
  }

  predicate Sorted(view: Vector -> Vector, s: seq<SceneObject>) {
    forall i, j :: 0 <= i < j < |s| ==> Compare(view, s[i], s[j]) <= 0
  }

  /** Insert `x` after every element that does not compare greater than it. */
  function Insert(view: Vector -> Vector, x: SceneObject, s: seq<SceneObject>): (r: seq<SceneObject>)
    ensures |r| == |s| + 1
  {
    if s == [] then [x]
    else if Compare(view, s[0], x) > 0 then [x] + s
    else [s[0]] + Insert(view, x, s[1..])
  }

  lemma {:induction false} InsertPermutes(view: Vector -> Vector, x: SceneObject, s: seq<SceneObject>)
    ensures multiset(Insert(view, x, s)) == multiset(s) + multiset{x}
  {
    if s == [] {
      assert Insert(view, x, s) == [x];
    } else if Compare(view, s[0], x) > 0 {
      assert Insert(view, x, s) == [x] + s;
    } else {
      var t := Insert(view, x, s[1..]);
      InsertPermutes(view, x, s[1..]);
      assert Insert(view, x, s) == [s[0]] + t;
      assert s == [s[0]] + s[1..];
      assert multiset([s[0]] + t) == multiset{s[0]} + multiset(t);
    }
  }

  /** Stable insertion sort by the comparator. */
  function StableSort(view: Vector -> Vector, s: seq<SceneObject>): (r: seq<SceneObject>)
    ensures |r| == |s|
  {
    if s == [] then []
    else Insert(view, s[|s| - 1], StableSort(view, s[..|s| - 1]))
  }

  /** The sort's output is a permutation of its input. */
  lemma {:induction false} StableSortPermutes(view: Vector -> Vector, s: seq<SceneObject>)
    ensures multiset(StableSort(view, s)) == multiset(s)
  {
    if s != [] {
      StableSortPermutes(view, s[..|s| - 1]);
      InsertPermutes(view, s[|s| - 1], StableSort(view, s[..|s| - 1]));
      assert s == s[..|s| - 1] + [s[|s| - 1]];
    }
  }

  /** Prepending an element that compares `<= 0` with every element keeps a list sorted. */
  lemma SortedCons(view: Vector -> Vector, y: SceneObject, t: seq<SceneObject>)
    requires Sorted(view, t)
    requires forall j :: 0 <= j < |t| ==> Compare(view, y, t[j]) <= 0
    ensures Sorted(view, [y] + t)
  {
    var r := [y] + t;
    forall i, j | 0 <= i < j < |r| ensures Compare(view, r[i], r[j]) <= 0 {
      assert r[j] == t[j - 1];
      if i > 0 { assert r[i] == t[i - 1]; }
    }
  }

  lemma SortedTail(view: Vector -> Vector, s: seq<SceneObject>)
    requires Sorted(view, s) && s != []
    ensures Sorted(view, s[1..])
    ensures forall j :: 0 <= j < |s[1..]| ==> Compare(view, s[0], s[1..][j]) <= 0
  {
    forall i, j | 0 <= i < j < |s[1..]| ensures Compare(view, s[1..][i], s[1..][j]) <= 0 {
      assert s[1..][i] == s[i + 1] && s[1..][j] == s[j + 1];
    }
    forall j | 0 <= j < |s[1..]| ensures Compare(view, s[0], s[1..][j]) <= 0 {
      assert s[1..][j] == s[j + 1];
    }
  }

  /** An element that the head of a sorted list exceeds precedes the whole list strictly. */
  lemma BeforeAll(view: Vector -> Vector, x: SceneObject, s: seq<SceneObject>)
    requires Sorted(view, s) && s != [] && Compare(view, s[0], x) > 0
    ensures forall j :: 0 <= j < |s| ==> Compare(view, x, s[j]) < 0
  {
    forall j | 0 <= j < |s| ensures Compare(view, x, s[j]) < 0 {
      CompareAntisymmetric(Key(view, s[0]), Key(view, x));
      CompareTransitive(Key(view, x), Key(view, s[0]), Key(view, s[j]));
    }
  }

  lemma {:induction false} InsertSorted(view: Vector -> Vector, x: SceneObject, s: seq<SceneObject>)
    requires Sorted(view, s)
    ensures Sorted(view, Insert(view, x, s))
  {
    if s == [] {
    } else if Compare(view, s[0], x) > 0 {
      BeforeAll(view, x, s);
      SortedCons(view, x, s);
    } else {
      var rest := s[1..];
      SortedTail(view, s);
      InsertSorted(view, x, rest);
      var t := Insert(view, x, rest);
      InsertPermutes(view, x, rest);
      forall j | 0 <= j < |t| ensures Compare(view, s[0], t[j]) <= 0 {
        assert t[j] in multiset(t);
        if t[j] != x {
          assert t[j] in multiset(rest);
          var k :| 0 <= k < |rest| && rest[k] == t[j];
        }
      }
      SortedCons(view, s[0], t);
    }
  }

  /** The sort's output is in painter's order. */
  lemma {:induction false} StableSortSorted(view: Vector -> Vector, s: seq<SceneObject>)
    ensures Sorted(view, StableSort(view, s))
  {
    if s != [] {
      StableSortSorted(view, s[..|s| - 1]);
      InsertSorted(view, s[|s| - 1], StableSort(view, s[..|s| - 1]));
    }
  }

  /** `[x]` when `x`'s camera-relative centre is `k`, `[]` otherwise. */
  function TieOf(view: Vector -> Vector, k: Vector, x: SceneObject): seq<SceneObject> {
    if Key(view, x) == k then [x] else []
  }

  /** The elements of `s` whose camera-relative centre is `k`, in their order in `s`. */
  function TiesAt(view: Vector -> Vector, k: Vector, s: seq<SceneObject>): seq<SceneObject> {
    if s == [] then [] else TieOf(view, k, s[0]) + TiesAt(view, k, s[1..])
  }

  lemma {:induction false} TiesAppend(view: Vector -> Vector, k: Vector, a: seq<SceneObject>, b: seq<SceneObject>)
    ensures TiesAt(view, k, a + b) == TiesAt(view, k, a) + TiesAt(view, k, b)
  {
    if a != [] {
      var ab := a + b;
      assert ab[0] == a[0] && ab[1..] == a[1..] + b;
      TiesAppend(view, k, a[1..], b);
      calc {
        TiesAt(view, k, ab);
        TieOf(view, k, a[0]) + TiesAt(view, k, a[1..] + b);
        TieOf(view, k, a[0]) + (TiesAt(view, k, a[1..]) + TiesAt(view, k, b));
        (TieOf(view, k, a[0]) + TiesAt(view, k, a[1..])) + TiesAt(view, k, b);
      }
    } else {
      assert a + b == b;
    }
  }

  lemma {:induction false} NoTies(view: Vector -> Vector, k: Vector, s: seq<SceneObject>)
    requires forall j :: 0 <= j < |s| ==> Key(view, s[j]) != k
    ensures TiesAt(view, k, s) == []
  {
    if s != [] {
      NoTies(view, k, s[1..]);
    }
  }

  lemma {:induction false} InsertTies(view: Vector -> Vector, k: Vector, x: SceneObject, s: seq<SceneObject>)
    requires Sorted(view, s)
    ensures TiesAt(view, k, Insert(view, x, s)) == TiesAt(view, k, s) + TieOf(view, k, x)
  {
    if s == [] {
      assert Insert(view, x, s) == [x];
      assert [x][1..] == [];
    } else if Compare(view, s[0], x) > 0 {
      InsertFrontTies(view, k, x, s);
    } else {
      var t := Insert(view, x, s[1..]);
      SortedTail(view, s);
      InsertTies(view, k, x, s[1..]);
      var r := [s[0]] + t;
      assert Insert(view, x, s) == r;
      assert r[0] == s[0] && r[1..] == t;
      calc {
        TiesAt(view, k, r);
        TieOf(view, k, s[0]) + TiesAt(view, k, t);
        TieOf(view, k, s[0]) + (TiesAt(view, k, s[1..]) + TieOf(view, k, x));
        (TieOf(view, k, s[0]) + TiesAt(view, k, s[1..])) + TieOf(view, k, x);
      }
    }
  }

  /** When `x` goes to the front, no element of `s` shares its camera-relative centre. */
  lemma InsertFrontTies(view: Vector -> Vector, k: Vector, x: SceneObject, s: seq<SceneObject>)
    requires Sorted(view, s) && s != [] && Compare(view, s[0], x) > 0
    ensures TiesAt(view, k, Insert(view, x, s)) == TiesAt(view, k, s) + TieOf(view, k, x)
  {
    var r := [x] + s;
    assert Insert(view, x, s) == r;
    assert r[0] == x && r[1..] == s;
    assert TiesAt(view, k, r) == TieOf(view, k, x) + TiesAt(view, k, s);
    if Key(view, x) == k {
      BeforeAll(view, x, s);
      NoTies(view, k, s);
    } else {
      assert TieOf(view, k, x) == [];
    }
  }

  /** Stability: for every camera-relative centre, the objects that share it appear in
      the sorted output in exactly their input order. With `StableSortSorted` and the
      permutation property this pins the sort down. */
  lemma {:induction false} StableSortStable(view: Vector -> Vector, k: Vector, s: seq<SceneObject>)
    ensures TiesAt(view, k, StableSort(view, s)) == TiesAt(view, k, s)
  {
    if s != [] {
      var front, last := s[..|s| - 1], s[|s| - 1];
      var sortedFront := StableSort(view, front);
      assert StableSort(view, s) == Insert(view, last, sortedFront);
      StableSortStable(view, k, front);
      StableSortSorted(view, front);
      InsertTies(view, k, last, sortedFront);
      assert TiesAt(view, k, StableSort(view, s)) == TiesAt(view, k, front) + TieOf(view, k, last);
      TiesSnoc(view, k, front, last);
      assert front + [last] == s;
    }
  }

  lemma TiesSnoc(view: Vector -> Vector, k: Vector, front: seq<SceneObject>, last: SceneObject)
    ensures TiesAt(view, k, front + [last]) == TiesAt(view, k, front) + TieOf(view, k, last)
  {
    TiesAppend(view, k, front, [last]);
    assert [last][1..] == [];
    assert TiesAt(view, k, [last]) == TieOf(view, k, last) + TiesAt(view, k, []);
  }

  /** Sorting keeps exactly the input's objects, so it keeps their well-formedness. */
  lemma StableSortKeeps(view: Vector -> Vector, s: seq<SceneObject>)
    ensures |StableSort(view, s)| == |s|
    ensures forall o :: o in StableSort(view, s) <==> o in s
    ensures AllWellFormed(s) ==> AllWellFormed(StableSort(view, s))
  {
    var r := StableSort(view, s);
    StableSortPermutes(view, s);
    forall o ensures o in r <==> o in s {
      assert o in r <==> o in multiset(r);
      assert o in s <==> o in multiset(s);
    }
    if AllWellFormed(s) {
      forall i | 0 <= i < |r| ensures WellFormed(r[i]) {
        assert r[i] in s;
      }
    }
  }
}
