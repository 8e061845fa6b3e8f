/**
 * The triangle-classification topic (triangleData.ts): a fixed pool of
 * triangles, each labelled by its angles and by its sides, shuffled with a
 * Fisher–Yates shuffle and repeated to fill the session.
 */
module Triangles {
  import opened Common
  import opened DecimalDigits

  datatype AngleType = Acute | Right | Obtuse
  datatype SideType = Equilateral | Isosceles | Scalene

  /**
   * One entry of the pool: the drawing's corner points, the side lengths and
   * the angles (in degrees) shown on it, and its two labels.
   */
  datatype Triangle = Triangle(points: seq<(int, int)>, sides: seq<int>, angles: seq<int>,
                               angleType: AngleType, sideType: SideType)

  /** `TRIANGLES`: the pool, in the order the table lists it. */
  const Pool: seq<Triangle> := [
    Triangle([(150, 30), (50, 200), (250, 200)], [7, 7, 7], [60, 60, 60], Acute, Equilateral),
    Triangle([(150, 20), (40, 210), (260, 210)], [9, 9, 9], [60, 60, 60], Acute, Equilateral),
    Triangle([(50, 200), (50, 50), (200, 200)], [6, 6, 8], [90, 45, 45], Right, Isosceles),
    Triangle([(50, 200), (50, 50), (250, 200)], [5, 8, 9], [90, 32, 58], Right, Scalene),
    Triangle([(40, 210), (40, 60), (220, 210)], [6, 7, 10], [90, 40, 50], Right, Scalene),
    Triangle([(150, 30), (60, 190), (240, 190)], [8, 8, 6], [70, 70, 40], Acute, Isosceles),
    Triangle([(150, 40), (70, 200), (230, 200)], [10, 10, 7], [65, 65, 50], Acute, Isosceles),
    Triangle([(120, 30), (40, 200), (250, 180)], [7, 8, 9], [50, 60, 70], Acute, Scalene),
    Triangle([(150, 60), (50, 180), (250, 180)], [8, 8, 12], [40, 40, 100], Obtuse, Isosceles),
    Triangle([(80, 50), (30, 200), (270, 200)], [6, 9, 12], [30, 35, 115], Obtuse, Scalene),
    Triangle([(100, 40), (20, 190), (260, 210)], [5, 10, 11], [25, 45, 110], Obtuse, Scalene),
    Triangle([(120, 50), (40, 210), (280, 190)], [7, 11, 13], [28, 52, 100], Obtuse, Scalene)
  ]

  /**
   * The angle class as the hints define it: right when one angle is exactly
   * 90°, obtuse when one is greater than 90°, acute when all are smaller.
   */
  function AngleClass(angles: seq<int>): AngleType
    requires |angles| == 3
  {
    if exists i | 0 <= i < 3 :: angles[i] == 90 then Right
    else if exists i | 0 <= i < 3 :: angles[i] > 90 then Obtuse
    else Acute
  }

  /**
   * The side class as the hints define it: equilateral when all three sides
   * are equal, isosceles when exactly two are, scalene when no two are.
   */
  function SideClass(sides: seq<int>): SideType
    requires |sides| == 3
  {
    if sides[0] == sides[1] == sides[2] then Equilateral
    else if sides[0] == sides[1] || sides[1] == sides[2] || sides[0] == sides[2] then Isosceles
    else Scalene
  }

  /** A pool entry is a real triangle whose labels match its numbers. */
  predicate WellFormed(t: Triangle)
  {
    && |t.points| == 3 && |t.sides| == 3 && |t.angles| == 3
    && (forall i | 0 <= i < 3 :: t.angles[i] > 0 && t.sides[i] > 0)
    && t.angles[0] + t.angles[1] + t.angles[2] == 180
    && t.angleType == AngleClass(t.angles)
    && t.sideType == SideClass(t.sides)
  }

  /** Every entry's angles sum to 180° and both labels agree with the hints' definitions. */
  lemma PoolWellFormed()
    ensures |Pool| == 12
    ensures forall i | 0 <= i < |Pool| :: WellFormed(Pool[i])
  {
    forall i | 0 <= i < |Pool| ensures WellFormed(Pool[i]) {
      var t := Pool[i];
      assert t.angles[0] == 90 || t.angles[1] == 90 || t.angles[2] == 90
          || (t.angleType != Right && AngleClass(t.angles) != Right);
      assert t.angles[2] > 90 || (t.angleType != Obtuse && AngleClass(t.angles) != Obtuse);
    }
  }

  /** No two entries of the pool are the same. */
  lemma PoolDistinct()
    ensures Distinct(Pool)
  {
  }

  /**
   * In a triangle at most one angle is 90° or more, so the three angle
   * classes never overlap.
   */
  lemma AtMostOneWideAngle(angles: seq<int>)
    requires |angles| == 3
    requires forall i | 0 <= i < 3 :: angles[i] > 0
    requires angles[0] + angles[1] + angles[2] == 180
    ensures forall i, j | 0 <= i < j < 3 :: angles[i] < 90 || angles[j] < 90
  {
  }

  predicate Distinct<T(==)>(s: seq<T>)
  {
    forall i, j | 0 <= i < j < |s| :: s[i] != s[j]
  }

  /** `[a[i], a[j]] = [a[j], a[i]]`. */
  function Swap<T>(s: seq<T>, i: nat, j: nat): (r: seq<T>)
    requires i < |s| && j < |s|
    ensures |r| == |s| && r[i] == s[j] && r[j] == s[i]
    ensures forall k | 0 <= k < |s| && k != i && k != j :: r[k] == s[k]
  {
    s[i := s[j]][j := s[i]]
  }

  /** A swap keeps every element, as often as it occurs. */
  lemma SwapPermutes<T>(s: seq<T>, i: nat, j: nat)
    requires i < |s| && j < |s|
    ensures multiset(Swap(s, i, j)) == multiset(s)
  {
    var t := s[i := s[j]];
    assert multiset(t) == multiset(s) - multiset{s[i]} + multiset{s[j]};
    assert multiset(t[j := s[i]]) == multiset(t) - multiset{t[j]} + multiset{s[i]};
  }

  /** All draws `Math.random()` returned lie in [0, 1). */
  predicate ValidDraws(us: seq<real>)
  {
    forall k | 0 <= k < |us| :: 0.0 <= us[k] < 1.0
  }

  /**
   * The shuffle's loop from index i down to 1: at each i, swap position i with
   * j = `Math.floor(Math.random() * (i + 1))`, where `us[i]` is that draw.
   */
  function ShuffleFrom<T>(s: seq<T>, i: int, us: seq<real>): (r: seq<T>)
    requires i < |s| && |us| == |s| && ValidDraws(us)
    ensures |r| == |s|
    decreases i
  {
    if i <= 0 then s
    else ShuffleFrom(Swap(s, i, RandInt(0, i, us[i])), i - 1, us)
  }

  /** The shuffle only reorders: it keeps every element, as often as it occurs. */
  lemma {:induction false} ShufflePermutes<T>(s: seq<T>, i: int, us: seq<real>)
    requires i < |s| && |us| == |s| && ValidDraws(us)
    ensures multiset(ShuffleFrom(s, i, us)) == multiset(s)
    decreases i
  {
    if i > 0 {
      var j := RandInt(0, i, us[i]);
      SwapPermutes(s, i, j);
      ShufflePermutes(Swap(s, i, j), i - 1, us);
    }
  }

  /** Swapping two positions keeps a sequence free of repeats. */
  lemma SwapDistinct<T>(s: seq<T>, i: nat, j: nat)
    requires i < |s| && j < |s| && Distinct(s)
    ensures Distinct(Swap(s, i, j))
  {
    var r := Swap(s, i, j);
    forall a, b | 0 <= a < b < |r| ensures r[a] != r[b] {
      var a' := if a == i then j else if a == j then i else a;
      var b' := if b == i then j else if b == j then i else b;
      assert r[a] == s[a'] && r[b] == s[b'] && a' != b';
    }
  }

  /** The shuffle keeps a sequence free of repeats. */
  lemma {:induction false} ShuffleDistinct<T>(s: seq<T>, i: int, us: seq<real>)
    requires i < |s| && |us| == |s| && ValidDraws(us) && Distinct(s)
    ensures Distinct(ShuffleFrom(s, i, us))
    decreases i
  {
    if i > 0 {
      var j := RandInt(0, i, us[i]);
      SwapDistinct(s, i, j);
      ShuffleDistinct(Swap(s, i, j), i - 1, us);
    }
  }

  /**
   * `shuffle(arr)`: copy the array and swap inside the copy from the last
   * index down to 1.  The argument is left as it was.
   */
  method Shuffle<T>(arr: array<T>, us: seq<real>) returns (a: array<T>)
    requires |us| == arr.Length && ValidDraws(us)
    ensures fresh(a) && arr[..] == old(arr[..])
    ensures a[..] == ShuffleFrom(arr[..], arr.Length - 1, us)
  {
    a := new T[arr.Length](k requires 0 <= k < arr.Length reads arr => arr[k]);
    assert a[..] == arr[..];
    var i := a.Length - 1;
    while i > 0
      invariant -1 <= i < a.Length && a.Length == arr.Length
      invariant ShuffleFrom(a[..], i, us) == ShuffleFrom(arr[..], arr.Length - 1, us)
      decreases i
    {
      ghost var before := a[..];
      var j := RandInt(0, i, us[i]);
      assert ShuffleFrom(before, i, us) == ShuffleFrom(Swap(before, i, j), i - 1, us);
      a[i], a[j] := a[j], a[i];
      assert a[..] == Swap(before, i, j);
      i := i - 1;
    }
  }

  /**
   * `getTriangleQuestions(count)`: shuffle the pool, append the shuffled pool
   * until there are at least `count` items, and keep the first `count`.
   */
  method GetTriangleQuestions(count: nat, us: seq<real>) returns (r: seq<Triangle>)
    requires |us| == |Pool| && ValidDraws(us)
    ensures |r| == count
    ensures forall k | 0 <= k < count :: r[k] == ShuffleFrom(Pool, |Pool| - 1, us)[k % |Pool|]
    ensures forall k | 0 <= k < count :: r[k] in Pool && WellFormed(r[k])
    ensures count <= |Pool| ==> Distinct(r)
  {
    var pool := new Triangle[|Pool|](k requires 0 <= k < |Pool| => Pool[k]);
    assert pool[..] == Pool;
    var shuffled := Shuffle(pool, us);
    r := RepeatToCount(shuffled[..], count);
    QuestionsFromPool(count, us, r);
  }

  /** The loop of `getTriangleQuestions`: push the whole of `order` until `count` is reached, then cut. */
  method RepeatToCount<T>(order: seq<T>, count: nat) returns (r: seq<T>)
    requires |order| > 0
    ensures |r| == count
    ensures forall k | 0 <= k < count :: r[k] == order[k % |order|]
  {
    var n := |order|;
    var result: seq<T> := [];
    ghost var rounds := 0;
    while |result| < count
      invariant |result| == n * rounds && |result| < count + n
      invariant forall k | 0 <= k < |result| :: result[k] == order[k % n]
      decreases count - |result|
    {
      var before := result;
      result := result + order;
      forall k | |before| <= k < |result|
        ensures result[k] == order[k % n]
      {
        ModShift(k, n, rounds);
      }
      rounds := rounds + 1;
    }
    r := result[..count];
  }

  /** Within the (q+1)-th block of n indices, the remainder by n is the offset in the block. */
  lemma ModShift(k: int, n: int, q: int)
    requires n > 0 && n * q <= k < n * q + n
    ensures k % n == k - n * q
  {
    DivUnique(k, n, q, k - n * q);
  }

  /**
   * Repeating a reordering of a pool gives items of the pool, and gives no
   * item twice while the count does not exceed the pool's size.
   */
  lemma RepeatedFromPool<T>(pool: seq<T>, order: seq<T>, count: nat, r: seq<T>)
    requires |order| == |pool| > 0 && multiset(order) == multiset(pool)
    requires |r| == count
    requires forall k | 0 <= k < count :: r[k] == order[k % |order|]
    ensures forall k | 0 <= k < count :: r[k] in pool
    ensures count <= |pool| && Distinct(order) ==> Distinct(r)
  {
    forall k | 0 <= k < count ensures r[k] in pool {
      var x := order[k % |order|];
      assert x in multiset(order);
      assert x in multiset(pool);
    }
    if count <= |pool| && Distinct(order) {
      forall a, b | 0 <= a < b < count ensures r[a] != r[b] {
        SmallRemainder(a, |order|);
        SmallRemainder(b, |order|);
        assert r[a] == order[a] && r[b] == order[b];
      }
    }
  }

  lemma SmallRemainder(k: nat, n: nat)
    requires k < n
    ensures k % n == k
  {
  }

  /**
   * What the session receives: pool entries only, every one well formed,
   * with no entry repeated while `count` does not exceed the pool's size.
   */
  lemma QuestionsFromPool(count: nat, us: seq<real>, r: seq<Triangle>)
    requires |us| == |Pool| && ValidDraws(us)
    requires |r| == count
    requires forall k | 0 <= k < count :: r[k] == ShuffleFrom(Pool, |Pool| - 1, us)[k % |Pool|]
    ensures forall k | 0 <= k < count :: r[k] in Pool && WellFormed(r[k])
    ensures count <= |Pool| ==> Distinct(r)
  {
    ShufflePermutes(Pool, |Pool| - 1, us);
    PoolDistinct();
    ShuffleDistinct(Pool, |Pool| - 1, us);
    RepeatedFromPool(Pool, ShuffleFrom(Pool, |Pool| - 1, us), count, r);
    PoolWellFormed();
  }
}
