/**
 * The two bodies of the ranges-projector benchmark (ranges-projector/projector.cc):
 * NBMK times, `ranges::transform` writes twice the x field of every element of v
 * into w, once with a lambda reading `a.x` ("TransformComparator") and once with
 * the projection `&S::x` followed by a lambda doubling its argument
 * ("TransformProjector").
 */
module RangesProjector {

  /** `N` and `NBMK` of the benchmark. */
  const N: int := 100
  const NBMK: int := 1000

  /** `struct S { int x, y; }`. */
  datatype S = S(x: int, y: int)

  /** The values of `uniform_int_distribution<int> {0, 100}`. */
  predicate Drawn(n: int)
  {
    0 <= n <= 100
  }

  /** The lambda of "TransformComparator": `a.x * 2`. */
  function DoubleX(a: S): int
  {
    a.x * 2
  }

  /** The projection `&S::x` of "TransformProjector". */
  function ProjectX(a: S): int
  {
    a.x
  }

  /** The lambda of "TransformProjector": `x * 2`. */
  function Twice(n: int): int
  {
    n * 2
  }

  /** Projecting first and then doubling is the comparator's lambda. */
  lemma ProjectorAgrees(a: S)
    ensures Twice(ProjectX(a)) == DoubleX(a)
  {
  }

  /** What one transform writes into w: twice the x field of each element of v. */
  function Transformed(v: seq<S>): (r: seq<int>)
    ensures |r| == |v|
  {
    seq(|v|, k requires 0 <= k < |v| => DoubleX(v[k]))
  }

  /** The result reads only x: elements that differ in y alone give the same w. */
  lemma {:induction false} TransformedIgnoresY(v: seq<S>, u: seq<S>)
    requires |v| == |u| && forall k :: 0 <= k < |v| ==> v[k].x == u[k].x
    ensures Transformed(v) == Transformed(u)
  {
    forall k | 0 <= k < |v|
      ensures Transformed(v)[k] == Transformed(u)[k]
    {
      assert DoubleX(v[k]) == DoubleX(u[k]);
    }
  }

  /** With x drawn from [0, 100] every value written lies in [0, 200]. */
  lemma TransformedRange(v: seq<S>)
    requires forall k :: 0 <= k < |v| ==> Drawn(v[k].x)
    ensures forall k :: 0 <= k < |v| ==> 0 <= Transformed(v)[k] <= 200
  {
    forall k | 0 <= k < |v|
      ensures 0 <= Transformed(v)[k] <= 200
    {
      assert Drawn(v[k].x);
    }
  }

  /** `TestFixture`: v holds N random points and w, resized to N, the output. */
  class TestFixture {
    var v: seq<S>
    var w: array<int>

    predicate Valid()
      reads this
    {
      |v| == N && w.Length == N
    }

    /** The constructor; the random points are its argument. `w.resize(N)`
        value-initialises w to zeros. */
    constructor (points: seq<S>)
      requires |points| == N && forall k :: 0 <= k < N ==> Drawn(points[k].x) && Drawn(points[k].y)
      ensures Valid() && v == points && fresh(w) && w[..] == seq(N, _ => 0)
    {
      v := points;
      w := new int[N](_ => 0);
    }

    /** One `ranges::transform(v.begin(), v.end(), w.begin(), f)` with
        `f(a) = a.x * 2`: w[k] becomes twice v[k].x, whatever w held before. */
    method TransformOnce()
      requires Valid()
      modifies w
      ensures w[..] == Transformed(v)
    {
      var k := 0;
      while k < |v|
        invariant 0 <= k <= |v|
        invariant w[..k] == Transformed(v)[..k]
      {
        w[k] := v[k].x * 2;
        k := k + 1;
      }
      assert w[..] == w[..k];
    }

    /** The same transform through the projection `&S::x` and `x * 2`. */
    method TransformProjectedOnce()
      requires Valid()
      modifies w
      ensures w[..] == Transformed(v)
    {
      var k := 0;
      while k < |v|
        invariant 0 <= k <= |v|
        invariant w[..k] == Transformed(v)[..k]
      {
        ProjectorAgrees(v[k]);
        w[k] := Twice(ProjectX(v[k]));
        k := k + 1;
      }
      assert w[..] == w[..k];
    }

    /** "TransformComparator": NBMK rounds; each overwrites all of w, so repeating
        leaves what one round leaves. */
    method TransformComparator()
      requires Valid()
      modifies w
      ensures w[..] == Transformed(v)
    {
      var i := 0;
      while i < NBMK
        invariant 0 <= i <= NBMK
        invariant i > 0 ==> w[..] == Transformed(v)
      {
        TransformOnce();
        i := i + 1;
      }
    }

    /** "TransformProjector": NBMK rounds of the projected transform; it leaves the
        same w as "TransformComparator". */
    method TransformProjector()
      requires Valid()
      modifies w
      ensures w[..] == Transformed(v)
    {
      var i := 0;
      while i < NBMK
        invariant 0 <= i <= NBMK
        invariant i > 0 ==> w[..] == Transformed(v)
      {
        TransformProjectedOnce();
        i := i + 1;
      }
    }
  }
}
