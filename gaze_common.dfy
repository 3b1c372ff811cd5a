/** Values shared by the gaze-interaction scripts: optional values, the vector
    types the engine hands over, the per-tick eye-tracker sample and sums of
    real sequences. Vector arithmetic itself (normalising, dot products,
    distances) stays with the engine; the scripts receive its results. */
module GazeCommon {

  datatype Option<+T> = None | Some(value: T)

  /** A 2-D texture coordinate (`Vector2`). */
  datatype Vec2 = Vec2(u: real, v: real)

  /** A 3-D point or direction (`Vector3`). */
  datatype Vec3 = Vec3(x: real, y: real, z: real) {
    /** Unary minus, component-wise. */
    function Neg(): Vec3
    {
      Vec3(-x, -y, -z)
    }
  }

  /** What the two `OVREyeGaze` references report on one tick: whether each
      reference is assigned at all, and whether it has eye tracking enabled. */
  datatype EyeSample = EyeSample(leftPresent: bool, rightPresent: bool,
                                 leftEnabled: bool, rightEnabled: bool)
  {
    /** Both references are assigned and at least one eye reports tracking. */
    predicate Tracking() {
      leftPresent && rightPresent && (leftEnabled || rightEnabled)
    }
  }

  /** Sum of a sequence, accumulated from the left as a `foreach` loop does. */
  function Sum(s: seq<real>): real
  {
    if s == [] then 0.0 else Sum(s[..|s| - 1]) + s[|s| - 1]
  }

  /** The arithmetic mean, with the scripts' zero guard for the empty sequence. */
  function Mean(s: seq<real>): real
  {
    if |s| == 0 then 0.0 else Sum(s) / (|s| as real)
  }

  /** Every element lies in [lo, hi]. */
  predicate AllWithin(s: seq<real>, lo: real, hi: real)
  {
    forall i :: 0 <= i < |s| ==> lo <= s[i] <= hi
  }

  /** Every element is at least lo. */
  predicate AllAtLeast(s: seq<real>, lo: real)
  {
    forall i :: 0 <= i < |s| ==> lo <= s[i]
  }

  /** A sum of n elements that are each at least lo is at least n * lo. */
  lemma {:induction false} SumAtLeast(s: seq<real>, lo: real)
    requires AllAtLeast(s, lo)
    ensures Sum(s) >= (|s| as real) * lo
  {
    if s != [] {
      SumAtLeast(s[..|s| - 1], lo);
    }
  }

  /** A sum of n elements that are each at most hi is at most n * hi. */
  lemma {:induction false} SumAtMost(s: seq<real>, hi: real)
    requires forall i :: 0 <= i < |s| ==> s[i] <= hi
    ensures Sum(s) <= (|s| as real) * hi
  {
    if s != [] {
      SumAtMost(s[..|s| - 1], hi);
    }
  }

  /** The mean of a non-empty sequence lies between its bounds. */
  lemma MeanWithin(s: seq<real>, lo: real, hi: real)
    requires |s| > 0 && AllWithin(s, lo, hi)
    ensures lo <= Mean(s) <= hi
  {
    SumAtLeast(s, lo);
    SumAtMost(s, hi);
    var n := |s| as real;
    assert Sum(s) / n >= lo by {
      assert Sum(s) >= n * lo;
    }
    assert Sum(s) / n <= hi by {
      assert Sum(s) <= n * hi;
    }
  }

  /** The mean of positive elements is positive, and only the empty mean is 0. */
  lemma {:induction false} MeanPositive(s: seq<real>)
    requires forall i :: 0 <= i < |s| ==> s[i] > 0.0
    ensures Mean(s) > 0.0 <==> |s| > 0
  {
    if s != [] {
      SumPositive(s);
    }
  }

  lemma {:induction false} SumPositive(s: seq<real>)
    requires |s| > 0 && forall i :: 0 <= i < |s| ==> s[i] > 0.0
    ensures Sum(s) > 0.0
  {
    if |s| > 1 {
      SumPositive(s[..|s| - 1]);
    }
  }
}
