/** Standard scaling of the feature vector (main.js lines 63-66 and 124-125):
    every position is shifted by its training mean and divided by its
    training standard deviation. Numbers are idealised as reals. */
module Scaling {

  /** Number of features the regression model takes. */
  const FeatureCount: nat := 8

  /** Per-feature training means, in feature order. */
  const ScalingMean: seq<real> := [
    177.62431826259606, 2.7129042932604515, 5.882453151618399, 0.9710882060961112,
    121739.12073339625, 0.9238169941048865, 1.057431397301239, 17.380767958035616]

  /** Per-feature training standard deviations, in feature order. */
  const ScalingStd: seq<real> := [
    283.53371191795486, 0.7306282533024211, 1.6256224551274014, 0.3256881776561781,
    206713.83456102648, 0.2652907000026549, 0.8860048265932386, 9.566076237447591]

  predicate NonZero(s: seq<real>) {
    forall i :: 0 <= i < |s| ==> s[i] != 0.0
  }

  /** The parameter tables cover every feature, and no standard deviation is
      zero, so scaling never reads past a table or divides by zero. */
  lemma TablesWellFormed()
    ensures |ScalingMean| == FeatureCount && |ScalingStd| == FeatureCount
    ensures forall i :: 0 <= i < FeatureCount ==> ScalingStd[i] > 0.0
    ensures NonZero(ScalingStd)
  {
  }

  /** Standard scaling (main.js line 125): each position is shifted by the
      mean at that position and divided by the standard deviation there.
      ScaleRoundTrip and UnscaleRoundTrip relate it to its inverse. */
  function Scale(v: seq<real>, mean: seq<real>, std: seq<real>): (r: seq<real>)
    requires |mean| == |v| && |std| == |v| && NonZero(std)
    ensures |r| == |v|
  {
    seq(|v|, i requires 0 <= i < |v| => (v[i] - mean[i]) / std[i])
  }

  /** The inverse transform, mapping a scaled vector back to raw values. */
  function Unscale(r: seq<real>, mean: seq<real>, std: seq<real>): (v: seq<real>)
    requires |mean| == |r| && |std| == |r|
    ensures |v| == |r|
  {
    seq(|r|, i requires 0 <= i < |r| => r[i] * std[i] + mean[i])
  }

  lemma UnscaleUndoesScale(x: real, m: real, d: real, y: real)
    requires d != 0.0 && y == (x - m) / d
    ensures y * d + m == x
  {
  }

  lemma ScaleUndoesUnscale(y: real, m: real, d: real, x: real)
    requires d != 0.0 && x == y * d + m
    ensures (x - m) / d == y
  {
  }

  /** Scaling loses nothing: the raw vector is recovered from the scaled one. */
  lemma {:induction false} ScaleRoundTrip(v: seq<real>, mean: seq<real>, std: seq<real>)
    requires |mean| == |v| && |std| == |v| && NonZero(std)
    ensures Unscale(Scale(v, mean, std), mean, std) == v
  {
    var s := Scale(v, mean, std);
    forall i | 0 <= i < |v|
      ensures Unscale(s, mean, std)[i] == v[i]
    {
      UnscaleUndoesScale(v[i], mean[i], std[i], s[i]);
    }
  }

  /** Every vector is the scaled image of its unscaled form. */
  lemma {:induction false} UnscaleRoundTrip(r: seq<real>, mean: seq<real>, std: seq<real>)
    requires |mean| == |r| && |std| == |r| && NonZero(std)
    ensures Scale(Unscale(r, mean, std), mean, std) == r
  {
    var u := Unscale(r, mean, std);
    forall i | 0 <= i < |r|
      ensures Scale(u, mean, std)[i] == r[i]
    {
      ScaleUndoesUnscale(r[i], mean[i], std[i], u[i]);
    }
  }

  /** Two raw vectors scale to the same vector exactly when they are equal. */
  lemma ScaleInjective(v: seq<real>, w: seq<real>, mean: seq<real>, std: seq<real>)
    requires |mean| == |v| && |std| == |v| && |w| == |v| && NonZero(std)
    ensures Scale(v, mean, std) == Scale(w, mean, std) <==> v == w
  {
    if Scale(v, mean, std) == Scale(w, mean, std) {
      ScaleRoundTrip(v, mean, std);
      ScaleRoundTrip(w, mean, std);
    }
  }

  function Repeat(x: real, n: nat): (r: seq<real>)
    ensures |r| == n
    ensures forall i :: 0 <= i < n ==> r[i] == x
  {
    if n == 0 then [] else [x] + Repeat(x, n - 1)
  }

  /** With mean 0 and standard deviation 1 at every position, scaling is the
      identity. */
  lemma ScaleWithUnitParameters(v: seq<real>)
    ensures Scale(v, Repeat(0.0, |v|), Repeat(1.0, |v|)) == v
  {
    var r := Scale(v, Repeat(0.0, |v|), Repeat(1.0, |v|));
    assert forall i :: 0 <= i < |v| ==> r[i] == v[i];
  }
}
