/** sklearn's MinMaxScaler with its default feature range (0, 1), as the
    engine uses it: fit records the per-feature minimum and maximum of a
    sample matrix, transform maps x to (x - min) / (max - min). A feature
    whose range is zero is scaled by 1 instead, so it maps to x - min. */
module Scaling {
  import opened Common
  import opened Stats

  /** Every row of the sample matrix has w features. */
  predicate Rectangular(x: seq<seq<real>>, w: nat) {
    forall i :: 0 <= i < |x| ==> |x[i]| == w
  }

  function Column(x: seq<seq<real>>, j: nat): (c: seq<real>)
    requires forall i :: 0 <= i < |x| ==> j < |x[i]|
    ensures |c| == |x| && forall i :: 0 <= i < |x| ==> c[i] == x[i][j]
  {
    seq(|x|, i requires 0 <= i < |x| => x[i][j])
  }

  /** The data_min_ of a fit: the minimum of each column. */
  function ColumnMins(x: seq<seq<real>>, w: nat): (m: seq<real>)
    requires |x| > 0 && Rectangular(x, w)
    ensures |m| == w
  {
    seq(w, j requires 0 <= j < w => Min(Column(x, j)))
  }

  /** The data_max_ of a fit: the maximum of each column. */
  function ColumnMaxs(x: seq<seq<real>>, w: nat): (m: seq<real>)
    requires |x| > 0 && Rectangular(x, w)
    ensures |m| == w
  {
    seq(w, j requires 0 <= j < w => Max(Column(x, j)))
  }

  /** The scaling of one value by a fitted feature. */
  function Scale(v: real, lo: real, hi: real): (r: real)
    ensures hi - lo != 0.0 ==> lo + r * (hi - lo) == v
  {
    if hi - lo == 0.0 then v - lo else (v - lo) / (hi - lo)
  }

  /** The transform of a whole matrix with fitted minima and maxima. */
  function TransformRows(x: seq<seq<real>>, lo: seq<real>, hi: seq<real>): (t: seq<seq<real>>)
    requires |lo| == |hi| && Rectangular(x, |lo|)
    ensures |t| == |x| && Rectangular(t, |lo|)
    ensures forall i, j :: 0 <= i < |x| && 0 <= j < |lo| ==> t[i][j] == Scale(x[i][j], lo[j], hi[j])
  {
    seq(|x|, i requires 0 <= i < |x| =>
      seq(|lo|, j requires 0 <= j < |lo| => Scale(x[i][j], lo[j], hi[j])))
  }

  /** The input validation of fit: at least one sample and one feature, and
      every sample of the same width. */
  function CheckSamples(x: seq<seq<real>>): Option<Failure> {
    if |x| == 0 then Some(EmptyInput)
    else if |x[0]| == 0 || !Rectangular(x, |x[0]|) then Some(BadShape)
    else None
  }

  class MinMaxScaler {
    var fitted: bool
    var dataMin: seq<real>
    var dataMax: seq<real>

    ghost predicate Valid()
      reads this
    {
      && |dataMin| == |dataMax|
      && (fitted <==> |dataMin| > 0)
      && forall j :: 0 <= j < |dataMin| ==> dataMin[j] <= dataMax[j]
    }

    constructor ()
      ensures Valid() && !fitted
    {
      fitted := false;
      dataMin := [];
      dataMax := [];
    }

    /** fit: the scaler is reset first, so a fit that fails validation
        leaves it unfitted. */
    method Fit(x: seq<seq<real>>) returns (r: Result<()>)
      modifies this
      ensures Valid()
      ensures CheckSamples(x).Some? ==> r == Err(CheckSamples(x).value) && !fitted
      ensures CheckSamples(x).None? ==>
        && r == Ok(())
        && fitted
        && dataMin == ColumnMins(x, |x[0]|)
        && dataMax == ColumnMaxs(x, |x[0]|)
    {
      fitted, dataMin, dataMax := false, [], [];
      var check := CheckSamples(x);
      if check.Some? {
        return Err(check.value);
      }
      var w := |x[0]|;
      dataMin := ColumnMins(x, w);
      dataMax := ColumnMaxs(x, w);
      forall j | 0 <= j < w ensures dataMin[j] <= dataMax[j] {
        var c := Column(x, j);
        assert Min(c) <= c[0] <= Max(c);
      }
      fitted := true;
      r := Ok(());
    }

    /** transform: not-fitted is checked first, then the samples. */
    function Transform(x: seq<seq<real>>): (r: Result<seq<seq<real>>>)
      reads this
      requires Valid()
      ensures !fitted ==> r == Err(NotFitted)
      ensures fitted && |x| == 0 ==> r == Err(EmptyInput)
      ensures fitted && |x| > 0 ==>
        (r.Ok? <==> Rectangular(x, |dataMin|))
      ensures r.Ok? ==> r.value == TransformRows(x, dataMin, dataMax)
    {
      if !fitted then Err(NotFitted)
      else if |x| == 0 then Err(EmptyInput)
      else if !Rectangular(x, |dataMin|) then Err(BadShape)
      else Ok(TransformRows(x, dataMin, dataMax))
    }

    /** fit_transform: fit on x, then transform x with what was fitted. */
    method FitTransform(x: seq<seq<real>>) returns (r: Result<seq<seq<real>>>)
      modifies this
      ensures Valid()
      ensures CheckSamples(x).Some? ==> r == Err(CheckSamples(x).value) && !fitted
      ensures CheckSamples(x).None? ==>
        && fitted
        && dataMin == ColumnMins(x, |x[0]|)
        && dataMax == ColumnMaxs(x, |x[0]|)
        && r == Ok(TransformRows(x, dataMin, dataMax))
    {
      var fit := Fit(x);
      if fit.Err? {
        return Err(fit.error);
      }
      r := Transform(x);
    }
  }

  // -----------------------------------------------------------------------
  // What a fit promises about the data it was fitted on
  // -----------------------------------------------------------------------

  lemma ScaleInUnit(v: real, lo: real, hi: real)
    requires lo <= v <= hi
    ensures 0.0 <= Scale(v, lo, hi) <= 1.0
  {
    if hi - lo != 0.0 {
      DivBetween(v - lo, hi - lo, 0.0, 1.0);
    }
  }

  /** Scaling by a fitted feature (lo <= hi) is strictly increasing, also
      for values outside the fitted range and for a zero range. */
  lemma ScaleStrictlyIncreasing(a: real, b: real, lo: real, hi: real)
    requires lo <= hi && a < b
    ensures Scale(a, lo, hi) < Scale(b, lo, hi)
  {
    if hi - lo != 0.0 {
      DivStrict(a - lo, b - lo, hi - lo);
    }
  }

  lemma DivStrict(a: real, b: real, n: real)
    requires n > 0.0 && a < b
    ensures a / n < b / n
  {
  }

  /** On the column it was fitted on, every scaled value lies in [0, 1]; the
      minimum maps to 0, the maximum to 1, and a constant column to 0. */
  lemma {:induction false} FittedColumn(c: seq<real>, i: int)
    requires 0 <= i < |c|
    ensures 0.0 <= Scale(c[i], Min(c), Max(c)) <= 1.0
    ensures c[i] == Min(c) ==> Scale(c[i], Min(c), Max(c)) == 0.0
    ensures c[i] == Max(c) && Min(c) < Max(c) ==> Scale(c[i], Min(c), Max(c)) == 1.0
    ensures Min(c) == Max(c) ==> Scale(c[i], Min(c), Max(c)) == 0.0
  {
    var lo, hi, v := Min(c), Max(c), c[i];
    ScaleInUnit(v, lo, hi);
    ScaleEnds(lo, hi);
  }

  lemma ScaleEnds(lo: real, hi: real)
    ensures Scale(lo, lo, hi) == 0.0
    ensures lo != hi ==> Scale(hi, lo, hi) == 1.0
  {
    if lo != hi {
      DivSelf(hi - lo);
    }
  }

  lemma DivSelf(d: real)
    requires d != 0.0
    ensures d / d == 1.0
  {
  }

  /** The same, for every cell of a fit_transform. */
  lemma FitTransformInUnit(x: seq<seq<real>>, w: nat, i: int, j: int)
    requires |x| > 0 && Rectangular(x, w) && 0 <= i < |x| && 0 <= j < w
    ensures var t := TransformRows(x, ColumnMins(x, w), ColumnMaxs(x, w));
            var c := Column(x, j);
            && 0.0 <= t[i][j] <= 1.0
            && (x[i][j] == Min(c) ==> t[i][j] == 0.0)
            && (x[i][j] == Max(c) && Min(c) < Max(c) ==> t[i][j] == 1.0)
            && (Min(c) == Max(c) ==> t[i][j] == 0.0)
  {
    var c := Column(x, j);
    assert c[i] == x[i][j];
    FittedColumn(c, i);
  }
}
