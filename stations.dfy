/** Station selection and inverse-distance weighting: the distance column
    (__compute_distance), nsmallest on it with pandas' default keep='first',
    the distance_weight column (__compute_weights) and the weighted heat
    score (__compute_weighted_heat_score). */
module Stations {
  import opened Common
  import opened Stats
  import opened Readings

  /** geopy's geodesic(...).km between (lat1, lon1) and (lat2, lon2): an
      ellipsoidal computation that is not modelled, only its sign. */
  type Metric = f: (real, real, real, real) -> real
    | forall a, b, c, d :: f(a, b, c, d) >= 0.0
    witness (a: real, b: real, c: real, d: real) => 0.0

  /** The distance column: one geodesic distance per row, from the queried
      point to the row's station. */
  function Distances(rows: seq<Scored>, lat: real, lon: real, geo: Metric): (ds: seq<real>)
    ensures |ds| == |rows| && NonNegative(ds)
    ensures forall i :: 0 <= i < |rows| ==>
      ds[i] == geo(lat, lon, rows[i].reading.latitude, rows[i].reading.longitude)
  {
    seq(|rows|, i requires 0 <= i < |rows| =>
      geo(lat, lon, rows[i].reading.latitude, rows[i].reading.longitude))
  }

  // -----------------------------------------------------------------------
  // Inverse-distance weights
  // -----------------------------------------------------------------------

  function Scaled(s: seq<real>, t: real): (r: seq<real>)
    requires t != 0.0
    ensures |r| == |s| && forall i :: 0 <= i < |s| ==> r[i] == s[i] / t
  {
    seq(|s|, i requires 0 <= i < |s| => s[i] / t)
  }

  function Inverses(ds: seq<real>): (v: seq<real>)
    requires 0.0 !in ds
    ensures |v| == |ds| && forall i :: 0 <= i < |ds| ==> v[i] == 1.0 / ds[i]
  {
    seq(|ds|, i requires 0 <= i < |ds| => 1.0 / ds[i])
  }

  /** distance_weight = 1 / distance, then divided by its own sum. A zero
      distance (the query point is a station) has no real inverse. */
  function Weights(ds: seq<real>): (r: Result<seq<real>>)
    requires NonNegative(ds)
    ensures r.Err? <==> 0.0 in ds
    ensures r.Err? ==> r.error == ZeroDistance
    ensures r.Ok? ==> |r.value| == |ds|
  {
    if 0.0 in ds then Err(ZeroDistance)
    else
      var inv := Inverses(ds);
      if |ds| == 0 then Ok([])
      else
        PositiveInverses(ds);
        SumPositive(inv);
        Ok(Scaled(inv, Sum(inv)))
  }

  lemma PositiveInverses(ds: seq<real>)
    requires NonNegative(ds) && 0.0 !in ds
    ensures forall i :: 0 <= i < |ds| ==> Inverses(ds)[i] > 0.0
  {
    forall i | 0 <= i < |ds| ensures Inverses(ds)[i] > 0.0 {
      assert ds[i] in ds;
    }
  }

  lemma {:induction false} SumPositive(s: seq<real>)
    requires |s| > 0 && forall i :: 0 <= i < |s| ==> s[i] > 0.0
    ensures Sum(s) > 0.0
  {
    if |s| > 1 {
      assert forall i :: 0 <= i < |s| - 1 ==> s[1..][i] == s[i + 1];
      SumPositive(s[1..]);
    }
  }

  lemma {:induction false} SumScaled(s: seq<real>, t: real)
    requires t != 0.0
    ensures Sum(Scaled(s, t)) == Sum(s) / t
  {
    if |s| > 0 {
      assert Scaled(s, t)[1..] == Scaled(s[1..], t);
      SumScaled(s[1..], t);
      AddDiv(s[0], Sum(s[1..]), t);
    }
  }

  lemma AddDiv(a: real, b: real, t: real)
    requires t != 0.0
    ensures a / t + b / t == (a + b) / t
  {
  }

  /** The weights of a non-empty selection are positive and sum to 1. */
  lemma WeightsSumToOne(ds: seq<real>)
    requires NonNegative(ds) && Weights(ds).Ok? && |ds| > 0
    ensures Sum(Weights(ds).value) == 1.0
    ensures forall i :: 0 <= i < |ds| ==> Weights(ds).value[i] > 0.0
  {
    var inv := Inverses(ds);
    PositiveInverses(ds);
    SumPositive(inv);
    SumScaled(inv, Sum(inv));
    DivSelfOne(Sum(inv));
    forall i | 0 <= i < |ds| ensures Weights(ds).value[i] > 0.0 {
      DivPositive(inv[i], Sum(inv));
    }
  }

  lemma DivSelfOne(t: real)
    requires t != 0.0
    ensures t / t == 1.0
  {
  }

  lemma DivPositive(a: real, t: real)
    requires a > 0.0 && t > 0.0
    ensures a / t > 0.0
  {
  }

  /** A strictly nearer station gets a strictly larger weight. */
  lemma WeightsMonotone(ds: seq<real>, i: int, j: int)
    requires NonNegative(ds) && Weights(ds).Ok?
    requires 0 <= i < |ds| && 0 <= j < |ds| && ds[i] < ds[j]
    ensures Weights(ds).value[i] > Weights(ds).value[j]
  {
    var inv := Inverses(ds);
    PositiveInverses(ds);
    SumPositive(inv);
    assert ds[i] in ds;
    InverseStrict(ds[i], ds[j]);
    DivStrictPositive(inv[j], inv[i], Sum(inv));
  }

  lemma InverseStrict(a: real, b: real)
    requires 0.0 < a < b
    ensures 1.0 / b < 1.0 / a
  {
  }

  lemma DivStrictPositive(a: real, b: real, t: real)
    requires t > 0.0 && a < b
    ensures a / t < b / t
  {
  }

  // -----------------------------------------------------------------------
  // nsmallest(k, "distance"), keep='first'
  // -----------------------------------------------------------------------

  /** Row i comes before row j: strictly nearer, or as near and earlier. */
  predicate Before(ds: seq<real>, i: nat, j: nat)
    requires i < |ds| && j < |ds|
  {
    ds[i] < ds[j] || (ds[i] == ds[j] && i < j)
  }

  predicate Indices(ds: seq<real>, r: seq<nat>) {
    forall a :: 0 <= a < |r| ==> r[a] < |ds|
  }

  /** Row indices in strictly increasing Before order. */
  predicate Ranked(ds: seq<real>, r: seq<nat>)
    requires Indices(ds, r)
  {
    forall a, b :: 0 <= a < b < |r| ==> Before(ds, r[a], r[b])
  }

  /** Insert index i, larger than every index already ranked. */
  function InsertIndex(ds: seq<real>, i: nat, r: seq<nat>): (q: seq<nat>)
    requires i < |ds| && Indices(ds, r) && Ranked(ds, r)
    requires forall a :: 0 <= a < |r| ==> r[a] < i
    ensures |q| == |r| + 1 && Indices(ds, q) && Ranked(ds, q)
    ensures forall x :: x in q <==> x in r || x == i
  {
    if |r| == 0 then [i]
    else if ds[i] < ds[r[0]] then [i] + r
    else
      var rest := InsertIndex(ds, i, r[1..]);
      assert forall x :: x in r[1..] ==> x in r;
      assert forall b :: 0 <= b < |rest| ==> Before(ds, r[0], rest[b]) by {
        forall b | 0 <= b < |rest| ensures Before(ds, r[0], rest[b]) {
          if rest[b] != i {
            assert rest[b] in r[1..];
            var c :| 1 <= c < |r| && r[c] == rest[b];
          }
        }
      }
      [r[0]] + rest
  }

  /** The indices 0 .. m-1 ranked. */
  function Ranking(ds: seq<real>, m: nat): (r: seq<nat>)
    requires m <= |ds|
    ensures |r| == m && Indices(ds, r) && Ranked(ds, r)
    ensures forall x: int :: x in r <==> 0 <= x < m
  {
    if m == 0 then []
    else
      var prev := Ranking(ds, m - 1);
      assert forall a :: 0 <= a < |prev| ==> prev[a] < m - 1 by {
        forall a | 0 <= a < |prev| ensures prev[a] < m - 1 {
          assert prev[a] in prev;
        }
      }
      InsertIndex(ds, m - 1, prev)
  }

  /** The row indices nsmallest(k) returns, in the order it returns them. */
  function SelectNearest(ds: seq<real>, k: int): (sel: seq<nat>)
    ensures Indices(ds, sel)
  {
    var n := if k <= 0 then 0 else if k < |ds| then k else |ds|;
    Ranking(ds, |ds|)[..n]
  }

  /** nsmallest(k): min(k, n) rows (none for k <= 0), distinct, in ascending
      distance with ties in input order, and every row left out comes after
      every row chosen. */
  lemma SelectNearestSpec(ds: seq<real>, k: int)
    ensures var sel := SelectNearest(ds, k);
            && |sel| == (if k <= 0 then 0 else if k < |ds| then k else |ds|)
            && (forall a, b :: 0 <= a < b < |sel| ==>
                  ds[sel[a]] <= ds[sel[b]] && (ds[sel[a]] == ds[sel[b]] ==> sel[a] < sel[b]))
            && (forall i :: 0 <= i < |ds| && i !in sel ==>
                  forall a :: 0 <= a < |sel| ==> Before(ds, sel[a], i))
  {
    var r := Ranking(ds, |ds|);
    var sel := SelectNearest(ds, k);
    forall i | 0 <= i < |ds| && i !in sel
      ensures forall a :: 0 <= a < |sel| ==> Before(ds, sel[a], i)
    {
      assert i in r;
      var c :| 0 <= c < |r| && r[c] == i;
      assert forall d :: 0 <= d < |sel| ==> r[d] in sel;
    }
  }

  // -----------------------------------------------------------------------
  // find_nearest_stations and the weighted heat score
  // -----------------------------------------------------------------------

  /** A selected station row with its distance and distance_weight. */
  datatype Station = Station(row: Scored, distance: real, weight: real)

  function WeightsOf(st: seq<Station>): (ws: seq<real>)
    ensures |ws| == |st| && forall a :: 0 <= a < |st| ==> ws[a] == st[a].weight
  {
    seq(|st|, a requires 0 <= a < |st| => st[a].weight)
  }

  function HeatNormsOf(st: seq<Station>): (hs: seq<real>)
    ensures |hs| == |st| && forall a :: 0 <= a < |st| ==> hs[a] == st[a].row.heatScoreNorm
  {
    seq(|st|, a requires 0 <= a < |st| => st[a].row.heatScoreNorm)
  }

  /** The distances of the chosen rows, in selection order. */
  function Pick(ds: seq<real>, sel: seq<nat>): (p: seq<real>)
    requires Indices(ds, sel)
    ensures |p| == |sel| && forall a :: 0 <= a < |sel| ==> p[a] == ds[sel[a]]
  {
    seq(|sel|, a requires 0 <= a < |sel| => ds[sel[a]])
  }

  /** Distance, nsmallest, then weights over the chosen rows only. */
  function Nearest(rows: seq<Scored>, lat: real, lon: real, k: int, geo: Metric): (r: Result<seq<Station>>)
    ensures r.Ok? ==> |r.value| == |SelectNearest(Distances(rows, lat, lon, geo), k)|
    ensures r.Ok? ==> forall a :: 0 <= a < |r.value| ==>
      var i := SelectNearest(Distances(rows, lat, lon, geo), k)[a];
      i < |rows| && r.value[a].row == rows[i] && r.value[a].distance == Distances(rows, lat, lon, geo)[i]
  {
    var ds := Distances(rows, lat, lon, geo);
    var sel := SelectNearest(ds, k);
    var pds := Pick(ds, sel);
    var ws :- Weights(pds);
    Ok(seq(|sel|, a requires 0 <= a < |sel| => Station(rows[sel[a]], pds[a], ws[a])))
  }

  /** np.dot(distance_weight, heat_score_norm). */
  function WeightedHeatScore(st: seq<Station>): real {
    Dot(WeightsOf(st), HeatNormsOf(st))
  }

  /** A selection fails exactly when a chosen station is at distance 0; its
      weights are then Weights of the chosen distances. */
  lemma NearestWeights(rows: seq<Scored>, lat: real, lon: real, k: int, geo: Metric)
    ensures var ds := Distances(rows, lat, lon, geo);
            var pds := Pick(ds, SelectNearest(ds, k));
            && (Nearest(rows, lat, lon, k, geo).Err? <==> 0.0 in pds)
            && (Nearest(rows, lat, lon, k, geo).Ok? ==>
                  WeightsOf(Nearest(rows, lat, lon, k, geo).value) == Weights(pds).value)
  {
    var ds := Distances(rows, lat, lon, geo);
    var pds := Pick(ds, SelectNearest(ds, k));
    assert NonNegative(pds);
  }

  /** The weighted score of a non-empty selection is a convex combination:
      it lies between the least and the greatest heat_score_norm chosen. */
  lemma WeightedScoreBetween(rows: seq<Scored>, lat: real, lon: real, k: int, geo: Metric)
    requires Nearest(rows, lat, lon, k, geo).Ok? && |Nearest(rows, lat, lon, k, geo).value| > 0
    ensures var st := Nearest(rows, lat, lon, k, geo).value;
            Min(HeatNormsOf(st)) <= WeightedHeatScore(st) <= Max(HeatNormsOf(st))
  {
    var st := Nearest(rows, lat, lon, k, geo).value;
    var ds := Distances(rows, lat, lon, geo);
    var pds := Pick(ds, SelectNearest(ds, k));
    NearestWeights(rows, lat, lon, k, geo);
    WeightsSumToOne(pds);
    ConvexCombination(WeightsOf(st), HeatNormsOf(st));
  }
}
