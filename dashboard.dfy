/** The computations of streamlit/app2.py: the average of the station
    records shown on the dashboard, the distance-weighted station averages
    and the summary text cut out of the advice reply in
    fetch_weather_recommendation, and the predicate that disables the
    submit button. Requests, rendering and the markdown conversion are not
    modelled. */
module Dashboard {
  import opened Common
  import opened Stats
  import Api

  // -----------------------------------------------------------------------
  // calculate_average_stats
  // -----------------------------------------------------------------------

  /** One record of /api/weather/current as the dashboard reads it. */
  datatype Record = Record(airTemp: real, heatStress: real, humidity: real, windSpeed: real,
                           windDirection: Option<string>)

  /** The dictionary calculate_average_stats returns for a non-empty list. */
  datatype AverageStats = AverageStats(temperature: real, heatStress: real, humidity: real,
                                       windSpeed: real, windDirection: Option<string>)

  function AirTemps(data: seq<Record>): (c: seq<real>)
    ensures |c| == |data| && forall i :: 0 <= i < |data| ==> c[i] == data[i].airTemp
  {
    seq(|data|, i requires 0 <= i < |data| => data[i].airTemp)
  }

  function HeatStresses(data: seq<Record>): (c: seq<real>)
    ensures |c| == |data| && forall i :: 0 <= i < |data| ==> c[i] == data[i].heatStress
  {
    seq(|data|, i requires 0 <= i < |data| => data[i].heatStress)
  }

  function Humidities(data: seq<Record>): (c: seq<real>)
    ensures |c| == |data| && forall i :: 0 <= i < |data| ==> c[i] == data[i].humidity
  {
    seq(|data|, i requires 0 <= i < |data| => data[i].humidity)
  }

  function WindSpeeds(data: seq<Record>): (c: seq<real>)
    ensures |c| == |data| && forall i :: 0 <= i < |data| ==> c[i] == data[i].windSpeed
  {
    seq(|data|, i requires 0 <= i < |data| => data[i].windSpeed)
  }

  /** {} for no records; otherwise the mean of each numeric field and the
      first record's direction. */
  function CalculateAverageStats(data: seq<Record>): (r: Option<AverageStats>)
    ensures r.None? <==> |data| == 0
    ensures r.Some? ==> r.value.windDirection == data[0].windDirection
  {
    if |data| == 0 then None
    else Some(AverageStats(Mean(AirTemps(data)), Mean(HeatStresses(data)), Mean(Humidities(data)),
                           Mean(WindSpeeds(data)), data[0].windDirection))
  }

  /** Each average lies between the smallest and the largest value of its
      field. */
  lemma AverageStatsBetween(data: seq<Record>)
    requires |data| > 0
    ensures var s := CalculateAverageStats(data).value;
            && Min(AirTemps(data)) <= s.temperature <= Max(AirTemps(data))
            && Min(HeatStresses(data)) <= s.heatStress <= Max(HeatStresses(data))
            && Min(Humidities(data)) <= s.humidity <= Max(Humidities(data))
            && Min(WindSpeeds(data)) <= s.windSpeed <= Max(WindSpeeds(data))
  {
    MeanBetween(AirTemps(data));
    MeanBetween(HeatStresses(data));
    MeanBetween(Humidities(data));
    MeanBetween(WindSpeeds(data));
  }

  // -----------------------------------------------------------------------
  // The weighted station averages of fetch_weather_recommendation
  // -----------------------------------------------------------------------

  /** One entry of weather_station_data. */
  datatype StationRecord = StationRecord(airTemp: real, humidity: real, windSpeed: real,
                                         uvIndex: real, distanceWeight: real)

  /** The keys the loop accumulates, in its order. */
  const KEYS: seq<string> := ["airTemp", "humidity", "windSpeed", "uv_index"]

  /** station[key]. */
  function Field(s: StationRecord, key: string): real
    requires key in KEYS
  {
    if key == "airTemp" then s.airTemp
    else if key == "humidity" then s.humidity
    else if key == "windSpeed" then s.windSpeed
    else s.uvIndex
  }

  function FieldColumn(st: seq<StationRecord>, key: string): (c: seq<real>)
    requires key in KEYS
    ensures |c| == |st| && forall i :: 0 <= i < |st| ==> c[i] == Field(st[i], key)
  {
    seq(|st|, i requires 0 <= i < |st| => Field(st[i], key))
  }

  function WeightColumn(st: seq<StationRecord>): (c: seq<real>)
    ensures |c| == |st| && forall i :: 0 <= i < |st| ==> c[i] == st[i].distanceWeight
  {
    seq(|st|, i requires 0 <= i < |st| => st[i].distanceWeight)
  }

  /** sum of station[key] * distance_weight over the stations. */
  function WeightedField(st: seq<StationRecord>, key: string): real
    requires key in KEYS
  {
    Dot(WeightColumn(st), FieldColumn(st, key))
  }

  /** average_weather_stats after the loop, uv_index cast to int. */
  datatype WeatherStats = WeatherStats(airTemp: real, humidity: real, windSpeed: real, uvIndex: int)

  /** With no stations the dictionary never gains "uv_index" and the cast
      raises KeyError. */
  function WeightedStats(st: seq<StationRecord>): (r: Result<WeatherStats>)
    ensures r.Err? <==> |st| == 0
    ensures r.Err? ==> r.error == MissingKey
  {
    if |st| == 0 then Err(MissingKey)
    else Ok(WeatherStats(WeightedField(st, "airTemp"), WeightedField(st, "humidity"),
                         WeightedField(st, "windSpeed"), Api.Trunc(WeightedField(st, "uv_index"))))
  }

  /** dict.get(key, 0). */
  function Get(acc: map<string, real>, key: string): real {
    if key in acc then acc[key] else 0.0
  }

  /** The accumulation adds one product per station. */
  lemma WeightedFieldSnoc(st: seq<StationRecord>, i: int, key: string)
    requires 0 <= i < |st| && key in KEYS
    ensures WeightedField(st[..i + 1], key) == WeightedField(st[..i], key) + st[i].distanceWeight * Field(st[i], key)
  {
    assert WeightColumn(st[..i + 1]) == WeightColumn(st[..i]) + [st[i].distanceWeight];
    assert FieldColumn(st[..i + 1], key) == FieldColumn(st[..i], key) + [Field(st[i], key)];
    DotSnoc(WeightColumn(st[..i]), FieldColumn(st[..i], key), st[i].distanceWeight, Field(st[i], key));
  }

  /** The nested loop over stations and keys, updating the dictionary in
      place. */
  method WeightedStatsLoop(st: seq<StationRecord>) returns (r: Result<WeatherStats>)
    ensures r == WeightedStats(st)
  {
    var acc: map<string, real> := map[];
    for i := 0 to |st|
      invariant i == 0 ==> acc == map[]
      invariant i > 0 ==> forall key :: key in KEYS ==> key in acc
      invariant forall key :: key in KEYS ==> Get(acc, key) == WeightedField(st[..i], key)
    {
      for j := 0 to |KEYS|
        invariant forall t :: 0 <= t < j ==> KEYS[t] in acc
        invariant i > 0 ==> forall key :: key in KEYS ==> key in acc
        invariant forall t :: 0 <= t < j ==> Get(acc, KEYS[t]) == WeightedField(st[..i + 1], KEYS[t])
        invariant forall t :: j <= t < |KEYS| ==> Get(acc, KEYS[t]) == WeightedField(st[..i], KEYS[t])
      {
        var key := KEYS[j];
        WeightedFieldSnoc(st, i, key);
        acc := acc[key := Get(acc, key) + Field(st[i], key) * st[i].distanceWeight];
      }
    }
    assert st[..|st|] == st;
    if "uv_index" !in acc {
      return Err(MissingKey);
    }
    r := Ok(WeatherStats(acc["airTemp"], acc["humidity"], acc["windSpeed"], Api.Trunc(acc["uv_index"])));
  }

  /** With the weights of the nearest-station search (non-negative, summing
      to 1) each weighted field lies between the stations' extremes. */
  lemma WeightedStatsBetween(st: seq<StationRecord>, key: string)
    requires |st| > 0 && key in KEYS
    requires NonNegative(WeightColumn(st)) && Sum(WeightColumn(st)) == 1.0
    ensures Min(FieldColumn(st, key)) <= WeightedField(st, key) <= Max(FieldColumn(st, key))
  {
    ConvexCombination(WeightColumn(st), FieldColumn(st, key));
  }

  // -----------------------------------------------------------------------
  // The summary extraction of fetch_weather_recommendation
  // -----------------------------------------------------------------------

  const SUMMARY: string := "Summary:"
  const SUGGESTIONS: string := "Suggestions:"
  const SUMMARY_HEADING: string := "\n**Summary:** "
  const SUGGESTIONS_HEADING: string := "\n**Suggestions:** "

  /** pat occurs in s at position i. */
  predicate StartsAt(s: string, pat: string, i: int) {
    0 <= i && i + |pat| <= |s| && s[i..i + |pat|] == pat
  }

  /** str.find from position from: the first occurrence at or after it. */
  function IndexOf(s: string, pat: string, from: nat): (r: Option<nat>)
    requires |pat| > 0
    ensures r.Some? ==> from <= r.value && StartsAt(s, pat, r.value)
    ensures r.Some? ==> forall k :: from <= k < r.value ==> !StartsAt(s, pat, k)
    ensures r.None? ==> forall k :: from <= k ==> !StartsAt(s, pat, k)
    decreases |s| - from
  {
    if from + |pat| > |s| then None
    else if s[from..from + |pat|] == pat then Some(from)
    else IndexOf(s, pat, from + 1)
  }

  /** s.split(sep)[1]: the text between the first and the second
      occurrence of sep, or to the end; None when sep does not occur. */
  function SecondPiece(s: string, sep: string): (r: Option<string>)
    requires |sep| > 0
    ensures r.None? <==> forall k :: 0 <= k ==> !StartsAt(s, sep, k)
  {
    match IndexOf(s, sep, 0)
    case None => None
    case Some(i) =>
      var start := i + |sep|;
      var end := match IndexOf(s, sep, start) case Some(j) => j case None => |s|;
      Some(s[start..end])
  }

  /** The piece begins right after the first occurrence and ends at the
      next one (or the end), with no occurrence starting inside it. */
  lemma SecondPieceSpec(s: string, sep: string, i: int)
    requires |sep| > 0 && StartsAt(s, sep, i)
    requires forall k :: 0 <= k < i ==> !StartsAt(s, sep, k)
    ensures SecondPiece(s, sep).Some?
    ensures var mid := SecondPiece(s, sep).value;
            var e := i + |sep| + |mid|;
            && e <= |s| && mid == s[i + |sep|..e]
            && (e == |s| || StartsAt(s, sep, e))
            && forall k :: i + |sep| <= k < e ==> !StartsAt(s, sep, k)
  {
    var first := IndexOf(s, sep, 0);
    assert first == Some(i);
  }

  /** str.isspace on one character for the code points below 128: tab, line
      feed, vertical tab, form feed, carriage return, the separators 0x1C-0x1F
      and space. */
  predicate IsSpace(c: char) {
    (9 <= c as int <= 13) || (28 <= c as int <= 32)
  }

  /** Where str.lstrip() cuts: the first non-space position at or after
      from, or the end. */
  function LeadingSpace(s: string, from: nat): (n: nat)
    requires from <= |s|
    ensures from <= n <= |s|
    ensures forall k :: from <= k < n ==> IsSpace(s[k])
    ensures n < |s| ==> !IsSpace(s[n])
    decreases |s| - from
  {
    if from < |s| && IsSpace(s[from]) then LeadingSpace(s, from + 1) else from
  }

  /** Where str.rstrip() cuts, scanning down from end but not below lo. */
  function TrailingSpace(s: string, lo: nat, end: nat): (e: nat)
    requires lo <= end <= |s|
    ensures lo <= e <= end
    ensures forall k :: e <= k < end ==> IsSpace(s[k])
    ensures e > lo ==> !IsSpace(s[e - 1])
    decreases end
  {
    if end > lo && IsSpace(s[end - 1]) then TrailingSpace(s, lo, end - 1) else end
  }

  /** str.strip(): the slice of s between its leading and trailing white
      space; everything cut off is white space and what is kept neither
      starts nor ends with it. */
  function Strip(s: string): (r: string)
    ensures var a := LeadingSpace(s, 0);
            && a + |r| <= |s| && r == s[a..a + |r|]
            && (forall k :: 0 <= k < a ==> IsSpace(s[k]))
            && (forall k :: a + |r| <= k < |s| ==> IsSpace(s[k]))
    ensures |r| > 0 ==> !IsSpace(r[0]) && !IsSpace(r[|r| - 1])
  {
    var a := LeadingSpace(s, 0);
    var e := TrailingSpace(s, a, |s|);
    assert e < |s| ==> forall k :: e <= k < |s| ==> IsSpace(s[k]);
    s[a..e]
  }

  /** str.replace(pat, rep): every occurrence, left to right, not
      overlapping. */
  function Replace(s: string, pat: string, rep: string): string
    requires |pat| > 0
    decreases |s|
  {
    if |s| < |pat| then s
    else if s[..|pat|] == pat then rep + Replace(s[|pat|..], pat, rep)
    else [s[0]] + Replace(s[1..], pat, rep)
  }

  /** Without an occurrence of the pattern the text stays as it is. */
  lemma {:induction false} ReplaceAbsent(s: string, pat: string, rep: string)
    requires |pat| > 0 && forall k :: !StartsAt(s, pat, k)
    ensures Replace(s, pat, rep) == s
  {
    if |s| >= |pat| {
      assert !StartsAt(s, pat, 0);
      assert s[..|pat|] != pat;
      forall k | 0 <= k ensures !StartsAt(s[1..], pat, k) {
        assert !StartsAt(s, pat, k + 1);
      }
      ReplaceAbsent(s[1..], pat, rep);
      assert s == [s[0]] + s[1..];
    }
  }

  /** A prefix in which no occurrence starts passes through unchanged. */
  lemma {:induction false} ReplaceSafePrefix(p: string, t: string, pat: string, rep: string)
    requires |pat| > 0
    requires forall k :: 0 <= k < |p| ==> !StartsAt(p + t, pat, k)
    ensures Replace(p + t, pat, rep) == p + Replace(t, pat, rep)
  {
    if |p| > 0 {
      var s := p + t;
      assert s[1..] == p[1..] + t;
      forall k | 0 <= k < |p| - 1 ensures !StartsAt(p[1..] + t, pat, k) {
        assert !StartsAt(s, pat, k + 1);
        if k + |pat| <= |s[1..]| {
          assert s[1..][k..k + |pat|] == s[k + 1..k + 1 + |pat|];
        }
      }
      ReplaceSafePrefix(p[1..], t, pat, rep);
      var rt := Replace(t, pat, rep);
      if |s| >= |pat| {
        assert !StartsAt(s, pat, 0);
        assert Replace(s, pat, rep) == [s[0]] + Replace(s[1..], pat, rep);
        assert Replace(s, pat, rep) == [p[0]] + (p[1..] + rt);
      } else {
        ReplaceShort(t, pat, rep);
        assert Replace(s, pat, rep) == s;
      }
      assert [p[0]] + (p[1..] + rt) == p + rt;
    } else {
      assert p + t == t;
    }
  }

  lemma ReplaceShort(t: string, pat: string, rep: string)
    requires 0 < |pat| && |t| < |pat|
    ensures Replace(t, pat, rep) == t
  {
  }

  /** Everything from "Summary:" on, reformatted; with no "Summary:" the
      return reads an unbound variable. */
  function ExtractSummary(suggestion: string): (r: Result<string>)
    ensures r.Err? <==> forall k :: !StartsAt(suggestion, SUMMARY, k)
    ensures r.Err? ==> r.error == UnboundSuggestions
  {
    match SecondPiece(suggestion, SUMMARY)
    case None => Err(UnboundSuggestions)
    case Some(piece) =>
      Ok(Replace(SUMMARY_HEADING + Strip(piece), SUGGESTIONS, SUGGESTIONS_HEADING))
  }

  /** No "Suggestions:" starts inside the summary heading. */
  lemma HeadingIsSafe(t: string, k: int)
    requires 0 <= k < |SUMMARY_HEADING|
    ensures !StartsAt(SUMMARY_HEADING + t, SUGGESTIONS, k)
  {
    var s := SUMMARY_HEADING + t;
    var n := |SUGGESTIONS|;
    if k + n <= |s| {
      assert s[k..k + n][0] == s[k] == SUMMARY_HEADING[k];
      if k == 3 {
        assert s[k..k + n][2] == s[5] == 'm';
      } else {
        assert SUMMARY_HEADING[k] != 'S';
      }
    }
  }

  /** The reply from its first "Summary:" on: the heading, then the
      stripped piece with every "Suggestions:" reformatted. */
  lemma ExtractSummarySpec(suggestion: string, i: int)
    requires StartsAt(suggestion, SUMMARY, i)
    requires forall k :: 0 <= k < i ==> !StartsAt(suggestion, SUMMARY, k)
    ensures ExtractSummary(suggestion).Ok?
    ensures var mid := SecondPiece(suggestion, SUMMARY).value;
            ExtractSummary(suggestion).value == SUMMARY_HEADING + Replace(Strip(mid), SUGGESTIONS, SUGGESTIONS_HEADING)
    ensures var mid := SecondPiece(suggestion, SUMMARY).value;
            mid == suggestion[i + |SUMMARY|..i + |SUMMARY| + |mid|]
  {
    SecondPieceSpec(suggestion, SUMMARY, i);
    var mid := SecondPiece(suggestion, SUMMARY).value;
    forall k | 0 <= k < |SUMMARY_HEADING| ensures !StartsAt(SUMMARY_HEADING + Strip(mid), SUGGESTIONS, k) {
      HeadingIsSafe(Strip(mid), k);
    }
    ReplaceSafePrefix(SUMMARY_HEADING, Strip(mid), SUGGESTIONS, SUGGESTIONS_HEADING);
  }

  // -----------------------------------------------------------------------
  // The enabling condition of the submit button
  // -----------------------------------------------------------------------

  /** str.isdigit(): non-empty and every character a digit (ASCII only). */
  predicate AllDigits(s: string) {
    |s| > 0 && forall k :: 0 <= k < |s| ==> Api.IsDigit(s[k])
  }

  predicate Disabled(postal: string, houseDirection: int) {
    |Strip(postal)| != 6 || !AllDigits(Strip(postal)) || houseDirection == 0
  }

  /** Facing 0 degrees, the default, can never be submitted. */
  lemma NorthNeverSubmits(postal: string)
    ensures Disabled(postal, 0)
  {
  }

  /** An enabled form has a six-digit postal code after stripping and a
      non-zero direction, so the empty-code error after the click is never
      shown. */
  lemma EnabledForm(postal: string, houseDirection: int)
    ensures !Disabled(postal, houseDirection) <==>
      |Strip(postal)| == 6 && (forall k :: 0 <= k < 6 ==> Api.IsDigit(Strip(postal)[k])) && houseDirection != 0
    ensures !Disabled(postal, houseDirection) ==> Strip(postal) != ""
  {
  }
}
