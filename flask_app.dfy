/** windDirection_mapping of app.py, the Flask prototype. It carries its own
    copy of the sixteen-point table and the same truncating section index;
    the routes and the HTTP requests are not modelled. */
module FlaskApp {
  import opened Common
  import Api

  /** The table literal of app.py. */
  const DIRECTIONS: seq<string> :=
    ["N", "NNE", "NE", "ENE", "E",
     "ESE", "SE", "SSE", "S",
     "SSW", "SW", "WSW", "W",
     "WNW", "NW", "NNW"]

  /** directions[int(angle / 22.5)] with this file's table. */
  function Direction(angle: real): (r: Result<string>)
    ensures r == Api.Compass(angle)
  {
    Api.PyIndex(DIRECTIONS, Api.Section(angle))
  }

  /** The for loop over range(len(uv)), appending one label per angle. It
      agrees with windDirection_mapping of analytics/api.py on every input:
      same labels in the same order, and the same failure. */
  method WindDirectionMapping(uv: seq<real>) returns (r: Result<seq<string>>)
    ensures r == Api.DirectionsOf(uv)
  {
    var dir: seq<string> := [];
    for i := 0 to |uv|
      invariant |dir| == i
      invariant forall t :: 0 <= t < i ==> Api.Compass(uv[t]) == Ok(dir[t])
    {
      var point := Direction(uv[i]);
      if point.Err? {
        return Err(point.error);
      }
      dir := dir + [point.value];
    }
    assert forall t :: 0 <= t < |uv| ==> Api.Compass(uv[t]).Ok?;
    assert dir == Api.DirectionsOf(uv).value;
    r := Ok(dir);
  }

  /** On [0, 360) the result is the section's label; from 360 on the index
      is past the table. */
  lemma DirectionRange(angle: real)
    ensures 0.0 <= angle < 360.0 ==> Direction(angle) == Ok(DIRECTIONS[(angle / 22.5).Floor])
    ensures angle >= 360.0 ==> Direction(angle) == Err(IndexOutOfRange)
  {
    if 0.0 <= angle < 360.0 {
      Api.CompassInCircle(angle);
    }
    if angle >= 360.0 {
      Api.CompassOverflow(angle);
    }
  }
}
