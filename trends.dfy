/** The direction shown for each product's trend value in the poll loop's report. */
module Trends {
  import opened Prices

  datatype Trend = Rising | Falling | Stable

  /** Rising above zero, falling below zero, stable at zero. */
  function Classify(value: real): (t: Trend)
    ensures t == Rising <==> value > 0.0
    ensures t == Falling <==> value < 0.0
    ensures t == Stable <==> value == 0.0
  {
    if value > 0.0 then Rising
    else if value < 0.0 then Falling
    else Stable
  }

  /** The direction of every reported product, in report order. */
  function TrendReport(trends: seq<TrendValue>): (r: seq<(string, Trend)>)
    ensures |r| == |trends|
    ensures forall k :: 0 <= k < |trends| ==> r[k] == (trends[k].product, Classify(trends[k].value))
  {
    if trends == [] then []
    else [(trends[0].product, Classify(trends[0].value))] + TrendReport(trends[1..])
  }
}
