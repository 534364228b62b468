/**
 * The change handler of the weight file input (main.js): ingest the rows,
 * stop with guidance when fewer than two weights remain, otherwise filter
 * them with Q = 0.02 and R = 0.25, report the latest raw and filtered
 * values and the count, and draw the chart.
 */
module Orchestrator {
  import opened Wrappers
  import opened Kalman
  import opened Ingestion
  import opened Presentation

  /** What one file selection produces. */
  datatype Summary =
    | Insufficient
    | Ready(labels: seq<string>, raw: seq<real>, kf: seq<real>, rawLatest: real, kfLatest: real, count: nat)

  /** The minimum-data gate and the summary selection, given the ingested dates and weights. */
  function Summarize(dates: seq<string>, weights: seq<real>): (s: Summary)
    ensures s.Insufficient? <==> |weights| < 2
    ensures s.Ready? ==>
      && s.count == |weights| == |s.raw| == |s.kf|
      && s.raw == weights
      && s.kf == Filter(weights, DefaultQ, DefaultR, None, DefaultP0)
      && s.rawLatest == weights[|weights| - 1]
      && s.kfLatest == s.kf[|weights| - 1]
      && s.labels == ResolveLabels(dates, |weights|)
      && (|dates| == |weights| ==> |s.labels| == |weights|)
      && AllUsable(s.labels)
  {
    var n := |weights|;
    if n < 2 then Insufficient
    else
      var kf := Filter(weights, DefaultQ, DefaultR, None, DefaultP0);
      Ready(ResolveLabels(dates, n), weights, kf, weights[n - 1], kf[n - 1], n)
  }

  /** The whole pipeline from decoded rows to the summary. */
  function Process(rows: seq<Row>, parse: string -> Option<real>, showNumber: real -> string): (s: Summary)
    ensures s.Insufficient? <==> |Kept(rows, parse, showNumber)| < 2
    ensures s.Ready? ==> s.count == |Kept(rows, parse, showNumber)| && s.raw == Weights(Kept(rows, parse, showNumber))
  {
    var ms := Kept(rows, parse, showNumber);
    Summarize(Dates(ms), Weights(ms))
  }

  /** The latest filtered value lies within the range of the weights. */
  lemma LatestWithinRange(dates: seq<string>, weights: seq<real>, lo: real, hi: real)
    requires forall i :: 0 <= i < |weights| ==> lo <= weights[i] <= hi
    ensures Summarize(dates, weights).Ready? ==> lo <= Summarize(dates, weights).kfLatest <= hi
  {
    FilterWithin(weights, DefaultQ, DefaultR, None, DefaultP0, lo, hi);
  }

  /** When every weight is the same, the filtered summary equals the raw one. */
  lemma ConstantWeights(dates: seq<string>, weights: seq<real>)
    requires forall i :: 0 <= i < |weights| ==> weights[i] == weights[0]
    ensures Summarize(dates, weights).Ready? ==> Summarize(dates, weights).kfLatest == Summarize(dates, weights).rawLatest
  {
    FilterConstant(weights, DefaultQ, DefaultR, DefaultP0);
  }

  /**
   * The computation of the change handler: ingest the rows, apply the gate,
   * filter the weights and pick the labels, by the same loops as main.js.
   */
  method Analyze(rows: seq<Row>, parse: string -> Option<real>, showNumber: real -> string) returns (s: Summary)
    ensures s == Process(rows, parse, showNumber)
  {
    var dates, weights := Ingest(rows, parse, showNumber);
    if |weights| < 2 {
      return Insufficient;
    }
    var kf := Kalman1D(weights, DefaultQ, DefaultR, None, DefaultP0);
    var n := |weights|;
    s := Ready(ResolveLabels(dates, n), weights, kf, weights[n - 1], kf[n - 1], n);
  }

  /**
   * What the file input delivers to the handler: no file at all, a file
   * that could not be read or decoded, or the rows of its first sheet.
   */
  datatype Selection = NoFile | Unreadable | Rows(rows: seq<Row>)

  /** The status line: one of the four states the page distinguishes. */
  datatype Status = Idle | Reading | TooFewRecords | ReadFailed | Updated

  /** The chart data handed to the drawing library. */
  datatype ChartData = ChartData(labels: seq<string>, raw: seq<real>, kf: seq<real>)

  /**
   * The page state the handler writes: the status line, the three summary
   * fields and the single chart handle `weightChartInstance`.
   */
  class Page {
    var status: Status
    var rawLatest: Option<real>
    var kfLatest: Option<real>
    var count: Option<nat>
    var chart: Option<ChartData>
    /** The chart instances destroyed so far, oldest first. */
    ghost var destroyed: seq<ChartData>

    constructor ()
      ensures status == Idle && rawLatest == None && kfLatest == None && count == None
      ensures chart == None && destroyed == []
    {
      status := Idle;
      rawLatest, kfLatest, count := None, None, None;
      chart := None;
      destroyed := [];
    }

    /**
     * `renderWeightChart`: without a canvas nothing happens; otherwise the
     * previous chart, if any, is destroyed before the new one is created.
     */
    method RenderWeightChart(canvasPresent: bool, labels: seq<string>, raw: seq<real>, kf: seq<real>)
      modifies this
      ensures status == old(status) && rawLatest == old(rawLatest) && kfLatest == old(kfLatest) && count == old(count)
      ensures !canvasPresent ==> chart == old(chart) && destroyed == old(destroyed)
      ensures canvasPresent ==> chart == Some(ChartData(labels, raw, kf))
      ensures canvasPresent ==> destroyed == old(destroyed) + (if old(chart).Some? then [old(chart).value] else [])
    {
      if !canvasPresent {
        return;
      }
      if chart.Some? {
        destroyed := destroyed + [chart.value];
        chart := None;
      }
      chart := Some(ChartData(labels, raw, kf));
    }

    /**
     * The change handler of the weight file input. Without a file nothing
     * happens; a file that cannot be read sets the failure note; fewer than
     * two weights set the guidance note; in those cases the summary fields
     * and the chart keep their previous values.
     */
    method OnWeightFile(selection: Selection, parse: string -> Option<real>, showNumber: real -> string, canvasPresent: bool)
      returns (s: Option<Summary>)
      modifies this
      ensures selection.NoFile? ==> s == None && unchanged(this)
      ensures selection.Unreadable? ==> s == None && status == ReadFailed
      ensures selection.Rows? ==> s == Some(Process(selection.rows, parse, showNumber))
      ensures s == Some(Insufficient) ==> status == TooFewRecords
      ensures (s == None || s == Some(Insufficient)) ==>
        rawLatest == old(rawLatest) && kfLatest == old(kfLatest) && count == old(count) &&
        chart == old(chart) && destroyed == old(destroyed)
      ensures s.Some? && s.value.Ready? ==> status == Updated
      ensures s.Some? && s.value.Ready? ==>
        rawLatest == Some(s.value.rawLatest) && kfLatest == Some(s.value.kfLatest) && count == Some(s.value.count)
      ensures s.Some? && s.value.Ready? && canvasPresent ==> chart == Some(ChartData(s.value.labels, s.value.raw, s.value.kf))
      ensures s.Some? && s.value.Ready? && canvasPresent ==>
        destroyed == old(destroyed) + (if old(chart).Some? then [old(chart).value] else [])
      ensures s.Some? && s.value.Ready? && !canvasPresent ==> chart == old(chart) && destroyed == old(destroyed)
    {
      if selection.NoFile? {
        return None;
      }
      status := Reading;
      if selection.Unreadable? {
        status := ReadFailed;
        return None;
      }
      var summary := Analyze(selection.rows, parse, showNumber);
      s := Some(summary);
      if summary.Insufficient? {
        status := TooFewRecords;
        return;
      }
      rawLatest := Some(summary.rawLatest);
      kfLatest := Some(summary.kfLatest);
      count := Some(summary.count);
      RenderWeightChart(canvasPresent, summary.labels, summary.raw, summary.kf);
      status := Updated;
    }
  }
}
