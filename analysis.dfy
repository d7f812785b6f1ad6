/**
 * analyze_and_visualize as a whole: merge the cleaned tables, stop on an
 * empty merge, map the columns found by name, bucket the index values
 * and decide which of the three charts is drawn and with which bars.
 */
module Analysis {
  import opened Wrappers
  import opened Floats
  import opened Dates
  import opened Merge
  import opened Columns
  import opened Sentiment
  import opened Charts

  /** The trader cells the analysis reads: pnl_clean and lev_clean (None for NaN). */
  datatype TraderCells = TraderCells(pnl: Option<real>, leverage: Option<real>)

  /** What the leverage step does. */
  datatype LeveragePlot = Drawn | Skipped | MissingColumnError

  /**
   * Plot 2 as written: its guard looks only at lev_clean, but the scatter
   * reads the sentiment_value column, which exists only when a value
   * column was found; without one, pandas raises a KeyError.
   */
  function LeveragePlotAsWritten(valueFound: bool, leverageFound: bool, lev: seq<Option<real>>): (p: LeveragePlot)
    ensures p == MissingColumnError <==> !valueFound && leverageFound && exists i :: 0 <= i < |lev| && lev[i].Some?
    ensures p == Skipped <==> !(leverageFound && exists i :: 0 <= i < |lev| && lev[i].Some?)
  {
    var anyLeverage := leverageFound && exists i | 0 <= i < |lev| :: lev[i].Some?;
    if anyLeverage then (if valueFound then Drawn else MissingColumnError) else Skipped
  }

  /** A leverage column with values and no sentiment value column ends the run with an error. */
  lemma LeveragePlotCrashExample()
    ensures LeveragePlotAsWritten(false, true, [Some(10.0)]) == MissingColumnError
  {
    assert [Some(10.0)][0].Some?;
  }

  /**
   * Plot 2 as intended: drawn when a leverage column with some value and a
   * sentiment value column were both found, skipped otherwise, never an error.
   */
  function LeveragePlotShown(valueFound: bool, leverageFound: bool, lev: seq<Option<real>>): (p: LeveragePlot)
    ensures p != MissingColumnError
    ensures p == Drawn <==> valueFound && leverageFound && exists i :: 0 <= i < |lev| && lev[i].Some?
    ensures valueFound ==> p == LeveragePlotAsWritten(valueFound, leverageFound, lev)
  {
    var anyLeverage := leverageFound && exists i | 0 <= i < |lev| :: lev[i].Some?;
    if anyLeverage && valueFound then Drawn else Skipped
  }

  /** What the analysis produces: the bars of plots 1 and 3 when drawn, and plot 2's fate. */
  datatype Report = Report(pnlBars: Option<seq<Bar>>, leverage: LeveragePlot, winBars: Option<seq<Bar>>)

  /** A merged row reduced to what the bar charts need. */
  function Observations(rows: seq<Merged<TraderCells, Option<Float>>>): (obs: seq<Obs>)
    ensures |obs| == |rows|
    ensures forall i :: 0 <= i < |rows| ==>
              obs[i].pnl == rows[i].trader.pnl && obs[i].bucket == GetBucket(rows[i].sentiment)
  {
    seq(|rows|, i requires 0 <= i < |rows| => Obs(rows[i].trader.pnl, GetBucket(rows[i].sentiment)))
  }

  /** The lev_clean column of the merged rows, in row order. */
  function LeverageValues(rows: seq<Merged<TraderCells, Option<Float>>>): (lev: seq<Option<real>>)
    ensures |lev| == |rows|
    ensures forall i :: 0 <= i < |rows| ==> lev[i] == rows[i].trader.leverage
  {
    seq(|rows|, i requires 0 <= i < |rows| => rows[i].trader.leverage)
  }

  /**
   * The analysis of the cleaned tables. `cols` are the merged table's
   * column names; the trader cells hold the cleaned PnL and leverage, the
   * sentiment cells the float() reading of the index value.
   */
  function Analyze(cols: seq<string>, ts: seq<Row<TraderCells>>, ss: seq<Row<Option<Float>>>)
    : (r: Result<Report, AnalysisError>)
    ensures r.Err? <==> Join(ts, ss) == []
    ensures r.Ok? ==>
              var bucketed := FindColumn(cols, PnlRole).Some? && FindColumn(cols, ValueRole).Some?;
              && (r.value.pnlBars.Some? <==> bucketed)
              && (r.value.winBars.Some? <==> bucketed)
              && r.value.leverage != MissingColumnError
    ensures r.Ok? ==>
              var obs := Observations(Join(ts, ss));
              var bucketed := FindColumn(cols, PnlRole).Some? && FindColumn(cols, ValueRole).Some?;
              && r.value.pnlBars == (if bucketed then Some(PnlBars(obs)) else None)
              && r.value.winBars == (if bucketed then Some(WinRateBars(obs)) else None)
              && r.value.leverage == LeveragePlotShown(FindColumn(cols, ValueRole).Some?,
                                                       FindColumn(cols, LeverageRole).Some?,
                                                       LeverageValues(Join(ts, ss)))
    ensures r.Ok? && r.value.winBars.Some? ==>
              forall i :: 0 <= i < |r.value.winBars.value| ==>
                var bar := r.value.winBars.value[i];
                bar.bucket != Unknown && bar.height.Finite? && 0.0 <= bar.height.v <= 1.0
  {
    match MergeStep(ts, ss)
    case Err(e) => Err(e)
    case Ok(merged) =>
      var obs := Observations(merged);
      var bucketed := FindColumn(cols, PnlRole).Some? && FindColumn(cols, ValueRole).Some?;
      var levPlot := LeveragePlotShown(FindColumn(cols, ValueRole).Some?, FindColumn(cols, LeverageRole).Some?,
                                       LeverageValues(merged));
      var winBars := WinRateBars(obs);
      assert forall i :: 0 <= i < |winBars| ==> winBars[i].bucket in AxisOrder(Present(obs));
      Ok(Report(if bucketed then Some(PnlBars(obs)) else None, levPlot,
                if bucketed then Some(winBars) else None))
  }

  /**
   * From loaded tables to the outcome: rows without a date key are dropped,
   * and the analysis stops with the empty-merge error exactly when the two
   * tables share no date key.
   */
  lemma PipelineEmptyMergeIff(cols: seq<string>, ts: seq<Row<TraderCells>>, ss: seq<Row<Option<Float>>>)
    ensures Analyze(cols, DropMissingKey(ts), DropMissingKey(ss)) == Err(EmptyMerge)
            <==> Keys(ts) * Keys(ss) == {}
  {
    EmptyMergeIffNoSharedKey(ts, ss);
  }
}
