/**
 * What the two bar charts show: one bar per sentiment zone present, in a
 * fixed order, with the mean PnL or the win rate of the zone as its
 * height, and a value label placed above or below each bar.
 */
module Charts {
  import opened Wrappers
  import opened Floats
  import opened Sentiment

  // ---------------------------------------------------------------------
  // Axis order: [x for x in order if x in index]
  // ---------------------------------------------------------------------

  /** The fixed order of the zones on both bar charts. */
  const PlotOrder: seq<Bucket> := [ExtremeFear, Fear, Greed, ExtremeGreed]

  /** Ranks strictly increase along `s`, so no zone appears twice. */
  predicate StrictlyRanked(s: seq<Bucket>) {
    forall i, j :: 0 <= i < j < |s| ==> Rank(s[i]) < Rank(s[j])
  }

  lemma HeadRankBelowRest(order: seq<Bucket>, rest: seq<Bucket>)
    requires order != [] && StrictlyRanked(order)
    requires forall b :: b in rest ==> b in order[1..]
    ensures StrictlyRanked(order[1..])
    ensures forall b :: b in rest ==> Rank(order[0]) < Rank(b)
  {
    forall b | b in rest ensures Rank(order[0]) < Rank(b) {
      var k :| 0 <= k < |order[1..]| && order[1..][k] == b;
      assert order[k + 1] == b;
    }
    forall i, j | 0 <= i < j < |order[1..]| ensures Rank(order[1..][i]) < Rank(order[1..][j]) {
      assert order[1..][i] == order[i + 1] && order[1..][j] == order[j + 1];
    }
  }

  /** The zones of `order` that are in `present`, in the order of `order`. */
  function KeepPresent(order: seq<Bucket>, present: set<Bucket>): (r: seq<Bucket>)
    ensures |r| <= |order|
    ensures forall b :: b in r <==> b in order && b in present
    ensures StrictlyRanked(order) ==> StrictlyRanked(r)
  {
    if order == [] then []
    else
      var rest := KeepPresent(order[1..], present);
      assert forall b :: b in order <==> b == order[0] || b in order[1..];
      if order[0] in present then
        if StrictlyRanked(order) then
          HeadRankBelowRest(order, rest);
          [order[0]] + rest
        else [order[0]] + rest
      else
        if StrictlyRanked(order) then
          HeadRankBelowRest(order, rest);
          rest
        else rest
  }

  /**
   * The index the charts are reindexed to: a zone appears exactly when it
   * is among the groups present, Unknown never does, and the zones come
   * in plot order without repetition.
   */
  function AxisOrder(present: set<Bucket>): (r: seq<Bucket>)
    ensures |r| <= 4
    ensures forall b :: b in r <==> b in present && b != Unknown
    ensures StrictlyRanked(r)
    ensures forall i, j :: 0 <= i < j < |r| ==> r[i] != r[j]
  {
    assert forall b :: b in PlotOrder <==> b != Unknown;
    assert StrictlyRanked(PlotOrder);
    KeepPresent(PlotOrder, present)
  }

  lemma {:induction false} KeepPresentAll(order: seq<Bucket>, present: set<Bucket>)
    requires forall b :: b in order ==> b in present
    ensures KeepPresent(order, present) == order
  {
    if order != [] {
      assert order[0] in order;
      assert forall b :: b in order[1..] ==> b in order;
      KeepPresentAll(order[1..], present);
    }
  }

  /** With every zone present the axis is the whole plot order. */
  lemma AxisOrderAllPresent(present: set<Bucket>)
    requires forall b :: b in PlotOrder ==> b in present
    ensures AxisOrder(present) == PlotOrder
  {
    KeepPresentAll(PlotOrder, present);
  }

  // ---------------------------------------------------------------------
  // Per-zone aggregates of the merged rows
  // ---------------------------------------------------------------------

  /** What the charts need of a merged row: its cleaned PnL (None for NaN) and its zone. */
  datatype Obs = Obs(pnl: Option<real>, bucket: Bucket)

  /** is_win: pnl_clean > 0, which is false for a missing PnL. */
  function IsWin(pnl: Option<real>): (w: bool)
    ensures w ==> pnl.Some?
    ensures pnl.Some? ==> (w <==> pnl.value > 0.0)
  {
    pnl.Some? && pnl.value > 0.0
  }

  /** The groups groupby('sentiment_bucket') forms. */
  function Present(obs: seq<Obs>): set<Bucket> {
    set i | 0 <= i < |obs| :: obs[i].bucket
  }

  /** The number of rows in zone `b`. */
  function RowsIn(obs: seq<Obs>, b: Bucket): nat {
    if obs == [] then 0 else (if obs[0].bucket == b then 1 else 0) + RowsIn(obs[1..], b)
  }

  /** The number of winning rows in zone `b`. */
  function WinsIn(obs: seq<Obs>, b: Bucket): (n: nat)
    ensures n <= RowsIn(obs, b)
  {
    if obs == [] then 0
    else (if obs[0].bucket == b && IsWin(obs[0].pnl) then 1 else 0) + WinsIn(obs[1..], b)
  }

  /** A zone is a group exactly when some row falls in it. */
  lemma {:induction false} RowsInPositive(obs: seq<Obs>, b: Bucket)
    ensures RowsIn(obs, b) > 0 <==> b in Present(obs)
  {
    if obs != [] {
      RowsInPositive(obs[1..], b);
      assert Present(obs) == {obs[0].bucket} + Present(obs[1..]) by {
        forall x | x in Present(obs) ensures x in {obs[0].bucket} + Present(obs[1..]) {
          var i :| 0 <= i < |obs| && obs[i].bucket == x;
          if i > 0 { assert obs[1..][i - 1] == obs[i]; }
        }
        forall x | x in Present(obs[1..]) ensures x in Present(obs) {
          var i :| 0 <= i < |obs[1..]| && obs[1..][i].bucket == x;
          assert obs[i + 1] == obs[1..][i];
        }
      }
    }
  }

  /**
   * The mean of is_win over a zone's rows: the share of its rows that win,
   * a missing PnL counting as a loss. It lies in [0, 1].
   */
  function WinRate(obs: seq<Obs>, b: Bucket): (rate: real)
    requires b in Present(obs)
    ensures 0.0 <= rate <= 1.0
    ensures rate == 1.0 <==> WinsIn(obs, b) == RowsIn(obs, b)
    ensures rate == 0.0 <==> WinsIn(obs, b) == 0
  {
    RowsInPositive(obs, b);
    RatioFacts(WinsIn(obs, b), RowsIn(obs, b));
    WinsIn(obs, b) as real / RowsIn(obs, b) as real
  }

  lemma RatioFacts(w: nat, n: nat)
    requires 0 < n && w <= n
    ensures 0.0 <= w as real / n as real <= 1.0
    ensures w as real / n as real == 1.0 <==> w == n
    ensures w as real / n as real == 0.0 <==> w == 0
  {
    var x, y := w as real, n as real;
    var q := x / y;
    assert q * y == x;
    if q < 0.0 {
      assert false;
    }
    if q > 1.0 {
      assert false;
    }
    if q == 1.0 { assert x == y; }
    if q == 0.0 { assert x == 0.0; }
  }

  /** The number of rows of zone `b` with a PnL. */
  function PnlCountIn(obs: seq<Obs>, b: Bucket): nat {
    if obs == [] then 0
    else (if obs[0].bucket == b && obs[0].pnl.Some? then 1 else 0) + PnlCountIn(obs[1..], b)
  }

  /** The sum of the PnL of the rows of zone `b` that have one. */
  function PnlSumIn(obs: seq<Obs>, b: Bucket): real {
    if obs == [] then 0.0
    else (if obs[0].bucket == b && obs[0].pnl.Some? then obs[0].pnl.value else 0.0) + PnlSumIn(obs[1..], b)
  }

  /** groupby().mean() of pnl_clean for zone `b`: missing PnL is skipped; NaN (None) when none is left. */
  function MeanPnl(obs: seq<Obs>, b: Bucket): (m: Option<real>)
    ensures m.None? <==> PnlCountIn(obs, b) == 0
  {
    var n := PnlCountIn(obs, b);
    if n == 0 then None else Some(PnlSumIn(obs, b) / n as real)
  }

  /** Every PnL of zone `b` lies in [lo, hi]. */
  predicate PnlWithin(obs: seq<Obs>, b: Bucket, lo: real, hi: real) {
    forall i :: 0 <= i < |obs| && obs[i].bucket == b && obs[i].pnl.Some? ==>
      lo <= obs[i].pnl.value <= hi
  }

  lemma PnlWithinTail(obs: seq<Obs>, b: Bucket, lo: real, hi: real)
    requires obs != [] && PnlWithin(obs, b, lo, hi)
    ensures PnlWithin(obs[1..], b, lo, hi)
    ensures obs[0].bucket == b && obs[0].pnl.Some? ==> lo <= obs[0].pnl.value <= hi
  {
    forall i | 0 <= i < |obs[1..]| ensures obs[1..][i] == obs[i + 1] {}
  }

  /** Scaled bounds on a sum: `n * lo <= total <= n * hi`. */
  predicate ScaledWithin(n: real, total: real, lo: real, hi: real) {
    n * lo <= total <= n * hi
  }

  lemma {:induction false} PnlSumBounds(obs: seq<Obs>, b: Bucket, lo: real, hi: real)
    requires PnlWithin(obs, b, lo, hi)
    ensures ScaledWithin(PnlCountIn(obs, b) as real, PnlSumIn(obs, b), lo, hi)
  {
    if obs == [] {
      assert PnlCountIn(obs, b) == 0 && PnlSumIn(obs, b) == 0.0;
    } else {
      PnlWithinTail(obs, b, lo, hi);
      PnlSumBounds(obs[1..], b, lo, hi);
      var c, t := PnlCountIn(obs[1..], b) as real, PnlSumIn(obs[1..], b);
      if obs[0].bucket == b && obs[0].pnl.Some? {
        var v := obs[0].pnl.value;
        assert PnlCountIn(obs, b) as real == c + 1.0;
        assert PnlSumIn(obs, b) == v + t;
        SumStep(c, t, v, lo, hi);
      } else {
        assert PnlCountIn(obs, b) as real == c;
        assert PnlSumIn(obs, b) == t;
      }
    }
  }

  lemma SumStep(c: real, t: real, v: real, lo: real, hi: real)
    requires ScaledWithin(c, t, lo, hi) && lo <= v <= hi
    ensures ScaledWithin(c + 1.0, v + t, lo, hi)
  {
    assert (c + 1.0) * lo == c * lo + lo;
    assert (c + 1.0) * hi == c * hi + hi;
  }

  lemma MeanWithin(s: real, n: nat, lo: real, hi: real)
    requires n > 0 && ScaledWithin(n as real, s, lo, hi)
    ensures lo <= s / n as real <= hi
  {
    var m := s / n as real;
    assert m * n as real == s;
  }

  /** A zone's mean PnL lies between the smallest and the largest PnL of the zone. */
  lemma MeanPnlBounds(obs: seq<Obs>, b: Bucket, lo: real, hi: real)
    requires PnlWithin(obs, b, lo, hi)
    ensures MeanPnl(obs, b).Some? ==> lo <= MeanPnl(obs, b).value <= hi
  {
    var n := PnlCountIn(obs, b);
    if n > 0 {
      PnlSumBounds(obs, b, lo, hi);
      var s := PnlSumIn(obs, b);
      MeanWithin(s, n, lo, hi);
    }
  }

  // ---------------------------------------------------------------------
  // The bars of the two charts
  // ---------------------------------------------------------------------

  /** One bar: its zone and its height (NaN when the aggregate is missing). */
  datatype Bar = Bar(bucket: Bucket, height: Float)

  /** Chart 1: mean PnL per zone, reindexed to the axis order. */
  function PnlBars(obs: seq<Obs>): (bars: seq<Bar>)
    ensures |bars| == |AxisOrder(Present(obs))|
    ensures forall i :: 0 <= i < |bars| ==> bars[i].bucket == AxisOrder(Present(obs))[i]
    ensures forall i :: 0 <= i < |bars| ==>
              bars[i].height == match MeanPnl(obs, bars[i].bucket)
                                case None => NaN
                                case Some(v) => Finite(v)
  {
    var axis := AxisOrder(Present(obs));
    seq(|axis|, i requires 0 <= i < |axis| =>
      Bar(axis[i], match MeanPnl(obs, axis[i]) case None => NaN case Some(v) => Finite(v)))
  }

  /** Chart 3: win rate per zone, reindexed to the axis order; every height is in [0, 1]. */
  function WinRateBars(obs: seq<Obs>): (bars: seq<Bar>)
    ensures |bars| == |AxisOrder(Present(obs))|
    ensures forall i :: 0 <= i < |bars| ==> bars[i].bucket == AxisOrder(Present(obs))[i]
    ensures forall i :: 0 <= i < |bars| ==>
              bars[i].height.Finite? && 0.0 <= bars[i].height.v <= 1.0
              && bars[i].height.v == WinRate(obs, bars[i].bucket)
  {
    var axis := AxisOrder(Present(obs));
    assert forall i :: 0 <= i < |axis| ==> axis[i] in Present(obs);
    seq(|axis|, i requires 0 <= i < |axis| => Bar(axis[i], Finite(WinRate(obs, axis[i]))))
  }

  // ---------------------------------------------------------------------
  // add_bar_labels
  // ---------------------------------------------------------------------

  /** A drawn bar: left edge, width and height. */
  datatype Patch = Patch(x: real, width: real, height: Float)

  /** ax.annotate: the point labelled and the text offset in points. */
  datatype Annotation = Annotation(x: real, y: Float, dx: int, dy: int)

  /** xy_pos: 8 points above a bar of height >= 0, 20 points below any other (NaN too). */
  function LabelOffset(height: Float): (off: (int, int))
    ensures off == (0, 8) || off == (0, -20)
    ensures off.1 > 0 <==> AtLeast(height, 0.0)
  {
    if AtLeast(height, 0.0) then (0, 8) else (0, -20)
  }

  /** The labels add_bar_labels places, one per patch, in patch order. */
  method AddBarLabels(patches: seq<Patch>) returns (notes: seq<Annotation>)
    ensures |notes| == |patches|
    ensures forall i :: 0 <= i < |patches| ==>
              notes[i].x == patches[i].x + patches[i].width / 2.0
              && notes[i].y == patches[i].height
              && (notes[i].dx, notes[i].dy) == LabelOffset(patches[i].height)
  {
    notes := [];
    for i := 0 to |patches|
      invariant |notes| == i
      invariant forall k :: 0 <= k < i ==>
                  notes[k].x == patches[k].x + patches[k].width / 2.0
                  && notes[k].y == patches[k].height
                  && (notes[k].dx, notes[k].dy) == LabelOffset(patches[k].height)
    {
      var p := patches[i];
      var height := p.height;
      var xyPos := if AtLeast(height, 0.0) then (0, 8) else (0, -20);
      notes := notes + [Annotation(p.x + p.width / 2.0, height, xyPos.0, xyPos.1)];
    }
  }

  /** On the win-rate chart every label sits above its bar. */
  lemma WinRateLabelsAbove(obs: seq<Obs>)
    ensures forall bar :: bar in WinRateBars(obs) ==> LabelOffset(bar.height) == (0, 8)
  {
  }
}
