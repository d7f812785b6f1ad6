/**
 * get_bucket: the Fear & Greed index value of a merged row turned into a
 * sentiment zone.
 */
module Sentiment {
  import opened Wrappers
  import opened Floats

  /** The four zones of the index, and Unknown for a value that is not a number. */
  datatype Bucket = ExtremeFear | Fear | Greed | ExtremeGreed | Unknown

  /** The label written into the sentiment_bucket column. */
  function Label(b: Bucket): string {
    match b
    case ExtremeFear => "Extreme Fear"
    case Fear => "Fear"
    case Greed => "Greed"
    case ExtremeGreed => "Extreme Greed"
    case Unknown => "Unknown"
  }

  /** Different zones get different labels, so grouping by label is grouping by zone. */
  lemma LabelInjective(a: Bucket, b: Bucket)
    ensures Label(a) == Label(b) ==> a == b
  {
  }

  /** The position of a zone on the chart axes: Extreme Fear first, Extreme Greed last. */
  function Rank(b: Bucket): nat {
    match b
    case ExtremeFear => 0
    case Fear => 1
    case Greed => 2
    case ExtremeGreed => 3
    case Unknown => 4
  }

  /**
   * get_bucket exactly as written. `parsed` is the result of float(val):
   * None when the conversion raises. A NaN passes float() and then every
   * `<` is false, so it lands in Extreme Greed.
   */
  function GetBucketAsWritten(parsed: Option<Float>): (b: Bucket)
    ensures b == Unknown <==> parsed.None?
  {
    match parsed
    case None => Unknown
    case Some(v) =>
      if Less(v, 25.0) then ExtremeFear
      else if Less(v, 50.0) then Fear
      else if Less(v, 75.0) then Greed
      else ExtremeGreed
  }

  /** A missing index value (NaN) is put in Extreme Greed by the code as written. */
  lemma MissingValueIsExtremeGreedAsWritten()
    ensures GetBucketAsWritten(Some(NaN)) == ExtremeGreed
  {
  }

  /**
   * get_bucket with a missing value (NaN) treated like one that does not
   * convert: it goes to Unknown. Every other input is bucketed as the
   * code does: a number goes to exactly one zone by the thresholds 25,
   * 50 and 75, a value on a threshold going to the upper zone, and the
   * infinities go to the outer zones.
   */
  function GetBucket(parsed: Option<Float>): (b: Bucket)
    ensures b == Unknown <==> parsed.None? || parsed.value.NaN?
    ensures !(parsed.Some? && parsed.value.NaN?) ==> b == GetBucketAsWritten(parsed)
    ensures parsed.Some? && parsed.value.Finite? ==>
              var v := parsed.value.v;
              && (b == ExtremeFear <==> v < 25.0)
              && (b == Fear <==> 25.0 <= v < 50.0)
              && (b == Greed <==> 50.0 <= v < 75.0)
              && (b == ExtremeGreed <==> 75.0 <= v)
    ensures parsed == Some(NegInf) ==> b == ExtremeFear
    ensures parsed == Some(PosInf) ==> b == ExtremeGreed
  {
    match parsed
    case Some(NaN) => Unknown
    case _ => GetBucketAsWritten(parsed)
  }

  /** A larger index value never gets a more fearful zone. */
  lemma BucketMonotone(x: Float, y: Float)
    requires !x.NaN? && !y.NaN? && LessEq(x, y)
    ensures Rank(GetBucket(Some(x))) <= Rank(GetBucket(Some(y)))
  {
  }

  /**
   * The sentiment_bucket column as written: get_bucket applied to every
   * value. It holds Unknown exactly where float() failed, puts a NaN in
   * Extreme Greed, and agrees with the corrected GetBucket everywhere else.
   */
  function BucketColumn(values: seq<Option<Float>>): (r: seq<Bucket>)
    ensures |r| == |values|
    ensures forall i :: 0 <= i < |r| ==> (r[i] == Unknown <==> values[i].None?)
    ensures forall i :: 0 <= i < |r| && values[i] == Some(NaN) ==> r[i] == ExtremeGreed
    ensures forall i :: 0 <= i < |r| && values[i] != Some(NaN) ==> r[i] == GetBucket(values[i])
  {
    seq(|values|, i requires 0 <= i < |values| => GetBucketAsWritten(values[i]))
  }
}
