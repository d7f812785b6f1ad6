/**
 * pd.merge(trader_df, sentiment_df, on='date_key', how='inner') and the
 * empty-result check that ends the analysis.
 */
module Merge {
  import opened Wrappers
  import opened Dates

  /** One row of the merged table: the shared key, the trader cells, the sentiment cells. */
  datatype Merged<T, S> = Merged(key: Option<int>, trader: T, sentiment: S)

  datatype AnalysisError = EmptyMerge

  /** The indices of the sentiment rows that, joined with `t`, give the merged row `m`. */
  ghost function Hits<T, S>(t: Row<T>, ss: seq<Row<S>>, m: Merged<T, S>): set<nat> {
    set j: nat | j < |ss| && ss[j].key == t.key && Merged(t.key, t.cells, ss[j].cells) == m
  }

  /** The (trader, sentiment) index pairs whose join gives the merged row `m`. */
  ghost function Pairs<T, S>(ts: seq<Row<T>>, ss: seq<Row<S>>, m: Merged<T, S>): set<(nat, nat)> {
    set i: nat, j: nat | i < |ts| && j < |ss| && ts[i].key == ss[j].key
                         && Merged(ts[i].key, ts[i].cells, ss[j].cells) == m :: (i, j)
  }

  /**
   * The rows of `ss` whose key equals that of `t`, each paired with `t`,
   * in the order of `ss`.
   */
  function MatchesOf<T, S>(t: Row<T>, ss: seq<Row<S>>): (r: seq<Merged<T, S>>)
    ensures forall m | m in r :: exists j :: 0 <= j < |ss| && ss[j].key == t.key
                                        && m == Merged(t.key, t.cells, ss[j].cells)
    ensures forall j | 0 <= j < |ss| && ss[j].key == t.key :: Merged(t.key, t.cells, ss[j].cells) in r
  {
    if ss == [] then []
    else
      var rest := MatchesOf(t, ss[1..]);
      assert forall j :: 1 <= j < |ss| ==> ss[j] == ss[1..][j - 1];
      if ss[0].key == t.key then [Merged(t.key, t.cells, ss[0].cells)] + rest else rest
  }

  /**
   * The inner join. Keys are compared as pandas compares them, which pairs
   * a missing key with a missing key; the rows come in trader order, and
   * for each trader row in sentiment order.
   */
  function Join<T, S>(ts: seq<Row<T>>, ss: seq<Row<S>>): (r: seq<Merged<T, S>>)
    ensures forall m | m in r :: exists i, j :: 0 <= i < |ts| && 0 <= j < |ss|
                                        && ts[i].key == ss[j].key
                                        && m == Merged(ts[i].key, ts[i].cells, ss[j].cells)
    ensures forall i, j | 0 <= i < |ts| && 0 <= j < |ss| && ts[i].key == ss[j].key ::
              Merged(ts[i].key, ts[i].cells, ss[j].cells) in r
  {
    if ts == [] then []
    else
      var rest := Join(ts[1..], ss);
      assert forall i :: 1 <= i < |ts| ==> ts[i] == ts[1..][i - 1];
      MatchesOf(ts[0], ss) + rest
  }

  /** A trader row's matches hold each merged row once per sentiment row that gives it. */
  lemma {:induction false} MatchesOfCount<T, S>(t: Row<T>, ss: seq<Row<S>>, m: Merged<T, S>)
    ensures multiset(MatchesOf(t, ss))[m] == |Hits(t, ss, m)|
  {
    if ss == [] {
      assert Hits(t, ss, m) == {};
    } else {
      MatchesOfCount(t, ss[1..], m);
      HitsSplit(t, ss, m);
    }
  }

  /**
   * The merged table holds each merged row once per pair of rows, one from
   * each table, that gives it: the multiplicities the row means and win
   * rates are computed from.
   */
  lemma {:induction false} JoinCount<T, S>(ts: seq<Row<T>>, ss: seq<Row<S>>, m: Merged<T, S>)
    ensures multiset(Join(ts, ss))[m] == |Pairs(ts, ss, m)|
  {
    if ts == [] {
      assert Pairs(ts, ss, m) == {};
    } else {
      JoinCount(ts[1..], ss, m);
      MatchesOfCount(ts[0], ss, m);
      PairsSplit(ts, ss, m);
    }
  }

  // ---------------------------------------------------------------------
  // Counting index sets
  // ---------------------------------------------------------------------

  function Shift(s: set<nat>): set<nat> {
    set j | j in s :: j + 1
  }

  function Tag(i: nat, s: set<nat>): set<(nat, nat)> {
    set j | j in s :: (i, j)
  }

  function ShiftFirst(s: set<(nat, nat)>): set<(nat, nat)> {
    set p | p in s :: (p.0 + 1, p.1)
  }

  lemma ShiftCard(s: set<nat>)
    ensures |Shift(s)| == |s|
    decreases |s|
  {
    if s != {} {
      var x :| x in s;
      ShiftCard(s - {x});
      assert Shift(s) == Shift(s - {x}) + {x + 1} by {
        forall j | j in Shift(s) ensures j in Shift(s - {x}) + {x + 1} {
          var k :| k in s && j == k + 1;
          if k != x { assert k in s - {x}; }
        }
      }
      assert x + 1 !in Shift(s - {x});
    }
  }

  lemma TagCard(i: nat, s: set<nat>)
    ensures |Tag(i, s)| == |s|
    decreases |s|
  {
    if s != {} {
      var x :| x in s;
      TagCard(i, s - {x});
      assert Tag(i, s) == Tag(i, s - {x}) + {(i, x)};
    }
  }

  lemma ShiftFirstCard(s: set<(nat, nat)>)
    ensures |ShiftFirst(s)| == |s|
    decreases |s|
  {
    if s != {} {
      var x :| x in s;
      ShiftFirstCard(s - {x});
      assert ShiftFirst(s) == ShiftFirst(s - {x}) + {(x.0 + 1, x.1)};
    }
  }

  /** The sentiment rows matching `t`: the first one, if it does, and those of the rest, shifted. */
  lemma HitsSplit<T, S>(t: Row<T>, ss: seq<Row<S>>, m: Merged<T, S>)
    requires ss != []
    ensures |Hits(t, ss, m)| ==
              (if ss[0].key == t.key && Merged(t.key, t.cells, ss[0].cells) == m then 1 else 0)
              + |Hits(t, ss[1..], m)|
  {
    var tl := Hits(t, ss[1..], m);
    var head: set<nat> := if ss[0].key == t.key && Merged(t.key, t.cells, ss[0].cells) == m then {0} else {};
    assert Hits(t, ss, m) == head + Shift(tl) by {
      forall j | j in Hits(t, ss, m) ensures j in head + Shift(tl) {
        if j > 0 {
          assert ss[1..][j - 1] == ss[j];
          assert j - 1 in tl;
        }
      }
      forall j | j in Shift(tl) ensures j in Hits(t, ss, m) {
        var k :| k in tl && j == k + 1;
        assert ss[1..][k] == ss[j];
      }
    }
    ShiftCard(tl);
    assert head * Shift(tl) == {};
  }

  /** The pairs giving `m`: those of the first trader row, and those of the rest, shifted. */
  lemma PairsSplit<T, S>(ts: seq<Row<T>>, ss: seq<Row<S>>, m: Merged<T, S>)
    requires ts != []
    ensures |Pairs(ts, ss, m)| == |Hits(ts[0], ss, m)| + |Pairs(ts[1..], ss, m)|
  {
    var hd := Hits(ts[0], ss, m);
    var tl := Pairs(ts[1..], ss, m);
    assert Pairs(ts, ss, m) == Tag(0, hd) + ShiftFirst(tl) by {
      forall p | p in Pairs(ts, ss, m) ensures p in Tag(0, hd) + ShiftFirst(tl) {
        var i, j := p.0, p.1;
        if i == 0 {
          assert j in hd;
        } else {
          assert ts[1..][i - 1] == ts[i];
          assert (i - 1, j) in tl;
          assert p == ((i - 1) + 1, j);
        }
      }
      forall p | p in Tag(0, hd) ensures p in Pairs(ts, ss, m) {
        var j :| j in hd && p == (0, j);
      }
      forall p | p in ShiftFirst(tl) ensures p in Pairs(ts, ss, m) {
        var q :| q in tl && p == (q.0 + 1, q.1);
        assert ts[1..][q.0] == ts[q.0 + 1];
      }
    }
    TagCard(0, hd);
    ShiftFirstCard(tl);
    assert Tag(0, hd) * ShiftFirst(tl) == {};
  }

  /** The number of sentiment rows whose key equals `key`. */
  function MatchCount<S>(ss: seq<Row<S>>, key: Option<int>): nat {
    if ss == [] then 0 else (if ss[0].key == key then 1 else 0) + MatchCount(ss[1..], key)
  }

  /** The sum, over trader rows, of the number of sentiment rows with the same key. */
  function PairCount<T, S>(ts: seq<Row<T>>, ss: seq<Row<S>>): nat {
    if ts == [] then 0 else MatchCount(ss, ts[0].key) + PairCount(ts[1..], ss)
  }

  lemma {:induction false} MatchesOfLength<T, S>(t: Row<T>, ss: seq<Row<S>>)
    ensures |MatchesOf(t, ss)| == MatchCount(ss, t.key)
  {
    if ss != [] {
      MatchesOfLength(t, ss[1..]);
    }
  }

  /** The merged row count is the number of (trader, sentiment) row pairs with equal keys. */
  lemma {:induction false} JoinLength<T, S>(ts: seq<Row<T>>, ss: seq<Row<S>>)
    ensures |Join(ts, ss)| == PairCount(ts, ss)
  {
    if ts != [] {
      MatchesOfLength(ts[0], ss);
      JoinLength(ts[1..], ss);
    }
  }

  /**
   * After dropna on both tables every merged row has a key, and that key
   * occurs in both tables.
   */
  lemma JoinKeysInBoth<T, S>(ts: seq<Row<T>>, ss: seq<Row<S>>)
    ensures forall m :: m in Join(DropMissingKey(ts), DropMissingKey(ss)) ==>
              m.key.Some? && m.key.value in Keys(ts) && m.key.value in Keys(ss)
  {
    var dt, ds := DropMissingKey(ts), DropMissingKey(ss);
    forall m | m in Join(dt, ds)
      ensures m.key.Some? && m.key.value in Keys(ts) && m.key.value in Keys(ss)
    {
      var i, j :| 0 <= i < |dt| && 0 <= j < |ds| && dt[i].key == ds[j].key
                  && m == Merged(dt[i].key, dt[i].cells, ds[j].cells);
      assert dt[i] in dt && ds[j] in ds;
      assert dt[i] in ts && ds[j] in ss;
      var a :| 0 <= a < |ts| && ts[a] == dt[i];
      var b :| 0 <= b < |ss| && ss[b] == ds[j];
    }
  }

  /** Without the drop, a trader row and a sentiment row with no date are merged. */
  lemma MissingKeysPairUp<T, S>(t: T, s: S)
    ensures Join([Row(None, t)], [Row(None, s)]) == [Merged(None, t, s)]
  {
    var ts, ss := [Row(None, t)], [Row(None, s)];
    assert ts[1..] == [] && ss[1..] == [];
    assert MatchesOf(ts[0], ss) == [Merged(None, t, s)];
  }

  /** The merge, and the error exit when it holds no row. */
  function MergeStep<T, S>(ts: seq<Row<T>>, ss: seq<Row<S>>): (r: Result<seq<Merged<T, S>>, AnalysisError>)
    ensures r.Ok? ==> r.value != [] && r.value == Join(ts, ss)
    ensures r.Err? <==> Join(ts, ss) == []
  {
    var m := Join(ts, ss);
    if |m| == 0 then Err(EmptyMerge) else Ok(m)
  }

  /** A row with a key survives the drop. */
  lemma KeptByDrop<T>(rows: seq<Row<T>>, a: int)
    requires 0 <= a < |rows| && rows[a].key.Some?
    ensures exists i :: 0 <= i < |DropMissingKey(rows)| && DropMissingKey(rows)[i] == rows[a]
  {
    assert rows[a] in multiset(rows);
    assert rows[a] in DropMissingKey(rows);
  }

  /** A key shared by the two tables gives at least one merged row. */
  lemma SharedKeyGivesRow<T, S>(ts: seq<Row<T>>, ss: seq<Row<S>>, k: int)
    requires k in Keys(ts) && k in Keys(ss)
    ensures Join(DropMissingKey(ts), DropMissingKey(ss)) != []
  {
    var dt, ds := DropMissingKey(ts), DropMissingKey(ss);
    var a :| 0 <= a < |ts| && ts[a].key.Some? && ts[a].key.value == k;
    var b :| 0 <= b < |ss| && ss[b].key.Some? && ss[b].key.value == k;
    KeptByDrop(ts, a);
    KeptByDrop(ss, b);
    var i :| 0 <= i < |dt| && dt[i] == ts[a];
    var j :| 0 <= j < |ds| && ds[j] == ss[b];
    assert Merged(dt[i].key, dt[i].cells, ds[j].cells) in Join(dt, ds);
  }

  /**
   * The analysis of the cleaned tables stops with the empty-merge error
   * exactly when they share no date key.
   */
  lemma EmptyMergeIffNoSharedKey<T, S>(ts: seq<Row<T>>, ss: seq<Row<S>>)
    ensures MergeStep(DropMissingKey(ts), DropMissingKey(ss)).Err? <==> Keys(ts) * Keys(ss) == {}
  {
    var dt, ds := DropMissingKey(ts), DropMissingKey(ss);
    if k :| k in Keys(ts) * Keys(ss) {
      SharedKeyGivesRow(ts, ss, k);
    } else if Join(dt, ds) != [] {
      JoinKeysInBoth(ts, ss);
      var m := Join(dt, ds)[0];
      assert m in Join(dt, ds);
      assert m.key.value in Keys(ts) * Keys(ss);
    }
  }

  /** Cleaned tables whose date ranges do not overlap end in the empty-merge error. */
  lemma NoOverlapEndsInEmptyMerge<T, S>(ts: seq<Row<T>>, ss: seq<Row<S>>)
    requires NoOverlapWarning(KeyRange(DropMissingKey(ts)), KeyRange(DropMissingKey(ss)))
    ensures MergeStep(DropMissingKey(ts), DropMissingKey(ss)) == Err(EmptyMerge)
  {
    NoOverlapWarningMeansDisjoint(DropMissingKey(ts), DropMissingKey(ss));
    DropKeepsKeys(ts);
    DropKeepsKeys(ss);
    EmptyMergeIffNoSharedKey(ts, ss);
  }

  /** Dropping rows without a key loses no key. */
  lemma DropKeepsKeys<T>(rows: seq<Row<T>>)
    ensures Keys(DropMissingKey(rows)) == Keys(rows)
  {
    var d := DropMissingKey(rows);
    forall k | k in Keys(rows) ensures k in Keys(d) {
      var a :| 0 <= a < |rows| && rows[a].key == Some(k);
      KeptByDrop(rows, a);
      var i :| 0 <= i < |d| && d[i] == rows[a];
    }
    forall k | k in Keys(d) ensures k in Keys(rows) {
      var i :| 0 <= i < |d| && d[i].key == Some(k);
      assert d[i] in d;
      var a :| 0 <= a < |rows| && rows[a] == d[i];
    }
  }
}
