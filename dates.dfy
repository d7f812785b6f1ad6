/**
 * Date keys: epoch milliseconds cut to the calendar day, rows whose key
 * could not be parsed dropped, and the date-range overlap test printed
 * after loading.
 */
module Dates {
  import opened Wrappers

  /** Milliseconds in one day: pandas' normalize() cuts time of day to midnight. */
  const MsPerDay: int := 86_400_000

  /**
   * The day (counted from the epoch) that an epoch-millisecond instant
   * falls in: floor division, so instants before 1970 go to the earlier
   * midnight, as normalize() does.
   */
  function DayKey(ms: int): (d: int)
    ensures d * MsPerDay <= ms < (d + 1) * MsPerDay
  {
    ms / MsPerDay
  }

  /** normalize(): the instant of midnight starting the day of `ms`. */
  function Midnight(ms: int): (m: int)
    ensures m <= ms < m + MsPerDay
    ensures m % MsPerDay == 0
  {
    DayKey(ms) * MsPerDay
  }

  /** The day key is the only day whose span holds the instant. */
  lemma DayKeyUnique(ms: int, d: int)
    requires d * MsPerDay <= ms < (d + 1) * MsPerDay
    ensures d == DayKey(ms)
  {
  }

  /** Two instants get the same join key exactly when they share a midnight. */
  lemma SameDayIffSameMidnight(a: int, b: int)
    ensures DayKey(a) == DayKey(b) <==> Midnight(a) == Midnight(b)
  {
  }

  /** Normalising an already normalised instant changes nothing. */
  lemma MidnightIdempotent(ms: int)
    ensures Midnight(Midnight(ms)) == Midnight(ms)
  {
    var d := DayKey(ms);
    assert d * MsPerDay <= d * MsPerDay < (d + 1) * MsPerDay;
    DayKeyUnique(d * MsPerDay, d);
  }

  /** Later instants never get an earlier day. */
  lemma DayKeyMonotone(a: int, b: int)
    requires a <= b
    ensures DayKey(a) <= DayKey(b)
  {
  }

  /**
   * The date key column, from a timestamp that is NaT when unparsable:
   * NaT stays NaT, and an instant gets the day that holds it.
   */
  function KeyOf(instant: Option<int>): (k: Option<int>)
    ensures k.Some? <==> instant.Some?
    ensures k.Some? ==> k.value * MsPerDay <= instant.value < (k.value + 1) * MsPerDay
  {
    match instant
    case None => None
    case Some(ms) => Some(DayKey(ms))
  }

  // ---------------------------------------------------------------------
  // Keyed rows and dropna(subset=['date_key'])
  // ---------------------------------------------------------------------

  /** A table row with its date key (None for NaT) and the rest of its cells. */
  datatype Row<T> = Row(key: Option<int>, cells: T)

  /** dropna(subset=['date_key']): the rows with a key, in their order. */
  function DropMissingKey<T>(rows: seq<Row<T>>): (r: seq<Row<T>>)
    ensures forall x :: x in r ==> x in rows && x.key.Some?
    ensures forall x | x in rows :: multiset(r)[x] == if x.key.Some? then multiset(rows)[x] else 0
  {
    if rows == [] then []
    else
      var rest := DropMissingKey(rows[1..]);
      assert rows == [rows[0]] + rows[1..];
      if rows[0].key.Some? then [rows[0]] + rest else rest
  }

  /** The drop keeps the order of rows: it works row by row. */
  lemma {:induction false} DropMissingKeyAppend<T>(a: seq<Row<T>>, b: seq<Row<T>>)
    ensures DropMissingKey(a + b) == DropMissingKey(a) + DropMissingKey(b)
  {
    if a == [] {
      assert a + b == b;
    } else {
      assert (a + b)[1..] == a[1..] + b;
      DropMissingKeyAppend(a[1..], b);
    }
  }

  /** A table with no missing key is left as it is. */
  lemma {:induction false} DropMissingKeyNoop<T>(rows: seq<Row<T>>)
    requires forall i :: 0 <= i < |rows| ==> rows[i].key.Some?
    ensures DropMissingKey(rows) == rows
  {
    if rows != [] {
      DropMissingKeyNoop(rows[1..]);
    }
  }

  // ---------------------------------------------------------------------
  // Date ranges and the overlap warning
  // ---------------------------------------------------------------------

  /** The set of date keys a table holds. */
  function Keys<T>(rows: seq<Row<T>>): set<int> {
    set i | 0 <= i < |rows| && rows[i].key.Some? :: rows[i].key.value
  }

  /** An inclusive range of day keys, the min() and max() of a key column. */
  datatype Span = Span(lo: int, hi: int)

  /**
   * min() and max() of the key column; NaT (None) when the table has no
   * key at all.
   */
  function KeyRange<T>(rows: seq<Row<T>>): (r: Option<Span>)
    ensures r.None? <==> Keys(rows) == {}
    ensures r.Some? ==> r.value.lo in Keys(rows) && r.value.hi in Keys(rows)
    ensures r.Some? ==> forall k :: k in Keys(rows) ==> r.value.lo <= k <= r.value.hi
  {
    if rows == [] then None
    else
      var rest := KeyRange(rows[1..]);
      assert Keys(rows) == Keys(rows[..1]) + Keys(rows[1..]) by {
        forall k | k in Keys(rows) ensures k in Keys(rows[..1]) + Keys(rows[1..]) {
          var i :| 0 <= i < |rows| && rows[i].key.Some? && rows[i].key.value == k;
          if i > 0 { assert rows[1..][i - 1] == rows[i]; } else { assert rows[..1][0] == rows[i]; }
        }
        forall k | k in Keys(rows[1..]) ensures k in Keys(rows) {
          var i :| 0 <= i < |rows[1..]| && rows[1..][i].key.Some? && rows[1..][i].key.value == k;
          assert rows[i + 1] == rows[1..][i];
        }
      }
      match rows[0].key
      case None =>
        assert Keys(rows[..1]) == {};
        rest
      case Some(k) =>
        assert Keys(rows[..1]) == {k};
        match rest
        case None => Some(Span(k, k))
        case Some(sp) => Some(Span(if k < sp.lo then k else sp.lo, if k > sp.hi then k else sp.hi))
  }

  /**
   * `t_max < s_min or t_min > s_max`. A NaT bound compares false, so an
   * empty table never raises the warning.
   */
  function NoOverlapWarning(t: Option<Span>, s: Option<Span>): (w: bool)
    ensures w ==> t.Some? && s.Some?
  {
    t.Some? && s.Some? && (t.value.hi < s.value.lo || t.value.lo > s.value.hi)
  }

  predicate InSpan(d: int, sp: Span) { sp.lo <= d <= sp.hi }

  /**
   * For two non-empty ranges the warning fires exactly when no day lies
   * in both.
   */
  lemma NoOverlapWarningIff(t: Span, s: Span)
    requires t.lo <= t.hi && s.lo <= s.hi
    ensures NoOverlapWarning(Some(t), Some(s)) <==> !exists d :: InSpan(d, t) && InSpan(d, s)
  {
    if !NoOverlapWarning(Some(t), Some(s)) {
      var d := if t.lo < s.lo then s.lo else t.lo;
      assert InSpan(d, t) && InSpan(d, s);
    }
  }

  /** When the warning fires the two tables share no date key. */
  lemma NoOverlapWarningMeansDisjoint<T, S>(ts: seq<Row<T>>, ss: seq<Row<S>>)
    requires NoOverlapWarning(KeyRange(ts), KeyRange(ss))
    ensures Keys(ts) * Keys(ss) == {}
  {
    var t, s := KeyRange(ts).value, KeyRange(ss).value;
    forall k | k in Keys(ts) ensures k !in Keys(ss) {
      assert InSpan(k, t);
    }
  }
}
