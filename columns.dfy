/**
 * Column names: the normalisation applied right after loading, and the
 * first-match searches that pick the time, PnL, leverage and sentiment
 * value columns by name.
 */
module Columns {
  import opened Wrappers

  // ---------------------------------------------------------------------
  // Normalisation: c.lower().strip()
  // ---------------------------------------------------------------------

  predicate IsUpper(c: char) { 'A' <= c <= 'Z' }

  /**
   * The ASCII characters Python's str.strip() removes: those for which
   * str.isspace() holds, the space, tab, line feed, vertical tab, form
   * feed, carriage return and the four separators 0x1C-0x1F.
   */
  predicate IsSpace(c: char) {
    c == ' ' || c == '\t' || c == '\n' || c == '\r' || c as int == 0x0B || c as int == 0x0C
    || 0x1C <= c as int <= 0x1F
  }

  function LowerChar(c: char): (r: char)
    ensures !IsUpper(r)
    ensures IsUpper(c) ==> 'a' <= r <= 'z' && r as int - 'a' as int == c as int - 'A' as int
    ensures !IsUpper(c) ==> r == c
    ensures IsSpace(r) <==> IsSpace(c)
  {
    if IsUpper(c) then (c as int + 32) as char else c
  }

  /** str.lower() on ASCII letters. */
  function Lower(s: string): (r: string)
    ensures |r| == |s|
    ensures forall i :: 0 <= i < |s| ==> r[i] == LowerChar(s[i])
  {
    if s == [] then [] else [LowerChar(s[0])] + Lower(s[1..])
  }

  function TrimLeft(s: string): (r: string)
    ensures |r| <= |s| && r == s[|s| - |r|..]
    ensures forall i :: 0 <= i < |s| - |r| ==> IsSpace(s[i])
    ensures r != [] ==> !IsSpace(r[0])
  {
    if s != [] && IsSpace(s[0]) then TrimLeft(s[1..]) else s
  }

  function TrimRight(s: string): (r: string)
    ensures |r| <= |s| && r == s[..|r|]
    ensures forall i :: |r| <= i < |s| ==> IsSpace(s[i])
    ensures r != [] ==> !IsSpace(r[|r| - 1])
  {
    if s != [] && IsSpace(s[|s| - 1]) then TrimRight(s[..|s| - 1]) else s
  }

  /** str.strip(): leading and trailing whitespace removed. */
  function Strip(s: string): (r: string)
    ensures |r| <= |s|
    ensures exists i :: OccursAt(s, r, i)
    ensures r != [] ==> !IsSpace(r[0]) && !IsSpace(r[|r| - 1])
  {
    var t := TrimLeft(s);
    var r := TrimRight(t);
    assert r != [] ==> r[0] == t[0];
    assert OccursAt(s, r, |s| - |t|);
    r
  }

  /** One column name as normalised on load: lower-cased, then stripped. */
  function NormalizeName(c: string): (r: string)
    ensures |r| <= |c|
    ensures r != [] ==> !IsSpace(r[0]) && !IsSpace(r[|r| - 1])
  {
    Strip(Lower(c))
  }

  /** The list comprehension that renames every column, in order. */
  function NormalizeColumns(cols: seq<string>): (r: seq<string>)
    ensures |r| == |cols|
    ensures forall i :: 0 <= i < |r| ==> r[i] == NormalizeName(cols[i])
  {
    seq(|cols|, i requires 0 <= i < |cols| => NormalizeName(cols[i]))
  }

  /**
   * `r` is `s` with its leading and trailing whitespace cut, `r` starting
   * at index `i` of `s`: the reference meaning of str.strip().
   */
  predicate IsStripOf(s: string, r: string, i: int) {
    && OccursAt(s, r, i)
    && (forall k :: 0 <= k < i ==> IsSpace(s[k]))
    && (forall k :: i + |r| <= k < |s| ==> IsSpace(s[k]))
    && (r != [] ==> !IsSpace(r[0]) && !IsSpace(r[|r| - 1]))
  }

  /** Strip meets the reference meaning. */
  lemma StripSpec(s: string)
    ensures exists i :: IsStripOf(s, Strip(s), i)
  {
    var t := TrimLeft(s);
    var r := TrimRight(t);
    var i := |s| - |t|;
    assert r == s[i..i + |r|];
    assert r != [] ==> r[0] == t[0];
    forall k | i + |r| <= k < |s| ensures IsSpace(s[k]) {
      assert t[k - i] == s[k];
    }
    assert OccursAt(s, r, i);
    assert forall k :: 0 <= k < i ==> IsSpace(s[k]);
    assert r != [] ==> !IsSpace(r[0]) && !IsSpace(r[|r| - 1]);
    assert IsStripOf(s, r, i);
    assert r == Strip(s);
  }

  /** The reference meaning determines the result: Strip is the only such slice. */
  lemma StripUnique(s: string, r: string, i: int)
    requires IsStripOf(s, r, i)
    ensures r == Strip(s)
  {
    StripSpec(s);
    var t := Strip(s);
    var j :| IsStripOf(s, t, j);
    if r != [] && t != [] {
      assert s[i] == r[0] && s[j] == t[0];
      assert i == j by {
        if i < j { assert false; } else if j < i { assert false; }
      }
      var e, f := i + |r| - 1, j + |t| - 1;
      assert s[e] == r[|r| - 1] && s[f] == t[|t| - 1];
      assert e == f by {
        if e < f { assert false; } else if f < e { assert false; }
      }
      assert r == s[i..i + |r|] == t;
    }
  }

  /**
   * A normalised name is the lower-cased name with only whitespace cut
   * from both ends, and holds no upper-case letter.
   */
  lemma NormalizeNameSpec(c: string)
    ensures exists i :: IsStripOf(Lower(c), NormalizeName(c), i)
    ensures forall k :: 0 <= k < |NormalizeName(c)| ==> !IsUpper(NormalizeName(c)[k])
  {
    var l := Lower(c);
    var r := Strip(l);
    StripSpec(l);
    var i :| IsStripOf(l, r, i);
    assert r == NormalizeName(c);
    forall k | 0 <= k < |r| ensures !IsUpper(r[k]) {
      assert r[k] == l[i + k];
    }
    assert IsStripOf(Lower(c), NormalizeName(c), i);
  }

  /** Normalising a name twice gives the same name as normalising it once. */
  lemma NormalizeNameIdempotent(c: string)
    ensures NormalizeName(NormalizeName(c)) == NormalizeName(c)
  {
    var r := NormalizeName(c);
    NormalizeNameSpec(c);
    var i :| IsStripOf(Lower(c), r, i);
    assert Lower(r) == r by {
      forall k | 0 <= k < |r| ensures Lower(r)[k] == r[k] {}
    }
    assert IsStripOf(r, r, 0);
    StripUnique(r, r, 0);
  }

  // ---------------------------------------------------------------------
  // Substring tests and the first-match column search
  // ---------------------------------------------------------------------

  /** `sub` occurs in `s` starting at index `i`. */
  predicate OccursAt(s: string, sub: string, i: int) {
    0 <= i && i + |sub| <= |s| && s[i..i + |sub|] == sub
  }

  /** Python's `sub in s` for strings. */
  predicate Contains(s: string, sub: string) {
    exists i | 0 <= i <= |s| - |sub| :: OccursAt(s, sub, i)
  }

  /** The three columns whose role is found by name. */
  datatype Role = PnlRole | LeverageRole | ValueRole

  /**
   * The generator's filter for each role. A name that passes it is never
   * empty, since every filter asks for a non-empty substring.
   */
  function Matches(role: Role, c: string): (b: bool)
    ensures b ==> |c| > 0
  {
    match role
    case PnlRole => Contains(c, "closed pnl") || Contains(c, "closed_pnl") || Contains(c, "pnl")
    case LeverageRole => Contains(c, "leverage")
    case ValueRole => Contains(c, "value") && !Contains(c, "size")
  }

  /** next((c for c in cols if Matches(role, c)), None). */
  function FindColumn(cols: seq<string>, role: Role): (r: Option<string>)
    ensures r.None? <==> forall i :: 0 <= i < |cols| ==> !Matches(role, cols[i])
    ensures r.Some? ==> exists i :: 0 <= i < |cols| && cols[i] == r.value
                          && Matches(role, cols[i])
                          && forall j :: 0 <= j < i ==> !Matches(role, cols[j])
  {
    if cols == [] then None
    else if Matches(role, cols[0]) then Some(cols[0])
    else
      var r := FindColumn(cols[1..], role);
      assert forall i :: 1 <= i < |cols| ==> cols[i] == cols[1..][i - 1];
      if r.Some? then
        assert exists i :: 0 <= i < |cols[1..]| && cols[1..][i] == r.value
                 && Matches(role, cols[1..][i])
                 && forall j :: 0 <= j < i ==> !Matches(role, cols[1..][j]);
        var i :| 0 <= i < |cols[1..]| && cols[1..][i] == r.value
                 && Matches(role, cols[1..][i])
                 && forall j :: 0 <= j < i ==> !Matches(role, cols[1..][j]);
        assert forall j :: 1 <= j < i + 1 ==> !Matches(role, cols[j]) by {
          forall j | 1 <= j < i + 1 ensures !Matches(role, cols[j]) {
            assert cols[j] == cols[1..][j - 1];
          }
        }
        r
      else r
  }

  lemma ContainsShift(s: string, sub: string, pre: string, post: string)
    requires Contains(s, pre + sub + post)
    ensures Contains(s, sub)
  {
    var w := pre + sub + post;
    var i :| 0 <= i <= |s| - |w| && OccursAt(s, w, i);
    var k := i + |pre|;
    assert s[i..i + |w|] == w;
    forall j | 0 <= j < |sub| ensures s[k + j] == sub[j] {
      assert s[k + j] == s[i..i + |w|][|pre| + j];
      assert w[|pre| + j] == sub[j];
    }
    assert s[k..k + |sub|] == sub;
    assert OccursAt(s, sub, k);
  }

  /**
   * The PnL filter's first two alternatives are implied by the third, so
   * a column is taken as PnL exactly when its name contains "pnl".
   */
  lemma PnlMatchesIffContainsPnl(c: string)
    ensures Matches(PnlRole, c) <==> Contains(c, "pnl")
  {
    if Contains(c, "closed pnl") {
      assert "closed pnl" == "closed " + "pnl" + "";
      ContainsShift(c, "pnl", "closed ", "");
    }
    if Contains(c, "closed_pnl") {
      assert "closed_pnl" == "closed_" + "pnl" + "";
      ContainsShift(c, "pnl", "closed_", "");
    }
  }

  lemma ContainsLength(s: string, sub: string)
    requires Contains(s, sub)
    ensures |sub| <= |s|
  {
  }

  /**
   * The value column never has "size" in its name, and every column a
   * search returns is a non-empty name, so `if pnl_col:` and friends
   * take their branch exactly when a column was found.
   */
  lemma FoundColumnIsTruthy(cols: seq<string>, role: Role)
    ensures var r := FindColumn(cols, role);
      r.Some? ==> |r.value| > 0 && (role == ValueRole ==> !Contains(r.value, "size"))
  {
    var r := FindColumn(cols, role);
    if r.Some? {
      assert Matches(role, r.value);
      match role
      case PnlRole => PnlMatchesIffContainsPnl(r.value); ContainsLength(r.value, "pnl");
      case LeverageRole => ContainsLength(r.value, "leverage");
      case ValueRole => ContainsLength(r.value, "value");
    }
  }

  // ---------------------------------------------------------------------
  // Choice of the date/time column of each table
  // ---------------------------------------------------------------------

  /** Where a table's date key is read from. */
  datatype TimeSource =
    | EpochMillis    // numeric 'timestamp', milliseconds since the epoch
    | DateText(column: string)  // a text column parsed day-first

  datatype LoadError = NoTraderTimeColumn | NoSentimentDateColumn

  /**
   * Trader table: a numeric 'timestamp' column wins, then the text column
   * 'timestamp ist'; otherwise loading fails.
   */
  function TraderTimeSource(cols: seq<string>, timestampIsNumeric: bool): (r: Result<TimeSource, LoadError>)
    ensures r.Err? <==> !(("timestamp" in cols && timestampIsNumeric) || "timestamp ist" in cols)
    ensures r == Ok(EpochMillis) <==> "timestamp" in cols && timestampIsNumeric
    ensures r.Ok? && r.value.DateText? ==> r.value.column == "timestamp ist" && "timestamp ist" in cols
    ensures r.Err? ==> r.error == NoTraderTimeColumn
  {
    if "timestamp" in cols && timestampIsNumeric then Ok(EpochMillis)
    else if "timestamp ist" in cols then Ok(DateText("timestamp ist"))
    else Err(NoTraderTimeColumn)
  }

  /**
   * Sentiment table: a 'date' column wins, then 'timestamp' (also parsed
   * as text); otherwise loading fails.
   */
  function SentimentDateSource(cols: seq<string>): (r: Result<TimeSource, LoadError>)
    ensures r.Ok? ==> r.value.DateText? && r.value.column in cols
    ensures r.Ok? ==> r.value.column == (if "date" in cols then "date" else "timestamp")
    ensures r.Err? <==> "date" !in cols && "timestamp" !in cols
    ensures r.Err? ==> r.error == NoSentimentDateColumn
  {
    if "date" in cols then Ok(DateText("date"))
    else if "timestamp" in cols then Ok(DateText("timestamp"))
    else Err(NoSentimentDateColumn)
  }
}
