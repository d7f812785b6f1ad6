/**
 * Cleaning of the profit-and-loss column: thousands separators and
 * dollar signs are deleted from text cells, which are then read as
 * numbers; a cell that does not read as a number becomes missing.
 */
module Pnl {
  import opened Wrappers

  // ---------------------------------------------------------------------
  // Character deletion: .str.replace(',', '').str.replace('$', '')
  // ---------------------------------------------------------------------

  /** s.replace(ch, ''): every occurrence of `ch` deleted. */
  function DeleteChar(s: string, ch: char): (r: string)
    ensures ch !in r
    ensures |r| <= |s|
    ensures forall c :: c in r ==> c in s
  {
    if s == [] then []
    else if s[0] == ch then DeleteChar(s[1..], ch)
    else [s[0]] + DeleteChar(s[1..], ch)
  }

  /** The text of a PnL cell after both replacements, in the order the source applies them. */
  function CleanText(s: string): (r: string)
    ensures ',' !in r && '$' !in r
    ensures |r| <= |s|
    ensures forall c :: c in r ==> c in s
  {
    DeleteChar(DeleteChar(s, ','), '$')
  }

  /** The characters cleaning keeps. */
  predicate IsKept(c: char) { c != ',' && c != '$' }

  lemma {:induction false} DeleteCharAppend(a: string, b: string, ch: char)
    ensures DeleteChar(a + b, ch) == DeleteChar(a, ch) + DeleteChar(b, ch)
  {
    if a != [] {
      assert (a + b)[1..] == a[1..] + b;
      DeleteCharAppend(a[1..], b, ch);
    } else {
      assert a + b == b;
    }
  }

  /** Cleaning works character by character, so it keeps the order of what it keeps. */
  lemma CleanTextAppend(a: string, b: string)
    ensures CleanText(a + b) == CleanText(a) + CleanText(b)
  {
    DeleteCharAppend(a, b, ',');
    DeleteCharAppend(DeleteChar(a, ','), DeleteChar(b, ','), '$');
  }

  /** A single character is kept exactly when it is neither ',' nor '$'. */
  lemma CleanTextChar(c: char)
    ensures CleanText([c]) == if IsKept(c) then [c] else []
  {
    assert [c][1..] == [];
  }

  /** No ',' or '$' is left, and every other character keeps its multiplicity. */
  lemma {:induction false} CleanTextCounts(s: string)
    ensures ',' !in CleanText(s) && '$' !in CleanText(s)
    ensures forall c :: IsKept(c) ==> multiset(CleanText(s))[c] == multiset(s)[c]
  {
    if s != [] {
      assert s == [s[0]] + s[1..];
      CleanTextAppend([s[0]], s[1..]);
      CleanTextChar(s[0]);
      CleanTextCounts(s[1..]);
    } else {
      assert CleanText(s) == [];
    }
    assert ',' !in CleanText(s) by {
      assert ',' !in DeleteChar(s, ',');
      assert forall c :: c in CleanText(s) ==> c in DeleteChar(s, ',');
    }
  }

  /** Text without ',' or '$' is left as it is, so cleaning twice is cleaning once. */
  lemma {:induction false} CleanTextFixed(s: string)
    requires forall i :: 0 <= i < |s| ==> IsKept(s[i])
    ensures CleanText(s) == s
  {
    if s != [] {
      assert s == [s[0]] + s[1..];
      CleanTextAppend([s[0]], s[1..]);
      CleanTextChar(s[0]);
      CleanTextFixed(s[1..]);
    }
  }

  lemma CleanTextIdempotent(s: string)
    ensures CleanText(CleanText(s)) == CleanText(s)
  {
    CleanTextCounts(s);
    CleanTextFixed(CleanText(s));
  }

  // ---------------------------------------------------------------------
  // Reading cleaned text as a number (pd.to_numeric with errors='coerce')
  // ---------------------------------------------------------------------

  predicate IsDigit(c: char) { '0' <= c <= '9' }

  predicate AllDigits(s: string) { forall i :: 0 <= i < |s| ==> IsDigit(s[i]) }

  function DigitValue(c: char): nat
    requires IsDigit(c)
  {
    c as int - '0' as int
  }

  /** The value of a run of decimal digits, most significant first. */
  function DigitsValue(s: string): nat
    requires AllDigits(s)
  {
    if s == [] then 0 else DigitsValue(s[..|s| - 1]) * 10 + DigitValue(s[|s| - 1])
  }

  function Pow10(n: nat): (p: nat)
    ensures p >= 1
  {
    if n == 0 then 1 else 10 * Pow10(n - 1)
  }

  /** The index of the first '.', or |s| when there is none. */
  function DotIndex(s: string): (k: nat)
    ensures k <= |s|
    ensures forall i :: 0 <= i < k ==> s[i] != '.'
    ensures k < |s| ==> s[k] == '.'
  {
    if s == [] then 0 else if s[0] == '.' then 0 else 1 + DotIndex(s[1..])
  }

  /** Digits, optionally one '.' and more digits, with at least one digit in all. */
  function ParseUnsigned(s: string): (r: Option<real>)
    ensures r.Some? ==> r.value >= 0.0
    ensures r.Some? ==> exists i :: 0 <= i < |s| && IsDigit(s[i])
  {
    var k := DotIndex(s);
    var whole := s[..k];
    var frac := if k < |s| then s[k + 1..] else [];
    if AllDigits(whole) && AllDigits(frac) && |whole| + |frac| > 0 then
      assert if |whole| > 0 then IsDigit(s[0]) else IsDigit(s[k + 1]);
      Some(DigitsValue(whole) as real + DigitsValue(frac) as real / Pow10(|frac|) as real)
    else None
  }

  /**
   * The numeric reading of a cleaned cell: an optional sign followed by
   * an unsigned decimal; anything else is missing. Only a leading '-'
   * gives a negative number, and text without a digit never reads as one.
   */
  function ParseNumber(s: string): (r: Option<real>)
    ensures r.Some? ==> exists i :: 0 <= i < |s| && IsDigit(s[i])
    ensures r.Some? && r.value < 0.0 ==> s[0] == '-'
  {
    if s != [] && s[0] == '-' then
      match ParseUnsigned(s[1..])
      case None => None
      case Some(v) => Some(-v)
    else if s != [] && s[0] == '+' then ParseUnsigned(s[1..])
    else ParseUnsigned(s)
  }

  /**
   * One text cell of the PnL column as cleaned: None is the NaN coercion
   * leaves. A cell without a digit is always missing.
   */
  function CleanPnlText(s: string): (r: Option<real>)
    ensures r.Some? ==> exists i :: 0 <= i < |s| && IsDigit(s[i])
  {
    var t := CleanText(s);
    var r := ParseNumber(t);
    assert r.Some? ==> exists i :: 0 <= i < |s| && IsDigit(s[i]) by {
      if r.Some? {
        var k :| 0 <= k < |t| && IsDigit(t[k]);
        assert t[k] in s;
      }
    }
    r
  }

  /**
   * A ',' or '$' anywhere in a cell does not change its reading: "$1,000"
   * and "1000" clean to the same number, or both to missing.
   */
  lemma SeparatorIgnored(a: string, b: string, sep: char)
    requires !IsKept(sep)
    ensures CleanPnlText(a + [sep] + b) == CleanPnlText(a + b)
  {
    CleanTextAppend(a + [sep], b);
    CleanTextAppend(a, [sep]);
    CleanTextChar(sep);
    CleanTextAppend(a, b);
    assert CleanText(a) + [] == CleanText(a);
  }

  /** The PnL column as read: text (pandas dtype object) or already numeric. */
  datatype PnlColumn = TextColumn(cells: seq<string>) | NumericColumn(values: seq<Option<real>>)

  /** The pnl_clean column: text is cleaned and read cell by cell, numbers are taken as they are. */
  function CleanPnlColumn(col: PnlColumn): (r: seq<Option<real>>)
    ensures col.TextColumn? ==>
              |r| == |col.cells| && forall i :: 0 <= i < |r| ==> r[i] == ParseNumber(CleanText(col.cells[i]))
    ensures col.NumericColumn? ==> r == col.values
  {
    match col
    case TextColumn(cells) => seq(|cells|, i requires 0 <= i < |cells| => CleanPnlText(cells[i]))
    case NumericColumn(values) => values
  }

  // ---------------------------------------------------------------------
  // Round trip with decimal text
  // ---------------------------------------------------------------------

  /** The decimal digits of a natural number, without leading zeros ("0" for zero). */
  function NatText(n: nat): (s: string)
    ensures AllDigits(s) && s != []
    decreases n
  {
    if n < 10 then [('0' as int + n) as char]
    else NatText(n / 10) + [('0' as int + n % 10) as char]
  }

  /** An integer written in decimal, with a leading '-' when negative. */
  function IntText(n: int): string {
    if n < 0 then "-" + NatText(-n) else NatText(n)
  }

  lemma {:induction false} NatTextValue(n: nat)
    ensures DigitsValue(NatText(n)) == n
    decreases n
  {
    var s := NatText(n);
    if n >= 10 {
      NatTextValue(n / 10);
      assert s[..|s| - 1] == NatText(n / 10);
    }
  }

  lemma AllDigitsHasNoDot(s: string)
    requires AllDigits(s)
    ensures DotIndex(s) == |s|
  {
    if DotIndex(s) < |s| {
      assert s[DotIndex(s)] == '.';
    }
  }

  /** Reading back the decimal text of an integer gives that integer. */
  lemma ParseIntText(n: int)
    ensures ParseNumber(IntText(n)) == Some(n as real)
  {
    var m: nat := if n < 0 then -n else n;
    var t := NatText(m);
    NatTextValue(m);
    AllDigitsHasNoDot(t);
    assert t[..|t|] == t;
    assert ParseUnsigned(t) == Some(m as real);
    if n < 0 {
      assert IntText(n)[1..] == t;
    } else {
      assert IntText(n) == t;
    }
  }

  lemma CleanCurrencyText()
    ensures CleanText("$1,234.50") == "1234.50"
  {
    var rest := "234.50";
    assert "$1,234.50" == ['$'] + (['1'] + ([','] + rest));
    assert ['1'] + rest == "1234.50";
    assert forall i :: 0 <= i < |rest| ==> IsKept(rest[i]);
    CleanTextFixed(rest);
    var tail := [','] + rest;
    CleanTextAppend([','], rest);
    CleanTextChar(',');
    assert CleanText(tail) == rest;
    var mid := ['1'] + tail;
    CleanTextAppend(['1'], tail);
    CleanTextChar('1');
    assert CleanText(mid) == ['1'] + rest;
    CleanTextAppend(['$'], mid);
    CleanTextChar('$');

  }

  lemma ParseDecimalExample()
    ensures ParseNumber("1234.50") == Some(1234.5)
  {
    var t := "1234.50";
    assert DotIndex(".50") == 0;
    assert DotIndex("4.50") == 1;
    assert DotIndex("34.50") == 2;
    assert DotIndex("234.50") == 3;
    assert DotIndex(t) == 4;
    assert t[..4] == "1234" && t[5..] == "50";
    assert "1234"[..3] == "123" && "123"[..2] == "12" && "12"[..1] == "1" && "1"[..0] == "";
    assert DigitsValue("1") == 1;
    assert DigitsValue("12") == 12;
    assert DigitsValue("123") == 123;
    assert DigitsValue("1234") == 1234;
    assert "50"[..1] == "5";
    assert DigitsValue("5") == 5;
    assert DigitsValue("50") == 50;
    assert Pow10(2) == 100;
  }

  /** The cell "$1,234.50" reads as 1234.5. */
  lemma CurrencyExample()
    ensures CleanPnlText("$1,234.50") == Some(1234.5)
  {
    CleanCurrencyText();
    ParseDecimalExample();
  }

  /** Text that is not a number, such as "N/A", becomes missing. */
  lemma NotANumberExample()
    ensures CleanPnlText("N/A") == None
  {
    assert CleanText("N/A") == "N/A";
    assert !IsDigit('N');
  }
}
