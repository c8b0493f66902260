/** The hourly ledger of the tiered variant: a `|`-separated text file, one header
    line, then one line per hour in which the integration updated. Lines are modelled
    without their line terminators. */
module Ledger {
  import opened Text
  import opened Numbers
  import opened Clock

  /** The column names of the ledger, in order. */
  const CsvColumns: seq<string> := ["date", "hour", "min_sec", "total_buy", "buy_day", "buy_month",
    "buy_year", "total_sell", "sell_day", "sell_month", "sell_year"]

  /** The header line: the column names joined by `|`. */
  const CsvHeader: string := Join(CsvColumns, '|')

  /** The eight published amounts a ledger line records, in column order. */
  datatype Amounts = Amounts(
    totalBuy: real, buyDay: real, buyMonth: real, buyYear: real,
    totalSell: real, sellDay: real, sellMonth: real, sellYear: real)

  function Fields(t: DateTime, a: Amounts): seq<string> {
    [DateKey(t), HourText(t), MinSecText(t),
     Fixed(a.totalBuy, 3), Fixed(a.buyDay, 3), Fixed(a.buyMonth, 3), Fixed(a.buyYear, 3),
     Fixed(a.totalSell, 3), Fixed(a.sellDay, 3), Fixed(a.sellMonth, 3), Fixed(a.sellYear, 3)]
  }

  /** The line written for time `t`: date, hour, minute:second, then the eight amounts
      with three decimals. */
  function RowText(t: DateTime, a: Amounts): string {
    Join(Fields(t, a), '|')
  }

  /** The de-duplication key of a line: its first two `|` fields, or two empty strings
      for a line with fewer. */
  function Key(s: string): (string, string) {
    var p := Split(s, '|');
    if |p| >= 2 then (p[0], p[1]) else ("", "")
  }

  /** A line the backward scan steps over: blank after stripping, or the header. */
  predicate Filler(line: string, header: string) {
    Strip(line) == "" || Strip(line) == header
  }

  /** The index the backward scan stops at when it starts from `i`: the last line at
      or before `i` that is not filler, or -1. */
  function LastDataIndex(lines: seq<string>, i: int, header: string): (r: int)
    requires -1 <= i < |lines|
    ensures -1 <= r <= i
    ensures r >= 0 ==> !Filler(lines[r], header)
    ensures forall j :: r < j <= i ==> Filler(lines[j], header)
    decreases i + 1
  {
    if i < 0 then -1
    else if Filler(lines[i], header) then LastDataIndex(lines, i - 1, header)
    else i
  }

  /** The lines the file starts from: a missing or empty file is given the header. */
  function WithHeader(lines: seq<string>, header: string): seq<string> {
    if lines == [] then [header] else lines
  }

  /** The file after writing `row`: when the last data line (not the first line of the
      file) has the same key as `row`, and that key is not empty, it is replaced by
      `row`; in every other case `row` is appended. */
  function AfterWrite(lines: seq<string>, row: string, header: string): seq<string> {
    var ls := WithHeader(lines, header);
    if |ls| <= 1 then ls + [row]
    else
      var idx := LastDataIndex(ls, |ls| - 1, header);
      if idx < 1 then ls + [row]
      else if Key(Strip(ls[idx])) == Key(row) && Key(row) != ("", "") then ls[idx := row]
      else ls + [row]
  }

  /** `_write_csv_row_sync` on the lines of the file: the header for a missing or empty
      file, then the backward scan for the last data line and the replace-or-append. */
  method WriteRow(lines: seq<string>, row: string, header: string) returns (out: seq<string>)
    ensures out == AfterWrite(lines, row, header)
  {
    var ls := lines;
    if ls == [] {
      ls := [header];
    }
    if |ls| <= 1 {
      return ls + [row];
    }
    var idx := |ls| - 1;
    while idx >= 0 && (Strip(ls[idx]) == "" || Strip(ls[idx]) == header)
      invariant -1 <= idx < |ls|
      invariant LastDataIndex(ls, idx, header) == LastDataIndex(ls, |ls| - 1, header)
    {
      idx := idx - 1;
    }
    if idx < 1 {
      return ls + [row];
    }
    var last := Strip(ls[idx]);
    if Key(last) == Key(row) && Key(row) != ("", "") {
      out := ls[idx := row];
    } else {
      out := ls + [row];
    }
  }

  /** A row the scan can find again: not filler, no surrounding whitespace, and a
      non-empty key. Every row the integration writes is one (`RowTextWritable`). */
  predicate Writable(row: string, header: string) {
    !Filler(row, header) && Strip(row) == row && Key(row) != ("", "")
  }

  /** Writing changes at most one existing line and otherwise appends: the file either
      gains `row` at its end, or keeps its length with the last data line, at an index
      of at least 1 and holding the same key as `row`, replaced by `row`; a missing or
      empty file becomes the header followed by `row`. */
  lemma WriteShape(lines: seq<string>, row: string, header: string)
    ensures lines == [] ==> AfterWrite(lines, row, header) == [header, row]
    ensures lines != [] ==>
      AfterWrite(lines, row, header) == lines + [row]
      || (exists idx :: 1 <= idx < |lines| && AfterWrite(lines, row, header) == lines[idx := row]
            && Key(Strip(lines[idx])) == Key(row)
            && forall j :: idx < j < |lines| ==> Filler(lines[j], header))
    ensures |WithHeader(lines, header)| <= |AfterWrite(lines, row, header)|
                                        <= |WithHeader(lines, header)| + 1
  {
    if lines != [] && |lines| > 1 {
      var idx := LastDataIndex(lines, |lines| - 1, header);
      if idx >= 1 && Key(Strip(lines[idx])) == Key(row) && Key(row) != ("", "") {
        assert AfterWrite(lines, row, header) == lines[idx := row];
      }
    }
  }

  /** Past the header, a line is replaced exactly when the last data line shares the
      row's key. */
  lemma ReplaceWhenSameKey(lines: seq<string>, row: string, header: string)
    requires |lines| > 1 && Key(row) != ("", "")
    requires LastDataIndex(lines, |lines| - 1, header) >= 1
    ensures |AfterWrite(lines, row, header)| == |lines|
            <==> Key(Strip(lines[LastDataIndex(lines, |lines| - 1, header)])) == Key(row)
  {
  }

  /** The scan steps over filler down to the first data line. */
  lemma {:induction false} LastDataIndexSkips(ls: seq<string>, i: int, idx: int, header: string)
    requires 0 <= idx <= i < |ls| && !Filler(ls[idx], header)
    requires forall j :: idx < j <= i ==> Filler(ls[j], header)
    ensures LastDataIndex(ls, i, header) == idx
    decreases i
  {
    if i > idx {
      LastDataIndexSkips(ls, i - 1, idx, header);
    }
  }

  lemma LastDataIndexReplaced(ls: seq<string>, idx: int, row: string, header: string)
    requires 0 <= idx < |ls| && !Filler(row, header)
    requires forall j :: idx < j < |ls| ==> Filler(ls[j], header)
    ensures LastDataIndex(ls[idx := row], |ls| - 1, header) == idx
  {
    var out := ls[idx := row];
    assert forall j :: idx < j < |out| ==> out[j] == ls[j];
    LastDataIndexSkips(out, |out| - 1, idx, header);
  }

  /** After a write the newest data line of the file is `row`, past the first line. */
  lemma WriteEndsWithRow(lines: seq<string>, row: string, header: string)
    requires Writable(row, header)
    ensures var out := AfterWrite(lines, row, header);
            var k := LastDataIndex(out, |out| - 1, header);
            k >= 1 && out[k] == row
  {
    var ls := WithHeader(lines, header);
    var out := AfterWrite(lines, row, header);
    if |ls| > 1 {
      var idx := LastDataIndex(ls, |ls| - 1, header);
      if idx >= 1 && Key(Strip(ls[idx])) == Key(row) {
        assert out == ls[idx := row];
        LastDataIndexReplaced(ls, idx, row, header);
        return;
      }
    }
    assert out == ls + [row];
    LastDataIndexSkips(out, |out| - 1, |out| - 1, header);
  }

  /** Within one hour only the latest row is kept: writing `r1` and then `r2` with the
      same key leaves the file as writing `r2` alone would. */
  lemma SameKeyOverwrites(lines: seq<string>, r1: string, r2: string, header: string)
    requires Writable(r1, header) && Key(r1) == Key(r2)
    ensures AfterWrite(AfterWrite(lines, r1, header), r2, header) == AfterWrite(lines, r2, header)
  {
    var ls := WithHeader(lines, header);
    var w1 := AfterWrite(lines, r1, header);
    WriteEndsWithRow(lines, r1, header);
    var k := LastDataIndex(w1, |w1| - 1, header);
    assert WithHeader(w1, header) == w1;
    assert AfterWrite(w1, r2, header) == w1[k := r2];
    if |ls| > 1 {
      var idx := LastDataIndex(ls, |ls| - 1, header);
      if idx >= 1 && Key(Strip(ls[idx])) == Key(r1) {
        assert w1 == ls[idx := r1];
        LastDataIndexReplaced(ls, idx, r1, header);
        assert w1[k := r2] == ls[idx := r2];
        return;
      }
    }
    assert w1 == ls + [r1];
    assert k == |ls|;
    assert w1[k := r2] == ls + [r2];
  }

  /** Writing the same row twice is writing it once. */
  lemma WriteIdempotent(lines: seq<string>, row: string, header: string)
    requires Writable(row, header)
    ensures AfterWrite(AfterWrite(lines, row, header), row, header) == AfterWrite(lines, row, header)
  {
    SameKeyOverwrites(lines, row, row, header);
  }

  /** A row with a different key is always appended after a written row. */
  lemma OtherKeyAppends(lines: seq<string>, r1: string, r2: string, header: string)
    requires Writable(r1, header) && Key(r1) != Key(r2)
    ensures AfterWrite(AfterWrite(lines, r1, header), r2, header)
            == AfterWrite(lines, r1, header) + [r2]
  {
    var w1 := AfterWrite(lines, r1, header);
    WriteEndsWithRow(lines, r1, header);
    assert WithHeader(w1, header) == w1;
    var k := LastDataIndex(w1, |w1| - 1, header);
    assert Strip(w1[k]) == r1;
  }

  predicate NoSpace(s: string) {
    forall i :: 0 <= i < |s| ==> !IsSpace(s[i])
  }

  lemma {:induction false} JoinNoSpace(parts: seq<string>, sep: char)
    requires |parts| >= 1 && !IsSpace(sep)
    requires forall i :: 0 <= i < |parts| ==> NoSpace(parts[i])
    ensures NoSpace(Join(parts, sep))
    decreases |parts|
  {
    if |parts| > 1 {
      JoinNoSpace(parts[1..], sep);
      var t := Join(parts[1..], sep);
      assert Join(parts, sep) == parts[0] + [sep] + t;
      forall i | 0 <= i < |Join(parts, sep)| ensures !IsSpace(Join(parts, sep)[i]) {
        if i < |parts[0]| {
          assert Join(parts, sep)[i] == parts[0][i];
        } else if i > |parts[0]| {
          assert Join(parts, sep)[i] == t[i - |parts[0]| - 1];
        }
      }
    }
  }

  lemma FixedClean(x: real)
    ensures NoSpace(Fixed(x, 3)) && '|' !in Fixed(x, 3)
  {
    FixedParse(x, 3);
    NumberTextNoSeparator(Fixed(x, 3));
  }

  lemma KeyTextsClean(t: DateTime)
    ensures NoSpace(DateKey(t)) && '|' !in DateKey(t)
    ensures NoSpace(HourText(t)) && '|' !in HourText(t)
    ensures NoSpace(MinSecText(t)) && '|' !in MinSecText(t)
  {
    KeysClean(t);
  }

  lemma FieldsClean(t: DateTime, a: Amounts)
    ensures forall i :: 0 <= i < |Fields(t, a)| ==> NoSpace(Fields(t, a)[i]) && '|' !in Fields(t, a)[i]
  {
    KeyTextsClean(t);
    FixedClean(a.totalBuy);
    FixedClean(a.buyDay);
    FixedClean(a.buyMonth);
    FixedClean(a.buyYear);
    FixedClean(a.totalSell);
    FixedClean(a.sellDay);
    FixedClean(a.sellMonth);
    FixedClean(a.sellYear);
  }

  /** The key of a written row is its date and its hour. */
  lemma RowKey(t: DateTime, a: Amounts)
    ensures Key(RowText(t, a)) == (DateKey(t), HourText(t))
  {
    FieldsClean(t, a);
    SplitJoin(Fields(t, a), '|');
  }

  /** Splitting a written row on `|` gives back its eleven fields. */
  lemma RowFields(t: DateTime, a: Amounts)
    ensures Split(RowText(t, a), '|') == Fields(t, a)
  {
    FieldsClean(t, a);
    SplitJoin(Fields(t, a), '|');
  }

  /** Every row the integration writes can be found again by the backward scan. */
  lemma RowTextWritable(t: DateTime, a: Amounts)
    requires t.Valid()
    ensures Writable(RowText(t, a), CsvHeader)
  {
    var row := RowText(t, a);
    FieldsClean(t, a);
    JoinNoSpace(Fields(t, a), '|');
    StripNoSpace(row);
    RowKey(t, a);
    KeysNest(t);
    JoinHead(Fields(t, a), '|');
    NotHeader(row);
  }

  lemma NotHeader(s: string)
    requires |s| > 0 && IsDigit(s[0])
    ensures s != CsvHeader
  {
    JoinHead(CsvColumns, '|');
    assert CsvColumns[0][0] == 'd';
  }

  /** Two rows share a key exactly when they are written in the same hour of the same
      day, so the ledger keeps one line per hour. */
  lemma SameKeyIffSameHour(t1: DateTime, a1: Amounts, t2: DateTime, a2: Amounts)
    requires t1.Valid() && t2.Valid()
    ensures Key(RowText(t1, a1)) == Key(RowText(t2, a2))
            <==> (t1.year, t1.month, t1.day, t1.hour) == (t2.year, t2.month, t2.day, t2.hour)
  {
    RowKey(t1, a1);
    RowKey(t2, a2);
    HourIdentifiesHour(t1, t2);
  }
}
