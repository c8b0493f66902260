/** `CsvDailyYearWriter` of the plain variant: one file per year, one comma-separated
    line per day, newest day first. `upsert_today` reads the file into a map keyed by
    date, replaces or inserts today's entry, and writes the map back sorted. */
module Writer {
  import opened Wrappers
  import opened Text
  import opened Numbers
  import opened Clock
  import opened Paths

  /** The values of one day (total bought, bought that day and that month, total sold,
      sold that day and that month) and the time it was last written, possibly empty. */
  datatype DayRow = DayRow(values: seq<real>, time: string)

  /** The number of values on a line. */
  const Width: nat := 6

  /** The in-memory `rows` dict. */
  type Rows = map<string, DayRow>

  /** The six values handed to `upsert_today`, each possibly missing. */
  datatype Inputs = Inputs(
    totalBuy: Option<real>, buyDay: Option<real>, buyMonth: Option<real>,
    totalSell: Option<real>, sellDay: Option<real>, sellMonth: Option<real>)
  {
    predicate Complete() {
      totalBuy.Some? && buyDay.Some? && buyMonth.Some?
      && totalSell.Some? && sellDay.Some? && sellMonth.Some?
    }
  }

  /** `[p.strip() for p in line.split(",")]`. */
  function Parts(line: string): (parts: seq<string>)
    ensures |parts| == |Split(line, ',')|
    ensures forall i :: 0 <= i < |parts| ==> parts[i] == Strip(Split(line, ',')[i])
  {
    var ps := Split(line, ',');
    seq(|ps|, i requires 0 <= i < |ps| => Strip(ps[i]))
  }

  /** `float(p)` for every field of `ps`, or nothing as soon as one does not convert. */
  function ParseValues(ps: seq<string>): (r: Option<seq<real>>)
    ensures r.Some? ==> |r.value| == |ps|
    decreases |ps|
  {
    if ps == [] then Some([])
    else
      match ParseFloat(ps[0])
      case None => None
      case Some(x) =>
        match ParseValues(ps[1..])
        case None => None
        case Some(rest) => Some([x] + rest)
  }

  /** The fields are converted exactly when each of them converts on its own. */
  lemma {:induction false} ParseValuesSpec(ps: seq<string>, vs: seq<real>)
    requires |ps| == |vs|
    ensures ParseValues(ps) == Some(vs) <==> forall i :: 0 <= i < |ps| ==> ParseFloat(ps[i]) == Some(vs[i])
    decreases |ps|
  {
    if ps != [] {
      ParseValuesSpec(ps[1..], vs[1..]);
      assert vs == [vs[0]] + vs[1..];
      if forall i :: 0 <= i < |ps| ==> ParseFloat(ps[i]) == Some(vs[i]) {
        assert ParseFloat(ps[0]) == Some(vs[0]);
        assert forall i :: 0 <= i < |ps| - 1 ==> ParseFloat(ps[1..][i]) == Some(vs[1..][i]) by {
          forall i | 0 <= i < |ps| - 1 ensures ParseFloat(ps[1..][i]) == Some(vs[1..][i]) {
            assert ps[1..][i] == ps[i + 1] && vs[1..][i] == vs[i + 1];
          }
        }
      }
      if ParseValues(ps) == Some(vs) {
        forall i | 0 <= i < |ps| ensures ParseFloat(ps[i]) == Some(vs[i]) {
          if i > 0 { assert ps[1..][i - 1] == ps[i]; }
        }
      }
    }
  }

  /** One line of the file as the reader takes it: nothing for a blank line, a line
      with fewer than seven fields or a non-numeric value; otherwise the date and the
      row, with an empty time when the eighth field is missing. */
  function ParseLine(line: string): (r: Option<(string, DayRow)>)
    ensures r.Some? ==> |r.value.1.values| == Width
  {
    var l := Strip(line);
    if l == "" then None else EntryOf(Parts(l))
  }

  /** The entry of a line with fields `parts`. */
  function EntryOf(parts: seq<string>): (r: Option<(string, DayRow)>)
    ensures r.Some? ==> |r.value.1.values| == Width
  {
    if |parts| < Width + 1 then None
    else
      match ParseValues(parts[1..Width + 1])
      case None => None
      case Some(vs) => Some((parts[0], DayRow(vs, if |parts| >= Width + 2 then parts[Width + 1] else "")))
  }

  /** The fields of a non-blank line give an entry exactly when there are at least
      seven and the second to seventh convert; the entry is the first field, those
      six values, and the eighth field or an empty time. */
  lemma EntryOfSpec(ps: seq<string>)
    ensures EntryOf(ps).Some? <==> |ps| >= Width + 1 && forall i :: 1 <= i <= Width ==> ParseFloat(ps[i]).Some?
    ensures EntryOf(ps).Some? ==>
              EntryOf(ps).value.0 == ps[0]
              && (forall i :: 0 <= i < Width ==> ParseFloat(ps[i + 1]) == Some(EntryOf(ps).value.1.values[i]))
              && EntryOf(ps).value.1.time == (if |ps| >= Width + 2 then ps[Width + 1] else "")
  {
    if |ps| >= Width + 1 {
      var fs := ps[1..Width + 1];
      assert forall i :: 0 <= i < Width ==> fs[i] == ps[i + 1];
      if forall i :: 1 <= i <= Width ==> ParseFloat(ps[i]).Some? {
        var vs := seq(Width, i requires 0 <= i < Width => ParseFloat(fs[i]).value);
        ParseValuesSpec(fs, vs);
      }
      if EntryOf(ps).Some? {
        ParseValuesSpec(fs, EntryOf(ps).value.1.values);
      }
    }
  }

  /** What the reader makes of one line. */
  type Entry = Option<(string, DayRow)>

  /** The entry of every line. */
  function Entries(lines: seq<string>): (es: seq<Entry>)
    ensures |es| == |lines|
    decreases |lines|
  {
    if lines == [] then [] else Entries(lines[..|lines| - 1]) + [ParseLine(lines[|lines| - 1])]
  }

  lemma {:induction false} EntriesIndex(lines: seq<string>, i: int)
    requires 0 <= i < |lines|
    ensures Entries(lines)[i] == ParseLine(lines[i])
    decreases |lines|
  {
    if i < |lines| - 1 {
      EntriesIndex(lines[..|lines| - 1], i);
    }
  }

  /** The map built from entries in order, a later entry for a date replacing an
      earlier one. */
  function Collect(es: seq<Entry>): Rows
    decreases |es|
  {
    if es == [] then map[]
    else
      var rows := Collect(es[..|es| - 1]);
      match es[|es| - 1]
      case None => rows
      case Some(entry) => rows[entry.0 := entry.1]
  }

  /** The map the reader builds from `lines`. */
  function ParsedRows(lines: seq<string>): Rows {
    Collect(Entries(lines))
  }

  /** Reading one more line: an entry sets its date to its row, replacing a row read
      earlier for that date, and leaves every other date; a skipped line changes
      nothing. */
  lemma ReadLineStep(lines: seq<string>, line: string)
    ensures ParseLine(line).None? ==> ParsedRows(lines + [line]) == ParsedRows(lines)
    ensures ParseLine(line).Some? ==>
              ParsedRows(lines + [line]) == ParsedRows(lines)[ParseLine(line).value.0 := ParseLine(line).value.1]
  {
    var ls := lines + [line];
    assert ls[..|ls| - 1] == lines;
    var es := Entries(ls);
    assert es[..|es| - 1] == Entries(lines);
  }

  /** The `_read` loop. */
  method ReadRows(lines: seq<string>) returns (rows: Rows)
    ensures rows == ParsedRows(lines)
  {
    rows := map[];
    var i := 0;
    while i < |lines|
      invariant 0 <= i <= |lines|
      invariant rows == ParsedRows(lines[..i])
    {
      assert lines[..i + 1][..i] == lines[..i];
      var entry := ParseLine(lines[i]);
      if entry.Some? {
        rows := rows[entry.value.0 := entry.value.1];
      }
      i := i + 1;
    }
    assert lines[..i] == lines;
  }

  /** `sorted(rows.items(), key=date, reverse=True)`, by inserting the dates one at a
      time into a descending sequence. */
  method SortKeys(rows: Rows) returns (ordered: seq<string>)
    ensures ordered == SortedDesc(rows.Keys)
  {
    ordered := [];
    var rest := rows.Keys;
    while rest != {}
      invariant rest <= rows.Keys
      invariant Descending(ordered)
      invariant forall k :: k in ordered <==> k in rows.Keys && k !in rest
      invariant |ordered| + |rest| == |rows.Keys|
      decreases |rest|
    {
      var k :| k in rest;
      ordered := InsertDesc(ordered, k);
      rest := rest - {k};
    }
    SortedDescDescending(rows.Keys);
    DescendingUnique(ordered, SortedDesc(rows.Keys));
  }

  /** `tm_out`: a stored time is kept; a missing one is today's time on today's line
      and stays empty on every other line. */
  function TimeOut(d: string, row: DayRow, dateStr: string, timeStr: string): string {
    if row.time != "" then row.time else if d == dateStr then timeStr else ""
  }

  /** `str(x)` for each value. */
  function Printed(vs: seq<real>): (ps: seq<string>)
    ensures |ps| == |vs|
  {
    seq(|vs|, i requires 0 <= i < |vs| => Repr(vs[i]))
  }

  function LineFields(d: string, row: DayRow, tm: string): seq<string> {
    [d] + Printed(row.values) + [tm]
  }

  /** `f"{d},{t_b},{b_d},{b_m},{t_s},{s_d},{s_m},{tm_out}"`. */
  function RenderLine(d: string, row: DayRow, dateStr: string, timeStr: string): string {
    Join(LineFields(d, row, TimeOut(d, row, dateStr, timeStr)), ',')
  }

  /** The lines written for the dates of `ordered`, in that order. */
  function Rendered(ordered: seq<string>, rows: Rows, dateStr: string, timeStr: string): (out: seq<string>)
    requires forall k :: k in ordered ==> k in rows
    ensures |out| == |ordered|
  {
    seq(|ordered|, i requires 0 <= i < |ordered| => RenderLine(ordered[i], rows[ordered[i]], dateStr, timeStr))
  }

  /** The `_write` loop. */
  method WriteLines(ordered: seq<string>, rows: Rows, dateStr: string, timeStr: string)
    returns (out: seq<string>)
    requires forall k :: k in ordered ==> k in rows
    ensures out == Rendered(ordered, rows, dateStr, timeStr)
  {
    out := [];
    var i := 0;
    while i < |ordered|
      invariant 0 <= i <= |ordered|
      invariant out == Rendered(ordered[..i], rows, dateStr, timeStr)
    {
      out := out + [RenderLine(ordered[i], rows[ordered[i]], dateStr, timeStr)];
      i := i + 1;
    }
    assert ordered[..i] == ordered;
  }

  /** A field as the reader returns it: no comma, no surrounding whitespace. */
  predicate Cell(s: string) {
    ',' !in s && Strip(s) == s
  }

  /** What the reader produces: dates and times are fields, and every row has its six
      values. */
  predicate CleanRows(rows: Rows) {
    forall d :: d in rows ==> Cell(d) && Cell(rows[d].time) && |rows[d].values| == Width
  }

  lemma PartsAreCells(line: string)
    ensures forall i :: 0 <= i < |Parts(line)| ==> Cell(Parts(line)[i])
  {
    forall i | 0 <= i < |Parts(line)| ensures Cell(Parts(line)[i]) {
      var p := Split(line, ',');
      StripKeeps(p[i], ',');
      StripIdempotent(p[i]);
    }
  }

  /** An entry as the reader produces it: date and time are fields, six values. */
  predicate CleanEntry(e: Entry) {
    e.Some? ==> Cell(e.value.0) && Cell(e.value.1.time) && |e.value.1.values| == Width
  }

  lemma {:induction false} CollectClean(es: seq<Entry>)
    requires forall i :: 0 <= i < |es| ==> CleanEntry(es[i])
    ensures CleanRows(Collect(es))
    decreases |es|
  {
    if es != [] {
      var n := |es| - 1;
      assert forall i :: 0 <= i < n ==> es[..n][i] == es[i];
      CollectClean(es[..n]);
      assert CleanEntry(es[n]);
    }
  }

  lemma ParsedRowsClean(lines: seq<string>)
    ensures CleanRows(ParsedRows(lines))
  {
    var es := Entries(lines);
    forall i | 0 <= i < |es| ensures CleanEntry(es[i]) {
      EntriesIndex(lines, i);
      PartsAreCells(Strip(lines[i]));
    }
    CollectClean(es);
  }

  /** Values as they read back after being printed. */
  function OnPrintGrid(vs: seq<real>): (r: seq<real>)
    ensures |r| == |vs|
  {
    seq(|vs|, i requires 0 <= i < |vs| => Round(vs[i], ReprPlaces))
  }

  function Quantised(row: DayRow): DayRow {
    row.(values := OnPrintGrid(row.values))
  }

  /** What the reader gets back for the line of `d`. */
  function StoredRow(d: string, row: DayRow, dateStr: string, timeStr: string): DayRow {
    DayRow(OnPrintGrid(row.values), TimeOut(d, row, dateStr, timeStr))
  }

  /** Printed values are fields, and read back on the printing grid. */
  lemma PrintedCells(vs: seq<real>)
    ensures forall i :: 0 <= i < |vs| ==> Cell(Printed(vs)[i])
    ensures ParseValues(Printed(vs)) == Some(OnPrintGrid(vs))
  {
    forall i | 0 <= i < |vs|
      ensures Cell(Printed(vs)[i]) && ParseFloat(Printed(vs)[i]) == Some(OnPrintGrid(vs)[i])
    {
      ReprParse(vs[i]);
      NumberTextStrip(Repr(vs[i]));
      NumberTextNoSeparator(Repr(vs[i]));
    }
    ParseValuesSpec(Printed(vs), OnPrintGrid(vs));
  }

  /** Fields joined by commas split back into those fields. */
  lemma ParseJoined(fs: seq<string>)
    requires |fs| >= 2 && forall i :: 0 <= i < |fs| ==> Cell(fs[i])
    ensures Strip(Join(fs, ',')) == Join(fs, ',') && Join(fs, ',') != ""
    ensures Parts(Join(fs, ',')) == fs
  {
    JoinStripped(fs, ',');
    SplitJoin(fs, ',');
    assert Parts(Join(fs, ',')) == fs;
  }

  /** A written line reads back as its date and its row, values on the printing grid
      and the time it was written with. */
  lemma ParseRenderLine(d: string, row: DayRow, dateStr: string, timeStr: string)
    requires Cell(d) && Cell(row.time) && Cell(timeStr) && |row.values| == Width
    ensures ParseLine(RenderLine(d, row, dateStr, timeStr)) == Some((d, StoredRow(d, row, dateStr, timeStr)))
  {
    var tm := TimeOut(d, row, dateStr, timeStr);
    var ps := Printed(row.values);
    var fs := LineFields(d, row, tm);
    PrintedCells(row.values);
    assert fs[1..Width + 1] == ps;
    forall i | 0 <= i < |fs| ensures Cell(fs[i]) {
      if 0 < i < Width + 1 { assert fs[i] == ps[i - 1]; }
    }
    ParseJoined(fs);
  }

  /** Entries, each for a date of `rows` with that date's row, collect into a map of
      exactly those dates and rows. */
  lemma {:induction false} CollectEntries(es: seq<Entry>, keys: seq<string>, rows: Rows)
    requires |es| == |keys| && forall k :: k in keys ==> k in rows
    requires forall i :: 0 <= i < |es| ==> es[i] == Some((keys[i], rows[keys[i]]))
    ensures forall d :: d in Collect(es) <==> d in keys
    ensures forall d :: d in Collect(es) ==> Collect(es)[d] == rows[d]
    decreases |es|
  {
    if es != [] {
      var n := |es| - 1;
      assert forall i :: 0 <= i < n ==> es[..n][i] == es[i] && keys[..n][i] == keys[i];
      CollectEntries(es[..n], keys[..n], rows);
      assert forall k :: k in keys <==> k in keys[..n] || k == keys[n];
    }
  }

  /** Entries for exactly the dates of `m`, each with its row, collect into `m`. */
  lemma CollectAll(es: seq<Entry>, keys: seq<string>, m: Rows)
    requires |es| == |keys| && forall k :: k in keys <==> k in m
    requires forall i :: 0 <= i < |es| ==> es[i] == Some((keys[i], m[keys[i]]))
    ensures Collect(es) == m
  {
    CollectEntries(es, keys, m);
    assert Collect(es).Keys == m.Keys;
  }

  /** What the reader gets back for every date of `rows`. */
  function StoredRows(rows: Rows, dateStr: string, timeStr: string): (r: Rows)
    ensures r.Keys == rows.Keys
    ensures forall d :: d in rows ==> r[d] == StoredRow(d, rows[d], dateStr, timeStr)
  {
    map d | d in rows :: StoredRow(d, rows[d], dateStr, timeStr)
  }

  /** The lines written for `rows`, newest date first. */
  ghost function Written(rows: Rows, dateStr: string, timeStr: string): seq<string> {
    Rendered(SortedDesc(rows.Keys), rows, dateStr, timeStr)
  }

  /** Each written line reads back as its date and stored row. */
  lemma WrittenLines(rows: Rows, dateStr: string, timeStr: string)
    requires CleanRows(rows) && Cell(timeStr)
    ensures var out := Written(rows, dateStr, timeStr);
            var ordered := SortedDesc(rows.Keys);
            |out| == |rows|
            && forall i :: 0 <= i < |out| ==>
                 ParseLine(out[i]) == Some((ordered[i], StoredRow(ordered[i], rows[ordered[i]], dateStr, timeStr)))
  {
    var ordered := SortedDesc(rows.Keys);
    var out := Written(rows, dateStr, timeStr);
    forall i | 0 <= i < |out|
      ensures ParseLine(out[i]) == Some((ordered[i], StoredRow(ordered[i], rows[ordered[i]], dateStr, timeStr)))
    {
      ParseRenderLine(ordered[i], rows[ordered[i]], dateStr, timeStr);
    }
    assert |rows.Keys| == |rows|;
  }

  /** The written lines run through the dates strictly downwards, one line per date. */
  lemma WrittenOrder(rows: Rows, dateStr: string, timeStr: string)
    requires CleanRows(rows) && Cell(timeStr)
    ensures var out := Written(rows, dateStr, timeStr);
            var ordered := SortedDesc(rows.Keys);
            |out| == |ordered| && Descending(ordered)
            && forall i :: 0 <= i < |out| ==> ParseLine(out[i]).Some? && ParseLine(out[i]).value.0 == ordered[i]
  {
    WrittenLines(rows, dateStr, timeStr);
    SortedDescDescending(rows.Keys);
  }

  /** Lines that each read back as a date of `rows` with its stored row, every date
      once, read back as those dates and stored rows. */
  lemma ReadBack(out: seq<string>, ordered: seq<string>, rows: Rows, dateStr: string, timeStr: string)
    requires |out| == |ordered| && forall k :: k in ordered <==> k in rows
    requires forall i :: 0 <= i < |out| ==>
               ParseLine(out[i]) == Some((ordered[i], StoredRow(ordered[i], rows[ordered[i]], dateStr, timeStr)))
    ensures ParsedRows(out) == StoredRows(rows, dateStr, timeStr)
  {
    var es := Entries(out);
    var stored := StoredRows(rows, dateStr, timeStr);
    forall i | 0 <= i < |es| ensures es[i] == Some((ordered[i], stored[ordered[i]])) {
      EntriesIndex(out, i);
    }
    CollectAll(es, ordered, stored);
  }

  /** Reading back the written lines gives each date of `rows` its stored row, and
      no other date. */
  lemma WrittenReadsBack(rows: Rows, dateStr: string, timeStr: string)
    requires CleanRows(rows) && Cell(timeStr)
    ensures ParsedRows(Written(rows, dateStr, timeStr)) == StoredRows(rows, dateStr, timeStr)
  {
    WrittenLines(rows, dateStr, timeStr);
    ReadBack(Written(rows, dateStr, timeStr), SortedDesc(rows.Keys), rows, dateStr, timeStr);
  }

  /** A stored row prints as the row it was read from. */
  lemma RenderStable(d: string, row: DayRow, dateStr: string, timeStr: string)
    ensures RenderLine(d, StoredRow(d, row, dateStr, timeStr), dateStr, timeStr)
            == RenderLine(d, row, dateStr, timeStr)
  {
    PrintedStable(row.values);
  }

  /** Rows that print the same lines are written the same. */
  lemma WrittenRewrite(rows: Rows, rows2: Rows, dateStr: string, timeStr: string)
    requires rows2.Keys == rows.Keys
    requires forall d :: d in rows ==> RenderLine(d, rows2[d], dateStr, timeStr) == RenderLine(d, rows[d], dateStr, timeStr)
    ensures Written(rows2, dateStr, timeStr) == Written(rows, dateStr, timeStr)
  {
  }

  /** Replacing rows by what the reader got back for them writes the same lines. */
  lemma WrittenOfStored(rows: Rows, rows2: Rows, dateStr: string, timeStr: string)
    requires rows2.Keys == rows.Keys
    requires forall d :: d in rows ==> rows2[d] == rows[d] || rows2[d] == StoredRow(d, rows[d], dateStr, timeStr)
    ensures Written(rows2, dateStr, timeStr) == Written(rows, dateStr, timeStr)
  {
    forall d | d in rows ensures RenderLine(d, rows2[d], dateStr, timeStr) == RenderLine(d, rows[d], dateStr, timeStr) {
      RenderStable(d, rows[d], dateStr, timeStr);
    }
    WrittenRewrite(rows, rows2, dateStr, timeStr);
  }

  /** Today's row: the values rounded to `nd` decimals, and the time. */
  function TodayRow(t: DateTime, v: Inputs, nd: nat): (row: DayRow)
    requires v.Complete()
    ensures |row.values| == Width
  {
    DayRow([Round(v.totalBuy.value, nd), Round(v.buyDay.value, nd), Round(v.buyMonth.value, nd),
            Round(v.totalSell.value, nd), Round(v.sellDay.value, nd), Round(v.sellMonth.value, nd)],
           TimeText(t))
  }

  lemma KeyCells(t: DateTime)
    ensures Cell(DateKey(t)) && Cell(TimeText(t))
  {
    KeysClean(t);
    StripNoSpace(DateKey(t));
    StripNoSpace(TimeText(t));
  }

  /** Rounding to `nd <= 12` decimals lands on the twelve-decimal grid. */
  lemma RoundOnTwelve(x: real, nd: nat)
    requires nd <= ReprPlaces
    ensures Round(Round(x, nd), ReprPlaces) == Round(x, nd)
  {
    RoundNearest(x, nd);
    GridCoarser(Round(x, nd), nd, ReprPlaces);
    RoundOnGrid(Round(x, nd), ReprPlaces);
  }

  class CsvDailyYearWriter {
    /** `hass.config.path(output_dir)`. */
    const baseDir: string
    /** The number of decimals values are rounded to. */
    const round: nat

    constructor(configDir: string, outputDir: string, roundDecimals: nat)
      ensures baseDir == PathJoin(configDir, outputDir) && round == roundDecimals
    {
      baseDir := PathJoin(configDir, outputDir);
      round := roundDecimals;
    }

    /** `_year_path`: `<baseDir>/<YYYY>.csv`. */
    function YearPath(t: DateTime): string {
      PathJoin(baseDir, YearKey(t) + ".csv")
    }

    /** The year file lies in the base directory, and two times share a file exactly
        when they fall in the same year. */
    lemma YearPathSpec(t: DateTime, u: DateTime)
      requires t.Valid() && u.Valid()
      ensures DirForm(baseDir) ==> Dirname(YearPath(t)) == baseDir
      ensures YearPath(t) == YearPath(u) <==> t.year == u.year
    {
      var nt, nu := YearKey(t) + ".csv", YearKey(u) + ".csv";
      KeysClean(t);
      KeysClean(u);
      KeysNest(t);
      KeysNest(u);
      assert '/' !in nt by {
        assert forall i :: 0 <= i < |nt| ==> nt[i] != '/' by {
          assert forall i :: 0 <= i < |YearKey(t)| ==> nt[i] == DateKey(t)[i];
        }
      }
      if DirForm(baseDir) {
        DirnameOfJoin(baseDir, nt);
      }
      assert nt[0] == DateKey(t)[0] && nu[0] == DateKey(u)[0];
      JoinInjective(baseDir, nt, nu);
      if nt == nu {
        assert YearKey(t) == nt[..4] && YearKey(u) == nu[..4];
      }
      Pad4Injective(t.year, u.year);
    }

    /** The row map after today's upsert. */
    function UpsertedRows(files: Files, t: DateTime, v: Inputs): (rows: Rows)
      requires v.Complete()
      ensures rows.Keys == ParsedRows(LinesOf(files, YearPath(t))).Keys + {DateKey(t)}
      ensures rows[DateKey(t)] == TodayRow(t, v, round)
      ensures forall d :: d in rows && d != DateKey(t) ==> rows[d] == ParsedRows(LinesOf(files, YearPath(t)))[d]
    {
      ParsedRows(LinesOf(files, YearPath(t)))[DateKey(t) := TodayRow(t, v, round)]
    }

    lemma UpsertedRowsClean(files: Files, t: DateTime, v: Inputs)
      requires v.Complete()
      ensures CleanRows(UpsertedRows(files, t, v)) && Cell(TimeText(t))
    {
      ParsedRowsClean(LinesOf(files, YearPath(t)));
      KeyCells(t);
    }

    /** The files after `upsert_today(t, v)`. */
    ghost function Upserted(files: Files, t: DateTime, v: Inputs): (out: Files)
      ensures !v.Complete() ==> out == files
      ensures v.Complete() ==> out.Keys == files.Keys + {YearPath(t)}
      ensures forall p :: p in files && p != YearPath(t) ==> p in out && out[p] == files[p]
    {
      if !v.Complete() then files
      else files[YearPath(t) := Written(UpsertedRows(files, t, v), DateKey(t), TimeText(t))]
    }

    /** `upsert_today`. */
    method UpsertToday(files: Files, t: DateTime, v: Inputs) returns (out: Files)
      ensures out == Upserted(files, t, v)
    {
      if !v.Complete() {
        return files;
      }
      var today := DayRow([Round(v.totalBuy.value, round), Round(v.buyDay.value, round),
                           Round(v.buyMonth.value, round), Round(v.totalSell.value, round),
                           Round(v.sellDay.value, round), Round(v.sellMonth.value, round)], TimeText(t));
      var dateStr, timeStr := DateKey(t), TimeText(t);
      var path := YearPath(t);
      var rows := ReadRows(LinesOf(files, path));
      rows := rows[dateStr := today];
      var ordered := SortKeys(rows);
      var lines := WriteLines(ordered, rows, dateStr, timeStr);
      out := files[path := lines];
    }

    /** The year file holds one line per date, dates strictly descending: today's
        date and every date the file held before, each line reading back as its date. */
    lemma UpsertOrder(files: Files, t: DateTime, v: Inputs)
      requires v.Complete()
      ensures var out := Upserted(files, t, v)[YearPath(t)];
              var ordered := SortedDesc(UpsertedRows(files, t, v).Keys);
              |out| == |ordered| && Descending(ordered)
              && forall i :: 0 <= i < |out| ==> ParseLine(out[i]).Some? && ParseLine(out[i]).value.0 == ordered[i]
    {
      UpsertedRowsClean(files, t, v);
      assert Upserted(files, t, v)[YearPath(t)] == Written(UpsertedRows(files, t, v), DateKey(t), TimeText(t));
      WrittenOrder(UpsertedRows(files, t, v), DateKey(t), TimeText(t));
    }

    /** Reading the year file back after an upsert gives today's date the rounded
        values (printed on the twelve-decimal grid) and the current time; every other
        date keeps its values, printed the same way, and its time, empty or not. */
    lemma UpsertReadBack(files: Files, t: DateTime, v: Inputs)
      requires v.Complete()
      ensures var back := ParsedRows(Upserted(files, t, v)[YearPath(t)]);
              var before := ParsedRows(LinesOf(files, YearPath(t)));
              back.Keys == before.Keys + {DateKey(t)}
              && DateKey(t) in back && back[DateKey(t)] == Quantised(TodayRow(t, v, round))
              && forall d :: d in before && d != DateKey(t) ==> back[d] == Quantised(before[d])
    {
      var rows := UpsertedRows(files, t, v);
      UpsertedRowsClean(files, t, v);
      WrittenReadsBack(rows, DateKey(t), TimeText(t));
    }

    /** With at most twelve decimals, today's values read back exactly as rounded. */
    lemma TodayReadsBackRounded(files: Files, t: DateTime, v: Inputs)
      requires v.Complete() && round <= ReprPlaces
      ensures var back := ParsedRows(Upserted(files, t, v)[YearPath(t)]);
              DateKey(t) in back && back[DateKey(t)] == TodayRow(t, v, round)
    {
      UpsertReadBack(files, t, v);
      TodayOnGrid(t, v, round);
    }

    /** Rows read back from an upserted file, with today's row put in again, are the
        upserted rows or what the reader got back for them. */
    lemma ReupsertedRows(files: Files, t: DateTime, v: Inputs)
      requires v.Complete()
      ensures var rows := UpsertedRows(files, t, v);
              var rows2 := UpsertedRows(Upserted(files, t, v), t, v);
              rows2.Keys == rows.Keys
              && forall d :: d in rows ==> rows2[d] == rows[d] || rows2[d] == StoredRow(d, rows[d], DateKey(t), TimeText(t))
    {
      var rows := UpsertedRows(files, t, v);
      assert LinesOf(Upserted(files, t, v), YearPath(t)) == Written(rows, DateKey(t), TimeText(t));
      UpsertedRowsClean(files, t, v);
      WrittenReadsBack(rows, DateKey(t), TimeText(t));
    }

    /** Upserting again with the same values at the same time leaves the files as the
        first upsert made them. */
    lemma UpsertIdempotent(files: Files, t: DateTime, v: Inputs)
      ensures Upserted(Upserted(files, t, v), t, v) == Upserted(files, t, v)
    {
      if v.Complete() {
        var once := Upserted(files, t, v);
        ReupsertedRows(files, t, v);
        WrittenOfStored(UpsertedRows(files, t, v), UpsertedRows(once, t, v), DateKey(t), TimeText(t));
        RewriteSame(once, YearPath(t), Written(UpsertedRows(once, t, v), DateKey(t), TimeText(t)));
      }
    }
  }

  /** Writing a file with the lines it already holds changes nothing. */
  lemma RewriteSame(files: Files, path: string, lines: seq<string>)
    requires path in files && files[path] == lines
    ensures files[path := lines] == files
  {
  }

  lemma TodayOnGrid(t: DateTime, v: Inputs, nd: nat)
    requires v.Complete() && nd <= ReprPlaces
    ensures Quantised(TodayRow(t, v, nd)) == TodayRow(t, v, nd)
  {
    var row := TodayRow(t, v, nd);
    forall i | 0 <= i < Width ensures OnPrintGrid(row.values)[i] == row.values[i] {
      if i == 0 { RoundOnTwelve(v.totalBuy.value, nd); }
      else if i == 1 { RoundOnTwelve(v.buyDay.value, nd); }
      else if i == 2 { RoundOnTwelve(v.buyMonth.value, nd); }
      else if i == 3 { RoundOnTwelve(v.totalSell.value, nd); }
      else if i == 4 { RoundOnTwelve(v.sellDay.value, nd); }
      else { RoundOnTwelve(v.sellMonth.value, nd); }
    }
    assert OnPrintGrid(row.values) == row.values;
  }

  /** Printing values read back prints the same texts. */
  lemma PrintedStable(vs: seq<real>)
    ensures Printed(OnPrintGrid(vs)) == Printed(vs)
  {
    forall i | 0 <= i < |vs| ensures Printed(OnPrintGrid(vs))[i] == Printed(vs)[i] {
      ReprStable(vs[i]);
    }
  }
}
