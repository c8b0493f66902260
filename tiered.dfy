/** The tiered-billing variant: `DJRuntime` turns the two ever-growing meter totals
    (forward = bought, reverse = sold) into day, month and year consumption by
    subtracting stored baselines, prices the purchases with the EVN tiers, and keeps an
    hourly ledger. */
module Tiered {
  import opened Wrappers
  import opened Numbers
  import opened Clock
  import opened Tariff
  import opened Paths
  import Ledger

  /** The sensor states Home Assistant holds, by entity id. */
  type States = map<string, string>

  /** The state texts that mean "no reading". */
  predicate IsSentinel(s: string) {
    s == "unknown" || s == "unavailable" || s == "none" || s == ""
  }

  /** `_val`: the state of `entity` as a number; 0.0 when the entity is missing, its
      state is a sentinel, or the state is not a number. */
  function Reading(states: States, entity: string): real {
    if entity in states && !IsSentinel(states[entity]) then ParseFloat(states[entity]).GetOr(0.0)
    else 0.0
  }

  /** A state that parses as a number is never one of the sentinels. */
  lemma ParsedIsNotSentinel(s: string)
    ensures ParseFloat(s).Some? ==> !IsSentinel(s)
  {
    SentinelsDoNotParse();
  }

  /** A reading is the parsed state when there is one and 0.0 in every other case. */
  lemma ReadingSpec(states: States, entity: string)
    ensures entity in states && ParseFloat(states[entity]).Some?
            ==> Reading(states, entity) == ParseFloat(states[entity]).value
    ensures entity !in states || ParseFloat(states[entity]).None? ==> Reading(states, entity) == 0.0
  {
    if entity in states {
      ParsedIsNotSentinel(states[entity]);
    }
  }

  /** The accepted total after a reading: the first reading is taken as it is, later
      ones only when strictly greater. */
  function Accept(prev: Option<real>, reading: real): (r: Option<real>)
    ensures r.Some? && r.value >= reading
    ensures prev.Some? ==> r.value >= prev.value
    ensures r.value == reading || r == prev
  {
    if prev.None? || reading > prev.value then Some(reading) else prev
  }

  /** Accepting the same reading again changes nothing. */
  lemma AcceptIdempotent(prev: Option<real>, reading: real)
    ensures Accept(Accept(prev, reading), reading) == Accept(prev, reading)
  {
  }

  /** A missing, sentinel or unparseable reading never lowers a non-negative accepted
      total. */
  lemma InvalidReadingKeepsTotal(prev: Option<real>, states: States, entity: string)
    requires prev.Some? && prev.value >= 0.0
    requires entity !in states || ParseFloat(states[entity]).None?
    ensures Accept(prev, Reading(states, entity)) == prev
  {
    ReadingSpec(states, entity);
  }

  /** One period record: its key (a date, a month or a year) and the two baselines. */
  datatype Period = Period(key: Option<string>, fBase: Option<real>, rBase: Option<real>)

  /** The stored data: the two accepted totals, the three periods, and the costs-relevant
      kWh of past months (the values of the year's `months` map). */
  datatype Store = Store(
    forward: Option<real>, reverse: Option<real>,
    day: Period, month: Period, year: Period,
    months: seq<real>)

  const NoPeriod: Period := Period(None, None, None)

  /** What a runtime without stored data starts from. */
  const EmptyStore: Store := Store(None, None, NoPeriod, NoPeriod, NoPeriod, [])

  /** `_refresh_accepted` on the stored data. */
  function Refreshed(s: Store, f: real, r: real): Store {
    s.(forward := Accept(s.forward, f), reverse := Accept(s.reverse, r))
  }

  /** The accepted totals, `0.0` where there is none yet. */
  function TotalBuy(s: Store): real {
    s.forward.GetOr(0.0)
  }

  function TotalSell(s: Store): real {
    s.reverse.GetOr(0.0)
  }

  /** Refreshing never lowers an accepted total. */
  lemma RefreshMonotone(s: Store, f: real, r: real)
    ensures s.forward.Some? ==> TotalBuy(Refreshed(s, f, r)) >= TotalBuy(s)
    ensures s.reverse.Some? ==> TotalSell(Refreshed(s, f, r)) >= TotalSell(s)
    ensures TotalBuy(Refreshed(s, f, r)) >= f && TotalSell(Refreshed(s, f, r)) >= r
  {
  }

  /** The rollover of one period, exactly as written: it fires when the key differs
      from `now` or the forward base is missing, and then sets the key and fills only
      the bases that are missing. */
  function Roll(p: Period, now: string, accF: real, accR: real): Period {
    if p.key != Some(now) || p.fBase.None? then
      Period(Some(now), Some(p.fBase.GetOr(accF)), Some(p.rBase.GetOr(accR)))
    else p
  }

  /** After a rollover the period carries `now` and a forward base; a base that was
      there is still there, and a missing forward base becomes the accepted total. */
  lemma RollResult(p: Period, now: string, accF: real, accR: real)
    ensures Roll(p, now, accF, accR).key == Some(now)
    ensures Roll(p, now, accF, accR).fBase == Some(p.fBase.GetOr(accF))
    ensures p.rBase.Some? ==> Roll(p, now, accF, accR).rBase == p.rBase
    ensures p.fBase.None? ==> Roll(p, now, accF, accR).rBase == Some(p.rBase.GetOr(accR))
    ensures p.key != Some(now) ==> Roll(p, now, accF, accR).rBase == Some(p.rBase.GetOr(accR))
    ensures p.key == Some(now) && p.fBase.Some? ==> Roll(p, now, accF, accR) == p
  {
  }

  /** A second rollover in the same period changes nothing, whatever the totals. */
  lemma RollIdempotent(p: Period, now: string, f1: real, r1: real, f2: real, r2: real)
    ensures Roll(Roll(p, now, f1, r1), now, f2, r2) == Roll(p, now, f1, r1)
  {
  }

  /** The three periods rolled over to the keys of `t`. */
  function RolledOver(s: Store, t: DateTime, accF: real, accR: real): Store {
    s.(day := Roll(s.day, DateKey(t), accF, accR),
       month := Roll(s.month, MonthKey(t), accF, accR),
       year := Roll(s.year, YearKey(t), accF, accR))
  }

  /** The stored data after one update at `t` with readings `f`, `r`: accepted totals
      refreshed, then the periods rolled over with them. */
  function Tick(s: Store, f: real, r: real, t: DateTime): Store {
    var s1 := Refreshed(s, f, r);
    RolledOver(s1, t, TotalBuy(s1), TotalSell(s1))
  }

  /** `max(acc - (base or 0), 0)`. */
  function Consumption(acc: real, base: Option<real>): (c: real)
    ensures c >= 0.0 && c >= acc - base.GetOr(0.0)
    ensures c == 0.0 || c == acc - base.GetOr(0.0)
  {
    Max(acc - base.GetOr(0.0), 0.0)
  }

  /** The six consumption figures. */
  datatype Usage = Usage(
    buyDay: real, buyMonth: real, buyYear: real,
    sellDay: real, sellMonth: real, sellYear: real)

  function UsageOf(s: Store): Usage {
    Usage(Consumption(TotalBuy(s), s.day.fBase), Consumption(TotalBuy(s), s.month.fBase),
          Consumption(TotalBuy(s), s.year.fBase), Consumption(TotalSell(s), s.day.rBase),
          Consumption(TotalSell(s), s.month.rBase), Consumption(TotalSell(s), s.year.rBase))
  }

  predicate NonNegative(u: Usage) {
    u.buyDay >= 0.0 && u.buyMonth >= 0.0 && u.buyYear >= 0.0
    && u.sellDay >= 0.0 && u.sellMonth >= 0.0 && u.sellYear >= 0.0
  }

  /** No period's consumption is ever negative, on either channel. */
  lemma UsageNonNegative(s: Store)
    ensures NonNegative(UsageOf(s))
  {
  }

  /** A second update in the same day with the same readings changes nothing. */
  lemma TickSameDayStable(s: Store, f: real, r: real, t1: DateTime, t2: DateTime)
    requires (t1.year, t1.month, t1.day) == (t2.year, t2.month, t2.day)
    ensures Tick(Tick(s, f, r, t1), f, r, t2) == Tick(s, f, r, t1)
  {
    AcceptIdempotent(s.forward, f);
    AcceptIdempotent(s.reverse, r);
  }

  /** Within one day, each consumption figure only grows from one update to the next. */
  lemma UsageGrowsWithinDay(s: Store, f1: real, r1: real, t1: DateTime, f2: real, r2: real, t2: DateTime)
    requires (t1.year, t1.month, t1.day) == (t2.year, t2.month, t2.day)
    ensures var u1 := UsageOf(Tick(s, f1, r1, t1));
            var u2 := UsageOf(Tick(Tick(s, f1, r1, t1), f2, r2, t2));
            u1.buyDay <= u2.buyDay && u1.buyMonth <= u2.buyMonth && u1.buyYear <= u2.buyYear
            && u1.sellDay <= u2.sellDay && u1.sellMonth <= u2.sellMonth && u1.sellYear <= u2.sellYear
  {
    var s1 := Tick(s, f1, r1, t1);
    RollIdempotent(s1.day, DateKey(t1), 0.0, 0.0, 0.0, 0.0);
    RefreshMonotone(s1, f2, r2);
    assert Tick(s1, f2, r2, t2).day == s1.day;
    assert Tick(s1, f2, r2, t2).month == s1.month;
    assert Tick(s1, f2, r2, t2).year == s1.year;
  }

  /** The rollover as written keeps a stored base across a change of key: on the first
      update of a new day the day's figure is still measured from the old base. */
  lemma StaleBaseAcrossDays(s: Store, f: real, r: real, t: DateTime, b: real)
    requires s.day.fBase == Some(b)
    ensures Tick(s, f, r, t).day.key == Some(DateKey(t))
    ensures UsageOf(Tick(s, f, r, t)).buyDay == Max(TotalBuy(Refreshed(s, f, r)) - b, 0.0)
  {
  }

  /** The month's kWh up to the start of today: what the day base and the month base
      differ by. */
  function MonthToDateAtMidnight(s: Store): real {
    Max(s.day.fBase.GetOr(0.0) - s.month.fBase.GetOr(0.0), 0.0)
  }

  /** The sum of the costs of the past months. */
  function SumCost(months: seq<real>): real
    decreases |months|
  {
    if months == [] then 0.0 else SumCost(months[..|months| - 1]) + Cost(months[|months| - 1])
  }

  lemma {:induction false} SumCostNonNegative(months: seq<real>)
    ensures SumCost(months) >= 0.0
    decreases |months|
  {
    if months != [] {
      SumCostNonNegative(months[..|months| - 1]);
      CostNonNegative(months[|months| - 1]);
    }
  }

  /** `sum(_cost_K(kwh) for kwh in months.values())`. */
  method PastMonthsCost(months: seq<real>) returns (past: real)
    ensures past == SumCost(months)
  {
    past := 0.0;
    var i := 0;
    while i < |months|
      invariant 0 <= i <= |months|
      invariant past == SumCost(months[..i])
    {
      var c := CostK(EvnTiers, months[i]);
      assert months[..i + 1][..i] == months[..i];
      past := past + c;
      i := i + 1;
    }
    assert months[..i] == months;
  }

  /** The six amounts of the bill, in thousands of đồng. */
  datatype Bill = Bill(
    buyCostDay: real, buyCostMonth: real, buyCostYear: real,
    sellRevenueDay: real, sellRevenueMonth: real, sellRevenueYear: real)

  /** The cost split: the month's cost; today's cost as the month's cost less the cost
      of what the month had used by midnight; the year's cost as the past months' costs
      plus this month's; revenue at the flat selling price. */
  function BillOf(s: Store, u: Usage): Bill {
    var month := Cost(u.buyMonth);
    Bill(Max(month - Cost(MonthToDateAtMidnight(s)), 0.0), month, SumCost(s.months) + month,
         Revenue(u.sellDay), Revenue(u.sellMonth), Revenue(u.sellYear))
  }

  /** The day's cost is never negative; when the month had used no more by midnight than
      it has now it is exactly the difference of the two tier costs; the year's cost
      is at least the month's. */
  lemma BillSplit(s: Store, u: Usage)
    ensures BillOf(s, u).buyCostDay >= 0.0
    ensures MonthToDateAtMidnight(s) <= u.buyMonth
            ==> BillOf(s, u).buyCostDay == Cost(u.buyMonth) - Cost(MonthToDateAtMidnight(s))
    ensures BillOf(s, u).buyCostYear >= BillOf(s, u).buyCostMonth
  {
    SumCostNonNegative(s.months);
    if MonthToDateAtMidnight(s) <= u.buyMonth {
      CostMonotone(MonthToDateAtMidnight(s), u.buyMonth);
    }
  }

  /** Every amount of the bill of non-negative usage is non-negative. */
  lemma BillNonNegative(s: Store, u: Usage)
    requires NonNegative(u)
    ensures BillOf(s, u).buyCostMonth >= 0.0 && BillOf(s, u).buyCostYear >= 0.0
    ensures BillOf(s, u).sellRevenueDay >= 0.0 && BillOf(s, u).sellRevenueMonth >= 0.0
    ensures BillOf(s, u).sellRevenueYear >= 0.0
  {
    CostNonNegative(u.buyMonth);
    SumCostNonNegative(s.months);
  }

  /** The published state: the totals, the usage, the bill rounded to one decimal, and
      the time of the update. */
  datatype Snapshot = Snapshot(
    totalBuy: real, totalSell: real, usage: Usage, bill: Bill, lastUpdated: Option<DateTime>)

  const InitialSnapshot: Snapshot :=
    Snapshot(0.0, 0.0, Usage(0.0, 0.0, 0.0, 0.0, 0.0, 0.0), Bill(0.0, 0.0, 0.0, 0.0, 0.0, 0.0), None)

  function RoundBill(b: Bill): Bill {
    Bill(Round(b.buyCostDay, 1), Round(b.buyCostMonth, 1), Round(b.buyCostYear, 1),
         Round(b.sellRevenueDay, 1), Round(b.sellRevenueMonth, 1), Round(b.sellRevenueYear, 1))
  }

  function Publish(s: Store, t: DateTime): Snapshot {
    var u := UsageOf(s);
    Snapshot(TotalBuy(s), TotalSell(s), u, RoundBill(BillOf(s, u)), Some(t))
  }

  /** A published amount is within half a tenth of the exact one. */
  lemma PublishedRounding(x: real)
    ensures -0.05 <= Round(x, 1) - x <= 0.05
  {
    RoundNearest(x, 1);
    assert Scale(1) == 10.0;
  }

  /** The amounts a ledger line records. */
  function AmountsOf(st: Snapshot): Ledger.Amounts {
    Ledger.Amounts(st.totalBuy, st.usage.buyDay, st.usage.buyMonth, st.usage.buyYear,
                   st.totalSell, st.usage.sellDay, st.usage.sellMonth, st.usage.sellYear)
  }

  /** The ledger file for the year of `t`, next to the current one. */
  function YearFile(path: string, t: DateTime): string {
    PathJoin(Dirname(path), YearKey(t) + ".csv")
  }

  /** The ledger stays in its directory, and switching to the year's file again is no
      switch. */
  lemma YearFileStable(path: string, t: DateTime)
    ensures Dirname(YearFile(path, t)) == Dirname(path)
    ensures YearFile(YearFile(path, t), t) == YearFile(path, t)
  {
    assert '/' !in YearKey(t) + ".csv" by {
      assert forall i :: 0 <= i < |YearKey(t)| ==> IsDigit(YearKey(t)[i]);
    }
    SiblingStable(path, YearKey(t) + ".csv");
  }

  /** `_ensure_csv_sync`: a missing ledger gets its header line. */
  function EnsureCsv(files: Files, path: string): Files {
    if path in files then files else files[path := [Ledger.CsvHeader]]
  }

  /** The files after the ledger line for `t` is written to `path`. */
  function LogRow(files: Files, path: string, t: DateTime, st: Snapshot): Files {
    files[path := Ledger.AfterWrite(LinesOf(files, path), Ledger.RowText(t, AmountsOf(st)), Ledger.CsvHeader)]
  }

  /** The option keys of the one-shot recalibration form. */
  const OptBuyDay: string := "buy_day_kwh"
  const OptBuyMonth: string := "buy_month_kwh"
  const OptBuyYear: string := "buy_year_kwh"
  const OptSellDay: string := "sell_day_kwh"
  const OptSellMonth: string := "sell_month_kwh"
  const OptSellYear: string := "sell_year_kwh"

  /** `values.get(key)`. */
  function Lookup(values: map<string, Raw>, key: string): Raw {
    if key in values then values[key] else Null
  }

  /** `base_from`: no base for a missing, empty or unparseable entry; otherwise the base
      that makes the period's consumption the entered amount (negative amounts count as
      0), never below 0. */
  function BaseFrom(total: real, desired: Raw): Option<real> {
    if desired == Null || desired == Str("") then None
    else
      match RawFloat(desired)
      case None => None
      case Some(v) => Some(Max(total - Max(v, 0.0), 0.0))
  }

  /** An entry gives no base exactly when it is missing or does not convert. */
  lemma BaseFromNone(total: real, desired: Raw)
    ensures BaseFrom(total, desired).None? <==> RawFloat(desired).None?
  {
    SentinelsDoNotParse();
  }

  /** Recalibration reads back: with a non-negative total, the consumption measured from
      the new base is the entered amount (at least 0), capped by the total. */
  lemma OneShotReadsBack(total: real, desired: Raw, x: real)
    requires total >= 0.0 && RawFloat(desired) == Some(x)
    ensures BaseFrom(total, desired).Some?
    ensures Consumption(total, BaseFrom(total, desired)) == Min(Max(x, 0.0), total)
  {
    BaseFromNone(total, desired);
  }

  /** The base that is kept when no new one is given. */
  function Override(current: Option<real>, b: Option<real>): Option<real> {
    if b.Some? then b else current
  }

  /** A period with the new bases that came out, and the old ones elsewhere. */
  function Rebased(p: Period, f: Option<real>, r: Option<real>): Period {
    p.(fBase := Override(p.fBase, f), rBase := Override(p.rBase, r))
  }

  /** The six assignments of `_apply_one_shot`, each only where a base came out. */
  function Recalibrated(s: Store, accF: real, accR: real, values: map<string, Raw>): Store {
    s.(day := Rebased(s.day, BaseFrom(accF, Lookup(values, OptBuyDay)), BaseFrom(accR, Lookup(values, OptSellDay))),
       month := Rebased(s.month, BaseFrom(accF, Lookup(values, OptBuyMonth)),
                        BaseFrom(accR, Lookup(values, OptSellMonth))),
       year := Rebased(s.year, BaseFrom(accF, Lookup(values, OptBuyYear)),
                       BaseFrom(accR, Lookup(values, OptSellYear))))
  }

  /** Recalibration touches only the bases: keys, accepted totals and past months stay,
      and a base whose entry does not convert is left as it was. */
  lemma RecalibrationLocal(s: Store, accF: real, accR: real, values: map<string, Raw>)
    ensures var s2 := Recalibrated(s, accF, accR, values);
            s2.forward == s.forward && s2.reverse == s.reverse && s2.months == s.months
            && s2.day.key == s.day.key && s2.month.key == s.month.key && s2.year.key == s.year.key
    ensures RawFloat(Lookup(values, OptBuyDay)).None?
            ==> Recalibrated(s, accF, accR, values).day.fBase == s.day.fBase
    ensures RawFloat(Lookup(values, OptSellDay)).None?
            ==> Recalibrated(s, accF, accR, values).day.rBase == s.day.rBase
    ensures RawFloat(Lookup(values, OptBuyMonth)).None?
            ==> Recalibrated(s, accF, accR, values).month.fBase == s.month.fBase
    ensures RawFloat(Lookup(values, OptSellMonth)).None?
            ==> Recalibrated(s, accF, accR, values).month.rBase == s.month.rBase
    ensures RawFloat(Lookup(values, OptBuyYear)).None?
            ==> Recalibrated(s, accF, accR, values).year.fBase == s.year.fBase
    ensures RawFloat(Lookup(values, OptSellYear)).None?
            ==> Recalibrated(s, accF, accR, values).year.rBase == s.year.rBase
  {
    BaseFromNone(accF, Lookup(values, OptBuyDay));
    BaseFromNone(accR, Lookup(values, OptSellDay));
    BaseFromNone(accF, Lookup(values, OptBuyMonth));
    BaseFromNone(accR, Lookup(values, OptSellMonth));
    BaseFromNone(accF, Lookup(values, OptBuyYear));
    BaseFromNone(accR, Lookup(values, OptSellYear));
  }

  /** Entering today's bought kWh and then updating with unchanged readings publishes
      exactly the entered amount (at least 0, at most the total) as today's purchase. */
  lemma OneShotThenUpdate(s: Store, f: real, r: real, t: DateTime, values: map<string, Raw>, x: real)
    requires RawFloat(Lookup(values, OptBuyDay)) == Some(x)
    requires TotalBuy(Refreshed(s, f, r)) >= 0.0
    ensures var s1 := Refreshed(s, f, r);
            var s2 := Recalibrated(s1, TotalBuy(s1), TotalSell(s1), values);
            UsageOf(Tick(s2, f, r, t)).buyDay == Min(Max(x, 0.0), TotalBuy(s1))
  {
    var s1 := Refreshed(s, f, r);
    var s2 := Recalibrated(s1, TotalBuy(s1), TotalSell(s1), values);
    OneShotReadsBack(TotalBuy(s1), Lookup(values, OptBuyDay), x);
    AcceptIdempotent(s.forward, f);
    AcceptIdempotent(s.reverse, r);
    assert Refreshed(s2, f, r) == s2;
    assert Tick(s2, f, r, t).day.fBase == s2.day.fBase;
  }

  /** The two conditional assignments of one period. */
  method RebasePeriod(p: Period, f: Option<real>, r: Option<real>) returns (q: Period)
    ensures q == Rebased(p, f, r)
  {
    q := p;
    if f.Some? { q := q.(fBase := f); }
    if r.Some? { q := q.(rBase := r); }
  }

  /** The runtime of one configured integration entry. */
  class DJRuntime {
    const forwardEntity: string
    const reverseEntity: string
    var csvPath: string
    var data: Store
    var state: Snapshot

    constructor(forwardEntity: string, reverseEntity: string, csvPath: string, stored: Store)
      ensures this.forwardEntity == forwardEntity && this.reverseEntity == reverseEntity
      ensures this.csvPath == csvPath && data == stored && state == InitialSnapshot
    {
      this.forwardEntity := forwardEntity;
      this.reverseEntity := reverseEntity;
      this.csvPath := csvPath;
      data := stored;
      state := InitialSnapshot;
    }

    /** `_refresh_accepted`. */
    method RefreshAccepted(states: States) returns (accF: real, accR: real)
      modifies this
      ensures data == Refreshed(old(data), Reading(states, forwardEntity), Reading(states, reverseEntity))
      ensures accF == TotalBuy(data) && accR == TotalSell(data)
      ensures csvPath == old(csvPath) && state == old(state)
    {
      var f := Reading(states, forwardEntity);
      var r := Reading(states, reverseEntity);
      if data.forward.None? || f > data.forward.value {
        data := data.(forward := Some(f));
      }
      if data.reverse.None? || r > data.reverse.value {
        data := data.(reverse := Some(r));
      }
      accF := data.forward.GetOr(0.0);
      accR := data.reverse.GetOr(0.0);
    }

    /** `_write_csv_row_sync` for the ledger at `csvPath`. */
    method WriteCsvRow(t: DateTime, files: Files) returns (out: Files)
      ensures out == LogRow(files, csvPath, t, state)
    {
      var row := Ledger.RowText(t, AmountsOf(state));
      var lines := LinesOf(files, csvPath);
      var written := Ledger.WriteRow(lines, row, Ledger.CsvHeader);
      out := files[csvPath := written];
    }

    /** The three rollover checks of `async_update`. */
    method RollOver(t: DateTime, accF: real, accR: real)
      modifies this
      ensures data == RolledOver(old(data), t, accF, accR)
      ensures csvPath == old(csvPath) && state == old(state)
    {
      var dateStr, monthStr, yearStr := DateKey(t), MonthKey(t), YearKey(t);
      if data.day.key != Some(dateStr) || data.day.fBase.None? {
        data := data.(day := Period(Some(dateStr), Some(data.day.fBase.GetOr(accF)),
                                    Some(data.day.rBase.GetOr(accR))));
      }
      if data.month.key != Some(monthStr) || data.month.fBase.None? {
        data := data.(month := Period(Some(monthStr), Some(data.month.fBase.GetOr(accF)),
                                      Some(data.month.rBase.GetOr(accR))));
      }
      if data.year.key != Some(yearStr) || data.year.fBase.None? {
        data := data.(year := Period(Some(yearStr), Some(data.year.fBase.GetOr(accF)),
                                     Some(data.year.rBase.GetOr(accR))));
      }
    }

    /** The consumption, the cost split and the state update of `async_update`. */
    method ComputeState(t: DateTime, accF: real, accR: real)
      requires accF == TotalBuy(data) && accR == TotalSell(data)
      modifies this
      ensures state == Publish(data, t)
      ensures data == old(data) && csvPath == old(csvPath)
    {
      var u := Usage(Max(accF - data.day.fBase.GetOr(0.0), 0.0),
                     Max(accF - data.month.fBase.GetOr(0.0), 0.0),
                     Max(accF - data.year.fBase.GetOr(0.0), 0.0),
                     Max(accR - data.day.rBase.GetOr(0.0), 0.0),
                     Max(accR - data.month.rBase.GetOr(0.0), 0.0),
                     Max(accR - data.year.rBase.GetOr(0.0), 0.0));
      var costMonth := CostK(EvnTiers, u.buyMonth);
      var mtd := Max(data.day.fBase.GetOr(0.0) - data.month.fBase.GetOr(0.0), 0.0);
      var costMtd := CostK(EvnTiers, mtd);
      var costDay := Max(costMonth - costMtd, 0.0);
      var past := PastMonthsCost(data.months);
      var bill := Bill(costDay, costMonth, past + costMonth, (u.sellDay * SellPrice) / 1000.0,
                       (u.sellMonth * SellPrice) / 1000.0, (u.sellYear * SellPrice) / 1000.0);
      assert u == UsageOf(data);
      assert bill == BillOf(data, u) by {
        assert costMonth == Cost(u.buyMonth);
        assert mtd == MonthToDateAtMidnight(data);
      }
      state := Snapshot(accF, accR, u, RoundBill(bill), Some(t));
    }

    /** `async_update` at time `t`: refresh, switch to the year's ledger, roll the
        periods over, compute and publish, then log. */
    method Update(states: States, t: DateTime, files: Files) returns (out: Files)
      modifies this
      ensures data == Tick(old(data), Reading(states, forwardEntity), Reading(states, reverseEntity), t)
      ensures state == Publish(data, t)
      ensures csvPath == YearFile(old(csvPath), t)
      ensures out == LogRow(if csvPath != old(csvPath) then EnsureCsv(files, csvPath) else files,
                            csvPath, t, state)
    {
      var accF, accR := RefreshAccepted(states);
      var f1 := files;
      var desired := PathJoin(Dirname(csvPath), YearKey(t) + ".csv");
      if desired != csvPath {
        csvPath := desired;
        f1 := EnsureCsv(f1, csvPath);
      }

      RollOver(t, accF, accR);
      ComputeState(t, accF, accR);
      out := WriteCsvRow(t, f1);
    }

    /** The six base assignments of `_apply_one_shot`. */
    method Recalibrate(values: map<string, Raw>, accF: real, accR: real)
      modifies this
      ensures data == Recalibrated(old(data), accF, accR, values)
      ensures csvPath == old(csvPath) && state == old(state)
    {
      var day := RebasePeriod(data.day, BaseFrom(accF, Lookup(values, OptBuyDay)),
                              BaseFrom(accR, Lookup(values, OptSellDay)));
      var month := RebasePeriod(data.month, BaseFrom(accF, Lookup(values, OptBuyMonth)),
                                BaseFrom(accR, Lookup(values, OptSellMonth)));
      var year := RebasePeriod(data.year, BaseFrom(accF, Lookup(values, OptBuyYear)),
                               BaseFrom(accR, Lookup(values, OptSellYear)));
      data := data.(day := day, month := month, year := year);
    }

    /** `_apply_one_shot`: nothing for an empty form; otherwise refresh, rewrite the
        bases that were entered, and update. */
    method ApplyOneShot(values: map<string, Raw>, states: States, t: DateTime, files: Files)
      returns (out: Files)
      modifies this
      ensures values == map[] ==>
        data == old(data) && state == old(state) && csvPath == old(csvPath) && out == files
      ensures values != map[] ==>
        var s1 := Refreshed(old(data), Reading(states, forwardEntity), Reading(states, reverseEntity));
        var s2 := Recalibrated(s1, TotalBuy(s1), TotalSell(s1), values);
        data == Tick(s2, Reading(states, forwardEntity), Reading(states, reverseEntity), t)
        && state == Publish(data, t) && csvPath == YearFile(old(csvPath), t)
        && out == LogRow(if csvPath != old(csvPath) then EnsureCsv(files, csvPath) else files,
                         csvPath, t, state)
    {
      if values == map[] {
        return files;
      }
      var accF, accR := RefreshAccepted(states);
      Recalibrate(values, accF, accR);
      out := Update(states, t, files);
    }
  }
}
