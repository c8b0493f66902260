/** The plain integration: per-period baselines of the two meter totals (energy bought from
    and sold to the grid), seeds that fix a period's value, the values published for the
    day, month and year, and the day's row handed to the yearly CSV writer. */
module Plain {
  import opened Wrappers
  import opened Numbers
  import opened Clock
  import opened Paths
  import opened Writer

  /** Entity id to state text, as the state machine holds them. */
  type States = map<string, string>

  /** The text states of `UNKNOWN_STATES`; its `None` is a missing state. */
  predicate IsUnknown(s: string) {
    s == "unknown" || s == "unavailable" || s == ""
  }

  /** An entity option that names an entity: neither `None` nor empty. */
  predicate Configured(entity: Option<string>) {
    entity.Some? && entity.value != ""
  }

  /** `_to_float`: the state of the configured entity as a number, or `None`. */
  function ToFloat(states: States, entity: Option<string>): (r: Option<real>)
    ensures r.Some? ==> Configured(entity) && entity.value in states
  {
    if !Configured(entity) then None
    else if entity.value !in states || IsUnknown(states[entity.value]) then None
    else ParseFloat(states[entity.value])
  }

  /** A reading exists exactly when an entity is configured, has a state and that state
      parses; the reading is then the parsed state. */
  lemma ToFloatSpec(states: States, entity: Option<string>)
    ensures ToFloat(states, entity).Some?
            <==> Configured(entity) && entity.value in states && ParseFloat(states[entity.value]).Some?
    ensures ToFloat(states, entity).Some? ==> ToFloat(states, entity) == ParseFloat(states[entity.value])
  {
    SentinelsDoNotParse();
  }

  /** `_diff`: what a total gained over its base, never below zero. */
  function Diff(total: Option<real>, base: Option<real>): (r: Option<real>)
    ensures r.None? <==> total.None? || base.None?
    ensures r.Some? ==> r.value >= 0.0 && r.value >= total.value - base.value
    ensures r.Some? && r.value > 0.0 ==> r.value == total.value - base.value
  {
    if total.None? || base.None? then None
    else
      var v := total.value - base.value;
      Some(if v > 0.0 then v else 0.0)
  }

  /** `_pick_seed`: the seed entity's reading, else `float` of the literal option. */
  function PickSeed(states: States, entity: Option<string>, num: Raw): Option<real> {
    var v := ToFloat(states, entity);
    if v.Some? then v else RawFloat(num)
  }

  /** A readable seed entity wins; without one the literal decides, and a missing or
      unparseable literal gives no seed. */
  lemma PickSeedSpec(states: States, entity: Option<string>, num: Raw)
    ensures Configured(entity) && entity.value in states && ParseFloat(states[entity.value]).Some?
            ==> PickSeed(states, entity, num) == ParseFloat(states[entity.value])
    ensures !(Configured(entity) && entity.value in states && ParseFloat(states[entity.value]).Some?)
            ==> PickSeed(states, entity, num) == RawFloat(num)
  {
    ToFloatSpec(states, entity);
  }

  datatype Kind = Buy | Sell

  datatype Period = Day | Month | Year

  /** The key a period is stored under: `%Y-%m-%d`, `%Y-%m` or `%Y`. */
  function PeriodKey(t: DateTime, p: Period): string {
    match p
    case Day => DateKey(t)
    case Month => MonthKey(t)
    case Year => YearKey(t)
  }

  /** One period of `baseline[kind]`: the total the period started from, and the key
      (`date`, `ym` or `y`) of the period it belongs to. */
  datatype Slot = Slot(base: Option<real>, key: Option<string>)

  /** `baseline[kind]`. */
  datatype Baseline = Baseline(day: Slot, month: Slot, year: Slot) {
    function Get(p: Period): Slot {
      match p
      case Day => day
      case Month => month
      case Year => year
    }

    function Set(p: Period, s: Slot): (b: Baseline)
      ensures b.Get(p) == s
      ensures forall q :: q != p ==> b.Get(q) == Get(q)
    {
      match p
      case Day => this.(day := s)
      case Month => this.(month := s)
      case Year => this.(year := s)
    }
  }

  /** The baseline of a fresh entry: no base and no key in any period. */
  const Unset := Baseline(Slot(None, None), Slot(None, None), Slot(None, None))

  /** `_ensure_period_keys`: every period takes now's key and keeps its base. */
  function WithKeys(b: Baseline, t: DateTime): (r: Baseline)
    ensures forall p :: r.Get(p) == Slot(b.Get(p).base, Some(PeriodKey(t, p)))
  {
    Baseline(b.day.(key := Some(DateKey(t))), b.month.(key := Some(MonthKey(t))),
             b.year.(key := Some(YearKey(t))))
  }

  /** One period of `_ensure_baseline_rollover`. */
  function RollSlot(s: Slot, key: string, total: real): Slot {
    if s.key != Some(key) || s.base.None? then Slot(Some(total), Some(key)) else s
  }

  /** `_ensure_baseline_rollover` on `baseline[kind]`. */
  function RolledOver(b: Baseline, t: DateTime, total: Option<real>): Baseline {
    if total.None? then b
    else Baseline(RollSlot(b.day, DateKey(t), total.value),
                  RollSlot(b.month, MonthKey(t), total.value),
                  RollSlot(b.year, YearKey(t), total.value))
  }

  /** Without a total the baseline stays as it is. With one, a period whose key is not
      now's or that has no base restarts at the total under now's key; any other period
      is left alone. */
  lemma RolloverSpec(b: Baseline, t: DateTime, total: Option<real>, p: Period)
    ensures total.None? ==> RolledOver(b, t, total) == b
    ensures total.Some? && (b.Get(p).key != Some(PeriodKey(t, p)) || b.Get(p).base.None?)
            ==> RolledOver(b, t, total).Get(p) == Slot(total, Some(PeriodKey(t, p)))
    ensures total.Some? && b.Get(p).key == Some(PeriodKey(t, p)) && b.Get(p).base.Some?
            ==> RolledOver(b, t, total).Get(p) == b.Get(p)
  {
    match p
    case Day =>
    case Month =>
    case Year =>
  }

  /** After a rollover with a total, every period holds a base under now's key. */
  lemma RolloverReady(b: Baseline, t: DateTime, total: Option<real>, p: Period)
    requires total.Some?
    ensures RolledOver(b, t, total).Get(p).key == Some(PeriodKey(t, p))
    ensures RolledOver(b, t, total).Get(p).base.Some?
  {
    RolloverSpec(b, t, total, p);
  }

  /** Within one period the first total fixes the bases: later rollovers, with any total,
      change nothing, so in particular a rollover is idempotent. */
  lemma RolloverStable(b: Baseline, t: DateTime, x: Option<real>, y: Option<real>)
    requires x.Some?
    ensures RolledOver(RolledOver(b, t, x), t, y) == RolledOver(b, t, x)
  {
    var r := RolledOver(b, t, x);
    forall p: Period
      ensures RolledOver(r, t, y).Get(p) == r.Get(p)
    {
      RolloverReady(b, t, x, p);
      RolloverSpec(r, t, y, p);
    }
    assert RolledOver(r, t, y).day == r.day;
    assert RolledOver(r, t, y).month == r.month;
    assert RolledOver(r, t, y).year == r.year;
  }

  /** `_apply_seed(kind, period, total, seed)` on `baseline[kind]`. */
  function Seeded(b: Baseline, t: DateTime, p: Period, total: Option<real>, seed: Option<real>): Baseline {
    if total.None? || seed.None? then b
    else WithKeys(b, t).Set(p, Slot(Some(total.value - seed.value), Some(PeriodKey(t, p))))
  }

  /** Without a total or a seed nothing changes. Otherwise all three periods take now's
      key, the seeded period's base becomes `total - seed` (no floor) and the other
      periods keep their bases. */
  lemma SeededSpec(b: Baseline, t: DateTime, p: Period, total: Option<real>, seed: Option<real>)
    ensures total.None? || seed.None? ==> Seeded(b, t, p, total, seed) == b
    ensures total.Some? && seed.Some? ==>
              Seeded(b, t, p, total, seed).Get(p) == Slot(Some(total.value - seed.value), Some(PeriodKey(t, p)))
    ensures total.Some? && seed.Some? ==>
              forall q :: q != p ==> Seeded(b, t, p, total, seed).Get(q) == Slot(b.Get(q).base, Some(PeriodKey(t, q)))
  {
  }

  /** With the total unchanged, a seeded period's value is the seed, or zero for a seed
      that is not positive. */
  lemma SeedThenDiff(b: Baseline, t: DateTime, p: Period, x: real, s: real)
    ensures Diff(Some(x), Seeded(b, t, p, Some(x), Some(s)).Get(p).base) == Some(if s > 0.0 then s else 0.0)
  {
    SeededSpec(b, t, p, Some(x), Some(s));
    assert x - (x - s) == s;
  }

  /** One value per period: the published values, or the three seeds of a kind. */
  datatype Values = Values(day: Option<real>, month: Option<real>, year: Option<real>) {
    function Get(p: Period): Option<real> {
      match p
      case Day => day
      case Month => month
      case Year => year
    }
  }

  /** What the runtime publishes before the first job. */
  const NoValues := Values(None, None, None)

  /** The options of one seed: `seed_<kind>_<period>_entity` and the literal
      `seed_<kind>_<period>`; an absent literal is `Null`. */
  datatype SeedOption = SeedOption(entity: Option<string>, literal: Raw)

  datatype SeedOptions = SeedOptions(day: SeedOption, month: SeedOption, year: SeedOption)

  /** The options a job reads, defaults already applied. */
  datatype Options = Options(outputDir: string, round: nat, buySeeds: SeedOptions, sellSeeds: SeedOptions)

  /** The three seeds of a kind, each picked by `_pick_seed`. */
  function Picks(states: States, o: SeedOptions): Values {
    Values(PickSeed(states, o.day.entity, o.day.literal),
           PickSeed(states, o.month.entity, o.month.literal),
           PickSeed(states, o.year.entity, o.year.literal))
  }

  /** A kind's baseline after a job: the rollover, then the day, month and year seeds. */
  function Settled(b: Baseline, t: DateTime, total: Option<real>, seeds: Values): Baseline {
    Seeded(Seeded(Seeded(RolledOver(b, t, total), t, Day, total, seeds.day),
                  t, Month, total, seeds.month),
           t, Year, total, seeds.year)
  }

  /** `buy_vals` / `sell_vals`: each period's `_diff` against its base. */
  function Published(total: Option<real>, b: Baseline): Values {
    Values(Diff(total, b.day.base), Diff(total, b.month.base), Diff(total, b.year.base))
  }

  /** The three seeds never disturb each other's bases: a seeded period's base is
      `total - seed`, an unseeded one keeps the base the rollover gave it; and every
      period ends under now's key. Without a total the job leaves the baseline alone. */
  lemma SettledSpec(b: Baseline, t: DateTime, total: Option<real>, seeds: Values, p: Period)
    ensures total.None? ==> Settled(b, t, total, seeds) == b
    ensures total.Some? ==> Settled(b, t, total, seeds).Get(p).key == Some(PeriodKey(t, p))
    ensures total.Some? && seeds.Get(p).Some?
            ==> Settled(b, t, total, seeds).Get(p).base == Some(total.value - seeds.Get(p).value)
    ensures total.Some? && seeds.Get(p).None?
            ==> Settled(b, t, total, seeds).Get(p).base == RolledOver(b, t, total).Get(p).base
  {
    if total.Some? {
      var r := RolledOver(b, t, total);
      var s1 := Seeded(r, t, Day, total, seeds.day);
      var s2 := Seeded(s1, t, Month, total, seeds.month);
      RolloverReady(b, t, total, p);
      SeededSpec(r, t, Day, total, seeds.day);
      SeededSpec(s1, t, Month, total, seeds.month);
      SeededSpec(s2, t, Year, total, seeds.year);
    }
  }

  /** What a job publishes for one kind. Without a total, nothing; with one, a value for
      every period, never negative: the seed (or zero) for a seeded period, zero for a
      period that has just begun, and the gain since the stored base for a period that
      continues. */
  lemma PublishedSpec(b: Baseline, t: DateTime, total: Option<real>, seeds: Values, p: Period)
    ensures var v := Published(total, Settled(b, t, total, seeds)).Get(p);
            (total.None? <==> v.None?)
            && (v.Some? ==> v.value >= 0.0)
            && (total.Some? && seeds.Get(p).Some?
                ==> v == Some(if seeds.Get(p).value > 0.0 then seeds.Get(p).value else 0.0))
            && (total.Some? && seeds.Get(p).None?
                && (b.Get(p).key != Some(PeriodKey(t, p)) || b.Get(p).base.None?)
                ==> v == Some(0.0))
            && (total.Some? && seeds.Get(p).None?
                && b.Get(p).key == Some(PeriodKey(t, p)) && b.Get(p).base.Some?
                ==> v == Diff(total, b.Get(p).base))
  {
    var s := Settled(b, t, total, seeds);
    SettledSpec(b, t, total, seeds, p);
    RolloverSpec(b, t, total, p);
    if total.Some? {
      RolloverReady(b, t, total, p);
      assert Published(total, s).Get(p) == Diff(total, s.Get(p).base) by {
        match p
        case Day =>
        case Month =>
        case Year =>
      }
      if seeds.Get(p).Some? {
        var x, k := total.value, seeds.Get(p).value;
        assert x - (x - k) == k;
      }
    } else {
      assert Published(total, s) == NoValues;
    }
  }

  /** The writer receives a complete set of values, and so writes, exactly when both
      totals could be read. */
  lemma InputsComplete(buy: Baseline, sell: Baseline, t: DateTime,
                       tb: Option<real>, ts: Option<real>, sb: Values, ss: Values)
    ensures var pb, ps := Published(tb, Settled(buy, t, tb, sb)), Published(ts, Settled(sell, t, ts, ss));
            Inputs(tb, pb.day, pb.month, ts, ps.day, ps.month).Complete() <==> tb.Some? && ts.Some?
  {
    PublishedSpec(buy, t, tb, sb, Day);
    PublishedSpec(buy, t, tb, sb, Month);
    PublishedSpec(sell, t, ts, ss, Day);
    PublishedSpec(sell, t, ts, ss, Month);
  }

  /** One config entry of the plain integration: its `baseline` dict and the values its
      `Runtime` publishes. */
  class EntryRuntime {
    const configDir: string
    /** The forward (bought) and reverse (sold) total entities. */
    const forwardTotal: string
    const reverseTotal: string
    var buy: Baseline
    var sell: Baseline
    var roundDec: nat
    var buyValues: Values
    var sellValues: Values

    /** The baseline is the stored one, or `Unset` for both kinds; nothing is published yet. */
    constructor(configDir: string, forwardTotal: string, reverseTotal: string,
                stored: Option<(Baseline, Baseline)>, roundDec: nat)
      ensures this.configDir == configDir && this.forwardTotal == forwardTotal
      ensures this.reverseTotal == reverseTotal && this.roundDec == roundDec
      ensures stored.Some? ==> buy == stored.value.0 && sell == stored.value.1
      ensures stored.None? ==> buy == Unset && sell == Unset
      ensures buyValues == NoValues && sellValues == NoValues
    {
      this.configDir := configDir;
      this.forwardTotal := forwardTotal;
      this.reverseTotal := reverseTotal;
      this.roundDec := roundDec;
      if stored.Some? {
        buy, sell := stored.value.0, stored.value.1;
      } else {
        buy, sell := Unset, Unset;
      }
      buyValues, sellValues := NoValues, NoValues;
    }

    /** `baseline[kind]`. */
    function Of(kind: Kind): Baseline
      reads this
    {
      if kind == Buy then buy else sell
    }

    /** Store `baseline[kind]`; the other kind and the published values stay. */
    method Put(kind: Kind, b: Baseline)
      modifies this
      ensures Of(kind) == b
      ensures kind == Buy ==> sell == old(sell)
      ensures kind == Sell ==> buy == old(buy)
      ensures roundDec == old(roundDec) && buyValues == old(buyValues) && sellValues == old(sellValues)
    {
      if kind == Buy {
        buy := b;
      } else {
        sell := b;
      }
    }

    /** `_ensure_period_keys(now, kind)`. */
    method EnsurePeriodKeys(t: DateTime, kind: Kind)
      modifies this
      ensures Of(kind) == WithKeys(old(Of(kind)), t)
      ensures kind == Buy ==> sell == old(sell)
      ensures kind == Sell ==> buy == old(buy)
      ensures roundDec == old(roundDec) && buyValues == old(buyValues) && sellValues == old(sellValues)
    {
      var b := Of(kind);
      b := b.(day := b.day.(key := Some(DateKey(t))));
      b := b.(month := b.month.(key := Some(MonthKey(t))));
      b := b.(year := b.year.(key := Some(YearKey(t))));
      Put(kind, b);
    }

    /** `_ensure_baseline_rollover(now, kind, total)`. */
    method EnsureBaselineRollover(t: DateTime, kind: Kind, total: Option<real>)
      modifies this
      ensures Of(kind) == RolledOver(old(Of(kind)), t, total)
      ensures kind == Buy ==> sell == old(sell)
      ensures kind == Sell ==> buy == old(buy)
      ensures roundDec == old(roundDec) && buyValues == old(buyValues) && sellValues == old(sellValues)
    {
      if total.None? {
        return;
      }
      var b := Of(kind);
      if b.day.key != Some(DateKey(t)) || b.day.base.None? {
        b := b.(day := Slot(total, Some(DateKey(t))));
      }
      if b.month.key != Some(MonthKey(t)) || b.month.base.None? {
        b := b.(month := Slot(total, Some(MonthKey(t))));
      }
      if b.year.key != Some(YearKey(t)) || b.year.base.None? {
        b := b.(year := Slot(total, Some(YearKey(t))));
      }
      Put(kind, b);
    }

    /** `_apply_seed(kind, period, total, seed)`. */
    method ApplySeed(t: DateTime, kind: Kind, p: Period, total: Option<real>, seed: Option<real>)
      modifies this
      ensures Of(kind) == Seeded(old(Of(kind)), t, p, total, seed)
      ensures kind == Buy ==> sell == old(sell)
      ensures kind == Sell ==> buy == old(buy)
      ensures roundDec == old(roundDec) && buyValues == old(buyValues) && sellValues == old(sellValues)
    {
      if total.None? || seed.None? {
        return;
      }
      EnsurePeriodKeys(t, kind);
      var b := Of(kind);
      Put(kind, b.Set(p, b.Get(p).(base := Some(total.value - seed.value))));
    }

    /** `_job`: read both totals, roll both baselines over, apply the six seeds, publish
        each period's value and upsert today's row into the year file. */
    method Job(states: States, opts: Options, t: DateTime, files: Files)
      returns (writer: CsvDailyYearWriter, out: Files)
      modifies this
      ensures roundDec == opts.round
      ensures buy == Settled(old(buy), t, ToFloat(states, Some(forwardTotal)), Picks(states, opts.buySeeds))
      ensures sell == Settled(old(sell), t, ToFloat(states, Some(reverseTotal)), Picks(states, opts.sellSeeds))
      ensures buyValues == Published(ToFloat(states, Some(forwardTotal)), buy)
      ensures sellValues == Published(ToFloat(states, Some(reverseTotal)), sell)
      ensures fresh(writer) && writer.baseDir == PathJoin(configDir, opts.outputDir) && writer.round == opts.round
      ensures out == writer.Upserted(files, t, Inputs(ToFloat(states, Some(forwardTotal)), buyValues.day, buyValues.month,
                                                      ToFloat(states, Some(reverseTotal)), sellValues.day, sellValues.month))
    {
      roundDec := opts.round;
      var tb := ToFloat(states, Some(forwardTotal));
      var ts := ToFloat(states, Some(reverseTotal));

      EnsureBaselineRollover(t, Buy, tb);
      EnsureBaselineRollover(t, Sell, ts);

      var sbD := PickSeed(states, opts.buySeeds.day.entity, opts.buySeeds.day.literal);
      var sbM := PickSeed(states, opts.buySeeds.month.entity, opts.buySeeds.month.literal);
      var sbY := PickSeed(states, opts.buySeeds.year.entity, opts.buySeeds.year.literal);
      var ssD := PickSeed(states, opts.sellSeeds.day.entity, opts.sellSeeds.day.literal);
      var ssM := PickSeed(states, opts.sellSeeds.month.entity, opts.sellSeeds.month.literal);
      var ssY := PickSeed(states, opts.sellSeeds.year.entity, opts.sellSeeds.year.literal);

      ApplySeed(t, Buy, Day, tb, sbD);
      ApplySeed(t, Buy, Month, tb, sbM);
      ApplySeed(t, Buy, Year, tb, sbY);
      ApplySeed(t, Sell, Day, ts, ssD);
      ApplySeed(t, Sell, Month, ts, ssM);
      ApplySeed(t, Sell, Year, ts, ssY);

      var buyVals := Values(Diff(tb, buy.day.base), Diff(tb, buy.month.base), Diff(tb, buy.year.base));
      var sellVals := Values(Diff(ts, sell.day.base), Diff(ts, sell.month.base), Diff(ts, sell.year.base));
      buyValues, sellValues := buyVals, sellVals;

      writer := new CsvDailyYearWriter(configDir, opts.outputDir, opts.round);
      out := writer.UpsertToday(files, t, Inputs(tb, buyVals.day, buyVals.month, ts, sellVals.day, sellVals.month));
    }
  }
}
