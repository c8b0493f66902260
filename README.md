# EVN energy accounting, modelled in Dafny

The model covers the accounting core of the two Home Assistant integrations in this
repository. Both turn the two ever-growing meter totals of a household (energy bought from
the grid, energy sold to it) into day, month and year figures by subtracting stored baselines.

- **The tiered variant** (`custom_components/__init__.py`) has a few more jobs:
  - it accepts only readings that do not go down;
  - it rolls the day, month and year baselines over;
  - it prices purchases through the six EVN tariff blocks with VAT;
  - it lets one-shot entries recalibrate the bases;
  - it keeps an hourly `|`-separated ledger.
- **The plain variant** (`custom_components/evn/__init__.py` and `custom_components/evn/writer.py`) works differently:
  - it keeps per-kind, per-period baselines together with the key of their period;
  - it lets configured seeds fix a period's value;
  - it publishes each period's gain, clamped at zero;
  - it upserts one comma-separated line per day into a yearly file, newest day first.

The files:

| file | contents |
|---|---|
| `wrappers.dfy` | `Option`, Python's `None`-or-value |
| `text.dfy` | `strip` and `split`/`join` on one separator, Python's string order, the descending sort of a key set |
| `numbers.dfy` | digits, `float(text)`, `round(x, n)` (half-even), `repr` of a float and `:.{n}f` |
| `clock.dfy` | the date, month, year, hour and time texts of a local time |
| `paths.dfy` | POSIX `os.path.dirname` and `os.path.join` |
| `tariff.dfy` | the table of blocks and `_cost_K` |
| `ledger.dfy` | the tiered variant's `_write_csv_row_sync` |
| `tiered.dfy` | `DJRuntime` and `_apply_one_shot` |
| `writer.dfy` | `CsvDailyYearWriter` |
| `plain.dfy` | the baselines, seeds and `_job` of the plain variant |

How the model treats the world:

- **Mutation.** Where the source mutates, the model does too, in classes with `modifies` clauses:
  - `DJRuntime.data` and `DJRuntime.state`;
  - the plain variant's `baseline` dict and `Runtime.values`;
  - the loops of `_cost_K`, `_write_csv_row_sync`, the reader and the writer.

  Each method is proved equal to a pure function of the old state, and the properties are lemmas about those functions.
- **The file system** is a map from path to lines without terminators. It goes into and comes out of the methods that read or write files.
- **Sensor states** are a map from entity id to state text.
- **The clock** is a `DateTime` parameter.

## Model

| member | source | states |
|---|---|---|
| Tiered.ReadingSpec | custom_components/__init__.py:247-252 | a reading is the parsed state when the entity exists and its state parses, and 0.0 in every other case |
| Tiered.Accept | custom_components/__init__.py:255-259 | the accepted total is at least the reading and at least the previous one, and is one of the two |
| Tiered.AcceptIdempotent | custom_components/__init__.py:255-259 | accepting the same reading twice is accepting it once |
| Tiered.InvalidReadingKeepsTotal | custom_components/__init__.py:247-259 | a missing, sentinel or unparseable reading never lowers a non-negative accepted total |
| Tiered.RefreshMonotone | custom_components/__init__.py:246-260 | refreshing never lowers an accepted total and leaves each total at least the new reading |
| Tiered.DJRuntime.constructor | custom_components/__init__.py:153-171 | the runtime starts from the stored data with a zero snapshot |
| Tiered.DJRuntime.RefreshAccepted | custom_components/__init__.py:246-260 | the stored totals become the refreshed ones, and the returned pair is them with None read as 0.0 |
| Tiered.RollResult | custom_components/__init__.py:191-207 | after a rollover the period carries now's key; a base that existed survives, and a missing forward base becomes the accepted total; on a new key a missing reverse base becomes the accepted total, and on the same key with a forward base nothing changes |
| Tiered.RollIdempotent | custom_components/__init__.py:191-207 | a second rollover in the same period changes nothing, whatever the totals |
| Tiered.DJRuntime.RollOver | custom_components/__init__.py:191-207 | the three period records become their rollover |
| Tiered.StaleBaseAcrossDays | custom_components/__init__.py:191-194 | when a day base is present, a day change keeps it, so the first figure of a new day is measured from the old base |
| Tiered.Consumption | custom_components/__init__.py:209-215 | `max(acc - (base or 0), 0)` is never negative, is at least the difference, and is either 0 or that difference |
| Tiered.UsageNonNegative | custom_components/__init__.py:209-215 | none of the six consumption figures is ever negative |
| Tiered.TickSameDayStable | custom_components/__init__.py:178-207 | a second update on the same day with the same readings leaves the stored data unchanged |
| Tiered.UsageGrowsWithinDay | custom_components/__init__.py:178-215 | within a day every consumption figure only grows from one update to the next |
| Tariff.CostK | custom_components/__init__.py:262-272 | the loop over the blocks computes the tiered cost of `max(kwh, 0)`, VAT included, in thousands |
| Tariff.EvnTiersWellFormed | custom_components/evn/const.py:38-45 | every block of the table has a positive size and a non-negative price |
| Tariff.CostNonNegative | custom_components/__init__.py:262-272 | a cost is never negative |
| Tariff.CostMonotone | custom_components/__init__.py:262-272 | more energy never costs less |
| Tariff.CostIsSchedule | custom_components/__init__.py:262-272 | the cost is the block-by-block schedule (1984, 2050, 2380, 2998, 3350, 3460 đ/kWh) of `max(kwh, 0)`, times 1.08 over 1000 |
| Tariff.CostReferencePoints | custom_components/__init__.py:262-272 | cost(0) = 0, cost(50) = 50·1984·1.08/1000, cost(100) = (50·1984 + 50·2050)·1.08/1000 |
| Tariff.Revenue | custom_components/__init__.py:225-227 | revenue times 1000 is the energy times the selling price, and it is non-negative for non-negative energy |
| Tiered.SumCostNonNegative | custom_components/__init__.py:221-222 | the past months' cost is never negative |
| Tiered.PastMonthsCost | custom_components/__init__.py:221-222 | the loop sums the cost of every stored month |
| Tiered.BillSplit | custom_components/__init__.py:217-223 | the day cost is never negative; it is `cost(month) - cost(month-to-date at midnight)` when that is no larger than the month; the year cost is at least the month cost |
| Tiered.BillNonNegative | custom_components/__init__.py:217-227 | for non-negative usage every cost and revenue is non-negative |
| Tiered.PublishedRounding | custom_components/__init__.py:232-237 | a published amount is within 0.05 of the exact one |
| Tiered.DJRuntime.ComputeState | custom_components/__init__.py:209-239 | the published snapshot holds the totals, the usage, the bill rounded to one decimal and the update time |
| Tiered.YearFileStable | custom_components/__init__.py:186-189 | the year's ledger lies next to the current one, and switching to it again is no switch |
| Tiered.DJRuntime.Update | custom_components/__init__.py:178-243 | an update refreshes, rolls over, publishes, creates the year's ledger when the path changes, and logs the row |
| Tiered.DJRuntime.WriteCsvRow | custom_components/__init__.py:282-314 | the ledger file becomes the file after writing the row for the current snapshot |
| Tiered.BaseFromNone | custom_components/__init__.py:75-81 | an entry gives no base exactly when it is missing, empty or does not convert |
| Tiered.OneShotReadsBack | custom_components/__init__.py:75-82 | with a non-negative total, consumption from the new base is the entered amount (floored at 0), capped by the total |
| Tiered.RecalibrationLocal | custom_components/__init__.py:84-97 | recalibration changes only bases; each of the six entries that does not convert leaves its own base untouched |
| Tiered.OneShotThenUpdate | custom_components/__init__.py:70-100 | entering today's bought kWh and updating with unchanged readings publishes exactly that amount (floored at 0, capped by the total) |
| Tiered.RebasePeriod | custom_components/__init__.py:86-97 | a period takes each new base that came out and keeps the other |
| Tiered.DJRuntime.Recalibrate | custom_components/__init__.py:84-97 | the stored data becomes its recalibration by the entered values |
| Tiered.DJRuntime.ApplyOneShot | custom_components/__init__.py:70-100 | an empty form changes nothing; otherwise the bases are recalibrated from refreshed totals, followed by an update that publishes, moves to the year's ledger and logs the row into the returned files |
| Ledger.LastDataIndex | custom_components/__init__.py:299-301 | the backward scan stops at the last line that is not blank or the header, having stepped over only such lines |
| Ledger.WriteRow | custom_components/__init__.py:290-314 | the loop and branches produce the replace-or-append result |
| Ledger.WriteShape | custom_components/__init__.py:290-314 | a new file becomes the header plus the row; otherwise the row is appended, or the last data line (past the first line, with the same key) is replaced; the line count grows by at most one |
| Ledger.ReplaceWhenSameKey | custom_components/__init__.py:305-314 | past the header, the length stays exactly when the last data line has the row's key |
| Ledger.LastDataIndexSkips | custom_components/__init__.py:299-301 | the scan finds the first data line below trailing filler |
| Ledger.WriteEndsWithRow | custom_components/__init__.py:294-314 | after a write the last data line is the row, past the first line |
| Ledger.SameKeyOverwrites | custom_components/__init__.py:305-312 | two writes with the same key leave the file as the second alone would |
| Ledger.WriteIdempotent | custom_components/__init__.py:305-312 | writing the same row twice is writing it once |
| Ledger.OtherKeyAppends | custom_components/__init__.py:313-314 | a row with a different key is appended after a written row |
| Ledger.RowKey | custom_components/__init__.py:283-288 | the key of a written row is its date and hour |
| Ledger.RowFields | custom_components/__init__.py:283-288 | a written row splits back into its eleven fields |
| Ledger.RowTextWritable | custom_components/__init__.py:283-288 | every written row is neither blank nor the header, is already stripped, and has a non-empty key |
| Ledger.SameKeyIffSameHour | custom_components/__init__.py:306-310 | two rows share a key exactly when they fall in the same hour of the same day |
| Plain.ToFloat | custom_components/evn/__init__.py:28-37 | a reading exists only for a configured entity that has a state |
| Plain.ToFloatSpec | custom_components/evn/__init__.py:28-37 | a reading exists exactly when an entity is configured, has a state and that state parses, and it is then the parsed state |
| Plain.Diff | custom_components/evn/__init__.py:111-115 | None exactly when the total or the base is None; otherwise non-negative, at least `total - base`, and equal to it when positive |
| Plain.PickSeedSpec | custom_components/evn/__init__.py:117-124 | a readable seed entity wins; otherwise the seed is `float` of the literal, and nothing when it is missing or unparseable |
| Plain.WithKeys | custom_components/evn/__init__.py:87-93 | every period takes now's key and keeps its base |
| Plain.RolloverSpec | custom_components/evn/__init__.py:95-109 | a None total leaves the baseline as it is; with a total, a period with another key or no base restarts at the total under now's key, and any other period is unchanged |
| Plain.RolloverReady | custom_components/evn/__init__.py:101-109 | after a rollover with a total, every period has a base under now's key |
| Plain.RolloverStable | custom_components/evn/__init__.py:101-109 | after a rollover with a total, later rollovers with any total change nothing, so rollover is idempotent |
| Plain.SeededSpec | custom_components/evn/__init__.py:150-154 | with no total or no seed nothing changes; otherwise all three keys become now's, the seeded base is `total - seed` without floor, and the other bases stay |
| Plain.SeedThenDiff | custom_components/evn/__init__.py:150-174 | with the total unchanged, the seeded period's value is the seed if positive, else 0.0 |
| Plain.SettledSpec | custom_components/evn/__init__.py:139-154 | after rollover and the three seeds, each period is under now's key; a seeded base is `total - seed` and an unseeded one is the rollover's; without a total nothing changes |
| Plain.PublishedSpec | custom_components/evn/__init__.py:139-174 | a value is published exactly when the total was read, and is never negative: seed or 0 for a seeded period, 0 for a period just begun, the gain since the stored base for one that continues |
| Plain.InputsComplete | custom_components/evn/__init__.py:163-189 | the writer gets six values, and so writes, exactly when both totals were read |
| Plain.EntryRuntime.constructor | custom_components/evn/__init__.py:66-76 | the baseline is the stored one or all unset, and nothing is published |
| Plain.EntryRuntime.EnsurePeriodKeys | custom_components/evn/__init__.py:87-93 | the kind's baseline takes now's keys; the other kind and the values stay |
| Plain.EntryRuntime.EnsureBaselineRollover | custom_components/evn/__init__.py:95-109 | the kind's baseline becomes its rollover; the other kind and the values stay |
| Plain.EntryRuntime.ApplySeed | custom_components/evn/__init__.py:150-154 | the kind's baseline becomes its seeded form; the other kind and the values stay |
| Plain.EntryRuntime.Job | custom_components/evn/__init__.py:126-189 | each kind's baseline is settled from its own total and seeds only; the published values are each period's `_diff`; the files are the writer's upsert of both totals with their day and month values |
| Writer.CsvDailyYearWriter.constructor | custom_components/evn/writer.py:17-20 | the base directory is the configured output dir under the config dir; round is the configured decimals |
| Writer.CsvDailyYearWriter.YearPathSpec | custom_components/evn/writer.py:23-26 | the year file lies in the base directory, and two times share a file exactly when they share a year |
| Writer.ParseValuesSpec | custom_components/evn/writer.py:72-76 | fields convert together exactly when each converts on its own |
| Writer.EntryOfSpec | custom_components/evn/writer.py:68-79 | a stripped line yields an entry exactly when it has at least seven fields and fields two to seven convert; the entry is the date, those values, and the eighth field or an empty time |
| Writer.ReadLineStep | custom_components/evn/writer.py:64-79 | a skipped line changes nothing; a read line sets its date's row, overriding an earlier row for that date |
| Writer.ReadRows | custom_components/evn/writer.py:60-80 | the reading loop builds the map of the file's lines |
| Writer.ParsedRowsClean | custom_components/evn/writer.py:64-79 | every date and time read is a comma-free stripped field and every row has six values |
| Writer.SortKeys | custom_components/evn/writer.py:86 | the dates are sorted in descending string order |
| Text.SortedDescDescending | custom_components/evn/writer.py:86 | the sorted dates are strictly descending |
| Clock.DateKeyOrder | custom_components/evn/writer.py:86 | the string order of date keys is the calendar order |
| Writer.WriteLines | custom_components/evn/writer.py:89-95 | the write loop renders each date's line in order |
| Writer.ParseRenderLine | custom_components/evn/writer.py:92-95 | a written line reads back as its date, its values on the printing grid and its `tm_out` |
| Writer.WrittenLines | custom_components/evn/writer.py:86-95 | there is one line per date, and each line reads back as its date and stored row |
| Writer.WrittenOrder | custom_components/evn/writer.py:86-95 | the written lines run through the dates strictly downwards |
| Writer.WrittenReadsBack | custom_components/evn/writer.py:60-95 | reading the written file back gives each date its stored row and no other date |
| Writer.RenderStable | custom_components/evn/writer.py:92-95 | a row read back prints the same line again |
| Writer.TodayRow | custom_components/evn/writer.py:44-52 | today's row holds the six values rounded to the configured decimals, and the current time |
| Numbers.RoundNearest | custom_components/evn/writer.py:44-49 | `round(x, n)` lies on the n-decimal grid, within half a unit of x |
| Numbers.RoundHalfEvenNearest | custom_components/evn/writer.py:44-49 | integer rounding is nearest, and even on ties |
| Numbers.RoundIdempotent | custom_components/evn/writer.py:44-49 | rounding twice is rounding once |
| Numbers.ReprParse | custom_components/evn/writer.py:95 | a printed value is plain number text that reads back as the value on the printing grid |
| Numbers.ReprStable | custom_components/evn/writer.py:95 | printing a value read back prints the same text |
| Numbers.FixedParse | custom_components/__init__.py:286 | `:.3f` text reads back as the value rounded to three decimals |
| Numbers.SentinelsDoNotParse | custom_components/__init__.py:250 | "unknown", "unavailable", "none" and "" are not numbers |
| Paths.SiblingStable | custom_components/__init__.py:186 | a file joined onto a path's directory stays in that directory, and doing so twice is doing it once |
| Writer.CsvDailyYearWriter.UpsertedRows | custom_components/evn/writer.py:60-83 | the map has the dates read plus today; today holds today's row and every other date its row as read |
| Writer.CsvDailyYearWriter.Upserted | custom_components/evn/writer.py:39-41 | a missing value leaves the files unchanged; otherwise only the year file is added or changed |
| Writer.CsvDailyYearWriter.UpsertToday | custom_components/evn/writer.py:28-98 | `upsert_today` produces the upserted files |
| Writer.CsvDailyYearWriter.UpsertOrder | custom_components/evn/writer.py:83-95 | the year file holds one line per date, newest first: today and every date it held before |
| Writer.CsvDailyYearWriter.UpsertReadBack | custom_components/evn/writer.py:60-95 | reading back after an upsert gives exactly the old dates plus today; today holds its rounded values and the current time, and every other date keeps its values and time |
| Writer.CsvDailyYearWriter.TodayReadsBackRounded | custom_components/evn/writer.py:44-49 | with at most twelve decimals, today's values read back exactly as rounded |
| Writer.CsvDailyYearWriter.UpsertIdempotent | custom_components/evn/writer.py:28-98 | two upserts with the same values at the same time give the same file as one |

## Left out

- **Home Assistant plumbing is not modelled:**
  - `async_setup_entry`, `async_unload_entry` and platform forwarding;
  - update listeners and the clearing of the options;
  - interval timers, the dispatcher and `Runtime._notify`;
  - the `Store` load and save.

  These are host plumbing and concurrency glue; the stored data enters as a constructor argument.
- **File-system operations are not modelled:**
  - `os.makedirs` and file existence tests beyond the map's keys;
  - `open`, `seek` and `truncate`;
  - the temporary file with `os.replace`;
  - `asyncio.Lock`.

  The model uses whole-file line sequences, and writes are atomic.
- **Line endings and `normpath`:**
  - a file's last line without a newline is treated like any other;
  - `os.path.normpath` is not modelled, so the tiered variant's path comparison is plain string equality.
- **Floats and other Python semantics:**
  - Numbers are exact reals; binary floating point and its rounding errors are not modelled.
  - `float(text)` accepts only optional sign, digits and a point; exponents, `inf`, `nan` and underscores are not modelled.
  - `repr` of a float is modelled as the shortest positional decimal at twelve places. Python's shortest round-trip form, scientific notation for very large or small values, and an integer value printing without `.0` are not covered.
  - `round` with a negative number of decimals is not modelled. The options' `round` is a `nat`, and `int(...)` of the option text is taken as already done.
  - `strip` and `float` remove ASCII whitespace only (space, `\t`, `\n`, `\v`, `\f`, `\r`, `\x1c`-`\x1f`); Unicode spaces such as `\x85` and `\xa0` are not modelled.
  - Numbers.Fixed: a negative amount that rounds to zero prints as `0.000`, while Python prints the signed zero `-0.000` (and `round` gives `-0.0`); the sign of zero is not modelled because reals have none.
- **Times:**
  - Years are restricted to 1000-9999, where `%Y` prints four digits.
  - The tiered variant reads the clock three times per update; the model uses one time for all three.
- **Configuration:**
  - Merging `entry.data` with `entry.options` and the defaults `DEFAULT_OUTPUT_DIR`/`DEFAULT_ROUND` are not modelled. These constants are not defined in the repository's `custom_components/evn/const.py`, so the options enter already resolved.
  - A stored baseline is assumed to be well formed.
- **Structure:**
  - The tiered `months` map is modelled as the sequence of its values, the only way it is used.
  - `Runtime.get_value`, the sensors and the config flows are not part of this model.
- **Period bases:**
  - Plain.SeedThenDiff: `total - (total - seed)` is exactly the seed on reals; with binary floats it may differ in the last bit.
  - Plain.PublishedSpec: a seed option stays in the options, so every job re-applies it and the seeded period keeps publishing the seed until the option is removed. The model states what one job does.

## Behaviour as written

Some behaviour of the code may surprise a reader; the model follows the code as written:

- **Tiered rollover.** A base that is present survives a change of period key. Only a missing base is filled from the accepted total (`custom_components/__init__.py:191-207`). `Tiered.StaleBaseAcrossDays` states the consequence.
- **Year rollover and `months`.** The year rollover keeps the `months` map, and nothing in the core writes it.
- **First accepted reading.** The first accepted reading is stored as it is, even if it is negative. Only later readings must increase.
- **Ledger de-duplication key.** The tiered ledger de-duplicates on (date, hour) only. It does not use minute and second.
