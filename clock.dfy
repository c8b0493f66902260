/** The local wall-clock time both integrations read once per update, and the text
    keys they derive from it: `date.isoformat()` / `%Y-%m-%d`, `%Y-%m`, `%Y`, `%H`,
    `%M:%S` and `%H:%M:%S`. */
module Clock {
  import opened Numbers
  import Text

  datatype DateTime = DateTime(year: nat, month: nat, day: nat, hour: nat, minute: nat, second: nat)
  {
    /** A calendar time with a four-digit year, the range in which `%Y` prints exactly
        four digits. */
    predicate Valid() {
      1000 <= year <= 9999 && 1 <= month <= 12 && 1 <= day <= 31
      && hour < 24 && minute < 60 && second < 60
    }
  }

  function YearKey(t: DateTime): string {
    Pad(t.year, 4)
  }

  function MonthKey(t: DateTime): string {
    YearKey(t) + "-" + Pad(t.month, 2)
  }

  function DateKey(t: DateTime): string {
    MonthKey(t) + "-" + Pad(t.day, 2)
  }

  function HourText(t: DateTime): string {
    Pad(t.hour, 2)
  }

  function MinSecText(t: DateTime): string {
    Pad(t.minute, 2) + ":" + Pad(t.second, 2)
  }

  function TimeText(t: DateTime): string {
    HourText(t) + ":" + MinSecText(t)
  }

  /** The month key is the first seven characters of the date key and the year key its
      first four, so a day always lies in the month and the year it is filed under. */
  lemma KeysNest(t: DateTime)
    ensures |YearKey(t)| == 4 && |MonthKey(t)| == 7 && |DateKey(t)| == 10
    ensures DateKey(t)[..7] == MonthKey(t) && MonthKey(t)[..4] == YearKey(t)
  {
  }

  lemma Pad2Injective(a: nat, b: nat)
    requires a < 100 && b < 100
    ensures Pad(a, 2) == Pad(b, 2) <==> a == b
  {
    assert Pow10(2) == 100;
    if Pad(a, 2) == Pad(b, 2) { PadInjective(a, b, 2); }
  }

  lemma Pad4Injective(a: nat, b: nat)
    requires a < 10000 && b < 10000
    ensures Pad(a, 4) == Pad(b, 4) <==> a == b
  {
    assert Pow10(4) == 10000;
    if Pad(a, 4) == Pad(b, 4) { PadInjective(a, b, 4); }
  }

  /** Two valid times share a date key exactly when they fall on the same calendar day:
      the key identifies the day. */
  lemma DateKeyIdentifiesDay(a: DateTime, b: DateTime)
    requires a.Valid() && b.Valid()
    ensures DateKey(a) == DateKey(b) <==> (a.year, a.month, a.day) == (b.year, b.month, b.day)
  {
    if DateKey(a) == DateKey(b) {
      KeysNest(a);
      KeysNest(b);
      assert YearKey(a) == DateKey(a)[..4] && YearKey(b) == DateKey(b)[..4];
      assert Pad(a.month, 2) == DateKey(a)[5..7] && Pad(b.month, 2) == DateKey(b)[5..7];
      assert Pad(a.day, 2) == DateKey(a)[8..] && Pad(b.day, 2) == DateKey(b)[8..];
      Pad4Injective(a.year, b.year);
      Pad2Injective(a.month, b.month);
      Pad2Injective(a.day, b.day);
    }
  }

  /** Two valid times share a month key exactly when they fall in the same month. */
  lemma MonthKeyIdentifiesMonth(a: DateTime, b: DateTime)
    requires a.Valid() && b.Valid()
    ensures MonthKey(a) == MonthKey(b) <==> (a.year, a.month) == (b.year, b.month)
  {
    if MonthKey(a) == MonthKey(b) {
      KeysNest(a);
      KeysNest(b);
      assert YearKey(a) == MonthKey(a)[..4] && YearKey(b) == MonthKey(b)[..4];
      assert Pad(a.month, 2) == MonthKey(a)[5..] && Pad(b.month, 2) == MonthKey(b)[5..];
      Pad4Injective(a.year, b.year);
      Pad2Injective(a.month, b.month);
    }
  }

  /** Two valid times share a date key and an hour text exactly when they fall in the
      same hour of the same day. */
  lemma HourIdentifiesHour(a: DateTime, b: DateTime)
    requires a.Valid() && b.Valid()
    ensures (DateKey(a), HourText(a)) == (DateKey(b), HourText(b))
            <==> (a.year, a.month, a.day, a.hour) == (b.year, b.month, b.day, b.hour)
  {
    DateKeyIdentifiesDay(a, b);
    Pad2Injective(a.hour, b.hour);
  }

  /** Comparing `x1-y1` with `x2-y2` when `x1` and `x2` have the same length. */
  lemma LessDash(x1: string, y1: string, x2: string, y2: string)
    requires |x1| == |x2|
    ensures Text.Less(x1 + "-" + y1, x2 + "-" + y2)
            <==> Text.Less(x1, x2) || (x1 == x2 && Text.Less(y1, y2))
  {
    Text.LessConcat(x1 + "-", y1, x2 + "-", y2);
    Text.LessConcat(x1, "-", x2, "-");
    Text.LessIrreflexive("-");
    if x1 + "-" == x2 + "-" {
      assert x1 == (x1 + "-")[..|x1|] && x2 == (x2 + "-")[..|x2|];
    }
  }

  lemma MonthKeyOrder(a: DateTime, b: DateTime)
    requires a.Valid() && b.Valid()
    ensures Text.Less(MonthKey(a), MonthKey(b))
            <==> a.year < b.year || (a.year == b.year && a.month < b.month)
  {
    assert Pow10(2) == 100 && Pow10(4) == 10000;
    LessDash(YearKey(a), Pad(a.month, 2), YearKey(b), Pad(b.month, 2));
    PadLess(a.year, b.year, 4);
    PadLess(a.month, b.month, 2);
    Pad4Injective(a.year, b.year);
  }

  /** Python's string order on date keys is the calendar order of the days, so sorting
      the keys newest first sorts the days newest first. */
  lemma DateKeyOrder(a: DateTime, b: DateTime)
    requires a.Valid() && b.Valid()
    ensures Text.Less(DateKey(a), DateKey(b))
            <==> a.year < b.year || (a.year == b.year && (a.month < b.month
                 || (a.month == b.month && a.day < b.day)))
  {
    assert Pow10(2) == 100;
    KeysNest(a);
    KeysNest(b);
    LessDash(MonthKey(a), Pad(a.day, 2), MonthKey(b), Pad(b.day, 2));
    MonthKeyOrder(a, b);
    MonthKeyIdentifiesMonth(a, b);
    PadLess(a.day, b.day, 2);
  }

  /** Keys and times are made of digits, `-` and `:` only. */
  predicate Clean(s: string) {
    forall i :: 0 <= i < |s| ==> IsDigit(s[i]) || s[i] == '-' || s[i] == ':'
  }

  lemma KeysClean(t: DateTime)
    ensures Clean(DateKey(t)) && Clean(HourText(t)) && Clean(MinSecText(t)) && Clean(TimeText(t))
    ensures |HourText(t)| == 2 && |TimeText(t)| == 8
  {
  }
}
