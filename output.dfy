/**
 * The output file name: "./excel/<identifier>_<YYYY-MM-DD_HH-MM-SS>.xlsx", built
 * from the clock reading of the export (strftime "%Y-%m-%d_%H-%M-%S"). The clock
 * is read outside the model and given as a DateTime.
 */
module Output {
  import opened Wrappers
  import opened Decimal

  datatype DateTime = DateTime(year: nat, month: nat, day: nat, hour: nat, minute: nat, second: nat)

  /** The ranges a datetime's fields keep. */
  predicate ValidDateTime(t: DateTime) {
    && 1 <= t.year <= 9999
    && 1 <= t.month <= 12
    && 1 <= t.day <= 31
    && t.hour < 24
    && t.minute < 60
    && t.second < 60
  }

  /** strftime("%Y-%m-%d_%H-%M-%S"): every field zero-padded, year to 4 digits, the rest to 2. */
  function FormatTimestamp(t: DateTime): (ts: string)
    requires ValidDateTime(t)
    ensures |ts| == 19
    ensures ts[4] == '-' && ts[7] == '-' && ts[10] == '_' && ts[13] == '-' && ts[16] == '-'
  {
    FixedDigits(t.year, 4) + "-" + FixedDigits(t.month, 2) + "-" + FixedDigits(t.day, 2) + "_" +
    FixedDigits(t.hour, 2) + "-" + FixedDigits(t.minute, 2) + "-" + FixedDigits(t.second, 2)
  }

  /** Reads a timestamp back; None for a string that is not of the form YYYY-MM-DD_HH-MM-SS. */
  function ParseTimestamp(ts: string): (r: Option<DateTime>)
    ensures r.Some? ==> |ts| == 19
  {
    if |ts| == 19 && ts[4] == '-' && ts[7] == '-' && ts[10] == '_' && ts[13] == '-' && ts[16] == '-' &&
       AllDigits(ts[0..4]) && AllDigits(ts[5..7]) && AllDigits(ts[8..10]) &&
       AllDigits(ts[11..13]) && AllDigits(ts[14..16]) && AllDigits(ts[17..19])
    then
      Some(DateTime(ValueOf(ts[0..4]), ValueOf(ts[5..7]), ValueOf(ts[8..10]),
                    ValueOf(ts[11..13]), ValueOf(ts[14..16]), ValueOf(ts[17..19])))
    else
      None
  }

  /** The timestamp keeps every field of the clock reading. */
  lemma TimestampRoundTrip(t: DateTime)
    requires ValidDateTime(t)
    ensures ParseTimestamp(FormatTimestamp(t)) == Some(t)
  {
    var ts := FormatTimestamp(t);
    assert ts[0..4] == FixedDigits(t.year, 4);
    assert ts[5..7] == FixedDigits(t.month, 2);
    assert ts[8..10] == FixedDigits(t.day, 2);
    assert ts[11..13] == FixedDigits(t.hour, 2);
    assert ts[14..16] == FixedDigits(t.minute, 2);
    assert ts[17..19] == FixedDigits(t.second, 2);
    assert Pow10(2) == 100 && Pow10(4) == 10000;
    FixedDigitsRoundTrip(t.year, 4);
    FixedDigitsRoundTrip(t.month, 2);
    FixedDigitsRoundTrip(t.day, 2);
    FixedDigitsRoundTrip(t.hour, 2);
    FixedDigitsRoundTrip(t.minute, 2);
    FixedDigitsRoundTrip(t.second, 2);
  }

  /** The output file of a run: "./excel/" + identifier + "_" + timestamp + ".xlsx". */
  function OutputPath(id: string, t: DateTime): (path: string)
    requires ValidDateTime(t)
    ensures |path| == |id| + 33
    ensures path[..8] == "./excel/" && path[8..8 + |id|] == id && path[8 + |id|] == '_'
    ensures path[9 + |id|..28 + |id|] == FormatTimestamp(t) && path[28 + |id|..] == ".xlsx"
  {
    "./excel/" + id + "_" + FormatTimestamp(t) + ".xlsx"
  }

  /** Two runs on the same input at different seconds write different files. */
  lemma OutputPathsDistinct(id: string, a: DateTime, b: DateTime)
    requires ValidDateTime(a) && ValidDateTime(b) && a != b
    ensures OutputPath(id, a) != OutputPath(id, b)
  {
    TimestampRoundTrip(a);
    TimestampRoundTrip(b);
  }
}
