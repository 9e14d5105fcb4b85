/**
 * The weather window extraction of weather/weather_data.py:84-183: the
 * hourly metrics of the evening of the forecast's first day and of the
 * morning of its second day, and the fields of the first weather alert.
 * The metric values are carried along as opaque JSON values.
 */
module Weather {
  import opened Common
  import opened Text
  import opened Json

  // ---------------------------------------------------------------------
  // Keys of the extracted data

  /** The fifteen metrics kept for every hour, in the order they are read. */
  datatype Metric =
    | TempF | FeelslikeF | WindchillF | ChanceOfSnow | ChanceOfRain | SnowCm
    | WindMph | GustMph | VisibilityMiles | Cloud | Condition
    | Humidity | PressureIn | DewpointF | Uv

  const Metrics: seq<Metric> := [
    TempF, FeelslikeF, WindchillF, ChanceOfSnow, ChanceOfRain, SnowCm,
    WindMph, GustMph, VisibilityMiles, Cloud, Condition,
    Humidity, PressureIn, DewpointF, Uv
  ]

  lemma EveryMetricListed(m: Metric)
    ensures m in Metrics
  {
  }

  /** The suffix of the metric's `hour_{h}_...` key. */
  function MetricName(m: Metric): string {
    match m
    case TempF => "temp_f"
    case FeelslikeF => "feelslike_f"
    case WindchillF => "windchill_f"
    case ChanceOfSnow => "chance_of_snow"
    case ChanceOfRain => "chance_of_rain"
    case SnowCm => "snow_cm"
    case WindMph => "wind_mph"
    case GustMph => "gust_mph"
    case VisibilityMiles => "visibility_miles"
    case Cloud => "cloud"
    case Condition => "condition"
    case Humidity => "humidity"
    case PressureIn => "pressure_in"
    case DewpointF => "dewpoint_f"
    case Uv => "uv"
  }

  /** The field of the hourly entry the metric is read from; visibility comes from `vis_miles`. */
  function SourceField(m: Metric): string {
    if m == VisibilityMiles then "vis_miles" else MetricName(m)
  }

  datatype AlertField = Event | Severity | Certainty | Urgency | Desc

  const AlertFields: seq<AlertField> := [Event, Severity, Certainty, Urgency, Desc]

  lemma EveryAlertFieldListed(f: AlertField)
    ensures f in AlertFields
  {
  }

  function AlertName(f: AlertField): string {
    match f
    case Event => "event"
    case Severity => "severity"
    case Certainty => "certainty"
    case Urgency => "urgency"
    case Desc => "desc"
  }

  /**
   * A key of the extracted data. The source's keys are strings; `KeyText`
   * renders them, and since it is injective a map keyed by `Key` holds the
   * same entries as the source's dict keyed by those strings.
   */
  datatype Key = HourKey(hour: int, metric: Metric) | AlertKey(field: AlertField)

  function KeyText(k: Key): string {
    match k
    case HourKey(h, m) => "hour_" + IntToString(h) + "_" + MetricName(m)
    case AlertKey(f) => "weather_alert_" + AlertName(f)
  }

  lemma MetricNameInjective(m1: Metric, m2: Metric)
    requires MetricName(m1) == MetricName(m2)
    ensures m1 == m2
  {
  }

  lemma AlertNameInjective(f1: AlertField, f2: AlertField)
    requires AlertName(f1) == AlertName(f2)
    ensures f1 == f2
  {
  }

  /** In `p + a + [c] + x` with no `c` in `a`, the first `c` after `p` is at `|p| + |a|`. */
  lemma FirstSeparator(p: string, a: string, x: string, c: char)
    requires c !in a
    ensures (p + a + [c] + x)[|p| + |a|] == c
    ensures forall i :: |p| <= i < |p| + |a| ==> (p + a + [c] + x)[i] != c
  {
    forall i | |p| <= i < |p| + |a| ensures (p + a + [c] + x)[i] != c {
      assert (p + a + [c] + x)[i] == a[i - |p|];
    }
  }

  /** A separator that occurs in neither `a` nor `b` splits `p + a + sep + x` in one place only. */
  lemma SeparatorSplit(p: string, a: string, x: string, b: string, y: string, c: char)
    requires c !in a && c !in b
    requires p + a + [c] + x == p + b + [c] + y
    ensures a == b && x == y
  {
    var s := p + a + [c] + x;
    FirstSeparator(p, a, x, c);
    FirstSeparator(p, b, y, c);
    assert |a| == |b|;
    assert a == s[|p|..|p| + |a|];
    assert b == (p + b + [c] + y)[|p|..|p| + |b|];
    assert x == s[|p| + |a| + 1..];
    assert y == (p + b + [c] + y)[|p| + |b| + 1..];
  }

  /** Hour keys start with `h`, alert keys with `w`. */
  lemma KeyTextHead(k: Key)
    ensures |KeyText(k)| > 0 && KeyText(k)[0] == if k.HourKey? then 'h' else 'w'
  {
  }

  /** Different keys render as different strings. */
  lemma KeyTextInjective(k1: Key, k2: Key)
    ensures KeyText(k1) == KeyText(k2) ==> k1 == k2
  {
    KeyTextHead(k1);
    KeyTextHead(k2);
    if k1.HourKey? && k2.HourKey? && KeyText(k1) == KeyText(k2) {
      var a, b := IntToString(k1.hour), IntToString(k2.hour);
      var x, y := MetricName(k1.metric), MetricName(k2.metric);
      assert '_' !in a && '_' !in b;
      assert KeyText(k1) == "hour_" + a + ['_'] + x;
      assert KeyText(k2) == "hour_" + b + ['_'] + y;
      SeparatorSplit("hour_", a, x, b, y, '_');
      IntToStringInjective(k1.hour, k2.hour);
      MetricNameInjective(k1.metric, k2.metric);
    } else if k1.AlertKey? && k2.AlertKey? && KeyText(k1) == KeyText(k2) {
      var p := "weather_alert_";
      assert AlertName(k1.field) == KeyText(k1)[|p|..];
      assert AlertName(k2.field) == KeyText(k2)[|p|..];
      AlertNameInjective(k1.field, k2.field);
    }
  }

  // ---------------------------------------------------------------------
  // One hourly entry

  /**
   * `int(hour['time'].split(' ')[1].split(':')[0])`: the hour is the text
   * after the first space, cut at the next space and then at the first colon.
   */
  function HourOf(entry: Json): (r: Result<int, PyError>)
    ensures r.Ok? ==> entry.JDict?
  {
    match Subscript(entry, "time")
    case Err(e) => Err(e)
    case Ok(JStr(t)) =>
      (match After(t, ' ')
       case None => Err(IndexError)
       case Some(rest) =>
         (match ParseInt(Before(Before(rest, ' '), ':'))
          case Some(h) => Ok(h)
          case None => Err(ValueError)))
    // `.split` exists on strings only
    case Ok(_) => Err(AttributeError)
  }

  /** Two decimal digits, as in the `HH` of a `YYYY-MM-DD HH:MM` time. */
  function TwoDigits(h: nat): string
    requires h < 100
  {
    [DigitChar(h / 10), DigitChar(h % 10)]
  }

  lemma TwoDigitsValue(h: nat)
    requires h < 100
    ensures ' ' !in TwoDigits(h) && ':' !in TwoDigits(h)
    ensures ParseInt(TwoDigits(h)) == Some(h)
  {
    var hh := TwoDigits(h);
    assert !IsSpace(hh[0]) && !IsSpace(hh[1]);
    assert Strip(hh) == hh;
    assert AllDigits(hh);
    assert hh[..1] == [hh[0]];
    assert DigitsValue(hh) == DigitsValue(hh[..1]) * 10 + DigitValue(hh[1]);
  }

  /** `t.split(' ')[1].split(':')[0]` of a `date HH:rest` time is `HH`. */
  lemma HourField(date: string, hh: string, rest: string)
    requires ' ' !in date && ' ' !in hh && ':' !in hh
    ensures After(date + " " + hh + ":" + rest, ' ').Some?
    ensures Before(Before(After(date + " " + hh + ":" + rest, ' ').value, ' '), ':') == hh
  {
    var t := date + " " + hh + ":" + rest;
    assert t == date + [' '] + (hh + ":" + rest);
    SplitAtFirst(date, hh + ":" + rest, ' ');
    assert ' ' !in hh + ":";
    BeforeConcat(hh + ":", rest, ' ');
    assert hh + ":" + Before(rest, ' ') == hh + [':'] + Before(rest, ' ');
    SplitAtFirst(hh, Before(rest, ' '), ':');
  }

  /** The hour of a `date HH:MM`-style time is `HH`, whatever follows the colon. */
  lemma HourOfTimestamp(entry: seq<(string, Json)>, date: string, h: nat, rest: string)
    requires h < 100 && ' ' !in date
    requires Lookup(entry, "time") == Some(JStr(date + " " + TwoDigits(h) + ":" + rest))
    ensures HourOf(JDict(entry)) == Ok(h)
  {
    var hh := TwoDigits(h);
    var t := date + " " + hh + ":" + rest;
    assert Subscript(JDict(entry), "time") == Ok(JStr(t));
    TwoDigitsValue(h);
    HourField(date, hh, rest);
    var after := After(t, ' ');
    assert Before(Before(after.value, ' '), ':') == hh;
    assert ParseInt(hh) == Some(h);
  }

  /** `hour[field]` for a metric, with `snow_cm` defaulting to 0 and `condition` read down to its `text`. */
  function ReadMetric(entry: seq<(string, Json)>, m: Metric): Result<Json, PyError> {
    if m == SnowCm then
      Ok(match Lookup(entry, "snow_cm") case Some(v) => v case None => JInt(0))
    else if m == Condition then
      (match Subscript(JDict(entry), "condition")
       case Ok(c) => Subscript(c, "text")
       case Err(e) => Err(e))
    else Subscript(JDict(entry), SourceField(m))
  }

  /**
   * The assignments for the metrics `ms`, read left to right, or the error
   * the first failing read raises.
   */
  function RowOf(entry: seq<(string, Json)>, h: int, ms: seq<Metric>): (r: Result<map<Key, Json>, PyError>)
    decreases |ms|
  {
    if ms == [] then Ok(map[])
    else
      match ReadMetric(entry, ms[0])
      case Err(e) => Err(e)
      case Ok(v) =>
        match RowOf(entry, h, ms[1..])
        case Err(e) => Err(e)
        case Ok(rest) => Ok(rest[HourKey(h, ms[0]) := v])
  }

  lemma {:induction false} RowOfSpec(entry: seq<(string, Json)>, h: int, ms: seq<Metric>)
    ensures RowOf(entry, h, ms).Err? ==>
      exists j :: 0 <= j < |ms| && ReadMetric(entry, ms[j]) == Err(RowOf(entry, h, ms).error)
        && forall i :: 0 <= i < j ==> ReadMetric(entry, ms[i]).Ok?
    ensures RowOf(entry, h, ms).Ok? ==>
      forall m :: m in ms ==>
        && ReadMetric(entry, m).Ok?
        && HourKey(h, m) in RowOf(entry, h, ms).value
        && RowOf(entry, h, ms).value[HourKey(h, m)] == ReadMetric(entry, m).value
    ensures RowOf(entry, h, ms).Ok? ==>
      forall k :: k in RowOf(entry, h, ms).value ==> k.HourKey? && k.hour == h && k.metric in ms
    decreases |ms|
  {
    if ms != [] {
      RowOfSpec(entry, h, ms[1..]);
      var r := RowOf(entry, h, ms);
      if r.Err? && ReadMetric(entry, ms[0]).Ok? {
        var j :| 0 <= j < |ms[1..]| && ReadMetric(entry, ms[1..][j]) == Err(r.error)
          && forall i :: 0 <= i < j ==> ReadMetric(entry, ms[1..][i]).Ok?;
        assert ReadMetric(entry, ms[j + 1]) == Err(r.error);
        forall i | 0 <= i < j + 1 ensures ReadMetric(entry, ms[i]).Ok? {
          if i > 0 {
            assert ms[i] == ms[1..][i - 1];
          }
        }
      }
    }
  }

  /** The fifteen assignments for one kept hour, or the error the first failing read raises. */
  function Row(entry: seq<(string, Json)>, h: int): (r: Result<map<Key, Json>, PyError>)
    ensures r.Err? ==>
      exists j :: 0 <= j < |Metrics| && ReadMetric(entry, Metrics[j]) == Err(r.error)
        && forall i :: 0 <= i < j ==> ReadMetric(entry, Metrics[i]).Ok?
    ensures r.Ok? ==>
      forall m :: ReadMetric(entry, m).Ok?
        && HourKey(h, m) in r.value && r.value[HourKey(h, m)] == ReadMetric(entry, m).value
    ensures r.Ok? ==> forall k :: k in r.value ==> k.HourKey? && k.hour == h
  {
    RowOfSpec(entry, h, Metrics);
    forall m: Metric ensures m in Metrics {
      EveryMetricListed(m);
    }
    RowOf(entry, h, Metrics)
  }

  // ---------------------------------------------------------------------
  // get_hourly_forecast_data

  /** The loop body for one entry: skip it, add its hour's row, or raise. */
  function Step(acc: map<Key, Json>, entry: Json, startHour: int, endHour: int): Result<map<Key, Json>, PyError> {
    match HourOf(entry)
    case Err(e) => Err(e)
    case Ok(h) =>
      if startHour <= h < endHour then
        (match Row(entry.entries, h)
         case Ok(row) => Ok(acc + row)
         case Err(e) => Err(e))
      else Ok(acc)
  }

  /** The loop over `items`, entry by entry, stopping at the first exception. */
  function Hourly(items: seq<Json>, startHour: int, endHour: int): Result<map<Key, Json>, PyError>
    decreases |items|
  {
    if items == [] then Ok(map[])
    else
      match Hourly(items[..|items| - 1], startHour, endHour)
      case Err(e) => Err(e)
      case Ok(acc) => Step(acc, items[|items| - 1], startHour, endHour)
  }

  /** `get_hourly_forecast_data(hourly_data, start_hour, end_hour)`. */
  function HourlyData(hourly: Json, startHour: int, endHour: int): Result<map<Key, Json>, PyError> {
    match Iterate(hourly)
    case Err(e) => Err(e)
    case Ok(items) => Hourly(items, startHour, endHour)
  }

  /** `items[i]` is the last entry whose hour is `h`. */
  predicate LastWithHour(items: seq<Json>, h: int, i: int) {
    0 <= i < |items| && HourOf(items[i]) == Ok(h)
    && forall j :: i < j < |items| ==> HourOf(items[j]) != Ok(h)
  }

  /** The loop over the first `n + 1` entries is the loop over `n` and one more step. */
  lemma HourlyPrefixStep(items: seq<Json>, n: nat, startHour: int, endHour: int)
    requires n < |items|
    ensures Hourly(items[..n], startHour, endHour).Err? ==>
      Hourly(items[..n + 1], startHour, endHour) == Hourly(items[..n], startHour, endHour)
    ensures Hourly(items[..n], startHour, endHour).Ok? ==>
      Hourly(items[..n + 1], startHour, endHour) ==
      Step(Hourly(items[..n], startHour, endHour).value, items[n], startHour, endHour)
  {
    assert items[..n + 1][..n] == items[..n];
    assert items[..n + 1][n] == items[n];
  }

  /** A failure anywhere stops the loop for good. */
  lemma {:induction false} HourlyErrorSticks(items: seq<Json>, n: nat, startHour: int, endHour: int)
    requires n <= |items| && Hourly(items[..n], startHour, endHour).Err?
    ensures Hourly(items, startHour, endHour) == Hourly(items[..n], startHour, endHour)
    decreases |items|
  {
    if n < |items| {
      var front := items[..|items| - 1];
      assert front[..n] == items[..n];
      HourlyErrorSticks(front, n, startHour, endHour);
    } else {
      assert items[..n] == items;
    }
  }

  /** An entry the loop gets past: its hour can be read, and inside the window so can its metrics. */
  predicate EntryOk(entry: Json, startHour: int, endHour: int) {
    && HourOf(entry).Ok?
    && (startHour <= HourOf(entry).value < endHour ==> Row(entry.entries, HourOf(entry).value).Ok?)
  }

  lemma StepKept(acc: map<Key, Json>, entry: Json, startHour: int, endHour: int)
    requires Step(acc, entry, startHour, endHour).Ok?
    requires startHour <= HourOf(entry).value < endHour
    ensures Row(entry.entries, HourOf(entry).value).Ok?
    ensures Step(acc, entry, startHour, endHour).value == acc + Row(entry.entries, HourOf(entry).value).value
  {
    var h := HourOf(entry).value;
    assert HourOf(entry) == Ok(h);
    var row := Row(entry.entries, h);
    assert Step(acc, entry, startHour, endHour) == (match row case Ok(r) => Ok(acc + r) case Err(e) => Err(e));
  }

  lemma StepSkipped(acc: map<Key, Json>, entry: Json, startHour: int, endHour: int)
    requires Step(acc, entry, startHour, endHour).Ok?
    requires !(startHour <= HourOf(entry).value < endHour)
    ensures Step(acc, entry, startHour, endHour).value == acc
  {
  }

  lemma StepOk(acc: map<Key, Json>, entry: Json, startHour: int, endHour: int)
    ensures Step(acc, entry, startHour, endHour).Ok? <==> EntryOk(entry, startHour, endHour)
  {
  }

  lemma AllSnoc<T>(s: seq<T>, front: seq<T>, p: T -> bool)
    requires s != [] && front == s[..|s| - 1]
    ensures (forall i :: 0 <= i < |s| ==> p(s[i])) <==>
      (forall i :: 0 <= i < |front| ==> p(front[i])) && p(s[|s| - 1])
  {
    assert forall i :: 0 <= i < |front| ==> front[i] == s[i];
  }

  /** The loop gets past the first `n` entries exactly when each of them is all right. */
  lemma {:induction false} HourlyOk(items: seq<Json>, startHour: int, endHour: int)
    ensures Hourly(items, startHour, endHour).Ok? <==>
      forall i :: 0 <= i < |items| ==> EntryOk(items[i], startHour, endHour)
    decreases |items|
  {
    if items != [] {
      var front := items[..|items| - 1];
      var last := items[|items| - 1];
      HourlyOk(front, startHour, endHour);
      var acc := Hourly(front, startHour, endHour);
      AllSnoc(items, front, x => EntryOk(x, startHour, endHour));
      if acc.Ok? {
        StepOk(acc.value, last, startHour, endHour);
        assert Hourly(items, startHour, endHour) == Step(acc.value, last, startHour, endHour);
      } else {
        assert Hourly(items, startHour, endHour).Err?;
      }
    }
  }

  /**
   * Every key the loop produces belongs to an hour inside the window that
   * some entry has.
   */
  lemma {:induction false} HourlyKeys(items: seq<Json>, startHour: int, endHour: int)
    requires Hourly(items, startHour, endHour).Ok?
    ensures forall k :: k in Hourly(items, startHour, endHour).value ==>
      k.HourKey? && startHour <= k.hour < endHour
      && exists i :: 0 <= i < |items| && HourOf(items[i]) == Ok(k.hour)
    decreases |items|
  {
    if items != [] {
      var front := items[..|items| - 1];
      HourlyKeys(front, startHour, endHour);
      forall i | 0 <= i < |front| ensures front[i] == items[i] {
      }
    }
  }

  lemma LastInFront(items: seq<Json>, front: seq<Json>, h: int, i: int)
    requires items != [] && front == items[..|items| - 1]
    requires LastWithHour(items, h, i) && i < |front|
    ensures LastWithHour(front, h, i)
  {
    forall j | i < j < |front| ensures HourOf(front[j]) != Ok(h) {
      assert front[j] == items[j];
    }
  }

  /**
   * Every entry inside the window contributes all fifteen keys of its hour,
   * and each value comes from the last entry with that hour: a later entry
   * of the same hour of day overwrites an earlier one.
   */
  lemma {:induction false} HourlyLatest(items: seq<Json>, startHour: int, endHour: int, h: int, i: int, m: Metric)
    requires Hourly(items, startHour, endHour).Ok?
    requires LastWithHour(items, h, i) && startHour <= h < endHour
    ensures HourKey(h, m) in Hourly(items, startHour, endHour).value
    ensures ReadMetric(items[i].entries, m) == Ok(Hourly(items, startHour, endHour).value[HourKey(h, m)])
    decreases |items|
  {
    var front := items[..|items| - 1];
    var last := items[|items| - 1];
    var acc := Hourly(front, startHour, endHour);
    if acc.Err? {
      assert false;
    }
    assert Hourly(items, startHour, endHour) == Step(acc.value, last, startHour, endHour);
    var result := Hourly(items, startHour, endHour).value;
    var k := HourKey(h, m);
    var hl := HourOf(last).value;
    if i < |items| - 1 {
      LastInFront(items, front, h, i);
      assert front[i] == items[i];
      HourlyLatest(front, startHour, endHour, h, i, m);
      var earlier := acc.value[k];
      assert hl != h;
      if startHour <= hl < endHour {
        StepKept(acc.value, last, startHour, endHour);
        var row := Row(last.entries, hl).value;
        assert k !in row;
        assert result[k] == acc.value[k];
      } else {
        StepSkipped(acc.value, last, startHour, endHour);
        assert result == acc.value;
      }
      assert result[k] == earlier;
    } else {
      StepKept(acc.value, last, startHour, endHour);
      var row := Row(last.entries, h).value;
      assert k in row && row[k] == ReadMetric(last.entries, m).value;
      assert result[k] == row[k];
      assert last == items[i];
    }
  }

  /** Every entry inside the window contributes all fifteen keys of its hour. */
  lemma HourlyComplete(items: seq<Json>, startHour: int, endHour: int, h: int, i: int, m: Metric)
    requires Hourly(items, startHour, endHour).Ok?
    requires 0 <= i < |items| && HourOf(items[i]) == Ok(h) && startHour <= h < endHour
    ensures HourKey(h, m) in Hourly(items, startHour, endHour).value
  {
    var j := LastIndexWithHour(items, h, i);
    HourlyLatest(items, startHour, endHour, h, j, m);
  }

  /** The last entry with hour `h`, found from a known one. */
  lemma {:induction false} LastIndexWithHour(items: seq<Json>, h: int, i: int) returns (j: int)
    requires 0 <= i < |items| && HourOf(items[i]) == Ok(h)
    ensures i <= j && LastWithHour(items, h, j)
    decreases |items| - i
  {
    if exists k :: i < k < |items| && HourOf(items[k]) == Ok(h) {
      var k :| i < k < |items| && HourOf(items[k]) == Ok(h);
      j := LastIndexWithHour(items, h, k);
    } else {
      j := i;
    }
  }

  /**
   * `get_hourly_forecast_data`: walks the entries in order, parses each
   * one's hour and, when it lies in `[startHour, endHour)`, stores the
   * hour's fifteen metrics under `hour_{h}_...` keys. An exception inside
   * the loop leaves the function, so none of its partial result survives.
   */
  method GetHourlyForecastData(hourly: Json, startHour: int, endHour: int)
    returns (r: Result<map<Key, Json>, PyError>)
    ensures r == HourlyData(hourly, startHour, endHour)
    ensures hourly == JList([]) ==> r == Ok(map[])
    ensures r.Ok? ==> forall k :: k in r.value ==> k.HourKey? && startHour <= k.hour < endHour
  {
    var items := Iterate(hourly);
    if items.Err? {
      // iterating a number, a boolean or null is a TypeError
      return Err(items.error);
    }
    var entries := items.value;
    var relevant: map<Key, Json> := map[];
    for n := 0 to |entries|
      invariant Hourly(entries[..n], startHour, endHour) == Ok(relevant)
    {
      HourlyPrefixStep(entries, n, startHour, endHour);
      var hour := entries[n];
      var hourOfDay := HourOf(hour);
      if hourOfDay.Err? {
        assert Hourly(entries[..n + 1], startHour, endHour) == Err(hourOfDay.error);
        HourlyErrorSticks(entries, n + 1, startHour, endHour);
        return Err(hourOfDay.error);
      }
      var h := hourOfDay.value;
      if startHour <= h < endHour {
        var row := Row(hour.entries, h);
        if row.Err? {
          assert Hourly(entries[..n + 1], startHour, endHour) == Err(row.error);
          HourlyErrorSticks(entries, n + 1, startHour, endHour);
          return Err(row.error);
        }
        relevant := relevant + row.value;
      }
    }
    assert entries[..|entries|] == entries;
    r := Ok(relevant);
    HourlyKeys(entries, startHour, endHour);
  }

  // ---------------------------------------------------------------------
  // get_relevant_weather_information

  /** `forecast_data['forecast']['forecastday'][day]['hour']`. */
  function DayHours(forecast: Json, day: nat): Result<Json, PyError> {
    match Subscript(forecast, "forecast")
    case Err(e) => Err(e)
    case Ok(f) =>
      match Subscript(f, "forecastday")
      case Err(e) => Err(e)
      case Ok(days) =>
        match Index(days, day)
        case Err(e) => Err(e)
        case Ok(d) => Subscript(d, "hour")
  }

  /** The hourly data of one day of the forecast, kept inside `[startHour, endHour)`. */
  function Window(forecast: Json, day: nat, startHour: int, endHour: int): Result<map<Key, Json>, PyError> {
    match DayHours(forecast, day)
    case Err(e) => Err(e)
    case Ok(hourly) => HourlyData(hourly, startHour, endHour)
  }

  /** The alert fields `fs` read left to right, or the error of the first that cannot be read. */
  function AlertRecordOf(alert: Json, fs: seq<AlertField>): Result<map<Key, Json>, PyError>
    decreases |fs|
  {
    if fs == [] then Ok(map[])
    else
      match Subscript(alert, AlertName(fs[0]))
      case Err(e) => Err(e)
      case Ok(v) =>
        match AlertRecordOf(alert, fs[1..])
        case Err(e) => Err(e)
        case Ok(rest) => Ok(rest[AlertKey(fs[0]) := v])
  }

  lemma {:induction false} AlertRecordOfSpec(alert: Json, fs: seq<AlertField>)
    ensures AlertRecordOf(alert, fs).Ok? ==>
      forall f :: f in fs ==>
        && AlertKey(f) in AlertRecordOf(alert, fs).value
        && Subscript(alert, AlertName(f)) == Ok(AlertRecordOf(alert, fs).value[AlertKey(f)])
    ensures AlertRecordOf(alert, fs).Ok? ==>
      forall k :: k in AlertRecordOf(alert, fs).value ==> k.AlertKey? && k.field in fs
    decreases |fs|
  {
    if fs != [] {
      AlertRecordOfSpec(alert, fs[1..]);
    }
  }

  /** `{'weather_alert_event': alert['event'], ...}`: built whole before it is merged, or not at all. */
  function AlertRecord(alert: Json): (r: Result<map<Key, Json>, PyError>)
    ensures r.Ok? ==>
      forall f ::
        && AlertKey(f) in r.value
        && Subscript(alert, AlertName(f)) == Ok(r.value[AlertKey(f)])
    ensures r.Ok? ==> forall k :: k in r.value ==> k.AlertKey?
  {
    AlertRecordOfSpec(alert, AlertFields);
    forall f: AlertField ensures f in AlertFields {
      EveryAlertFieldListed(f);
    }
    AlertRecordOf(alert, AlertFields)
  }

  /** The alerts part: nothing unless `alerts` is present and its `.get('alert')` is truthy. */
  function AlertsOf(forecast: Json): Result<map<Key, Json>, PyError> {
    if !HasKey(forecast, "alerts") then Ok(map[])
    else
      match DictGet(Subscript(forecast, "alerts").value, "alert", JNull)
      case Err(e) => Err(e)
      case Ok(alerts) =>
        if !Truthy(alerts) then Ok(map[])
        else
          match Index(alerts, 0)
          case Err(e) => Err(e)
          case Ok(first) => AlertRecord(first)
  }

  /** There is an alert list with at least one entry. */
  predicate HasAlerts(forecast: Json) {
    && HasKey(forecast, "alerts")
    && DictGet(Subscript(forecast, "alerts").value, "alert", JNull).Ok?
    && Truthy(DictGet(Subscript(forecast, "alerts").value, "alert", JNull).value)
  }

  /**
   * The five alert keys appear exactly when there are alerts, and they hold
   * the fields of the first alert only.
   */
  lemma AlertsSpec(forecast: Json)
    requires AlertsOf(forecast).Ok?
    ensures AlertsOf(forecast).value != map[] <==> HasAlerts(forecast)
    ensures HasAlerts(forecast) ==>
      var first := Index(DictGet(Subscript(forecast, "alerts").value, "alert", JNull).value, 0);
      && first.Ok?
      && forall f ::
        && AlertKey(f) in AlertsOf(forecast).value
        && Subscript(first.value, AlertName(f)) == Ok(AlertsOf(forecast).value[AlertKey(f)])
    ensures forall k :: k in AlertsOf(forecast).value ==> k.AlertKey?
  {
    if HasAlerts(forecast) {
      assert AlertKey(Event) in AlertsOf(forecast).value;
    }
  }

  /** `except KeyError`: a missing key ends the extraction with what was gathered so far. */
  function Caught(e: PyError, gathered: map<Key, Json>): Result<map<Key, Json>, PyError> {
    if e == KeyError then Ok(gathered) else Err(e)
  }

  /** The hours the extraction can report: 7 PM to midnight, then midnight to 8 AM. */
  predicate InWindows(h: int) {
    19 <= h < 24 || 0 <= h < 8
  }

  /**
   * What `get_relevant_weather_information` returns: the evening window of
   * the first forecast day, then the morning window of the second, then the
   * first alert, each merged in turn. A KeyError at any step returns what
   * the earlier steps gathered; any other exception propagates.
   */
  function Relevant(forecast: Json): Result<map<Key, Json>, PyError> {
    var evening := Window(forecast, 0, 19, 24);
    if evening.Err? then Caught(evening.error, map[])
    else
      var morning := Window(forecast, 1, 0, 8);
      if morning.Err? then Caught(morning.error, evening.value)
      else
        var alerts := AlertsOf(forecast);
        if alerts.Err? then Caught(alerts.error, evening.value + morning.value)
        else Ok(evening.value + morning.value + alerts.value)
  }

  lemma WindowHours(forecast: Json, day: nat, startHour: int, endHour: int)
    requires Window(forecast, day, startHour, endHour).Ok?
    ensures forall k :: k in Window(forecast, day, startHour, endHour).value ==>
      k.HourKey? && startHour <= k.hour < endHour
  {
    var hourly := DayHours(forecast, day).value;
    HourlyKeys(Iterate(hourly).value, startHour, endHour);
  }

  /** Every hour the extraction reports lies from 7 PM to midnight or from midnight to 8 AM. */
  lemma RelevantHours(forecast: Json)
    requires Relevant(forecast).Ok?
    ensures forall k :: k in Relevant(forecast).value && k.HourKey? ==> InWindows(k.hour)
  {
    var evening := Window(forecast, 0, 19, 24);
    var morning := Window(forecast, 1, 0, 8);
    if evening.Ok? {
      WindowHours(forecast, 0, 19, 24);
      if morning.Ok? {
        WindowHours(forecast, 1, 0, 8);
        if AlertsOf(forecast).Ok? {
          AlertsSpec(forecast);
        }
      }
    }
  }

  /**
   * A missing key never escapes: the extraction then returns what it had
   * gathered, and nothing at all when the evening window could not be read.
   */
  lemma KeyErrorIsCaught(forecast: Json)
    ensures Relevant(forecast) != Err(KeyError)
    ensures Window(forecast, 0, 19, 24) == Err(KeyError) ==> Relevant(forecast) == Ok(map[])
  {
  }

  /**
   * Once the evening window is read, its entries reach the result unchanged,
   * whether or not a later step fails on a missing key.
   */
  lemma EveningKept(forecast: Json)
    requires Window(forecast, 0, 19, 24).Ok? && Relevant(forecast).Ok?
    ensures forall k :: k in Window(forecast, 0, 19, 24).value ==>
      k in Relevant(forecast).value && Relevant(forecast).value[k] == Window(forecast, 0, 19, 24).value[k]
  {
    WindowHours(forecast, 0, 19, 24);
    if Window(forecast, 1, 0, 8).Ok? {
      WindowHours(forecast, 1, 0, 8);
      if AlertsOf(forecast).Ok? {
        AlertsSpec(forecast);
      }
    }
  }

  /** The `if 'alerts' in forecast_data and ...` step: the first alert's fields, if there are alerts. */
  method FirstAlert(forecast: Json) returns (r: Result<map<Key, Json>, PyError>)
    ensures r == AlertsOf(forecast)
    ensures r.Ok? ==> forall k :: k in r.value ==> k.AlertKey?
  {
    if !HasKey(forecast, "alerts") {
      return Ok(map[]);
    }
    var alertList := DictGet(Subscript(forecast, "alerts").value, "alert", JNull);
    if alertList.Err? {
      // `.get` on an `alerts` value that is not a dict
      return Err(alertList.error);
    }
    if !Truthy(alertList.value) {
      return Ok(map[]);
    }
    var alert := Index(alertList.value, 0);
    if alert.Err? {
      return Err(alert.error);
    }
    r := AlertRecord(alert.value);
  }

  /**
   * `get_relevant_weather_information`, step by step: each window is read
   * with `get_hourly_forecast_data` and merged, then the alert fields.
   */
  method GetRelevantWeatherInformation(forecast: Json) returns (r: Result<map<Key, Json>, PyError>)
    ensures r == Relevant(forecast)
    ensures r.Ok? ==> forall k :: k in r.value && k.HourKey? ==> InWindows(k.hour)
  {
    var weatherData: map<Key, Json> := map[];

    var evening := ReadWindow(forecast, 0, 19, 24);
    if evening.Err? {
      return Caught(evening.error, weatherData);
    }
    EmptyUpdate(evening.value);
    weatherData := weatherData + evening.value;

    var morning := ReadWindow(forecast, 1, 0, 8);
    if morning.Err? {
      return Caught(morning.error, weatherData);
    }
    weatherData := weatherData + morning.value;

    var alerts := FirstAlert(forecast);
    if alerts.Err? {
      return Caught(alerts.error, weatherData);
    }
    weatherData := weatherData + alerts.value;
    r := Ok(weatherData);
  }

  /** `{}.update(m)` is `m`. */
  lemma EmptyUpdate(m: map<Key, Json>)
    ensures map[] + m == m
  {
  }

  /** One day's `['hour']` list read, then passed to `get_hourly_forecast_data`. */
  method ReadWindow(forecast: Json, day: nat, startHour: int, endHour: int)
    returns (r: Result<map<Key, Json>, PyError>)
    ensures r == Window(forecast, day, startHour, endHour)
    ensures r.Ok? ==> forall k :: k in r.value ==> k.HourKey? && startHour <= k.hour < endHour
  {
    var hours := DayHours(forecast, day);
    if hours.Err? {
      return Err(hours.error);
    }
    r := GetHourlyForecastData(hours.value, startHour, endHour);
  }
}
