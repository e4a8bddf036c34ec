/** pkg/types/sample.go and pkg/types/sample_list.go: samples and how handlers list them. */
module Samples {
  import opened Collections
  import opened SafeLists

  /** A time.Time: nanoseconds since the epoch. */
  type Time = int

  /** The zero time is the first of January of the year 1. */
  const ZERO_TIME: Time := -62135596800_000_000_000

  const EPOCH: Time := 0

  /** Whole milliseconds; the part of a second counts forward, also before the epoch. */
  function UnixMilli(t: Time): int { t / 1_000_000 }

  /** What a handler measured: an integer, or something else, of which only matters
      whether and how ToFloat64 converts it. */
  datatype Value = Integer(n: int) | Measured(id: nat)

  type LabelMap = map<string, string>

  class Sample {
    const Metric: string
    const Value: Value
    var Timestamp: Time
    var Labels: LabelMap

    constructor (metric: string, value: Value, labels: LabelMap)
      ensures Metric == metric && Value == value && Timestamp == ZERO_TIME && Labels == labels
    {
      Metric, Value, Timestamp, Labels := metric, value, ZERO_TIME, labels;
    }

    /** The zero time and the epoch count as no time at all. */
    method SetTime(t: Time)
      modifies this
      ensures Labels == old(Labels)
      ensures Timestamp == if t == ZERO_TIME || t == EPOCH then old(Timestamp) else t
    {
      if t == ZERO_TIME || t == EPOCH {
        return;
      }
      Timestamp := t;
    }
  }

  type SampleList = SafeList<Sample?>

  // ---- making samples ---------------------------------------------------------------

  /** A replacer that turns each of some characters into an underscore. */
  function Replace(chars: string, s: string): (r: string)
    ensures |r| == |s|
  {
    seq(|s|, i requires 0 <= i < |s| => if s[i] in chars then '_' else s[i])
  }

  const METRIC_CHARS := "-. '\""

  const LABEL_CHARS := "-. /"

  function MetricName(prefix: string, metric: string): string {
    if |prefix| > 0 then prefix + "_" + Replace(METRIC_CHARS, metric) else Replace(METRIC_CHARS, metric)
  }

  /** The metric follows its prefix, if it has one, with five characters made underscores. */
  lemma MetricNameMeaning(prefix: string, metric: string)
    ensures var name, start := MetricName(prefix, metric), if prefix == "" then 0 else |prefix| + 1;
            && |name| == start + |metric|
            && (prefix != "" ==> name[..|prefix|] == prefix && name[|prefix|] == '_')
            && forall i :: 0 <= i < |metric| ==>
                 name[start + i] == match metric[i]
                                    case '-' => '_' case '.' => '_' case ' ' => '_' case '\'' => '_' case '"' => '_'
                                    case c => c
  {
    assert METRIC_CHARS == ['-', '.', ' ', '\'', '"'];
  }

  /** In a label four characters become underscores. */
  lemma LabelNameMeaning(key: string)
    ensures |Replace(LABEL_CHARS, key)| == |key|
    ensures forall i :: 0 <= i < |key| ==>
              Replace(LABEL_CHARS, key)[i] == match key[i]
                                              case '-' => '_' case '.' => '_' case ' ' => '_' case '/' => '_'
                                              case c => c
  {
    assert LABEL_CHARS == ['-', '.', ' ', '/'];
  }

  /** All label maps merged, later ones winning. */
  function Merged(labels: seq<LabelMap>): LabelMap {
    if labels == [] then map[] else Merged(labels[..|labels| - 1]) + labels[|labels| - 1]
  }

  /** A label has the value of the last map that has it. */
  lemma {:induction false} MergedMeaning(labels: seq<LabelMap>, key: string)
    ensures key in Merged(labels) <==> exists i :: 0 <= i < |labels| && key in labels[i]
    ensures forall i :: 0 <= i < |labels| && key in labels[i] && (forall j :: i < j < |labels| ==> key !in labels[j]) ==>
              Merged(labels)[key] == labels[i][key]
  {
    if labels != [] {
      var n := |labels| - 1;
      MergedMeaning(labels[..n], key);
      forall i | 0 <= i < n && key in labels[i]
        ensures key in labels[..n][i]
      {
      }
    }
  }

  /** The loops over the label maps, each visited in any order. */
  method MergeLabels(labels: seq<LabelMap>) returns (all: LabelMap)
    ensures all == Merged(labels)
  {
    all := map[];
    for i := 0 to |labels|
      invariant all == Merged(labels[..i])
    {
      assert labels[..i + 1][..i] == labels[..i];
      ghost var before := all;
      var rest := labels[i].Keys;
      while rest != {}
        invariant rest <= labels[i].Keys
        invariant all.Keys == before.Keys + (labels[i].Keys - rest)
        invariant forall k :: k in all ==> all[k] == if k in labels[i] && k !in rest then labels[i][k] else before[k]
        decreases rest
      {
        var k :| k in rest;
        all := all[k := labels[i][k]];
        rest := rest - {k};
      }
      assert all == before + labels[i];
    }
    assert labels[..|labels|] == labels;
  }

  /** A sample as NewSample makes it. */
  ghost predicate Made(s: Sample?, prefix: string, metric: string, value: Value, labels: seq<LabelMap>)
    reads s
  {
    && s != null && s.Metric == MetricName(prefix, metric) && s.Value == value
    && s.Timestamp == ZERO_TIME && s.Labels == Merged(labels)
  }

  method NewSample(prefix: string, metric: string, value: Value, labels: seq<LabelMap>) returns (s: Sample)
    ensures fresh(s) && Made(s, prefix, metric, value, labels)
  {
    var all := MergeLabels(labels);
    s := new Sample(MetricName(prefix, metric), value, all);
  }

  /** One new sample for each field, in any order. */
  method MakeSamples(prefix: string, fields: map<string, Value>, labels: seq<LabelMap>) returns (metrics: seq<string>, vs: seq<Sample?>)
    ensures |vs| == |metrics| == |fields| && forall metric :: metric in metrics <==> metric in fields
    ensures forall i :: 0 <= i < |vs| ==> fresh(vs[i]) && Made(vs[i], prefix, metrics[i], fields[metrics[i]], labels)
  {
    metrics, vs := [], [];
    var rest := fields.Keys;
    while rest != {}
      invariant rest <= fields.Keys && |vs| == |metrics| == |fields| - |rest|
      invariant forall metric :: metric in metrics <==> metric in fields && metric !in rest
      invariant forall i :: 0 <= i < |vs| ==>
                  metrics[i] in metrics && fresh(vs[i]) && Made(vs[i], prefix, metrics[i], fields[metrics[i]], labels)
      decreases rest
    {
      var metric :| metric in rest;
      var v := NewSample(prefix, metric, fields[metric], labels);
      rest := rest - {metric};
      metrics, vs := metrics + [metric], vs + [v];
    }
  }

  /** They are listed in one critical section. */
  method PushSamples(list: SampleList, prefix: string, fields: map<string, Value>, labels: seq<LabelMap>)
    returns (metrics: seq<string>, vs: seq<Sample?>)
    modifies list
    ensures list.Fifo() == old(list.Fifo()) + vs
    ensures |vs| == |metrics| == |fields| && forall metric :: metric in metrics <==> metric in fields
    ensures forall i :: 0 <= i < |vs| ==> fresh(vs[i]) && Made(vs[i], prefix, metrics[i], fields[metrics[i]], labels)
  {
    metrics, vs := MakeSamples(prefix, fields, labels);
    list.PushFrontN(vs);
  }

  // ---- time series ------------------------------------------------------------------

  /** Division and remainder of the source language, which truncate toward zero. */
  function Quo(a: int, b: nat): int
    requires b > 0
  {
    if a >= 0 then a / b else -(-a / b)
  }

  function Rem(a: int, b: nat): int
    requires b > 0
  {
    a - Quo(a, b) * b
  }

  function Truncate(precision: string, timestamp: int): int {
    match precision
    case "s" => Quo(timestamp, 1000) * 1000
    case "m" =>
      var ts := Quo(timestamp, 1000) * 1000;
      ts - Rem(ts, 60000)
    case _ => timestamp
  }

  datatype TimeSeries = TimeSeries(timestamp: int, value: real, labels: seq<(string, string)>)

  /** The instant is in this millisecond. */
  predicate InMilli(t: Time, milli: int) { milli * 1_000_000 <= t < (milli + 1) * 1_000_000 }

  /** `r` is the multiple of `unit` next to `milli` on the side of the epoch. */
  predicate TowardEpoch(milli: int, unit: nat, r: int)
    requires unit > 0
  {
    r % unit == 0 && milli - unit < r < milli + unit && (if milli >= 0 then 0 <= r <= milli else milli <= r <= 0)
  }

  /** What a timestamp of some precision says about the instant. */
  ghost predicate TimeOf(precision: string, t: Time, r: int) {
    exists milli :: InMilli(t, milli) &&
      match precision
      case "s" => TowardEpoch(milli, 1000, r)
      case "m" => TowardEpoch(milli, 60000, r)
      case _ => r == milli
  }

  lemma SecondToward(milli: int)
    ensures TowardEpoch(milli, 1000, Truncate("s", milli))
  {
    var q := Quo(milli, 1000);
    assert q * 1000 % 1000 == 0;
  }

  /** The two-step minute truncation is the direct one toward zero, to a multiple of a
      minute less than a minute away. */
  lemma MinuteTruncation(t: int)
    ensures Truncate("m", t) == Quo(t, 60000) * 60000 && -60000 < t - Truncate("m", t) < 60000
  {
  }

  lemma MinuteToward(milli: int)
    ensures TowardEpoch(milli, 60000, Truncate("m", milli))
  {
    var q := Quo(milli, 60000);
    MinuteTruncation(milli);
    assert q * 60000 % 60000 == 0;
  }

  lemma TruncatedTime(precision: string, t: Time)
    ensures TimeOf(precision, t, Truncate(precision, UnixMilli(t)))
  {
    var milli := UnixMilli(t);
    assert InMilli(t, milli);
    match precision
    case "s" => SecondToward(milli);
    case "m" => MinuteToward(milli);
    case _ =>
  }

  const NAME_LABEL := "__name__"

  /** The labels of a series: the metric name, then each label once, with its key cleaned. */
  ghost predicate Labelled(metric: string, labels: LabelMap, keys: seq<string>, r: seq<(string, string)>) {
    && |keys| == |labels| && (forall k :: k in keys <==> k in labels)
    && |r| == 1 + |keys| && r[0] == (NAME_LABEL, metric)
    && forall i :: 0 <= i < |keys| ==> r[i + 1] == (Replace(LABEL_CHARS, keys[i]), labels[keys[i]])
  }

  predicate NamesDistinct(r: seq<(string, string)>) { forall i, j :: 0 <= i < j < |r| ==> r[i].0 != r[j].0 }

  /** Cleaning keeps the keys apart, from each other and from the name of the metric's label. */
  predicate KeptApart(labels: LabelMap) {
    && (forall k :: k in labels ==> Replace(LABEL_CHARS, k) != NAME_LABEL)
    && (forall k, l :: k in labels && l in labels && Replace(LABEL_CHARS, k) == Replace(LABEL_CHARS, l) ==> k == l)
  }

  lemma {:induction false} SetSmaller(keys: seq<string>)
    ensures |set k | k in keys| <= |keys|
  {
    if keys != [] {
      SetSmaller(keys[1..]);
      assert (set k | k in keys) == {keys[0]} + set k | k in keys[1..];
    }
  }

  /** As many keys as a set has, and no others: none of them twice. */
  lemma {:induction false} KeysOnce(keys: seq<string>, all: set<string>)
    requires |keys| == |all| && forall k :: k in keys <==> k in all
    ensures forall i, j :: 0 <= i < j < |keys| ==> keys[i] != keys[j]
  {
    if keys != [] {
      var rest := set k | k in keys[1..];
      if keys[0] in keys[1..] {
        assert rest == all;
        SetSmaller(keys[1..]);
        assert false;
      }
      assert all - {keys[0]} == rest;
      KeysOnce(keys[1..], rest);
    }
  }

  /** A series has no two labels of one name iff cleaning keeps the sample's keys apart. */
  lemma NamesDistinctIff(metric: string, labels: LabelMap, keys: seq<string>, r: seq<(string, string)>)
    requires Labelled(metric, labels, keys, r)
    ensures NamesDistinct(r) <==> KeptApart(labels)
  {
    KeysOnce(keys, labels.Keys);
    if NamesDistinct(r) {
      forall k | k in labels
        ensures Replace(LABEL_CHARS, k) != NAME_LABEL
      {
        var i :| 0 <= i < |keys| && keys[i] == k;
        assert r[0].0 != r[i + 1].0;
      }
      forall k, l | k in labels && l in labels && Replace(LABEL_CHARS, k) == Replace(LABEL_CHARS, l)
        ensures k == l
      {
        var i :| 0 <= i < |keys| && keys[i] == k;
        var j :| 0 <= j < |keys| && keys[j] == l;
        assert r[i + 1].0 == r[j + 1].0;
      }
    }
    if KeptApart(labels) {
      forall i, j | 0 <= i < j < |r|
        ensures r[i].0 != r[j].0
      {
        assert keys[j - 1] in labels && (i > 0 ==> keys[i - 1] in labels);
      }
    }
  }

  /** Labels that end up with one name. */
  lemma ClashingLabels(x: string, y: string)
    ensures !KeptApart(map["a-b" := x, "a_b" := y])
  {
    assert Replace(LABEL_CHARS, "a-b") == "a_b" == Replace(LABEL_CHARS, "a_b");
  }

  /** ConvertTimeSeries: None is an unconvertible value, `toFloat` is ToFloat64. The metric
      name comes first, then each label once, in any order. */
  method ConvertTimeSeries(s: Sample, precision: string, toFloat: Value -> Option<real>)
    returns (r: Option<TimeSeries>, keys: seq<string>)
    ensures r.Some? <==> toFloat(s.Value).Some?
    ensures r.Some? ==>
              && r.value.timestamp == Truncate(precision, UnixMilli(s.Timestamp))
              && TimeOf(precision, s.Timestamp, r.value.timestamp)
              && (precision !in {"s", "m"} ==> r.value.timestamp * 1_000_000 <= s.Timestamp < (r.value.timestamp + 1) * 1_000_000)
              && r.value.value == toFloat(s.Value).value
              && Labelled(s.Metric, s.Labels, keys, r.value.labels)
              && (NamesDistinct(r.value.labels) <==> KeptApart(s.Labels))
  {
    keys := [];
    var value := toFloat(s.Value);
    if value.None? {
      return None, keys;
    }
    var timestamp := Truncate(precision, UnixMilli(s.Timestamp));
    var labels := [(NAME_LABEL, s.Metric)];
    var rest := s.Labels.Keys;
    ghost var done: set<string> := {};
    while rest != {}
      invariant rest !! done && rest + done == s.Labels.Keys
      invariant |keys| == |done| && forall k :: k in keys <==> k in done
      invariant |labels| == 1 + |keys| && labels[0] == (NAME_LABEL, s.Metric)
      invariant forall i :: 0 <= i < |keys| ==> keys[i] in s.Labels && labels[i + 1] == (Replace(LABEL_CHARS, keys[i]), s.Labels[keys[i]])
      decreases rest
    {
      var k :| k in rest;
      rest, done := rest - {k}, done + {k};
      keys := keys + [k];
      labels := labels + [(Replace(LABEL_CHARS, k), s.Labels[k])];
    }
    assert done == s.Labels.Keys;
    NamesDistinctIff(s.Metric, s.Labels, keys, labels);
    TruncatedTime(precision, s.Timestamp);
    return Some(TimeSeries(timestamp, value.value, labels)), keys;
  }

  lemma WholeMinutes(minutes: int)
    ensures Truncate("m", 60000 * minutes) == 60000 * minutes && Truncate("s", 60000 * minutes) == 60000 * minutes
  {
    assert 60000 * minutes == (60 * minutes) * 1000;
    assert Quo(60000 * minutes, 1000) == 60 * minutes;
    assert Quo(60000 * minutes, 60000) == minutes;
  }

  /** Truncating to the minute again, or then to the second, changes nothing. */
  lemma MinuteStable(t: int)
    ensures Truncate("m", Truncate("m", t)) == Truncate("m", t) && Truncate("s", Truncate("m", t)) == Truncate("m", t)
  {
    MinuteTruncation(t);
    WholeMinutes(Quo(t, 60000));
  }

  /** Nor does truncating to the second first. */
  lemma SecondThenMinute(t: int)
    ensures Truncate("m", Truncate("s", t)) == Truncate("m", t)
  {
  }
}
