/** The metrics registry: counters and histograms by series key. Values are exact
    numbers where the program has doubles. */
module MetricsRegistry {
  import opened SeriesKeys

  datatype Increment = Increment(name: string, labels: Labels)

  datatype Observation = Observation(name: string, labels: Labels, seconds: real)

  const BUCKETS: seq<real> := [0.005, 0.025, 0.1, 0.25, 1.0, 5.0]

  // --------------------------------------------- what the numbers should be

  /** How calls are assigned to series; the registry uses the series key. */
  type Keying<!T> = T -> string

  ghost function IncrementKey(i: Increment): string { SeriesKey(i.name, i.labels) }

  ghost function ObservationKey(o: Observation): string { SeriesKey(o.name, o.labels) }

  /** Calls assigned to one series. */
  function CountFor<T>(keyOf: Keying<T>, log: seq<T>, key: string): nat {
    if log == [] then 0
    else CountFor(keyOf, log[..|log| - 1], key) + (if keyOf(log[|log| - 1]) == key then 1 else 0)
  }

  /** Calls for exactly this name and label set. */
  function CallsFor(log: seq<Increment>, name: string, labels: Labels): nat {
    if log == [] then 0
    else CallsFor(log[..|log| - 1], name, labels) + (if log[|log| - 1] == Increment(name, labels) then 1 else 0)
  }

  function Clamp(seconds: real): real { if seconds < 0.0 then 0.0 else seconds }

  /** Observations of a series of at most `bound` seconds. */
  function AtMost(keyOf: Keying<Observation>, log: seq<Observation>, key: string, bound: real): nat {
    if log == [] then 0
    else
      var last := log[|log| - 1];
      AtMost(keyOf, log[..|log| - 1], key, bound)
      + (if keyOf(last) == key && Clamp(last.seconds) <= bound then 1 else 0)
  }

  function Total(keyOf: Keying<Observation>, log: seq<Observation>, key: string): real {
    if log == [] then 0.0
    else
      var last := log[|log| - 1];
      Total(keyOf, log[..|log| - 1], key) + (if keyOf(last) == key then Clamp(last.seconds) else 0.0)
  }

  // ---------------------------------------------------------------- registry

  datatype MetricSeries = MetricSeries(name: string, labels: Labels, value: nat)

  class HistogramSeries {
    const name: string
    const labels: Labels
    const buckets: array<nat>
    var count: nat
    var sum: real

    constructor (name: string, labels: Labels)
      ensures this.name == name && this.labels == labels && count == 0 && sum == 0.0
      ensures fresh(buckets) && buckets.Length == |BUCKETS| && forall i :: 0 <= i < buckets.Length ==> buckets[i] == 0
    {
      this.name, this.labels, count, sum := name, labels, 0, 0.0;
      buckets := new nat[|BUCKETS|](_ => 0);
    }

    /** One observation: every bucket it fits, the count and the sum. */
    method Add(seconds: real)
      requires buckets.Length == |BUCKETS|
      modifies `count, `sum, buckets
      ensures forall i :: 0 <= i < |BUCKETS| ==>
        buckets[i] == old(buckets[i]) + (if seconds <= BUCKETS[i] then 1 else 0)
      ensures count == old(count) + 1 && sum == old(sum) + seconds
    {
      for i := 0 to |BUCKETS|
        invariant forall j :: 0 <= j < i ==> buckets[j] == old(buckets[j]) + (if seconds <= BUCKETS[j] then 1 else 0)
        invariant forall j :: i <= j < |BUCKETS| ==> buckets[j] == old(buckets[j])
        invariant count == old(count) && sum == old(sum)
      {
        if seconds <= BUCKETS[i] { buckets[i] := buckets[i] + 1; }
      }
      count := count + 1;
      sum := sum + seconds;
    }

    /** What the histogram of one series holds. */
    ghost predicate Summarizes(keyOf: Keying<Observation>, log: seq<Observation>, key: string)
      reads this, buckets
    {
      && buckets.Length == |BUCKETS|
      && (forall i :: 0 <= i < |BUCKETS| ==> buckets[i] == AtMost(keyOf, log, key, BUCKETS[i]))
      && count == CountFor(keyOf, log, key) && sum == Total(keyOf, log, key)
    }
  }

  class Metrics {
    var counters: map<string, MetricSeries>
    var histograms: map<string, HistogramSeries>
    /** Every call that named a metric. */
    ghost var increments: seq<Increment>
    ghost var observations: seq<Observation>

    /** Each counter is the number of its increments, and each increment has one.
        It depends on no field that `HistogramsOk` depends on, so each of the two
        methods below keeps both. */
    ghost predicate CountersOk(keyOf: Keying<Increment>)
      reads `counters, `increments
    {
      && (forall key :: key in counters ==>
            counters[key].name != "" && keyOf(Increment(counters[key].name, counters[key].labels)) == key
            && counters[key].value == CountFor(keyOf, increments, key))
      && (forall key :: key !in counters ==> CountFor(keyOf, increments, key) == 0)
    }

    ghost function Buckets(): set<object>
      reads `histograms
    {
      set key | key in histograms :: histograms[key].buckets
    }

    ghost predicate Separate()
      reads `histograms
    {
      forall a, b :: a in histograms && b in histograms && a != b ==>
        histograms[a] != histograms[b] && histograms[a].buckets != histograms[b].buckets
    }

    ghost predicate HistogramsOk(keyOf: Keying<Observation>)
      reads `histograms, `observations, histograms.Values, Buckets()
    {
      && Separate()
      && (forall key :: key in histograms ==> histograms[key].Summarizes(keyOf, observations, key))
      && (forall key :: key !in histograms ==> CountFor(keyOf, observations, key) == 0)
    }

    constructor ()
      ensures CountersOk(IncrementKey) && HistogramsOk(ObservationKey) && increments == [] && observations == []
    {
      counters, histograms, increments, observations := map[], map[], [], [];
    }

    method IncCounter(name: string, labels: Labels)
      requires CountersOk(IncrementKey)
      modifies `counters, `increments
      ensures CountersOk(IncrementKey)
      ensures increments == if name == "" then old(increments) else old(increments) + [Increment(name, labels)]
      ensures name != "" ==>
              var key := SeriesKey(name, labels);
              && key in counters && counters[key].name != ""
              && counters[key].value == (if key in old(counters) then old(counters)[key].value else 0) + 1
              && counters - {key} == old(counters) - {key}
    {
      if name == "" { return; }
      var key := MakeSeriesKey(name, labels);
      Increase(IncrementKey, key, name, labels);
    }

    method Increase(ghost keyOf: Keying<Increment>, key: string, name: string, labels: Labels)
      requires CountersOk(keyOf) && keyOf(Increment(name, labels)) == key && name != ""
      modifies `counters, `increments
      ensures CountersOk(keyOf)
      ensures increments == old(increments) + [Increment(name, labels)]
      ensures key in counters && counters[key].name != "" && counters - {key} == old(counters) - {key}
      ensures counters[key].value == (if key in old(counters) then old(counters)[key].value else 0) + 1
    {
      var series := if key in counters then counters[key] else MetricSeries("", map[], 0);
      if series.name == "" { series := MetricSeries(name, labels, 0); }
      series := series.(value := series.value + 1);
      counters := counters[key := series];
      increments := increments + [Increment(name, labels)];
      assert increments[..|increments| - 1] == old(increments);
    }

    method ObserveDuration(name: string, seconds: real, labels: Labels)
      requires HistogramsOk(ObservationKey)
      modifies `histograms, `observations, histograms.Values, Buckets()
      ensures HistogramsOk(ObservationKey)
      ensures observations == if name == "" then old(observations)
        else old(observations) + [Observation(name, labels, seconds)]
      ensures name != "" ==>
              var key, clamped := SeriesKey(name, labels), if seconds < 0.0 then 0.0 else seconds;
              && key in histograms
              && histograms[key].count == CountFor(ObservationKey, old(observations), key) + 1
              && histograms[key].sum == Total(ObservationKey, old(observations), key) + clamped
              && histograms[key].buckets.Length == 6
              && forall i :: 0 <= i < 6 ==>
                   histograms[key].buckets[i] ==
                   AtMost(ObservationKey, old(observations), key, BUCKETS[i]) +
                   (if clamped <= [0.005, 0.025, 0.1, 0.25, 1.0, 5.0][i] then 1 else 0)
    {
      if name == "" { return; }
      var clamped := if seconds < 0.0 then 0.0 else seconds;
      var key := MakeSeriesKey(name, labels);
      EnsureHistogram(ObservationKey, key, name, labels);
      ghost var before, o := observations, Observation(name, labels, seconds);
      Record(ObservationKey, key, clamped, o);
      assert histograms[key].Summarizes(ObservationKey, before + [o], key);
      OneObserved(ObservationKey, before, o, key, clamped);
    }

    /** Create the series' histogram if it has none. */
    method EnsureHistogram(ghost keyOf: Keying<Observation>, key: string, name: string, labels: Labels)
      requires HistogramsOk(keyOf)
      modifies `histograms
      ensures HistogramsOk(keyOf) && key in histograms
      ensures forall h :: h in histograms.Values ==> h in old(histograms.Values) || fresh(h)
      ensures forall b :: b in Buckets() ==> b in old(Buckets()) || fresh(b)
    {
      if key !in histograms {
        NothingObserved(keyOf, observations, key);
        var series := new HistogramSeries(name, labels);
        histograms := histograms[key := series];
        assert series.Summarizes(keyOf, observations, key);
      }
    }

    method Record(ghost keyOf: Keying<Observation>, key: string, clamped: real, ghost o: Observation)
      requires HistogramsOk(keyOf) && key in histograms && keyOf(o) == key && clamped == Clamp(o.seconds)
      modifies `observations, histograms.Values, Buckets()
      ensures HistogramsOk(keyOf)
      ensures observations == old(observations) + [o]
    {
      var series := histograms[key];
      assert series.Summarizes(keyOf, observations, key);
      series.Add(clamped);
      observations := observations + [o];
      assert observations[..|observations| - 1] == old(observations);
      forall other | other in histograms && other != key
        ensures histograms[other].Summarizes(keyOf, observations, other)
      {
        assert old(histograms[other].Summarizes(keyOf, observations, other));
      }
    }
  }

  /** What one observation adds to its series. */
  lemma OneObserved(keyOf: Keying<Observation>, log: seq<Observation>, o: Observation, key: string, clamped: real)
    requires keyOf(o) == key && clamped == Clamp(o.seconds)
    ensures CountFor(keyOf, log + [o], key) == CountFor(keyOf, log, key) + 1
    ensures Total(keyOf, log + [o], key) == Total(keyOf, log, key) + clamped
    ensures forall bound ::
      AtMost(keyOf, log + [o], key, bound) == AtMost(keyOf, log, key, bound) + (if clamped <= bound then 1 else 0)
  {
    assert (log + [o])[..|log|] == log;
  }

  lemma {:induction false} NothingObserved(keyOf: Keying<Observation>, log: seq<Observation>, key: string)
    requires CountFor(keyOf, log, key) == 0
    ensures Total(keyOf, log, key) == 0.0 && forall bound :: AtMost(keyOf, log, key, bound) == 0
  {
    if log != [] { NothingObserved(keyOf, log[..|log| - 1], key); }
  }

  // ------------------------------------------------------------ main results

  /** With well-formed names and labels a counter is the number of calls for
      exactly that name and label set. */
  lemma {:induction false} CounterExact(log: seq<Increment>, name: string, labels: Labels)
    requires WellFormed(name, labels) && forall i <- log :: WellFormed(i.name, i.labels)
    ensures CountFor(IncrementKey, log, SeriesKey(name, labels)) == CallsFor(log, name, labels)
  {
    if log != [] {
      var last := log[|log| - 1];
      CounterExact(log[..|log| - 1], name, labels);
      if SeriesKey(last.name, last.labels) == SeriesKey(name, labels) {
        KeysInjective(last.name, last.labels, name, labels);
      }
    }
  }

  /** Larger bounds hold at least as many observations, and none more than there are. */
  lemma {:induction false} Cumulative(keyOf: Keying<Observation>, log: seq<Observation>, key: string, small: real,
      large: real)
    requires small <= large
    ensures AtMost(keyOf, log, key, small) <= AtMost(keyOf, log, key, large) <= CountFor(keyOf, log, key)
  {
    if log != [] { Cumulative(keyOf, log[..|log| - 1], key, small, large); }
  }

  /** In a registry's every state the buckets of every histogram are cumulative
      and bounded by its count. */
  lemma HistogramCumulative(h: HistogramSeries, keyOf: Keying<Observation>, log: seq<Observation>, key: string,
      i: nat, j: nat)
    requires h.Summarizes(keyOf, log, key) && i <= j < |BUCKETS|
    ensures h.buckets[i] <= h.buckets[j] <= h.count
  {
    assert BUCKETS[i] <= BUCKETS[j];
    Cumulative(keyOf, log, key, BUCKETS[i], BUCKETS[j]);
  }
}
