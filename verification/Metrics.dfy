// The two metric stores fed from one stream of values: OpenTelemetry samples, which are absent when
// unavailable, and Prometheus children, which stay and read not-a-number.
module Metrics {
  import opened Wrappers
  import opened MetricPaths

  type Labels = map<string, string>

  /** One exported series. */
  type Series = (Gauge, Labels)

  /** What a value is read as: anything that is no number reads as not-a-number. */
  datatype Reading = Finite(value: real) | Infinite(negative: bool) | NotANumber

  datatype Event =
    | Update(service: string, path: string, reading: Reading)
    | Lost(service: string)

  function OtelSeries(service: string, path: string): Option<Series> {
    match OtelPlace(service, path)
    case None => None
    case Some((gauge, labels)) =>
      var serial := OtelSerial(service);
      Some((gauge, if serial == "" then labels else labels["serial" := serial]))
  }

  function PrometheusSeries(service: string, path: string): Option<Series> {
    match PrometheusPlace(service, path)
    case None => None
    case Some((gauge, labels)) => Some((gauge, labels["serial" := PrometheusSerial(service)]))
  }

  // ---- the OpenTelemetry store ----

  /** Samples by gauge, and who published each active series. */
  datatype Otel = Otel(samples: map<Gauge, map<Labels, real>>, active: map<Series, string>)

  function Samples(st: Otel, gauge: Gauge): map<Labels, real> {
    if gauge in st.samples then st.samples[gauge] else map[]
  }

  function Sample(st: Otel, s: Series): Option<real> {
    if s.1 in Samples(st, s.0) then Some(Samples(st, s.0)[s.1]) else None
  }

  function Publisher(st: Otel, s: Series): Option<string> {
    if s in st.active then Some(st.active[s]) else None
  }

  /** The active series are exactly the sampled ones. */
  ghost predicate Paired(st: Otel) {
    forall s: Series :: Publisher(st, s).Some? <==> Sample(st, s).Some?
  }

  function Publish(st: Otel, s: Series, v: real, service: string): Otel {
    Otel(st.samples[s.0 := Samples(st, s.0)[s.1 := v]], st.active[s := service])
  }

  function Remove(st: Otel, s: Series): Otel {
    Otel(st.samples[s.0 := Samples(st, s.0) - {s.1}], st.active - {s})
  }

  function SetGauge(st: Otel, s: Series, reading: Reading, service: string): Otel {
    match reading
    case Finite(v) => Publish(st, s, v, service)
    case _ => Remove(st, s)
  }

  function UpdateOtel(st: Otel, service: string, path: string, reading: Reading): Otel {
    match OtelSeries(service, path)
    case None => st
    case Some(s) => SetGauge(st, s, reading, service)
  }

  lemma PublishLooks(st: Otel, s: Series, v: real, service: string, t: Series)
    ensures Sample(Publish(st, s, v, service), t) == if t == s then Some(v) else Sample(st, t)
    ensures Publisher(Publish(st, s, v, service), t) == if t == s then Some(service) else Publisher(st, t)
  {
  }

  lemma RemoveLooks(st: Otel, s: Series, t: Series)
    ensures Sample(Remove(st, s), t) == if t == s then None else Sample(st, t)
    ensures Publisher(Remove(st, s), t) == if t == s then None else Publisher(st, t)
  {
  }

  /** `after` is `before` without the series in `gone`. */
  ghost predicate Dropped(before: Otel, gone: set<Series>, after: Otel) {
    forall s: Series ::
      && Sample(after, s) == (if s in gone then None else Sample(before, s))
      && Publisher(after, s) == (if s in gone then None else Publisher(before, s))
  }

  lemma DropOne(before: Otel, gone: set<Series>, after: Otel, s: Series)
    requires Dropped(before, gone, after)
    ensures Dropped(before, gone + {s}, Remove(after, s))
  {
    forall t: Series
      ensures Sample(Remove(after, s), t) == (if t in gone + {s} then None else Sample(before, t))
           && Publisher(Remove(after, s), t) == (if t in gone + {s} then None else Publisher(before, t))
    {
      RemoveLooks(after, s, t);
    }
  }

  function PublishedBy(st: Otel, service: string): set<Series> { set s | s in st.active && st.active[s] == service }

  class VictronMetrics {
    var samples: map<Gauge, map<Labels, real>>
    var activeGauges: map<Series, string>

    constructor ()
      ensures Model() == Otel(map[], map[])
    {
      samples, activeGauges := map[], map[];
    }

    ghost function Model(): Otel
      reads this
    {
      Otel(samples, activeGauges)
    }

    method Set(gauge: Gauge, labels: Labels, v: real)
      modifies this`samples
      ensures samples == old(samples)[gauge := Samples(old(Model()), gauge)[labels := v]]
    {
      var of := if gauge in samples then samples[gauge] else map[];
      samples := samples[gauge := of[labels := v]];
    }

    method RemoveSample(gauge: Gauge, labels: Labels)
      modifies this`samples
      ensures samples == old(samples)[gauge := Samples(old(Model()), gauge) - {labels}]
    {
      var of := if gauge in samples then samples[gauge] else map[];
      samples := samples[gauge := of - {labels}];
    }

    method UpdateGauge(gauge: Gauge, labels: Labels, reading: Reading, service: string)
      modifies this
      ensures Model() == SetGauge(old(Model()), (gauge, labels), reading, service)
    {
      if reading.Finite? {
        Set(gauge, labels, reading.value);
        activeGauges := activeGauges[(gauge, labels) := service];
      } else {
        RemoveSample(gauge, labels);
        activeGauges := activeGauges - {(gauge, labels)};
      }
    }

    method UpdateFromDbus(service: string, path: string, reading: Reading)
      modifies this
      ensures Model() == UpdateOtel(old(Model()), service, path, reading)
    {
      var place := OtelPlace(service, path);
      if place.Some? {
        var (gauge, labels) := place.value;
        var serial := OtelSerial(service);
        if serial != "" {
          labels := labels["serial" := serial];
        }
        UpdateGauge(gauge, labels, reading, service);
      }
    }

    method DropSeries(s: Series)
      modifies this
      ensures Model() == Remove(old(Model()), s)
    {
      RemoveSample(s.0, s.1);
      activeGauges := activeGauges - {s};
    }

    method InvalidateService(service: string)
      modifies this
      ensures Dropped(old(Model()), PublishedBy(old(Model()), service), Model())
    {
      hide Dropped;
      var snapshot := activeGauges;
      var items := snapshot.Keys;
      ghost var before, gone: set<Series> := Model(), {};
      NothingDropped(before);
      while items != {}
        invariant items <= snapshot.Keys && GoneSoFar(snapshot, service, items, gone)
        invariant Dropped(before, gone, Model())
        decreases |items|
      {
        var s :| s in items;
        if snapshot[s] == service {
          DropOne(before, gone, Model(), s);
          DropSeries(s);
          gone := gone + {s};
        }
        items := items - {s};
      }
      assert gone == PublishedBy(before, service);
    }
  }

  ghost predicate GoneSoFar(snapshot: map<Series, string>, service: string, items: set<Series>, gone: set<Series>) {
    forall s :: s in gone <==> s in snapshot.Keys - items && snapshot[s] == service
  }

  lemma NothingDropped(st: Otel)
    ensures Dropped(st, {}, st)
  {
  }
}
