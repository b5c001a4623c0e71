// Whole histories of updates and lost services: both stores show the last writer, so they agree.
module MetricStores {
  import opened Wrappers
  import opened MetricPaths
  import opened Metrics

  // ---- the Prometheus store ----

  /** Children once made stay; a blanked child shows not-a-number. */
  datatype Exposed = Exposed(children: map<Series, Reading>, publishers: map<Series, string>)

  function Child(st: Exposed, s: Series): Reading { if s in st.children then st.children[s] else NotANumber }

  function ChildOwner(st: Exposed, s: Series): Option<string> {
    if s in st.publishers then Some(st.publishers[s]) else None
  }

  function UpdateExposed(st: Exposed, service: string, path: string, reading: Reading): Exposed {
    match PrometheusSeries(service, path)
    case None => st
    case Some(s) => Exposed(st.children[s := reading], st.publishers[s := service])
  }

  function OwnedBy(publishers: map<Series, string>, service: string): set<Series> {
    set s | s in publishers && publishers[s] == service
  }

  function Blank(st: Exposed, gone: set<Series>): Exposed {
    Exposed(map s | s in st.children :: if s in gone then NotANumber else st.children[s], st.publishers - gone)
  }

  class PrometheusGauges {
    var children: map<Series, Reading>
    var publishers: map<Series, string>

    constructor ()
      ensures Model() == Exposed(map[], map[])
    {
      children, publishers := map[], map[];
    }

    ghost function Model(): Exposed
      reads this
    {
      Exposed(children, publishers)
    }

    /** Every published series has its child. */
    ghost predicate Valid()
      reads this
    {
      publishers.Keys <= children.Keys
    }

    method SetGauge(service: string, gauge: Gauge, labels: Labels, reading: Reading)
      requires Valid()
      modifies this
      ensures Valid()
      ensures Model() == Exposed(old(children)[(gauge, labels) := reading], old(publishers)[(gauge, labels) := service])
    {
      children := children[(gauge, labels) := reading];
      publishers := publishers[(gauge, labels) := service];
    }

    method UpdateFromDbus(service: string, path: string, reading: Reading)
      requires Valid()
      modifies this
      ensures Valid() && Model() == UpdateExposed(old(Model()), service, path, reading)
    {
      var place := PrometheusPlace(service, path);
      if place.Some? {
        SetGauge(service, place.value.0, place.value.1["serial" := PrometheusSerial(service)], reading);
      }
    }

    method BlankSeries(s: Series, ghost before: Exposed, ghost gone: set<Series>)
      requires Valid() && Model() == Blank(before, gone) && s in before.children
      modifies this
      ensures Valid() && Model() == Blank(before, gone + {s})
    {
      BlankOne(before, gone, s);
      children := children[s := NotANumber];
      publishers := publishers - {s};
    }

    method InvalidateService(service: string)
      requires Valid()
      modifies this
      ensures Valid() && Model() == Blank(old(Model()), OwnedBy(old(publishers), service))
    {
      var snapshot := publishers;
      var items := snapshot.Keys;
      ghost var before, gone: set<Series> := Model(), {};
      assert Model() == Blank(before, gone);
      hide Blank;
      while items != {}
        invariant items <= snapshot.Keys && GoneSoFar(snapshot, service, items, gone)
        invariant Valid() && Model() == Blank(before, gone)
        decreases |items|
      {
        var s :| s in items;
        if snapshot[s] == service {
          BlankSeries(s, before, gone);
          gone := gone + {s};
        }
        items := items - {s};
      }
      assert gone == OwnedBy(before.publishers, service);
    }
  }

  lemma BlankOne(st: Exposed, gone: set<Series>, s: Series)
    requires s in st.children
    ensures Blank(st, gone + {s}).children == Blank(st, gone).children[s := NotANumber]
    ensures Blank(st, gone + {s}).publishers == Blank(st, gone).publishers - {s}
  {
  }

  // ---- histories ----

  ghost predicate OtelStep(before: Otel, e: Event, after: Otel) {
    match e
    case Update(service, path, reading) => after == UpdateOtel(before, service, path, reading)
    case Lost(service) => Dropped(before, PublishedBy(before, service), after)
  }

  function ExposedStep(st: Exposed, e: Event): Exposed {
    match e
    case Update(service, path, reading) => UpdateExposed(st, service, path, reading)
    case Lost(service) => Blank(st, OwnedBy(st.publishers, service))
  }

  /** The store after each event, from the empty one. */
  ghost predicate OtelHistory(log: seq<Event>, states: seq<Otel>) {
    |states| == |log| + 1 && states[0] == Otel(map[], map[])
    && forall i :: 0 <= i < |log| ==> OtelStep(states[i], log[i], states[i + 1])
  }

  function ExposedAfter(log: seq<Event>): Exposed {
    if log == [] then Exposed(map[], map[]) else ExposedStep(ExposedAfter(log[..|log| - 1]), log[|log| - 1])
  }

  datatype Exporter = OpenTelemetry | Prometheus

  function SeriesOf(x: Exporter, service: string, path: string): Option<Series> {
    match x case OpenTelemetry => OtelSeries(service, path) case Prometheus => PrometheusSeries(service, path)
  }

  predicate Writes(x: Exporter, e: Event, s: Series) { e.Update? && SeriesOf(x, e.service, e.path) == Some(s) }

  ghost predicate LastWrite(x: Exporter, log: seq<Event>, s: Series, service: string, r: Reading, i: nat) {
    && i < |log| && Writes(x, log[i], s) && log[i].service == service && log[i].reading == r
    && forall j :: i < j < |log| ==> !Writes(x, log[j], s) && log[j] != Lost(service)
  }

  /** The last update of the series was this reading, and its service has not been lost since. */
  ghost predicate Published(x: Exporter, log: seq<Event>, s: Series, service: string, r: Reading) {
    exists i: nat :: LastWrite(x, log, s, service, r, i)
  }

  lemma PublishedStep(x: Exporter, log: seq<Event>, e: Event, s: Series, service: string, r: Reading)
    ensures Published(x, log + [e], s, service, r) <==>
              if Writes(x, e, s) then e.service == service && e.reading == r
              else e != Lost(service) && Published(x, log, s, service, r)
  {
    var more := log + [e];
    if Writes(x, e, s) {
      if e.service == service && e.reading == r {
        assert LastWrite(x, more, s, service, r, |log|);
      }
    } else if e != Lost(service) && Published(x, log, s, service, r) {
      var i: nat :| LastWrite(x, log, s, service, r, i);
      assert LastWrite(x, more, s, service, r, i);
    }
    if Published(x, more, s, service, r) {
      var i: nat :| LastWrite(x, more, s, service, r, i);
      assert more[|log|] == e;
      if i < |log| {
        forall j | i < j < |log| ensures !Writes(x, log[j], s) && log[j] != Lost(service) {
          assert more[j] == log[j];
        }
        assert more[i] == log[i];
        assert LastWrite(x, log, s, service, r, i);
      }
    }
  }

  ghost predicate Shows(st: Otel, s: Series, service: string, v: real) {
    Sample(st, s) == Some(v) && Publisher(st, s) == Some(service)
  }

  ghost predicate Exposes(st: Exposed, s: Series, service: string, r: Reading) {
    Child(st, s) == r && ChildOwner(st, s) == Some(service)
  }

  /** The OpenTelemetry store shows exactly the last writers, and its two dictionaries have the same series. */
  lemma {:induction false} OtelShowsLastWriters(log: seq<Event>, states: seq<Otel>)
    requires OtelHistory(log, states)
    ensures Paired(states[|log|])
    ensures forall s, service, v :: Shows(states[|log|], s, service, v) <==>
        Published(OpenTelemetry, log, s, service, Finite(v))
    decreases |log|
  {
    var n := |log|;
    if n == 0 {
      return;
    }
    var init, e := log[..n - 1], log[n - 1];
    assert log == init + [e];
    OtelShowsLastWriters(init, states[..n]);
    var before, after := states[n - 1], states[n];
    forall s: Series
      ensures Publisher(after, s).Some? <==> Sample(after, s).Some?
    {
      OtelStepLooks(before, e, after, s);
      assert Publisher(before, s).Some? <==> Sample(before, s).Some?;
    }
    forall s, service, v
      ensures Shows(after, s, service, v) <==> Published(OpenTelemetry, log, s, service, Finite(v))
    {
      PublishedStep(OpenTelemetry, init, e, s, service, Finite(v));
      OtelStepLooks(before, e, after, s);
      assert Shows(before, s, service, v) <==> Published(OpenTelemetry, init, s, service, Finite(v));
    }
  }

  lemma OtelStepLooks(before: Otel, e: Event, after: Otel, s: Series)
    requires OtelStep(before, e, after)
    ensures Writes(OpenTelemetry, e, s) && e.reading.Finite? ==> Shows(after, s, e.service, e.reading.value)
    ensures Writes(OpenTelemetry, e, s) && !e.reading.Finite? ==> Sample(after, s).None? && Publisher(after, s).None?
    ensures !Writes(OpenTelemetry, e, s) && e.Lost? && Publisher(before, s) == Some(e.service) ==>
              Sample(after, s).None? && Publisher(after, s).None?
    ensures !Writes(OpenTelemetry, e, s) && !(e.Lost? && Publisher(before, s) == Some(e.service)) ==>
              Sample(after, s) == Sample(before, s) && Publisher(after, s) == Publisher(before, s)
  {
    if e.Update? && OtelSeries(e.service, e.path).Some? {
      var t := OtelSeries(e.service, e.path).value;
      RemoveLooks(before, t, s);
      if e.reading.Finite? {
        PublishLooks(before, t, e.reading.value, e.service, s);
      }
    }
  }

  /** A Prometheus child that shows a number has a publisher, and together they are exactly the last writers. */
  lemma {:induction false} ExposedShowsLastWriters(log: seq<Event>)
    ensures forall s :: Child(ExposedAfter(log), s) != NotANumber ==> ChildOwner(ExposedAfter(log), s).Some?
    ensures forall s, service, r :: r != NotANumber ==>
              (Exposes(ExposedAfter(log), s, service, r) <==> Published(Prometheus, log, s, service, r))
    decreases |log|
  {
    var n := |log|;
    if n == 0 {
      return;
    }
    var init, e := log[..n - 1], log[n - 1];
    assert log == init + [e];
    ExposedShowsLastWriters(init);
    var before := ExposedAfter(init);
    forall s: Series
      ensures Child(ExposedStep(before, e), s) != NotANumber ==> ChildOwner(ExposedStep(before, e), s).Some?
    {
      assert Child(before, s) != NotANumber ==> ChildOwner(before, s).Some?;
    }
    forall s, service, r | r != NotANumber
      ensures Exposes(ExposedStep(before, e), s, service, r) <==> Published(Prometheus, log, s, service, r)
    {
      PublishedStep(Prometheus, init, e, s, service, r);
      assert Exposes(before, s, service, r) <==> Published(Prometheus, init, s, service, r);
    }
  }

  // ---- the two stores agree ----

  /** The attributes of a Prometheus series in the other store, which leaves out an empty serial number. */
  function Attributes(s: Series): Series {
    (s.0, if "serial" in s.1 && s.1["serial"] == "" then s.1 - {"serial"} else s.1)
  }

  lemma AttributesTell(s: Series, t: Series)
    requires "serial" in s.1 && "serial" in t.1 && Attributes(s) == Attributes(t)
    ensures s == t
  {
    if s.1["serial"] == "" {
      assert "serial" !in Attributes(t).1;
      assert s.1 == (s.1 - {"serial"})["serial" := ""] && t.1 == (t.1 - {"serial"})["serial" := ""];
    } else {
      assert "serial" in Attributes(t).1;
    }
  }

  /** A value goes to the same series in both stores unless its service has two or three name parts. */
  lemma SeriesAgree(service: string, path: string)
    requires PrometheusSeries(service, path).Some?
    ensures OtelSeries(service, path) == Some(Attributes(PrometheusSeries(service, path).value)) <==>
              |Split(service, '.')| !in {2, 3}
    ensures "serial" in PrometheusSeries(service, path).value.1
  {
    PlacesAgree(service, path);
    SerialsAgree(service);
    var labels := OtelPlace(service, path).value.1;
    assert "serial" !in labels;
    assert labels["serial" := ""] - {"serial"} == labels;
    if OtelSerial(service) != PrometheusSerial(service) {
      var a, b := OtelSeries(service, path).value, Attributes(PrometheusSeries(service, path).value);
      assert OtelSerial(service) != "" ==> "serial" in a.1 && a.1["serial"] == OtelSerial(service);
      assert PrometheusSerial(service) != "" ==> "serial" in b.1 && b.1["serial"] == PrometheusSerial(service);
      assert OtelSerial(service) == "" ==> "serial" !in a.1;
      assert PrometheusSerial(service) == "" ==> "serial" !in b.1;
    }
  }

  /** A service name of two or three dotted parts. */
  predicate IsShort(service: string) { |Split(service, '.')| in {2, 3} }

  lemma WritesAgree(e: Event, s: Series)
    requires (e.Update? ==> !IsShort(e.service)) && "serial" in s.1
    ensures Writes(Prometheus, e, s) <==> Writes(OpenTelemetry, e, Attributes(s))
  {
    if e.Update? {
      PlacesAgree(e.service, e.path);
      if PrometheusSeries(e.service, e.path).Some? {
        var t := PrometheusSeries(e.service, e.path).value;
        SeriesAgree(e.service, e.path);
        if Attributes(t) == Attributes(s) {
          AttributesTell(s, t);
        }
      }
    }
  }

  /** What both stores show of one series. */
  ghost predicate AgreeOn(log: seq<Event>, s: Series, service: string, v: real) {
    Published(OpenTelemetry, log, Attributes(s), service, Finite(v)) <==>
      Published(Prometheus, log, s, service, Finite(v))
  }

  ghost predicate Agree(log: seq<Event>) {
    forall s: Series, service, v :: "serial" in s.1 ==> AgreeOn(log, s, service, v)
  }

  ghost predicate ShowsNothing(x: Exporter, log: seq<Event>, s: Series) {
    forall service, v :: !Published(x, log, s, service, Finite(v))
  }

  /** A value from a short name does no harm when it is not finite and neither of its two series shows anything. */
  ghost predicate Harmless(log: seq<Event>, e: Event) {
    e.Update? && IsShort(e.service) && OtelSeries(e.service, e.path).Some?
      && PrometheusSeries(e.service, e.path).Some? ==>
      && !e.reading.Finite?
      && ShowsNothing(Prometheus, log, PrometheusSeries(e.service, e.path).value)
      && ShowsNothing(OpenTelemetry, log, OtelSeries(e.service, e.path).value)
  }

  /** Where a value from a short name goes: to series that never mean the same. */
  lemma ShortGoesApart(service: string, path: string)
    requires IsShort(service)
    ensures OtelSeries(service, path).Some? <==> PrometheusSeries(service, path).Some?
    ensures OtelSeries(service, path).Some? ==>
              var o, p := OtelSeries(service, path).value, PrometheusSeries(service, path).value;
              && "serial" in o.1 && o.1["serial"] == service && Attributes(o) == o
              && "serial" in p.1 && p.1["serial"] == PrometheusSerial(service) != service
              && Attributes(p) != o && p != o
  {
    PlacesAgree(service, path);
    SplitCounts(service, '.');
  }

  lemma OtherEventsAgree(log: seq<Event>, e: Event)
    requires e.Update? ==> !IsShort(e.service) || OtelSeries(e.service, e.path).None?
    requires Agree(log)
    ensures Agree(log + [e])
  {
    forall s: Series, service, v | "serial" in s.1 ensures AgreeOn(log + [e], s, service, v) {
      assert AgreeOn(log, s, service, v);
      if e.Update? {
        PlacesAgree(e.service, e.path);
        if !IsShort(e.service) { WritesAgree(e, s); }
      }
      PublishedStep(OpenTelemetry, log, e, Attributes(s), service, Finite(v));
      PublishedStep(Prometheus, log, e, s, service, Finite(v));
    }
  }

  lemma HarmlessAgrees(log: seq<Event>, e: Event)
    requires e.Update? && IsShort(e.service) && OtelSeries(e.service, e.path).Some? && Harmless(log, e) && Agree(log)
    ensures Agree(log + [e])
  {
    ShortGoesApart(e.service, e.path);
    var o, p := OtelSeries(e.service, e.path).value, PrometheusSeries(e.service, e.path).value;
    forall s: Series, service, v | "serial" in s.1 ensures AgreeOn(log + [e], s, service, v) {
      assert AgreeOn(log, s, service, v) && AgreeOn(log, p, service, v) && AgreeOn(log, o, service, v);
      PublishedStep(OpenTelemetry, log, e, Attributes(s), service, Finite(v));
      PublishedStep(Prometheus, log, e, s, service, Finite(v));
      assert !Published(Prometheus, log, p, service, Finite(v))
          && !Published(OpenTelemetry, log, o, service, Finite(v));
      if Attributes(s) == o {
        AttributesTell(s, o);
      }
    }
  }

  /**
   * A finite value from a service name of two or three parts makes the stores differ, after any history:
   * Prometheus shows it, and OpenTelemetry shows nothing from that service under the same labels.
   */
  lemma ShortNamesDiffer(log: seq<Event>, service: string, path: string, v: real, states: seq<Otel>)
    requires IsShort(service) && PrometheusSeries(service, path).Some?
    requires OtelHistory(log + [Update(service, path, Finite(v))], states)
    ensures var s := PrometheusSeries(service, path).value;
            && Exposes(ExposedAfter(log + [Update(service, path, Finite(v))]), s, service, Finite(v))
            && Publisher(states[|log| + 1], Attributes(s)) != Some(service)
  {
    var e, s := Update(service, path, Finite(v)), PrometheusSeries(service, path).value;
    var more := log + [e];
    OtelShowsLastWriters(more, states);
    ExposedShowsLastWriters(more);
    PublishedStep(Prometheus, log, e, s, service, Finite(v));
    if Publisher(states[|more|], Attributes(s)) == Some(service) {
      var w := Sample(states[|more|], Attributes(s)).value;
      assert Shows(states[|more|], Attributes(s), service, w);
      NeverUnderThatSerial(more, service, path, w);
    }
  }

  lemma NeverUnderThatSerial(log: seq<Event>, service: string, path: string, w: real)
    requires IsShort(service) && PrometheusSeries(service, path).Some?
    ensures !Published(OpenTelemetry, log, Attributes(PrometheusSeries(service, path).value), service, Finite(w))
  {
    var s := PrometheusSeries(service, path).value;
    ShortGoesApart(service, path);
    forall i | 0 <= i < |log| && log[i].Update? && log[i].service == service
      ensures !Writes(OpenTelemetry, log[i], Attributes(s))
    {
      ShortGoesApart(service, log[i].path);
    }
  }

  lemma HarmfulDiffers(log: seq<Event>, e: Event)
    requires Agree(log) && !Harmless(log, e)
    ensures !Agree(log + [e])
  {
    ShortGoesApart(e.service, e.path);
    var o, p := OtelSeries(e.service, e.path).value, PrometheusSeries(e.service, e.path).value;
    if e.reading.Finite? {
      var v := e.reading.value;
      PublishedStep(Prometheus, log, e, p, e.service, Finite(v));
      NeverUnderThatSerial(log + [e], e.service, e.path, v);
      assert !AgreeOn(log + [e], p, e.service, v);
    } else if !ShowsNothing(Prometheus, log, p) {
      var service, v :| Published(Prometheus, log, p, service, Finite(v));
      Departs(log, e, p, service, v);
    } else {
      var service, v :| Published(OpenTelemetry, log, o, service, Finite(v));
      Departs(log, e, o, service, v);
    }
  }

  /** Only one of the two series is taken away. */
  lemma Departs(log: seq<Event>, e: Event, s: Series, service: string, v: real)
    requires e.Update? && "serial" in s.1 && AgreeOn(log, s, service, v)
        && Published(Prometheus, log, s, service, Finite(v))
    requires !e.reading.Finite? && (Writes(Prometheus, e, s) <==> !Writes(OpenTelemetry, e, Attributes(s)))
    ensures !Agree(log + [e])
  {
    PublishedStep(Prometheus, log, e, s, service, Finite(v));
    PublishedStep(OpenTelemetry, log, e, Attributes(s), service, Finite(v));
    assert !AgreeOn(log + [e], s, service, v);
  }

  lemma AgreesNext(log: seq<Event>, e: Event)
    requires Agree(log)
    ensures Agree(log + [e]) <==> Harmless(log, e)
  {
    if !Harmless(log, e) {
      HarmfulDiffers(log, e);
    } else if e.Update? && IsShort(e.service) && OtelSeries(e.service, e.path).Some? {
      ShortGoesApart(e.service, e.path);
      HarmlessAgrees(log, e);
    } else {
      OtherEventsAgree(log, e);
    }
  }

  /** The two stores show the same values and publishers. */
  ghost predicate StoresMatch(otel: Otel, exposed: Exposed) {
    forall s: Series, service, v :: "serial" in s.1 ==>
      (Shows(otel, Attributes(s), service, v) <==> Exposes(exposed, s, service, Finite(v)))
  }

  lemma MatchIsAgree(log: seq<Event>, states: seq<Otel>, n: nat)
    requires OtelHistory(log, states) && n <= |log|
    ensures StoresMatch(states[n], ExposedAfter(log[..n])) <==> Agree(log[..n])
  {
    OtelShowsLastWriters(log[..n], states[..n + 1]);
    ExposedShowsLastWriters(log[..n]);
    forall s: Series, service, v
      ensures Shows(states[n], Attributes(s), service, v) <==>
                Published(OpenTelemetry, log[..n], Attributes(s), service, Finite(v))
      ensures Exposes(ExposedAfter(log[..n]), s, service, Finite(v)) <==>
                Published(Prometheus, log[..n], s, service, Finite(v))
      ensures AgreeOn(log[..n], s, service, v) <==>
                (Shows(states[n], Attributes(s), service, v) <==>
                  Exposes(ExposedAfter(log[..n]), s, service, Finite(v)))
    {
    }
  }

  lemma NothingAgrees()
    ensures Agree([])
  {
  }

  lemma {:induction false} AgreeThroughout(log: seq<Event>, n: nat)
    requires n <= |log|
    ensures (forall k :: 0 <= k <= n ==> Agree(log[..k])) <==> forall k :: 0 <= k < n ==> Harmless(log[..k], log[k])
    decreases n
  {
    hide Agree, Harmless;
    if n == 0 {
      assert log[..0] == [];
      NothingAgrees();
    } else {
      AgreeThroughout(log, n - 1);
      assert log[..n] == log[..n - 1] + [log[n - 1]];
      if Agree(log[..n - 1]) {
        AgreesNext(log[..n - 1], log[n - 1]);
      }
    }
  }

  /**
   * Whatever is updated and lost, the two stores show the same values from the same publishers at every
   * moment, if and only if no value from a service name of two or three parts is finite or takes one away.
   */
  lemma StoresAgree(log: seq<Event>, states: seq<Otel>)
    requires OtelHistory(log, states)
    ensures (forall n :: 0 <= n <= |log| ==> StoresMatch(states[n], ExposedAfter(log[..n])))
       <==> forall n :: 0 <= n < |log| ==> Harmless(log[..n], log[n])
  {
    AgreeThroughout(log, |log|);
    forall n | 0 <= n <= |log| ensures StoresMatch(states[n], ExposedAfter(log[..n])) <==> Agree(log[..n]) {
      MatchIsAgree(log, states, n);
    }
  }
}
