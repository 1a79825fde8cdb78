/**
 What the store holds after any history of observations and scrapes, told from the history alone: which series exist,
 what each of them has seen, and what a scrape shows of it.
 */
module PromHistory {
  import opened PromNames
  import opened PromRegistry
  import opened PromStore
  import opened PromScrape
  import opened ExplicitBuckets
  import opened Options

  /** An observation as far as a series is concerned, and when it arrived. */
  datatype Seen = Seen(value: real, time: Time, now: Time)

  /** The metric name without the configured prefix. */
  function SourceOf(config: Config, m: Metric): string {
    if config.trimPrefix <= m.name then m.name[|config.trimPrefix|..] else m.name
  }

  /** The family an observation belongs to. */
  function FamilyOf(config: Config, m: Metric): string {
    FamilyName(SourceOf(config, m), m.typ)
  }

  /**
   The stored observations of one family and label list since the series was created: a scrape ends the series when
   the last of them arrived before its cutoff.
   */
  function History(config: Config, events: seq<Event>, family: string, labels: seq<Label>): seq<Seen> {
    if events == [] then []
    else
      var before := events[..|events| - 1];
      var h := History(config, before, family, labels);
      match events[|events| - 1]
      case Observation(m, now) =>
        if Stores(config, Replay(config, before), m) && FamilyOf(config, m) == family && LabelsOf(m) == Some(labels)
        then h + [Seen(m.value, m.time, now)] else h
      case Scrape(clock) => if h != [] && h[|h| - 1].now < clock - config.timeout then [] else h
  }

  /** The first stored observation of a family, which gives it its type and bounds. */
  function Founder(config: Config, events: seq<Event>, family: string): Option<Metric> {
    if events == [] then None
    else
      var before := events[..|events| - 1];
      var first := Founder(config, before, family);
      if first.Some? then first
      else
        match events[|events| - 1]
        case Observation(m, _) =>
          if Stores(config, Replay(config, before), m) && FamilyOf(config, m) == family then Some(m) else None
        case Scrape(_) => None
  }

  function ValuesOf(h: seq<Seen>): seq<real> {
    seq(|h|, i requires 0 <= i < |h| => h[i].value)
  }

  function TimesOf(h: seq<Seen>): seq<Time> {
    seq(|h|, i requires 0 <= i < |h| => h[i].time)
  }

  /** The series with these labels in the store, if there is one. */
  function Lookup(st: Store, family: string, labels: seq<Label>): Option<Series> {
    var key := LabelsKey(labels);
    if family in st.families && key in st.families[family].series then Some(st.families[family].series[key]) else None
  }

  /** A series holds exactly its history. */
  predicate HoldsHistory(found: Option<Series>, labels: seq<Label>, h: seq<Seen>) {
    && (found.Some? <==> h != [])
    && (found.Some? ==>
          && found.value.labels == labels
          && found.value.seen == ValuesOf(h) && found.value.stamps == TimesOf(h)
          && found.value.updated == h[|h| - 1].now)
  }

  // ---- one event ----

  lemma ObservedHolds(f: Family, s: Option<Series>, labels: seq<Label>, m: Metric, now: Time, h: seq<Seen>)
    requires HoldsHistory(s, labels, h) && f.typ == m.typ
    requires s.Some? && m.typ.Histogram? ==> |s.value.counts| == |f.bounds| + 1
    ensures var t := Observed(f, if s.Some? then s.value else NewSeries(f, labels, m), m, now);
            HoldsHistory(Some(t), labels, h + [Seen(m.value, m.time, now)])
  {
    var more := h + [Seen(m.value, m.time, now)];
    assert ValuesOf(more) == ValuesOf(h) + [m.value] && TimesOf(more) == TimesOf(h) + [m.time];
    if s.None? { assert ValuesOf(h) == [] && TimesOf(h) == []; }
  }

  lemma CountsFit(f: Family, key: string)
    requires FamilyOk(f) && key in f.series && f.typ.Histogram?
    ensures |f.series[key].counts| == |f.bounds| + 1
  {
    assert SeriesOk(f, key, f.series[key]);
  }

  lemma StoredFamilies(config: Config, st: Store, m: Metric, now: Time)
    requires Sane(st) && Stores(config, st, m)
    ensures FamilyFor(config, st.families, m).typ == m.typ && FamilyOk(FamilyFor(config, st.families, m))
    ensures AfterObserve(config, st, m, now).families ==
      st.families[FamilyOf(config, m) := Folded(FamilyFor(config, st.families, m), LabelsOf(m).value, m, now)]
  {
    hide FamilyOk, Consistent, StoreOk, LabelsKey, LabelsOf, FamilyName, Accepts, Enrolled, Increasing, Folded;
    hide FamilyFor;
    StoredFamily(config, st, m);
  }

  /** The series an observation goes to, and what it becomes. */
  function Updated(config: Config, st: Store, m: Metric, now: Time): Series
    requires Sane(st) && Stores(config, st, m)
  {
    StoredFamily(config, st, m);
    var f, own := FamilyFor(config, st.families, m), LabelsOf(m).value;
    var s := Lookup(st, FamilyOf(config, m), own);
    if s.Some? && m.typ.Histogram? then
      CountsFit(f, LabelsKey(own));
      Observed(f, s.value, m, now)
    else Observed(f, if s.Some? then s.value else NewSeries(f, own, m), m, now)
  }

  /** A stored observation changes the series of its own family and labels only. */
  lemma StoredLookup(config: Config, st: Store, m: Metric, now: Time, family: string, labels: seq<Label>)
    requires Sane(st) && Stores(config, st, m)
    ensures Lookup(AfterObserve(config, st, m, now), family, labels) ==
      if family == FamilyOf(config, m) && LabelsKey(labels) == LabelsKey(LabelsOf(m).value)
      then Some(Updated(config, st, m, now)) else Lookup(st, family, labels)
  {
    hide FamilyOk, Sane, Stores, LabelsKey, LabelsOf, FamilyOf, AfterObserve, Observed, NewSeries;
    StoredFamilies(config, st, m, now);
    FamilyIs(config, st, m);
  }

  lemma FamilyIs(config: Config, st: Store, m: Metric)
    ensures var f, name := FamilyFor(config, st.families, m), FamilyOf(config, m);
            if name in st.families then f == st.families[name] else f.series == map[]
  {
    hide FamilyName;
  }

  lemma RefusedLookup(config: Config, st: Store, m: Metric, now: Time)
    requires Sane(st) && !Stores(config, st, m)
    ensures AfterObserve(config, st, m, now).families == st.families
  {
    hide FamilyOk, Consistent, StoreOk, LabelsOf, FamilyName, Accepts, Increasing;
  }

  lemma ScrapeLookup(config: Config, st: Store, clock: Time, family: string, labels: seq<Label>)
    ensures var s := Lookup(st, family, labels);
            Lookup(AfterScrape(config, st, clock), family, labels) ==
              if s.Some? && s.value.updated >= clock - config.timeout then s else None
  {
    hide LabelsKey;
  }

  // ---- any history ----

  lemma ObservationHolds(
      config: Config, st: Store, m: Metric, now: Time, family: string, labels: seq<Label>, h: seq<Seen>)
    requires Sane(st) && HoldsHistory(Lookup(st, family, labels), labels, h)
    ensures var stored := Stores(config, st, m) && FamilyOf(config, m) == family && LabelsOf(m) == Some(labels);
            HoldsHistory(Lookup(AfterObserve(config, st, m, now), family, labels), labels,
              if stored then h + [Seen(m.value, m.time, now)] else h)
  {
    hide LabelsKey, AfterObserve, Stores, LabelsOf, Sane, FamilyOf, HoldsHistory, Updated, Lookup;
    if Stores(config, st, m) {
      StoredHasLabels(config, st, m);
      StoredLookup(config, st, m, now, family, labels);
      var own := LabelsOf(m).value;
      if family == FamilyOf(config, m) && LabelsKey(labels) == LabelsKey(own) {
        KeyIsUnique(labels, own);
        UpdatedHolds(config, st, m, now, h);
      }
    } else {
      RefusedLookup(config, st, m, now);
      SameLookup(st, AfterObserve(config, st, m, now), family, labels);
    }
  }

  lemma StoredHasLabels(config: Config, st: Store, m: Metric)
    requires Stores(config, st, m)
    ensures LabelsOf(m).Some?
  {
    hide LabelsOf, Accepts, Increasing;
  }

  lemma SameLookup(st: Store, t: Store, family: string, labels: seq<Label>)
    requires t.families == st.families
    ensures Lookup(t, family, labels) == Lookup(st, family, labels)
  {
    hide LabelsKey;
  }

  lemma UpdatedHolds(config: Config, st: Store, m: Metric, now: Time, h: seq<Seen>)
    requires Sane(st) && Stores(config, st, m)
    requires HoldsHistory(Lookup(st, FamilyOf(config, m), LabelsOf(m).value), LabelsOf(m).value, h)
    ensures HoldsHistory(Some(Updated(config, st, m, now)), LabelsOf(m).value, h + [Seen(m.value, m.time, now)])
  {
    StoredFamily(config, st, m);
    FamilyIs(config, st, m);
    hide LabelsOf, FamilyOf, FamilyOk, Sane, Stores, HoldsHistory, Observed, NewSeries, LabelsKey;
    var f, own := FamilyFor(config, st.families, m), LabelsOf(m).value;
    var s := Lookup(st, FamilyOf(config, m), own);
    if s.Some? && m.typ.Histogram? { CountsFit(f, LabelsKey(own)); }
    ObservedHolds(f, s, own, m, now, h);
  }

  /** After any history, the stored series are exactly those with a history, and each holds exactly its own. */
  lemma {:induction false} SeriesIsHistory(config: Config, events: seq<Event>, family: string, labels: seq<Label>)
    ensures HoldsHistory(
              Lookup(Replay(config, events), family, labels), labels, History(config, events, family, labels))
    decreases |events|
  {
    hide AfterObserve, Stores, LabelsKey, LabelsOf, FamilyOf, Sane;
    if events != [] {
      var before := events[..|events| - 1];
      SeriesIsHistory(config, before, family, labels);
      var st, h := Replay(config, before), History(config, before, family, labels);
      match events[|events| - 1]
      case Observation(m, now) =>
        ObservationHolds(config, st, m, now, family, labels, h);
        AfterObserveSane(config, st, m, now);
      case Scrape(clock) =>
        ScrapeLookup(config, st, clock, family, labels);
        AfterScrapeSane(config, st, clock);
    }
  }

  // ---- families ----

  predicate Founded(config: Config, families: map<string, Family>, family: string, first: Option<Metric>) {
    && (family in families <==> first.Some?)
    && (first.Some? ==>
          && families[family].typ == first.value.typ
          && families[family].bounds == if first.value.typ.Histogram? then config.buckets(first.value.name) else [])
  }

  lemma ObservationFounds(config: Config, st: Store, m: Metric, now: Time, family: string, first: Option<Metric>)
    requires Sane(st) && Founded(config, st.families, family, first)
    ensures Founded(config, AfterObserve(config, st, m, now).families, family,
              if first.None? && Stores(config, st, m) && FamilyOf(config, m) == family then Some(m) else first)
  {
    hide AfterObserve, Stores, Sane, LabelsOf, FamilyOk, FamilyOf;
    if Stores(config, st, m) {
      StoredFamilies(config, st, m, now);
      StoredHasLabels(config, st, m);
      FamilyFounds(config, st, m, now);
    } else {
      RefusedLookup(config, st, m, now);
    }
  }

  lemma FamilyFounds(config: Config, st: Store, m: Metric, now: Time)
    requires Sane(st) && Stores(config, st, m)
    ensures var f := FamilyFor(config, st.families, m);
            && f.typ == m.typ && FamilyOk(f) && LabelsOf(m).Some?
            && var g := Folded(f, LabelsOf(m).value, m, now);
               && g.typ == f.typ && g.bounds == f.bounds
               && if FamilyOf(config, m) in st.families then f == st.families[FamilyOf(config, m)]
                  else f.bounds == if m.typ.Histogram? then config.buckets(m.name) else []
  {
    StoredFamily(config, st, m);
    hide FamilyOk, Consistent, StoreOk, LabelsKey, LabelsOf, FamilyName, Accepts, Increasing, Observed, NewSeries;
  }

  /** A family exists from its first stored observation on, and has the type and bounds of that one for ever. */
  lemma {:induction false} FamilyIsFounded(config: Config, events: seq<Event>, family: string)
    ensures Founded(config, Replay(config, events).families, family, Founder(config, events, family))
    decreases |events|
  {
    hide AfterObserve, Stores, FamilyOf, Sane;
    if events != [] {
      var before := events[..|events| - 1];
      FamilyIsFounded(config, before, family);
      var st := Replay(config, before);
      match events[|events| - 1]
      case Observation(m, now) =>
        ObservationFounds(config, st, m, now, family, Founder(config, before, family));
        AfterObserveSane(config, st, m, now);
      case Scrape(clock) =>
        AfterScrapeSane(config, st, clock);
    }
  }

  // ---- what a scrape shows ----

  /** The lines of a series, told from its history. */
  predicate Shows(
      lines: seq<Sample>, family: string, first: Metric, bounds: seq<real>, format: real -> string,
      labels: seq<Label>, h: seq<Seen>)
  {
    var vs := ValuesOf(h);
    match first.typ
    case Counter => lines == [Sample(family, labels, Real(SumOf(vs)))]
    case Gauge =>
      exists i | 0 <= i < |h| :: Newest(TimesOf(h), i) && lines == [Sample(family, labels, Real(h[i].value))]
    case Histogram =>
      var n := |bounds|;
      && |lines| == n + 3
      && (forall i :: 0 <= i < n ==>
            lines[i] == Sample(family + "_bucket", labels + [Label("le", format(bounds[i]))],
                               Count(AtOrBelow(vs, bounds[i]))))
      && lines[n] == Sample(family + "_bucket", labels + [Label("le", "+Inf")], Count(|vs|))
      && lines[n + 1] == Sample(family + "_sum", labels, Real(SumOf(vs)))
      && lines[n + 2] == Sample(family + "_count", labels, Count(|vs|))
  }

  lemma GaugeShows(f: Family, key: string, family: string, format: real -> string, first: Metric, h: seq<Seen>)
    requires FamilyOk(f) && key in f.series && f.typ.Gauge? && first.typ.Gauge?
    requires HoldsHistory(Some(f.series[key]), f.series[key].labels, h)
    ensures Shows(Lines(family, f, format, f.series[key]), family, first, f.bounds, format, f.series[key].labels, h)
  {
    hide LabelsKey, LabelsOk, Newest;
    var s := f.series[key];
    assert SeriesOk(f, key, s);
    var i :| 0 <= i < |s.stamps| && Newest(s.stamps, i) && s.value == s.seen[i] && s.gaugeTime == s.stamps[i];
    assert Newest(TimesOf(h), i) && ValuesOf(h)[i] == h[i].value;
  }

  lemma CounterShows(f: Family, key: string, family: string, format: real -> string, first: Metric, h: seq<Seen>)
    requires FamilyOk(f) && key in f.series && f.typ.Counter? && first.typ.Counter?
    requires HoldsHistory(Some(f.series[key]), f.series[key].labels, h)
    ensures Shows(Lines(family, f, format, f.series[key]), family, first, f.bounds, format, f.series[key].labels, h)
  {
    hide LabelsKey, LabelsOk, Newest;
    assert SeriesOk(f, key, f.series[key]);
  }

  lemma HistogramShows(f: Family, key: string, family: string, format: real -> string, first: Metric, h: seq<Seen>)
    requires FamilyOk(f) && key in f.series && f.typ.Histogram? && first.typ.Histogram?
    requires HoldsHistory(Some(f.series[key]), f.series[key].labels, h)
    ensures |f.series[key].counts| == |f.bounds| + 1
    ensures Shows(Lines(family, f, format, f.series[key]), family, first, f.bounds, format, f.series[key].labels, h)
  {
    var s := f.series[key];
    CountsFit(f, key);
    hide FamilyOk, Lines;
    forall i: nat | i <= |f.bounds|
      ensures Lines(family, f, format, s)[i].value ==
        Count(if i == |f.bounds| then |s.seen| else AtOrBelow(s.seen, f.bounds[i]))
    {
      LeLinesCount(family, f, format, key, s, i);
    }
    LeLinesCount(family, f, format, key, s, 0);
    forall i: nat | i < |f.bounds| + 3 ensures LineLabels(f, format, s, Lines(family, f, format, s)[i], family, i) {
      LineIs(family, f, format, s, i);
    }
    LineIs(family, f, format, s, |f.bounds| + 1);
    LineIs(family, f, format, s, |f.bounds| + 2);
  }

  /**
   After any history a scrape shows of a series exactly what the history says: the sum of a counter, the newest value
   of a gauge, and of a histogram how many observations are at or below each bound, all of them, and their sum.
   */
  lemma ScrapeShows(config: Config, events: seq<Event>, format: real -> string, family: string, labels: seq<Label>)
    requires History(config, events, family, labels) != []
    ensures var st, first, key := Replay(config, events), Founder(config, events, family), LabelsKey(labels);
            && first.Some? && family in st.families && key in st.families[family].series
            && Shows(LinesOf(st, format, family, key), family, first.value, config.buckets(first.value.name), format,
                     labels, History(config, events, family, labels))
  {
    hide Replay, History, Founder, LabelsKey, FamilyOk, Consistent, Shows, Lines;
    SeriesIsHistory(config, events, family, labels);
    FamilyIsFounded(config, events, family);
    var st, first, key := Replay(config, events), Founder(config, events, family).value, LabelsKey(labels);
    var f, h := st.families[family], History(config, events, family, labels);
    match f.typ {
      case Counter => CounterShows(f, key, family, format, first, h);
      case Gauge => GaugeShows(f, key, family, format, first, h);
      case Histogram => HistogramShows(f, key, family, format, first, h);
    }
    if !f.typ.Histogram? {
      OtherBounds(
        LinesOf(st, format, family, key), family, first, f.bounds, config.buckets(first.name), format, labels, h);
    }
  }

  lemma OtherBounds(
      lines: seq<Sample>, family: string, first: Metric, bounds: seq<real>, other: seq<real>, format: real -> string,
      labels: seq<Label>, h: seq<Seen>)
    requires !first.typ.Histogram? && Shows(lines, family, first, bounds, format, labels, h)
    ensures Shows(lines, family, first, other, format, labels, h)
  {
  }
}
