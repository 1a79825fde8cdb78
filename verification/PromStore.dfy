/** The pull handler: observations folded into series, expiry of stale ones, and the sample lines of a scrape. */
module PromStore {
  import opened PromNames
  import opened PromAttributes
  import opened PromRegistry
  import opened ExplicitBuckets
  import opened Options

  type Time = int

  datatype Metric = Metric(name: string, typ: MetricType, value: real, time: Time, attrs: seq<Label>)

  /** A stored series; `seen` lists what was observed since it was created, and `stamps` when. */
  datatype Series = Series(
    labels: seq<Label>, value: real, gaugeTime: Time, counts: seq<nat>, sum: real, updated: Time,
    seen: seq<real>, stamps: seq<Time>)

  datatype Family = Family(typ: MetricType, bounds: seq<real>, series: map<string, Series>)

  function TrimPrefix(name: string, prefix: string): string {
    if HasPrefix(name, prefix) then name[|prefix|..] else name
  }

  // ---- one observation ----

  function NewSeries(f: Family, labels: seq<Label>, m: Metric): Series {
    Series(labels, if m.typ.Gauge? then m.value else 0.0, m.time,
      if m.typ.Histogram? then seq<nat>(|f.bounds| + 1, i => 0) else [], 0.0, 0, [], [])
  }

  function Observed(f: Family, s: Series, m: Metric, now: Time): Series
    requires m.typ.Histogram? ==> |s.counts| == |f.bounds| + 1
  {
    var t := s.(updated := now, seen := s.seen + [m.value], stamps := s.stamps + [m.time]);
    match m.typ
    case Counter => t.(value := s.value + m.value)
    case Gauge => if m.time > s.gaugeTime then t.(value := m.value, gaugeTime := m.time) else t
    case Histogram =>
      var b := BucketOf(f.bounds, m.value);
      t.(counts := s.counts[b := s.counts[b] + 1], sum := s.sum + m.value)
  }

  /** Entry i has the newest stamp and is the first one with it. */
  predicate Newest(stamps: seq<Time>, i: nat) {
    && i < |stamps| && (forall j :: 0 <= j < |stamps| ==> stamps[j] <= stamps[i])
    && forall j :: 0 <= j < i ==> stamps[j] < stamps[i]
  }

  /** A gauge shows the observation with the newest stamp, the first one of several. */
  predicate ShowsNewest(s: Series) {
    && |s.stamps| == |s.seen|
    && exists i | 0 <= i < |s.stamps| ::
         Newest(s.stamps, i) && s.value == s.seen[i] && s.gaugeTime == s.stamps[i]
  }

  /** What a series holds is a function of what was observed. */
  predicate SeriesOk(f: Family, key: string, s: Series) {
    && key == LabelsKey(s.labels) && LabelsOk(s.labels, f.typ)
    && (f.typ.Histogram? ==>
          && |s.counts| == |f.bounds| + 1 && s.sum == SumOf(s.seen)
          && forall i :: 0 <= i <= |f.bounds| ==> s.counts[i] == CountIn(f.bounds, s.seen, i))
    && (f.typ.Counter? ==> s.value == SumOf(s.seen))
    && |s.stamps| == |s.seen| && (f.typ.Gauge? && s.seen != [] ==> ShowsNewest(s))
  }

  predicate FamilyOk(f: Family) {
    && (f.typ.Histogram? ==> Increasing(f.bounds))
    && forall k :: k in f.series ==> SeriesOk(f, k, f.series[k]) && f.series[k].seen != []
  }

  predicate StoreOk(registered: map<string, Entry>, families: map<string, Family>) {
    forall n :: n in families ==>
      n in registered && registered[n].typ == families[n].typ && FamilyOk(families[n])
  }

  lemma NewOk(f: Family, labels: seq<Label>, m: Metric)
    requires f.typ == m.typ && LabelsOk(labels, m.typ)
    ensures SeriesOk(f, LabelsKey(labels), NewSeries(f, labels, m))
  {
    hide LabelsKey, LabelsOk;
  }

  lemma ObservedOk(f: Family, key: string, s: Series, m: Metric, now: Time)
    requires f.typ == m.typ && SeriesOk(f, key, s)
    requires f.typ.Gauge? && s.seen == [] ==> s.value == m.value && s.gaugeTime == m.time
    ensures SeriesOk(f, key, Observed(f, s, m, now))
  {
    hide LabelsKey, LabelsOk;
    var seen := s.seen + [m.value];
    assert seen[..|seen| - 1] == s.seen;
    if f.typ.Gauge? { NewestAfter(f, s, m, now); }
  }

  lemma NewestAfter(f: Family, s: Series, m: Metric, now: Time)
    requires m.typ.Gauge? && |s.stamps| == |s.seen|
    requires if s.seen == [] then s.value == m.value && s.gaugeTime == m.time else ShowsNewest(s)
    ensures ShowsNewest(Observed(f, s, m, now))
  {
    var t := Observed(f, s, m, now);
    if s.seen == [] {
      assert Newest(t.stamps, 0);
    } else {
      var i: nat :| i < |s.stamps| && Newest(s.stamps, i) && s.value == s.seen[i] && s.gaugeTime == s.stamps[i];
      if m.time > s.gaugeTime {
        assert Newest(t.stamps, |s.stamps|);
        assert t.seen[|s.stamps|] == m.value;
      } else {
        assert Newest(t.stamps, i);
      }
    }
  }

  /** The family after one observation: its series is created on first use and updated. */
  function Folded(f: Family, labels: seq<Label>, m: Metric, now: Time): Family
    requires f.typ == m.typ && FamilyOk(f)
  {
    var key := LabelsKey(labels);
    var s := if key in f.series then f.series[key] else NewSeries(f, labels, m);
    f.(series := f.series[key := Observed(f, s, m, now)])
  }

  lemma FoldedOk(f: Family, labels: seq<Label>, m: Metric, now: Time)
    requires f.typ == m.typ && FamilyOk(f)
    requires LabelsOk(labels, m.typ)
    ensures FamilyOk(Folded(f, labels, m, now)) && Folded(f, labels, m, now).typ == f.typ
  {
    var key := LabelsKey(labels);
    var s := if key in f.series then f.series[key] else NewSeries(f, labels, m);
    NewOk(f, labels, m);
    StartsEmpty(f, key, labels, m);
    hide SeriesOk, LabelsKey, LabelsOk, Increasing;
    ObservedOk(f, key, s, m, now);
    FamilyAdds(f, key, Observed(f, s, m, now));
  }

  // ---- the store ----

  /** The settings of a handler; `buckets` gives the bounds for a source name. */
  datatype Config = Config(trimPrefix: string, buckets: string -> seq<real>, timeout: nat)

  datatype Store = Store(entries: map<string, Entry>, names: map<string, string>, families: map<string, Family>)

  const EMPTY := Store(map[], map[], map[])

  predicate Sane(st: Store) {
    Consistent(st.entries, st.names) && StoreOk(st.entries, st.families)
  }

  /** The family an observation goes to: the stored one, or a new one with the bounds of this metric. */
  function FamilyFor(config: Config, families: map<string, Family>, m: Metric): Family {
    var name := FamilyName(TrimPrefix(m.name, config.trimPrefix), m.typ);
    if name in families then families[name]
    else Family(m.typ, if m.typ.Histogram? then config.buckets(m.name) else [], map[])
  }

  /** The labels of an observation: its attribute set, exposed. */
  function LabelsOf(m: Metric): Option<seq<Label>> {
    ExposedLabels(AttrSet(m.attrs), m.typ)
  }

  /** The observation is stored: its labels are distinct, its family registers and a histogram's bounds increase. */
  predicate Stores(config: Config, st: Store, m: Metric) {
    && LabelsOf(m).Some?
    && Accepts(st.entries, st.names, TrimPrefix(m.name, config.trimPrefix), m.typ)
    && (m.typ.Histogram? ==> Increasing(FamilyFor(config, st.families, m).bounds))
  }

  /** The registry after a metric with distinct labels. */
  function Enrolled(config: Config, st: Store, m: Metric): Store {
    var source := TrimPrefix(m.name, config.trimPrefix);
    var name := FamilyName(source, m.typ);
    if !Accepts(st.entries, st.names, source, m.typ) then st
    else
      st.(entries := st.entries[name := Entry(source, m.typ)],
          names := if name in st.entries then st.names else Claimed(st.names, name, m.typ))
  }

  lemma EnrolledSane(config: Config, st: Store, m: Metric)
    requires Sane(st)
    ensures Sane(Enrolled(config, st, m)) && Enrolled(config, st, m).families == st.families
    ensures Accepts(st.entries, st.names, TrimPrefix(m.name, config.trimPrefix), m.typ) ==>
      var name := FamilyName(TrimPrefix(m.name, config.trimPrefix), m.typ);
      && name in Enrolled(config, st, m).entries && Enrolled(config, st, m).entries[name].typ == m.typ
      && (name in st.families ==> st.families[name].typ == m.typ && FamilyOk(st.families[name]))
  {
    var source := TrimPrefix(m.name, config.trimPrefix);
    var name := FamilyName(source, m.typ);
    if Accepts(st.entries, st.names, source, m.typ) {
      RegisteredKeeps(st.entries, st.names, source, m.typ);
      StoreKeeps(st.entries, st.families, name, Entry(source, m.typ));
    }
    hide Consistent, FamilyName, Claimed, FamilyOk;
  }

  lemma StoredFamily(config: Config, st: Store, m: Metric)
    requires Sane(st) && Stores(config, st, m)
    ensures FamilyFor(config, st.families, m).typ == m.typ && FamilyOk(FamilyFor(config, st.families, m))
  {
    EnrolledSane(config, st, m);
    hide Consistent, FamilyName, Accepts, FamilyOk, Increasing, LabelsOf, StoreOk, Enrolled;
    var f := FamilyFor(config, st.families, m);
    if f.series == map[] { EmptyOk(f); }
  }

  /** The store after one observation. */
  function AfterObserve(config: Config, st: Store, m: Metric, now: Time): Store
    requires Sane(st)
  {
    if LabelsOf(m).None? then st
    else if !Stores(config, st, m) then Enrolled(config, st, m)
    else
      StoredFamily(config, st, m);
      Enrolled(config, st, m).(families :=
        st.families[FamilyName(TrimPrefix(m.name, config.trimPrefix), m.typ) :=
          Folded(FamilyFor(config, st.families, m), LabelsOf(m).value, m, now)])
  }

  lemma AfterObserveSane(config: Config, st: Store, m: Metric, now: Time)
    requires Sane(st)
    ensures Sane(AfterObserve(config, st, m, now))
  {
    EnrolledSane(config, st, m);
    if Stores(config, st, m) {
      StoredFamily(config, st, m);
      ExposedAre(AttrSet(m.attrs), m.typ);
      var f, labels := FamilyFor(config, st.families, m), LabelsOf(m).value;
      FoldedOk(f, labels, m, now);
      var name := FamilyName(TrimPrefix(m.name, config.trimPrefix), m.typ);
      hide Consistent, FamilyName, Accepts, FamilyOk, LabelsOf, StoreOk, Enrolled, Folded, FamilyFor, LabelsOk;
      StoreAdds(Enrolled(config, st, m).entries, st.families, name, Folded(f, labels, m, now));
    }
  }

  /** The store after the expiry of a scrape. */
  function AfterScrape(config: Config, st: Store, clock: Time): Store {
    st.(families := map n | n in st.families :: Live(st.families[n], clock - config.timeout))
  }

  lemma AfterScrapeSane(config: Config, st: Store, clock: Time)
    requires Sane(st)
    ensures Sane(AfterScrape(config, st, clock))
  {
    hide Consistent, FamilyOk;
    forall n | n in st.families ensures FamilyOk(Live(st.families[n], clock - config.timeout)) {
      LiveOk(st.families[n], clock - config.timeout);
    }
  }

  datatype Event = Observation(m: Metric, now: Time) | Scrape(clock: Time)

  /** The store of a handler after any history of observations and scrapes. */
  function Replay(config: Config, events: seq<Event>): (st: Store)
    ensures Sane(st)
  {
    if events == [] then EMPTY
    else
      var st := Replay(config, events[..|events| - 1]);
      match events[|events| - 1]
      case Observation(m, now) => AfterObserveSane(config, st, m, now); AfterObserve(config, st, m, now)
      case Scrape(clock) => AfterScrapeSane(config, st, clock); AfterScrape(config, st, clock)
  }

  class Handler {
    const config: Config
    const registry: FamilyRegistry
    var families: map<string, Family>

    constructor (config: Config)
      ensures Value() == EMPTY && Valid() && fresh(registry) && this.config == config
    {
      this.config := config;
      registry := new FamilyRegistry();
      families := map[];
    }

    function Value(): Store
      reads this, registry
    {
      Store(registry.families, registry.series, families)
    }

    predicate Valid()
      reads this, registry
    {
      Sane(Value())
    }

    /** observe */
    method Observe(m: Metric, now: Time) returns (ok: bool)
      requires Valid()
      modifies this, registry
      ensures Valid()
      ensures ok <==> Stores(config, old(Value()), m)
      ensures Value() == AfterObserve(config, old(Value()), m, now)
    {
      hide ExposedLabels, AttrSet, FamilyName, Consistent, Accepts, Folded, FamilyOk, StoreOk, Increasing, Claimed;
      ghost var st := Value();
      AfterObserveSane(config, st, m, now);
      var exposed := Expose(AttrSet(m.attrs), m.typ);
      if exposed.None? { return false; }
      var source := TrimPrefix(m.name, config.trimPrefix);
      var name := FamilyName(source, m.typ);
      var f := FamilyFor(config, families, m);
      EnrolledSane(config, st, m);
      var registered := registry.Register(source, m.typ);
      if !registered { return false; }
      if m.typ.Histogram? && !Increasing(f.bounds) { return false; }
      StoredFamily(config, st, m);
      var g := Fold(f, exposed.value, m, now);
      families := families[name := g];
      return true;
    }

    method Fold(f: Family, labels: seq<Label>, m: Metric, now: Time) returns (g: Family)
      requires f.typ == m.typ && FamilyOk(f)
      ensures g == Folded(f, labels, m, now)
    {
      hide LabelsKey, LabelsOk, Increasing;
      var key := BuildKey(labels);
      var s := if key in f.series then f.series[key] else NewSeries(f, labels, m);
      g := f.(series := f.series[key := Observed(f, s, m, now)]);
    }

    /** The expiry of snapshot: a series not updated since the cutoff goes, the others stay as they are. */
    method Expire(clock: Time)
      requires Valid()
      modifies this
      ensures Valid()
      ensures Value() == AfterScrape(config, old(Value()), clock)
    {
      hide FamilyOk, Consistent, Live;
      AfterScrapeSane(config, Value(), clock);
      var cutoff := clock - config.timeout;
      var todo := families.Keys;
      while todo != {}
        invariant todo <= families.Keys == old(families).Keys
        invariant forall n :: n in families ==>
          families[n] == if n in todo then old(families)[n] else Live(old(families)[n], cutoff)
        decreases todo
      {
        var n :| n in todo;
        var f := families[n];
        var series := ExpireSeries(f, cutoff);
        families := families[n := f.(series := series)];
        assert families[n] == Live(f, cutoff) by { LiveIs(f, cutoff); }
        todo := todo - {n};
      }
      assert families == AfterScrape(config, old(Value()), clock).families;
    }
  }

  lemma StoreKeeps(registered: map<string, Entry>, families: map<string, Family>, name: string, entry: Entry)
    requires StoreOk(registered, families) && (name in registered ==> registered[name] == entry)
    ensures StoreOk(registered[name := entry], families)
    ensures name in families ==> families[name].typ == entry.typ && FamilyOk(families[name])
  {
    hide FamilyOk;
  }

  lemma StoreAdds(registered: map<string, Entry>, families: map<string, Family>, name: string, f: Family)
    requires StoreOk(registered, families) && name in registered && registered[name].typ == f.typ && FamilyOk(f)
    ensures StoreOk(registered, families[name := f])
  {
    hide FamilyOk;
  }

  lemma EmptyOk(f: Family)
    requires f.series == map[] && (f.typ.Histogram? ==> Increasing(f.bounds))
    ensures FamilyOk(f)
  {
  }

  lemma FamilyAdds(f: Family, key: string, s: Series)
    requires FamilyOk(f) && SeriesOk(f, key, s) && s.seen != []
    ensures FamilyOk(f.(series := f.series[key := s]))
  {
    hide LabelsKey, LabelsOk, Increasing;
    var g := f.(series := f.series[key := s]);
    forall k | k in g.series ensures SeriesOk(g, k, g.series[k]) && g.series[k].seen != [] {
      if k != key { assert SeriesOk(f, k, f.series[k]); }
    }
  }

  lemma StartsEmpty(f: Family, key: string, labels: seq<Label>, m: Metric)
    requires f.typ == m.typ && FamilyOk(f)
    ensures var s := if key in f.series then f.series[key] else NewSeries(f, labels, m);
            f.typ.Gauge? && s.seen == [] ==> s.value == m.value && s.gaugeTime == m.time
  {
    hide SeriesOk;
  }

  /** A family without its stale series. */
  function Live(f: Family, cutoff: Time): Family {
    f.(series := map k | k in f.series && f.series[k].updated >= cutoff :: f.series[k])
  }

  lemma LiveIs(f: Family, cutoff: Time)
    ensures Live(f, cutoff) == f.(series := Live(f, cutoff).series) && Live(f, cutoff).typ == f.typ
  {
  }

  lemma LiveOk(f: Family, cutoff: Time)
    requires FamilyOk(f)
    ensures FamilyOk(Live(f, cutoff))
  {
    hide LabelsKey, LabelsOk, Increasing;
    forall k | k in Live(f, cutoff).series ensures SeriesOk(Live(f, cutoff), k, Live(f, cutoff).series[k]) {
      assert SeriesOk(f, k, f.series[k]);
    }
  }

  method ExpireSeries(f: Family, cutoff: Time) returns (series: map<string, Series>)
    ensures series == Live(f, cutoff).series
  {
    series := f.series;
    var todo := f.series.Keys;
    while todo != {}
      invariant todo <= f.series.Keys
      invariant forall k :: k in series <==> k in f.series && (k in todo || f.series[k].updated >= cutoff)
      invariant forall k :: k in series ==> series[k] == f.series[k]
      decreases todo
    {
      var k :| k in todo;
      if f.series[k].updated < cutoff { series := series - {k}; }
      todo := todo - {k};
    }
  }
}
