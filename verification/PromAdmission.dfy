/** Which names are registered and which observations are stored after any history, told from the history alone. */
module PromAdmission {
  import opened PromNames
  import opened PromAttributes
  import opened PromRegistry
  import opened PromStore
  import opened PromHistory
  import opened ExplicitBuckets

  /** Known with the same source and type, or new and without a name in common with any known family. */
  predicate Registers(known: map<string, Entry>, source: string, typ: MetricType) {
    var family := FamilyName(source, typ);
    if family in known then known[family] == Entry(source, typ)
    else forall g :: g in known ==> Taken(family, typ) !! Taken(g, known[g].typ)
  }

  /** The families that a history registers: colliding labels register none, and a scrape takes none away. */
  function Known(config: Config, events: seq<Event>): map<string, Entry> {
    if events == [] then map[]
    else
      var known := Known(config, events[..|events| - 1]);
      match events[|events| - 1]
      case Observation(m, _) =>
        if Collides(m.attrs, m.typ) || !Registers(known, SourceOf(config, m), m.typ) then known
        else known[FamilyOf(config, m) := Entry(SourceOf(config, m), m.typ)]
      case Scrape(_) => known
  }

  lemma EntriesEnrolled(config: Config, st: Store, m: Metric, now: Time)
    requires Sane(st)
    ensures AfterObserve(config, st, m, now).entries ==
      if LabelsOf(m).None? then st.entries else Enrolled(config, st, m).entries
  {
    hide FamilyName, Stores, Consistent, StoreOk, LabelsOf, Folded, FamilyFor, Enrolled;
  }

  lemma EnrolledIs(config: Config, st: Store, m: Metric)
    requires Sane(st)
    ensures Enrolled(config, st, m).entries ==
      if !Registers(st.entries, SourceOf(config, m), m.typ) then st.entries
      else st.entries[FamilyOf(config, m) := Entry(SourceOf(config, m), m.typ)]
  {
    AcceptsIff(st.entries, st.names, SourceOf(config, m), m.typ);
    hide FamilyName, Accepts, Consistent, StoreOk, Taken, Claimed;
  }

  lemma EntriesAfter(config: Config, st: Store, m: Metric, now: Time)
    requires Sane(st)
    ensures AfterObserve(config, st, m, now).entries ==
      if Collides(m.attrs, m.typ) || !Registers(st.entries, SourceOf(config, m), m.typ) then st.entries
      else st.entries[FamilyOf(config, m) := Entry(SourceOf(config, m), m.typ)]
  {
    LabelsExistIff(m.attrs, m.typ);
    EntriesEnrolled(config, st, m, now);
    EnrolledIs(config, st, m);
    hide AfterObserve, Enrolled, Registers, Collides, Sane, FamilyOf, SourceOf, ExposedLabels, AttrSet;
  }

  /** The registry holds exactly the families that the history registered. */
  lemma {:induction false} RegistryIsHistory(config: Config, events: seq<Event>)
    ensures Replay(config, events).entries == Known(config, events)
  {
    hide AfterObserve, Collides, Registers, FamilyOf, SourceOf;
    if events != [] {
      var before := events[..|events| - 1];
      RegistryIsHistory(config, before);
      var st := Replay(config, before);
      match events[|events| - 1]
      case Observation(m, now) =>
        EntriesAfter(config, st, m, now);
        AfterObserveSane(config, st, m, now);
      case Scrape(clock) =>
        AfterScrapeSane(config, st, clock);
    }
  }

  /** The bounds an observation is counted by: those of its family's first observation, or its own. */
  function BoundsFor(config: Config, events: seq<Event>, m: Metric): seq<real> {
    var first := Founder(config, events, FamilyOf(config, m));
    config.buckets(if first.Some? then first.value.name else m.name)
  }

  /**
   An observation is stored exactly when its labels do not collide, its family registers and, for a histogram, the
   bounds increase.
   */
  lemma StoredIff(config: Config, events: seq<Event>, m: Metric)
    ensures Stores(config, Replay(config, events), m) <==>
      && !Collides(m.attrs, m.typ)
      && Registers(Known(config, events), SourceOf(config, m), m.typ)
      && (m.typ.Histogram? ==> Increasing(BoundsFor(config, events, m)))
  {
    hide Replay, Known, Founder, Increasing, Collides, FamilyName, Accepts, ExposedLabels;
    var st := Replay(config, events);
    RegistryIsHistory(config, events);
    LabelsExistIff(m.attrs, m.typ);
    AcceptsIff(st.entries, st.names, SourceOf(config, m), m.typ);
    FamilyIsFounded(config, events, FamilyOf(config, m));
  }
}
