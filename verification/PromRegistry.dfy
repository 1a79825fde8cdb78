/** FamilyRegistry: the first registration of a name wins, and no two families ever expose the same series name. */
module PromRegistry {
  import opened PromNames

  datatype Entry = Entry(source: string, typ: MetricType)

  /** seriesNames */
  function SeriesNames(family: string, typ: MetricType): seq<string> {
    if typ.Histogram? then [family + "_bucket", family + "_sum", family + "_count"] else [family]
  }

  /** The owner of a series name is the family that exposes it; every family is reached by its own name. */
  predicate Consistent(families: map<string, Entry>, series: map<string, string>) {
    && (forall f :: f in families ==> f == FamilyName(families[f].source, families[f].typ))
    && (forall f, n :: f in families && n in SeriesNames(f, families[f].typ) ==> n in series && series[n] == f)
    && (forall n :: n in series ==> series[n] in families && n in SeriesNames(series[n], families[series[n]].typ))
  }

  /** A name that a family would expose is taken by another one, as a family or as a series. */
  predicate Clashes(families: map<string, Entry>, series: map<string, string>, family: string, typ: MetricType) {
    || family in series
    || exists i :: 0 <= i < |SeriesNames(family, typ)| &&
         (SeriesNames(family, typ)[i] in families || SeriesNames(family, typ)[i] in series)
  }

  /** The same registration again, or a new one without a clash. */
  predicate Accepts(families: map<string, Entry>, series: map<string, string>, source: string, typ: MetricType) {
    var family := FamilyName(source, typ);
    if family in families then families[family] == Entry(source, typ) else !Clashes(families, series, family, typ)
  }

  /** The series names with those of a new family added. */
  function Claimed(series: map<string, string>, family: string, typ: MetricType): map<string, string> {
    series + map n | n in SeriesNames(family, typ) :: family
  }

  /** An accepted registration keeps every name with one owner. */
  lemma RegisteredKeeps(families: map<string, Entry>, series: map<string, string>, source: string, typ: MetricType)
    requires Consistent(families, series) && Accepts(families, series, source, typ)
    ensures var family := FamilyName(source, typ);
            Consistent(families[family := Entry(source, typ)],
              if family in families then series else Claimed(series, family, typ))
  {
    hide FamilyName, SeriesNames, Consistent;
    var family := FamilyName(source, typ);
    if family in families {
      assert families[family := Entry(source, typ)] == families;
    } else {
      Registered(families, series, families[family := Entry(source, typ)], Claimed(series, family, typ), source, typ);
    }
  }

  /** Exposed names of different families are disjoint. */
  lemma DisjointFamilies(families: map<string, Entry>, series: map<string, string>, f: string, g: string, n: string)
    requires Consistent(families, series) && f in families && g in families && f != g
    requires n in SeriesNames(f, families[f].typ)
    ensures n !in SeriesNames(g, families[g].typ)
  {
    hide SeriesNames, FamilyName;
    assert series[n] == f;
  }

  /** Every name that a family takes up. */
  function Taken(family: string, typ: MetricType): set<string> {
    {family} + if typ.Histogram? then {family + "_bucket", family + "_sum", family + "_count"} else {}
  }

  /**
   A registration is accepted exactly when the family is already registered for the same source and type, or is new
   and shares no name with any registered family.
   */
  lemma AcceptsIff(families: map<string, Entry>, series: map<string, string>, source: string, typ: MetricType)
    requires Consistent(families, series)
    ensures var family := FamilyName(source, typ);
            Accepts(families, series, source, typ) <==>
              if family in families then families[family].source == source && families[family].typ == typ
              else forall g :: g in families ==> Taken(family, typ) !! Taken(g, families[g].typ)
  {
    hide FamilyName;
    var family := FamilyName(source, typ);
    if family !in families {
      NamesAre(family, typ);
      forall g | g in families ensures NamesOf(g, families[g].typ) + {g} == Taken(g, families[g].typ) {
        NamesAre(g, families[g].typ);
      }
      hide SeriesNames, Taken;
      if Clashes(families, series, family, typ) { ClashIsShared(families, series, family, typ); }
      else { SharedIsClash(families, series, family, typ); }
    }
  }

  function NamesOf(family: string, typ: MetricType): set<string> {
    set n | n in SeriesNames(family, typ)
  }

  lemma NamesAre(family: string, typ: MetricType)
    ensures NamesOf(family, typ) + {family} == Taken(family, typ)
  {
  }

  lemma ClashIsShared(families: map<string, Entry>, series: map<string, string>, family: string, typ: MetricType)
    requires Consistent(families, series) && family !in families && Clashes(families, series, family, typ)
    ensures exists g :: g in families && !(NamesOf(family, typ) + {family} !! NamesOf(g, families[g].typ) + {g})
  {
    hide SeriesNames, FamilyName;
    if family in series {
      var g := series[family];
      assert family in NamesOf(g, families[g].typ);
    } else {
      var i :| 0 <= i < |SeriesNames(family, typ)| &&
        (SeriesNames(family, typ)[i] in families || SeriesNames(family, typ)[i] in series);
      var n := SeriesNames(family, typ)[i];
      assert n in NamesOf(family, typ);
      var g := if n in families then n else series[n];
      assert n in NamesOf(g, families[g].typ) + {g};
    }
  }

  lemma SharedIsClash(families: map<string, Entry>, series: map<string, string>, family: string, typ: MetricType)
    requires Consistent(families, series) && family !in families && !Clashes(families, series, family, typ)
    ensures forall g :: g in families ==> NamesOf(family, typ) + {family} !! NamesOf(g, families[g].typ) + {g}
  {
    hide SeriesNames, FamilyName;
    forall g, n | g in families && n in NamesOf(family, typ) + {family}
      ensures n !in NamesOf(g, families[g].typ) + {g}
    {
      if n in SeriesNames(family, typ) {
        var i :| 0 <= i < |SeriesNames(family, typ)| && SeriesNames(family, typ)[i] == n;
        assert n !in families && n !in series;
      }
    }
  }

  lemma DistinctSuffixes(family: string)
    ensures family + "_bucket" != family + "_sum" && family + "_sum" != family + "_count"
    ensures family + "_bucket" != family + "_count"
  {
    assert |family + "_bucket"| == |family| + 7 && |family + "_sum"| == |family| + 4 &&
      |family + "_count"| == |family| + 6;
  }

  class FamilyRegistry {
    var families: map<string, Entry>
    var series: map<string, string>

    constructor ()
      ensures families == map[] && series == map[] && Valid()
    {
      families, series := map[], map[];
    }

    predicate Valid()
      reads this
    {
      Consistent(families, series)
    }

    /** Register: an error leaves the registry alone; success is an accepted registration. */
    method Register(source: string, typ: MetricType) returns (ok: bool)
      requires Valid()
      modifies this
      ensures Valid()
      ensures ok <==> Accepts(old(families), old(series), source, typ)
      ensures !ok ==> families == old(families) && series == old(series)
      ensures ok ==> families == old(families)[FamilyName(source, typ) := Entry(source, typ)]
      ensures ok ==> series == if FamilyName(source, typ) in old(families) then old(series)
                               else Claimed(old(series), FamilyName(source, typ), typ)
    {
      hide FamilyName, SeriesNames, Consistent;
      var family := FamilyName(source, typ);
      if family in families { return families[family].source == source && families[family].typ == typ; }
      if family in series { return false; }
      var names := SeriesNames(family, typ);
      for i := 0 to |names|
        invariant families == old(families) && series == old(series)
        invariant forall j :: 0 <= j < i ==> names[j] !in families && names[j] !in series
      {
        if names[i] in families || names[i] in series { return false; }
      }
      families := families[family := Entry(source, typ)];
      for i := 0 to |names|
        invariant families == old(families)[family := Entry(source, typ)]
        invariant forall n :: n in series <==> n in old(series) || n in names[..i]
        invariant forall n :: n in names[..i] ==> series[n] == family
        invariant forall n :: n in old(series) ==> series[n] == old(series)[n]
      {
        series := series[names[i] := family];
      }
      assert names[..|names|] == names;
      assert series == Claimed(old(series), family, typ);
      Registered(old(families), old(series), families, series, source, typ);
      return true;
    }
  }

  lemma Registered(
      families: map<string, Entry>, series: map<string, string>,
      families': map<string, Entry>, series': map<string, string>, source: string, typ: MetricType)
    requires Consistent(families, series) && FamilyName(source, typ) !in families
    requires !Clashes(families, series, FamilyName(source, typ), typ)
    requires families' == families[FamilyName(source, typ) := Entry(source, typ)]
    requires forall n :: n in series' <==> n in series || n in SeriesNames(FamilyName(source, typ), typ)
    requires forall n :: n in SeriesNames(FamilyName(source, typ), typ) ==> series'[n] == FamilyName(source, typ)
    requires forall n :: n in series ==> series'[n] == series[n]
    ensures Consistent(families', series')
  {
    hide FamilyName, SeriesNames;
    var family := FamilyName(source, typ);
    forall f, n | f in families' && n in SeriesNames(f, families'[f].typ) ensures n in series' && series'[n] == f {
      if f != family { assert n in series && series[n] == f; }
    }
  }
}
