/** The sample lines of a scrape: cumulative bucket counts, and no two lines with the same name and labels. */
module PromScrape {
  import opened PromNames
  import opened PromRegistry
  import opened PromStore
  import opened PromText
  import opened ExplicitBuckets

  datatype Number = Count(n: nat) | Real(r: real)

  datatype Sample = Sample(name: string, labels: seq<Label>, value: Number)

  /** Counts up to and including bucket i. */
  function Cumulative(counts: seq<nat>, i: nat): nat
    requires i < |counts|
  {
    counts[i] + if i == 0 then 0 else Cumulative(counts, i - 1)
  }

  function BucketLine(name: string, s: Series, le: string, n: nat): Sample {
    Sample(name + "_bucket", s.labels + [Label("le", le)], Count(n))
  }

  function LeText(bounds: seq<real>, format: real -> string, i: nat): string
    requires i <= |bounds|
  {
    if i == |bounds| then "+Inf" else format(bounds[i])
  }

  /** The lines of the first n buckets. */
  function BucketLines(name: string, bounds: seq<real>, format: real -> string, s: Series, n: nat): (r: seq<Sample>)
    requires |s.counts| == |bounds| + 1 && n <= |bounds| + 1
    ensures |r| == n
    ensures forall i :: 0 <= i < n ==> r[i] == BucketLine(name, s, LeText(bounds, format, i), Cumulative(s.counts, i))
  {
    if n == 0 then []
    else BucketLines(name, bounds, format, s, n - 1)
         + [BucketLine(name, s, LeText(bounds, format, n - 1), Cumulative(s.counts, n - 1))]
  }

  /** All lines of a series. */
  function Lines(name: string, f: Family, format: real -> string, s: Series): seq<Sample>
    requires f.typ.Histogram? ==> |s.counts| == |f.bounds| + 1
  {
    if !f.typ.Histogram? then [Sample(name, s.labels, Real(s.value))]
    else
      BucketLines(name, f.bounds, format, s, |f.bounds| + 1)
      + [Sample(name + "_sum", s.labels, Real(s.sum)),
         Sample(name + "_count", s.labels, Count(Cumulative(s.counts, |f.bounds|)))]
  }

  /** writeHistogram: one pass with a running count. */
  method WriteHistogram(name: string, bounds: seq<real>, format: real -> string, s: Series)
    returns (ok: bool, out: seq<Sample>)
    ensures ok <==> |s.counts| == |bounds| + 1 && Increasing(bounds)
    ensures ok ==> out == Lines(name, Family(Histogram, bounds, map[]), format, s)
  {
    if |s.counts| != |bounds| + 1 { return false, []; }
    var i := 1;
    while i < |bounds|
      invariant 1 <= i
      invariant forall j, k :: 0 <= j < k < i && k < |bounds| ==> bounds[j] < bounds[k]
    {
      if !(bounds[i] > bounds[i - 1]) { return false, []; }
      i := i + 1;
    }
    var cum := 0;
    out := [];
    for k := 0 to |bounds|
      invariant cum == if k == 0 then 0 else Cumulative(s.counts, k - 1)
      invariant out == BucketLines(name, bounds, format, s, k)
    {
      cum := cum + s.counts[k];
      out := out + [BucketLine(name, s, format(bounds[k]), cum)];
    }
    cum := cum + s.counts[|bounds|];
    out := out + [BucketLine(name, s, "+Inf", cum)];
    out := out + [Sample(name + "_sum", s.labels, Real(s.sum)), Sample(name + "_count", s.labels, Count(cum))];
    return true, out;
  }

  // ---- the counts ----

  /** How many observations are at or below a bound. */
  function AtOrBelow(vs: seq<real>, bound: real): nat {
    if vs == [] then 0 else AtOrBelow(vs[..|vs| - 1], bound) + if vs[|vs| - 1] <= bound then 1 else 0
  }

  /** How many fall into one of the first i + 1 buckets. */
  function CountUpTo(bounds: seq<real>, vs: seq<real>, i: nat): nat {
    if vs == [] then 0 else CountUpTo(bounds, vs[..|vs| - 1], i) + if BucketOf(bounds, vs[|vs| - 1]) <= i then 1 else 0
  }

  lemma {:induction false} CountSplits(bounds: seq<real>, vs: seq<real>, i: nat)
    ensures CountUpTo(bounds, vs, i) == CountIn(bounds, vs, i) + if i == 0 then 0 else CountUpTo(bounds, vs, i - 1)
  {
    if vs != [] { CountSplits(bounds, vs[..|vs| - 1], i); }
  }

  lemma {:induction false} CumulativeIs(bounds: seq<real>, counts: seq<nat>, vs: seq<real>, i: nat)
    requires |counts| == |bounds| + 1 && i < |counts|
    requires forall j :: 0 <= j <= |bounds| ==> counts[j] == CountIn(bounds, vs, j)
    ensures Cumulative(counts, i) == CountUpTo(bounds, vs, i)
  {
    CountSplits(bounds, vs, i);
    if i > 0 { CumulativeIs(bounds, counts, vs, i - 1); }
  }

  lemma {:induction false} UpToIsBelow(bounds: seq<real>, vs: seq<real>, i: nat)
    requires Increasing(bounds) && i <= |bounds|
    ensures CountUpTo(bounds, vs, i) == if i == |bounds| then |vs| else AtOrBelow(vs, bounds[i])
  {
    if vs != [] {
      UpToIsBelow(bounds, vs[..|vs| - 1], i);
      if i < |bounds| { BelowIff(bounds, vs[|vs| - 1], i); }
    }
  }

  lemma BelowIff(bounds: seq<real>, v: real, i: nat)
    requires Increasing(bounds) && i < |bounds|
    ensures BucketOf(bounds, v) <= i <==> v <= bounds[i]
  {
    BucketIff(bounds, v, BucketOf(bounds, v));
  }

  /**
   Each le line counts the observations at or below its bound since the series was created, the last ones all of them.
   */
  lemma LeLinesCount(name: string, f: Family, format: real -> string, key: string, s: Series, i: nat)
    requires f.typ.Histogram? && FamilyOk(f) && key in f.series && s == f.series[key] && i <= |f.bounds|
    ensures |s.counts| == |f.bounds| + 1 && |Lines(name, f, format, s)| == |f.bounds| + 3
    ensures Lines(name, f, format, s)[i].value ==
      Count(if i == |f.bounds| then |s.seen| else AtOrBelow(s.seen, f.bounds[i]))
    ensures Lines(name, f, format, s)[|f.bounds| + 1].value == Real(SumOf(s.seen))
    ensures Lines(name, f, format, s)[|f.bounds| + 2].value == Count(|s.seen|)
  {
    hide LabelsKey, StrictlySorted;
    assert SeriesOk(f, key, s);
    CumulativeIs(f.bounds, s.counts, s.seen, i);
    UpToIsBelow(f.bounds, s.seen, i);
    CumulativeIs(f.bounds, s.counts, s.seen, |f.bounds|);
    UpToIsBelow(f.bounds, s.seen, |f.bounds|);
  }

  /** The stored bucket counts are those the OTLP exporter would send for the same observations. */
  lemma BucketsAgreeWithOtlp(f: Family, key: string)
    requires f.typ.Histogram? && FamilyOk(f) && key in f.series
    ensures f.series[key].counts == PointOf(f.bounds, f.series[key].seen).buckets
  {
    hide LabelsKey, StrictlySorted;
    assert SeriesOk(f, key, f.series[key]);
    PointMeans(f.bounds, f.series[key].seen);
  }

  // ---- one line per name and label set ----

  /** The formatter tells the bounds of a family apart. */
  ghost predicate FormatOk(bounds: seq<real>, format: real -> string) {
    forall i, j :: 0 <= i < j <= |bounds| ==> LeText(bounds, format, i) != LeText(bounds, format, j)
  }

  lemma LineNames(name: string, f: Family, format: real -> string, s: Series, i: nat)
    requires f.typ.Histogram? ==> |s.counts| == |f.bounds| + 1
    requires i < |Lines(name, f, format, s)|
    ensures Lines(name, f, format, s)[i].name in SeriesNames(name, f.typ)
  {
  }

  /** The labels of a line: those of the series, and le on a bucket line. */
  predicate LineLabels(f: Family, format: real -> string, s: Series, line: Sample, name: string, i: nat) {
    if f.typ.Histogram? && i <= |f.bounds|
    then line.name == name + "_bucket" && line.labels == s.labels + [Label("le", LeText(f.bounds, format, i))]
    else line.labels == s.labels && line.name != name + "_bucket"
  }

  lemma LineIs(name: string, f: Family, format: real -> string, s: Series, i: nat)
    requires f.typ.Histogram? ==> |s.counts| == |f.bounds| + 1
    requires i < |Lines(name, f, format, s)|
    ensures LineLabels(f, format, s, Lines(name, f, format, s)[i], name, i)
    ensures f.typ.Histogram? && i == |f.bounds| + 1 ==> Lines(name, f, format, s)[i].name == name + "_sum"
    ensures f.typ.Histogram? && i == |f.bounds| + 2 ==> Lines(name, f, format, s)[i].name == name + "_count"
    ensures |Lines(name, f, format, s)| == if f.typ.Histogram? then |f.bounds| + 3 else 1
  {
    DistinctSuffixes(name);
    assert |name + "_bucket"| == |name| + 7;
  }

  /** Adding le to labels without it keeps different label sets different. */
  lemma WithLe(a: seq<Label>, x: string, b: seq<Label>, y: string)
    requires StrictlySorted(a) && StrictlySorted(b)
    requires (forall l :: l in a ==> l.name != "le") && forall l :: l in b ==> l.name != "le"
    requires LabelSet(a + [Label("le", x)]) == LabelSet(b + [Label("le", y)])
    ensures a == b && x == y
  {
    hide Less;
    var p, q := Label("le", x), Label("le", y);
    assert p in LabelSet(a + [p]);
    assert p == q;
    forall l ensures l in a <==> l in b {
      assert l in a + [p] <==> l in LabelSet(a + [p]);
      assert l in b + [q] <==> l in LabelSet(b + [q]);
    }
    assert LabelSet(a) == LabelSet(b);
    SortedUnique(a, b);
  }

  /** Lines of the same family with the same name and label set are the same line. */
  lemma SameFamilyLines(
      name: string, f: Family, format: real -> string, k: string, l: string, i: nat, j: nat)
    requires FamilyOk(f) && k in f.series && l in f.series && FormatOk(f.bounds, format)
    requires f.typ.Histogram? ==> |f.series[k].counts| == |f.bounds| + 1 == |f.series[l].counts|
    requires i < |Lines(name, f, format, f.series[k])| && j < |Lines(name, f, format, f.series[l])|
    requires Lines(name, f, format, f.series[k])[i].name == Lines(name, f, format, f.series[l])[j].name
    requires LabelSet(Lines(name, f, format, f.series[k])[i].labels) ==
      LabelSet(Lines(name, f, format, f.series[l])[j].labels)
    ensures k == l && i == j
  {
    var s, t := f.series[k], f.series[l];
    LineIs(name, f, format, s, i);
    LineIs(name, f, format, t, j);
    DistinctSuffixes(name);
    hide Lines, LabelsKey, StrictlySorted, LabelSet, SeriesNames;
    assert SeriesOk(f, k, s) && SeriesOk(f, l, t);
    if f.typ.Histogram? && i <= |f.bounds| {
      WithLe(s.labels, LeText(f.bounds, format, i), t.labels, LeText(f.bounds, format, j));
    } else {
      SortedUnique(s.labels, t.labels);
    }
  }

  /** After any history, no two sample lines of a scrape share a metric name and label set. */
  lemma NoDuplicateLines(
      families: map<string, Entry>, series: map<string, string>, store: map<string, Family>, format: real -> string,
      m: string, k: string, i: nat, n: string, l: string, j: nat)
    requires Consistent(families, series) && StoreOk(families, store)
    requires forall x :: x in store ==> FormatOk(store[x].bounds, format)
    requires m in store && k in store[m].series && n in store && l in store[n].series
    requires store[m].typ.Histogram? ==> |store[m].series[k].counts| == |store[m].bounds| + 1
    requires store[n].typ.Histogram? ==> |store[n].series[l].counts| == |store[n].bounds| + 1
    requires i < |Lines(m, store[m], format, store[m].series[k])|
    requires j < |Lines(n, store[n], format, store[n].series[l])|
    requires (m, k, i) != (n, l, j)
    ensures var a := Lines(m, store[m], format, store[m].series[k])[i];
            var b := Lines(n, store[n], format, store[n].series[l])[j];
            a.name != b.name || LabelSet(a.labels) != LabelSet(b.labels)
  {
    hide Lines, Consistent, SeriesNames, LabelSet, FormatOk, FamilyOk;
    var a := Lines(m, store[m], format, store[m].series[k])[i];
    var b := Lines(n, store[n], format, store[n].series[l])[j];
    if m == n {
      if a.name == b.name && LabelSet(a.labels) == LabelSet(b.labels) {
        SameFamilyLines(m, store[m], format, k, l, i, j);
      }
    } else {
      LineNames(m, store[m], format, store[m].series[k], i);
      LineNames(n, store[n], format, store[n].series[l], j);
      DisjointFamilies(families, series, m, n, a.name);
    }
  }

  // ---- every history ----

  /** The lines a scrape of a store writes for one series. */
  function LinesOf(st: Store, format: real -> string, name: string, key: string): seq<Sample>
    requires Sane(st) && name in st.families && key in st.families[name].series
  {
    var f := st.families[name];
    assert SeriesOk(f, key, f.series[key]);
    Lines(name, f, format, f.series[key])
  }

  lemma ValidSeriesName(source: string, typ: MetricType, n: string)
    requires n in SeriesNames(FamilyName(source, typ), typ)
    ensures ValidName(n, true)
  {
    hide FamilyName;
    FamilyNameIs(source, typ);
  }

  lemma LineIsReadable(st: Store, format: real -> string, name: string, key: string, i: nat)
    requires Sane(st) && name in st.families && key in st.families[name].series && i < |LinesOf(st, format, name, key)|
    ensures var line := LinesOf(st, format, name, key)[i]; ValidName(line.name, true) && ValidLabels(line.labels)
  {
    hide Lines, SeriesNames, FamilyName, StrictlySorted, ValidName;
    var f := st.families[name];
    assert SeriesOk(f, key, f.series[key]);
    LineNames(name, f, format, f.series[key], i);
    LineIs(name, f, format, f.series[key], i);
    var line := LinesOf(st, format, name, key)[i];
    ValidSeriesName(st.entries[name].source, f.typ, line.name);
    assert ValidName("le", false) by { LeIsValid(); }
  }

  lemma LeIsValid()
    ensures ValidName("le", false)
  {
  }

  /**
   Whatever was observed and scraped before, two different lines of a scrape differ in name or in labels, and no
   values make their texts equal.
   */
  lemma HistoryHasNoDuplicates(
      config: Config, events: seq<Event>, format: real -> string,
      m: string, k: string, i: nat, v: string, n: string, l: string, j: nat, w: string)
    requires var st := Replay(config, events);
             && (forall x :: x in st.families ==> FormatOk(st.families[x].bounds, format))
             && m in st.families && k in st.families[m].series && i < |LinesOf(st, format, m, k)|
             && n in st.families && l in st.families[n].series && j < |LinesOf(st, format, n, l)|
    requires (m, k, i) != (n, l, j)
    ensures var a := LinesOf(Replay(config, events), format, m, k)[i];
            var b := LinesOf(Replay(config, events), format, n, l)[j];
            && (a.name != b.name || LabelSet(a.labels) != LabelSet(b.labels))
            && SampleText(a.name, a.labels, v) != SampleText(b.name, b.labels, w)
  {
    hide Lines, LabelSet, FormatOk, Consistent, Replay, ValidName, ValidLabels, SampleText;
    var st := Replay(config, events);
    LineIsReadable(st, format, m, k, i);
    LineIsReadable(st, format, n, l, j);
    var a, b := LinesOf(st, format, m, k)[i], LinesOf(st, format, n, l)[j];
    assert SeriesOk(st.families[m], k, st.families[m].series[k]);
    assert SeriesOk(st.families[n], l, st.families[n].series[l]);
    NoDuplicateLines(st.entries, st.names, st.families, format, m, k, i, n, l, j);
    SampleUnique(a.name, a.labels, v, b.name, b.labels, w);
  }
}
