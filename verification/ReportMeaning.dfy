/**
 What a report contains, told from the struct types and the value alone: one metric for every value field that can be
 reached, under its dotted name, with the type its struct tag names, in seconds for a duration, and with the tags in
 effect there.
 */
module ReportMeaning {
  import opened ReportTypes
  import opened ReportProofs
  import opened Options

  // ---- names, types, values ----

  function NonBlank(segs: seq<string>): seq<string> {
    if segs == [] then [] else (if segs[0] == "" then [] else [segs[0]]) + NonBlank(segs[1..])
  }

  function JoinDots(parts: seq<string>): string {
    if parts == [] then "" else if |parts| == 1 then parts[0] else parts[0] + "." + JoinDots(parts[1..])
  }

  /** The non-empty names on the way, with dots between them. */
  function Dotted(segs: seq<string>): string {
    JoinDots(NonBlank(segs))
  }

  predicate TypeIs(tag: string, typ: MetricType) {
    match typ
    case Counter => tag == "counter"
    case Gauge => tag == "gauge"
    case Histogram => tag == "" || tag == "histogram"
  }

  /** A bool counts 0 or 1 and a duration is in seconds. */
  predicate ValueIs(t: FieldType, v: Value, r: real) {
    match v
    case BoolV(b) => r == if b then 1.0 else 0.0
    case IntV(i) => if t.Duration? then r * 1_000_000_000.0 == i as real else r == i as real
    case FloatV(x) => r == x
    case _ => r == 0.0
  }

  // ---- pointers ----

  function RefTo(n: nat, v: Value): Value {
    if n == 0 then v else Ref(RefTo(n - 1, v))
  }

  function PointerTo(n: nat, t: FieldType): FieldType {
    if n == 0 then t else Pointer(PointerTo(n - 1, t))
  }

  /** Any number of pointers is followed; a nil one at the end leads nowhere. */
  lemma {:induction false} PointersLead(n: nat, v: Value, t: FieldType)
    requires !v.Ref? && !t.Pointer?
    ensures Deref(RefTo(n, v)) == (if v.Nil? then None else Some(v)) && Elem(PointerTo(n, t)) == t
  {
    if n > 0 { PointersLead(n - 1, v, t); }
  }

  // ---- where a value field is ----

  /** The field leads to a nested struct that build follows. */
  predicate LeadsOn(env: Env, t: TypeId, i: nat) {
    && t in env && i < |env[t]|
    && env[t][i].tag == "" && env[t][i].metric != "-" && Elem(env[t][i].ftype).Struct?
  }

  /** The struct at the end of a path of field indexes; None when a pointer on the way is nil. */
  function StructAt(env: Env, t: TypeId, v: Value, path: seq<nat>): Option<(TypeId, Value)>
    requires HasType(env, v, Struct(t))
    ensures var r := StructAt(env, t, v, path); r.Some? ==> HasType(env, r.value.1, Struct(r.value.0))
    decreases |path|
  {
    if path == [] then Some((t, v))
    else if !LeadsOn(env, t, path[0]) then None
    else
      DerefHasType(env, v.fields[path[0]], env[t][path[0]].ftype);
      var w := Deref(v.fields[path[0]]);
      if w.None? then None else StructAt(env, Elem(env[t][path[0]].ftype).id, w.value, path[1..])
  }

  /** The metric names of the fields on a path. */
  function Segments(env: Env, t: TypeId, path: seq<nat>): seq<string>
    decreases |path|
  {
    if path == [] || !LeadsOn(env, t, path[0]) then []
    else [env[t][path[0]].metric] + Segments(env, Elem(env[t][path[0]].ftype).id, path[1..])
  }

  /** The value of the last of the first n fields that has tag k. */
  function TagHere(fields: seq<Field>, v: Value, k: string, n: nat): Option<string>
    requires v.StructV? && |v.fields| == |fields| && n <= |fields|
  {
    if n == 0 then None
    else if fields[n - 1].tag == k != "" && v.fields[n - 1].StrV? then Some(v.fields[n - 1].s)
    else TagHere(fields, v, k, n - 1)
  }

  function Or(a: Option<string>, b: Option<string>): Option<string> {
    if a.Some? then a else b
  }

  /** The tag in effect at the end of a path: the innermost struct that has it decides. */
  function InEffect(env: Env, t: TypeId, v: Value, path: seq<nat>, k: string): Option<string>
    requires HasType(env, v, Struct(t))
    decreases |path|
  {
    var here := TagHere(env[t], v, k, |env[t]|);
    if path == [] || !LeadsOn(env, t, path[0]) then here
    else
      DerefHasType(env, v.fields[path[0]], env[t][path[0]].ftype);
      var w := Deref(v.fields[path[0]]);
      if w.None? then here else Or(InEffect(env, Elem(env[t][path[0]].ftype).id, w.value, path[1..], k), here)
  }

  /** A field with a metric name that is no struct and has a known type tag. */
  predicate IsValueField(f: Field) {
    && f.tag == "" && f.metric != "" && f.metric != "-" && !Elem(f.ftype).Struct?
    && f.typ in ["", "histogram", "counter", "gauge"]
  }

  function Lookup(m: map<string, string>, k: string): Option<string> {
    if k in m then Some(m[k]) else None
  }

  /** Only tags with a value become attributes. */
  function Shown(s: Option<string>): Option<string> {
    if s == Some("") then None else s
  }

  /** A field by the path of its struct and its index there. */
  datatype Place = Place(path: seq<nat>, leaf: nat)

  predicate IsValuePlace(env: Env, t: TypeId, v: Value, p: Place)
    requires HasType(env, v, Struct(t))
  {
    var at := StructAt(env, t, v, p.path);
    at.Some? && p.leaf < |env[at.value.0]| && IsValueField(env[at.value.0][p.leaf])
  }

  /** Emission e is what the value field at the place reports, inside structs with these names and tags. */
  ghost predicate Emits(
      env: Env, t: TypeId, v: Value, segs: seq<string>, outer: map<string, string>, p: Place, e: Emission)
    requires HasType(env, v, Struct(t))
  {
    && IsValuePlace(env, t, v, p)
    && (var (u, w) := StructAt(env, t, v, p.path).value;
        var f := env[u][p.leaf];
        && e.name == Dotted(segs + Segments(env, t, p.path) + [f.metric])
        && TypeIs(f.typ, e.typ) && ValueIs(f.ftype, w.fields[p.leaf], e.value))
    && forall k :: Lookup(e.attributes, k) == Shown(Or(InEffect(env, t, v, p.path, k), Lookup(outer, k)))
  }

  // ---- names join ----

  lemma {:induction false} NonBlankMore(segs: seq<string>, s: string)
    ensures NonBlank(segs + [s]) == NonBlank(segs) + if s == "" then [] else [s]
  {
    if segs == [] {
      assert (segs + [s])[1..] == [];
    } else {
      assert (segs + [s])[1..] == segs[1..] + [s];
      NonBlankMore(segs[1..], s);
    }
  }

  lemma {:induction false} JoinMore(parts: seq<string>, s: string)
    ensures JoinDots(parts + [s]) == if parts == [] then s else JoinDots(parts) + "." + s
  {
    if |parts| > 0 {
      assert (parts + [s])[1..] == parts[1..] + [s];
      JoinMore(parts[1..], s);
    }
  }

  lemma {:induction false} BlankIff(segs: seq<string>)
    ensures Dotted(segs) == "" <==> NonBlank(segs) == []
  {
    NonBlankParts(segs);
    var parts := NonBlank(segs);
    if parts != [] { assert parts[0] != "" && |JoinDots(parts)| >= |parts[0]|; }
  }

  lemma {:induction false} NonBlankParts(segs: seq<string>)
    ensures forall i :: 0 <= i < |NonBlank(segs)| ==> NonBlank(segs)[i] != ""
  {
    if segs != [] { NonBlankParts(segs[1..]); }
  }

  /** Names are joined as the dotted name says. */
  lemma JoinIsDotted(segs: seq<string>, s: string)
    ensures JoinName(Dotted(segs), s) == Dotted(segs + [s])
  {
    NonBlankMore(segs, s);
    BlankIff(segs);
    if s == "" { assert NonBlank(segs) + [] == NonBlank(segs); }
    else { JoinMore(NonBlank(segs), s); }
  }

  // ---- types and values ----

  lemma TypeMeans(tag: string)
    ensures TypeOf(tag).Some? <==> tag in ["", "histogram", "counter", "gauge"]
    ensures TypeOf(tag).Some? ==> TypeIs(tag, TypeOf(tag).value)
    ensures forall typ :: TypeIs(tag, typ) ==> TypeOf(tag) == Some(typ)
  {
  }

  lemma NumberMeans(t: FieldType, v: Value, r: real)
    ensures ValueIs(t, v, r) <==> r == Number(t, v)
  {
    if v.IntV? && t.Duration? { assert (v.i as real / 1_000_000_000.0) * 1_000_000_000.0 == v.i as real; }
  }

  // ---- tags ----

  lemma {:induction false} TagsMean(fields: seq<Field>, v: Value, n: nat, outer: map<string, string>, k: string)
    requires v.StructV? && |v.fields| == |fields| && n <= |fields|
    ensures Lookup(TagsIn(fields, v, n, outer), k) == Or(TagHere(fields, v, k, n), Lookup(outer, k))
  {
    if n > 0 { TagsMean(fields, v, n - 1, outer, k); }
  }

  lemma ShownMeans(tags: map<string, string>, k: string)
    ensures Lookup(NonEmpty(tags), k) == Shown(Lookup(tags, k))
  {
  }

  // ---- the fields of one struct ----

  predicate OwnEmits(fields: seq<Field>, v: Value, segs: seq<string>, i: nat, e: Emission)
    requires v.StructV? && |v.fields| == |fields| && i < |fields|
  {
    var f := fields[i];
    && IsValueField(f) && e.name == Dotted(segs + [f.metric])
    && TypeIs(f.typ, e.typ) && ValueIs(f.ftype, v.fields[i], e.value)
  }

  lemma LeafEmits(fields: seq<Field>, v: Value, segs: seq<string>, i: nat, attributes: map<string, string>)
    requires v.StructV? && |v.fields| == |fields| && i < |fields|
    ensures var f := fields[i];
            && (IsValueField(f) <==> IsLeaf(f) && TypeOf(f.typ).Some?)
            && (IsValueField(f) ==> OwnEmits(fields, v, segs, i,
                 Emission(JoinName(Dotted(segs), f.metric), TypeOf(f.typ).value, Number(f.ftype, v.fields[i]),
                          attributes)))
  {
    hide JoinName, Number, TypeOf, Dotted, TypeIs, ValueIs, Elem;
    var f := fields[i];
    JoinIsDotted(segs, f.metric);
    TypeMeans(f.typ);
    NumberMeans(f.ftype, v.fields[i], Number(f.ftype, v.fields[i]));
  }

  /** The value fields of a struct report one metric each, in their order. */
  lemma {:induction false} OwnMean(
      fields: seq<Field>, v: Value, n: nat, segs: seq<string>, tags: map<string, string>) returns (at: seq<nat>)
    requires v.StructV? && |v.fields| == |fields| && n <= |fields|
    ensures var es := OwnMetrics(fields, v, n, Dotted(segs), tags);
            && |at| == |es|
            && (forall j :: 0 <= j < |at| ==>
                  at[j] < n && OwnEmits(fields, v, segs, at[j], es[j]) && es[j].attributes == NonEmpty(tags))
            && (forall j, k :: 0 <= j < k < |at| ==> at[j] < at[k])
            && (forall i :: 0 <= i < n && IsValueField(fields[i]) ==> i in at)
  {
    hide JoinName, Number, TypeOf, NonEmpty, Dotted, IsLeaf, OwnEmits, IsValueField;
    at := [];
    if n > 0 {
      at := OwnMean(fields, v, n - 1, segs, tags);
      LeafEmits(fields, v, segs, n - 1, NonEmpty(tags));
      if IsValueField(fields[n - 1]) { at := at + [n - 1]; }
    }
  }

  // ---- nested structs ----

  function Within(i: nat, p: Place): Place {
    Place([i] + p.path, p.leaf)
  }

  /** The places and what is reported there, one by one, none twice. */
  ghost predicate Match(
      env: Env, t: TypeId, v: Value, segs: seq<string>, outer: map<string, string>, ps: seq<Place>, es: seq<Emission>)
    requires HasType(env, v, Struct(t))
  {
    && |ps| == |es|
    && (forall j :: 0 <= j < |ps| ==> Emits(env, t, v, segs, outer, ps[j], es[j]))
    && forall j, k :: 0 <= j < k < |ps| ==> ps[j] != ps[k]
  }

  lemma MatchJoin(
      env: Env, t: TypeId, v: Value, segs: seq<string>, outer: map<string, string>, ps: seq<Place>, es: seq<Emission>,
      qs: seq<Place>, fs: seq<Emission>)
    requires HasType(env, v, Struct(t))
    requires Match(env, t, v, segs, outer, ps, es) && Match(env, t, v, segs, outer, qs, fs)
    requires forall p :: p in ps ==> p !in qs
    ensures Match(env, t, v, segs, outer, ps + qs, es + fs)
  {
    hide Emits, HasType;
    var ps1, es1 := ps + qs, es + fs;
    forall j, k | 0 <= j < k < |ps1| ensures ps1[j] != ps1[k] {
      if j < |ps| <= k { assert ps[j] in ps && qs[k - |ps|] in qs; }
    }
  }

  /** What a nested struct reports, seen from the struct around it. */
  lemma EmitsWithin(
      env: Env, t: TypeId, v: Value, segs: seq<string>, outer: map<string, string>, i: nat, p: Place, e: Emission)
    requires HasType(env, v, Struct(t)) && LeadsOn(env, t, i) && Deref(v.fields[i]).Some?
    requires HasType(env, Deref(v.fields[i]).value, Elem(env[t][i].ftype))
    requires Emits(env, Elem(env[t][i].ftype).id, Deref(v.fields[i]).value, segs + [env[t][i].metric],
                   TagsIn(env[t], v, |env[t]|, outer), p, e)
    ensures Emits(env, t, v, segs, outer, Within(i, p), e)
  {
    hide Dotted, TypeIs, ValueIs, IsValueField, TagsIn, TagHere, Deref, Elem;
    var f, w := env[t][i], Deref(v.fields[i]).value;
    assert ([i] + p.path)[1..] == p.path;
    var own := Segments(env, Elem(f.ftype).id, p.path);
    assert segs + [f.metric] + own == segs + Segments(env, t, [i] + p.path);
    forall k ensures Lookup(e.attributes, k) == Shown(Or(InEffect(env, t, v, [i] + p.path, k), Lookup(outer, k))) {
      TagsMean(env[t], v, |env[t]|, outer, k);
    }
  }

  lemma PlacesWithin(env: Env, t: TypeId, v: Value, p: Place)
    requires HasType(env, v, Struct(t)) && IsValuePlace(env, t, v, p) && p.path != []
    ensures LeadsOn(env, t, p.path[0])
    ensures var i := p.path[0];
            var w := Deref(v.fields[i]);
            && w.Some? && HasType(env, w.value, Elem(env[t][i].ftype))
            && IsValuePlace(env, Elem(env[t][i].ftype).id, w.value, Place(p.path[1..], p.leaf))
            && p == Within(i, Place(p.path[1..], p.leaf))
  {
    DerefHasType(env, v.fields[p.path[0]], env[t][p.path[0]].ftype);
  }

  lemma {:induction false} MatchWithin(
      env: Env, t: TypeId, v: Value, segs: seq<string>, outer: map<string, string>, i: nat, ps: seq<Place>,
      es: seq<Emission>) returns (qs: seq<Place>)
    requires HasType(env, v, Struct(t)) && LeadsOn(env, t, i) && Deref(v.fields[i]).Some?
    requires HasType(env, Deref(v.fields[i]).value, Elem(env[t][i].ftype))
    requires Match(env, Elem(env[t][i].ftype).id, Deref(v.fields[i]).value, segs + [env[t][i].metric],
                   TagsIn(env[t], v, |env[t]|, outer), ps, es)
    ensures |qs| == |ps| && forall j :: 0 <= j < |qs| ==> qs[j] == Within(i, ps[j])
    ensures Match(env, t, v, segs, outer, qs, es)
  {
    hide Emits, TagsIn, Deref, Elem;
    qs := seq(|ps|, j requires 0 <= j < |ps| => Within(i, ps[j]));
    forall j | 0 <= j < |qs| ensures Emits(env, t, v, segs, outer, qs[j], es[j]) {
      EmitsWithin(env, t, v, segs, outer, i, ps[j], es[j]);
    }
    forall j, k | 0 <= j < k < |qs| ensures qs[j] != qs[k] {
      assert ([i] + ps[j].path)[1..] == ps[j].path && ([i] + ps[k].path)[1..] == ps[k].path;
      assert ps[j] != ps[k];
    }
  }

  ghost predicate Covers(env: Env, t: TypeId, v: Value, from: nat, ps: seq<Place>)
    requires HasType(env, v, Struct(t))
  {
    forall p :: IsValuePlace(env, t, v, p) && p.path != [] && p.path[0] >= from ==> p in ps
  }

  lemma CoversChild(
      env: Env, t: TypeId, v: Value, i: nat, ps: seq<Place>, mine: seq<Place>, rest: seq<Place>)
    requires HasType(env, v, Struct(t)) && LeadsOn(env, t, i) && Deref(v.fields[i]).Some?
    requires HasType(env, Deref(v.fields[i]).value, Elem(env[t][i].ftype))
    requires forall p :: IsValuePlace(env, Elem(env[t][i].ftype).id, Deref(v.fields[i]).value, p) ==> p in ps
    requires |mine| == |ps| && forall j :: 0 <= j < |mine| ==> mine[j] == Within(i, ps[j])
    requires Covers(env, t, v, i + 1, rest)
    ensures Covers(env, t, v, i, mine + rest)
  {
    hide HasType, Deref, Elem, IsValuePlace;
    forall p | IsValuePlace(env, t, v, p) && p.path != [] && p.path[0] >= i ensures p in mine + rest {
      if p.path[0] == i {
        PlacesWithin(env, t, v, p);
        var q := Place(p.path[1..], p.leaf);
        var j :| 0 <= j < |ps| && ps[j] == q;
        assert mine[j] == p;
      } else {
        assert p in rest;
      }
    }
  }

  lemma CoversSkipped(env: Env, t: TypeId, v: Value, i: nat, rest: seq<Place>)
    requires HasType(env, v, Struct(t)) && i <= |env[t]|
    requires i < |env[t]| ==> !LeadsOn(env, t, i) || Deref(v.fields[i]).None?
    requires i < |env[t]| ==> Covers(env, t, v, i + 1, rest)
    ensures Covers(env, t, v, i, rest)
  {
    hide Deref, Elem, IsValuePlace;
    forall p | IsValuePlace(env, t, v, p) && p.path != [] && p.path[0] >= i ensures p in rest {
      PlacesWithin(env, t, v, p);
    }
  }

  /** The nested structs from field i on. */
  lemma {:induction false} ChildrenMean(
      env: Env, t: TypeId, v: Value, segs: seq<string>, outer: map<string, string>, i: nat) returns (ps: seq<Place>)
    requires HasType(env, v, Struct(t)) && i <= |env[t]|
    ensures Match(env, t, v, segs, outer, ps,
                  InterpretChildren(env, t, v, Dotted(segs), TagsIn(env[t], v, |env[t]|, outer), i))
    ensures forall p :: p in ps ==> p.path != [] && p.path[0] >= i
    ensures Covers(env, t, v, i, ps)
    decreases v, 0, |env[t]| - i
  {
    hide Emits, TagsIn, Dotted, JoinName, IsValuePlace, Interpret, Elem, Covers;
    ps := [];
    if i == |env[t]| {
      CoversSkipped(env, t, v, i, ps);
    } else {
      var f, tags := env[t][i], TagsIn(env[t], v, |env[t]|, outer);
      var rest := ChildrenMean(env, t, v, segs, outer, i + 1);
      if IsChild(f) && Deref(v.fields[i]).Some? {
        DerefHasType(env, v.fields[i], f.ftype);
        var w := Deref(v.fields[i]).value;
        JoinIsDotted(segs, f.metric);
        var qs := StructMeans(env, Elem(f.ftype).id, w, segs + [f.metric], tags);
        var es := Interpret(env, Elem(f.ftype).id, w, Dotted(segs + [f.metric]), tags);
        var mine := MatchWithin(env, t, v, segs, outer, i, qs, es);
        CoversChild(env, t, v, i, qs, mine, rest);
        MatchJoin(env, t, v, segs, outer, mine, es, rest, InterpretChildren(env, t, v, Dotted(segs), tags, i + 1));
        ps := mine + rest;
      } else {
        CoversSkipped(env, t, v, i, rest);
        ps := rest;
      }
    }
  }

  /** The places of a struct's own value fields. */
  lemma OwnPlaces(env: Env, t: TypeId, v: Value, segs: seq<string>, outer: map<string, string>)
    returns (ps: seq<Place>)
    requires HasType(env, v, Struct(t))
    ensures Match(env, t, v, segs, outer, ps,
                  OwnMetrics(env[t], v, |env[t]|, Dotted(segs), TagsIn(env[t], v, |env[t]|, outer)))
    ensures forall p :: p in ps ==> p.path == []
    ensures forall p :: IsValuePlace(env, t, v, p) && p.path == [] ==> p in ps
  {
    hide TagsIn, Dotted, OwnMetrics, TypeIs, ValueIs, NonEmpty, IsValueField, TagHere;
    var tags := TagsIn(env[t], v, |env[t]|, outer);
    var at := OwnMean(env[t], v, |env[t]|, segs, tags);
    var es := OwnMetrics(env[t], v, |env[t]|, Dotted(segs), tags);
    ps := seq(|at|, j requires 0 <= j < |at| => Place([], at[j]));
    forall j | 0 <= j < |ps| ensures Emits(env, t, v, segs, outer, ps[j], es[j]) {
      assert segs + [] + [env[t][at[j]].metric] == segs + [env[t][at[j]].metric];
      forall k ensures Lookup(es[j].attributes, k) == Shown(Or(InEffect(env, t, v, [], k), Lookup(outer, k))) {
        TagsMean(env[t], v, |env[t]|, outer, k);
        ShownMeans(tags, k);
      }
    }
    forall p | IsValuePlace(env, t, v, p) && p.path == [] ensures p in ps {
      var j :| 0 <= j < |at| && at[j] == p.leaf;
      assert ps[j] == p;
    }
  }

  /** A struct value reports one metric for every value field that can be reached in it, and nothing else. */
  lemma {:induction false} StructMeans(
      env: Env, t: TypeId, v: Value, segs: seq<string>, outer: map<string, string>) returns (ps: seq<Place>)
    requires HasType(env, v, Struct(t))
    ensures Match(env, t, v, segs, outer, ps, Interpret(env, t, v, Dotted(segs), outer))
    ensures forall p :: IsValuePlace(env, t, v, p) ==> p in ps
    decreases v, 1, 0
  {
    hide Emits, TagsIn, Dotted, JoinName, IsValuePlace, OwnMetrics, InterpretChildren, Match;
    var tags := TagsIn(env[t], v, |env[t]|, outer);
    var own := OwnPlaces(env, t, v, segs, outer);
    var nested := ChildrenMean(env, t, v, segs, outer, 0);
    MatchJoin(env, t, v, segs, outer,
              own, OwnMetrics(env[t], v, |env[t]|, Dotted(segs), tags),
              nested, InterpretChildren(env, t, v, Dotted(segs), tags, 0));
    ps := own + nested;
  }

  /**
   Report: the places of the value fields that can be reached, each once, and for each the metric that is reported
   there by the compiled plan.
   */
  lemma PlanReports(env: Env, t: TypeId, v: Value) returns (ps: seq<Place>)
    requires Closed(env) && t in env && Compile(env, t, "", [], [], {}).Some? && HasType(env, v, Struct(t))
    ensures Match(env, t, v, [], map[], ps, RunPlan(Compile(env, t, "", [], [], {}).value, v))
    ensures forall p :: IsValuePlace(env, t, v, p) <==> p in ps
  {
    hide Interpret, Compile, RunPlan, IsValuePlace;
    PlanMeansInterpreter(env, t, v);
    ps := StructMeans(env, t, v, [], map[]);
    forall p | p in ps ensures IsValuePlace(env, t, v, p) {
      var j :| 0 <= j < |ps| && ps[j] == p;
      var es := RunPlan(Compile(env, t, "", [], [], {}).value, v);
      assert Emits(env, t, v, [], map[], ps[j], es[j]);
    }
  }

  // ---- unsupported fields ----

  /** A tag on a field that is no string or also has a metric name; a metric of no known type or of no number. */
  predicate Unsupported(f: Field) {
    if f.tag != "" then !f.ftype.Str? || f.metric != ""
    else
      && f.metric != "" && f.metric != "-" && !Elem(f.ftype).Struct?
      && (f.typ !in ["", "histogram", "counter", "gauge"] || f.ftype !in [Bool, Int, Duration, Uint, Float])
  }

  /** A chain of nested structs that ends in an unsupported field or in a type it has visited. */
  ghost predicate LeadsToDefect(env: Env, c: seq<TypeId>) {
    && Chain(env, c)
    && var last := c[|c| - 1];
       last in c[..|c| - 1] || exists i :: 0 <= i < |env[last]| && Unsupported(env[last][i])
  }

  lemma FieldsOkIff(fields: seq<Field>)
    ensures FieldsOk(fields) <==> forall i :: 0 <= i < |fields| ==> !Unsupported(fields[i])
  {
    forall i | 0 <= i < |fields| ensures TagOk(fields[i]) && LeafOk(fields[i]) <==> !Unsupported(fields[i]) {
      TypeMeans(fields[i].typ);
    }
  }

  /** Exactly the types that lead to a defect are rejected. */
  lemma RejectedFor(env: Env, t: TypeId)
    requires Closed(env) && t in env
    ensures Compile(env, t, "", [], [], {}).None? <==>
      exists c: seq<TypeId> :: c != [] && c[0] == t && LeadsToDefect(env, c)
  {
    hide Compile, FieldsOk, Unsupported, Chain;
    RejectedIff(env, t);
    forall u | u in env ensures FieldsOk(env[u]) <==> forall i :: 0 <= i < |env[u]| ==> !Unsupported(env[u][i]) {
      FieldsOkIff(env[u]);
    }
    forall c: seq<TypeId> | Chain(env, c) ensures c != [] && (Defective(env, c, {}) <==> LeadsToDefect(env, c)) {
      ChainEnds(env, c);
    }
  }

  lemma ChainEnds(env: Env, c: seq<TypeId>)
    requires Chain(env, c)
    ensures c != [] && c[|c| - 1] in env
  {
  }
}
