/**
 What Report works on: struct types in an environment, so that a type can contain itself, and values; the
 flat plan of a type; and a direct interpreter of a value as the meaning of its struct tags.
 */
module ReportTypes {
  import opened Options

  type TypeId = nat

  datatype FieldType =
    | Struct(id: TypeId)
    | Pointer(elem: FieldType)
    | Str
    | Bool | Int | Duration | Uint | Float
    | Time | Other

  /** The struct tags `tag`, `metric` and `type` of a field; "" when absent. */
  datatype Field = Field(tag: string, metric: string, typ: string, ftype: FieldType)

  type Env = map<TypeId, seq<Field>>

  datatype Value =
    | StructV(fields: seq<Value>)
    | Nil
    | Ref(elem: Value)
    | StrV(s: string)
    | BoolV(b: bool) | IntV(i: int) | FloatV(r: real)
    | OtherV

  datatype MetricType = Histogram | Counter | Gauge

  datatype Emission = Emission(name: string, typ: MetricType, value: real, attributes: map<string, string>)

  /** Every struct type that occurs in a field is known. */
  predicate Closed(env: Env) {
    forall t, i :: t in env && 0 <= i < |env[t]| && Elem(env[t][i].ftype).Struct? ==> Elem(env[t][i].ftype).id in env
  }

  /** The type behind all pointers. */
  function Elem(t: FieldType): FieldType {
    if t.Pointer? then Elem(t.elem) else t
  }

  predicate HasType(env: Env, v: Value, t: FieldType)
    decreases v
  {
    match t
    case Pointer(e) => v.Nil? || (v.Ref? && HasType(env, v.elem, e))
    case Struct(id) => v.StructV? && id in env && |v.fields| == |env[id]| &&
      forall i :: 0 <= i < |v.fields| ==> HasType(env, v.fields[i], env[id][i].ftype)
    case Str => v.StrV?
    case Bool => v.BoolV?
    case Int => v.IntV?
    case Duration => v.IntV?
    case Uint => v.IntV?
    case Float => v.FloatV?
    case Time => v.OtherV?
    case Other => v.OtherV?
  }

  /** The value behind all pointers, unless one is nil. */
  function Deref(v: Value): (r: Option<Value>)
    ensures r.Some? ==> r.value == v || r.value < v
  {
    if v.Nil? then None else if v.Ref? then Deref(v.elem) else Some(v)
  }

  function JoinName(prefix: string, name: string): string {
    if prefix == "" then name else if name == "" then prefix else prefix + "." + name
  }

  // ---- which fields mean what ----

  predicate IsTag(f: Field) {
    f.tag != ""
  }

  /** A struct that is traversed. */
  predicate IsChild(f: Field) {
    !IsTag(f) && f.metric != "-" && Elem(f.ftype).Struct?
  }

  predicate IsLeaf(f: Field) {
    !IsTag(f) && f.metric != "-" && f.metric != "" && !Elem(f.ftype).Struct?
  }

  predicate TagOk(f: Field) {
    IsTag(f) ==> f.ftype.Str? && f.metric == ""
  }

  function TypeOf(typ: string): Option<MetricType> {
    if typ == "" || typ == "histogram" then Some(Histogram)
    else if typ == "counter" then Some(Counter)
    else if typ == "gauge" then Some(Gauge)
    else None
  }

  predicate Numeric(t: FieldType) {
    t.Bool? || t.Int? || t.Duration? || t.Uint? || t.Float?
  }

  predicate LeafOk(f: Field) {
    IsLeaf(f) ==> TypeOf(f.typ).Some? && Numeric(f.ftype)
  }

  /** The number a field reports: a bool as 0 or 1, a duration in seconds. */
  function Number(t: FieldType, v: Value): real {
    match v
    case BoolV(b) => if b then 1.0 else 0.0
    case IntV(i) => if t.Duration? then i as real / 1_000_000_000.0 else i as real
    case FloatV(r) => r
    case _ => 0.0
  }

  // ---- the direct interpreter ----

  /** The tags in effect inside a struct: its own ones replace those around it. */
  function TagsIn(fields: seq<Field>, v: Value, n: nat, outer: map<string, string>): map<string, string>
    requires v.StructV? && |v.fields| == |fields| && n <= |fields|
  {
    if n == 0 then outer
    else
      var tags := TagsIn(fields, v, n - 1, outer);
      if IsTag(fields[n - 1]) && v.fields[n - 1].StrV? then tags[fields[n - 1].tag := v.fields[n - 1].s] else tags
  }

  function NonEmpty(tags: map<string, string>): map<string, string> {
    map k | k in tags && tags[k] != "" :: tags[k]
  }

  /** What the value fields of one struct report. */
  function OwnMetrics(fields: seq<Field>, v: Value, n: nat, prefix: string, tags: map<string, string>): seq<Emission>
    requires v.StructV? && |v.fields| == |fields| && n <= |fields|
  {
    if n == 0 then []
    else
      var f := fields[n - 1];
      OwnMetrics(fields, v, n - 1, prefix, tags) +
      if IsLeaf(f) && TypeOf(f.typ).Some?
      then [Emission(JoinName(prefix, f.metric), TypeOf(f.typ).value, Number(f.ftype, v.fields[n - 1]), NonEmpty(tags))]
      else []
  }

  /** Everything a struct value reports: its own value fields, then its nested structs, skipping nil pointers. */
  function Interpret(env: Env, t: TypeId, v: Value, prefix: string, outer: map<string, string>): seq<Emission>
    requires HasType(env, v, Struct(t))
    decreases v, 1, 0
  {
    var tags := TagsIn(env[t], v, |env[t]|, outer);
    OwnMetrics(env[t], v, |env[t]|, prefix, tags) + InterpretChildren(env, t, v, prefix, tags, 0)
  }

  function InterpretChildren(
      env: Env, t: TypeId, v: Value, prefix: string, tags: map<string, string>, i: nat): seq<Emission>
    requires HasType(env, v, Struct(t)) && i <= |env[t]|
    decreases v, 0, |env[t]| - i
  {
    if i == |env[t]| then []
    else
      var f := env[t][i];
      var inner :=
        if IsChild(f) && Deref(v.fields[i]).Some? then
          DerefHasType(env, v.fields[i], f.ftype);
          Interpret(env, Elem(f.ftype).id, Deref(v.fields[i]).value, JoinName(prefix, f.metric), tags)
        else [];
      inner + InterpretChildren(env, t, v, prefix, tags, i + 1)
  }

  lemma {:induction false} DerefHasType(env: Env, v: Value, t: FieldType)
    requires HasType(env, v, t)
    ensures Deref(v).Some? ==> HasType(env, Deref(v).value, Elem(t))
    decreases v
  {
    if v.Ref? { DerefHasType(env, v.elem, t.elem); }
  }

  // ---- plans ----

  datatype Tag = Tag(key: string, path: seq<nat>)

  datatype Leaf = Leaf(name: string, typ: MetricType, index: nat, ftype: FieldType)

  datatype Scope = Scope(path: seq<nat>, tags: seq<Tag>, leaves: seq<Leaf>)

  /** walk */
  function Walk(v: Value, path: seq<nat>): Option<Value> {
    if path == [] then Some(v)
    else
      var at := Walk(v, path[..|path| - 1]);
      var i := path[|path| - 1];
      if at.Some? && at.value.StructV? && i < |at.value.fields| then Deref(at.value.fields[i]) else None
  }

  /** attributes */
  function Attributes(tags: seq<Tag>, root: Value): seq<(string, string)> {
    if tags == [] then []
    else
      var t := tags[|tags| - 1];
      var v := Walk(root, t.path);
      Attributes(tags[..|tags| - 1], root) +
      if v.Some? && v.value.StrV? && v.value.s != "" then [(t.key, v.value.s)] else []
  }

  /** A list of attributes as a set of them; the last one of a key counts. */
  function AsMap(attrs: seq<(string, string)>): map<string, string> {
    if attrs == [] then map[] else AsMap(attrs[..|attrs| - 1])[attrs[|attrs| - 1].0 := attrs[|attrs| - 1].1]
  }

  function RunLeaves(leaves: seq<Leaf>, v: Value, attributes: map<string, string>): seq<Emission> {
    if leaves == [] then []
    else
      var l := leaves[|leaves| - 1];
      RunLeaves(leaves[..|leaves| - 1], v, attributes) +
      if v.StructV? && l.index < |v.fields|
      then [Emission(l.name, l.typ, Number(l.ftype, v.fields[l.index]), attributes)] else []
  }

  function RunScope(scope: Scope, root: Value): seq<Emission> {
    var v := Walk(root, scope.path);
    if v.None? then [] else RunLeaves(scope.leaves, v.value, AsMap(Attributes(scope.tags, root)))
  }

  /** report */
  function RunPlan(scopes: seq<Scope>, root: Value): seq<Emission> {
    if scopes == [] then [] else RunScope(scopes[0], root) + RunPlan(scopes[1..], root)
  }

  // ---- compiling a type ----

  function IndexOf(tags: seq<Tag>, key: string): (i: nat)
    ensures i <= |tags| && (i < |tags| ==> tags[i].key == key) && forall j :: 0 <= j < i ==> tags[j].key != key
  {
    if tags == [] || tags[0].key == key then 0 else 1 + IndexOf(tags[1..], key)
  }

  /** A tag takes the place of one with the same key, or goes last. */
  function SetTag(tags: seq<Tag>, t: Tag): seq<Tag> {
    var i := IndexOf(tags, t.key);
    if i < |tags| then tags[i := t] else tags + [t]
  }

  /** scopeTags over the first n fields, which are all in order. */
  function ScopeTags(fields: seq<Field>, path: seq<nat>, inherited: seq<Tag>, n: nat): seq<Tag>
    requires n <= |fields|
  {
    if n == 0 then inherited
    else
      var tags := ScopeTags(fields, path, inherited, n - 1);
      if IsTag(fields[n - 1]) then SetTag(tags, Tag(fields[n - 1].tag, path + [n - 1])) else tags
  }

  function Leaves(fields: seq<Field>, prefix: string, n: nat): seq<Leaf>
    requires n <= |fields|
  {
    if n == 0 then []
    else
      var f := fields[n - 1];
      Leaves(fields, prefix, n - 1) +
      if IsLeaf(f) && TypeOf(f.typ).Some?
      then [Leaf(JoinName(prefix, f.metric), TypeOf(f.typ).value, n - 1, f.ftype)] else []
  }

  predicate FieldsOk(fields: seq<Field>) {
    forall i :: 0 <= i < |fields| ==> TagOk(fields[i]) && LeafOk(fields[i])
  }

  /** build: the scopes of t and of the structs nested in it, or None for an unsupported type. */
  function Compile(
      env: Env, t: TypeId, prefix: string, path: seq<nat>, inherited: seq<Tag>,
      visiting: set<TypeId>): Option<seq<Scope>>
    requires Closed(env) && t in env
    decreases |env.Keys - visiting|, 1, 0
  {
    if t in visiting || !FieldsOk(env[t]) then None
    else
      var tags := ScopeTags(env[t], path, inherited, |env[t]|);
      var leaves := Leaves(env[t], prefix, |env[t]|);
      Smaller(env, visiting, t);
      var rest := CompileChildren(env, t, prefix, path, tags, visiting + {t}, 0);
      if rest.None? then None
      else Some((if leaves == [] then [] else [Scope(path, tags, leaves)]) + rest.value)
  }

  function CompileChildren(
      env: Env, t: TypeId, prefix: string, path: seq<nat>, tags: seq<Tag>, visiting: set<TypeId>,
      i: nat): Option<seq<Scope>>
    requires Closed(env) && t in env && i <= |env[t]|
    decreases |env.Keys - visiting|, 2, |env[t]| - i
  {
    if i == |env[t]| then Some([])
    else
      var f := env[t][i];
      if !IsChild(f) then CompileChildren(env, t, prefix, path, tags, visiting, i + 1)
      else
        var first := Compile(env, Elem(f.ftype).id, JoinName(prefix, f.metric), path + [i], tags, visiting);
        if first.None? then None
        else
          var rest := CompileChildren(env, t, prefix, path, tags, visiting, i + 1);
          if rest.None? then None else Some(first.value + rest.value)
  }

  lemma Smaller(env: Env, visiting: set<TypeId>, t: TypeId)
    requires t in env && t !in visiting
    ensures |env.Keys - (visiting + {t})| < |env.Keys - visiting|
  {
    assert env.Keys - visiting == (env.Keys - (visiting + {t})) + {t};
  }
}
