/**
 The compiled plan of a struct type means what the direct interpreter says, and exactly the unsupported types are
 rejected.
 */
module ReportProofs {
  import opened ReportTypes

  // ---- which types are rejected ----

  predicate ChildOf(env: Env, t: TypeId, u: TypeId) {
    t in env && exists i :: 0 <= i < |env[t]| && IsChild(env[t][i]) && Elem(env[t][i].ftype).id == u
  }

  /** Struct types, each nested in the one before it. */
  predicate Chain(env: Env, c: seq<TypeId>) {
    && c != [] && (forall i :: 0 <= i < |c| ==> c[i] in env)
    && (forall i :: 0 < i < |c| ==> ChildOf(env, c[i - 1], c[i]))
  }

  /** The last type has an unsupported field, or is one of those given or on the way. */
  predicate Defective(env: Env, c: seq<TypeId>, seen: set<TypeId>)
    requires Chain(env, c)
  {
    var last := c[|c| - 1];
    !FieldsOk(env[last]) || last in seen || last in c[..|c| - 1]
  }

  lemma ChainTail(env: Env, c: seq<TypeId>)
    requires Chain(env, c) && |c| > 1
    ensures Chain(env, c[1..])
  {
    forall i | 0 < i < |c[1..]| ensures ChildOf(env, c[1..][i - 1], c[1..][i]) {
      assert ChildOf(env, c[i], c[i + 1]);
    }
  }

  lemma ChainExtend(env: Env, t: TypeId, c: seq<TypeId>)
    requires Chain(env, c) && ChildOf(env, t, c[0])
    ensures Chain(env, [t] + c)
  {
  }

  lemma {:induction false} RejectedIsDefective(
      env: Env, t: TypeId, prefix: string, path: seq<nat>, inherited: seq<Tag>, seen: set<TypeId>)
    returns (c: seq<TypeId>)
    requires Closed(env) && t in env && Compile(env, t, prefix, path, inherited, seen).None?
    ensures Chain(env, c) && c[0] == t && Defective(env, c, seen)
    decreases |env.Keys - seen|, 1, 0
  {
    if t in seen || !FieldsOk(env[t]) {
      c := [t];
    } else {
      var tags := ScopeTags(env[t], path, inherited, |env[t]|);
      Smaller(env, seen, t);
      c := RejectedChild(env, t, prefix, path, tags, seen + {t}, 0);
      ChainExtend(env, t, c);
      assert ([t] + c)[..|c|] == [t] + c[..|c| - 1];
      c := [t] + c;
    }
  }

  lemma {:induction false} RejectedChild(
      env: Env, t: TypeId, prefix: string, path: seq<nat>, tags: seq<Tag>, seen: set<TypeId>, i: nat)
    returns (c: seq<TypeId>)
    requires Closed(env) && t in env && i <= |env[t]|
    requires CompileChildren(env, t, prefix, path, tags, seen, i).None?
    ensures Chain(env, c) && ChildOf(env, t, c[0]) && Defective(env, c, seen)
    decreases |env.Keys - seen|, 2, |env[t]| - i
  {
    var f := env[t][i];
    if IsChild(f) && Compile(env, Elem(f.ftype).id, JoinName(prefix, f.metric), path + [i], tags, seen).None? {
      c := RejectedIsDefective(env, Elem(f.ftype).id, JoinName(prefix, f.metric), path + [i], tags, seen);
    } else {
      c := RejectedChild(env, t, prefix, path, tags, seen, i + 1);
    }
  }

  lemma {:induction false} DefectiveIsRejected(
      env: Env, c: seq<TypeId>, prefix: string, path: seq<nat>, inherited: seq<Tag>, seen: set<TypeId>)
    requires Closed(env) && Chain(env, c) && Defective(env, c, seen)
    ensures Compile(env, c[0], prefix, path, inherited, seen).None?
    decreases |c|, 1, 0
  {
    var t := c[0];
    if |c| > 1 && t !in seen && FieldsOk(env[t]) {
      ChainTail(env, c);
      assert ChildOf(env, c[0], c[1]);
      assert c[..|c| - 1] == [t] + c[1..][..|c| - 2];
      var tags := ScopeTags(env[t], path, inherited, |env[t]|);
      DefectiveChild(env, c, prefix, path, tags, seen + {t}, 0);
    }
  }

  lemma {:induction false} DefectiveChild(
      env: Env, c: seq<TypeId>, prefix: string, path: seq<nat>, tags: seq<Tag>, seen: set<TypeId>, i: nat)
    requires Closed(env) && |c| > 1 && c[0] in env && Chain(env, c[1..]) && Defective(env, c[1..], seen)
    requires i <= |env[c[0]]|
    requires exists j :: i <= j < |env[c[0]]| && IsChild(env[c[0]][j]) && Elem(env[c[0]][j].ftype).id == c[1]
    ensures CompileChildren(env, c[0], prefix, path, tags, seen, i).None?
    decreases |c|, 0, |env[c[0]]| - i
  {
    var f := env[c[0]][i];
    if IsChild(f) && Elem(f.ftype).id == c[1] {
      DefectiveIsRejected(env, c[1..], JoinName(prefix, f.metric), path + [i], tags, seen);
    } else {
      DefectiveChild(env, c, prefix, path, tags, seen, i + 1);
    }
  }

  /** A type is rejected exactly when a chain of nested structs reaches an unsupported field or the same type twice. */
  lemma RejectedIff(env: Env, t: TypeId)
    requires Closed(env) && t in env
    ensures Compile(env, t, "", [], [], {}).None? <==>
      exists c: seq<TypeId> :: Chain(env, c) && c[0] == t && Defective(env, c, {})
  {
    if Compile(env, t, "", [], [], {}).None? {
      var c := RejectedIsDefective(env, t, "", [], [], {});
    }
    forall c: seq<TypeId> | Chain(env, c) && c[0] == t && Defective(env, c, {})
      ensures Compile(env, t, "", [], [], {}).None?
    {
      DefectiveIsRejected(env, c, "", [], [], {});
    }
  }

  // ---- tags ----

  /** The strings the tags point at. */
  function Resolve(tags: seq<Tag>, root: Value): map<string, string> {
    if tags == [] then map[]
    else
      var t := tags[|tags| - 1];
      var v := Walk(root, t.path);
      if v.Some? && v.value.StrV? then Resolve(tags[..|tags| - 1], root)[t.key := v.value.s]
      else Resolve(tags[..|tags| - 1], root)
  }

  predicate Located(tags: seq<Tag>, root: Value) {
    forall i :: 0 <= i < |tags| ==> Walk(root, tags[i].path).Some? && Walk(root, tags[i].path).value.StrV?
  }

  predicate DistinctKeys(tags: seq<Tag>) {
    forall i, j :: 0 <= i < j < |tags| ==> tags[i].key != tags[j].key
  }

  lemma ResolveEnds(tags: seq<Tag>, root: Value)
    requires tags != [] && Walk(root, tags[|tags| - 1].path).Some? && Walk(root, tags[|tags| - 1].path).value.StrV?
    ensures var t := tags[|tags| - 1];
            Resolve(tags, root) == Resolve(tags[..|tags| - 1], root)[t.key := Walk(root, t.path).value.s]
  {
    hide Walk;
  }

  lemma {:induction false} ResolveReplaced(tags: seq<Tag>, i: nat, t: Tag, root: Value)
    requires i < |tags| && tags[i].key == t.key && DistinctKeys(tags) && Located(tags, root)
    requires Walk(root, t.path).Some? && Walk(root, t.path).value.StrV?
    ensures Resolve(tags[i := t], root) == Resolve(tags, root)[t.key := Walk(root, t.path).value.s]
    decreases |tags|
  {
    hide Walk, Resolve;
    var init, last := tags[..|tags| - 1], tags[|tags| - 1];
    ResolveEnds(tags, root);
    ResolveEnds(tags[i := t], root);
    if i == |tags| - 1 {
      assert tags[i := t][..|tags| - 1] == init;
    } else {
      assert tags[i := t][..|tags| - 1] == init[i := t];
      assert DistinctKeys(init) && Located(init, root);
      ResolveReplaced(init, i, t, root);
      assert last.key != t.key;
    }
  }

  lemma ResolveSet(tags: seq<Tag>, t: Tag, root: Value)
    requires DistinctKeys(tags) && Located(tags, root)
    requires Walk(root, t.path).Some? && Walk(root, t.path).value.StrV?
    ensures DistinctKeys(SetTag(tags, t)) && Located(SetTag(tags, t), root)
    ensures Resolve(SetTag(tags, t), root) == Resolve(tags, root)[t.key := Walk(root, t.path).value.s]
  {
    hide Walk, Resolve;
    var i := IndexOf(tags, t.key);
    if i < |tags| { ResolveReplaced(tags, i, t, root); }
    else { ResolveLast(tags, t, root); }
  }

  lemma WalkField(root: Value, path: seq<nat>, i: nat)
    requires Walk(root, path).Some? && Walk(root, path).value.StructV? && i < |Walk(root, path).value.fields|
    ensures Walk(root, path + [i]) == Deref(Walk(root, path).value.fields[i])
  {
    assert (path + [i])[..|path + [i]| - 1] == path;
  }

  lemma {:induction false} ScopeTagsMean(
      env: Env, t: TypeId, path: seq<nat>, inherited: seq<Tag>, n: nat, root: Value)
    requires t in env && n <= |env[t]| && FieldsOk(env[t])
    requires Walk(root, path).Some? && HasType(env, Walk(root, path).value, Struct(t))
    requires DistinctKeys(inherited) && Located(inherited, root)
    ensures var tags := ScopeTags(env[t], path, inherited, n);
            && DistinctKeys(tags) && Located(tags, root)
            && Resolve(tags, root) == TagsIn(env[t], Walk(root, path).value, n, Resolve(inherited, root))
  {
    hide Walk, Resolve, Located, DistinctKeys, SetTag;
    if n > 0 {
      ScopeTagsMean(env, t, path, inherited, n - 1, root);
      if IsTag(env[t][n - 1]) {
        assert TagOk(env[t][n - 1]);
        WalkField(root, path, n - 1);
        ResolveSet(ScopeTags(env[t], path, inherited, n - 1), Tag(env[t][n - 1].tag, path + [n - 1]), root);
      }
    }
  }

  lemma NonEmptySet(m: map<string, string>, k: string, s: string)
    requires k !in m
    ensures NonEmpty(m[k := s]) == if s == "" then NonEmpty(m) else NonEmpty(m)[k := s]
  {
  }

  lemma ResolveLast(tags: seq<Tag>, t: Tag, root: Value)
    ensures var v := Walk(root, t.path);
            Resolve(tags + [t], root) ==
              if v.Some? && v.value.StrV? then Resolve(tags, root)[t.key := v.value.s] else Resolve(tags, root)
  {
    hide Walk;
    assert (tags + [t])[..|tags + [t]| - 1] == tags;
  }

  lemma AttributesLast(tags: seq<Tag>, t: Tag, root: Value)
    ensures var v := Walk(root, t.path);
            AsMap(Attributes(tags + [t], root)) ==
              if v.Some? && v.value.StrV? && v.value.s != "" then AsMap(Attributes(tags, root))[t.key := v.value.s]
              else AsMap(Attributes(tags, root))
  {
    hide Walk;
    assert (tags + [t])[..|tags + [t]| - 1] == tags;
    var v := Walk(root, t.path);
    var attrs := Attributes(tags, root);
    if v.Some? && v.value.StrV? && v.value.s != "" {
      assert (attrs + [(t.key, v.value.s)])[..|attrs + [(t.key, v.value.s)]| - 1] == attrs;
    } else {
      assert attrs + [] == attrs;
    }
  }

  predicate HasKey(tags: seq<Tag>, k: string) {
    exists i :: 0 <= i < |tags| && tags[i].key == k
  }

  lemma {:induction false} ResolvedKeys(tags: seq<Tag>, root: Value)
    ensures forall k :: k in Resolve(tags, root) ==> HasKey(tags, k)
    decreases |tags|
  {
    hide Walk;
    if tags != [] {
      var init, t := tags[..|tags| - 1], tags[|tags| - 1];
      ResolvedKeys(init, root);
      forall k | k in Resolve(tags, root) ensures HasKey(tags, k) {
        if k == t.key { assert tags[|tags| - 1].key == k; } else { KeyStays(init, t, k); }
      }
      assert tags == init + [t];
    }
  }

  lemma KeyStays(tags: seq<Tag>, t: Tag, k: string)
    requires HasKey(tags, k)
    ensures HasKey(tags + [t], k)
  {
    var i :| 0 <= i < |tags| && tags[i].key == k;
    assert (tags + [t])[i].key == k;
  }

  lemma {:induction false} AttributesMean(tags: seq<Tag>, root: Value)
    requires DistinctKeys(tags)
    ensures AsMap(Attributes(tags, root)) == NonEmpty(Resolve(tags, root))
    ensures forall k :: k in Resolve(tags, root) ==> HasKey(tags, k)
    decreases |tags|
  {
    hide Walk;
    ResolvedKeys(tags, root);
    if tags != [] {
      var init, t := tags[..|tags| - 1], tags[|tags| - 1];
      AttributesMean(init, root);
      hide Resolve, Attributes, AsMap, NonEmpty, HasKey;
      ResolveLast(init, t, root);
      AttributesLast(init, t, root);
      assert tags == init + [t];
      LastKeyIsNew(init, t);
      var v := Walk(root, t.path);
      if v.Some? && v.value.StrV? { NonEmptySet(Resolve(init, root), t.key, v.value.s); }
    }
  }

  lemma LastKeyIsNew(tags: seq<Tag>, t: Tag)
    requires DistinctKeys(tags + [t])
    ensures !HasKey(tags, t.key)
  {
    forall i | 0 <= i < |tags| ensures tags[i].key != t.key {
      assert (tags + [t])[i] == tags[i] && (tags + [t])[|tags|] == t;
    }
  }

  lemma RunLeavesLast(leaves: seq<Leaf>, l: Leaf, v: Value, attributes: map<string, string>)
    requires v.StructV? && l.index < |v.fields|
    ensures RunLeaves(leaves + [l], v, attributes) ==
      RunLeaves(leaves, v, attributes) + [Emission(l.name, l.typ, Number(l.ftype, v.fields[l.index]), attributes)]
  {
    assert (leaves + [l])[..|leaves + [l]| - 1] == leaves;
  }

  lemma {:induction false} LeavesMean(fields: seq<Field>, v: Value, n: nat, prefix: string, tags: map<string, string>)
    requires v.StructV? && |v.fields| == |fields| && n <= |fields|
    ensures RunLeaves(Leaves(fields, prefix, n), v, NonEmpty(tags)) == OwnMetrics(fields, v, n, prefix, tags)
  {
    hide NonEmpty, JoinName, Number, IsLeaf, TypeOf, RunLeaves;
    if n == 0 {
      RunNoLeaves(v, NonEmpty(tags));
    } else {
      var f := fields[n - 1];
      LeavesMean(fields, v, n - 1, prefix, tags);
      var leaves := Leaves(fields, prefix, n - 1);
      if IsLeaf(f) && TypeOf(f.typ).Some? {
        RunLeavesLast(leaves, Leaf(JoinName(prefix, f.metric), TypeOf(f.typ).value, n - 1, f.ftype), v, NonEmpty(tags));
      } else {
        assert leaves + [] == leaves;
        assert OwnMetrics(fields, v, n - 1, prefix, tags) + [] == OwnMetrics(fields, v, n - 1, prefix, tags);
      }
    }
  }

  lemma RunNoLeaves(v: Value, attributes: map<string, string>)
    ensures RunLeaves([], v, attributes) == []
  {
  }

  // ---- plans ----

  lemma {:induction false} RunConcat(a: seq<Scope>, b: seq<Scope>, root: Value)
    ensures RunPlan(a + b, root) == RunPlan(a, root) + RunPlan(b, root)
  {
    if a == [] {
      assert a + b == b;
    } else {
      assert (a + b)[1..] == a[1..] + b;
      RunConcat(a[1..], b, root);
    }
  }

  lemma RunOne(scope: Scope, root: Value)
    ensures RunPlan([scope], root) == RunScope(scope, root)
  {
    assert [scope][1..] == [];
  }

  lemma NilStays(root: Value, path: seq<nat>, i: nat)
    requires Walk(root, path).None?
    ensures Walk(root, path + [i]).None?
  {
    assert (path + [i])[..|path + [i]| - 1] == path;
  }

  /** Nothing below a nil pointer is reported. */
  lemma {:induction false} NilReportsNothing(
      env: Env, t: TypeId, prefix: string, path: seq<nat>, inherited: seq<Tag>, seen: set<TypeId>, root: Value)
    requires Closed(env) && t in env && Compile(env, t, prefix, path, inherited, seen).Some? && Walk(root, path).None?
    ensures RunPlan(Compile(env, t, prefix, path, inherited, seen).value, root) == []
    decreases |env.Keys - seen|, 1, 0
  {
    hide Walk, RunPlan;
    var tags := ScopeTags(env[t], path, inherited, |env[t]|);
    Smaller(env, seen, t);
    NilChildren(env, t, prefix, path, tags, seen + {t}, 0, root);
    var leaves := Leaves(env[t], prefix, |env[t]|);
    var rest := CompileChildren(env, t, prefix, path, tags, seen + {t}, 0).value;
    if leaves == [] { assert [] + rest == rest; }
    else {
      RunConcat([Scope(path, tags, leaves)], rest, root);
      RunOne(Scope(path, tags, leaves), root);
    }
  }

  lemma {:induction false} NilChildren(
      env: Env, t: TypeId, prefix: string, path: seq<nat>, tags: seq<Tag>, seen: set<TypeId>, i: nat, root: Value)
    requires Closed(env) && t in env && i <= |env[t]|
    requires CompileChildren(env, t, prefix, path, tags, seen, i).Some? && Walk(root, path).None?
    ensures RunPlan(CompileChildren(env, t, prefix, path, tags, seen, i).value, root) == []
    decreases |env.Keys - seen|, 2, |env[t]| - i
  {
    hide Walk;
    if i < |env[t]| {
      var f := env[t][i];
      NilChildren(env, t, prefix, path, tags, seen, i + 1, root);
      if IsChild(f) {
        NilStays(root, path, i);
        NilReportsNothing(env, Elem(f.ftype).id, JoinName(prefix, f.metric), path + [i], tags, seen, root);
        RunConcat(Compile(env, Elem(f.ftype).id, JoinName(prefix, f.metric), path + [i], tags, seen).value,
          CompileChildren(env, t, prefix, path, tags, seen, i + 1).value, root);
      }
    }
  }

  /** One struct of the tree and everything nested in it. */
  lemma {:induction false} CompiledMeans(
      env: Env, t: TypeId, prefix: string, path: seq<nat>, inherited: seq<Tag>, seen: set<TypeId>, root: Value)
    requires Closed(env) && t in env && Compile(env, t, prefix, path, inherited, seen).Some?
    requires Walk(root, path).Some? && HasType(env, Walk(root, path).value, Struct(t))
    requires DistinctKeys(inherited) && Located(inherited, root)
    ensures RunPlan(Compile(env, t, prefix, path, inherited, seen).value, root) ==
      Interpret(env, t, Walk(root, path).value, prefix, Resolve(inherited, root))
    decreases |env.Keys - seen|, 1, 0
  {
    var v := Walk(root, path).value;
    var tags := ScopeTags(env[t], path, inherited, |env[t]|);
    ScopeTagsMean(env, t, path, inherited, |env[t]|, root);
    hide Walk, RunPlan, DistinctKeys, Located, Resolve;
    Smaller(env, seen, t);
    ChildrenMean(env, t, prefix, path, tags, seen + {t}, 0, root);
    var leaves := Leaves(env[t], prefix, |env[t]|);
    var rest := CompileChildren(env, t, prefix, path, tags, seen + {t}, 0).value;
    LeavesMean(env[t], v, |env[t]|, prefix, Resolve(tags, root));
    AttributesMean(tags, root);
    if leaves == [] { assert [] + rest == rest; }
    else {
      RunConcat([Scope(path, tags, leaves)], rest, root);
      RunOne(Scope(path, tags, leaves), root);
    }
  }

  lemma {:induction false} ChildrenMean(
      env: Env, t: TypeId, prefix: string, path: seq<nat>, tags: seq<Tag>, seen: set<TypeId>, i: nat, root: Value)
    requires Closed(env) && t in env && i <= |env[t]|
    requires CompileChildren(env, t, prefix, path, tags, seen, i).Some?
    requires Walk(root, path).Some? && HasType(env, Walk(root, path).value, Struct(t))
    requires DistinctKeys(tags) && Located(tags, root)
    ensures RunPlan(CompileChildren(env, t, prefix, path, tags, seen, i).value, root) ==
      InterpretChildren(env, t, Walk(root, path).value, prefix, Resolve(tags, root), i)
    decreases |env.Keys - seen|, 2, |env[t]| - i
  {
    hide Walk, DistinctKeys, Located, Resolve;
    if i < |env[t]| {
      var v := Walk(root, path).value;
      var f := env[t][i];
      ChildrenMean(env, t, prefix, path, tags, seen, i + 1, root);
      if IsChild(f) {
        WalkField(root, path, i);
        DerefHasType(env, v.fields[i], f.ftype);
        var id, name := Elem(f.ftype).id, JoinName(prefix, f.metric);
        if Deref(v.fields[i]).Some? { CompiledMeans(env, id, name, path + [i], tags, seen, root); }
        else { NilReportsNothing(env, id, name, path + [i], tags, seen, root); }
        RunConcat(Compile(env, id, name, path + [i], tags, seen).value,
          CompileChildren(env, t, prefix, path, tags, seen, i + 1).value, root);
      }
    }
  }

  /**
   Running the plan of a supported type on any value of it emits what the direct interpreter emits, in the same order.
   */
  lemma PlanMeansInterpreter(env: Env, t: TypeId, v: Value)
    requires Closed(env) && t in env && Compile(env, t, "", [], [], {}).Some? && HasType(env, v, Struct(t))
    ensures RunPlan(Compile(env, t, "", [], [], {}).value, v) == Interpret(env, t, v, "", map[])
  {
    CompiledMeans(env, t, "", [], [], {}, v);
  }
}
