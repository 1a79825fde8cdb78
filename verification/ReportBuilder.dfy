/** build, scopeTags, report and attributes with their loops, against the functions that define plans. */
module ReportBuilder {
  import opened ReportTypes
  import opened Options

  /** A nested struct found while scanning the fields. */
  datatype Nested = Nested(id: TypeId, prefix: string, path: seq<nat>)

  function NestedIn(fields: seq<Field>, prefix: string, path: seq<nat>, n: nat): seq<Nested>
    requires n <= |fields|
  {
    if n == 0 then []
    else
      var f := fields[n - 1];
      NestedIn(fields, prefix, path, n - 1) +
      if IsChild(f) then [Nested(Elem(f.ftype).id, JoinName(prefix, f.metric), path + [n - 1])] else []
  }

  predicate Known(env: Env, nested: seq<Nested>) {
    forall i :: 0 <= i < |nested| ==> nested[i].id in env
  }

  lemma {:induction false} NestedKnown(env: Env, t: TypeId, prefix: string, path: seq<nat>, n: nat)
    requires Closed(env) && t in env && n <= |env[t]|
    ensures Known(env, NestedIn(env[t], prefix, path, n))
  {
    if n > 0 { NestedKnown(env, t, prefix, path, n - 1); }
  }

  function CompileList(env: Env, nested: seq<Nested>, tags: seq<Tag>, visiting: set<TypeId>): Option<seq<Scope>>
    requires Closed(env) && Known(env, nested)
  {
    if nested == [] then Some([])
    else
      Join(Compile(env, nested[0].id, nested[0].prefix, nested[0].path, tags, visiting),
           CompileList(env, nested[1..], tags, visiting))
  }

  function Join(a: Option<seq<Scope>>, b: Option<seq<Scope>>): Option<seq<Scope>> {
    if a.None? || b.None? then None else Some(a.value + b.value)
  }

  lemma JoinLaws(a: Option<seq<Scope>>, b: Option<seq<Scope>>, c: Option<seq<Scope>>)
    ensures Join(Join(a, b), c) == Join(a, Join(b, c))
    ensures Join(Some([]), a) == a == Join(a, Some([]))
  {
    if a.Some? { assert [] + a.value == a.value == a.value + []; }
    if a.Some? && b.Some? && c.Some? { assert a.value + b.value + c.value == a.value + (b.value + c.value); }
  }

  lemma JoinValue(a: Option<seq<Scope>>, b: Option<seq<Scope>>)
    ensures Join(a, b) == if a.None? || b.None? then None else Some(a.value + b.value)
  {
  }

  lemma {:induction false} CompileConcat(env: Env, a: seq<Nested>, b: seq<Nested>, tags: seq<Tag>,
      visiting: set<TypeId>)
    requires Closed(env) && Known(env, a) && Known(env, b)
    ensures Known(env, a + b)
    ensures CompileList(env, a + b, tags, visiting) ==
      Join(CompileList(env, a, tags, visiting), CompileList(env, b, tags, visiting))
  {
    hide Compile, Join;
    if a == [] {
      assert a + b == b;
      JoinLaws(CompileList(env, b, tags, visiting), None, None);
    } else {
      assert (a + b)[1..] == a[1..] + b;
      CompileConcat(env, a[1..], b, tags, visiting);
      JoinLaws(Compile(env, a[0].id, a[0].prefix, a[0].path, tags, visiting),
        CompileList(env, a[1..], tags, visiting), CompileList(env, b, tags, visiting));
    }
  }

  lemma CompileOne(env: Env, x: Nested, tags: seq<Tag>, visiting: set<TypeId>)
    requires Closed(env) && x.id in env
    ensures CompileList(env, [x], tags, visiting) == Compile(env, x.id, x.prefix, x.path, tags, visiting)
  {
    hide Compile, Join;
    assert [x][1..] == [];
    JoinLaws(Compile(env, x.id, x.prefix, x.path, tags, visiting), None, None);
  }

  /** Compiling field by field is compiling the collected list. */
  lemma {:induction false} ChildrenAreList(
      env: Env, t: TypeId, prefix: string, path: seq<nat>, tags: seq<Tag>, visiting: set<TypeId>, i: nat)
    requires Closed(env) && t in env && i <= |env[t]|
    requires Known(env, NestedIn(env[t], prefix, path, i))
    requires Known(env, NestedIn(env[t], prefix, path, |env[t]|))
    ensures CompileList(env, NestedIn(env[t], prefix, path, |env[t]|), tags, visiting) ==
      Join(CompileList(env, NestedIn(env[t], prefix, path, i), tags, visiting),
           CompileChildren(env, t, prefix, path, tags, visiting, i))
    decreases |env[t]| - i
  {
    hide Compile, CompileList, Known, Elem, JoinName, Join;
    if i == |env[t]| {
      JoinLaws(CompileList(env, NestedIn(env[t], prefix, path, i), tags, visiting), None, None);
    } else {
      var f := env[t][i];
      NestedKnown(env, t, prefix, path, i + 1);
      ChildrenAreList(env, t, prefix, path, tags, visiting, i + 1);
      var before := NestedIn(env[t], prefix, path, i);
      if IsChild(f) {
        var x := Nested(Elem(f.ftype).id, JoinName(prefix, f.metric), path + [i]);
        assert Known(env, [x]) by { ChildKnown(env, t, i, x); }
        CompileConcat(env, before, [x], tags, visiting);
        CompileOne(env, x, tags, visiting);
        ChildFirst(env, t, prefix, path, tags, visiting, i);
        JoinLaws(CompileList(env, before, tags, visiting), CompileList(env, [x], tags, visiting),
          CompileChildren(env, t, prefix, path, tags, visiting, i + 1));
      } else {
        assert before + [] == before;
      }
    }
  }

  lemma ChildFirst(
      env: Env, t: TypeId, prefix: string, path: seq<nat>, tags: seq<Tag>, visiting: set<TypeId>, i: nat)
    requires Closed(env) && t in env && i < |env[t]| && IsChild(env[t][i])
    ensures CompileChildren(env, t, prefix, path, tags, visiting, i) ==
      Join(Compile(env, Elem(env[t][i].ftype).id, JoinName(prefix, env[t][i].metric), path + [i], tags, visiting),
           CompileChildren(env, t, prefix, path, tags, visiting, i + 1))
  {
    hide Compile;
  }

  lemma ChildKnown(env: Env, t: TypeId, i: nat, x: Nested)
    requires Closed(env) && t in env && i < |env[t]| && IsChild(env[t][i]) && x.id == Elem(env[t][i].ftype).id
    ensures Known(env, [x])
  {
  }

  /** scopeTags */
  method BuildTags(fields: seq<Field>, path: seq<nat>, inherited: seq<Tag>) returns (ok: bool, tags: seq<Tag>)
    ensures ok <==> forall i :: 0 <= i < |fields| ==> TagOk(fields[i])
    ensures ok ==> tags == ScopeTags(fields, path, inherited, |fields|)
  {
    tags := inherited;
    for i := 0 to |fields|
      invariant forall j :: 0 <= j < i ==> TagOk(fields[j])
      invariant tags == ScopeTags(fields, path, inherited, i)
    {
      var f := fields[i];
      if f.tag != "" {
        if !f.ftype.Str? || f.metric != "" { return false, []; }
        var at := IndexOf(tags, f.tag);
        var rt := Tag(f.tag, path + [i]);
        if at < |tags| { tags := tags[at := rt]; } else { tags := tags + [rt]; }
      }
    }
    return true, tags;
  }

  /** The scan of build over the fields of one struct. */
  method BuildScope(fields: seq<Field>, prefix: string, path: seq<nat>)
    returns (ok: bool, leaves: seq<Leaf>, children: seq<Nested>)
    ensures ok <==> forall i :: 0 <= i < |fields| ==> LeafOk(fields[i])
    ensures ok ==> leaves == Leaves(fields, prefix, |fields|) && children == NestedIn(fields, prefix, path, |fields|)
  {
    hide JoinName, Elem;
    leaves, children := [], [];
    for i := 0 to |fields|
      invariant forall j :: 0 <= j < i ==> LeafOk(fields[j])
      invariant leaves == Leaves(fields, prefix, i) && children == NestedIn(fields, prefix, path, i)
    {
      var f := fields[i];
      if f.tag != "" || f.metric == "-" { continue; }
      var ft := Elem(f.ftype);
      if ft.Struct? {
        children := children + [Nested(ft.id, JoinName(prefix, f.metric), path + [i])];
        continue;
      }
      if f.metric == "" { continue; }
      var typ := TypeOf(f.typ);
      if typ.None? || !Numeric(f.ftype) { return false, [], []; }
      leaves := leaves + [Leaf(JoinName(prefix, f.metric), typ.value, i, f.ftype)];
    }
    return true, leaves, children;
  }

  class Builder {
    var scopes: seq<Scope>
    var visiting: set<TypeId>

    constructor ()
      ensures scopes == [] && visiting == {}
    {
      scopes, visiting := [], {};
    }

    /** build: the type is marked while its fields are visited and unmarked on every way out. */
    method Build(env: Env, t: TypeId, prefix: string, path: seq<nat>, inherited: seq<Tag>) returns (ok: bool)
      requires Closed(env) && t in env
      modifies this
      ensures visiting == old(visiting)
      ensures ok <==> Compile(env, t, prefix, path, inherited, old(visiting)).Some?
      ensures ok ==> scopes == old(scopes) + Compile(env, t, prefix, path, inherited, old(visiting)).value
      decreases |env.Keys - visiting|, 1
    {
      if t in visiting { return false; }
      Smaller(env, visiting, t);
      ghost var before := visiting;
      visiting := visiting + {t};
      ok := BuildStruct(env, t, prefix, path, inherited, before);
      visiting := visiting - {t};
    }

    method BuildStruct(
        env: Env, t: TypeId, prefix: string, path: seq<nat>, inherited: seq<Tag>, ghost before: set<TypeId>)
      returns (ok: bool)
      requires Closed(env) && t in env && t !in before && visiting == before + {t}
      modifies this
      ensures visiting == old(visiting)
      ensures ok <==> Compile(env, t, prefix, path, inherited, before).Some?
      ensures ok ==> scopes == old(scopes) + Compile(env, t, prefix, path, inherited, before).value
      decreases |env.Keys - visiting|, 3
    {
      hide Leaves, ScopeTags, CompileChildren, CompileList, NestedIn;
      var tags;
      ok, tags := BuildTags(env[t], path, inherited);
      if !ok { return false; }
      var leaves, children;
      ok, leaves, children := BuildScope(env[t], prefix, path);
      if !ok { return false; }
      if leaves != [] { scopes := scopes + [Scope(path, tags, leaves)]; }
      NestedKnown(env, t, prefix, path, |env[t]|);
      ListOfAll(env, t, prefix, path, tags, visiting);
      ok := BuildAll(env, children, tags);
    }

    method BuildAll(env: Env, children: seq<Nested>, tags: seq<Tag>) returns (ok: bool)
      requires Closed(env) && Known(env, children)
      modifies this
      ensures visiting == old(visiting)
      ensures ok <==> CompileList(env, children, tags, old(visiting)).Some?
      ensures ok ==> scopes == old(scopes) + CompileList(env, children, tags, old(visiting)).value
      decreases |env.Keys - visiting|, 2
    {
      hide Compile, Join;
      ghost var done: seq<Scope> := [];
      JoinLaws(CompileList(env, children, tags, visiting), None, None);
      assert children[0..] == children;
      for i := 0 to |children|
        invariant visiting == old(visiting)
        invariant scopes == old(scopes) + done
        invariant CompileList(env, children, tags, visiting) ==
          Join(Some(done), CompileList(env, children[i..], tags, visiting))
      {
        var c := children[i];
        ok := Build(env, c.id, c.prefix, c.path, tags);
        assert children[i..][1..] == children[i + 1..];
        ghost var first := Compile(env, c.id, c.prefix, c.path, tags, visiting);
        JoinLaws(Some(done), first, CompileList(env, children[i + 1..], tags, visiting));
        JoinValue(Some(done), first);
        if !ok {
          JoinValue(first, CompileList(env, children[i + 1..], tags, visiting));
          JoinValue(Some(done), CompileList(env, children[i..], tags, visiting));
          return false;
        }
        done := done + first.value;
      }
      JoinLaws(Some(done), None, None);
      return true;
    }
  }

  lemma ListOfAll(env: Env, t: TypeId, prefix: string, path: seq<nat>, tags: seq<Tag>, visiting: set<TypeId>)
    requires Closed(env) && t in env && Known(env, NestedIn(env[t], prefix, path, |env[t]|))
    ensures CompileList(env, NestedIn(env[t], prefix, path, |env[t]|), tags, visiting) ==
      CompileChildren(env, t, prefix, path, tags, visiting, 0)
  {
    hide Compile, CompileChildren, Join;
    ChildrenAreList(env, t, prefix, path, tags, visiting, 0);
    assert NestedIn(env[t], prefix, path, 0) == [];
    JoinLaws(CompileChildren(env, t, prefix, path, tags, visiting, 0), None, None);
  }

  /** attributes */
  method AttributesOf(tags: seq<Tag>, root: Value) returns (attrs: seq<(string, string)>)
    ensures attrs == Attributes(tags, root)
  {
    hide Walk;
    attrs := [];
    for i := 0 to |tags|
      invariant attrs == Attributes(tags[..i], root)
    {
      assert tags[..i + 1][..i] == tags[..i];
      var v := Walk(root, tags[i].path);
      if v.Some? && v.value.StrV? && v.value.s != "" { attrs := attrs + [(tags[i].key, v.value.s)]; }
    }
    assert tags[..|tags|] == tags;
  }

  /** report: what a plan records for a value. */
  method Report(scopes: seq<Scope>, root: Value) returns (out: seq<Emission>)
    ensures out == RunPlan(scopes, root)
  {
    hide Walk, Attributes, RunLeaves, AsMap;
    out := [];
    for i := 0 to |scopes|
      invariant out + RunPlan(scopes[i..], root) == RunPlan(scopes, root)
    {
      assert scopes[i..][0] == scopes[i] && scopes[i..][1..] == scopes[i + 1..];
      var scope := scopes[i];
      var v := Walk(root, scope.path);
      if v.Some? {
        var attrs := AttributesOf(scope.tags, root);
        var own := ReportLeaves(scope.leaves, v.value, AsMap(attrs));
        out := out + own;
      }
    }
  }

  method ReportLeaves(leaves: seq<Leaf>, v: Value, attributes: map<string, string>) returns (out: seq<Emission>)
    ensures out == RunLeaves(leaves, v, attributes)
  {
    hide Number;
    out := [];
    for j := 0 to |leaves|
      invariant out == RunLeaves(leaves[..j], v, attributes)
    {
      assert leaves[..j + 1][..j] == leaves[..j];
      var l := leaves[j];
      if v.StructV? && l.index < |v.fields| {
        out := out + [Emission(l.name, l.typ, Number(l.ftype, v.fields[l.index]), attributes)];
      }
    }
    assert leaves[..|leaves|] == leaves;
  }
}
