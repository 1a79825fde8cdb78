/**
 Report on declared types, in which a pointer type may have a name and occur in its own element type. The loop that
 looks behind the pointers of a field ends exactly when they do not lead back to one of them, and then everything
 else is as if the names were written out.
 */
module ReportPointers {
  import opened ReportTypes
  import opened ReportProofs
  import opened Options

  type PointerId = nat

  type BaseType = t: FieldType | !t.Pointer? witness Str

  datatype Declared =
    | Plain(t: BaseType)
    | PointerTo(elem: Declared)
    | Named(id: PointerId)

  /** The element type of every named pointer type. */
  type Names = map<PointerId, Declared>

  predicate Known(names: Names, d: Declared) {
    match d
    case Plain(_) => true
    case PointerTo(e) => Known(names, e)
    case Named(id) => id in names
  }

  predicate AllKnown(names: Names) {
    forall id :: id in names ==> Known(names, names[id])
  }

  // ---- looking behind pointers ----

  /** The element type of a pointer. */
  function ElementOf(names: Names, d: Declared): (e: Declared)
    requires AllKnown(names) && Known(names, d) && !d.Plain?
    ensures Known(names, e)
  {
    if d.PointerTo? then d.elem else names[d.id]
  }

  /** The type that n rounds of the loop reach. */
  function After(names: Names, d: Declared, n: nat): (r: Declared)
    requires AllKnown(names) && Known(names, d)
    ensures Known(names, r)
    decreases n
  {
    if n == 0 || d.Plain? then d else After(names, ElementOf(names, d), n - 1)
  }

  /** The loop ends. */
  ghost predicate Ends(names: Names, d: Declared)
    requires AllKnown(names) && Known(names, d)
  {
    exists n: nat :: After(names, d, n).Plain?
  }

  /** The pointers lead back to one of them. */
  ghost predicate ComesBack(names: Names, d: Declared)
    requires AllKnown(names) && Known(names, d)
  {
    exists i: nat, j: nat :: i < j && !After(names, d, i).Plain? && After(names, d, j) == After(names, d, i)
  }

  lemma {:induction false} AfterSum(names: Names, d: Declared, m: nat, n: nat)
    requires AllKnown(names) && Known(names, d)
    ensures After(names, d, m + n) == After(names, After(names, d, m), n)
    decreases m
  {
    if m > 0 && !d.Plain? { AfterSum(names, ElementOf(names, d), m - 1, n); }
  }

  lemma {:induction false} RoundAndRound(names: Names, d: Declared, p: nat, k: nat)
    requires AllKnown(names) && Known(names, d) && After(names, d, p) == d
    ensures After(names, d, k * p) == d
    decreases k
  {
    hide After, Known, AllKnown;
    if k == 0 {
      assert After(names, d, 0) == d by { AfterNone(names, d); }
    } else {
      RoundAndRound(names, d, p, k - 1);
      assert k * p == (k - 1) * p + p;
      AfterSum(names, d, (k - 1) * p, p);
    }
  }

  lemma AfterNone(names: Names, d: Declared)
    requires AllKnown(names) && Known(names, d)
    ensures After(names, d, 0) == d
  {
  }

  lemma PlainStays(names: Names, d: Declared, n: nat)
    requires AllKnown(names) && Known(names, d) && d.Plain?
    ensures After(names, d, n) == d
  {
  }

  lemma NeverEnds(names: Names, d: Declared, i: nat, j: nat, n: nat)
    requires AllKnown(names) && Known(names, d) && i < j
    requires !After(names, d, i).Plain? && After(names, d, j) == After(names, d, i)
    ensures !After(names, d, n).Plain?
  {
    hide After, Known, AllKnown;
    var x, p := After(names, d, i), j - i;
    AfterSum(names, d, i, p);
    RoundAndRound(names, x, p, n);
    AfterSum(names, d, i, n * p);
    assert n * p >= n;
    var m := i + n * p;
    if After(names, d, n).Plain? {
      AfterSum(names, d, n, m - n);
      PlainStays(names, After(names, d, n), m - n);
    }
  }

  // ---- writing the names out ----

  /** The type with all names written out; None when a name occurs behind itself. */
  function Unfold(names: Names, d: Declared, seen: set<PointerId>): Option<FieldType>
    requires AllKnown(names) && Known(names, d)
    decreases |names.Keys - seen|, d
  {
    match d
    case Plain(t) => Some(t)
    case PointerTo(e) => Behind(Unfold(names, e, seen))
    case Named(id) =>
      if id in seen then None
      else
        FewerNames(names, seen, d);
        Behind(Unfold(names, names[id], seen + {id}))
  }

  function Behind(t: Option<FieldType>): Option<FieldType> {
    if t.None? then None else Some(Pointer(t.value))
  }

  lemma FewerNames(names: Names, seen: set<PointerId>, d: Declared)
    requires Known(names, d) && d.Named? && d.id !in seen
    ensures |names.Keys - (seen + {d.id})| < |names.Keys - seen|
  {
    assert names.Keys - seen == (names.Keys - (seen + {d.id})) + {d.id};
  }

  lemma AfterElement(names: Names, d: Declared, n: nat)
    requires AllKnown(names) && Known(names, d) && !d.Plain?
    ensures After(names, d, n + 1) == After(names, ElementOf(names, d), n)
  {
  }

  /** The names seen after a pointer. */
  function SeenBehind(d: Declared, seen: set<PointerId>): set<PointerId> {
    if d.Named? then seen + {d.id} else seen
  }

  lemma UnfoldStep(names: Names, d: Declared, seen: set<PointerId>)
    requires AllKnown(names) && Known(names, d)
    ensures d.Plain? ==> Unfold(names, d, seen).Some? && Unfold(names, d, seen).value == d.t == Elem(d.t)
    ensures !d.Plain? && (d.Named? ==> d.id !in seen) ==>
      Unfold(names, d, seen) == Behind(Unfold(names, ElementOf(names, d), SeenBehind(d, seen)))
    ensures d.Named? && d.id in seen ==> Unfold(names, d, seen).None?
  {
  }

  /** After n rounds the loop stands at type t, behind all pointers. */
  predicate EndsAt(names: Names, d: Declared, n: nat, t: FieldType)
    requires AllKnown(names) && Known(names, d)
  {
    After(names, d, n).Plain? && After(names, d, n).t == t
  }

  lemma EndsLater(names: Names, d: Declared, n: nat, t: Option<FieldType>)
    requires AllKnown(names) && Known(names, d) && !d.Plain? && t.Some?
    requires EndsAt(names, ElementOf(names, d), n, Elem(t.value))
    ensures Behind(t).Some? && EndsAt(names, d, n + 1, Elem(Behind(t).value))
  {
    hide Known, AllKnown, After;
    AfterElement(names, d, n);
  }

  lemma EndsNow(names: Names, d: Declared)
    requires AllKnown(names) && Known(names, d) && d.Plain?
    ensures EndsAt(names, d, 0, d.t)
  {
  }

  lemma {:induction false} UnfoldEnds(names: Names, d: Declared, seen: set<PointerId>) returns (n: nat)
    requires AllKnown(names) && Known(names, d) && Unfold(names, d, seen).Some?
    ensures EndsAt(names, d, n, Elem(Unfold(names, d, seen).value))
    decreases |names.Keys - seen|, d
  {
    hide Unfold, Elem, Known, AllKnown, EndsAt;
    UnfoldStep(names, d, seen);
    if d.Plain? {
      n := 0;
      EndsNow(names, d);
    } else {
      if d.Named? { FewerNames(names, seen, d); }
      n := UnfoldEnds(names, ElementOf(names, d), SeenBehind(d, seen));
      EndsLater(names, d, n, Unfold(names, ElementOf(names, d), SeenBehind(d, seen)));
      n := n + 1;
    }
  }

  /** Otherwise the pointers lead to a name seen before, or back to one of them. */
  lemma {:induction false} UnfoldFails(names: Names, d: Declared, seen: set<PointerId>) returns (i: nat, j: nat)
    requires AllKnown(names) && Known(names, d) && Unfold(names, d, seen).None?
    ensures LeadsBack(names, d, seen, i, j)
    decreases |names.Keys - seen|, d
  {
    hide Unfold, Known, AllKnown, LeadsBack;
    UnfoldStep(names, d, seen);
    if d.Named? && d.id in seen {
      i, j := 0, 0;
      AlreadySeen(names, d, seen);
    } else {
      if d.Named? { FewerNames(names, seen, d); }
      var p, q := UnfoldFails(names, ElementOf(names, d), SeenBehind(d, seen));
      i, j := OneEarlier(names, d, seen, p, q);
    }
  }

  /** The pointers lead, in i rounds, to a name that was seen before or that round j reaches again. */
  predicate LeadsBack(names: Names, d: Declared, seen: set<PointerId>, i: nat, j: nat)
    requires AllKnown(names) && Known(names, d)
  {
    && After(names, d, i).Named? && i <= j
    && if i == j then After(names, d, i).id in seen else After(names, d, j) == After(names, d, i)
  }

  lemma AlreadySeen(names: Names, d: Declared, seen: set<PointerId>)
    requires AllKnown(names) && Known(names, d) && d.Named? && d.id in seen
    ensures LeadsBack(names, d, seen, 0, 0)
  {
  }

  lemma OneEarlier(names: Names, d: Declared, seen: set<PointerId>, p: nat, q: nat) returns (i: nat, j: nat)
    requires AllKnown(names) && Known(names, d) && !d.Plain?
    requires LeadsBack(names, ElementOf(names, d), SeenBehind(d, seen), p, q)
    ensures LeadsBack(names, d, seen, i, j)
  {
    hide After, Known, AllKnown;
    AfterNone(names, d);
    AfterElement(names, d, p);
    AfterElement(names, d, q);
    i, j := if p == q && After(names, d, p + 1) == d then 0 else p + 1, q + 1;
  }

  /** The loop ends exactly when the pointers do not lead back to one of them, and then the names can be written out. */
  lemma EndsIff(names: Names, d: Declared)
    requires AllKnown(names) && Known(names, d)
    ensures Ends(names, d) <==> !ComesBack(names, d)
    ensures Ends(names, d) <==> Unfold(names, d, {}).Some?
  {
    hide After, Unfold, Known, AllKnown;
    forall i: nat, j: nat, n: nat
      | i < j && !After(names, d, i).Plain? && After(names, d, j) == After(names, d, i)
      ensures !After(names, d, n).Plain?
    {
      NeverEnds(names, d, i, j, n);
    }
    if Unfold(names, d, {}).Some? {
      var n := UnfoldEnds(names, d, {});
      assert After(names, d, n).Plain?;
    } else {
      var i, j := UnfoldFails(names, d, {});
      assert i < j && After(names, d, j) == After(names, d, i);
    }
  }

  lemma {:induction false} UnfoldFewer(names: Names, d: Declared, seen: set<PointerId>, fewer: set<PointerId>)
    requires AllKnown(names) && Known(names, d) && fewer <= seen && Unfold(names, d, seen).Some?
    ensures Unfold(names, d, fewer) == Unfold(names, d, seen)
    decreases |names.Keys - seen|, d
  {
    match d
    case Plain(_) =>
    case PointerTo(e) => UnfoldFewer(names, e, seen, fewer);
    case Named(id) =>
      FewerNames(names, seen, d);
      UnfoldFewer(names, names[id], seen + {id}, fewer + {id});
  }

  lemma UnfoldElement(names: Names, d: Declared)
    requires AllKnown(names) && Known(names, d) && Unfold(names, d, {}).Some? && !d.Plain?
    ensures Unfold(names, d, {}) == Behind(Unfold(names, ElementOf(names, d), {}))
  {
    if d.Named? {
      assert {} + {d.id} == {d.id};
      UnfoldFewer(names, names[d.id], {d.id}, {});
    }
  }

  /** The loop of build, on a field whose pointers do not lead back. */
  method LookBehind(names: Names, d: Declared) returns (t: BaseType)
    requires AllKnown(names) && Known(names, d) && !ComesBack(names, d)
    ensures Unfold(names, d, {}).Some? && t == Elem(Unfold(names, d, {}).value)
  {
    EndsIff(names, d);
    hide Unfold, ComesBack, Ends;
    var ft := d;
    ghost var unfolded := Unfold(names, d, {}).value;
    while !ft.Plain?
      invariant Known(names, ft) && Unfold(names, ft, {}) == Some(unfolded)
      invariant Elem(unfolded) == Elem(Unfold(names, d, {}).value)
      decreases unfolded
    {
      UnfoldElement(names, ft);
      ft := ElementOf(names, ft);
      unfolded := unfolded.elem;
    }
    UnfoldPlain(names, ft);
    return ft.t;
  }

  lemma UnfoldPlain(names: Names, d: Declared)
    requires AllKnown(names) && Known(names, d) && d.Plain?
    ensures Unfold(names, d, {}).Some? && Unfold(names, d, {}).value == d.t && Elem(d.t) == d.t
  {
  }

  // ---- compiling declared types ----

  datatype DeclaredField = DeclaredField(tag: string, metric: string, typ: string, dtype: Declared)

  datatype Program = Program(structs: map<TypeId, seq<DeclaredField>>, names: Names)

  predicate FieldsKnown(p: Program) {
    && AllKnown(p.names)
    && forall t, i :: t in p.structs && 0 <= i < |p.structs[t]| ==> Known(p.names, p.structs[t][i].dtype)
  }

  function WrittenOut(names: Names, f: DeclaredField): Field
    requires AllKnown(names) && Known(names, f.dtype)
  {
    var t := Unfold(names, f.dtype, {});
    Field(f.tag, f.metric, f.typ, if t.Some? then t.value else Other)
  }

  /** The struct types with all pointer names written out. */
  function EnvOf(p: Program): Env
    requires FieldsKnown(p)
  {
    map t | t in p.structs ::
      seq(|p.structs[t]|, i requires 0 <= i < |p.structs[t]| => WrittenOut(p.names, p.structs[t][i]))
  }

  predicate Complete(p: Program) {
    FieldsKnown(p) && Closed(EnvOf(p))
  }

  /** build looks behind the pointers of this field, and they lead back. */
  ghost predicate Loops(p: Program, t: TypeId, i: nat)
    requires FieldsKnown(p) && t in p.structs && i < |p.structs[t]|
  {
    var f := p.structs[t][i];
    f.tag == "" && f.metric != "-" && ComesBack(p.names, f.dtype)
  }

  predicate Endless(p: Program, t: TypeId, i: nat)
    requires FieldsKnown(p) && t in p.structs && i < |p.structs[t]|
  {
    var f := p.structs[t][i];
    f.tag == "" && f.metric != "-" && Unfold(p.names, f.dtype, {}).None?
  }

  lemma EndlessIsLoop(p: Program, t: TypeId, i: nat)
    requires FieldsKnown(p) && t in p.structs && i < |p.structs[t]|
    ensures Endless(p, t, i) <==> Loops(p, t, i)
  {
    hide Unfold, ComesBack;
    EndsIff(p.names, p.structs[t][i].dtype);
  }

  /** What stops the scan over the first n fields of a struct. */
  datatype Stop = Nowhere | AtLoop | AtLeaf

  function Scan(p: Program, t: TypeId, n: nat): Stop
    requires FieldsKnown(p) && t in p.structs && n <= |p.structs[t]|
  {
    if n == 0 then Nowhere
    else if !Scan(p, t, n - 1).Nowhere? then Scan(p, t, n - 1)
    else if Endless(p, t, n - 1) then AtLoop
    else if !LeafOk(EnvOf(p)[t][n - 1]) then AtLeaf
    else Nowhere
  }

  /** What build does: it never comes back, returns an error, or yields a plan. */
  datatype Verdict = Stuck | Rejected | Plan(scopes: seq<Scope>)

  predicate TagsOk(fields: seq<Field>) {
    forall i :: 0 <= i < |fields| ==> TagOk(fields[i])
  }

  /** build */
  function Build(
      p: Program, t: TypeId, prefix: string, path: seq<nat>, inherited: seq<Tag>, visiting: set<TypeId>): Verdict
    requires Complete(p) && t in p.structs
    decreases |EnvOf(p).Keys - visiting|, 1, 0
  {
    var env := EnvOf(p);
    if t in visiting || !TagsOk(env[t]) then Rejected
    else
      match Scan(p, t, |env[t]|)
      case AtLoop => Stuck
      case AtLeaf => Rejected
      case Nowhere =>
        var tags := ScopeTags(env[t], path, inherited, |env[t]|);
        var leaves := Leaves(env[t], prefix, |env[t]|);
        Smaller(env, visiting, t);
        var rest := BuildChildren(p, t, prefix, path, tags, visiting + {t}, 0);
        if !rest.Plan? then rest
        else Plan((if leaves == [] then [] else [Scope(path, tags, leaves)]) + rest.scopes)
  }

  function BuildChildren(
      p: Program, t: TypeId, prefix: string, path: seq<nat>, tags: seq<Tag>, visiting: set<TypeId>, i: nat): Verdict
    requires Complete(p) && t in p.structs && i <= |EnvOf(p)[t]|
    decreases |EnvOf(p).Keys - visiting|, 2, |EnvOf(p)[t]| - i
  {
    var env := EnvOf(p);
    if i == |env[t]| then Plan([])
    else
      var f := env[t][i];
      if !IsChild(f) then BuildChildren(p, t, prefix, path, tags, visiting, i + 1)
      else
        var first := Build(p, Elem(f.ftype).id, JoinName(prefix, f.metric), path + [i], tags, visiting);
        if !first.Plan? then first
        else
          var rest := BuildChildren(p, t, prefix, path, tags, visiting, i + 1);
          if !rest.Plan? then rest else Plan(first.scopes + rest.scopes)
  }

  // ---- what build answers ----

  lemma {:induction false} ScanIs(p: Program, t: TypeId, n: nat)
    requires FieldsKnown(p) && t in p.structs && n <= |p.structs[t]|
    ensures Scan(p, t, n).AtLoop? ==> exists i :: 0 <= i < n && Endless(p, t, i)
    ensures Scan(p, t, n).AtLeaf? ==> exists i :: 0 <= i < n && !LeafOk(EnvOf(p)[t][i])
    ensures Scan(p, t, n).Nowhere? ==>
      forall i :: 0 <= i < n ==> !Endless(p, t, i) && LeafOk(EnvOf(p)[t][i])
  {
    hide Endless, LeafOk, WrittenOut;
    if n > 0 { ScanIs(p, t, n - 1); }
  }

  function Agreeing(v: Verdict): Option<seq<Scope>>
    requires !v.Stuck?
  {
    if v.Plan? then Some(v.scopes) else None
  }

  /** Unless it gets stuck, build answers as on the types with the names written out. */
  lemma {:induction false} BuildAgrees(
      p: Program, t: TypeId, prefix: string, path: seq<nat>, inherited: seq<Tag>, visiting: set<TypeId>)
    requires Complete(p) && t in p.structs && !Build(p, t, prefix, path, inherited, visiting).Stuck?
    ensures Compile(EnvOf(p), t, prefix, path, inherited, visiting) ==
      Agreeing(Build(p, t, prefix, path, inherited, visiting))
    decreases |EnvOf(p).Keys - visiting|, 1, 0
  {
    hide EnvOf, Leaves, ScopeTags, Endless, LeafOk, TagOk, Scan, Closed;
    var env := EnvOf(p);
    KeysKept(p, t);
    ScanIs(p, t, |env[t]|);
    if t !in visiting && FieldsOk(env[t]) {
      Smaller(env, visiting, t);
      ChildrenAgree(p, t, prefix, path, ScopeTags(env[t], path, inherited, |env[t]|), visiting + {t}, 0);
    }
  }

  lemma KeysKept(p: Program, t: TypeId)
    requires FieldsKnown(p)
    ensures t in EnvOf(p) <==> t in p.structs
    ensures t in p.structs ==> |EnvOf(p)[t]| == |p.structs[t]|
  {
  }

  lemma {:induction false} ChildrenAgree(
      p: Program, t: TypeId, prefix: string, path: seq<nat>, tags: seq<Tag>, visiting: set<TypeId>, i: nat)
    requires Complete(p) && t in p.structs && i <= |EnvOf(p)[t]|
    requires !BuildChildren(p, t, prefix, path, tags, visiting, i).Stuck?
    ensures CompileChildren(EnvOf(p), t, prefix, path, tags, visiting, i) ==
      Agreeing(BuildChildren(p, t, prefix, path, tags, visiting, i))
    decreases |EnvOf(p).Keys - visiting|, 2, |EnvOf(p)[t]| - i
  {
    var env := EnvOf(p);
    if i < |env[t]| {
      var f := env[t][i];
      if !IsChild(f) {
        ChildrenAgree(p, t, prefix, path, tags, visiting, i + 1);
      } else {
        var id, name := Elem(f.ftype).id, JoinName(prefix, f.metric);
        BuildAgrees(p, id, name, path + [i], tags, visiting);
        if Build(p, id, name, path + [i], tags, visiting).Plan? {
          ChildrenAgree(p, t, prefix, path, tags, visiting, i + 1);
        }
      }
    }
  }

  /** A struct with a field on which build gets stuck. */
  predicate HasEndless(p: Program, t: TypeId)
    requires FieldsKnown(p)
  {
    t in p.structs && exists i :: 0 <= i < |p.structs[t]| && Endless(p, t, i)
  }

  lemma {:induction false} StuckIsReached(
      p: Program, t: TypeId, prefix: string, path: seq<nat>, inherited: seq<Tag>, visiting: set<TypeId>)
    returns (c: seq<TypeId>)
    requires Complete(p) && t in p.structs && Build(p, t, prefix, path, inherited, visiting).Stuck?
    ensures Chain(EnvOf(p), c) && c[0] == t && HasEndless(p, c[|c| - 1])
    decreases |EnvOf(p).Keys - visiting|, 1, 0
  {
    hide EnvOf, Leaves, ScopeTags, Endless, LeafOk, TagOk, Scan, Closed;
    var env := EnvOf(p);
    KeysKept(p, t);
    ScanIs(p, t, |env[t]|);
    if Scan(p, t, |env[t]|).AtLoop? {
      c := [t];
    } else {
      Smaller(env, visiting, t);
      c := StuckChild(p, t, prefix, path, ScopeTags(env[t], path, inherited, |env[t]|), visiting + {t}, 0);
      ChainExtend(env, t, c);
      c := [t] + c;
    }
  }

  lemma {:induction false} StuckChild(
      p: Program, t: TypeId, prefix: string, path: seq<nat>, tags: seq<Tag>, visiting: set<TypeId>, i: nat)
    returns (c: seq<TypeId>)
    requires Complete(p) && t in p.structs && i <= |EnvOf(p)[t]|
    requires BuildChildren(p, t, prefix, path, tags, visiting, i).Stuck?
    ensures Chain(EnvOf(p), c) && ChildOf(EnvOf(p), t, c[0]) && HasEndless(p, c[|c| - 1])
    decreases |EnvOf(p).Keys - visiting|, 2, |EnvOf(p)[t]| - i
  {
    hide HasEndless, Chain;
    var f := EnvOf(p)[t][i];
    if IsChild(f) && Build(p, Elem(f.ftype).id, JoinName(prefix, f.metric), path + [i], tags, visiting).Stuck? {
      c := StuckIsReached(p, Elem(f.ftype).id, JoinName(prefix, f.metric), path + [i], tags, visiting);
    } else {
      c := StuckChild(p, t, prefix, path, tags, visiting, i + 1);
    }
  }

  lemma {:induction false} ReachedIsNoPlan(
      p: Program, c: seq<TypeId>, prefix: string, path: seq<nat>, inherited: seq<Tag>, visiting: set<TypeId>)
    requires Complete(p) && Chain(EnvOf(p), c) && HasEndless(p, c[|c| - 1])
    ensures !Build(p, c[0], prefix, path, inherited, visiting).Plan?
    decreases |c|, 1, 0
  {
    hide EnvOf, Leaves, ScopeTags, Endless, LeafOk, TagOk, Scan, Closed;
    var env, t := EnvOf(p), c[0];
    KeysKept(p, t);
    ScanIs(p, t, |env[t]|);
    if |c| > 1 {
      ChainTail(env, c);
      assert ChildOf(env, c[0], c[1]);
      ReachedChild(p, c, prefix, path, ScopeTags(env[t], path, inherited, |env[t]|), visiting + {t}, 0);
    }
  }

  lemma {:induction false} ReachedChild(
      p: Program, c: seq<TypeId>, prefix: string, path: seq<nat>, tags: seq<Tag>, visiting: set<TypeId>, i: nat)
    requires Complete(p) && |c| > 1 && c[0] in p.structs && Chain(EnvOf(p), c[1..]) && HasEndless(p, c[|c| - 1])
    requires i <= |EnvOf(p)[c[0]]|
    requires exists j :: i <= j < |EnvOf(p)[c[0]]|
               && IsChild(EnvOf(p)[c[0]][j]) && Elem(EnvOf(p)[c[0]][j].ftype).id == c[1]
    ensures !BuildChildren(p, c[0], prefix, path, tags, visiting, i).Plan?
    decreases |c|, 0, |EnvOf(p)[c[0]]| - i
  {
    hide HasEndless, Chain;
    var f := EnvOf(p)[c[0]][i];
    if IsChild(f) && Elem(f.ftype).id == c[1] {
      ReachedIsNoPlan(p, c[1..], JoinName(prefix, f.metric), path + [i], tags, visiting);
    } else {
      ReachedChild(p, c, prefix, path, tags, visiting, i + 1);
    }
  }

  ghost predicate HasLoop(p: Program, t: TypeId)
    requires FieldsKnown(p)
  {
    t in p.structs && exists i :: 0 <= i < |p.structs[t]| && Loops(p, t, i)
  }

  lemma LoopIsEndless(p: Program, t: TypeId)
    requires FieldsKnown(p)
    ensures HasLoop(p, t) <==> HasEndless(p, t)
  {
    hide Loops, Endless;
    if t in p.structs {
      forall i | 0 <= i < |p.structs[t]| ensures Loops(p, t, i) <==> Endless(p, t, i) { EndlessIsLoop(p, t, i); }
    }
  }

  /** A chain of nested structs leads from t to a field whose pointers lead back. */
  ghost predicate ReachesLoop(p: Program, t: TypeId)
    requires Complete(p)
  {
    exists c: seq<TypeId> :: Chain(EnvOf(p), c) && c[0] == t && HasLoop(p, c[|c| - 1])
  }

  /** A chain of nested structs leads from t to an unsupported field or to the same type twice. */
  ghost predicate ReachesDefect(p: Program, t: TypeId)
    requires Complete(p)
  {
    exists c: seq<TypeId> :: Chain(EnvOf(p), c) && c[0] == t && Defective(EnvOf(p), c, {})
  }

  /**
   build yields a plan exactly when no chain of nested structs reaches a defect or a field whose pointers lead back.
   Without such a field it always ends, with such a field and without a defect it never does.
   */
  lemma BuildIff(p: Program, t: TypeId)
    requires Complete(p) && t in p.structs
    ensures Build(p, t, "", [], [], {}).Plan? <==> !ReachesLoop(p, t) && !ReachesDefect(p, t)
    ensures !ReachesLoop(p, t) ==> !Build(p, t, "", [], [], {}).Stuck?
    ensures ReachesLoop(p, t) && !ReachesDefect(p, t) ==> Build(p, t, "", [], [], {}).Stuck?
  {
    hide Build, Compile, EnvOf, Defective, HasEndless, HasLoop;
    var v := Build(p, t, "", [], [], {});
    KeysKept(p, t);
    RejectedIff(EnvOf(p), t);
    if v.Stuck? {
      var c := StuckIsReached(p, t, "", [], [], {});
      LoopIsEndless(p, c[|c| - 1]);
    } else {
      BuildAgrees(p, t, "", [], [], {});
    }
    forall c: seq<TypeId> | Chain(EnvOf(p), c) && c[0] == t && HasLoop(p, c[|c| - 1]) ensures !v.Plan? {
      LoopIsEndless(p, c[|c| - 1]);
      ReachedIsNoPlan(p, c, "", [], [], {});
    }
  }

  /** A plan of declared types means what the interpreter says of them. */
  lemma PlanOfDeclared(p: Program, t: TypeId, v: Value)
    requires Complete(p) && t in p.structs && Build(p, t, "", [], [], {}).Plan? && HasType(EnvOf(p), v, Struct(t))
    ensures RunPlan(Build(p, t, "", [], [], {}).scopes, v) == Interpret(EnvOf(p), t, v, "", map[])
  {
    hide Build, Compile, RunPlan, Interpret;
    BuildAgrees(p, t, "", [], [], {});
    PlanMeansInterpreter(EnvOf(p), t, v);
  }

  /** The smallest such type: a struct with one field of the pointer type that points to itself. */
  lemma SelfPointerIsStuck(metric: string)
    requires metric != "-"
    ensures var p := Program(map[0 := [DeclaredField("", metric, "", Named(0))]], map[0 := Named(0)]);
            Complete(p) && Build(p, 0, "", [], [], {}).Stuck?
  {
    var p := Program(map[0 := [DeclaredField("", metric, "", Named(0))]], map[0 := Named(0)]);
    assert FieldsKnown(p);
    assert Unfold(p.names, Named(0), {0}).None?;
    assert {} + {0} == {0};
    assert Unfold(p.names, Named(0), {}).None?;
    hide Unfold;
    assert EnvOf(p)[0][0] == Field("", metric, "", Other);
    assert Endless(p, 0, 0);
    assert Scan(p, 0, 1) == AtLoop;
  }
}
