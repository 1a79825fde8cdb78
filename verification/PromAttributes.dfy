/** The attribute set behind the labels of an observation, when its labels collide, and which names stay reserved. */
module PromAttributes {
  import opened PromNames
  import opened Options

  // ---- the set of an attribute list ----

  /** Of neighbours with the same key the last one stays. */
  function Collapsed(ls: seq<Label>): seq<Label> {
    if |ls| <= 1 then ls
    else if ls[0].name == ls[1].name then Collapsed(ls[1..])
    else [ls[0]] + Collapsed(ls[1..])
  }

  /** attribute.NewSet: sorted by key, each key once. */
  function AttrSet(attrs: seq<Label>): seq<Label> {
    Collapsed(SortByName(attrs))
  }

  /** The last value given for a key. */
  function LastOf(ls: seq<Label>, key: string): Option<string> {
    if ls == [] then None
    else
      var later := LastOf(ls[1..], key);
      if later.Some? then later else if ls[0].name == key then Some(ls[0].value) else None
  }

  lemma {:induction false} LastOfEnd(ls: seq<Label>, l: Label, key: string)
    ensures LastOf(ls + [l], key) == if l.name == key then Some(l.value) else LastOf(ls, key)
  {
    if ls == [] {
      assert (ls + [l])[1..] == [];
    } else {
      assert (ls + [l])[1..] == ls[1..] + [l];
      LastOfEnd(ls[1..], l, key);
    }
  }

  lemma {:induction false} InsertIsLast(ls: seq<Label>, l: Label, key: string)
    ensures LastOf(Insert(ls, l), key) == if l.name == key then Some(l.value) else LastOf(ls, key)
  {
    hide LastOf;
    if ls == [] || !Less(l.name, ls[|ls| - 1].name) {
      LastOfEnd(ls, l, key);
    } else {
      var init, last := ls[..|ls| - 1], ls[|ls| - 1];
      InsertIsLast(init, l, key);
      LastOfEnd(Insert(init, l), last, key);
      LastOfEnd(init, last, key);
      LessOrder(l.name, last.name, "");
      assert ls == init + [last];
    }
  }

  /** A stable sort keeps the order of equal keys. */
  lemma {:induction false} SortKeepsLast(ls: seq<Label>, key: string)
    ensures LastOf(SortByName(ls), key) == LastOf(ls, key)
  {
    hide LastOf;
    if ls != [] {
      var init, last := ls[..|ls| - 1], ls[|ls| - 1];
      SortKeepsLast(init, key);
      InsertIsLast(SortByName(init), last, key);
      LastOfEnd(init, last, key);
      assert ls == init + [last];
    }
  }

  lemma {:induction false} CollapseKeepsLast(ls: seq<Label>, key: string)
    ensures LastOf(Collapsed(ls), key) == LastOf(ls, key)
  {
    if |ls| > 1 {
      CollapseKeepsLast(ls[1..], key);
      if ls[0].name != ls[1].name { assert ([ls[0]] + Collapsed(ls[1..]))[1..] == Collapsed(ls[1..]); }
    }
  }

  lemma {:induction false} CollapseSorts(ls: seq<Label>)
    requires Ordered(ls)
    ensures StrictlySorted(Collapsed(ls)) && forall l :: l in Collapsed(ls) ==> l in ls
  {
    if |ls| > 1 {
      CollapseSorts(ls[1..]);
      if ls[0].name != ls[1].name {
        var rest := Collapsed(ls[1..]);
        forall j | 0 <= j < |rest| ensures Less(ls[0].name, rest[j].name) {
          assert rest[j] in ls[1..];
          var k :| 0 <= k < |ls[1..]| && ls[1..][k] == rest[j];
          assert ls[k + 1] == rest[j];
          LessOrder(ls[0].name, ls[1].name, rest[j].name);
          LessOrder(ls[1].name, rest[j].name, "");
        }
      }
    }
  }

  lemma {:induction false} LastOfSorted(ls: seq<Label>, l: Label)
    requires StrictlySorted(ls)
    ensures l in ls <==> LastOf(ls, l.name) == Some(l.value)
  {
    if ls != [] {
      LastOfSorted(ls[1..], l);
      if LastOf(ls[1..], l.name).Some? {
        var m := Label(l.name, LastOf(ls[1..], l.name).value);
        LastOfSorted(ls[1..], m);
        var k :| 0 <= k < |ls[1..]| && ls[1..][k] == m;
        assert Less(ls[0].name, ls[k + 1].name);
        LessOrder(ls[0].name, "", "");
      }
      assert ls == [ls[0]] + ls[1..];
    }
  }

  /** The set lists each key once, in order, with the last value given for it. */
  lemma AttrSetIs(attrs: seq<Label>)
    ensures StrictlySorted(AttrSet(attrs))
    ensures forall l :: l in AttrSet(attrs) <==> LastOf(attrs, l.name) == Some(l.value)
  {
    hide LastOf, Collapsed, SortByName, StrictlySorted, Ordered;
    SortOrdered(attrs);
    CollapseSorts(SortByName(attrs));
    forall l ensures l in AttrSet(attrs) <==> LastOf(attrs, l.name) == Some(l.value) {
      SortKeepsLast(attrs, l.name);
      CollapseKeepsLast(SortByName(attrs), l.name);
      LastOfSorted(AttrSet(attrs), l);
    }
  }

  // ---- collisions ----

  predicate HasKey(attrs: seq<Label>, key: string) {
    exists i :: 0 <= i < |attrs| && attrs[i].name == key
  }

  lemma KeyInRest(attrs: seq<Label>, key: string)
    requires attrs != []
    ensures HasKey(attrs, key) <==> attrs[0].name == key || HasKey(attrs[1..], key)
  {
    if HasKey(attrs[1..], key) {
      var i :| 0 <= i < |attrs[1..]| && attrs[1..][i].name == key;
      assert attrs[i + 1].name == key;
    }
    forall i | 0 < i < |attrs| && attrs[i].name == key ensures HasKey(attrs[1..], key) {
      assert attrs[1..][i - 1].name == key;
    }
  }

  lemma {:induction false} KeyHasLast(attrs: seq<Label>, key: string)
    ensures LastOf(attrs, key).Some? <==> HasKey(attrs, key)
  {
    if attrs != [] {
      KeyHasLast(attrs[1..], key);
      assert HasKey(attrs, key) <==> attrs[0].name == key || HasKey(attrs[1..], key) by { KeyInRest(attrs, key); }
    }
  }

  lemma SameKeys(attrs: seq<Label>, key: string)
    ensures HasKey(AttrSet(attrs), key) <==> HasKey(attrs, key)
  {
    hide LastOf, AttrSet;
    KeyHasLast(attrs, key);
    AttrSetIs(attrs);
    if LastOf(attrs, key).Some? {
      var l := Label(key, LastOf(attrs, key).value);
      assert l in AttrSet(attrs);
      var i :| 0 <= i < |AttrSet(attrs)| && AttrSet(attrs)[i] == l;
      assert AttrSet(attrs)[i].name == key;
    }
    if HasKey(AttrSet(attrs), key) {
      var i :| 0 <= i < |AttrSet(attrs)| && AttrSet(attrs)[i].name == key;
      assert AttrSet(attrs)[i] in AttrSet(attrs);
    }
  }

  lemma {:induction false} RenamedAt(attrs: seq<Label>, typ: MetricType, i: nat)
    requires i < |attrs|
    ensures |Renamed(attrs, typ)| == |attrs| && Renamed(attrs, typ)[i].name == ExposedName(attrs[i].name, typ)
  {
    hide ExposedName;
    if |attrs| > 1 { RenamedAt(attrs[..|attrs| - 1], typ, if i < |attrs| - 1 then i else 0); }
  }

  /** Two different keys that are exposed under one name. */
  predicate Collides(attrs: seq<Label>, typ: MetricType) {
    exists i, j :: 0 <= i < |attrs| && 0 <= j < |attrs| && attrs[i].name != attrs[j].name
      && ExposedName(attrs[i].name, typ) == ExposedName(attrs[j].name, typ)
  }

  lemma {:induction false} RenamedSize(attrs: seq<Label>, typ: MetricType)
    ensures |Renamed(attrs, typ)| == |attrs|
  {
    if attrs != [] { RenamedSize(attrs[..|attrs| - 1], typ); }
  }

  lemma SetCollides(attrs: seq<Label>, typ: MetricType)
    requires StrictlySorted(attrs)
    ensures DistinctNames(Renamed(attrs, typ)) <==> !Collides(attrs, typ)
  {
    hide ExposedName, Renamed;
    var r := Renamed(attrs, typ);
    RenamedSize(attrs, typ);
    forall i | 0 <= i < |attrs| ensures r[i].name == ExposedName(attrs[i].name, typ) {
      RenamedAt(attrs, typ, i);
    }
    forall i, j | 0 <= i < j < |attrs| ensures attrs[i].name != attrs[j].name {
      LessOrder(attrs[i].name, "", "");
    }
    if !DistinctNames(r) {
      var i, j :| 0 <= i < j < |r| && r[i].name == r[j].name;
      assert attrs[i].name != attrs[j].name;
    }
  }

  lemma CollisionMoves(a: seq<Label>, b: seq<Label>, typ: MetricType)
    requires Collides(a, typ) && forall k :: HasKey(a, k) ==> HasKey(b, k)
    ensures Collides(b, typ)
  {
    hide ExposedName;
    var i, j :| 0 <= i < |a| && 0 <= j < |a| && a[i].name != a[j].name
      && ExposedName(a[i].name, typ) == ExposedName(a[j].name, typ);
    assert HasKey(a, a[i].name) && HasKey(a, a[j].name);
    var p :| 0 <= p < |b| && b[p].name == a[i].name;
    var q :| 0 <= q < |b| && b[q].name == a[j].name;
  }

  /** Labels exist exactly when no two different keys are exposed under one name; a repeated key is no collision. */
  lemma LabelsExistIff(attrs: seq<Label>, typ: MetricType)
    ensures ExposedLabels(AttrSet(attrs), typ).Some? <==> !Collides(attrs, typ)
  {
    hide ExposedName, AttrSet, HasKey, Collides, ExposedLabels, StrictlySorted;
    AttrSetIs(attrs);
    ExposedAre(AttrSet(attrs), typ);
    SetCollides(AttrSet(attrs), typ);
    forall k ensures HasKey(AttrSet(attrs), k) <==> HasKey(attrs, k) { SameKeys(attrs, k); }
    if Collides(attrs, typ) { CollisionMoves(attrs, AttrSet(attrs), typ); }
    else if Collides(AttrSet(attrs), typ) { CollisionMoves(AttrSet(attrs), attrs, typ); }
  }

  // ---- names and values of the labels ----

  lemma {:induction false} RenamedAre(attrs: seq<Label>, typ: MetricType, l: Label)
    ensures l in Renamed(attrs, typ) <==> exists a :: a in attrs && l == Label(ExposedName(a.name, typ), a.value)
  {
    hide ExposedName;
    if attrs != [] {
      var init, last := attrs[..|attrs| - 1], attrs[|attrs| - 1];
      RenamedAre(init, typ, l);
      assert attrs == init + [last];
      assert last in attrs;
    }
  }

  /** The labels of an observation are its keys under their exposed names, each with the last value given for it. */
  lemma LabelsAre(attrs: seq<Label>, typ: MetricType, l: Label)
    requires ExposedLabels(AttrSet(attrs), typ).Some?
    ensures l in ExposedLabels(AttrSet(attrs), typ).value <==>
      exists key :: LastOf(attrs, key) == Some(l.value) && ExposedName(key, typ) == l.name
  {
    hide ExposedName, AttrSet, ExposedLabels, LastOf, Renamed, LabelsOk, StrictlySorted;
    var set' := AttrSet(attrs);
    AttrSetIs(attrs);
    ExposedAre(set', typ);
    RenamedAre(set', typ, l);
    var ls := ExposedLabels(set', typ).value;
    assert l in ls <==> l in multiset(ls);
    assert l in Renamed(set', typ) <==> l in multiset(Renamed(set', typ));
    if exists a :: a in set' && l == Label(ExposedName(a.name, typ), a.value) {
      var a :| a in set' && l == Label(ExposedName(a.name, typ), a.value);
      assert LastOf(attrs, a.name) == Some(l.value) && ExposedName(a.name, typ) == l.name;
    }
    if exists key :: LastOf(attrs, key) == Some(l.value) && ExposedName(key, typ) == l.name {
      var key :| LastOf(attrs, key) == Some(l.value) && ExposedName(key, typ) == l.name;
      assert Label(key, l.value) in set';
    }
  }

  // ---- reserved names ----

  /** A character that a label name shows as an underscore. */
  predicate Blank(c: char) {
    c == '_' || !(IsLetter(c) || IsDigit(c))
  }

  lemma {:induction false} NormalPrefix(name: string, m: nat, n: nat)
    requires m <= n <= |name|
    ensures NormalChars(name, m, false) <= NormalChars(name, n, false)
    decreases n
  {
    if m < n { NormalPrefix(name, m, n - 1); }
  }

  lemma TwoChars(name: string)
    requires |name| >= 2
    ensures NormalChars(name, 2, false) == NormalChar(name[0], true, false) + NormalChar(name[1], false, false)
  {
    assert NormalChars(name, 1, false) == NormalChar(name[0], true, false);
  }

  lemma StartsBlank(s: string)
    requires |s| >= 2
    ensures HasPrefix(s, "__") <==> s[0] == '_' && s[1] == '_'
  {
    assert s[..2] == [s[0], s[1]];
  }

  lemma NormalizedReserved(name: string)
    ensures HasPrefix(NormalizeName(name, false), "__") <==> |name| >= 2 && Blank(name[0]) && Blank(name[1])
  {
    if |name| >= 2 {
      NormalPrefix(name, 2, |name|);
      TwoChars(name);
      hide NormalChars, HasPrefix;
      var head := NormalChars(name, 2, false);
      StartsBlank(NormalizeName(name, false));
      assert NormalizeName(name, false)[0] == head[0] && NormalizeName(name, false)[1] == head[1];
    } else if |name| == 1 {
      assert NormalChars(name, 1, false) == NormalChar(name[0], true, false);
      if IsDigit(name[0]) { StartsBlank(['_', name[0]]); }
    }
  }

  /**
   The extra underscore does not take a name out of the reserved ones: an exposed name starts with two underscores
   exactly when the first two characters of the key both become one.
   */
  lemma ReservedIff(key: string, typ: MetricType)
    ensures HasPrefix(ExposedName(key, typ), "__") <==> |key| >= 2 && Blank(key[0]) && Blank(key[1])
  {
    hide NormalizeName, Blank;
    NormalizedReserved(key);
    var n := NormalizeName(key, false);
    if HasPrefix(n, "__") {
      assert n[0] == '_' by { assert n[..2][0] == '_'; }
      assert ("_" + n)[..2] == "__";
    } else if typ.Histogram? && n == "le" {
      assert ("_" + n)[1] == 'l';
    }
  }
}
