/** Names and labels of the Prometheus exposition: normalization, exposed label lists and the key of a series. */
module PromNames {
  import Text = EventText
  import opened Options

  datatype MetricType = Counter | Gauge | Histogram

  datatype Label = Label(name: string, value: string)

  // ---- names ----

  predicate IsLetter(c: char) {
    'a' <= c <= 'z' || 'A' <= c <= 'Z' || c == '_'
  }

  predicate IsDigit(c: char) {
    '0' <= c <= '9'
  }

  /** One character of a normalized name. */
  function NormalChar(c: char, first: bool, allowColon: bool): string {
    if IsLetter(c) then [c]
    else if IsDigit(c) then (if first then ['_', c] else [c])
    else if c == ':' && allowColon then [c]
    else "_"
  }

  function NormalChars(name: string, n: nat, allowColon: bool): string
    requires n <= |name|
  {
    if n == 0 then "" else NormalChars(name, n - 1, allowColon) + NormalChar(name[n - 1], n == 1, allowColon)
  }

  function NormalizeName(name: string, allowColon: bool): string {
    if name == "" then "_" else NormalChars(name, |name|, allowColon)
  }

  /** A name Prometheus accepts. */
  predicate ValidName(s: string, allowColon: bool) {
    && s != "" && !IsDigit(s[0])
    && forall i :: 0 <= i < |s| ==> IsLetter(s[i]) || IsDigit(s[i]) || (s[i] == ':' && allowColon)
  }

  lemma {:induction false} NormalCharsValid(name: string, n: nat, allowColon: bool)
    requires 0 < n <= |name|
    ensures ValidName(NormalChars(name, n, allowColon), allowColon)
  {
    if n > 1 { NormalCharsValid(name, n - 1, allowColon); }
  }

  /** Normalizing gives a valid name and leaves a valid one alone. */
  lemma NormalizeValid(name: string, allowColon: bool)
    ensures ValidName(NormalizeName(name, allowColon), allowColon)
    ensures ValidName(name, allowColon) ==> NormalizeName(name, allowColon) == name
  {
    if name != "" { NormalCharsValid(name, |name|, allowColon); }
    if ValidName(name, allowColon) { NormalCharsKeep(name, |name|, allowColon); }
  }

  lemma {:induction false} NormalCharsKeep(name: string, n: nat, allowColon: bool)
    requires ValidName(name, allowColon) && n <= |name|
    ensures NormalChars(name, n, allowColon) == name[..n]
  {
    if n > 0 { NormalCharsKeep(name, n - 1, allowColon); }
  }

  /** One underscore before a leading digit. */
  function Shift(name: string): nat {
    if name != "" && '0' <= name[0] <= '9' then 1 else 0
  }

  /** A character of a name as Prometheus shows it. */
  function ShownAs(c: char, allowColon: bool): char {
    if 'a' <= c <= 'z' || 'A' <= c <= 'Z' || '0' <= c <= '9' || c == '_' || (c == ':' && allowColon) then c else '_'
  }

  lemma {:induction false} NormalCharsAre(name: string, n: nat, allowColon: bool)
    requires 0 < n <= |name|
    ensures var r := NormalChars(name, n, allowColon);
            && |r| == n + Shift(name) && (Shift(name) == 1 ==> r[0] == '_')
            && forall i :: 0 <= i < n ==> r[i + Shift(name)] == ShownAs(name[i], allowColon)
  {
    if n > 1 { NormalCharsAre(name, n - 1, allowColon); }
  }

  /** Normalizing keeps letters, digits, underscores and allowed colons, and shows everything else as an underscore. */
  lemma NormalizeIs(name: string, allowColon: bool)
    ensures var r := NormalizeName(name, allowColon);
            && (name == "" ==> r == "_")
            && (name != "" ==>
                  && |r| == |name| + Shift(name) && (Shift(name) == 1 ==> r[0] == '_')
                  && forall i :: 0 <= i < |name| ==> r[i + Shift(name)] == ShownAs(name[i], allowColon))
  {
    if name != "" { NormalCharsAre(name, |name|, allowColon); }
  }

  /** normalizeName, rune by rune. */
  method Normalize(name: string, allowColon: bool) returns (r: string)
    ensures r == NormalizeName(name, allowColon)
    ensures ValidName(r, allowColon)
  {
    NormalizeValid(name, allowColon);
    if name == "" { return "_"; }
    r := "";
    for i := 0 to |name|
      invariant r == NormalChars(name, i, allowColon)
    {
      var c := name[i];
      if IsLetter(c) { r := r + [c]; }
      else if IsDigit(c) {
        if i == 0 { r := r + "_"; }
        r := r + [c];
      }
      else if c == ':' && allowColon { r := r + [c]; }
      else { r := r + "_"; }
    }
  }

  predicate HasSuffix(s: string, suffix: string) {
    |suffix| <= |s| && s[|s| - |suffix|..] == suffix
  }

  /** NormalizeMetricName, or CounterFamilyName for a counter. */
  function FamilyName(source: string, typ: MetricType): string {
    var n := NormalizeName(source, true);
    if typ.Counter? && !HasSuffix(n, "_total") then n + "_total" else n
  }

  /** A family name is valid, a counter's ends in _total, and a valid name that fits its type is kept as it is. */
  lemma FamilyNameIs(source: string, typ: MetricType)
    ensures ValidName(FamilyName(source, typ), true)
    ensures typ.Counter? ==> HasSuffix(FamilyName(source, typ), "_total")
    ensures ValidName(source, true) && (typ.Counter? ==> HasSuffix(source, "_total")) ==>
      FamilyName(source, typ) == source
    ensures typ.Counter? ==> FamilyName(FamilyName(source, typ), typ) == FamilyName(source, typ)
  {
    hide NormalizeName;
    NormalizeValid(source, true);
    NormalizeValid(FamilyName(source, typ), true);
    var n := NormalizeName(source, true);
    assert (n + "_total")[|n + "_total"| - 6..] == "_total";
  }

  /** The suffix of a counter is added exactly when it is not there. */
  lemma SuffixOnce(source: string, stem: string)
    ensures NormalizeName(source, true) == stem + "_total" ==> FamilyName(source, Counter) == stem + "_total"
    ensures NormalizeName(source, true) == stem && (|stem| < 6 || stem[|stem| - 6..] != "_total") ==>
      FamilyName(source, Counter) == stem + "_total"
  {
    hide NormalizeName;
    assert (stem + "_total")[|stem|..] == "_total";
  }

  // ---- ordered labels ----

  /** strings.Compare(a, b) < 0 */
  predicate Less(a: string, b: string) {
    b != "" && (a == "" || a[0] < b[0] || (a[0] == b[0] && Less(a[1..], b[1..])))
  }

  lemma {:induction false} LessOrder(a: string, b: string, c: string)
    ensures !Less(a, a)
    ensures Less(a, b) && Less(b, c) ==> Less(a, c)
    ensures Less(a, b) || Less(b, a) || a == b
  {
    if a != "" {
      LessOrder(a[1..], if b == "" then "" else b[1..], if c == "" then "" else c[1..]);
      if b != "" && a[0] == b[0] && a[1..] == b[1..] { assert a == [a[0]] + a[1..] == b; }
    }
  }

  predicate StrictlySorted(ls: seq<Label>) {
    forall i, j :: 0 <= i < j < |ls| ==> Less(ls[i].name, ls[j].name)
  }

  predicate DistinctNames(ls: seq<Label>) {
    forall i, j :: 0 <= i < j < |ls| ==> ls[i].name != ls[j].name
  }

  function LabelSet(ls: seq<Label>): set<Label> {
    set l | l in ls
  }

  /** Labels sorted by name list the same set of labels in only one way. */
  lemma {:induction false} SortedUnique(a: seq<Label>, b: seq<Label>)
    requires StrictlySorted(a) && StrictlySorted(b)
    requires LabelSet(a) == LabelSet(b)
    ensures a == b
  {
    var sa, sb := LabelSet(a), LabelSet(b);
    if a == [] || b == [] {
      EmptyIff(a);
      EmptyIff(b);
    } else {
      assert a[0] in sb && b[0] in sa;
      var i :| 0 <= i < |b| && b[i] == a[0];
      var j :| 0 <= j < |a| && a[j] == b[0];
      LessOrder(a[0].name, b[0].name, a[0].name);
      assert a[0] == b[0];
      TailSet(a);
      TailSet(b);
      SortedUnique(a[1..], b[1..]);
      assert a == [a[0]] + a[1..] && b == [b[0]] + b[1..];
    }
  }

  lemma EmptyIff(a: seq<Label>)
    ensures LabelSet(a) == {} <==> a == []
  {
    if a != [] { assert a[0] in LabelSet(a); }
  }

  lemma TailSet(a: seq<Label>)
    requires a != [] && StrictlySorted(a)
    ensures StrictlySorted(a[1..])
    ensures LabelSet(a[1..]) == LabelSet(a) - {a[0]}
  {
    LessOrder(a[0].name, "", "");
    forall l ensures l in a[1..] <==> l in a && l != a[0] {
      if l in a[1..] {
        var i :| 0 <= i < |a[1..]| && a[1..][i] == l;
        assert a[i + 1] == l && Less(a[0].name, a[i + 1].name);
      }
    }
  }

  // ---- exposed labels ----

  predicate HasPrefix(s: string, prefix: string) {
    prefix <= s
  }

  /** The exposed name of an attribute; reserved names get one more underscore. */
  function ExposedName(key: string, typ: MetricType): string {
    var n := NormalizeName(key, false);
    if HasPrefix(n, "__") || (typ.Histogram? && n == "le") then "_" + n else n
  }

  function Renamed(attrs: seq<Label>, typ: MetricType): seq<Label> {
    if attrs == [] then []
    else
      var a := attrs[|attrs| - 1];
      Renamed(attrs[..|attrs| - 1], typ) + [Label(ExposedName(a.name, typ), a.value)]
  }

  /** Stable insertion: after the labels that are not greater. */
  function Insert(ls: seq<Label>, l: Label): seq<Label> {
    if ls == [] || !Less(l.name, ls[|ls| - 1].name) then ls + [l]
    else Insert(ls[..|ls| - 1], l) + [ls[|ls| - 1]]
  }

  /** A stable sort by name. */
  function SortByName(ls: seq<Label>): seq<Label> {
    if ls == [] then [] else Insert(SortByName(ls[..|ls| - 1]), ls[|ls| - 1])
  }

  predicate Ordered(ls: seq<Label>) {
    forall i, j :: 0 <= i < j < |ls| ==> !Less(ls[j].name, ls[i].name)
  }

  lemma {:induction false} InsertOrdered(ls: seq<Label>, l: Label)
    requires Ordered(ls)
    ensures Ordered(Insert(ls, l)) && multiset(Insert(ls, l)) == multiset(ls) + multiset{l}
    ensures |Insert(ls, l)| == |ls| + 1
  {
    if ls != [] {
      var init, last := ls[..|ls| - 1], ls[|ls| - 1];
      assert ls == init + [last];
      if Less(l.name, last.name) {
        InsertOrdered(init, l);
        BelowLast(init, l, last);
      } else {
        forall i | 0 <= i < |ls| ensures !Less(l.name, ls[i].name) {
          LessOrder(l.name, ls[i].name, last.name);
          LessOrder(ls[i].name, last.name, l.name);
          LessOrder(last.name, l.name, ls[i].name);
        }
      }
    }
  }

  lemma BelowLast(init: seq<Label>, l: Label, last: Label)
    requires Ordered(init + [last]) && Ordered(Insert(init, l)) && Less(l.name, last.name)
    requires multiset(Insert(init, l)) == multiset(init) + multiset{l}
    ensures Ordered(Insert(init, l) + [last])
  {
    var r := Insert(init, l);
    forall i | 0 <= i < |r| ensures !Less(last.name, r[i].name) {
      assert r[i] in multiset(r);
      if r[i] == l { LessOrder(l.name, last.name, l.name); }
      else {
        assert r[i] in init;
        var j :| 0 <= j < |init| && init[j] == r[i];
        assert (init + [last])[j] == r[i] && (init + [last])[|init|] == last;
      }
    }
  }

  lemma NoneOrdered()
    ensures Ordered([])
  {
  }

  lemma {:induction false} SortOrdered(ls: seq<Label>)
    ensures Ordered(SortByName(ls)) && multiset(SortByName(ls)) == multiset(ls)
  {
    hide Ordered, Insert;
    if ls == [] { NoneOrdered(); }
    else {
      SortOrdered(ls[..|ls| - 1]);
      InsertOrdered(SortByName(ls[..|ls| - 1]), ls[|ls| - 1]);
      assert ls == ls[..|ls| - 1] + [ls[|ls| - 1]];
    }
  }

  /** ExposedLabels: sorted by name, or None when two attributes expose the same name. */
  function ExposedLabels(attrs: seq<Label>, typ: MetricType): Option<seq<Label>> {
    var ls := SortByName(Renamed(attrs, typ));
    if exists i :: 0 < i < |ls| && ls[i].name == ls[i - 1].name then None else Some(ls)
  }

  /** ExposedLabels with its loops. */
  method Expose(attrs: seq<Label>, typ: MetricType) returns (r: Option<seq<Label>>)
    ensures r == ExposedLabels(attrs, typ)
  {
    hide ExposedName, SortByName;
    var renamed: seq<Label> := [];
    for i := 0 to |attrs|
      invariant renamed == Renamed(attrs[..i], typ)
    {
      assert attrs[..i + 1][..i] == attrs[..i];
      renamed := renamed + [Label(ExposedName(attrs[i].name, typ), attrs[i].value)];
    }
    assert attrs[..|attrs|] == attrs;
    var labels := SortByName(renamed);
    var i := 1;
    while i < |labels|
      invariant 1 <= i
      invariant forall j :: 0 < j < i && j < |labels| ==> labels[j].name != labels[j - 1].name
    {
      if labels[i].name == labels[i - 1].name { return None; }
      i := i + 1;
    }
    return Some(labels);
  }

  function Names(ls: seq<Label>): set<string> {
    set l | l in ls :: l.name
  }

  /** Names are distinct exactly when there are as many of them as labels. */
  lemma {:induction false} DistinctCount(ls: seq<Label>)
    ensures |Names(ls)| <= |ls|
    ensures DistinctNames(ls) <==> |Names(ls)| == |ls|
  {
    if ls != [] {
      var init, last := ls[..|ls| - 1], ls[|ls| - 1];
      DistinctCount(init);
      assert ls == init + [last];
      assert Names(ls) == Names(init) + {last.name};
      if last.name in Names(init) {
        var l :| l in init && l.name == last.name;
        var i :| 0 <= i < |init| && init[i] == l;
        assert ls[i].name == ls[|ls| - 1].name;
        assert Names(ls) == Names(init);
      } else {
        forall i | 0 <= i < |init| ensures init[i].name != last.name { assert init[i] in init; }
        DistinctLast(init, last);
      }
    }
  }

  lemma DistinctLast(init: seq<Label>, last: Label)
    requires forall i :: 0 <= i < |init| ==> init[i].name != last.name
    ensures DistinctNames(init + [last]) <==> DistinctNames(init)
  {
    var ls := init + [last];
    assert forall i :: 0 <= i < |init| ==> ls[i] == init[i];
  }

  lemma SameNames(a: seq<Label>, b: seq<Label>)
    requires multiset(a) == multiset(b)
    ensures Names(a) == Names(b) && (DistinctNames(a) <==> DistinctNames(b))
  {
    assert forall l :: l in a <==> l in multiset(a);
    assert forall l :: l in b <==> l in multiset(b);
    DistinctCount(a);
    DistinctCount(b);
    assert |a| == |multiset(a)| == |b|;
  }

  /** Sorted labels have distinct names exactly when no neighbours share one, and are then strictly sorted. */
  lemma NeighboursDecide(ls: seq<Label>)
    requires Ordered(ls)
    ensures DistinctNames(ls) <==> !exists i :: 0 < i < |ls| && ls[i].name == ls[i - 1].name
    ensures DistinctNames(ls) ==> StrictlySorted(ls)
  {
    if !DistinctNames(ls) {
      var i, j :| 0 <= i < j < |ls| && ls[i].name == ls[j].name;
      Between(ls, i, j);
      assert ls[i + 1].name == ls[(i + 1) - 1].name;
    } else {
      forall i, j | 0 <= i < j < |ls| ensures Less(ls[i].name, ls[j].name) {
        LessOrder(ls[i].name, ls[j].name, "");
      }
    }
  }

  lemma Between(ls: seq<Label>, i: nat, j: nat)
    requires Ordered(ls) && i < j < |ls| && ls[i].name == ls[j].name
    ensures ls[i + 1].name == ls[i].name
  {
    if i + 1 < j {
      LessOrder(ls[i].name, ls[i + 1].name, "");
      assert !Less(ls[i + 1].name, ls[i].name) && !Less(ls[j].name, ls[i + 1].name);
    }
  }

  /** A name the exposition accepts; "le" is kept for the buckets of a histogram. */
  predicate Exposable(name: string, typ: MetricType) {
    ValidName(name, false) && (typ.Histogram? ==> name != "le")
  }

  predicate LabelsOk(ls: seq<Label>, typ: MetricType) {
    StrictlySorted(ls) && forall l :: l in ls ==> Exposable(l.name, typ)
  }

  lemma {:induction false} RenamedNames(attrs: seq<Label>, typ: MetricType)
    ensures forall l :: l in Renamed(attrs, typ) ==> Exposable(l.name, typ)
  {
    hide ExposedName, Exposable;
    if attrs != [] {
      RenamedNames(attrs[..|attrs| - 1], typ);
      ExposedNameIs(attrs[|attrs| - 1].name, typ);
    }
  }

  lemma ExposedNameIs(key: string, typ: MetricType)
    ensures Exposable(ExposedName(key, typ), typ)
  {
    hide NormalizeName;
    NormalizeValid(key, false);
    var n := NormalizeName(key, false);
    assert ("_" + n)[0] == '_';
  }

  /**
   Exposed labels are the renamed attributes in the one order of their names, every name valid and not "le" on a
   histogram; they exist exactly when no two attributes expose the same name.
   */
  lemma ExposedAre(attrs: seq<Label>, typ: MetricType)
    ensures ExposedLabels(attrs, typ).Some? <==> DistinctNames(Renamed(attrs, typ))
    ensures var r := ExposedLabels(attrs, typ);
            r.Some? ==> LabelsOk(r.value, typ) && multiset(r.value) == multiset(Renamed(attrs, typ))
  {
    hide ExposedName, SortByName, Renamed, Exposable, DistinctNames, StrictlySorted;
    var xs := Renamed(attrs, typ);
    var ls := SortByName(xs);
    SortOrdered(xs);
    SameNames(ls, xs);
    NeighboursDecide(ls);
    RenamedNames(attrs, typ);
    SameExposable(ls, xs, typ);
  }

  lemma SameExposable(a: seq<Label>, b: seq<Label>, typ: MetricType)
    requires multiset(a) == multiset(b) && forall l :: l in b ==> Exposable(l.name, typ)
    ensures forall l :: l in a ==> Exposable(l.name, typ)
  {
    hide Exposable;
    forall l | l in a ensures l in b {
      assert l in multiset(a);
    }
  }

  // ---- the key of a series ----

  function LabelText(l: Label): string {
    Text.Digits(|l.name|) + ":" + l.name + "=" + Text.Digits(|l.value|) + ":" + l.value + ";"
  }

  /** labelsKey */
  function LabelsKey(ls: seq<Label>): string {
    if ls == [] then "" else LabelText(ls[0]) + LabelsKey(ls[1..])
  }

  method BuildKey(ls: seq<Label>) returns (key: string)
    ensures key == LabelsKey(ls)
  {
    hide LabelText;
    key := "";
    for i := 0 to |ls|
      invariant key + LabelsKey(ls[i..]) == LabelsKey(ls)
    {
      assert ls[i..][1..] == ls[i + 1..];
      key := key + LabelText(ls[i]);
    }
  }

  /** A length, a colon and that many characters, with what follows. */
  function TakeCounted(s: string): Option<(string, string)> {
    var cut := Text.Cut(s, ":");
    if cut.None? then None
    else
      var n := Text.ParseDigits(cut.value.0);
      if n.None? || n.value > |cut.value.1| then None
      else Some((cut.value.1[..n.value], cut.value.1[n.value..]))
  }

  lemma CountedParses(v: string, rest: string)
    ensures TakeCounted(Text.Digits(|v|) + ":" + v + rest) == Some((v, rest))
  {
    hide Text.Digits, Text.Cut, Text.ParseDigits;
    var s := Text.Digits(|v|) + ":" + v + rest;
    assert s == Text.Digits(|v|) + ":" + (v + rest);
    Text.CutFirst(Text.Digits(|v|), ":", v + rest);
    Text.ParsePrinted(|v|);
    assert (v + rest)[..|v|] == v && (v + rest)[|v|..] == rest;
  }

  /** Equal keys start with equal labels. */
  lemma FirstLabel(a: Label, x: string, b: Label, y: string)
    requires LabelText(a) + x == LabelText(b) + y
    ensures a == b && x == y
  {
    hide TakeCounted, Text.Digits;
    var ra := "=" + (Text.Digits(|a.value|) + ":" + a.value + (";" + x));
    var rb := "=" + (Text.Digits(|b.value|) + ":" + b.value + (";" + y));
    assert LabelText(a) + x == Text.Digits(|a.name|) + ":" + a.name + ra;
    assert LabelText(b) + y == Text.Digits(|b.name|) + ":" + b.name + rb;
    CountedParses(a.name, ra);
    CountedParses(b.name, rb);
    assert a.name == b.name && ra == rb;
    var va, vb := ra[1..], rb[1..];
    assert va == Text.Digits(|a.value|) + ":" + a.value + (";" + x);
    assert vb == Text.Digits(|b.value|) + ":" + b.value + (";" + y);
    CountedParses(a.value, ";" + x);
    CountedParses(b.value, ";" + y);
    assert ";" + x == ";" + y;
    assert x == (";" + x)[1..] && y == (";" + y)[1..];
  }

  /** Different label lists have different keys. */
  lemma {:induction false} KeyIsUnique(a: seq<Label>, b: seq<Label>)
    requires LabelsKey(a) == LabelsKey(b)
    ensures a == b
  {
    hide LabelText;
    if a == [] || b == [] {
      if a != [] { SomeText(a[0]); }
      if b != [] { SomeText(b[0]); }
    } else {
      FirstLabel(a[0], LabelsKey(a[1..]), b[0], LabelsKey(b[1..]));
      KeyIsUnique(a[1..], b[1..]);
      assert a == [a[0]] + a[1..] && b == [b[0]] + b[1..];
    }
  }

  lemma SomeText(l: Label)
    ensures LabelText(l) != ""
  {
  }
}
