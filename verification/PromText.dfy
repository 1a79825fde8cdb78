/** The text of a sample line: what stands before the value says which name and labels it has. */
module PromText {
  import opened PromNames

  function EscapeChar(c: char): string {
    if c == '\\' then "\\\\" else if c == '"' then "\\\"" else if c == '\n' then "\\n" else [c]
  }

  /** escapeLabelValue */
  function Escape(v: string): string {
    if v == "" then "" else EscapeChar(v[0]) + Escape(v[1..])
  }

  /** writeLabel */
  function LabelWords(l: Label): string {
    l.name + "=\"" + Escape(l.value) + "\""
  }

  function Words(ls: seq<Label>): string
    requires ls != []
  {
    if |ls| == 1 then LabelWords(ls[0]) else LabelWords(ls[0]) + "," + Words(ls[1..])
  }

  /** The part before the value, with anything after it. */
  function Head(name: string, labels: seq<Label>, rest: string): string {
    name + (if labels == [] then "" else "{" + Words(labels) + "}") + " " + rest
  }

  /** writeSample, with an extra label as the last one. */
  function SampleText(name: string, labels: seq<Label>, value: string): string {
    Head(name, labels, value + "\n")
  }

  predicate ValidLabels(ls: seq<Label>) {
    forall i :: 0 <= i < |ls| ==> ValidName(ls[i].name, false)
  }

  predicate Plain(s: string) {
    forall i :: 0 <= i < |s| ==> s[i] !in {'=', '{', ' '}
  }

  lemma StopsAt(u: string, x: string)
    requires Plain(u) && x != "" && x[0] in {'=', '{', ' '}
    ensures forall i :: 0 <= i < |u| ==> (u + x)[i] !in {'=', '{', ' '}
    ensures (u + x)[|u|] in {'=', '{', ' '} && (u + x)[..|u|] == u && (u + x)[|u|..] == x
  {
  }

  /** Text up to the first stop is the same on both sides. */
  lemma FirstStop(u: string, x: string, v: string, y: string)
    requires Plain(u) && Plain(v) && u + x == v + y
    requires x != "" && y != "" && x[0] in {'=', '{', ' '} && y[0] in {'=', '{', ' '}
    ensures u == v && x == y
  {
    StopsAt(u, x);
    StopsAt(v, y);
    assert |u| == |v|;
  }

  lemma EscapeStarts(v: string, x: string)
    ensures v == "" <==> (Escape(v) + ("\"" + x))[0] == '"'
    ensures v != "" ==> Escape(v) + ("\"" + x) == EscapeChar(v[0]) + (Escape(v[1..]) + ("\"" + x))
    ensures v == "" ==> (Escape(v) + ("\"" + x))[1..] == x
  {
  }

  lemma CharsDiffer(c: char, x: string, d: char, y: string)
    requires EscapeChar(c) + x == EscapeChar(d) + y
    ensures c == d && x == y
  {
    var s, t := EscapeChar(c) + x, EscapeChar(d) + y;
    assert s[0] == EscapeChar(c)[0] && t[0] == EscapeChar(d)[0];
    if s[0] == '\\' { assert s[1] == EscapeChar(c)[1] && t[1] == EscapeChar(d)[1]; }
    assert x == s[|EscapeChar(c)|..] && y == t[|EscapeChar(d)|..];
  }

  /** An escaped value ends at the first quote the escaping did not write. */
  lemma {:induction false} EscapeUnique(u: string, x: string, v: string, y: string)
    requires Escape(u) + ("\"" + x) == Escape(v) + ("\"" + y)
    ensures u == v && x == y
  {
    hide EscapeChar;
    EscapeStarts(u, x);
    EscapeStarts(v, y);
    if u != "" {
      CharsDiffer(u[0], Escape(u[1..]) + ("\"" + x), v[0], Escape(v[1..]) + ("\"" + y));
      EscapeUnique(u[1..], x, v[1..], y);
      assert u == [u[0]] + u[1..] && v == [v[0]] + v[1..];
    }
  }

  lemma LabelUnique(l: Label, x: string, m: Label, y: string)
    requires ValidName(l.name, false) && ValidName(m.name, false) && LabelWords(l) + x == LabelWords(m) + y
    ensures l == m && x == y
  {
    hide Escape;
    var s, t := Escape(l.value) + ("\"" + x), Escape(m.value) + ("\"" + y);
    assert LabelWords(l) + x == l.name + ("=\"" + s);
    assert LabelWords(m) + y == m.name + ("=\"" + t);
    FirstStop(l.name, "=\"" + s, m.name, "=\"" + t);
    assert s == ("=\"" + s)[2..] && t == ("=\"" + t)[2..];
    EscapeUnique(l.value, x, m.value, y);
  }

  lemma {:induction false} WordsUnique(a: seq<Label>, x: string, b: seq<Label>, y: string)
    requires a != [] && b != [] && ValidLabels(a) && ValidLabels(b)
    requires Words(a) + ("}" + x) == Words(b) + ("}" + y)
    ensures a == b && x == y
  {
    hide LabelWords, ValidName;
    var s := if |a| == 1 then "}" + x else "," + (Words(a[1..]) + ("}" + x));
    var t := if |b| == 1 then "}" + y else "," + (Words(b[1..]) + ("}" + y));
    assert Words(a) + ("}" + x) == LabelWords(a[0]) + s;
    assert Words(b) + ("}" + y) == LabelWords(b[0]) + t;
    LabelUnique(a[0], s, b[0], t);
    assert s[0] == t[0] && s[1..] == t[1..];
    if |a| > 1 { WordsUnique(a[1..], x, b[1..], y); }
    assert a == [a[0]] + a[1..] && b == [b[0]] + b[1..];
  }

  lemma SampleReads(m: string, a: seq<Label>, v: string, n: string, b: seq<Label>, w: string)
    requires ValidName(m, true) && ValidName(n, true) && ValidLabels(a) && ValidLabels(b)
    requires Head(m, a, v) == Head(n, b, w)
    ensures m == n && a == b && v == w
  {
    hide Words, ValidLabels;
    var x := if a == [] then " " + v else "{" + (Words(a) + ("}" + (" " + v)));
    var y := if b == [] then " " + w else "{" + (Words(b) + ("}" + (" " + w)));
    assert Head(m, a, v) == m + x;
    assert Head(n, b, w) == n + y;
    FirstStop(m, x, n, y);
    assert x[0] == y[0] && x[1..] == y[1..];
    if a != [] {
      WordsUnique(a, " " + v, b, " " + w);
    }
    assert v == (" " + v)[1..] && w == (" " + w)[1..];
  }

  /** A sample line is read back in one way: equal lines have the same name, labels and value. */
  lemma SampleUnique(m: string, a: seq<Label>, v: string, n: string, b: seq<Label>, w: string)
    requires ValidName(m, true) && ValidName(n, true) && ValidLabels(a) && ValidLabels(b)
    ensures SampleText(m, a, v) == SampleText(n, b, w) <==> m == n && a == b && v == w
  {
    hide Head, ValidName, ValidLabels;
    if SampleText(m, a, v) == SampleText(n, b, w) { SampleReads(m, a, v + "\n", n, b, w + "\n"); }
    if v + "\n" == w + "\n" { assert v == (v + "\n")[..|v|] && w == (w + "\n")[..|w|]; }
  }
}
