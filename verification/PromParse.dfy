/** A reader of sample lines in the Prometheus text format, and that it gives back what was written. */
module PromParse {
  import opened PromNames
  import opened PromText
  import opened Options

  const STOPS := {'=', '{', ' '}

  /** The length of the name at the front. */
  function NameLength(s: string): (n: nat)
    ensures n <= |s|
  {
    if s == "" || s[0] in STOPS then 0 else 1 + NameLength(s[1..])
  }

  /** A label value up to its closing quote, and what follows; a bare line feed is no part of a value. */
  function ReadValue(s: string): (r: Option<(string, string)>)
    ensures r.Some? ==> |r.value.1| < |s|
  {
    if s == "" || s[0] == '\n' then None
    else if s[0] == '"' then Some(("", s[1..]))
    else if s[0] != '\\' then
      var r := ReadValue(s[1..]);
      if r.None? then None else Some(([s[0]] + r.value.0, r.value.1))
    else if |s| == 1 || s[1] !in ['\\', '"', 'n'] then None
    else
      var r := ReadValue(s[2..]);
      if r.None? then None else Some(([if s[1] == 'n' then '\n' else s[1]] + r.value.0, r.value.1))
  }

  function ReadLabel(s: string): (r: Option<(Label, string)>)
    ensures r.Some? ==> |r.value.1| < |s|
  {
    var n := NameLength(s);
    if !("=\"" <= s[n..]) then None
    else
      var r := ReadValue(s[n + 2..]);
      if r.None? then None else Some((Label(s[..n], r.value.0), r.value.1))
  }

  /** Labels with commas between them up to the closing brace, and what follows. */
  function ReadLabels(s: string): Option<(seq<Label>, string)>
    decreases |s|
  {
    var l := ReadLabel(s);
    if l.None? || l.value.1 == "" then None
    else if l.value.1[0] == '}' then Some(([l.value.0], l.value.1[1..]))
    else if l.value.1[0] != ',' then None
    else
      var more := ReadLabels(l.value.1[1..]);
      if more.None? then None else Some(([l.value.0] + more.value.0, more.value.1))
  }

  /** A space, the value and a line feed. */
  function ReadEnd(s: string): Option<string> {
    if |s| < 2 || s[0] != ' ' || s[|s| - 1] != '\n' then None else Some(s[1..|s| - 1])
  }

  /** A whole line: name, labels in braces if there are any, and the value. */
  function ReadSample(s: string): Option<(string, seq<Label>, string)> {
    var n := NameLength(s);
    var labels := if n < |s| && s[n] == '{' then ReadLabels(s[n + 1..]) else Some(([], s[n..]));
    if labels.None? then None
    else
      var value := ReadEnd(labels.value.1);
      if value.None? then None else Some((s[..n], labels.value.0, value.value))
  }

  lemma {:induction false} NameIsRead(name: string, x: string)
    requires Plain(name) && x != "" && x[0] in STOPS
    ensures NameLength(name + x) == |name| && (name + x)[..|name|] == name && (name + x)[|name|..] == x
  {
    if name == "" {
      assert name + x == x;
    } else {
      assert (name + x)[1..] == name[1..] + x;
      NameIsRead(name[1..], x);
    }
  }

  lemma CharIsRead(c: char, x: string)
    ensures var s, r := EscapeChar(c) + x, ReadValue(x);
            ReadValue(s) == if r.None? then None else Some(([c] + r.value.0, r.value.1))
  {
    var s := EscapeChar(c) + x;
    assert s[|EscapeChar(c)|..] == x;
  }

  lemma {:induction false} ValueIsRead(v: string, x: string)
    ensures ReadValue(Escape(v) + ("\"" + x)) == Some((v, x))
  {
    hide EscapeChar, ReadValue;
    if v == "" {
      QuoteIsRead(x);
      assert Escape(v) + ("\"" + x) == "\"" + x;
    } else {
      var rest := Escape(v[1..]) + ("\"" + x);
      assert Escape(v) + ("\"" + x) == EscapeChar(v[0]) + rest;
      ValueIsRead(v[1..], x);
      CharIsRead(v[0], rest);
      assert v == [v[0]] + v[1..];
    }
  }

  lemma QuoteIsRead(x: string)
    ensures ReadValue("\"" + x) == Some(("", x))
  {
    assert ("\"" + x)[1..] == x;
  }

  lemma LabelIsRead(l: Label, x: string)
    requires ValidName(l.name, false)
    ensures ReadLabel(LabelWords(l) + x) == Some((l, x))
  {
    hide Escape, ReadValue, NameLength;
    var s := Escape(l.value) + ("\"" + x);
    assert LabelWords(l) + x == l.name + ("=\"" + s);
    NameIsRead(l.name, "=\"" + s);
    assert (l.name + ("=\"" + s))[|l.name| + 2..] == s;
    ValueIsRead(l.value, x);
  }

  lemma LastLabel(s: string, l: Label, x: string)
    requires ReadLabel(s) == Some((l, "}" + x))
    ensures ReadLabels(s) == Some(([l], x))
  {
    assert ("}" + x)[1..] == x;
  }

  lemma MoreLabels(s: string, l: Label, rest: string, ls: seq<Label>, x: string)
    requires ReadLabel(s) == Some((l, "," + rest)) && ReadLabels(rest) == Some((ls, x))
    ensures ReadLabels(s) == Some(([l] + ls, x))
  {
    assert ("," + rest)[1..] == rest;
  }

  lemma {:induction false} LabelsAreRead(ls: seq<Label>, x: string)
    requires ls != [] && ValidLabels(ls)
    ensures ReadLabels(Words(ls) + ("}" + x)) == Some((ls, x))
  {
    hide LabelWords, ValidName, ReadLabel, ReadLabels;
    var end := "}" + x;
    if |ls| == 1 {
      LabelIsRead(ls[0], end);
      LastLabel(LabelWords(ls[0]) + end, ls[0], x);
      assert ls == [ls[0]];
    } else {
      var rest := Words(ls[1..]) + end;
      LabelsAreRead(ls[1..], x);
      LabelIsRead(ls[0], "," + rest);
      MoreLabels(LabelWords(ls[0]) + ("," + rest), ls[0], rest, ls[1..], x);
      assert Words(ls) + end == LabelWords(ls[0]) + ("," + rest);
      assert ls == [ls[0]] + ls[1..];
    }
  }

  lemma EndIsRead(value: string)
    ensures ReadEnd(" " + (value + "\n")) == Some(value)
  {
    var end := " " + (value + "\n");
    assert end[1..|end| - 1] == value;
  }

  /** Reading a written sample line gives its name, labels and value back. */
  lemma SampleIsRead(name: string, labels: seq<Label>, value: string)
    requires ValidName(name, true) && ValidLabels(labels)
    ensures ReadSample(SampleText(name, labels, value)) == Some((name, labels, value))
  {
    hide Words, ReadLabels, ValidLabels, NameLength, ReadEnd;
    var end := " " + (value + "\n");
    var x := if labels == [] then end else "{" + (Words(labels) + ("}" + end));
    var s := SampleText(name, labels, value);
    assert s == name + x;
    NameIsRead(name, x);
    if labels != [] {
      LabelsAreRead(labels, end);
      assert s[|name| + 1..] == x[1..] == Words(labels) + ("}" + end);
    }
    EndIsRead(value);
  }
}
