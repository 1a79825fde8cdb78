/** The DogStatsD event datagram: its printer, its parser, and the serializer that writes the same format. */
module DogStatsDEvents {
  import opened EventText
  import opened Options

  type Int64 = x: int | -0x8000_0000_0000_0000 <= x < 0x8000_0000_0000_0000

  /** Unix seconds of the zero time.Time. */
  const ZERO_TIME: Int64 := -62_135_596_800

  datatype Event = Event(
    title: string, text: string, timestamp: Int64, host: string, priority: string, alertType: string,
    aggregationKey: string, sourceTypeName: string, tags: seq<string>)

  const NO_EVENT := Event("", "", ZERO_TIME, "", "", "", "", "", [])

  // ---- printing ----

  function Field(prefix: string, value: string): seq<string> {
    if value == "" then [] else [prefix + value]
  }

  /** The optional sections, in the order they are written. */
  function Sections(e: Event): seq<string> {
    (if e.timestamp == ZERO_TIME then [] else ["d:" + FormatInt(e.timestamp)])
    + Field("h:", e.host) + Field("p:", e.priority) + Field("t:", e.alertType)
    + Field("k:", e.aggregationKey) + Field("s:", e.sourceTypeName)
    + (if e.tags == [] then [] else ["#" + Join(e.tags, ',')])
  }

  /** Each section after a bar. */
  function Bars(secs: seq<string>): string {
    if secs == [] then "" else "|" + secs[0] + Bars(secs[1..])
  }

  function Header(title: string, text: string): string {
    "_e{" + FormatInt(|title|) + "," + FormatInt(|text|) + "}:"
  }

  /** DogStatsDEvent.String */
  function Print(e: Event): string {
    Header(Escape(e.title), Escape(e.text)) + Escape(e.title) + "|" + Escape(e.text) + Bars(Sections(e))
  }

  // ---- parsing ----

  function NonEmpty(parts: seq<string>): seq<string> {
    if parts == [] then []
    else NonEmpty(parts[..|parts| - 1]) + if parts[|parts| - 1] == "" then [] else [parts[|parts| - 1]]
  }

  /** splitTags */
  function SplitTags(s: string): seq<string> {
    NonEmpty(Split(s, ','))
  }

  function ParseInt64(s: string): Option<Int64> {
    var i := Atoi(s);
    if i.None? || !(-0x8000_0000_0000_0000 <= i.value < 0x8000_0000_0000_0000) then None else Some(i.value)
  }

  predicate HasPrefix(s: string, prefix: string) {
    prefix <= s
  }

  /** setField; None for a timestamp that is not a number. */
  function SetField(e: Event, sec: string): Option<Event> {
    if HasPrefix(sec, "d:") then
      var ts := ParseInt64(sec[2..]);
      if ts.None? then None else Some(e.(timestamp := ts.value))
    else if HasPrefix(sec, "h:") then Some(e.(host := sec[2..]))
    else if HasPrefix(sec, "p:") then Some(e.(priority := sec[2..]))
    else if HasPrefix(sec, "t:") then Some(e.(alertType := sec[2..]))
    else if HasPrefix(sec, "k:") then Some(e.(aggregationKey := sec[2..]))
    else if HasPrefix(sec, "s:") then Some(e.(sourceTypeName := sec[2..]))
    else if HasPrefix(sec, "#") then Some(e.(tags := SplitTags(sec[1..])))
    else Some(e)
  }

  lemma FirstChar(prefix: string, v: string)
    requires prefix != ""
    ensures HasPrefix(prefix + v, prefix) && (prefix + v)[|prefix|..] == v
    ensures forall other: string :: other != "" && other[0] != prefix[0] ==> !HasPrefix(prefix + v, other)
  {
    forall other: string | HasPrefix(prefix + v, other) && other != "" ensures other[0] == prefix[0] {
      assert other[0] == (prefix + v)[0];
    }
  }

  /** Each kind of section replaces its own field, also by an empty value; only a bad timestamp is refused. */
  lemma SectionSets(e: Event, v: string)
    ensures SetField(e, "h:" + v) == Some(e.(host := v)) && SetField(e, "p:" + v) == Some(e.(priority := v))
    ensures SetField(e, "t:" + v) == Some(e.(alertType := v)) && SetField(e, "k:" + v) == Some(e.(aggregationKey := v))
    ensures SetField(e, "s:" + v) == Some(e.(sourceTypeName := v))
    ensures SetField(e, "#" + v) == Some(e.(tags := SplitTags(v)))
    ensures SetField(e, "d:" + v).None? <==> ParseInt64(v).None?
    ensures ParseInt64(v).Some? ==> SetField(e, "d:" + v) == Some(e.(timestamp := ParseInt64(v).value))
  {
    hide ParseInt64, SplitTags;
    hide HasPrefix;
    FirstChar("h:", v);
    FirstChar("p:", v);
    FirstChar("t:", v);
    FirstChar("k:", v);
    FirstChar("s:", v);
    FirstChar("#", v);
    FirstChar("d:", v);
  }

  function SetFields(e: Option<Event>, secs: seq<string>): Option<Event>
    decreases |secs|
  {
    if e.None? || secs == [] then e else SetFields(SetField(e.value, secs[0]), secs[1..])
  }

  /** Title and text by their lengths, and what follows them. */
  function Body(body: string, titleLen: int, textLen: int): Option<Event> {
    if titleLen <= 0 || textLen < 0 || |body| < titleLen + 1 + textLen || body[titleLen] != '|' then None
    else
      var rest := body[titleLen + 1 + textLen..];
      if rest != "" && rest[0] != '|' then None
      else
        var e := NO_EVENT.(title := Unescape(body[..titleLen]),
          text := Unescape(body[titleLen + 1..titleLen + 1 + textLen]));
        SetFields(Some(e), Split(rest, '|'))
  }

  /** The two lengths as they are written, and the body after them. */
  datatype Parts = Parts(titleLen: string, textLen: string, body: string)

  function SplitHeader(line: string): Option<Parts>
    requires HasPrefix(line, "_e{")
  {
    var cut := Cut(line[3..], "}:");
    if cut.None? then None
    else
      var lengths := Cut(cut.value.0, ",");
      if lengths.None? then None else Some(Parts(lengths.value.0, lengths.value.1, cut.value.1))
  }

  /** parseDogStatsDEvent on a line that starts with "_e{", with lengths of any size. */
  function Parse(line: string): Option<Event>
    requires HasPrefix(line, "_e{")
  {
    var parts := SplitHeader(line);
    if parts.None? then None
    else
      var titleLen, textLen := Atoi(parts.value.titleLen), Atoi(parts.value.textLen);
      if titleLen.None? || textLen.None? then None else Body(parts.value.body, titleLen.value, textLen.value)
  }

  // ---- the parser with its loops ----

  method SplitTagsLoop(s: string) returns (tags: seq<string>)
    ensures tags == SplitTags(s)
  {
    var parts := Split(s, ',');
    tags := [];
    for i := 0 to |parts|
      invariant tags == NonEmpty(parts[..i])
    {
      assert parts[..i + 1][..i] == parts[..i];
      if parts[i] != "" { tags := tags + [parts[i]]; }
    }
    assert parts[..|parts|] == parts;
  }

  method SetFieldsLoop(start: Event, rest: string) returns (ok: bool, e: Event)
    ensures SetFields(Some(start), Split(rest, '|')) == if ok then Some(e) else None
  {
    hide SetField, Split;
    e := start;
    var secs := Split(rest, '|');
    assert secs[0..] == secs;
    for i := 0 to |secs|
      invariant SetFields(Some(e), secs[i..]) == SetFields(Some(start), secs)
    {
      assert secs[i..][1..] == secs[i + 1..];
      var next := SetField(e, secs[i]);
      if next.None? { return false, e; }
      e := next.value;
    }
    return true, e;
  }

  // ---- the round trip ----

  predicate PlainField(s: string) {
    '|' !in s
  }

  /** Fields and tags that a section can hold. */
  predicate FieldsFit(e: Event) {
    && PlainField(e.host) && PlainField(e.priority) && PlainField(e.alertType)
    && PlainField(e.aggregationKey) && PlainField(e.sourceTypeName)
    && forall t :: t in e.tags ==> t != "" && PlainField(t) && ',' !in t
  }

  /** Events the format can carry. */
  predicate Printable(e: Event) {
    e.title != "" && !HasEscape(e.title) && !HasEscape(e.text) && FieldsFit(e)
  }

  predicate NoBars(secs: seq<string>) {
    forall s :: s in secs ==> '|' !in s
  }

  lemma {:induction false} SplitBars(secs: seq<string>)
    requires NoBars(secs)
    ensures Split(Bars(secs), '|') == [""] + secs
  {
    if secs != [] {
      assert secs[0] in secs;
      SplitBars(secs[1..]);
      SplitSection(secs[0], secs[1..]);
    }
  }

  lemma SplitSection(sec: string, rest: seq<string>)
    requires '|' !in sec && Split(Bars(rest), '|') == [""] + rest
    ensures Split("|" + sec + Bars(rest), '|') == ["", sec] + rest
  {
    hide Split;
    var s := sec + Bars(rest);
    assert "|" + sec + Bars(rest) == "" + ['|'] + s;
    SplitPiece("", '|', s);
    if rest == [] {
      assert s == sec;
      SplitLast(sec, '|');
    } else {
      var tail := rest[0] + Bars(rest[1..]);
      assert Bars(rest) == "" + ['|'] + tail;
      SplitPiece("", '|', tail);
      assert Split(tail, '|') == (["" ] + Split(tail, '|'))[1..] == rest;
      assert s == sec + ['|'] + tail;
      SplitPiece(sec, '|', tail);
    }
  }

  lemma {:induction false} SetConcat(e: Option<Event>, a: seq<string>, b: seq<string>)
    ensures SetFields(e, a + b) == SetFields(SetFields(e, a), b)
    decreases |a|
  {
    hide SetField;
    if a == [] {
      assert a + b == b;
    } else if e.Some? {
      assert (a + b)[1..] == a[1..] + b;
      SetConcat(SetField(e.value, a[0]), a[1..], b);
    }
  }

  lemma SetOne(e: Event, sec: string)
    ensures SetFields(Some(e), [sec]) == SetField(e, sec)
  {
    hide SetField;
    assert [sec][1..] == [];
  }

  lemma {:induction false} NonEmptyAll(parts: seq<string>)
    requires forall i :: 0 <= i < |parts| ==> |parts[i]| > 0
    ensures NonEmpty(parts) == parts
  {
    if parts != [] {
      assert parts == parts[..|parts| - 1] + [parts[|parts| - 1]];
      NonEmptyAll(parts[..|parts| - 1]);
    }
  }

  lemma SetTimestamp(e: Event, ts: Int64)
    requires e.timestamp == ZERO_TIME
    ensures SetFields(Some(e), if ts == ZERO_TIME then [] else ["d:" + FormatInt(ts)]) == Some(e.(timestamp := ts))
  {
    hide SetFields;
    SetNothing(e);
    if ts != ZERO_TIME {
      AtoiFormat(ts);
      var sec := "d:" + FormatInt(ts);
      assert sec[..2] == "d:" && sec[2..] == FormatInt(ts);
      SetOne(e, sec);
    }
  }

  lemma SetNothing(e: Event)
    ensures SetFields(Some(e), []) == Some(e)
  {
  }

  lemma SetText(e: Event, prefix: string, value: string)
    requires prefix in ["h:", "p:", "t:", "k:", "s:"]
    requires prefix == "h:" ==> e.host == ""
    requires prefix == "p:" ==> e.priority == ""
    requires prefix == "t:" ==> e.alertType == ""
    requires prefix == "k:" ==> e.aggregationKey == ""
    requires prefix == "s:" ==> e.sourceTypeName == ""
    ensures prefix == "h:" ==> SetFields(Some(e), Field(prefix, value)) == Some(e.(host := value))
    ensures prefix == "p:" ==> SetFields(Some(e), Field(prefix, value)) == Some(e.(priority := value))
    ensures prefix == "t:" ==> SetFields(Some(e), Field(prefix, value)) == Some(e.(alertType := value))
    ensures prefix == "k:" ==> SetFields(Some(e), Field(prefix, value)) == Some(e.(aggregationKey := value))
    ensures prefix == "s:" ==> SetFields(Some(e), Field(prefix, value)) == Some(e.(sourceTypeName := value))
  {
    hide SetFields;
    SetNothing(e);
    if value != "" {
      var sec := prefix + value;
      assert |prefix| == 2 && sec[..2] == prefix && sec[2..] == value;
      assert sec[0] == prefix[0] && sec[1] == ':';
      SetOne(e, sec);
    }
  }

  lemma SetTags(e: Event, tags: seq<string>)
    requires e.tags == [] && forall t :: t in tags ==> t != "" && ',' !in t
    ensures SetFields(Some(e), if tags == [] then [] else ["#" + Join(tags, ',')]) == Some(e.(tags := tags))
  {
    hide SetFields, Split, NonEmpty;
    SetNothing(e);
    if tags != [] {
      var sec := "#" + Join(tags, ',');
      assert sec[..1] == "#" && sec[1..] == Join(tags, ',') && sec[0] == '#';
      SplitJoin(tags, ',');
      forall i | 0 <= i < |tags| ensures |tags[i]| > 0 { assert tags[i] in tags; }
      NonEmptyAll(tags);
      SetOne(e, sec);
    }
  }

  /** Applying the sections of an event to its bare title and text restores the event. */
  lemma SectionsRestore(e: Event)
    requires forall t :: t in e.tags ==> t != "" && ',' !in t
    ensures SetFields(Some(NO_EVENT.(title := e.title, text := e.text)), Sections(e)) == Some(e)
  {
    hide SetFields, Field, Join;
    var e0 := NO_EVENT.(title := e.title, text := e.text);
    var a := if e.timestamp == ZERO_TIME then [] else ["d:" + FormatInt(e.timestamp)];
    var g := if e.tags == [] then [] else ["#" + Join(e.tags, ',')];
    var ah := a + Field("h:", e.host);
    var ap := ah + Field("p:", e.priority);
    var at := ap + Field("t:", e.alertType);
    var ak := at + Field("k:", e.aggregationKey);
    var az := ak + Field("s:", e.sourceTypeName);
    assert Sections(e) == az + g;
    SetTimestamp(e0, e.timestamp);
    var e1 := e0.(timestamp := e.timestamp);
    SetConcat(Some(e0), a, Field("h:", e.host));
    SetText(e1, "h:", e.host);
    var e2 := e1.(host := e.host);
    SetConcat(Some(e0), ah, Field("p:", e.priority));
    SetText(e2, "p:", e.priority);
    var e3 := e2.(priority := e.priority);
    SetConcat(Some(e0), ap, Field("t:", e.alertType));
    SetText(e3, "t:", e.alertType);
    var e4 := e3.(alertType := e.alertType);
    SetConcat(Some(e0), at, Field("k:", e.aggregationKey));
    SetText(e4, "k:", e.aggregationKey);
    var e5 := e4.(aggregationKey := e.aggregationKey);
    SetConcat(Some(e0), ak, Field("s:", e.sourceTypeName));
    SetText(e5, "s:", e.sourceTypeName);
    var e6 := e5.(sourceTypeName := e.sourceTypeName);
    SetConcat(Some(e0), az, g);
    SetTags(e6, e.tags);
  }

  lemma SectionsPlain(e: Event)
    requires Printable(e)
    ensures NoBars(Sections(e))
  {
    JoinKeeps(e.tags, ',', '|');
    NumberPlain(e.timestamp);
    hide Join, FormatInt;
  }

  lemma NumberPlain(i: int)
    ensures '|' !in FormatInt(i) && '}' !in FormatInt(i) && ',' !in FormatInt(i)
  {
  }

  lemma BodyRestores(e: Event, title: string, text: string, rest: string)
    requires title != "" && (rest == "" || rest[0] == '|')
    ensures Body(title + "|" + text + rest, |title|, |text|) ==
      SetFields(Some(NO_EVENT.(title := Unescape(title), text := Unescape(text))), Split(rest, '|'))
  {
    hide SetFields, Split, Unescape;
    var body := title + "|" + text + rest;
    assert body[..|title|] == title;
    assert body[|title| + 1..|title| + 1 + |text|] == text;
    assert body[|title| + 1 + |text|..] == rest;
  }

  lemma HeaderSplits(title: string, text: string, body: string)
    ensures HasPrefix(Header(title, text) + body, "_e{")
    ensures SplitHeader(Header(title, text) + body) == Some(Parts(FormatInt(|title|), FormatInt(|text|), body))
  {
    hide FormatInt;
    var tl, xl := FormatInt(|title|), FormatInt(|text|);
    var line := Header(title, text) + body;
    NumberPlain(|title|);
    NumberPlain(|text|);
    var lengths := tl + "," + xl;
    assert line == "_e{" + (lengths + "}:" + body);
    assert line[3..] == lengths + "}:" + body;
    CutFirst(lengths, "}:", body);
    CutFirst(tl, ",", xl);
  }

  lemma HeaderParses(title: string, text: string, body: string)
    ensures HasPrefix(Header(title, text) + body, "_e{")
    ensures Parse(Header(title, text) + body) == Body(body, |title|, |text|)
  {
    hide Body, Atoi, FormatInt, SplitHeader, Header;
    HeaderSplits(title, text, body);
    AtoiFormat(|title|);
    AtoiFormat(|text|);
  }

  // ---- what the parser accepts ----

  lemma {:induction false} CutShape(s: string, sep: string)
    requires sep != ""
    ensures Cut(s, sep).Some? ==> s == Cut(s, sep).value.0 + sep + Cut(s, sep).value.1
  {
    if |s| >= |sep| && s[..|sep|] != sep {
      CutShape(s[1..], sep);
      assert s == [s[0]] + s[1..];
    } else if |s| >= |sep| {
      assert s == s[..|sep|] + s[|sep|..];
    }
  }

  lemma {:induction false} FieldsKeepText(e: Option<Event>, secs: seq<string>)
    requires e.Some?
    ensures SetFields(e, secs).Some? ==>
      SetFields(e, secs).value.title == e.value.title && SetFields(e, secs).value.text == e.value.text
    decreases |secs|
  {
    if secs != [] && SetField(e.value, secs[0]).Some? { FieldsKeepText(SetField(e.value, secs[0]), secs[1..]); }
  }

  lemma {:induction false} UnescapeNonEmpty(s: string)
    requires s != ""
    ensures Unescape(s) != ""
  {
  }

  /**
   An accepted line is a header with the lengths of a non-empty title and a text, both of them as announced,
   and then nothing or a bar; title and text are what stands there, unescaped, whatever the sections say.
   */
  lemma ParsedLine(line: string) returns (tl: string, xl: string, title: string, text: string, rest: string)
    requires HasPrefix(line, "_e{") && Parse(line).Some?
    ensures line == "_e{" + tl + "," + xl + "}:" + title + "|" + text + rest
    ensures Atoi(tl) == Some(|title|) && Atoi(xl) == Some(|text|) && (rest == "" || rest[0] == '|')
    ensures Parse(line).value.title == Unescape(title) != "" && Parse(line).value.text == Unescape(text)
  {
    hide SetFields, Unescape, Split, Atoi, SplitHeader, Body;
    var parts := SplitHeader(line).value;
    SplitShape(line);
    tl, xl := parts.titleLen, parts.textLen;
    var body, n, k := parts.body, Atoi(tl).value, Atoi(xl).value;
    BodyShape(body, n, k);
    title, text, rest := body[..n], body[n + 1..n + 1 + k], body[n + 1 + k..];
    assert line == "_e{" + tl + "," + xl + "}:" + (title + "|" + text + rest);
  }

  lemma SplitShape(line: string)
    requires HasPrefix(line, "_e{") && SplitHeader(line).Some?
    ensures var p := SplitHeader(line).value; line == "_e{" + p.titleLen + "," + p.textLen + "}:" + p.body
  {
    hide Cut;
    var cut := Cut(line[3..], "}:").value;
    CutShape(line[3..], "}:");
    CutShape(cut.0, ",");
    assert line == line[..3] + line[3..];
  }

  lemma BodyShape(body: string, n: int, k: int)
    requires Body(body, n, k).Some?
    ensures 0 < n && 0 <= k && n + 1 + k <= |body|
    ensures body == body[..n] + "|" + body[n + 1..n + 1 + k] + body[n + 1 + k..]
    ensures body[n + 1 + k..] == "" || body[n + 1 + k..][0] == '|'
    ensures Body(body, n, k).value.title == Unescape(body[..n]) != ""
    ensures Body(body, n, k).value.text == Unescape(body[n + 1..n + 1 + k])
  {
    hide SetFields, Unescape, Split;
    UnescapeNonEmpty(body[..n]);
    var rest := body[n + 1 + k..];
    var e := NO_EVENT.(title := Unescape(body[..n]), text := Unescape(body[n + 1..n + 1 + k]));
    FieldsKeepText(Some(e), Split(rest, '|'));
    assert body[n..n + 1] == "|";
  }

  lemma {:induction false} NonEmptyAre(parts: seq<string>)
    ensures forall t :: t in NonEmpty(parts) ==> t in parts && t != ""
  {
    if parts != [] {
      var n := |parts| - 1;
      NonEmptyAre(parts[..n]);
      assert parts == parts[..n] + [parts[n]];
    }
  }

  lemma TagsFit(s: string)
    requires '|' !in s
    ensures forall t :: t in SplitTags(s) ==> t != "" && PlainField(t) && ',' !in t
  {
    hide Split, NonEmpty;
    NonEmptyAre(Split(s, ','));
    PiecesPlain(s, ',', ',');
    PiecesPlain(s, ',', '|');
  }

  lemma FieldFits(e: Event, sec: string)
    requires FieldsFit(e) && '|' !in sec
    ensures SetField(e, sec).Some? ==> FieldsFit(SetField(e, sec).value)
  {
    hide SplitTags, ParseInt64;
    if HasPrefix(sec, "#") { TagsFit(sec[1..]); }
  }

  lemma {:induction false} AllFieldsFit(e: Option<Event>, secs: seq<string>)
    requires NoBars(secs) && (e.Some? ==> FieldsFit(e.value))
    ensures SetFields(e, secs).Some? ==> FieldsFit(SetFields(e, secs).value)
    decreases |secs|
  {
    hide SetField, FieldsFit;
    if secs != [] && e.Some? {
      assert secs[0] in secs;
      FieldFits(e.value, secs[0]);
      AllFieldsFit(SetField(e.value, secs[0]), secs[1..]);
    }
  }

  lemma BodyFits(body: string, n: int, k: int)
    requires Body(body, n, k).Some?
    ensures FieldsFit(Body(body, n, k).value)
  {
    hide SetFields, Unescape, Split;
    var rest := body[n + 1 + k..];
    var e := NO_EVENT.(title := Unescape(body[..n]), text := Unescape(body[n + 1..n + 1 + k]));
    PiecesPlain(rest, '|', '|');
    AllFieldsFit(Some(e), Split(rest, '|'));
  }

  // ---- the round trip, both ways ----

  lemma BarsStart(secs: seq<string>)
    ensures Bars(secs) == "" || Bars(secs)[0] == '|'
  {
  }

  lemma PrintedBody(e: Event)
    ensures HasPrefix(Print(e), "_e{")
    ensures Parse(Print(e)) ==
      Body(Escape(e.title) + "|" + Escape(e.text) + Bars(Sections(e)), |Escape(e.title)|, |Escape(e.text)|)
  {
    hide Parse, Body, Sections, Escape, Header;
    var title, text, rest := Escape(e.title), Escape(e.text), Bars(Sections(e));
    var body := title + "|" + text + rest;
    assert Print(e) == Header(title, text) + body;
    HeaderParses(title, text, body);
  }

  lemma PrintableParses(e: Event)
    requires Printable(e)
    ensures Parse(Print(e)) == Some(e)
  {
    PrintedBody(e);
    hide Parse, Body, SetFields, Split, Sections, Escape, Unescape, Print;
    EscapeHead(e.title);
    EscapeRoundTripIff(e.title);
    EscapeRoundTripIff(e.text);
    BarsStart(Sections(e));
    BodyRestores(e, Escape(e.title), Escape(e.text), Bars(Sections(e)));
    SectionsPlain(e);
    SplitBars(Sections(e));
    SetConcat(Some(NO_EVENT.(title := e.title, text := e.text)), [""], Sections(e));
    SetOne(NO_EVENT.(title := e.title, text := e.text), "");
    SectionsRestore(e);
  }

  /** Whatever the line, an event the parser returns is one the format can carry. */
  lemma ParsedIsPrintable(line: string, e: Event)
    requires HasPrefix(line, "_e{") && Parse(line) == Some(e)
    ensures Printable(e)
  {
    hide Body, Unescape, FieldsFit, SplitHeader, Atoi, HasEscape;
    var parts := SplitHeader(line).value;
    var body, n, k := parts.body, Atoi(parts.titleLen).value, Atoi(parts.textLen).value;
    BodyShape(body, n, k);
    BodyFits(body, n, k);
    UnescapeClean(body[..n]);
    UnescapeClean(body[n + 1..n + 1 + k]);
  }

  /** Parsing a printed event gives the event back exactly when the format can carry it. */
  lemma PrintParses(e: Event)
    ensures HasPrefix(Print(e), "_e{")
    ensures Parse(Print(e)) == Some(e) <==> Printable(e)
  {
    hide Parse, Printable;
    PrintedBody(e);
    if Printable(e) { PrintableParses(e); } else if Parse(Print(e)) == Some(e) { ParsedIsPrintable(Print(e), e); }
  }

  /** Printing a parsed event and parsing again changes nothing. */
  lemma ReparseIsSame(line: string, e: Event)
    requires HasPrefix(line, "_e{") && Parse(line) == Some(e)
    ensures HasPrefix(Print(e), "_e{") && Parse(Print(e)) == Some(e)
  {
    ParsedIsPrintable(line, e);
    PrintParses(e);
  }

  // ---- the other writer ----

  function GlobalKey(tag: string): string {
    var cut := Cut(tag, ":");
    if cut.None? then tag else cut.value.0
  }

  /** The global tags that pass the filters, then the attributes that do, as key:value. */
  function GlobalTags(globals: seq<string>, filters: set<string>): seq<string> {
    if globals == [] then []
    else
      var t := globals[|globals| - 1];
      GlobalTags(globals[..|globals| - 1], filters) + if GlobalKey(t) in filters then [] else [t]
  }

  function AttributeTags(attrs: seq<(string, string)>, filters: set<string>): seq<string> {
    if attrs == [] then []
    else
      var a := attrs[|attrs| - 1];
      AttributeTags(attrs[..|attrs| - 1], filters) + if a.0 in filters then [] else [a.0 + ":" + a.1]
  }

  function TagText(tags: seq<string>): string {
    if tags == [] then "" else "|#" + Join(tags, ',')
  }

  lemma {:induction false} JoinLast(tags: seq<string>, t: string)
    ensures Join(tags + [t], ',') == if tags == [] then t else Join(tags, ',') + "," + t
  {
    if tags != [] {
      assert (tags + [t])[1..] == tags[1..] + [t];
      JoinLast(tags[1..], t);
    }
  }

  /** writeSep and the tag after it. */
  lemma NextTag(tags: seq<string>, t: string)
    ensures TagText(tags + [t]) == TagText(tags) + (if tags == [] then "|#" else ",") + t
  {
    hide Join;
    JoinLast(tags, t);
  }

  method WriteTags(globals: seq<string>, attrs: seq<(string, string)>, filters: set<string>, start: string)
    returns (buf: string)
    ensures buf == start + TagText(GlobalTags(globals, filters) + AttributeTags(attrs, filters))
  {
    hide Join, GlobalKey, TagText;
    buf := start;
    var wrote := false;
    ghost var tags: seq<string> := [];
    assert TagText([]) == "" by { NoTagText(); }
    for i := 0 to |globals|
      invariant tags == GlobalTags(globals[..i], filters)
      invariant buf == start + TagText(tags) && wrote == (tags != [])
    {
      assert globals[..i + 1][..i] == globals[..i];
      if GlobalKey(globals[i]) in filters { continue; }
      NextTag(tags, globals[i]);
      if wrote { buf := buf + ","; } else { buf, wrote := buf + "|#", true; }
      buf := buf + globals[i];
      tags := tags + [globals[i]];
    }
    assert globals[..|globals|] == globals;
    ghost var own: seq<string> := [];
    assert tags + own == tags;
    for i := 0 to |attrs|
      invariant own == AttributeTags(attrs[..i], filters)
      invariant buf == start + TagText(tags + own) && wrote == (tags + own != [])
    {
      assert attrs[..i + 1][..i] == attrs[..i];
      if attrs[i].0 in filters { continue; }
      var t := attrs[i].0 + ":" + attrs[i].1;
      NextTag(tags + own, t);
      assert tags + own + [t] == tags + (own + [t]);
      if wrote { buf := buf + ","; } else { buf, wrote := buf + "|#", true; }
      buf := buf + t;
      own := own + [t];
    }
    assert attrs[..|attrs|] == attrs;
  }

  lemma NoTagText()
    ensures TagText([]) == ""
  {
  }

  function FieldText(prefix: string, value: string): string {
    if value == "" then "" else "|" + prefix + value
  }

  lemma {:induction false} BarsConcat(a: seq<string>, b: seq<string>)
    ensures Bars(a + b) == Bars(a) + Bars(b)
  {
    if a == [] {
      assert a + b == b;
    } else {
      assert (a + b)[1..] == a[1..] + b;
      BarsConcat(a[1..], b);
    }
  }

  lemma BarsField(prefix: string, value: string)
    ensures Bars(Field(prefix, value)) == FieldText(prefix, value)
  {
    if value != "" {
      BarsOne(prefix + value);
      assert "|" + (prefix + value) == "|" + prefix + value;
    }
  }

  lemma BarsOne(sec: string)
    ensures Bars([sec]) == "|" + sec
  {
    assert [sec][1..] == [];
  }

  /** The sections printed one by one. */
  lemma BarsSections(e: Event)
    ensures Bars(Sections(e)) ==
      (if e.timestamp == ZERO_TIME then "" else "|d:" + FormatInt(e.timestamp))
      + FieldText("h:", e.host) + FieldText("p:", e.priority) + FieldText("t:", e.alertType)
      + FieldText("k:", e.aggregationKey) + FieldText("s:", e.sourceTypeName) + TagText(e.tags)
  {
    hide Join, FormatInt, Field, FieldText, Bars;
    var a := if e.timestamp == ZERO_TIME then [] else ["d:" + FormatInt(e.timestamp)];
    var g := if e.tags == [] then [] else ["#" + Join(e.tags, ',')];
    var ah := a + Field("h:", e.host);
    var ap := ah + Field("p:", e.priority);
    var at := ap + Field("t:", e.alertType);
    var ak := at + Field("k:", e.aggregationKey);
    var az := ak + Field("s:", e.sourceTypeName);
    BarsConcat(a, Field("h:", e.host));
    BarsConcat(ah, Field("p:", e.priority));
    BarsConcat(ap, Field("t:", e.alertType));
    BarsConcat(at, Field("k:", e.aggregationKey));
    BarsConcat(ak, Field("s:", e.sourceTypeName));
    BarsConcat(az, g);
    BarsField("h:", e.host);
    BarsField("p:", e.priority);
    BarsField("t:", e.alertType);
    BarsField("k:", e.aggregationKey);
    BarsField("s:", e.sourceTypeName);
    BarsOne("d:" + FormatInt(e.timestamp));
    BarsOne("#" + Join(e.tags, ','));
    BarsNone();
    assert "|" + ("d:" + FormatInt(e.timestamp)) == "|d:" + FormatInt(e.timestamp);
    assert "|" + ("#" + Join(e.tags, ',')) == "|#" + Join(e.tags, ',');
  }

  lemma BarsNone()
    ensures Bars([]) == ""
  {
  }

  method WriteField(start: string, prefix: string, value: string) returns (buf: string)
    ensures buf == start + FieldText(prefix, value)
  {
    if value == "" { return start; }
    return start + ("|" + prefix) + value;
  }

  /**
   SerializeEvent: field by field into a buffer. It writes what the printer prints for the event whose tags are
   the surviving ones; without global tags and filters these are the event's own attributes.
   */
  method SerializeEvent(e: Event, attrs: seq<(string, string)>, globals: seq<string>, filters: set<string>)
    returns (packet: string)
    ensures packet == Print(e.(tags := GlobalTags(globals, filters) + AttributeTags(attrs, filters)))
  {
    hide Escape, FormatInt, FieldText, TagText, Bars, Sections, GlobalTags, AttributeTags;
    var title, text := Escape(e.title), Escape(e.text);
    var buf := "_e{";
    buf := buf + FormatInt(|title|);
    buf := buf + ",";
    buf := buf + FormatInt(|text|);
    buf := buf + "}:";
    buf := buf + title;
    buf := buf + "|";
    buf := buf + text;
    ghost var head := buf;
    if e.timestamp != ZERO_TIME { buf := buf + ("|d:" + FormatInt(e.timestamp)); }
    ghost var time := if e.timestamp == ZERO_TIME then "" else "|d:" + FormatInt(e.timestamp);
    assert buf == head + time;
    buf := WriteField(buf, "h:", e.host);
    buf := WriteField(buf, "p:", e.priority);
    buf := WriteField(buf, "t:", e.alertType);
    buf := WriteField(buf, "k:", e.aggregationKey);
    buf := WriteField(buf, "s:", e.sourceTypeName);
    ghost var fields := FieldText("h:", e.host) + FieldText("p:", e.priority) + FieldText("t:", e.alertType)
      + FieldText("k:", e.aggregationKey) + FieldText("s:", e.sourceTypeName);
    packet := WriteTags(globals, attrs, filters, buf);
    BarsSections(e.(tags := GlobalTags(globals, filters) + AttributeTags(attrs, filters)));
  }
}
