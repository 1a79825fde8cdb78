/**
 The event parser with the 64-bit lengths it computes with. Their sum wraps, and a header that announces more than
 any string can hold then makes the parser index past the end of the line.
 */
module EventLengths {
  import opened EventText
  import opened DogStatsDEvents
  import opened Options

  const MAX_INT := 0x7fff_ffff_ffff_ffff

  /** What a call of the parser does. */
  datatype Reading = Panics | Refused | Read(event: Event)

  /** A sum on 64 bits. */
  function Wrap(n: int): (r: int)
    requires -0x1_0000_0000_0000_0000 < n < 0x1_0000_0000_0000_0000
    ensures -MAX_INT - 1 <= r <= MAX_INT
  {
    if n > MAX_INT then n - 0x1_0000_0000_0000_0000
    else if n < -MAX_INT - 1 then n + 0x1_0000_0000_0000_0000
    else n
  }

  function AsReading(e: Option<Event>): Reading {
    if e.None? then Refused else Read(e.value)
  }

  /** The body of the event; an index or a slice bound past the end panics. */
  function ReadBody(body: string, titleLen: Int64, textLen: Int64): Reading {
    if titleLen <= 0 || textLen < 0 then Refused
    else if |body| < Wrap(titleLen + 1 + textLen) then Refused
    else if titleLen >= |body| then Panics
    else if body[titleLen] != '|' then Refused
    else
      var after := body[titleLen + 1..];
      if textLen > |after| then Panics
      else
        var rest := after[textLen..];
        if rest != "" && rest[0] != '|' then Refused
        else
          var e := NO_EVENT.(title := Unescape(body[..titleLen]), text := Unescape(after[..textLen]));
          AsReading(SetFields(Some(e), Split(rest, '|')))
  }

  /** parseDogStatsDEvent */
  function ReadLine(line: string): Reading
    requires HasPrefix(line, "_e{")
  {
    var parts := SplitHeader(line);
    if parts.None? then Refused
    else
      var titleLen, textLen := ParseInt64(parts.value.titleLen), ParseInt64(parts.value.textLen);
      if titleLen.None? || textLen.None? then Refused
      else ReadBody(parts.value.body, titleLen.value, textLen.value)
  }

  /** Lengths whose sum does not fit, and nothing but a bar where the title should end. */
  predicate Overflows(body: string, titleLen: Int64, textLen: Int64) {
    && titleLen > 0 && textLen >= 0 && titleLen + 1 + textLen > MAX_INT
    && (titleLen >= |body| || body[titleLen] == '|')
  }

  /** A line whose header announces such lengths. */
  predicate Hazardous(line: string)
    requires HasPrefix(line, "_e{")
  {
    var parts := SplitHeader(line);
    && parts.Some? && ParseInt64(parts.value.titleLen).Some? && ParseInt64(parts.value.textLen).Some?
    && Overflows(parts.value.body, ParseInt64(parts.value.titleLen).value, ParseInt64(parts.value.textLen).value)
  }

  lemma BodyPanicsIff(body: string, titleLen: Int64, textLen: Int64)
    requires |body| <= MAX_INT
    ensures ReadBody(body, titleLen, textLen) == Panics <==> Overflows(body, titleLen, textLen)
    ensures ReadBody(body, titleLen, textLen) != Panics ==>
      ReadBody(body, titleLen, textLen) == AsReading(Body(body, titleLen, textLen))
  {
    hide SetFields, Split, Unescape;
    if 0 < titleLen < |body| && textLen >= 0 {
      var after := body[titleLen + 1..];
      if textLen <= |after| {
        assert after[..textLen] == body[titleLen + 1..titleLen + 1 + textLen];
        assert after[textLen..] == body[titleLen + 1 + textLen..];
      }
    }
  }

  lemma {:induction false} CutShortens(s: string, sep: string)
    requires sep != ""
    ensures Cut(s, sep).Some? ==> |Cut(s, sep).value.1| <= |s|
  {
    CutShape(s, sep);
  }

  lemma BeyondIntIsRefused(body: string, titleLen: int, textLen: int)
    requires |body| <= MAX_INT && (ParseRange(titleLen) ==> !ParseRange(textLen))
    ensures Body(body, titleLen, textLen).None?
  {
  }

  predicate ParseRange(n: int) {
    -MAX_INT - 1 <= n <= MAX_INT
  }

  /**
   The parser panics exactly on the hazardous lines. On every other line a Go string can hold, it answers as the
   parser with unbounded lengths does.
   */
  lemma PanicsIff(line: string)
    requires HasPrefix(line, "_e{") && |line| <= MAX_INT
    ensures ReadLine(line) == Panics <==> Hazardous(line)
    ensures !Hazardous(line) ==> ReadLine(line) == AsReading(Parse(line))
  {
    hide Body, ReadBody, Overflows, Atoi, Cut;
    var parts := SplitHeader(line);
    if parts.Some? {
      CutShortens(line[3..], "}:");
      var titleLen, textLen := Atoi(parts.value.titleLen), Atoi(parts.value.textLen);
      if titleLen.Some? && textLen.Some? {
        if ParseRange(titleLen.value) && ParseRange(textLen.value) {
          BodyPanicsIff(parts.value.body, titleLen.value, textLen.value);
        } else {
          BeyondIntIsRefused(parts.value.body, titleLen.value, textLen.value);
        }
      }
    }
  }

  /** A printed event never makes the parser panic, and is read back exactly when the format can carry it. */
  lemma PrintedIsRead(e: Event)
    requires |Print(e)| <= MAX_INT
    ensures HasPrefix(Print(e), "_e{") && ReadLine(Print(e)) != Panics
    ensures ReadLine(Print(e)) == Read(e) <==> Printable(e)
  {
    hide ReadLine, Parse, Printable, Hazardous;
    PrintParses(e);
    PrintedIsSafe(e);
    PanicsIff(Print(e));
  }

  lemma PrintedIsSafe(e: Event)
    requires |Print(e)| <= MAX_INT
    ensures HasPrefix(Print(e), "_e{") && !Hazardous(Print(e))
  {
    hide Escape, Bars, Sections, Atoi, FormatInt, SplitHeader;
    var title, text := Escape(e.title), Escape(e.text);
    var body := title + "|" + text + Bars(Sections(e));
    assert Print(e) == Header(title, text) + body;
    HeaderSplits(title, text, body);
    AtoiFormat(|title|);
    AtoiFormat(|text|);
    assert |title| + 1 + |text| <= |body| <= |Print(e)|;
  }

  lemma ThreeMore(n: nat, a: nat, b: nat, c: nat)
    requires 0 < n && a < 10 && b < 10 && c < 10
    ensures Digits(1000 * n + 100 * a + 10 * b + c) == Digits(n) + [DigitChar(a), DigitChar(b), DigitChar(c)]
  {
    OneMore(n, a);
    OneMore(10 * n + a, b);
    OneMore(100 * n + 10 * a + b, c);
  }

  lemma OneMore(n: nat, d: nat)
    requires 0 < n && d < 10
    ensures Digits(10 * n + d) == Digits(n) + [DigitChar(d)]
  {
  }

  lemma LargestInt()
    ensures FormatInt(MAX_INT) == "9223372036854775807" && FormatInt(0) == "0"
  {
    assert Digits(9) == "9" && Digits(0) == "0";
    hide Digits;
    ThreeMore(9, 2, 2, 3);
    ThreeMore(9223, 3, 7, 2);
    ThreeMore(9223372, 0, 3, 6);
    ThreeMore(9223372036, 8, 5, 4);
    ThreeMore(9223372036854, 7, 7, 5);
    ThreeMore(9223372036854775, 8, 0, 7);
  }

  /** A line that makes the parser panic. */
  lemma PanicExample()
    ensures var line := "_e{9223372036854775807,0}:x"; HasPrefix(line, "_e{") && ReadLine(line) == Panics
  {
    hide Atoi, FormatInt, Cut, Digits;
    LargestInt();
    AtoiFormat(MAX_INT);
    AtoiFormat(0);
    NumberPlain(MAX_INT);
    var line := "_e{9223372036854775807,0}:x";
    var lengths := "9223372036854775807" + "," + "0";
    assert line[3..] == lengths + "}:" + "x";
    CutFirst(lengths, "}:", "x");
    CutFirst("9223372036854775807", ",", "0");
  }
}
