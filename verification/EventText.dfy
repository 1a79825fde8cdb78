/** Text functions the DogStatsD event format is made of: numbers, escaped line feeds, cutting and splitting. */
module EventText {
  import opened Options

  // ---- decimal numbers ----

  function DigitChar(d: nat): char
    requires d < 10
  {
    '0' + d as char
  }

  predicate IsDigit(c: char) {
    '0' <= c <= '9'
  }

  function Digits(n: nat): (s: string)
    ensures s != "" && forall i :: 0 <= i < |s| ==> IsDigit(s[i])
  {
    if n < 10 then [DigitChar(n)] else Digits(n / 10) + [DigitChar(n % 10)]
  }

  function ParseDigits(s: string): Option<nat> {
    if s == "" || !IsDigit(s[|s| - 1]) then None
    else
      var d := (s[|s| - 1] - '0') as nat;
      if |s| == 1 then Some(d)
      else
        var high := ParseDigits(s[..|s| - 1]);
        if high.None? then None else Some(10 * high.value + d)
  }

  lemma {:induction false} ParsePrinted(n: nat)
    ensures ParseDigits(Digits(n)) == Some(n)
  {
    if n >= 10 {
      ParsePrinted(n / 10);
      assert Digits(n)[..|Digits(n)| - 1] == Digits(n / 10);
    }
  }

  function FormatInt(i: int): string {
    if i < 0 then "-" + Digits(-i) else Digits(i)
  }

  function Signed(negative: bool, n: int): int {
    if negative then -n else n
  }

  /** Atoi, without the range check. */
  function Atoi(s: string): Option<int> {
    if s != "" && (s[0] == '-' || s[0] == '+') then
      var n := ParseDigits(s[1..]);
      if n.None? then None else Some(Signed(s[0] == '-', n.value))
    else
      var n := ParseDigits(s);
      if n.None? then None else Some(n.value)
  }

  lemma AtoiFormat(i: int)
    ensures Atoi(FormatInt(i)) == Some(i)
    ensures i >= 0 ==> Atoi("+" + FormatInt(i)) == Some(i)
  {
    ParsePrinted(if i < 0 then -i else i);
    if i < 0 { assert FormatInt(i)[1..] == Digits(-i); }
    else { assert ("+" + FormatInt(i))[1..] == Digits(i); }
  }

  // ---- line feeds ----

  function Escape(s: string): string {
    if s == "" then "" else (if s[0] == '\n' then "\\n" else [s[0]]) + Escape(s[1..])
  }

  function Unescape(s: string): string {
    if s == "" then ""
    else if |s| >= 2 && s[0] == '\\' && s[1] == 'n' then "\n" + Unescape(s[2..])
    else [s[0]] + Unescape(s[1..])
  }

  /** A backslash followed by n, literally. */
  predicate HasEscape(s: string) {
    |s| >= 2 && ((s[0] == '\\' && s[1] == 'n') || HasEscape(s[1..]))
  }

  lemma EscapeHead(s: string)
    ensures Escape(s) != "" <==> s != ""
    ensures s != "" ==> Escape(s)[0] == if s[0] == '\n' then '\\' else s[0]
  {
  }

  lemma EscapeTail(s: string)
    requires s != ""
    ensures s[0] == '\n' ==> Escape(s)[1] == 'n' && Escape(s)[2..] == Escape(s[1..])
    ensures s[0] != '\n' ==> Escape(s)[1..] == Escape(s[1..])
  {
  }

  /** A literal escape sequence is the only thing that unescaping does not restore. */
  lemma {:induction false} UnescapeEscape(s: string)
    ensures |Unescape(Escape(s))| <= |s|
    ensures HasEscape(s) ==> |Unescape(Escape(s))| < |s|
    ensures !HasEscape(s) ==> Unescape(Escape(s)) == s
  {
    if s != "" {
      EscapeTail(s);
      EscapeHead(s[1..]);
      UnescapeEscape(s[1..]);
      if |s| >= 2 && s[0] == '\\' && s[1] == 'n' {
        EscapeTail(s[1..]);
        UnescapeEscape(s[2..]);
        assert s[1..][1..] == s[2..];
        assert Escape(s)[2..] == Escape(s)[1..][1..];
      } else {
        assert s == [s[0]] + s[1..];
      }
    }
  }

  lemma {:induction false} EscapeRoundTripIff(s: string)
    ensures Unescape(Escape(s)) == s <==> !HasEscape(s)
  {
    UnescapeEscape(s);
  }

  /** Unescaping leaves no literal escape sequence behind. */
  lemma {:induction false} UnescapeClean(s: string)
    ensures !HasEscape(Unescape(s))
    ensures Unescape(s) != "" && Unescape(s)[0] == 'n' ==> s[0] == 'n'
  {
    if |s| >= 2 && s[0] == '\\' && s[1] == 'n' {
      UnescapeClean(s[2..]);
      assert Unescape(s)[1..] == Unescape(s[2..]);
    } else if s != "" {
      UnescapeClean(s[1..]);
      assert Unescape(s)[1..] == Unescape(s[1..]);
    }
  }

  // ---- cutting and splitting ----

  /** strings.Cut around the first occurrence of a non-empty separator. */
  function Cut(s: string, sep: string): Option<(string, string)>
    requires sep != ""
  {
    if |s| < |sep| then None
    else if s[..|sep|] == sep then Some(("", s[|sep|..]))
    else
      var r := Cut(s[1..], sep);
      if r.None? then None else Some(([s[0]] + r.value.0, r.value.1))
  }

  lemma {:induction false} CutFirst(a: string, sep: string, b: string)
    requires sep != "" && sep[0] !in a
    ensures Cut(a + sep + b, sep) == Some((a, b))
  {
    var s := a + sep + b;
    if a == "" {
      assert s == sep + b && s[..|sep|] == sep && s[|sep|..] == b;
    } else {
      assert s[1..] == a[1..] + sep + b;
      assert s[0] == a[0] && s[..|sep|][0] == a[0];
      CutFirst(a[1..], sep, b);
      assert [a[0]] + a[1..] == a;
    }
  }

  /** The pieces between separators; at least one. */
  function Split(s: string, sep: char): (r: seq<string>)
    ensures |r| > 0
  {
    if s == "" then [""]
    else
      var r := Split(s[1..], sep);
      if s[0] == sep then [""] + r else [[s[0]] + r[0]] + r[1..]
  }

  lemma {:induction false} SplitPiece(a: string, sep: char, b: string)
    requires sep !in a
    ensures Split(a + [sep] + b, sep) == [a] + Split(b, sep)
  {
    var s := a + [sep] + b;
    if a == "" {
      assert s[1..] == b;
    } else {
      assert s[1..] == a[1..] + [sep] + b;
      SplitPiece(a[1..], sep, b);
      assert [a[0]] + a[1..] == a;
    }
  }

  lemma {:induction false} SplitLast(a: string, sep: char)
    requires sep !in a
    ensures Split(a, sep) == [a]
  {
    if a != "" {
      SplitLast(a[1..], sep);
      assert [a[0]] + a[1..] == a;
    }
  }

  /** No piece holds the separator, or a character that the whole does not hold. */
  lemma {:induction false} PiecesPlain(s: string, sep: char, c: char)
    requires c == sep || c !in s
    ensures forall p :: p in Split(s, sep) ==> c !in p
  {
    if s != "" { PiecesPlain(s[1..], sep, c); }
  }

  function Join(parts: seq<string>, sep: char): string {
    if parts == [] then "" else if |parts| == 1 then parts[0] else parts[0] + [sep] + Join(parts[1..], sep)
  }

  lemma {:induction false} SplitJoin(parts: seq<string>, sep: char)
    requires parts != [] && forall p :: p in parts ==> sep !in p
    ensures Split(Join(parts, sep), sep) == parts
  {
    assert parts[0] in parts;
    if |parts| == 1 {
      SplitLast(parts[0], sep);
    } else {
      SplitJoin(parts[1..], sep);
      SplitPiece(parts[0], sep, Join(parts[1..], sep));
    }
  }

  lemma {:induction false} JoinKeeps(parts: seq<string>, sep: char, c: char)
    requires c != sep && forall p :: p in parts ==> c !in p
    ensures c !in Join(parts, sep)
  {
    if |parts| > 1 { JoinKeeps(parts[1..], sep, c); }
  }
}
