/** The scan that accepts tag keys, against the grammar it stands for: identifiers joined by single dots. */
module TagKeys {

  predicate Letter(c: char) {
    c == '_' || 'a' <= c <= 'z' || 'A' <= c <= 'Z'
  }

  predicate Digit(c: char) {
    '0' <= c <= '9'
  }

  predicate Segment(s: string) {
    |s| > 0 && Letter(s[0]) && forall i :: 0 <= i < |s| ==> Letter(s[i]) || Digit(s[i])
  }

  function Joined(parts: seq<string>): string
    requires |parts| > 0
  {
    if |parts| == 1 then parts[0] else parts[0] + "." + Joined(parts[1..])
  }

  predicate Segments(parts: seq<string>, key: string) {
    |parts| > 0 && (forall i :: 0 <= i < |parts| ==> Segment(parts[i])) && Joined(parts) == key
  }

  /** The language of the regular expression in the documentation of validTagKey. */
  ghost predicate IsTagKey(key: string) {
    exists parts: seq<string> :: Segments(parts, key)
  }

  /** Position i does not open a segment. */
  predicate Inside(key: string, i: nat)
    requires i <= |key|
  {
    i > 0 && key[i - 1] != '.'
  }

  predicate Fits(key: string, i: nat)
    requires i < |key|
  {
    Letter(key[i]) || ((Digit(key[i]) || key[i] == '.') && Inside(key, i))
  }

  lemma {:induction false} SegmentsFit(parts: seq<string>, key: string, i: nat)
    requires Segments(parts, key) && i < |key|
    ensures Fits(key, i) && Inside(key, |key|)
  {
    if |parts| > 1 {
      var rest := Joined(parts[1..]);
      var n := |parts[0]| + 1;
      assert Segments(parts[1..], rest);
      assert key[n..] == rest;
      JoinedNonEmpty(parts[1..]);
      SegmentsFit(parts[1..], rest, if i < n then 0 else i - n);
    }
  }

  lemma JoinedNonEmpty(parts: seq<string>)
    requires |parts| > 0 && Segment(parts[0])
    ensures |Joined(parts)| > 0
  {
  }

  lemma {:induction false} FittingIsTagKey(key: string)
    requires Inside(key, |key|) && forall i :: 0 <= i < |key| ==> Fits(key, i)
    ensures IsTagKey(key)
    decreases |key|
  {
    if d :| 0 <= d < |key| && key[d] == '.' && forall i :: 0 <= i < d ==> key[i] != '.' {
      assert Fits(key, d) && Fits(key, 0);
      var head, rest := key[..d], key[d + 1..];
      forall i | 0 <= i < d ensures Letter(head[i]) || Digit(head[i]) { assert Fits(key, i); }
      forall i | 0 <= i < |rest| ensures Fits(rest, i) { assert Fits(key, d + 1 + i); }
      FittingIsTagKey(rest);
      var parts: seq<string> :| Segments(parts, rest);
      assert ([head] + parts)[1..] == parts;
      assert key == head + "." + rest;
      assert Segments([head] + parts, key);
    } else {
      NoDots(key, |key|);
      assert Fits(key, 0);
      forall i | 0 <= i < |key| ensures Letter(key[i]) || Digit(key[i]) { assert Fits(key, i); }
      assert Segments([key], key);
    }
  }

  lemma {:induction false} NoDots(key: string, n: nat)
    requires n <= |key|
    requires !exists d :: 0 <= d < |key| && key[d] == '.' && forall i :: 0 <= i < d ==> key[i] != '.'
    ensures forall i :: 0 <= i < n ==> key[i] != '.'
  {
    if n > 0 { NoDots(key, n - 1); }
  }

  /** Being a tag key is a local property of the characters. */
  lemma TagKeyIff(key: string)
    ensures IsTagKey(key) <==> Inside(key, |key|) && forall i :: 0 <= i < |key| ==> Fits(key, i)
  {
    if IsTagKey(key) {
      var parts: seq<string> :| Segments(parts, key);
      JoinedNonEmpty(parts);
      forall i | 0 <= i < |key| ensures Fits(key, i) && Inside(key, |key|) { SegmentsFit(parts, key, i); }
      SegmentsFit(parts, key, 0);
    } else if Inside(key, |key|) && forall i :: 0 <= i < |key| ==> Fits(key, i) {
      FittingIsTagKey(key);
    }
  }

  /** validTagKey: one pass with the start of the current segment. */
  method ValidTagKey(key: string) returns (valid: bool)
    ensures valid <==> IsTagKey(key)
  {
    TagKeyIff(key);
    var segmentStart := 0;
    for i := 0 to |key|
      invariant 0 <= segmentStart <= i
      invariant segmentStart < i <==> Inside(key, i)
      invariant forall j :: 0 <= j < i ==> Fits(key, j)
    {
      var c := key[i];
      if c == '_' || 'a' <= c <= 'z' || 'A' <= c <= 'Z' || ('0' <= c <= '9' && i > segmentStart) {
      } else if c == '.' && i > segmentStart {
        segmentStart := i + 1;
      } else {
        assert !Fits(key, i);
        return false;
      }
    }
    return segmentStart < |key|;
  }
}
