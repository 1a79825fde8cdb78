/** Packing serialized lines into datagrams: nothing lost, nothing reordered, as few datagrams as possible. */
module Packetize {

  newtype Byte = x: int | 0 <= x < 256

  type Line = seq<Byte>

  const NEWLINE: Byte := 10

  /** The lines that are sent: neither empty nor too long for a datagram of their own. */
  function Kept(lines: seq<Line>, size: int): (r: seq<Line>)
    ensures forall l :: l in r ==> l in lines && 0 < |l| <= size
  {
    if lines == [] then []
    else
      var l := lines[|lines| - 1];
      Kept(lines[..|lines| - 1], size) + if 0 < |l| <= size then [l] else []
  }

  function Oversized(lines: seq<Line>, size: int): nat {
    if lines == [] then 0
    else
      Oversized(lines[..|lines| - 1], size)
      + if |lines[|lines| - 1]| > 0 && |lines[|lines| - 1]| > size then 1 else 0
  }

  /** Lines joined by newlines. */
  function Joined(g: seq<Line>): Line {
    if g == [] then [] else if |g| == 1 then g[0] else Joined(g[..|g| - 1]) + [NEWLINE] + g[|g| - 1]
  }

  /** Each line goes into the last group if it still fits there. */
  function Groups(lines: seq<Line>, size: int): seq<seq<Line>> {
    if lines == [] then []
    else
      var gs, l := Groups(lines[..|lines| - 1], size), lines[|lines| - 1];
      if gs == [] || |Joined(gs[|gs| - 1])| + 1 + |l| > size then gs + [[l]]
      else gs[|gs| - 1 := gs[|gs| - 1] + [l]]
  }

  function Packets(gs: seq<seq<Line>>): seq<Line> {
    if gs == [] then [] else Packets(gs[..|gs| - 1]) + [Joined(gs[|gs| - 1])]
  }

  lemma PacketsLast(gs: seq<seq<Line>>, g: seq<Line>)
    ensures Packets(gs + [g]) == Packets(gs) + [Joined(g)]
  {
    assert (gs + [g])[..|gs + [g]| - 1] == gs;
  }

  lemma JoinedLast(g: seq<Line>, l: Line)
    ensures Joined(g + [l]) == if g == [] then l else Joined(g) + [NEWLINE] + l
  {
    assert (g + [l])[..|g + [l]| - 1] == g;
  }

  lemma GroupsLast(lines: seq<Line>, l: Line, size: int)
    ensures var gs := Groups(lines, size);
            Groups(lines + [l], size) ==
              if gs == [] || |Joined(gs[|gs| - 1])| + 1 + |l| > size then gs + [[l]]
              else gs[..|gs| - 1] + [gs[|gs| - 1] + [l]]
  {
    assert (lines + [l])[..|lines + [l]| - 1] == lines;
  }

  /** The groups, with the last one apart from the full ones. */
  predicate Parts(gs: seq<seq<Line>>, full: seq<seq<Line>>, open: seq<Line>) {
    if open == [] then gs == [] == full else gs == full + [open]
  }

  /** Where the next line goes. */
  lemma PlaceLine(kept: seq<Line>, line: Line, size: int, full: seq<seq<Line>>, open: seq<Line>)
    requires Parts(Groups(kept, size), full, open)
    ensures var flush := open != [] && |Joined(open)| + 1 + |line| > size;
            Parts(
              Groups(kept + [line], size),
              if flush then full + [open] else full, if flush then [line] else open + [line])
  {
    GroupsLast(kept, line, size);
    hide Groups, Joined;
    var gs := Groups(kept, size);
    if open == [] { assert [] + [line] == [line]; }
    else { assert gs[|gs| - 1] == open && gs[..|gs| - 1] == full; }
  }

  lemma PacketsOfParts(gs: seq<seq<Line>>, full: seq<seq<Line>>, open: seq<Line>)
    requires Parts(gs, full, open)
    ensures Packets(gs) == if open == [] then Packets(full) else Packets(full) + [Joined(open)]
  {
    hide Packets, Joined;
    PacketsLast(full, open);
  }

  /** packetize: `cur` is the datagram being filled. */
  method Pack(lines: seq<Line>, size: int) returns (packets: seq<Line>, oversized: nat)
    ensures packets == Packets(Groups(Kept(lines, size), size))
    ensures oversized == Oversized(lines, size)
  {
    hide Groups, Packets, Joined, Kept, Oversized, Parts;
    packets, oversized := [], 0;
    var cur: Line := [];
    ghost var full: seq<seq<Line>>, open: seq<Line> := [], [];
    Nothing(size);
    for i := 0 to |lines|
      invariant oversized == Oversized(lines[..i], size)
      invariant Parts(Groups(Kept(lines[..i], size), size), full, open)
      invariant packets == Packets(full) && cur == Joined(open) && (|cur| > 0 <==> open != [])
    {
      var line := lines[i];
      ghost var kept := Kept(lines[..i], size);
      KeptNext(lines, i, size);
      if |line| == 0 { continue; }
      if |line| > size {
        oversized := oversized + 1;
        continue;
      }
      PlaceLine(kept, line, size, full, open);
      if |cur| > 0 && |cur| + 1 + |line| > size {
        PacketsLast(full, open);
        full, open := full + [open], [];
        packets, cur := packets + [cur], [];
      }
      JoinedLast(open, line);
      if |cur| > 0 { cur := cur + [NEWLINE]; }
      cur := cur + line;
      open := open + [line];
      assert [] + line == line && [] + [line] == [line];
    }
    assert lines[..|lines|] == lines;
    PacketsOfParts(Groups(Kept(lines, size), size), full, open);
    if |cur| > 0 { packets := packets + [cur]; }
  }

  lemma KeptNext(lines: seq<Line>, i: nat, size: int)
    requires i < |lines|
    ensures Kept(lines[..i + 1], size) ==
      if 0 < |lines[i]| <= size then Kept(lines[..i], size) + [lines[i]] else Kept(lines[..i], size)
    ensures Oversized(lines[..i + 1], size) ==
      Oversized(lines[..i], size) + if |lines[i]| > 0 && |lines[i]| > size then 1 else 0
  {
    assert lines[..i + 1][..i] == lines[..i];
  }

  lemma Nothing(size: int)
    ensures Groups([], size) == [] && Packets([]) == [] && Joined([]) == []
    ensures Kept([], size) == [] && Oversized([], size) == 0
    ensures Parts([], [], [])
  {
  }

  // ---- what the groups are ----

  function Flatten(gs: seq<seq<Line>>): seq<Line> {
    if gs == [] then [] else gs[0] + Flatten(gs[1..])
  }

  lemma {:induction false} FlattenLast(gs: seq<seq<Line>>, g: seq<Line>)
    ensures Flatten(gs + [g]) == Flatten(gs) + g
  {
    if gs == [] {
      assert [g][1..] == [] && Flatten([]) == [];
      assert gs + [g] == [g] && [] + g == g + [] == g;
    } else {
      assert (gs + [g])[1..] == gs[1..] + [g];
      FlattenLast(gs[1..], g);
      assert gs[0] + (Flatten(gs[1..]) + g) == gs[0] + Flatten(gs[1..]) + g;
    }
  }

  /** A way to send lines in this order in datagrams of at most `size` bytes. */
  predicate Grouping(gs: seq<seq<Line>>, lines: seq<Line>, size: int) {
    Flatten(gs) == lines && forall i :: 0 <= i < |gs| ==> gs[i] != [] && |Joined(gs[i])| <= size
  }

  /** No group has room for the first line of the next one. */
  predicate Maximal(gs: seq<seq<Line>>, size: int) {
    |gs| < 2 || (gs[1] != [] && |Joined(gs[0])| + 1 + |gs[1][0]| > size && Maximal(gs[1..], size))
  }

  lemma {:induction false} MaximalNext(gs: seq<seq<Line>>, g: seq<Line>, size: int)
    requires Maximal(gs, size) && g != []
    requires gs != [] ==> |Joined(gs[|gs| - 1])| + 1 + |g[0]| > size
    ensures Maximal(gs + [g], size)
  {
    hide Joined;
    if |gs| == 1 {
      assert (gs + [g])[1..] == [g];
    } else if |gs| > 1 {
      assert (gs + [g])[1..] == gs[1..] + [g];
      MaximalNext(gs[1..], g, size);
    }
  }

  lemma {:induction false} MaximalExtended(gs: seq<seq<Line>>, g: seq<Line>, l: Line, size: int)
    requires Maximal(gs + [g], size) && g != []
    ensures Maximal(gs + [g + [l]], size)
  {
    hide Joined;
    if gs != [] {
      assert (gs + [g])[1..] == gs[1..] + [g] && (gs + [g + [l]])[1..] == gs[1..] + [g + [l]];
      MaximalExtended(gs[1..], g, l, size);
    }
  }

  lemma {:induction false} GroupsAre(lines: seq<Line>, size: int)
    requires forall l :: l in lines ==> 0 < |l| <= size
    ensures Grouping(Groups(lines, size), lines, size) && Maximal(Groups(lines, size), size)
  {
    if lines != [] {
      var init, l := lines[..|lines| - 1], lines[|lines| - 1];
      assert lines == init + [l];
      assert 0 < |l| <= size;
      GroupsAre(init, size);
      GroupsLast(init, l, size);
      hide Groups, Joined, Flatten, Maximal;
      var gs := Groups(init, size);
      if gs == [] || |Joined(gs[|gs| - 1])| + 1 + |l| > size { NewGroup(gs, init, l, size); }
      else { OldGroup(gs, init, l, size); }
    }
  }

  lemma NewGroup(gs: seq<seq<Line>>, lines: seq<Line>, l: Line, size: int)
    requires Grouping(gs, lines, size) && Maximal(gs, size) && 0 < |l| <= size
    requires gs == [] || |Joined(gs[|gs| - 1])| + 1 + |l| > size
    ensures Grouping(gs + [[l]], lines + [l], size) && Maximal(gs + [[l]], size)
  {
    hide Joined, Flatten, Maximal;
    FlattenLast(gs, [l]);
    JoinedLast([], l);
    assert [] + [l] == [l];
    MaximalNext(gs, [l], size);
  }

  lemma OldGroup(gs: seq<seq<Line>>, lines: seq<Line>, l: Line, size: int)
    requires gs != [] && Grouping(gs, lines, size) && Maximal(gs, size)
    requires |Joined(gs[|gs| - 1])| + 1 + |l| <= size
    ensures var hs := gs[..|gs| - 1] + [gs[|gs| - 1] + [l]]; Grouping(hs, lines + [l], size) && Maximal(hs, size)
  {
    hide Joined, Flatten, Maximal;
    var front, last := gs[..|gs| - 1], gs[|gs| - 1];
    assert gs == front + [last];
    FlattenLast(front, last);
    FlattenLast(front, last + [l]);
    assert Flatten(front) + (last + [l]) == Flatten(front) + last + [l];
    JoinedLast(last, l);
    MaximalExtended(front, last, l, size);
  }

  // ---- the fewest datagrams ----

  lemma {:induction false} PrefixIsShorter(g: seq<Line>, j: nat)
    requires 0 < j <= |g|
    ensures |Joined(g[..j])| <= |Joined(g)|
    decreases |g|
  {
    hide Joined;
    if j == |g| {
      assert g[..j] == g;
    } else {
      var init := g[..|g| - 1];
      assert g == init + [g[|g| - 1]] && init[..j] == g[..j];
      JoinedLast(init, g[|g| - 1]);
      PrefixIsShorter(init, j);
    }
  }

  lemma {:induction false} SuffixIsShorter(g: seq<Line>, i: nat)
    requires i < |g|
    ensures |Joined(g[i..])| <= |Joined(g)|
    decreases |g|
  {
    hide Joined;
    var init, l := g[..|g| - 1], g[|g| - 1];
    assert g == init + [l] && g[i..] == init[i..] + [l];
    JoinedLast(init, l);
    JoinedLast(init[i..], l);
    if i < |init| { SuffixIsShorter(init, i); }
  }

  /** Greedy stays ahead: whatever rest of the lines it still has to place, it needs no more groups than are left. */
  lemma {:induction false} StaysAhead(gs: seq<seq<Line>>, hs: seq<seq<Line>>, lines: seq<Line>, k: nat, size: int)
    requires k <= |lines| && Grouping(hs, lines, size)
    requires Grouping(gs, lines[k..], size) && Maximal(gs, size)
    ensures |gs| <= |hs|
    decreases |hs|
  {
    hide Joined;
    if gs != [] {
      if hs == [] { assert false; }
      var h, rest := hs[0], Flatten(hs[1..]);
      assert lines == h + rest;
      assert Grouping(hs[1..], rest, size);
      if k >= |h| {
        assert lines[k..] == rest[k - |h|..];
        StaysAhead(gs, hs[1..], rest, k - |h|, size);
      } else {
        var g := gs[0];
        FillsUp(gs, h, rest, k, size);
        DropBoth(g, Flatten(gs[1..]), h, rest, k);
        assert Grouping(gs[1..], rest[k + |g| - |h|..], size);
        StaysAhead(gs[1..], hs[1..], rest, k + |g| - |h|, size);
      }
    }
  }

  lemma DropBoth(g: seq<Line>, after: seq<Line>, h: seq<Line>, rest: seq<Line>, k: nat)
    requires k < |h| <= k + |g| && g + after == (h + rest)[k..]
    ensures k + |g| - |h| <= |rest| && after == rest[k + |g| - |h|..]
  {
    assert |g + after| == |h + rest| - k;
    assert after == (g + after)[|g|..];
    assert (h + rest)[k..][|g|..] == (h + rest)[k + |g|..] == rest[k + |g| - |h|..];
  }

  /** The first greedy group covers what is left of the other grouping's first group. */
  lemma FillsUp(gs: seq<seq<Line>>, h: seq<Line>, rest: seq<Line>, k: nat, size: int)
    requires gs != [] && k < |h| && |Joined(h)| <= size && gs[0] != []
    requires gs[0] + Flatten(gs[1..]) == (h + rest)[k..] && Maximal(gs, size)
    ensures k + |gs[0]| >= |h|
  {
    hide Joined;
    var g := gs[0];
    if k + |g| < |h| {
      assert |g + Flatten(gs[1..])| == |h + rest| - k;
      assert |gs| > 1;
      assert gs[1..][0] == gs[1];
      var next := gs[1][0];
      assert Flatten(gs[1..])[0] == next;
      assert (g + Flatten(gs[1..]))[..|g| + 1] == g + [next];
      assert h[k..][..|g| + 1] == (h + rest)[k..][..|g| + 1];
      PrefixIsShorter(h[k..], |g| + 1);
      SuffixIsShorter(h, k);
      JoinedLast(g, next);
    }
  }

  // ---- splitting a datagram ----

  /** The lines of a datagram, as a receiver splits it at newlines. */
  function Split(p: Line): (r: seq<Line>)
    ensures |r| > 0
  {
    if p == [] then [[]]
    else
      var r := Split(p[..|p| - 1]);
      var b := p[|p| - 1];
      if b == NEWLINE then r + [[]] else r[|r| - 1 := r[|r| - 1] + [b]]
  }

  lemma SplitByte(p: Line, b: Byte)
    ensures Split(p + [b]) == var r := Split(p); if b == NEWLINE then r + [[]] else r[..|r| - 1] + [r[|r| - 1] + [b]]
  {
    assert (p + [b])[..|p + [b]| - 1] == p;
  }

  lemma {:induction false} SplitAppend(p: Line, l: Line)
    requires NEWLINE !in l
    ensures var r := Split(p); Split(p + l) == r[..|r| - 1] + [r[|r| - 1] + l]
    decreases |l|
  {
    hide Split;
    var r := Split(p);
    if l == [] {
      assert p + l == p && r[|r| - 1] + l == r[|r| - 1];
    } else {
      var init, b := l[..|l| - 1], l[|l| - 1];
      SplitAppend(p, init);
      SplitByte(p + init, b);
      assert p + l == p + init + [b];
      assert r[|r| - 1] + l == r[|r| - 1] + init + [b];
    }
  }

  predicate PlainLines(g: seq<Line>) {
    forall l :: l in g ==> NEWLINE !in l
  }

  /** Splitting a datagram at newlines gives back the lines that were joined. */
  lemma {:induction false} SplitJoined(g: seq<Line>)
    requires g != [] && PlainLines(g)
    ensures Split(Joined(g)) == g
    decreases |g|
  {
    var init, l := g[..|g| - 1], g[|g| - 1];
    assert g == init + [l];
    JoinedLast(init, l);
    assert [] + l == l;
    if init == [] {
      SplitAppend([], l);
    } else {
      assert forall x :: x in init ==> x in g;
      SplitJoined(init);
      hide Split, Joined;
      SplitByte(Joined(init), NEWLINE);
      SplitAppend(Joined(init) + [NEWLINE], l);
      assert (init + [[]])[..|init + [[]]| - 1] == init;
    }
  }

  /** All lines of all datagrams. */
  function SplitAll(packets: seq<Line>): seq<Line> {
    if packets == [] then [] else SplitAll(packets[..|packets| - 1]) + Split(packets[|packets| - 1])
  }

  lemma {:induction false} SplitPackets(gs: seq<seq<Line>>)
    requires forall g :: g in gs ==> g != [] && PlainLines(g)
    ensures SplitAll(Packets(gs)) == Flatten(gs)
  {
    if gs != [] {
      var init, g := gs[..|gs| - 1], gs[|gs| - 1];
      assert gs == init + [g];
      assert forall x :: x in init ==> x in gs;
      SplitPackets(init);
      PacketsLast(init, g);
      FlattenLast(init, g);
      assert g in gs;
      SplitJoined(g);
      hide Split, Joined, Packets;
      var ps := Packets(init);
      assert (ps + [Joined(g)])[..|ps + [Joined(g)]| - 1] == ps;
    }
  }

  lemma {:induction false} InFlatten(gs: seq<seq<Line>>, g: seq<Line>, l: Line)
    requires g in gs && l in g
    ensures l in Flatten(gs)
  {
    if g != gs[0] { InFlatten(gs[1..], g, l); }
  }

  // ---- what packetize promises ----

  /** The datagrams split back into exactly the lines that fit, in order. */
  lemma NothingIsLost(lines: seq<Line>, size: int)
    requires PlainLines(lines)
    ensures SplitAll(Packets(Groups(Kept(lines, size), size))) == Kept(lines, size)
  {
    var kept := Kept(lines, size);
    var gs := Groups(kept, size);
    GroupsAre(kept, size);
    forall g | g in gs ensures g != [] && PlainLines(g) {
      forall l | l in g ensures NEWLINE !in l { InFlatten(gs, g, l); }
    }
    SplitPackets(gs);
  }

  lemma {:induction false} PacketsAre(gs: seq<seq<Line>>, i: nat)
    ensures |Packets(gs)| == |gs|
    ensures i < |gs| ==> Packets(gs)[i] == Joined(gs[i])
  {
    if gs != [] { PacketsAre(gs[..|gs| - 1], i); }
  }

  /** Every datagram is non-empty and within the size. */
  lemma PacketsFit(lines: seq<Line>, size: int, i: nat)
    requires i < |Packets(Groups(Kept(lines, size), size))|
    ensures 0 < |Packets(Groups(Kept(lines, size), size))[i]| <= size
  {
    var kept := Kept(lines, size);
    var gs := Groups(kept, size);
    GroupsAre(kept, size);
    PacketsAre(gs, i);
    InFlatten(gs, gs[i], gs[i][0]);
    PrefixIsShorter(gs[i], 1);
    JoinedLast([], gs[i][0]);
    assert gs[i][..1] == [gs[i][0]];
  }

  /** No way of sending these lines in order uses fewer datagrams. */
  lemma FewestPackets(lines: seq<Line>, size: int, other: seq<seq<Line>>)
    requires Grouping(other, Kept(lines, size), size)
    ensures |Packets(Groups(Kept(lines, size), size))| <= |other|
  {
    var kept := Kept(lines, size);
    GroupsAre(kept, size);
    assert kept[0..] == kept;
    StaysAhead(Groups(kept, size), other, kept, 0, size);
    PacketsAre(Groups(kept, size), 0);
  }
}
