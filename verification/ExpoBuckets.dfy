/**
 One range of an exponential histogram as a value, and its canonical form: the range that
 a multiset of observed indexes determines at a given number of downscalings.
 */
module ExpoBuckets {
  import opened ExpoIndex

  /** A run of neighbouring buckets; the first one has index `offset`. */
  datatype Buckets = Buckets(offset: int, counts: seq<nat>)

  function At(b: Buckets, i: int): nat {
    if b.offset <= i < b.offset + |b.counts| then b.counts[i - b.offset] else 0
  }

  // ---- Observed indexes ----

  /** n observations whose index at the starting scale is `index`. */
  datatype Entry = Entry(index: int, n: nat)

  predicate Positive(es: seq<Entry>) {
    forall i :: 0 <= i < |es| ==> es[i].n > 0
  }

  /** How many observations have index j after k downscalings. */
  function Weight(es: seq<Entry>, k: nat, j: int): nat {
    if es == [] then 0
    else
      var e := es[|es| - 1];
      Weight(es[..|es| - 1], k, j) + (if Shr(e.index, k) == j then e.n else 0)
  }

  function Low(es: seq<Entry>): int
    requires es != []
  {
    var x := es[|es| - 1].index;
    if |es| == 1 then x else if Low(es[..|es| - 1]) < x then Low(es[..|es| - 1]) else x
  }

  function High(es: seq<Entry>): int
    requires es != []
  {
    var x := es[|es| - 1].index;
    if |es| == 1 then x else if High(es[..|es| - 1]) > x then High(es[..|es| - 1]) else x
  }

  /** The range that holds es after k downscalings: from the least to the greatest index, nothing more. */
  function Canon(es: seq<Entry>, k: nat): (b: Buckets) {
    if es == [] then Buckets(0, [])
    else
      var first, last := Shr(Low(es), k), Shr(High(es), k);
      Buckets(first, seq<nat>(if first <= last then last - first + 1 else 0, i => Weight(es, k, first + i)))
  }

  // ---- The three operations on a range ----

  function Bumped(b: Buckets, index: int, n: nat, j: int): nat {
    At(b, j) + (if j == index then n else 0)
  }

  /** add: the range with weight n added at one index, wide enough for it. */
  function Added(b: Buckets, index: int, n: nat): (r: Buckets) {
    if b.counts == [] then Buckets(index, [n])
    else
      var first := if index < b.offset then index else b.offset;
      var end := if index >= b.offset + |b.counts| then index + 1 else b.offset + |b.counts|;
      Buckets(first, seq<nat>(end - first, i => Bumped(b, index, n, first + i)))
  }

  /** The buckets of a range as observations at the range's own scale. */
  function EntriesOf(b: Buckets): (es: seq<Entry>)
    ensures |es| == |b.counts|
    ensures forall i :: 0 <= i < |es| ==> es[i] == Entry(b.offset + i, b.counts[i])
    decreases |b.counts|
  {
    if b.counts == [] then []
    else
      var n := |b.counts| - 1;
      EntriesOf(Buckets(b.offset, b.counts[..n])) + [Entry(b.offset + n, b.counts[n])]
  }

  /** downscale: the range of the same weights after `change` halvings of every index. */
  function Downscaled(b: Buckets, change: nat): (r: Buckets) {
    if b.counts == [] then b
    else
      var first, last := Shr(b.offset, change), Shr(b.offset + |b.counts| - 1, change);
      Buckets(first,
        seq<nat>(if first <= last then last - first + 1 else 0, i => Weight(EntriesOf(b), change, first + i)))
  }

  // ---- Weights ----

  lemma {:induction false} LowHigh(es: seq<Entry>, k: nat)
    requires es != []
    ensures Low(es) <= High(es) && Shr(Low(es), k) <= Shr(High(es), k)
    ensures forall i :: 0 <= i < |es| ==> Low(es) <= es[i].index <= High(es)
    decreases |es|
  {
    if |es| > 1 { LowHigh(es[..|es| - 1], k); }
    ShrMonotone(Low(es), High(es), k);
  }

  lemma {:induction false} NothingOutside(es: seq<Entry>, k: nat, j: int)
    requires es != [] && (j < Shr(Low(es), k) || Shr(High(es), k) < j)
    ensures Weight(es, k, j) == 0
    decreases |es|
  {
    var x := es[|es| - 1].index;
    LowHigh(es, k);
    ShrMonotone(Low(es), x, k);
    ShrMonotone(x, High(es), k);
    if |es| > 1 {
      var rest := es[..|es| - 1];
      LowHigh(rest, k);
      ShrMonotone(Low(es), Low(rest), k);
      ShrMonotone(High(rest), High(es), k);
      NothingOutside(rest, k, j);
    }
  }

  lemma {:induction false} EndsAreCounted(es: seq<Entry>, k: nat)
    requires es != [] && Positive(es)
    ensures Weight(es, k, Shr(Low(es), k)) > 0 && Weight(es, k, Shr(High(es), k)) > 0
    decreases |es|
  {
    if |es| > 1 { EndsAreCounted(es[..|es| - 1], k); }
  }

  lemma {:induction false} WeightHalves(es: seq<Entry>, k: nat, j: int)
    ensures Weight(es, k + 1, j) == Weight(es, k, 2 * j) + Weight(es, k, 2 * j + 1)
    decreases |es|
  {
    if es != [] {
      WeightHalves(es[..|es| - 1], k, j);
      ShrLast(es[|es| - 1].index, k);
    }
  }

  /** Two lists of observations look the same after ka and kb downscalings. */
  ghost predicate Alike(a: seq<Entry>, ka: nat, b: seq<Entry>, kb: nat) {
    forall j :: Weight(a, ka, j) == Weight(b, kb, j)
  }

  /** What looks the same keeps looking the same under further downscaling. */
  lemma {:induction false} AlikeShift(a: seq<Entry>, ka: nat, b: seq<Entry>, kb: nat, c: nat)
    requires Alike(a, ka, b, kb)
    ensures Alike(a, ka + c, b, kb + c)
    decreases c
  {
    if c > 0 {
      AlikeShift(a, ka, b, kb, c - 1);
      var ja, jb := ka + c, kb + c;
      forall j ensures Weight(a, ja, j) == Weight(b, jb, j) {
        WeightHalves(a, ka + c - 1, j);
        WeightHalves(b, kb + c - 1, j);
      }
    }
  }

  lemma AlikeLowHigh(a: seq<Entry>, ka: nat, b: seq<Entry>, kb: nat)
    requires Alike(a, ka, b, kb) && a != [] && b != [] && Positive(a)
    ensures Shr(Low(b), kb) <= Shr(Low(a), ka) && Shr(High(a), ka) <= Shr(High(b), kb)
  {
    EndsAreCounted(a, ka);
    assert Weight(b, kb, Shr(Low(a), ka)) > 0 && Weight(b, kb, Shr(High(a), ka)) > 0;
    if Shr(Low(a), ka) < Shr(Low(b), kb) { NothingOutside(b, kb, Shr(Low(a), ka)); }
    if Shr(High(b), kb) < Shr(High(a), ka) { NothingOutside(b, kb, Shr(High(a), ka)); }
  }

  lemma AlikeEmpty(a: seq<Entry>, ka: nat, kb: nat)
    requires Alike(a, ka, [], kb) && Positive(a)
    ensures a == []
  {
    if a != [] {
      EndsAreCounted(a, ka);
      var w := Weight([], kb, Shr(Low(a), ka));
    }
  }

  /** The canonical range depends only on the weights. */
  lemma AlikeCanon(a: seq<Entry>, ka: nat, b: seq<Entry>, kb: nat)
    requires Alike(a, ka, b, kb) && Positive(a) && Positive(b)
    ensures Canon(a, ka) == Canon(b, kb)
    ensures a == [] <==> b == []
    ensures a != [] ==> Shr(Low(a), ka) == Shr(Low(b), kb) && Shr(High(a), ka) == Shr(High(b), kb)
  {
    if a == [] {
      assert Alike(b, kb, [], ka);
      AlikeEmpty(b, kb, ka);
    } else if b == [] {
      AlikeEmpty(a, ka, kb);
    } else {
      AlikeLowHigh(a, ka, b, kb);
      assert Alike(b, kb, a, ka);
      AlikeLowHigh(b, kb, a, ka);
      assert Canon(a, ka).counts == Canon(b, kb).counts;
    }
  }

  // ---- The operations act on canonical ranges as they should ----

  lemma AtCanon(es: seq<Entry>, k: nat, j: int)
    ensures At(Canon(es, k), j) == Weight(es, k, j)
  {
    if es != [] {
      LowHigh(es, k);
      if j < Shr(Low(es), k) || Shr(High(es), k) < j { NothingOutside(es, k, j); }
    }
  }

  lemma LowHighAppend(es: seq<Entry>, e: Entry, k: nat)
    requires es != []
    ensures var all := es + [e];
            && Shr(Low(all), k) == (if Shr(e.index, k) < Shr(Low(es), k) then Shr(e.index, k) else Shr(Low(es), k))
            && Shr(High(all), k) == (if Shr(e.index, k) > Shr(High(es), k) then Shr(e.index, k) else Shr(High(es), k))
  {
    var all := es + [e];
    assert all[..|all| - 1] == es;
    if Low(es) < e.index { ShrMonotone(Low(es), e.index, k); } else { ShrMonotone(e.index, Low(es), k); }
    if High(es) > e.index { ShrMonotone(e.index, High(es), k); } else { ShrMonotone(High(es), e.index, k); }
  }

  lemma WeightAppend(es: seq<Entry>, e: Entry, k: nat, j: int)
    ensures Weight(es + [e], k, j) == Weight(es, k, j) + (if Shr(e.index, k) == j then e.n else 0)
  {
    assert (es + [e])[..|es|] == es;
  }

  lemma AddFirst(e: Entry, k: nat)
    ensures Canon([e], k) == Buckets(Shr(e.index, k), [e.n])
  {
    WeightAppend([], e, k, Shr(e.index, k));
    assert [] + [e] == [e];
    assert Canon([e], k).counts == [e.n];
  }

  lemma AddNext(es: seq<Entry>, e: Entry, k: nat)
    requires es != []
    ensures Added(Canon(es, k), Shr(e.index, k), e.n) == Canon(es + [e], k)
  {
    LowHigh(es, k);
    LowHigh(es + [e], k);
    LowHighAppend(es, e, k);
    var a, c := Added(Canon(es, k), Shr(e.index, k), e.n), Canon(es + [e], k);
    assert a.offset == c.offset && |a.counts| == |c.counts|;
    forall i | 0 <= i < |a.counts| ensures a.counts[i] == c.counts[i] {
      var j := a.offset + i;
      AtCanon(es, k, j);
      WeightAppend(es, e, k, j);
      assert a.counts[i] == Bumped(Canon(es, k), Shr(e.index, k), e.n, j);
      assert c.counts[i] == Weight(es + [e], k, j);
    }
  }

  /** Recording index x, seen at the current scale as Shr(x, k), extends the canonical range by x. */
  lemma AddCanon(es: seq<Entry>, k: nat, x: int, n: nat)
    ensures Added(Canon(es, k), Shr(x, k), n) == Canon(es + [Entry(x, n)], k)
  {
    if es == [] {
      assert es + [Entry(x, n)] == [Entry(x, n)];
      AddFirst(Entry(x, n), k);
    } else {
      AddNext(es, Entry(x, n), k);
    }
  }

  lemma {:induction false} WeightOfBuckets(b: Buckets, j: int)
    ensures Weight(EntriesOf(b), 0, j) == At(b, j)
    decreases |b.counts|
  {
    if b.counts != [] {
      var n := |b.counts| - 1;
      var rest := Buckets(b.offset, b.counts[..n]);
      WeightOfBuckets(rest, j);
      assert EntriesOf(b)[..n] == EntriesOf(rest);
    }
  }

  /** Downscaling the canonical range gives the canonical range at the lower scale. */
  lemma DownscaleCanon(es: seq<Entry>, k: nat, c: nat)
    requires Positive(es)
    ensures Downscaled(Canon(es, k), c) == Canon(es, k + c)
  {
    if es != [] {
      var b := Canon(es, k);
      LowHigh(es, k);
      LowHigh(es, k + c);
      ShrCompose(Low(es), k, c);
      ShrCompose(High(es), k, c);
      assert Alike(EntriesOf(b), 0, es, k) by {
        forall j ensures Weight(EntriesOf(b), 0, j) == Weight(es, k, j) {
          WeightOfBuckets(b, j);
          AtCanon(es, k, j);
        }
      }
      AlikeShift(EntriesOf(b), 0, es, k, c);
      assert Downscaled(b, c).counts == Canon(es, k + c).counts;
    }
  }
}
