/**
 The ring buffer as the object its callers see when calls do not overlap: the same
 slots, sequence numbers and branches, with Contents() as its abstract value.
 */
module RingBuffer {
  import opened RingMachine
  import opened RingInvariant
  import opened RingCapacity
  import opened Options

  datatype Attempt = Retry | Pushed | Rejected

  class Buffer {
    const cap: nat
    const mask: nat
    const seqno: array<nat>
    const items: array<Option<Item>>
    var writePos: nat
    var readPos: nat
    ghost var contents: seq<Item>  // the buffered items, oldest first

    ghost predicate Valid()
      reads this, seqno, items
    {
      && 2 <= cap && PowerOfTwo(cap) && mask == cap - 1 && seqno.Length == cap && items.Length == cap
      && readPos <= writePos <= readPos + cap && |contents| == writePos - readPos
      && (forall p: nat :: readPos <= p < writePos ==>
            seqno[Lane(cap, p)] == p + 1 && items[Lane(cap, p)] == Some(contents[p - readPos]))
      && (forall p: nat :: writePos <= p < readPos + cap ==> seqno[Lane(cap, p)] == p)
    }

    constructor (requested: int)
      requires requested < Pow2(63)
      ensures Valid() && cap == RingSize(requested) && contents == [] && fresh(seqno) && fresh(items)
    {
      hide RingSize, Pow2, PowerOfTwo;
      var capacity := RingSize(requested);
      RingSizeIs(requested);
      cap, mask := capacity, capacity - 1;
      seqno := new nat[capacity](i => i);
      items := new Option<Item>[capacity](i => None);
      writePos, readPos, contents := 0, 0, [];
    }

    lemma DistinctSlots(p: nat, q: nat)
      requires 0 < cap && readPos <= p < readPos + cap && readPos <= q <= readPos + cap
      ensures Lane(cap, p) == Lane(cap, q) <==> p == q || q == p + cap
    {
      NextLap(cap, p);
      if Lane(cap, p) == Lane(cap, q) && q < readPos + cap {
        if p <= q { CongruentPositions(cap, p, q); } else { CongruentPositions(cap, q, p); }
      } else if Lane(cap, p) == Lane(cap, q) && p != readPos {
        NextLap(cap, readPos);
        CongruentPositions(cap, readPos, p);
      }
    }

    lemma MaskedSlot(p: nat)
      requires PowerOfTwo(cap) && cap > 0 && mask == cap - 1
      ensures And(p, mask) == Lane(cap, p)
    {
      hide And, Pow2;
      var k: nat :| cap == Pow2(k);
      MaskIsLane(k, p);
    }

    lemma SlotsOfLap(q: nat)
      requires 0 < cap && readPos <= q <= readPos + cap
      ensures forall p: nat :: readPos <= p < readPos + cap ==>
        (Lane(cap, p) == Lane(cap, q) <==> p == q || q == p + cap)
    {
      forall p: nat | readPos <= p < readPos + cap
        ensures Lane(cap, p) == Lane(cap, q) <==> p == q || q == p + cap
      {
        DistinctSlots(p, q);
      }
    }

    method PushAt(w: nat, item: Item) returns (result: Attempt)
      requires Valid() && w == writePos < readPos + cap
      modifies this, seqno, items
      ensures Valid() && readPos == old(readPos)
      ensures result == Pushed && contents == old(contents) + [item]
    {
      hide And, PowerOfTwo;
      SlotsOfLap(w);
      MaskedSlot(w);
      var i := And(w, mask);
      var q := seqno[i];
      if q < w { return Rejected; }
      if q == w {
        writePos := w + 1;
        items[i] := Some(item);
        seqno[i] := w + 1;
        contents := contents + [item];
        return Pushed;
      }
      return Retry;
    }

    method ReplaceOldest(r: nat, w: nat, item: Item) returns (result: Attempt, evicted: Option<Item>)
      requires Valid() && r == readPos && w == writePos == r + cap
      modifies this, seqno, items
      ensures Valid() && result == Pushed
      ensures evicted == Some(old(contents)[0]) && contents == old(contents)[1..] + [item]
    {
      hide And, PowerOfTwo;
      SlotsOfLap(r);
      MaskedSlot(r);
      var i := And(r, mask);
      var q := seqno[i];
      if q <= r { return Rejected, None; }
      if q != r + 1 || w != r + cap { return Retry, None; }
      seqno[i] := r;
      readPos := r + 1;
      evicted := items[i];
      writePos := w + 1;
      items[i] := Some(item);
      seqno[i] := w + 1;
      contents := contents[1..] + [item];
      NextLap(cap, r);
      return Pushed, evicted;
    }

    /** Without overlapping calls a push is refused exactly when the item is nil or the buffer is full. */
    method Push(item: Option<Item>) returns (ok: bool)
      requires Valid()
      modifies this, seqno, items
      ensures Valid() && ok == (item.Some? && |old(contents)| < cap)
      ensures contents == if ok then old(contents) + [item.value] else old(contents)
    {
      if item.None? { return false; }
      var result := Retry;
      while result == Retry
        invariant Valid()
        invariant result == Retry ==> contents == old(contents)
        invariant result == Pushed ==> |old(contents)| < cap && contents == old(contents) + [item.value]
        invariant result == Rejected ==> |old(contents)| >= cap && contents == old(contents)
        decreases result == Retry
      {
        var r, w := readPos, writePos;
        result := Rejected;
        if w - r < cap { result := PushAt(w, item.value); }
      }
      return result == Pushed;
    }

    /** Without overlapping calls the item is always taken, and the oldest one goes exactly when the buffer is full. */
    method PushDropOldest(item: Option<Item>) returns (evicted: Option<Item>, ok: bool)
      requires Valid()
      modifies this, seqno, items
      ensures Valid() && ok == item.Some?
      ensures !ok ==> evicted == None && contents == old(contents)
      ensures ok && |old(contents)| < cap ==> evicted == None && contents == old(contents) + [item.value]
      ensures ok && |old(contents)| == cap ==>
        evicted == Some(old(contents)[0]) && contents == old(contents)[1..] + [item.value]
    {
      if item.None? { return None, false; }
      var result := Retry;
      evicted := None;
      while result == Retry
        invariant Valid() && result != Rejected
        invariant result == Retry ==> contents == old(contents) && evicted == None
        invariant result == Pushed && |old(contents)| < cap ==>
          evicted == None && contents == old(contents) + [item.value]
        invariant result == Pushed && |old(contents)| == cap ==>
          evicted == Some(old(contents)[0]) && contents == old(contents)[1..] + [item.value]
        decreases result == Retry
      {
        var r, w := readPos, writePos;
        if w - r < cap {
          result := PushAt(w, item.value);
        } else {
          result, evicted := ReplaceOldest(r, w, item.value);
        }
      }
      return evicted, true;
    }

    method TakeAt(r: nat) returns (item: Option<Item>)
      requires Valid() && r == readPos < writePos
      modifies this, seqno, items
      ensures Valid() && item == Some(old(contents)[0]) && contents == old(contents)[1..]
    {
      hide And, PowerOfTwo;
      SlotsOfLap(r);
      MaskedSlot(r);
      var i := And(r, mask);
      readPos := r + 1;
      item := items[i];
      items[i] := None;
      seqno[i] := r + cap;
      contents := contents[1..];
      NextLap(cap, r);
    }

    /** Without overlapping calls Pop and TryPop agree: both take the oldest item. */
    method PopItem(waitForWriter: bool) returns (item: Option<Item>)
      requires Valid()
      modifies this, seqno, items
      ensures Valid()
      ensures old(contents) == [] ==> item == None && contents == []
      ensures old(contents) != [] ==> item == Some(old(contents)[0]) && contents == old(contents)[1..]
    {
      hide And, PowerOfTwo;
      var done := false;
      item := None;
      while !done
        invariant Valid()
        invariant !done ==> contents == old(contents)
        invariant done && old(contents) == [] ==> item == None && contents == []
        invariant done && old(contents) != [] ==> item == Some(old(contents)[0]) && contents == old(contents)[1..]
        decreases !done
      {
        var r := readPos;
        if r >= writePos { return None; }
        MaskedSlot(r);
        var q := seqno[And(r, mask)];
        if q <= r {
          if !waitForWriter { return None; }
        } else if q == r + 1 {
          item := TakeAt(r);
          done := true;
        }
      }
    }

    /** The first min(maxItems, length) items, in order. */
    method PopBatch(maxItems: int) returns (batch: seq<Item>)
      requires Valid()
      modifies this, seqno, items
      ensures Valid() && old(contents) == batch + contents
      ensures |batch| == if maxItems <= 0 then 0 else if maxItems < |old(contents)| then maxItems else |old(contents)|
    {
      batch := [];
      if maxItems <= 0 { return; }
      var i := 0;
      while i < maxItems
        invariant Valid() && 0 <= i <= maxItems && |batch| == i && old(contents) == batch + contents
      {
        var item := PopItem(true);
        if item.None? { break; }
        batch := batch + [item.value];
        i := i + 1;
      }
    }
  }
}
