/**
 The per-metric series limit: the state a metric name keeps, the locked sections of admit, commit and
 release as functions of that state, and the class that performs them in place.
 */
module Cardinality {

  const DEFAULT_MAX_CARDINALITY := 2000

  type Key = nat      // attribute.Distinct, the identity of an attribute set

  datatype Series = Series(admitted: set<Key>, reserved: map<Key, int>, count: int)

  /** What admit answers: the series was known, it now holds a reservation, or it was refused. */
  datatype Verdict = Known | Reserves | Refuses

  const EMPTY := Series({}, map[], 0)

  /** A Go map read: a missing key reads as zero. */
  function Outstanding(reserved: map<Key, int>, k: Key): int {
    if k in reserved then reserved[k] else 0
  }

  function Limit(limit: int): int {
    if limit <= 0 then DEFAULT_MAX_CARDINALITY else limit
  }

  /** The locked section of admit. */
  function Admitted(x: Series, k: Key, limit: int): (Series, Verdict) {
    if k in x.admitted then (x, Known)
    else if Outstanding(x.reserved, k) == 0 && x.count >= Limit(limit) then (x, Refuses)
    else
      var count := if Outstanding(x.reserved, k) == 0 then x.count + 1 else x.count;
      (x.(count := count, reserved := x.reserved[k := Outstanding(x.reserved, k) + 1]), Reserves)
  }

  function Unreserved(x: Series, k: Key): Series {
    var n := Outstanding(x.reserved, k) - 1;
    x.(reserved := if n == 0 then x.reserved - {k} else x.reserved[k := n])
  }

  /** The first half of commit: from here on lock-free readers see the series. */
  function Stored(x: Series, k: Key): Series {
    x.(admitted := x.admitted + {k})
  }

  function Committed(x: Series, k: Key): Series {
    Unreserved(Stored(x, k), k)
  }

  function Released(x: Series, k: Key): Series {
    var y := Unreserved(x, k);
    if k !in y.admitted && Outstanding(y.reserved, k) == 0 then y.(count := y.count - 1) else y
  }

  /** The bookkeeping is right and within the limit. */
  predicate Sound(x: Series, limit: int) {
    && x.count == |x.admitted + x.reserved.Keys| <= Limit(limit)
    && forall k :: k in x.reserved ==> x.reserved[k] > 0
  }

  lemma AddsOne(a: set<Key>, k: Key)
    ensures |a + {k}| == if k in a then |a| else |a| + 1
  {
    if k in a { assert a + {k} == a; }
  }

  /**
   A slot is taken exactly by the first of several outstanding observations, and refused exactly when none is left.
   */
  lemma AdmittedSound(x: Series, k: Key, limit: int)
    requires Sound(x, limit)
    ensures Sound(Admitted(x, k, limit).0, limit)
    ensures Admitted(x, k, limit).1.Refuses? <==> k !in x.admitted + x.reserved.Keys && x.count >= Limit(limit)
    ensures Admitted(x, k, limit).1.Known? <==> k in x.admitted
    ensures Admitted(x, k, limit).0.admitted == x.admitted
    ensures forall j :: Outstanding(Admitted(x, k, limit).0.reserved, j) ==
              Outstanding(x.reserved, j) + if j == k && Admitted(x, k, limit).1.Reserves? then 1 else 0
  {
    AddsOne(x.admitted + x.reserved.Keys, k);
    var y := Admitted(x, k, limit).0;
    if y.reserved != x.reserved {
      assert y.reserved.Keys == x.reserved.Keys + {k};
      assert y.admitted + y.reserved.Keys == x.admitted + x.reserved.Keys + {k};
    }
  }

  lemma AdmittedStaysSound(x: Series, k: Key, limit: int)
    requires Sound(x, limit)
    ensures Sound(Admitted(x, k, limit).0, limit)
    ensures Admitted(x, k, limit).1.Refuses? <==> !(k in x.admitted || k in x.reserved || x.count < Limit(limit))
  {
    hide Sound;
    AdmittedSound(x, k, limit);
  }

  lemma UnreservedKeys(x: Series, k: Key)
    requires k in x.reserved && forall j :: j in x.reserved ==> x.reserved[j] > 0
    ensures var y := Unreserved(x, k);
            && (y.reserved.Keys == x.reserved.Keys || (y.reserved.Keys == x.reserved.Keys - {k} && x.reserved[k] == 1))
            && (k in y.reserved <==> x.reserved[k] > 1)
            && (forall j :: j in y.reserved ==> y.reserved[j] > 0)
            && (forall j :: Outstanding(y.reserved, j) == Outstanding(x.reserved, j) - if j == k then 1 else 0)
  {
    var y := Unreserved(x, k);
    if x.reserved[k] > 1 { assert y.reserved.Keys == x.reserved.Keys; }
    else { assert y.reserved.Keys == x.reserved.Keys - {k}; }
  }

  /** Storing moves a reserved series to the admitted ones without a new slot. */
  lemma StoredSound(x: Series, k: Key, limit: int)
    requires Sound(x, limit) && k in x.reserved
    ensures Sound(Stored(x, k), limit)
  {
    assert x.admitted + {k} + x.reserved.Keys == x.admitted + x.reserved.Keys;
  }

  lemma SettledSound(x: Series, k: Key, limit: int)
    requires Sound(x, limit) && k in x.reserved && k in x.admitted
    ensures Sound(Unreserved(x, k), limit)
  {
    UnreservedKeys(x, k);
    assert Unreserved(x, k).admitted + Unreserved(x, k).reserved.Keys == x.admitted + x.reserved.Keys;
  }

  lemma ReleasedSound(x: Series, k: Key, limit: int)
    requires Sound(x, limit) && k in x.reserved
    ensures Sound(Released(x, k), limit)
  {
    UnreservedKeys(x, k);
    var y := Unreserved(x, k);
    var all := x.admitted + x.reserved.Keys;
    if k in y.admitted || k in y.reserved {
      assert y.admitted + y.reserved.Keys == all;
    } else {
      assert y.admitted + y.reserved.Keys == all - {k};
      AddsOne(all - {k}, k);
      assert all - {k} + {k} == all;
    }
  }

  /** metricSeries: its methods are the critical sections of admit, commit and release. */
  class MetricSeries {
    var admitted: set<Key>
    var reserved: map<Key, int>
    var count: int

    constructor ()
      ensures Value() == EMPTY
    {
      admitted, reserved, count := {}, map[], 0;
    }

    function Value(): Series
      reads this
    {
      Series(admitted, reserved, count)
    }

    /** admit from the lookup of the series on; `slot` says the admission must be committed or released. */
    method Admit(key: Key, limit: int) returns (ok: bool, slot: bool)
      requires Sound(Value(), limit)
      modifies this
      ensures Sound(Value(), limit)
      ensures Value() == Admitted(old(Value()), key, limit).0
      ensures ok == !Admitted(old(Value()), key, limit).1.Refuses?
      ensures slot == Admitted(old(Value()), key, limit).1.Reserves?
      ensures ok <==> key in old(admitted) || key in old(reserved) || old(count) < Limit(limit)
    {
      hide Sound;
      AdmittedStaysSound(Value(), key, limit);
      var max := limit;
      if max <= 0 { max := DEFAULT_MAX_CARDINALITY; }
      if key in admitted { return true, false; }
      var outstanding := Outstanding(reserved, key);
      if outstanding == 0 {
        if count >= max { return false, false; }
        count := count + 1;
      }
      reserved := reserved[key := outstanding + 1];
      return true, true;
    }

    method Commit(key: Key, ghost limit: int)
      requires Sound(Value(), limit) && key in reserved
      modifies this
      ensures Sound(Value(), limit)
      ensures Value() == Committed(old(Value()), key) && admitted == old(admitted) + {key} && count == old(count)
    {
      StoredSound(Value(), key, limit);
      admitted := admitted + {key};
      SettledSound(Value(), key, limit);
      Unreserve(key);
    }

    method Release(key: Key, ghost limit: int)
      requires Sound(Value(), limit) && key in reserved
      modifies this
      ensures Sound(Value(), limit)
      ensures Value() == Released(old(Value()), key) && admitted == old(admitted)
      ensures count == old(count) - if key !in admitted && old(reserved)[key] == 1 then 1 else 0
    {
      ReleasedSound(Value(), key, limit);
      UnreservedKeys(Value(), key);
      Unreserve(key);
      if key !in admitted && Outstanding(reserved, key) == 0 { count := count - 1; }
    }

    method Unreserve(key: Key)
      modifies this`reserved
      ensures Value() == Unreserved(old(Value()), key)
    {
      reserved := reserved[key := Outstanding(reserved, key) - 1];
      if reserved[key] == 0 { reserved := reserved - {key}; }
      assert reserved == Unreserved(old(Value()), key).reserved;
    }
  }
}
