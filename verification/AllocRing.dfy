/** The ring of recent allocation records. */
module AllocRing {
  import opened Bytes

  datatype StackElement = StackElement(method_: nat, dexPc: nat)

  datatype Record = Record(type_: nat, byteCount: nat, threadId: nat, stack: seq<StackElement>)

  // ---------- masks ----------

  ghost function Pow2(k: nat): nat {
    if k == 0 then 1 else 2 * Pow2(k - 1)
  }

  ghost predicate PowerOfTwo(n: nat) {
    exists k: nat :: n == Pow2(k)
  }

  /** Bitwise and. */
  function And(x: nat, y: nat): nat {
    if x == 0 || y == 0 then 0 else 2 * And(x / 2, y / 2) + if x % 2 == 1 && y % 2 == 1 then 1 else 0
  }

  lemma {:induction false} MaskKeepsRemainder(x: nat, k: nat)
    ensures Pow2(k) > 0 && And(x, Pow2(k) - 1) == x % Pow2(k)
  {
    hide And;
    if k == 0 {
      AndNothing(x);
    } else {
      var n := Pow2(k - 1);
      MaskKeepsRemainder(x / 2, k - 1);
      HalfRemainder(x, n);
      AndOdd(x, n);
    }
  }

  /** The lowest bit of a mask lets the lowest bit through. */
  lemma AndOdd(x: nat, n: nat)
    requires n > 0
    ensures And(x, 2 * n - 1) == 2 * And(x / 2, n - 1) + x % 2
  {
    var y := 2 * n - 1;
    assert y / 2 == n - 1 && y % 2 == 1;
  }

  lemma AndNothing(x: nat)
    ensures And(x, 0) == 0
  {
  }

  lemma HalfRemainder(x: nat, n: nat)
    requires n > 0
    ensures x % (2 * n) == 2 * (x / 2 % n) + x % 2
  {
    var q, r := x / 2 / n, x / 2 % n;
    assert x == 2 * n * q + (2 * r + x % 2);
    Remainder(x, 2 * n, q, 2 * r + x % 2);
  }

  lemma Remainder(x: nat, n: nat, q: nat, r: nat)
    requires r < n && x == n * q + r
    ensures x % n == r
  {
    var d := x / n;
    assert (d - q) * n == r - x % n;
    if d > q {
      AtLeastOneMultiple(d - q, n);
    } else if d < q {
      AtLeastOneMultiple(q - d, n);
    }
  }

  /** Masking with a power of two less one wraps an index of the next round. */
  lemma MaskWraps(x: nat, max: nat)
    requires PowerOfTwo(max) && 0 < max && x <= 2 * max
    ensures And(x, max - 1) == if x < max then x else if x < 2 * max then x - max else 0
  {
    var k: nat :| max == Pow2(k);
    MaskKeepsRemainder(x, k);
    if x < max {
      Remainder(x, max, 0, x);
    } else if x < 2 * max {
      Remainder(x, max, 1, x - max);
    } else {
      Remainder(x, max, 2, 0);
    }
  }

  ghost predicate IsRange(v: seq<Record>, s: seq<Record>, from: nat, to: nat) {
    from <= to <= |s| && v == s[from..to]
  }

  lemma RangeEmpty(s: seq<Record>, from: nat)
    requires from <= |s|
    ensures IsRange([], s, from, from)
  {
  }

  lemma RangeMore(v: seq<Record>, s: seq<Record>, from: nat, to: nat, x: Record)
    requires IsRange(v, s, from, to) && to < |s| && x == s[to]
    ensures IsRange(v + [x], s, from, to + 1)
  {
  }

  lemma RangeToEnd(v: seq<Record>, s: seq<Record>, from: nat)
    requires IsRange(v, s, from, |s|)
    ensures |v| == |s| - from && v == s[from..]
  {
  }

  // ---------- the ring ----------

  class AllocTracker {
    var records: array<Record>
    const max: nat
    var head: nat
    var count: nat
    /** Every record since tracking was enabled. */
    ghost var history: seq<Record>

    /** The slot of the record `age` steps before the latest one. */
    function Slot(age: nat): nat
      requires age < max && head < max
      reads this
    {
      if age <= head then head - age else head + max - age
    }

    ghost predicate Valid()
      reads this, records
    {
      && PowerOfTwo(max) && records.Length == max > head
      && count == (if |history| < max then |history| else max)
      && forall age :: 0 <= age < count ==> records[Slot(age)] == history[|history| - 1 - age]
    }

    /** Tracking is enabled with room for `max` records. */
    constructor (max: nat)
      requires max > 0 && PowerOfTwo(max)
      ensures Valid() && history == [] && this.max == max && fresh(records)
    {
      this.max := max;
      head, count := 0, 0;
      records := new Record[max](_ => Record(0, 0, 0, []));
      history := [];
    }

    method RecordAllocation(record: Record)
      requires Valid()
      modifies this, records
      ensures Valid() && history == old(history) + [record] && records == old(records)
    {
      ghost var before := records[..];
      head := head + 1;
      if head == max {
        head := 0;
      }
      records[head] := record;
      if count < max {
        count := count + 1;
      }
      history := history + [record];
      forall age | 0 <= age < count ensures records[Slot(age)] == history[|history| - 1 - age] {
        if age > 0 {
          assert Slot(age) == old(Slot(age - 1)) != head;
          assert records[Slot(age)] == before[Slot(age)];
        }
      }
    }

    /** The slot of the oldest record that is kept. */
    method HeadIndex() returns (i: nat)
      requires Valid()
      ensures i < max && (count > 0 ==> i == Slot(count - 1))
    {
      i := And(head + 1 + max - count, max - 1);
      MaskWraps(head + 1 + max - count, max);
    }

    /** Visits the last records, as many as fit, oldest first. */
    method RecentAllocations() returns (visited: seq<Record>)
      requires Valid()
      ensures |visited| == (if |history| < max then |history| else max)
      ensures visited == history[|history| - |visited|..]
    {
      hide AllocTracker.Valid, AllocTracker.Slot, IsRange;
      CountKept();
      RangeEmpty(history, |history| - count);
      var i := HeadIndex();
      var left: nat := count;
      visited := [];
      while left > 0
        invariant left <= count && i < max && (left > 0 ==> i == Slot(left - 1))
        invariant IsRange(visited, history, |history| - count, |history| - left)
      {
        SlotHolds(left - 1);
        RangeMore(visited, history, |history| - count, |history| - left, records[i]);
        visited := visited + [records[i]];
        left := left - 1;
        if left > 0 {
          SlotAfter(left);
        }
        i := NextIndex(i);
      }
      RangeToEnd(visited, history, |history| - count);
    }

    lemma CountKept()
      requires Valid()
      ensures head < max == records.Length && count == if |history| < max then |history| else max
    {
    }

    lemma SlotHolds(age: nat)
      requires Valid() && age < count
      ensures age < max && head < max && Slot(age) < records.Length
      ensures records[Slot(age)] == history[|history| - 1 - age]
    {
    }

    /** The slot of the next younger record comes next, or first after the last. */
    lemma SlotAfter(age: nat)
      requires 0 < age < max && head < max
      ensures Slot(age - 1) == if Slot(age) + 1 == max then 0 else Slot(age) + 1
    {
    }

    method NextIndex(i: nat) returns (j: nat)
      requires Valid() && i < max
      ensures j == if i + 1 == max then 0 else i + 1
    {
      j := And(i + 1, max - 1);
      MaskWraps(i + 1, max);
    }
  }
}
