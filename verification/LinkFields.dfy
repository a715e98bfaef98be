/** Laying out the fields of a class, and predicting the size of a Class object from its static fields. */
module LinkFields {
  import opened Bytes

  class ArtField {
    const name: string
    /** First character of the type descriptor. */
    const kind: char
    var offset: nat

    constructor (name: string, kind: char) {
      this.name, this.kind, this.offset := name, kind, 0;
    }
  }

  predicate IsReference(kind: char) {
    kind !in "BCDFIJSVZ"
  }

  predicate IsWide(kind: char) {
    kind == 'J' || kind == 'D'
  }

  /** A type a dex file may give a field: a primitive, a class or an array. */
  predicate FieldType(kind: char) {
    kind in "BCDFIJSVZL["
  }

  function Size(kind: char): nat {
    if IsWide(kind) then 8 else 4
  }

  /** References come first, then 64-bit fields, then 32-bit fields. */
  function Group(kind: char): nat {
    if IsReference(kind) then 0 else if IsWide(kind) then 1 else 2
  }

  predicate NameLess(a: string, b: string) {
    b != [] && (a == [] || a[0] < b[0] || (a[0] == b[0] && NameLess(a[1..], b[1..])))
  }

  /** Classes and arrays first, then longs and doubles of eight bytes, then all other primitives of four. */
  lemma Kinds(kind: char)
    requires FieldType(kind)
    ensures Group(kind) == 0 <==> kind == 'L' || kind == '['
    ensures Group(kind) == 1 <==> kind == 'J' || kind == 'D'
    ensures Group(kind) == 2 <==>
      kind == 'B' || kind == 'C' || kind == 'F' || kind == 'I' || kind == 'S' || kind == 'V' || kind == 'Z'
    ensures Size(kind) == if Group(kind) == 1 then 8 else 4
  {
    assert "BCDFIJSVZL[" == "BCDFIJSVZ" + "L[";
  }

  /** The order of names is that of a dictionary: a proper prefix first, else the first character that differs. */
  lemma {:induction false} NameLessIs(a: string, b: string)
    ensures NameLess(a, b) <==> exists k: nat :: FirstDifference(a, b, k)
  {
    if b != [] && a != [] && a[0] == b[0] {
      NameLessIs(a[1..], b[1..]);
      if NameLess(a[1..], b[1..]) {
        var k: nat :| FirstDifference(a[1..], b[1..], k);
        DifferenceShifts(a, b, k);
      } else {
        forall k: nat ensures !FirstDifference(a, b, k) {
          if k > 0 {
            DifferenceShifts(a, b, k - 1);
          }
        }
      }
    } else {
      assert NameLess(a, b) <==> FirstDifference(a, b, 0);
      assert forall k: nat :: FirstDifference(a, b, k) ==> k == 0 || a[0] == b[0];
    }
  }

  lemma DifferenceShifts(a: string, b: string, k: nat)
    requires a != [] && b != [] && a[0] == b[0]
    ensures FirstDifference(a[1..], b[1..], k) <==> FirstDifference(a, b, k + 1)
  {
  }

  /** The names agree up to `k`, where the first ends or has the smaller character. */
  ghost predicate FirstDifference(a: string, b: string, k: nat) {
    && k <= |a| && k < |b| && (forall i :: 0 <= i < k ==> a[i] == b[i])
    && (k == |a| || a[k] < b[k])
  }

  predicate FieldLess(a: ArtField, b: ArtField) {
    if Group(a.kind) != Group(b.kind) then Group(a.kind) < Group(b.kind) else NameLess(a.name, b.name)
  }

  /** No field is less than one before it: what a sort with this comparison leaves. */
  ghost predicate Sorted(s: seq<ArtField>) {
    forall j, k :: 0 <= j < k < |s| ==> !FieldLess(s[k], s[j])
  }

  ghost predicate Distinct(s: seq<ArtField>) {
    forall f <- s :: multiset(s)[f] == 1
  }

  /** The fields of `s` lie end to end, in order, from `from` up to `to`. */
  ghost predicate Tiled(s: seq<ArtField>, from: nat, to: nat)
    reads s
  {
    if s == [] then from == to
    else
      && s[0].offset == from && Last(s).offset + Size(Last(s).kind) == to
      && forall k :: 0 < k < |s| ==> s[k - 1].offset + Size(s[k - 1].kind) == s[k].offset
  }

  ghost function Last(s: seq<ArtField>): ArtField
    requires s != []
  {
    s[|s| - 1]
  }

  ghost predicate AllWide(s: seq<ArtField>) {
    forall f <- s :: IsWide(f.kind)
  }

  ghost predicate WideAligned(s: seq<ArtField>)
    reads s
  {
    forall f <- s :: IsWide(f.kind) ==> f.offset % 8 == 0
  }

  /** The bytes lost to alignment between the references and the primitives. */
  ghost function Wasted(primitives: seq<ArtField>, offset: nat): nat {
    if offset % 8 != 0 && primitives != [] && AllWide(primitives) then 4 else 0
  }

  /** References first and contiguous; then the primitives, after a gap exactly where no field could fill it. */
  ghost predicate LaidOut(s: seq<ArtField>, start: nat, references: nat, end: nat)
    reads s
  {
    && references <= |s|
    && (forall f <- s[..references] :: IsReference(f.kind))
    && (forall f <- s[references..] :: !IsReference(f.kind))
    && Tiled(s[..references], start, start + 4 * references)
    && Tiled(s[references..], start + 4 * references + Wasted(s[references..], start + 4 * references), end)
    && WideAligned(s)
  }

  /** The primitives in layout order: sorted, but the first 32-bit field comes first where it fills a gap. */
  ghost predicate Filled(rest: seq<ArtField>, mid: nat, filled: seq<ArtField>) {
    if mid % 8 == 0 || AllWide(rest) then filled == rest
    else
      exists i ::
        0 <= i < |rest| && AllWide(rest[..i]) && !IsWide(rest[i].kind) &&
          filled == [rest[i]] + (rest[..i] + rest[i + 1..])
  }

  // ---------- the order of fields ----------

  lemma {:induction false} NameLessTransitive(a: string, b: string, c: string)
    requires NameLess(a, b) && NameLess(b, c)
    ensures NameLess(a, c)
  {
    if a != [] && a[0] == b[0] == c[0] {
      NameLessTransitive(a[1..], b[1..], c[1..]);
    }
  }

  lemma {:induction false} NameLessTotal(a: string, b: string)
    ensures a == b || NameLess(a, b) || NameLess(b, a)
  {
    if a != [] && b != [] && a[0] == b[0] {
      NameLessTotal(a[1..], b[1..]);
      assert a == [a[0]] + a[1..] && b == [b[0]] + b[1..];
    }
  }

  lemma {:induction false} NameLessOneWay(a: string, b: string)
    ensures !(NameLess(a, b) && NameLess(b, a))
  {
    if a != [] && b != [] {
      NameLessOneWay(a[1..], b[1..]);
    }
  }

  /** The comparison is a strict weak order, as sorting demands: fields it leaves equal agree in group and name. */
  lemma FieldLessOrder(a: ArtField, b: ArtField, c: ArtField)
    ensures !(FieldLess(a, b) && FieldLess(b, a))
    ensures FieldLess(a, b) && FieldLess(b, c) ==> FieldLess(a, c)
    ensures !FieldLess(a, b) && !FieldLess(b, a) <==> Group(a.kind) == Group(b.kind) && a.name == b.name
  {
    hide IsReference, IsWide;
    NameLessOneWay(a.name, b.name);
    NameLessTotal(a.name, b.name);
    if NameLess(a.name, b.name) && NameLess(b.name, c.name) {
      NameLessTransitive(a.name, b.name, c.name);
    }
  }

  /** Fields of one group have different names. */
  ghost predicate NamesDiffer(s: seq<ArtField>) {
    forall a <- s, b <- s :: a != b ==> Group(a.kind) != Group(b.kind) || a.name != b.name
  }

  /**
   * Sorting can come out in one way only, so the layout depends on what fields there are and not on
   * the order in which the class declares them.
   */
  lemma {:induction false} SortedUnique(s: seq<ArtField>, t: seq<ArtField>)
    requires Sorted(s) && Sorted(t) && multiset(s) == multiset(t) && NamesDiffer(s)
    ensures s == t
  {
    hide Sorted, NamesDiffer;
    SameLength(s, t);
    if s != [] {
      FirstIsLeast(s, t);
      WithoutFirst(s);
      WithoutFirst(t);
      SortedTail(s);
      SortedTail(t);
      NamesTail(s);
      SortedUnique(s[1..], t[1..]);
    }
  }

  lemma SameLength(s: seq<ArtField>, t: seq<ArtField>)
    requires multiset(s) == multiset(t)
    ensures |s| == |t|
  {
    assert |multiset(s)| == |s| && |multiset(t)| == |t|;
  }

  lemma WithoutFirst(s: seq<ArtField>)
    requires s != []
    ensures s == [s[0]] + s[1..] && multiset(s[1..]) == multiset(s) - multiset{s[0]}
  {
    assert s == [s[0]] + s[1..];
  }

  lemma SortedTail(s: seq<ArtField>)
    requires Sorted(s) && s != []
    ensures Sorted(s[1..])
  {
    hide FieldLess;
  }

  lemma NamesTail(s: seq<ArtField>)
    requires NamesDiffer(s) && s != []
    ensures NamesDiffer(s[1..])
  {
    hide Group;
  }

  lemma FirstIsLeast(s: seq<ArtField>, t: seq<ArtField>)
    requires Sorted(s) && Sorted(t) && multiset(s) == multiset(t) && NamesDiffer(s) && s != [] && t != []
    ensures s[0] == t[0]
  {
    assert s[0] in multiset(s) && t[0] in multiset(t);
    assert s[0] in t && t[0] in s;
    var j :| 0 <= j < |t| && t[j] == s[0];
    var k :| 0 <= k < |s| && s[k] == t[0];
    assert j > 0 ==> !FieldLess(s[0], t[0]);
    assert k > 0 ==> !FieldLess(t[0], s[0]);
    NameLessTotal(s[0].name, t[0].name);
  }

  // ---------- steps ----------

  /** What is placed and what is left make up all the fields, one slot for each. */
  ghost predicate Fits(all: seq<ArtField>, placed: seq<ArtField>, rest: seq<ArtField>, slots: nat) {
    Distinct(all) && multiset(placed) + multiset(rest) == multiset(all) && |placed| + |rest| == slots
  }

  /** A field that is left is not placed, and can be placed. */
  lemma LeftIsNotPlaced(all: seq<ArtField>, placed: seq<ArtField>, rest: seq<ArtField>, i: nat, slots: nat)
    requires Fits(all, placed, rest, slots) && i < |rest|
    ensures rest[i] !in placed && rest[i] in all && |placed| < slots
    ensures Fits(all, placed + [rest[i]], rest[..i] + rest[i + 1..], slots)
  {
    assert rest == rest[..i] + [rest[i]] + rest[i + 1..];
    assert rest[i] in multiset(rest) && rest[i] in multiset(all);
    assert multiset(placed)[rest[i]] == 0;
  }

  /** References up to `mid`, then a run of other fields from `from` to `to`. */
  ghost predicate Partial(references: seq<ArtField>, start: nat, mid: nat, run: seq<ArtField>, from: nat, to: nat)
    reads references, run
  {
    Tiled(references, start, mid) && Tiled(run, from, to) && WideAligned(run)
  }

  lemma PartialMore(references: seq<ArtField>, start: nat, mid: nat, run: seq<ArtField>, from: nat, to: nat,
                    f: ArtField)
    requires Partial(references, start, mid, run, from, to) && f.offset == to
    requires IsWide(f.kind) ==> to % 8 == 0
    ensures Partial(references, start, mid, run + [f], from, to + Size(f.kind))
  {
  }

  /** Takes field `i` of those left, stores it at the next position and gives it the next offset. */
  method Place(fields: array<ArtField>, current: nat, rest: seq<ArtField>, i: nat, offset: nat,
               ghost all: seq<ArtField>,
               ghost references: seq<ArtField>, ghost start: nat, ghost mid: nat, ghost run: seq<ArtField>,
               ghost from: nat)
    returns (rest': seq<ArtField>)
    requires current <= fields.Length && Fits(all, fields[..current], rest, fields.Length) && i < |rest|
    requires fields[..current] == references + run && Partial(references, start, mid, run, from, offset)
    requires IsWide(rest[i].kind) ==> offset % 8 == 0
    modifies fields, all
    ensures rest' == rest[..i] + rest[i + 1..] && current < fields.Length
    ensures fields[..current + 1] == references + (run + [rest[i]])
    ensures Fits(all, fields[..current + 1], rest', fields.Length)
    ensures Partial(references, start, mid, run + [rest[i]], from, offset + Size(rest[i].kind))
  {
    hide Fits, Partial, Size, IsWide;
    var field := rest[i];
    LeftIsNotPlaced(all, references + run, rest, i, fields.Length);
    assert field !in references && field !in run;
    fields[current] := field;
    field.offset := offset;
    PartialMore(references, start, mid, run, from, offset, field);
    rest' := rest[..i] + rest[i + 1..];
    assert fields[..current + 1] == old(fields[..current]) + [field];
    assert references + run + [field] == references + (run + [field]);
  }

  lemma SortedRest(s: seq<ArtField>, i: nat)
    requires Sorted(s) && i < |s|
    ensures Sorted(s[..i] + s[i + 1..])
  {
  }

  /** The references at the front of the sorted fields. */
  method PlaceReferences(fields: array<ArtField>, sorted: seq<ArtField>, start: nat)
    returns (current: nat, rest: seq<ArtField>)
    requires Sorted(sorted) && Fits(sorted, [], sorted, fields.Length)
    modifies fields, sorted
    ensures current <= fields.Length && Fits(sorted, fields[..current], rest, fields.Length)
    ensures Sorted(rest) && forall f <- rest :: !IsReference(f.kind)
    ensures Partial(fields[..current], start, start + 4 * current, [], 0, 0)
    ensures forall f <- fields[..current] :: IsReference(f.kind)
    ensures fields[..current] + rest == sorted
  {
    hide Fits, Partial, Sorted, IsWide, IsReference, Size;
    current, rest := 0, sorted;
    ghost var run: seq<ArtField> := [];
    assert Partial([], start, start, [], start, start) by { PartialStart(start); }
    while rest != [] && IsReference(rest[0].kind)
      invariant current <= fields.Length && Fits(sorted, fields[..current], rest, fields.Length)
      invariant Sorted(rest) && fields[..current] == [] + run
      invariant Partial([], start, start, run, start, start + 4 * current)
      invariant forall f <- run :: IsReference(f.kind)
      invariant run + rest == sorted
      decreases |rest|
    {
      assert run + rest == run + [rest[0]] + (rest[..0] + rest[1..]);
      SortedRest(rest, 0);
      ReferenceSize(rest[0].kind);
      ghost var f := rest[0];
      rest := Place(fields, current, rest, 0, start + 4 * current, sorted, [], start, start, run, start);
      run := run + [f];
      current := current + 1;
    }
    assert fields[..current] == run;
    PartialTurn(run, start, start + 4 * current);
    NoReferencesLeft(rest);
  }

  lemma ReferenceSize(kind: char)
    requires IsReference(kind)
    ensures !IsWide(kind) && Size(kind) == 4
  {
  }

  lemma PartialStart(start: nat)
    ensures Partial([], start, start, [], start, start)
  {
  }

  lemma PartialTurn(run: seq<ArtField>, start: nat, to: nat)
    requires Partial([], start, start, run, start, to)
    ensures Partial(run, start, to, [], 0, 0)
  {
  }

  lemma NoReferencesLeft(s: seq<ArtField>)
    requires Sorted(s) && (s != [] ==> !IsReference(s[0].kind))
    ensures forall f <- s :: !IsReference(f.kind)
  {
    forall f <- s ensures !IsReference(f.kind) {
      var k :| 0 <= k < |s| && s[k] == f;
      assert k > 0 ==> !FieldLess(s[k], s[0]);
    }
  }

  ghost predicate Primitives(s: seq<ArtField>) {
    forall f <- s :: !IsReference(f.kind)
  }

  /** The first of the fields that are left goes to the end of those placed. */
  lemma MovedOver(run: seq<ArtField>, rest: seq<ArtField>, offset: nat)
    requires Ready(rest, offset) && rest != [] && Primitives(run)
    ensures Primitives(run + [rest[0]]) && (IsWide(rest[0].kind) ==> offset % 8 == 0)
    ensures run + [rest[0]] + rest[1..] == run + rest && rest[..0] + rest[1..] == rest[1..]
  {
  }

  /** The next offset suits whichever primitive comes next. */
  ghost predicate Ready(rest: seq<ArtField>, offset: nat) {
    && Sorted(rest) && offset % 4 == 0
    && (forall f <- rest :: !IsReference(f.kind))
    && (rest != [] && IsWide(rest[0].kind) ==> offset % 8 == 0)
  }

  lemma WideFirst(s: seq<ArtField>)
    requires Sorted(s) && |s| > 1 && !IsReference(s[0].kind) && !IsReference(s[1].kind) && IsWide(s[1].kind)
    ensures IsWide(s[0].kind)
  {
    hide IsReference, IsWide, NameLess;
    assert !FieldLess(s[1], s[0]);
  }

  lemma ReadyNext(rest: seq<ArtField>, offset: nat)
    requires Ready(rest, offset) && rest != []
    ensures Ready(rest[1..], offset + Size(rest[0].kind))
  {
    hide IsReference, IsWide, Sorted, Size;
    SortedRest(rest, 0);
    assert rest[..0] + rest[1..] == rest[1..];
    NextAligned(rest[0].kind, offset);
    if |rest| > 1 && IsWide(rest[1].kind) {
      WideFirst(rest);
    }
  }

  lemma NextAligned(kind: char, offset: nat)
    requires offset % 4 == 0
    ensures (offset + Size(kind)) % 4 == 0
    ensures IsWide(kind) && offset % 8 == 0 ==> (offset + Size(kind)) % 8 == 0
  {
    hide IsWide;
    var quads, octs := offset / 4, offset / 8;
    assert offset + 4 == 4 * (quads + 1) && offset + 8 == 4 * (quads + 2);
    assert offset % 8 == 0 ==> offset + 8 == 8 * (octs + 1);
  }

  lemma NoGap(rest: seq<ArtField>, mid: nat)
    requires Sorted(rest) && (forall f <- rest :: !IsReference(f.kind)) && mid % 4 == 0 && (rest == [] || mid % 8 == 0)
    ensures Ready(rest, mid) && Wasted([] + rest, mid) == 0 && Filled(rest, mid, [] + rest)
  {
    assert [] + rest == rest;
  }

  lemma GapLost(rest: seq<ArtField>, mid: nat)
    requires Sorted(rest) && (forall f <- rest :: !IsReference(f.kind)) && mid % 4 == 0 && mid % 8 != 0
    requires rest != [] && AllWide(rest)
    ensures Ready(rest, mid + 4) && Wasted([] + rest, mid) == 4 && Filled(rest, mid, [] + rest)
  {
    assert [] + rest == rest;
  }

  lemma GapFilled(rest: seq<ArtField>, i: nat, mid: nat)
    requires Sorted(rest) && (forall f <- rest :: !IsReference(f.kind)) && mid % 4 == 0 && mid % 8 != 0
    requires i < |rest| && AllWide(rest[..i]) && !IsWide(rest[i].kind)
    ensures Ready(rest[..i] + rest[i + 1..], mid + 4) && Wasted([rest[i]] + (rest[..i] + rest[i + 1..]), mid) == 0
    ensures Filled(rest, mid, [rest[i]] + (rest[..i] + rest[i + 1..]))
  {
    hide IsReference, IsWide, FieldLess;
    assert rest[i] in rest;
    SortedRest(rest, i);
    assert ([rest[i]] + (rest[..i] + rest[i + 1..]))[0] == rest[i];
  }

  /** The index of the first 32-bit field, or the number of fields when all are 64-bit. */
  method FirstNarrow(rest: seq<ArtField>) returns (i: nat)
    ensures i <= |rest| && AllWide(rest[..i]) && (i < |rest| ==> !IsWide(rest[i].kind))
  {
    i := 0;
    while i < |rest| && IsWide(rest[i].kind)
      invariant i <= |rest| && AllWide(rest[..i])
    {
      i := i + 1;
    }
  }

  /** When the references end off an 8-byte boundary, the first 32-bit field fills the gap, or 4 bytes are lost. */
  method FillGap(fields: array<ArtField>, references: nat, rest: seq<ArtField>, mid: nat, ghost all: seq<ArtField>,
                 ghost start: nat)
    returns (current: nat, rest': seq<ArtField>, offset: nat, ghost run: seq<ArtField>)
    requires references <= fields.Length && Fits(all, fields[..references], rest, fields.Length)
    requires Partial(fields[..references], start, mid, [], 0, 0) && mid % 4 == 0
    requires Sorted(rest) && forall f <- rest :: !IsReference(f.kind)
    modifies fields, all
    ensures references <= current <= fields.Length && Fits(all, fields[..current], rest', fields.Length)
    ensures Ready(rest', offset)
    ensures fields[..current] == old(fields[..references]) + run && Primitives(run)
    ensures Partial(old(fields[..references]), start, mid, run, mid + Wasted(run + rest', mid), offset)
    ensures Filled(rest, mid, run + rest')
  {
    hide Fits, Sorted, AllWide, Partial, Ready, Wasted, IsReference, IsWide, Size, Filled;
    current, rest', offset, run := references, rest, mid, [];
    PartialFrom(fields[..references], start, mid);
    if rest != [] && mid % 8 != 0 {
      var i := FirstNarrow(rest);
      offset := mid + 4;
      if i < |rest| {
        GapFilled(rest, i, mid);
        rest' := Place(fields, references, rest, i, mid, all, fields[..references], start, mid, [], mid);
        current := references + 1;
        run := [rest[i]];
        assert [] + [rest[i]] == run;
        assert Size(rest[i].kind) == 4 by { NarrowSize(rest[i].kind); }
      } else {
        assert rest[..i] == rest;
        GapLost(rest, mid);
      }
    } else {
      NoGap(rest, mid);
    }
  }

  lemma NarrowSize(kind: char)
    requires !IsWide(kind)
    ensures Size(kind) == 4
  {
  }

  lemma PartialFrom(references: seq<ArtField>, start: nat, mid: nat)
    requires Partial(references, start, mid, [], 0, 0)
    ensures forall from: nat :: Partial(references, start, mid, [], from, from)
  {
  }

  /** Places what is left in order, now that 64-bit fields fall on 8-byte boundaries. */
  method PlaceRest(fields: array<ArtField>, first: nat, left: seq<ArtField>, at: nat, ghost all: seq<ArtField>,
                   ghost references: seq<ArtField>, ghost start: nat, ghost mid: nat, ghost placed: seq<ArtField>)
    returns (end: nat, ghost run: seq<ArtField>)
    requires first <= fields.Length && Fits(all, fields[..first], left, fields.Length) && Ready(left, at)
    requires fields[..first] == references + placed && Primitives(placed)
    requires Partial(references, start, mid, placed, mid + Wasted(placed + left, mid), at)
    modifies fields, all
    ensures fields[..] == references + run && Fits(all, fields[..], [], fields.Length)
    ensures Partial(references, start, mid, run, mid + Wasted(run, mid), end) && Primitives(run)
    ensures run == placed + left
  {
    hide Fits, Partial, Wasted, IsWide, Ready, Primitives, Size;
    var current: nat := first;
    var rest := left;
    end, run := at, placed;
    ghost var from: nat := mid + Wasted(placed + left, mid);
    while rest != []
      invariant current <= fields.Length && Fits(all, fields[..current], rest, fields.Length) && Ready(rest, end)
      invariant fields[..current] == references + run && run + rest == placed + left
      invariant Partial(references, start, mid, run, from, end) && Primitives(run)
      decreases |rest|
    {
      ReadyNext(rest, end);
      MovedOver(run, rest, end);
      var field := rest[0];
      rest := Place(fields, current, rest, 0, end, all, references, start, mid, run, from);
      run := run + [field];
      current := current + 1;
      end := end + Size(field.kind);
    }
    assert run + rest == run;
    AllPlaced(all, fields[..current], fields.Length);
    assert fields[..current] == fields[..];
  }

  lemma NonePlaced(all: seq<ArtField>, slots: nat)
    requires Distinct(all) && |all| == slots
    ensures Fits(all, [], all, slots)
  {
  }

  lemma AllPlaced(all: seq<ArtField>, placed: seq<ArtField>, slots: nat)
    requires Fits(all, placed, [], slots)
    ensures |placed| == slots && multiset(placed) == multiset(all)
  {
  }

  /**
   * Gives every field its offset and leaves the fields in layout order. `sorted` is what sorting the
   * fields with `FieldLess` produced.
   */
  method LinkFields(fields: array<ArtField>, sorted: seq<ArtField>, start: nat) returns (references: nat, size: nat)
    requires start % 4 == 0
    requires Sorted(sorted) && Distinct(sorted) && multiset(sorted) == multiset(fields[..]) && |sorted| == fields.Length
    modifies fields, sorted
    ensures multiset(fields[..]) == old(multiset(fields[..])) && LaidOut(fields[..], start, references, size)
    ensures fields[..references] == sorted[..references]
    ensures Filled(sorted[references..], start + 4 * references, fields[references..])
  {
    hide Sorted, Distinct, Partial, IsReference, Ready, Wasted, Filled, LaidOut, Primitives, Fits;
    var rest: seq<ArtField>;
    NonePlaced(sorted, fields.Length);
    references, rest := PlaceReferences(fields, sorted, start);
    ghost var refs := fields[..references];
    Halves(refs, rest);
    var current, offset;
    ghost var run;
    current, rest, offset, run := FillGap(fields, references, rest, start + 4 * references, sorted, start);
    size, run := PlaceRest(fields, current, rest, offset, sorted, refs, start, start + 4 * references, run);
    AllPlaced(sorted, fields[..], fields.Length);
    PartialEnd(refs, start, start + 4 * references, run, size);
    Halves(refs, run);
  }

  lemma Halves(a: seq<ArtField>, b: seq<ArtField>)
    ensures (a + b)[..|a|] == a && (a + b)[|a|..] == b
  {
  }

  lemma PartialEnd(references: seq<ArtField>, start: nat, mid: nat, run: seq<ArtField>, end: nat)
    requires Partial(references, start, mid, run, mid + Wasted(run, mid), end) && mid == start + 4 * |references|
    requires (forall f <- references :: IsReference(f.kind)) && Primitives(run)
    ensures LaidOut(references + run, start, |references|, end)
  {
    hide Tiled, Wasted;
    var s := references + run;
    assert s[..|references|] == references && s[|references|..] == run;
  }

  // ---------- what a layout gives ----------

  ghost function Count(s: seq<ArtField>, p: char -> bool): nat {
    if s == [] then 0 else Count(s[..|s| - 1], p) + (if p(Last(s).kind) then 1 else 0)
  }

  lemma {:induction false} CountAt(s: seq<ArtField>, i: nat, p: char -> bool)
    requires i < |s|
    ensures Count(s, p) == Count(s[..i] + s[i + 1..], p) + (if p(s[i].kind) then 1 else 0)
  {
    var n := |s| - 1;
    if i < n {
      CountAt(s[..n], i, p);
      assert (s[..i] + s[i + 1..])[..n - 1] == s[..n][..i] + s[..n][i + 1..];
    } else {
      assert s[..i] + s[i + 1..] == s[..n];
    }
  }

  /** Counting does not depend on the order. */
  lemma {:induction false} CountPermuted(s: seq<ArtField>, t: seq<ArtField>, p: char -> bool)
    requires multiset(s) == multiset(t)
    ensures |s| == |t| && Count(s, p) == Count(t, p)
  {
    assert |multiset(s)| == |s| && |multiset(t)| == |t|;
    if s != [] {
      var n := |s| - 1;
      assert s[n] in multiset(s) && s[n] in multiset(t);
      var i :| 0 <= i < |t| && t[i] == s[n];
      WithoutOne(s, n);
      WithoutOne(t, i);
      assert s[..n] == s[..n] + s[n + 1..];
      CountPermuted(s[..n], t[..i] + t[i + 1..], p);
      CountAt(t, i, p);
    }
  }

  lemma WithoutOne(s: seq<ArtField>, i: nat)
    requires i < |s|
    ensures multiset(s[..i] + s[i + 1..]) == multiset(s) - multiset{s[i]}
  {
    assert s == s[..i] + [s[i]] + s[i + 1..];
  }

  lemma {:induction false} TiledSize(s: seq<ArtField>, from: nat, to: nat)
    requires Tiled(s, from, to)
    ensures to == from + 4 * |s| + 4 * Count(s, IsWide)
  {
    if s != [] {
      TiledSize(s[..|s| - 1], from, Last(s).offset);
    }
  }

  lemma {:induction false} TiledApart(s: seq<ArtField>, from: nat, to: nat, j: nat, k: nat)
    requires Tiled(s, from, to) && j <= k < |s|
    ensures from <= s[j].offset && s[k].offset + Size(s[k].kind) <= to
    ensures j < k ==> s[j].offset + Size(s[j].kind) <= s[k].offset
  {
    if k < |s| - 1 {
      TiledApart(s[..|s| - 1], from, Last(s).offset, j, k);
    } else if j < k {
      TiledApart(s[..k], from, s[k].offset, j, k - 1);
    } else if k > 0 {
      TiledApart(s[..k], from, s[k].offset, 0, k - 1);
    }
  }

  /** No two fields share a byte, and all lie between the start and the size. */
  lemma SlotsDisjoint(s: seq<ArtField>, start: nat, references: nat, end: nat, j: nat, k: nat)
    requires LaidOut(s, start, references, end) && j < k < |s|
    ensures start <= s[j].offset && s[j].offset + Size(s[j].kind) <= s[k].offset && s[k].offset + Size(s[k].kind) <= end
  {
    hide Tiled, Wasted, WideAligned;
    var mid := start + 4 * references;
    var from: nat := mid + Wasted(s[references..], mid);
    if k < references {
      TiledApart(s[..references], start, mid, j, k);
      TiledGrows(s[references..], from, end);
    } else if j < references {
      TiledApart(s[..references], start, mid, j, j);
      TiledApart(s[references..], from, end, 0, k - references);
      TiledApart(s[references..], from, end, k - references, k - references);
    } else {
      TiledApart(s[references..], from, end, j - references, k - references);
    }
  }

  lemma TiledGrows(s: seq<ArtField>, from: nat, to: nat)
    requires Tiled(s, from, to)
    ensures from <= to
  {
    TiledSize(s, from, to);
  }

  /** The size reached, from the counts alone. */
  lemma LaidOutSize(s: seq<ArtField>, start: nat, references: nat, end: nat)
    requires LaidOut(s, start, references, end)
    ensures end == start + 4 * |s| + 4 * Count(s, IsWide) + Wasted(s[references..], start + 4 * references)
    ensures references == Count(s, IsReference)
  {
    hide Tiled, Wasted, WideAligned, Count;
    var mid := start + 4 * references;
    TiledSize(s[..references], start, mid);
    TiledSize(s[references..], mid + Wasted(s[references..], mid), end);
    CountSplit(s, references, IsWide);
    CountSplit(s, references, IsReference);
    CountEvery(s[..references], IsReference);
    CountNone(s[references..], IsReference);
  }

  lemma {:induction false} CountSplit(s: seq<ArtField>, n: nat, p: char -> bool)
    requires n <= |s|
    ensures Count(s, p) == Count(s[..n], p) + Count(s[n..], p)
  {
    if n < |s| {
      CountSplit(s[..|s| - 1], n, p);
      assert s[..|s| - 1][n..] == s[n..][..|s| - n - 1];
      assert s[..|s| - 1][..n] == s[..n];
    } else {
      assert s[..n] == s;
    }
  }

  lemma {:induction false} CountNone(s: seq<ArtField>, p: char -> bool)
    ensures Count(s, p) <= |s|
    ensures Count(s, p) == 0 <==> forall f <- s :: !p(f.kind)
  {
    if s != [] {
      CountNone(s[..|s| - 1], p);
      assert s == s[..|s| - 1] + [Last(s)];
    }
  }

  // ---------- the size of a Class object ----------

  /** Counts the static fields of a class by the first character of their descriptors. */
  method CountFields(fields: seq<ArtField>) returns (numRef: nat, num32: nat, num64: nat)
    requires forall f <- fields :: FieldType(f.kind)
    ensures numRef == Count(fields, IsReference) && num64 == Count(fields, IsWide)
    ensures numRef + num32 + num64 == |fields|
  {
    numRef, num32, num64 := 0, 0, 0;
    for i := 0 to |fields|
      invariant numRef == Count(fields[..i], IsReference) && num64 == Count(fields[..i], IsWide)
      invariant numRef + num32 + num64 == i
    {
      assert fields[..i + 1][..i] == fields[..i];
      var c := fields[i].kind;
      if c == 'L' || c == '[' {
        numRef := numRef + 1;
      } else if c == 'J' || c == 'D' {
        num64 := num64 + 1;
      } else {
        num32 := num32 + 1;
      }
    }
    assert fields[..|fields|] == fields;
  }

  /** The size a Class object will need for its static fields, counted before they are laid out. */
  method SizeOfClass(fields: seq<ArtField>, classSize: nat) returns (size: nat)
    requires classSize % 4 == 0 && forall f <- fields :: FieldType(f.kind)
    ensures size == ClassSize(fields, classSize)
  {
    hide Count, IsReference, IsWide;
    var numRef, num32, num64 := CountFields(fields);
    size := classSize + numRef * 4;
    if num64 != 0 && size != RoundUp(size, 8) {
      if num32 != 0 {
        num32 := num32 - 1;
      }
      size := size + 4;
    }
    size := size + num64 * 8;
    size := size + num32 * 4;
  }

  /**
   * Class data, every field, and 4 more bytes when 64-bit fields follow the references at once and
   * off their boundary.
   */
  ghost function ClassSize(fields: seq<ArtField>, classSize: nat): nat {
    var references, wide := Count(fields, IsReference), Count(fields, IsWide);
    classSize + 4 * |fields| + 4 * wide
    + (if wide != 0 && references + wide == |fields| && (classSize + 4 * references) % 8 != 0 then 4 else 0)
  }

  /** The size counted in advance is the size any layout of the same fields reaches. */
  lemma SizePredicted(declared: seq<ArtField>, s: seq<ArtField>, classSize: nat, references: nat, end: nat)
    requires multiset(declared) == multiset(s) && LaidOut(s, classSize, references, end)
    ensures end == ClassSize(declared, classSize)
  {
    hide LaidOut, Count;
    LaidOutSize(s, classSize, references, end);
    CountPermuted(declared, s, IsWide);
    CountPermuted(declared, s, IsReference);
    WastedByCount(s, classSize, references, end);
  }

  lemma WastedByCount(s: seq<ArtField>, start: nat, references: nat, end: nat)
    requires LaidOut(s, start, references, end)
    ensures references <= |s|
    ensures Wasted(s[references..], start + 4 * references) == 4 <==>
      Count(s, IsWide) != 0 && references + Count(s, IsWide) == |s| && (start + 4 * references) % 8 != 0
  {
    hide Tiled, WideAligned, Count;
    var run := s[references..];
    CountSplit(s, references, IsWide);
    CountNone(s[..references], IsWide);
    CountNone(run, IsWide);
    CountEvery(run, IsWide);
  }

  lemma {:induction false} CountEvery(s: seq<ArtField>, p: char -> bool)
    ensures Count(s, p) <= |s|
    ensures Count(s, p) == |s| <==> forall f <- s :: p(f.kind)
  {
    if s != [] {
      CountEvery(s[..|s| - 1], p);
      assert s == s[..|s| - 1] + [Last(s)];
    }
  }

  /** Lays out the static fields of a class allocated with the size counted in advance. */
  method LinkStaticFields(fields: array<ArtField>, sorted: seq<ArtField>, classSize: nat)
    returns (predicted: nat, references: nat, size: nat)
    requires classSize % 4 == 0 && forall f <- fields[..] :: FieldType(f.kind)
    requires Sorted(sorted) && Distinct(sorted) && multiset(sorted) == multiset(fields[..]) && |sorted| == fields.Length
    modifies fields, sorted
    ensures predicted == size
    ensures multiset(fields[..]) == old(multiset(fields[..])) && LaidOut(fields[..], classSize, references, size)
  {
    hide LaidOut, Sorted, Distinct, ClassSize;
    predicted := SizeOfClass(fields[..], classSize);
    references, size := LinkFields(fields, sorted, classSize);
    SizePredicted(old(fields[..]), fields[..], classSize, references, size);
  }
}
