/** Bitmaps of reference offsets, and the loops that rewrite every reference field of an object through them. */
module RefOffsets {
  import opened Options

  /** A byte offset in an object. */
  type Offset = nat

  /** A class's superclass and the offsets of its own reference fields, instance and static. */
  datatype Class = Class(super: Option<nat>, instances: seq<Offset>, statics: seq<Offset>)

  // ---------- 32-bit words ----------

  /** A 32-bit word, its bits from the highest to the lowest. */
  type Word = w: seq<bool> | |w| == 32 witness NoBits(32)

  function NoBits(n: nat): seq<bool> {
    seq(n, i => false)
  }

  const ZERO: Word := NoBits(32)

  /** The magic value 3: ignore the bits and walk the superclass chain. */
  const CLASS_WALK_SUPER: Word := NoBits(30) + [true, true]

  /** The highest bit shifted right `k` times. */
  function HighBit(k: nat): Word
    requires k < 32
  {
    seq(32, i => i == k)
  }

  function Or(a: Word, b: Word): Word {
    seq(32, i requires 0 <= i < 32 => a[i] || b[i])
  }

  function AndNot(a: Word, b: Word): Word {
    seq(32, i requires 0 <= i < 32 => a[i] && !b[i])
  }

  /** The unsigned number a word stands for. */
  ghost function Value(w: seq<bool>): nat {
    if w == [] then 0 else 2 * Value(w[..|w| - 1]) + if w[|w| - 1] then 1 else 0
  }

  /** Words are equal exactly when their numbers are. */
  lemma {:induction false} ValueInjective(a: seq<bool>, b: seq<bool>)
    requires |a| == |b| && Value(a) == Value(b)
    ensures a == b
  {
    if a != [] {
      ValueInjective(a[..|a| - 1], b[..|b| - 1]);
      assert a == a[..|a| - 1] + [a[|a| - 1]] && b == b[..|b| - 1] + [b[|b| - 1]];
    }
  }

  lemma {:induction false} ValueZero(w: seq<bool>)
    requires forall i :: 0 <= i < |w| ==> !w[i]
    ensures Value(w) == 0
  {
    if w != [] {
      ValueZero(w[..|w| - 1]);
    }
  }

  lemma MagicValues()
    ensures Value(ZERO) == 0 && Value(CLASS_WALK_SUPER) == 3
  {
    ValueZero(ZERO);
    var w: seq<bool> := CLASS_WALK_SUPER;
    ValueZero(w[..30]);
    assert w[..31][..30] == w[..30] && w[..32] == w;
    assert Value(w[..31]) == 1;
  }

  lemma SomeBit(bits: Word)
    ensures (forall k :: 0 <= k < 32 ==> !bits[k]) ==> bits == ZERO
  {
  }

  /** Counts leading zeros. */
  method Clz(bits: Word) returns (k: nat)
    requires bits != ZERO
    ensures k < 32 && bits[k] && forall j :: 0 <= j < k ==> !bits[j]
  {
    SomeBit(bits);
    k := 0;
    while !bits[k]
      invariant k < 32 && forall j :: 0 <= j < k ==> !bits[j]
      decreases 32 - k
    {
      k := k + 1;
    }
  }

  // ---------- offsets and bits ----------

  predicate CanEncodeOffset(offset: Offset) {
    offset / 4 < 32
  }

  function BitFromOffset(offset: Offset): Word
    requires CanEncodeOffset(offset)
  {
    HighBit(offset / 4)
  }

  function OffsetFromClz(k: nat): Offset {
    k * 4
  }

  /** The offset is encoded in the bits. */
  predicate Has(bits: Word, offset: Offset) {
    offset % 4 == 0 && CanEncodeOffset(offset) && bits[offset / 4]
  }

  ghost function Pow2(n: nat): nat {
    if n == 0 then 1 else 2 * Pow2(n - 1)
  }

  lemma {:induction false} OneBitValue(w: seq<bool>, k: nat)
    requires k < |w| && forall i :: 0 <= i < |w| ==> (w[i] <==> i == k)
    ensures Value(w) == Pow2(|w| - 1 - k)
  {
    var n := |w| - 1;
    if k == n {
      ValueZero(w[..n]);
    } else {
      OneBitValue(w[..n], k);
    }
  }

  /** As a number, the bit of an offset is the top bit shifted right once for each word before the offset. */
  lemma BitValue(offset: Offset)
    requires CanEncodeOffset(offset)
    ensures Value(BitFromOffset(offset)) == Pow2(31 - offset / 4)
  {
    OneBitValue(BitFromOffset(offset), offset / 4);
  }

  // ---------- the bitmap of a class ----------

  /** Superclasses are linked before their subclasses, and every field lies on a 4-byte boundary. */
  ghost predicate Chain(classes: seq<Class>) {
    forall c :: 0 <= c < |classes| ==>
      && (classes[c].super.Some? ==> classes[c].super.value < c)
      && Aligned(classes[c].instances) && Aligned(classes[c].statics)
  }

  ghost predicate Aligned(fields: seq<Offset>) {
    forall i :: 0 <= i < |fields| ==> fields[i] % 4 == 0
  }

  ghost function Elements(s: seq<Offset>): set<Offset> {
    set o | o in s
  }

  /** The reference fields found the hard way: an object's class and its superclasses, or one class's own statics. */
  ghost function References(classes: seq<Class>, c: nat, isStatic: bool): set<Offset>
    requires Chain(classes) && c < |classes|
    decreases c
  {
    if isStatic then Elements(classes[c].statics)
    else
      Elements(classes[c].instances)
      + if classes[c].super.Some? then References(classes, classes[c].super.value, false) else {}
  }

  /** The bits are exactly these offsets. */
  ghost predicate Exact(bits: Word, offsets: set<Offset>) {
    forall o :: Has(bits, o) <==> o in offsets
  }

  /** A field lies beyond what 32 bits can encode. */
  ghost predicate Overflows(fields: seq<Offset>) {
    exists o <- fields :: !CanEncodeOffset(o)
  }

  /**
   * The walk is needed: a field of the class is out of reach, or that was so for its superclass, or
   * the exact bitmap happens to be the magic value.
   */
  ghost predicate Walks(classes: seq<Class>, c: nat, isStatic: bool)
    requires Chain(classes) && c < |classes|
    decreases c
  {
    || Overflows(if isStatic then classes[c].statics else classes[c].instances)
    || (!isStatic && classes[c].super.Some? && Walks(classes, classes[c].super.value, false))
    || References(classes, c, isStatic) == {120, 124}
  }

  /** The bitmap is the magic value exactly when the walk is needed, and exact otherwise. */
  ghost predicate Encodes(classes: seq<Class>, c: nat, isStatic: bool, bits: Word)
    requires Chain(classes) && c < |classes|
  {
    if Walks(classes, c, isStatic) then bits == CLASS_WALK_SUPER
    else bits != CLASS_WALK_SUPER && Exact(bits, References(classes, c, isStatic))
  }

  /** An exact bitmap is the magic value for one set of offsets only. */
  lemma ExactMagic(bits: Word, offsets: set<Offset>)
    requires Exact(bits, offsets)
    ensures bits == CLASS_WALK_SUPER <==> offsets == {120, 124}
  {
    MagicBits();
    if offsets == {120, 124} {
      forall k | 0 <= k < 32 ensures bits[k] == CLASS_WALK_SUPER[k] {
        assert Has(bits, 4 * k) <==> bits[k];
        assert 4 * k in offsets <==> k == 30 || k == 31;
      }
    }
    if bits == CLASS_WALK_SUPER {
      forall o: Offset ensures o in offsets <==> o in {120, 124} {
        assert Has(bits, o) <==> o % 4 == 0 && o / 4 < 32 && o / 4 >= 30;
      }
    }
  }

  lemma MagicBits()
    ensures forall k :: 0 <= k < 32 ==> (CLASS_WALK_SUPER[k] <==> k >= 30)
  {
  }

  method CreateReferenceOffsets(fields: seq<Offset>, inherited: Word, ghost base: set<Offset>) returns (bits: Word)
    requires Aligned(fields) && Exact(inherited, base)
    ensures if Overflows(fields) then bits == CLASS_WALK_SUPER else Exact(bits, base + Elements(fields))
  {
    hide Has, Or, BitFromOffset, CanEncodeOffset;
    bits := inherited;
    for i := 0 to |fields|
      invariant Exact(bits, base + Elements(fields[..i]))
      invariant forall o <- fields[..i] :: CanEncodeOffset(o)
    {
      var offset := fields[i];
      if CanEncodeOffset(offset) {
        ghost var before := bits;
        bits := Or(bits, BitFromOffset(offset));
        HasAdded(before, offset);
      } else {
        return CLASS_WALK_SUPER;
      }
    }
  }

  /** The instance bitmap of a class whose superclasses have theirs. */
  method CreateReferenceInstanceOffsets(classes: seq<Class>, c: nat, bitmaps: seq<Word>) returns (bits: Word)
    requires Chain(classes) && c < |classes| && |bitmaps| == c
    requires forall b :: 0 <= b < c ==> Encodes(classes, b, false, bitmaps[b])
    ensures Encodes(classes, c, false, bits)
  {
    hide Exact, Overflows, Elements, Aligned;
    bits := ZERO;
    ghost var base: set<Offset> := {};
    if classes[c].super.Some? {
      bits := bitmaps[classes[c].super.value];
      base := References(classes, classes[c].super.value, false);
      if bits == CLASS_WALK_SUPER {
        return;
      }
    } else {
      ExactNone();
    }
    bits := CreateReferenceOffsets(classes[c].instances, bits, base);
    assert base + Elements(classes[c].instances) == References(classes, c, false);
    if !Overflows(classes[c].instances) {
      ExactMagic(bits, References(classes, c, false));
    }
  }

  method CreateReferenceStaticOffsets(classes: seq<Class>, c: nat) returns (bits: Word)
    requires Chain(classes) && c < |classes|
    ensures Encodes(classes, c, true, bits)
  {
    hide Exact, Overflows, Elements, Aligned;
    ExactNone();
    bits := CreateReferenceOffsets(classes[c].statics, ZERO, {});
    assert {} + Elements(classes[c].statics) == References(classes, c, true);
    if !Overflows(classes[c].statics) {
      ExactMagic(bits, References(classes, c, true));
    }
  }

  lemma ExactNone()
    ensures Exact(ZERO, {})
  {
  }

  /** Bitmaps for a whole hierarchy, superclasses first. */
  method LinkBitmaps(classes: seq<Class>) returns (instances: seq<Word>, statics: seq<Word>)
    requires Chain(classes)
    ensures |instances| == |statics| == |classes|
    ensures forall c :: 0 <= c < |classes| ==>
      Encodes(classes, c, false, instances[c]) && Encodes(classes, c, true, statics[c])
  {
    hide Encodes;
    instances, statics := [], [];
    for c := 0 to |classes|
      invariant |instances| == |statics| == c
      invariant forall b :: 0 <= b < c ==>
        Encodes(classes, b, false, instances[b]) && Encodes(classes, b, true, statics[b])
    {
      var i := CreateReferenceInstanceOffsets(classes, c, instances);
      var s := CreateReferenceStaticOffsets(classes, c);
      instances, statics := instances + [i], statics + [s];
    }
  }

  // ---------- rewriting the references of a copy ----------

  type Ref = int
  type Address = int

  /** The words of a copy after the references at `offsets` were replaced by the addresses of their targets. */
  ghost function Relocated(words: map<Offset, int>, orig: map<Offset, Ref>, offsets: set<Offset>,
                           address: Ref -> Address): map<Offset, int>
    requires offsets <= orig.Keys
  {
    map o | o in words.Keys + offsets :: if o in offsets then address(orig[o]) else words[o]
  }

  lemma RelocatedNone(words: map<Offset, int>, orig: map<Offset, Ref>, address: Ref -> Address)
    ensures Relocated(words, orig, {}, address) == words
  {
    var r := Relocated(words, orig, {}, address);
    assert r.Keys == words.Keys + {} == words.Keys;
    assert forall o <- words :: r[o] == words[o];
  }

  lemma RelocatedMore(words: map<Offset, int>, orig: map<Offset, Ref>, offsets: set<Offset>, o: Offset,
                      address: Ref -> Address)
    requires offsets <= orig.Keys && o in orig
    ensures Relocated(words, orig, offsets, address)[o := address(orig[o])] ==
      Relocated(words, orig, offsets + {o}, address)
  {
  }

  lemma RelocatedBoth(words: map<Offset, int>, orig: map<Offset, Ref>, first: set<Offset>, second: set<Offset>,
                      address: Ref -> Address)
    requires first <= orig.Keys && second <= orig.Keys
    ensures Relocated(Relocated(words, orig, first, address), orig, second, address) ==
      Relocated(words, orig, first + second, address)
  {
    var r := Relocated(Relocated(words, orig, first, address), orig, second, address);
    var both := Relocated(words, orig, first + second, address);
    assert r.Keys == words.Keys + first + second == both.Keys;
    assert forall o <- both :: r[o] == both[o];
  }

  class Copy {
    var words: map<Offset, int>

    constructor (words: map<Offset, int>)
      ensures this.words == words
    {
      this.words := words;
    }

    method SetFieldPtr(offset: Offset, value: Address)
      modifies this
      ensures words == old(words)[offset := value]
    {
      words := words[offset := value];
    }

    /** The loop over the bitmap: it visits every marked offset once, highest bit first, and ends. */
    method FixupMarked(bitmap: Word, orig: map<Offset, Ref>, address: Ref -> Address, ghost offsets: set<Offset>)
      requires Exact(bitmap, offsets) && offsets <= orig.Keys
      modifies this
      ensures words == Relocated(old(words), orig, offsets, address)
    {
      hide Exact, Has, Relocated, AndNot, HighBit;
      var bits := bitmap;
      ghost var todo := offsets;
      assert offsets - todo == {};
      RelocatedNone(words, orig, address);
      while bits != ZERO
        invariant Exact(bits, todo) && todo <= offsets
        invariant words == Relocated(old(words), orig, offsets - todo, address)
        decreases todo
      {
        var rightShift := Clz(bits);
        var offset := OffsetFromClz(rightShift);
        ExactCleared(bits, todo, rightShift);
        SetFieldPtr(offset, address(orig[offset]));
        RelocatedMore(old(words), orig, offsets - todo, offset, address);
        assert offsets - todo + {offset} == offsets - (todo - {offset});
        bits := AndNot(bits, HighBit(rightShift));
        todo := todo - {offset};
      }
      ExactEmpty(todo);
      assert offsets - todo == offsets;
    }

    method FixupOwn(fields: seq<Offset>, orig: map<Offset, Ref>, address: Ref -> Address)
      requires Elements(fields) <= orig.Keys
      modifies this
      ensures words == Relocated(old(words), orig, Elements(fields), address)
    {
      hide Relocated;
      assert Elements(fields[..0]) == {};
      RelocatedNone(words, orig, address);
      for i := 0 to |fields|
        invariant words == Relocated(old(words), orig, Elements(fields[..i]), address)
      {
        SetFieldPtr(fields[i], address(orig[fields[i]]));
        RelocatedMore(old(words), orig, Elements(fields[..i]), fields[i], address);
        assert Elements(fields[..i + 1]) == Elements(fields[..i]) + {fields[i]};
      }
      assert fields[..|fields|] == fields;
    }

    /** Without a bitmap: the class's own fields and, for instance fields, those of every superclass. */
    method FixupWalking(classes: seq<Class>, c: nat, isStatic: bool, orig: map<Offset, Ref>, address: Ref -> Address)
      requires Chain(classes) && c < |classes| && References(classes, c, isStatic) <= orig.Keys
      modifies this
      ensures words == Relocated(old(words), orig, References(classes, c, isStatic), address)
    {
      hide Relocated, Elements, Aligned;
      var klass: Option<nat> := Some(c);
      ghost var done: set<Offset> := {};
      RelocatedNone(words, orig, address);
      while klass.Some?
        invariant klass.Some? ==> klass.value < |classes| && (klass.value == c || !isStatic)
        invariant done + Above(classes, klass, isStatic) == References(classes, c, isStatic)
        invariant done <= orig.Keys && words == Relocated(old(words), orig, done, address)
        decreases if klass.Some? then klass.value + 1 else 0
      {
        var k := klass.value;
        var fields := if isStatic then classes[k].statics else classes[k].instances;
        FixupOwn(fields, orig, address);
        RelocatedBoth(old(words), orig, done, Elements(fields), address);
        done := done + Elements(fields);
        klass := if isStatic then None else classes[k].super;
      }
      assert done == References(classes, c, isStatic);
    }

    /**
     * Rewrites every reference field. Both branches rewrite the same fields: those the walk over the
     * superclass chain finds.
     */
    method FixupFields(classes: seq<Class>, c: nat, isStatic: bool, bitmap: Word, orig: map<Offset, Ref>,
                       address: Ref -> Address)
      requires Chain(classes) && c < |classes| && References(classes, c, isStatic) <= orig.Keys
      requires Encodes(classes, c, isStatic, bitmap)
      modifies this
      ensures words == Relocated(old(words), orig, References(classes, c, isStatic), address)
    {
      hide Relocated, References, Exact, Walks;
      if bitmap != CLASS_WALK_SUPER {
        FixupMarked(bitmap, orig, address, References(classes, c, isStatic));
      } else {
        FixupWalking(classes, c, isStatic, orig, address);
      }
    }
  }

  /** What is still to be found from `klass` upwards. */
  ghost function Above(classes: seq<Class>, klass: Option<nat>, isStatic: bool): set<Offset>
    requires Chain(classes) && (klass.Some? ==> klass.value < |classes|)
  {
    if klass.Some? then References(classes, klass.value, isStatic) else {}
  }

  lemma HasAdded(bits: Word, added: Offset)
    requires added % 4 == 0 && CanEncodeOffset(added)
    ensures forall o :: Has(Or(bits, BitFromOffset(added)), o) <==> Has(bits, o) || o == added
  {
    forall o: Offset ensures Has(Or(bits, BitFromOffset(added)), o) <==> Has(bits, o) || o == added {
      assert o % 4 == 0 ==> (o == added <==> o / 4 == added / 4);
    }
  }

  lemma HasCleared(bits: Word, k: nat)
    requires k < 32
    ensures forall o :: Has(AndNot(bits, HighBit(k)), o) <==> Has(bits, o) && o != OffsetFromClz(k)
  {
  }

  lemma ExactCleared(bits: Word, offsets: set<Offset>, k: nat)
    requires Exact(bits, offsets) && k < 32 && bits[k]
    ensures OffsetFromClz(k) in offsets && Exact(AndNot(bits, HighBit(k)), offsets - {OffsetFromClz(k)})
  {
    hide AndNot, HighBit;
    assert Has(bits, OffsetFromClz(k));
    HasCleared(bits, k);
  }

  lemma ExactEmpty(offsets: set<Offset>)
    requires Exact(ZERO, offsets)
    ensures offsets == {}
  {
    assert forall o :: o in offsets ==> !Has(ZERO, o);
  }
}
