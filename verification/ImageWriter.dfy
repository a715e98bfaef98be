/**
 * The boot image writer: objects of a heap get offsets in the image, equal strings are collapsed
 * onto their interned representative, and a second walk copies every object and relocates its
 * references.
 */
module ImageWriter {
  import opened Bytes
  import opened Options

  /** The address of an object in the heap being written. */
  type Obj = nat

  /** A reference field: where it is in the object, and what it refers to. */
  datatype Ref = Ref(offset: nat, target: Option<Obj>)

  /** `fields` are the reference fields other than the class pointer, which every object has. */
  datatype Object = Object(klass: Obj, bytes: seq<Byte>, fields: seq<Ref>, text: Option<string>) {
    /** Everything the object refers to: its class first. */
    const refs: seq<Ref> := [Ref(CLASS_OFFSET, Some(klass))] + fields

    function SizeOf(): nat { |bytes| }

    predicate IsString() { text.Some? }

    /**
     * The class pointer and the monitor word come first; reference fields are aligned words of
     * the object, apart from one another and from the monitor.
     */
    ghost predicate Valid() {
      && SizeOf() >= 8
      && (forall k :: 0 <= k < |refs| ==>
            refs[k].offset % 4 == 0 && refs[k].offset != MONITOR_OFFSET && refs[k].offset + 4 <= SizeOf())
      && (forall k, m :: 0 <= k < m < |refs| ==> refs[k].offset != refs[m].offset)
    }
  }

  const CLASS_OFFSET: nat := 0
  const MONITOR_OFFSET: nat := 4
  const HEADER_SIZE: nat := 48

  type Heap = map<Obj, Object>

  /** Objects are well formed, references stay inside the heap, and strings are all one size. */
  ghost predicate Closed(heap: Heap) {
    && (forall o :: o in heap ==> heap[o].Valid())
    && (forall o, k :: o in heap && 0 <= k < |heap[o].refs| && heap[o].refs[k].target.Some? ==>
         heap[o].refs[k].target.value in heap)
    && (forall o, p :: o in heap && p in heap && heap[o].IsString() && heap[p].IsString() ==>
         heap[o].SizeOf() == heap[p].SizeOf())
  }

  /** A walk meets every object of the heap once. */
  ghost predicate IsWalk(heap: Heap, walk: seq<Obj>) {
    && (forall k :: 0 <= k < |walk| ==> walk[k] in heap)
    && (forall k, m :: 0 <= k < m < |walk| ==> walk[k] != walk[m])
    && (forall o :: o in heap ==> o in walk)
  }

  ghost function Seen(walk: seq<Obj>, k: nat): set<Obj>
    requires k <= |walk|
  {
    set o | o in walk[..k]
  }

  lemma SeenNext(heap: Heap, walk: seq<Obj>, k: nat)
    requires IsWalk(heap, walk) && k < |walk|
    ensures walk[k] in heap && walk[k] !in Seen(walk, k) && Seen(walk, k + 1) == Seen(walk, k) + {walk[k]}
  {
    assert walk[..k + 1] == walk[..k] + [walk[k]];
  }

  ghost predicate SameText(heap: Heap, o: Obj, p: Obj) {
    o in heap && p in heap && heap[o].IsString() && heap[p].IsString() && heap[o].text == heap[p].text
  }

  // ---- the layout ----

  function Room(heap: Heap, o: Obj): nat
    requires o in heap
  {
    RoundUp(heap[o].SizeOf(), 8)
  }

  /** The end of an image that gives the objects of `order` room one after the other. */
  function End(heap: Heap, order: seq<Obj>): (e: nat)
    requires forall o :: o in order ==> o in heap
    ensures e >= HEADER_SIZE && e % 8 == 0
  {
    if order == [] then HEADER_SIZE
    else End(heap, order[..|order| - 1]) + Room(heap, order[|order| - 1])
  }

  /** Object `o` of the image starts on an 8-byte boundary between the header and `end`. */
  ghost predicate Inside(heap: Heap, offsets: map<Obj, nat>, o: Obj, end: nat) {
    o in heap && o in offsets && offsets[o] % 8 == 0 && HEADER_SIZE <= offsets[o] && offsets[o] + Room(heap, o) <= end
  }

  ghost predicate Before(heap: Heap, offsets: map<Obj, nat>, o: Obj, p: Obj) {
    o in heap && o in offsets && p in offsets && offsets[o] + Room(heap, o) <= offsets[p]
  }

  /** The objects of `order` lie one after the other, in that order, up to `end`. */
  ghost predicate Tiled(heap: Heap, offsets: map<Obj, nat>, order: seq<Obj>, end: nat) {
    && (forall k :: 0 <= k < |order| ==> Inside(heap, offsets, order[k], end))
    && (forall k, m :: 0 <= k < m < |order| ==> Before(heap, offsets, order[k], order[m]))
    && (forall o :: o in order ==> o in heap) && end == End(heap, order)
  }

  /** Only interned strings got room of their own. */
  ghost predicate OnlyRepresentatives(heap: Heap, interned: map<string, Obj>, order: seq<Obj>) {
    forall k :: 0 <= k < |order| ==>
      order[k] in heap && (heap[order[k]].IsString() ==> IsRepresentative(heap, interned, order[k]))
  }

  ghost predicate AllPlaced(heap: Heap, offsets: map<Obj, nat>, interned: map<string, Obj>, order: seq<Obj>) {
    forall o :: o in offsets ==> o in heap && Placed(heap, offsets, interned, order, o)
  }

  /**
   * `order` lists the objects that got room of their own, in file order. Every other object with
   * an offset is a string that shares the room of its interned representative.
   */
  ghost predicate Layout(heap: Heap, offsets: map<Obj, nat>, interned: map<string, Obj>, order: seq<Obj>, end: nat) {
    && Tiled(heap, offsets, order, end) && Interning(heap, interned)
    && OnlyRepresentatives(heap, interned, order) && AllPlaced(heap, offsets, interned, order)
  }

  ghost predicate Interning(heap: Heap, interned: map<string, Obj>) {
    forall t :: t in interned ==> interned[t] in heap && heap[interned[t]].text == Some(t)
  }

  ghost predicate IsRepresentative(heap: Heap, interned: map<string, Obj>, o: Obj) {
    o in heap && heap[o].IsString() && heap[o].text.value in interned && interned[heap[o].text.value] == o
  }

  ghost predicate Placed(heap: Heap, offsets: map<Obj, nat>, interned: map<string, Obj>, order: seq<Obj>, o: Obj)
    requires o in heap && o in offsets
  {
    o in order ||
    (heap[o].IsString() && heap[o].text.value in interned &&
     var r := interned[heap[o].text.value]; r in order && r in offsets && offsets[o] == offsets[r])
  }

  class ImageWriter {
    const heap: Heap
    const imageBegin: nat
    const image: array<Byte>
    var offsets: map<Obj, nat>
    var imageEnd: nat
    var interned: map<string, Obj>
    /** The objects with room of their own, in file order; used by the proof only. */
    ghost var order: seq<Obj>

    ghost predicate Laid()
      reads `offsets, `imageEnd, `interned, `order
    {
      Closed(heap) && Layout(heap, offsets, interned, order, imageEnd)
    }

    constructor (heap: Heap, imageBegin: nat, image: array<Byte>, interned: map<string, Obj>)
      requires Closed(heap)
      requires Interning(heap, interned)
      ensures this.heap == heap && this.imageBegin == imageBegin && this.image == image && this.interned == interned
      ensures offsets == map[] && order == [] && imageEnd == 0
    {
      this.heap, this.imageBegin, this.image, this.interned := heap, imageBegin, image, interned;
      offsets, imageEnd, order := map[], 0, [];
    }

    /** The string table's representative for the text; a text seen for the first time is its own. */
    method Intern(o: Obj) returns (r: Obj)
      requires Laid() && o in heap && heap[o].IsString()
      modifies `interned
      ensures Laid() && heap[o].text.value in interned && r == interned[heap[o].text.value] && SameText(heap, o, r)
      ensures interned == old(interned) ||
        (heap[o].text.value !in old(interned) && interned == old(interned)[heap[o].text.value := o])
    {
      var t := heap[o].text.value;
      if t !in interned {
        InternNew(heap, offsets, interned, order, o);
        hide Tiled, Interning, OnlyRepresentatives, AllPlaced;
        interned := interned[t := o];
      }
      r := interned[t];
    }

    method SetImageOffset(o: Obj, offset: nat)
      requires o !in offsets && offset != 0
      modifies `offsets
      ensures offsets == old(offsets)[o := offset]
    {
      offsets := offsets[o := offset];
    }

    method AssignImageOffset(o: Obj)
      requires Laid() && o in heap && o !in offsets
      requires heap[o].IsString() ==> IsRepresentative(heap, interned, o)
      modifies `offsets, `imageEnd, `order
      ensures Laid() && order == old(order) + [o] && offsets == old(offsets)[o := old(imageEnd)]
    {
      hide Closed, Tiled, AllPlaced, Interning, OnlyRepresentatives, End;
      AppendTiled(heap, offsets, order, imageEnd, o);
      AppendPlaced(heap, offsets, interned, order, imageEnd, o);
      AppendRepresentative(heap, interned, order, o);
      SetImageOffset(o, imageEnd);
      imageEnd := imageEnd + RoundUp(heap[o].SizeOf(), 8);
      order := order + [o];
    }

    /** Objects met ahead of the walk are interned strings that an equal string forced in early. */
    ghost predicate Ahead(visited: set<Obj>)
      reads `offsets, `interned
    {
      && (forall p :: p in visited ==> p in offsets)
      && (forall p :: p in offsets && p !in visited ==> IsRepresentative(heap, interned, p))
    }

    method CalculateNewObjectOffsetsCallback(o: Obj, ghost visited: set<Obj>)
      requires Laid() && Ahead(visited) && o in heap && o !in visited
      modifies `offsets, `imageEnd, `interned, `order
      ensures Laid() && Ahead(visited + {o})
    {
      hide Closed, Layout;
      if heap[o].IsString() {
        if o in offsets {
          assert interned[heap[o].text.value] == o;
          return;
        }
        var r := Intern(o);
        if o != r {
          if r !in offsets {
            AssignImageOffset(r);
          }
          ShareRoom(heap, offsets, interned, order, imageEnd, o);
          SetImageOffset(o, offsets[r]);
          return;
        }
      }
      AssignImageOffset(o);
    }

    /** The first walk gives every object an offset, whatever the order of the walk. */
    method CalculateNewObjectOffsets(walk: seq<Obj>)
      requires Closed(heap) && Interning(heap, interned) && offsets == map[] && order == [] && imageEnd == 0
      requires IsWalk(heap, walk)
      modifies `offsets, `imageEnd, `interned, `order
      ensures Laid() && offsets.Keys == heap.Keys
    {
      imageEnd := imageEnd + RoundUp(HEADER_SIZE, 8);
      assert Tiled(heap, offsets, order, imageEnd);
      for k := 0 to |walk|
        invariant Laid() && Ahead(Seen(walk, k))
      {
        SeenNext(heap, walk, k);
        CalculateNewObjectOffsetsCallback(walk[k], Seen(walk, k));
      }
      AllSeen(heap, offsets, interned, order, imageEnd, walk);
    }

    /** Every object has an offset, and the image has room for all of them below 4 GiB. */
    ghost predicate Ready()
      reads `offsets, `imageEnd, `interned, `order
    {
      Laid() && offsets.Keys == heap.Keys && imageEnd <= image.Length && imageBegin + imageEnd < TWO32
    }

    method StoreWord(at: nat, v: nat)
      requires at + 4 <= image.Length
      modifies image
      ensures image[..] == PutWord(old(image[..]), at, v)
    {
      var w := WordLE(v);
      image[at], image[at + 1], image[at + 2], image[at + 3] := w[0], w[1], w[2], w[3];
      assert image[..] == old(image[..])[..at] + w + old(image[..])[at + 4..];
    }

    method CopyAndFixupObjectsCallback(o: Obj)
      requires Ready() && o in heap
      modifies image
      ensures Relocatable(heap[o], offsets)
      ensures image[..] == Overwrite(old(image[..]), offsets[o], Relocated(heap[o], offsets, imageBegin))
    {
      hide Closed, Layout, Overwrite, PutWord;
      FitsImage(heap, offsets, interned, order, imageEnd, o);
      var offset := offsets[o];
      var n := heap[o].SizeOf();
      ghost var before := image[..];
      forall i | 0 <= i < n {
        image[offset + i] := heap[o].bytes[i];
      }
      MemCopy(before, offset, heap[o].bytes, image[..]);
      OverwriteWord(before, offset, heap[o].bytes, MONITOR_OFFSET, 0);
      StoreWord(offset + MONITOR_OFFSET, 0);
      FixupObject(o, before);
    }

    /** Relocates the class pointer and every reference field of the copy of `o`. */
    method FixupObject(o: Obj, ghost before: seq<Byte>)
      requires o in heap && o in offsets && Relocatable(heap[o], offsets) && |before| == image.Length
      requires offsets[o] + heap[o].SizeOf() <= image.Length
      requires image[..] == Overwrite(before, offsets[o], Fixed(heap[o], offsets, imageBegin, 0))
      modifies image
      ensures image[..] == Overwrite(before, offsets[o], Relocated(heap[o], offsets, imageBegin))
    {
      hide Overwrite, PutWord, ImageAddress;
      var x := heap[o];
      assert x.refs[0] == Ref(CLASS_OFFSET, Some(x.klass));
      OverwriteWord(before, offsets[o], Fixed(x, offsets, imageBegin, 0), CLASS_OFFSET,
                    ImageAddress(offsets, imageBegin, Some(x.klass)));
      StoreWord(offsets[o] + CLASS_OFFSET, ImageAddress(offsets, imageBegin, Some(x.klass)));
      for k := 0 to |x.fields|
        invariant image[..] == Overwrite(before, offsets[o], Fixed(x, offsets, imageBegin, k + 1))
      {
        var r := x.fields[k];
        assert x.refs[k + 1] == r;
        OverwriteWord(before, offsets[o], Fixed(x, offsets, imageBegin, k + 1), r.offset,
                      ImageAddress(offsets, imageBegin, r.target));
        StoreWord(offsets[o] + r.offset, ImageAddress(offsets, imageBegin, r.target));
      }
    }

    /**
     * The second walk. Afterwards each object's place holds the relocated copy of that object or
     * of a string with the same text: `last` says of which.
     */
    method CopyAndFixupObjects(walk: seq<Obj>) returns (ghost last: map<nat, Obj>)
      requires Ready() && IsWalk(heap, walk)
      modifies image
      ensures Ready() && Copied(heap, offsets, imageBegin, image[..], last)
      ensures forall o :: o in heap ==> offsets[o] in last
    {
      hide Closed, Layout, Copied, Overwrite, Relocatable;
      last := map[];
      NoneCopied(heap, offsets, imageBegin, image[..]);
      for k := 0 to |walk|
        invariant Ready() && Copied(heap, offsets, imageBegin, image[..], last)
        invariant forall j :: 0 <= j < k ==> walk[j] in offsets && offsets[walk[j]] in last
      {
        var o := walk[k];
        ghost var before := image[..];
        CopyAndFixupObjectsCallback(o);
        CopiedNext(heap, offsets, interned, order, imageEnd, imageBegin, before, last, o);
        last := last[offsets[o] := o];
      }
    }
  }

  /** A string shares the room of its representative. */
  lemma ShareRoom(heap: Heap, offsets: map<Obj, nat>, interned: map<string, Obj>, order: seq<Obj>, end: nat, o: Obj)
    requires Layout(heap, offsets, interned, order, end) && o in heap && heap[o].IsString() && o !in offsets
    requires heap[o].text.value in interned && interned[heap[o].text.value] in offsets
    ensures Layout(heap, offsets[o := offsets[interned[heap[o].text.value]]], interned, order, end)
    ensures offsets[interned[heap[o].text.value]] != 0
  {
    var r := interned[heap[o].text.value];
    var offsets' := offsets[o := offsets[r]];
    assert Placed(heap, offsets, interned, order, r);
    assert r in order;
    forall k | 0 <= k < |order|
      ensures Inside(heap, offsets', order[k], end) { assert Inside(heap, offsets, order[k], end); }
    forall k, m | 0 <= k < m < |order| ensures Before(heap, offsets', order[k], order[m]) {
      assert Before(heap, offsets, order[k], order[m]);
    }
    forall p | p in offsets' ensures p in heap && Placed(heap, offsets', interned, order, p) {
      if p != o { assert Placed(heap, offsets, interned, order, p); }
    }
  }

  lemma AllSeen(heap: Heap, offsets: map<Obj, nat>, interned: map<string, Obj>, order: seq<Obj>, end: nat,
                walk: seq<Obj>)
    requires Layout(heap, offsets, interned, order, end) && IsWalk(heap, walk)
    requires forall p :: p in Seen(walk, |walk|) ==> p in offsets
    ensures offsets.Keys == heap.Keys
  {
    assert walk[..|walk|] == walk;
    forall o | o in heap ensures o in offsets { assert o in Seen(walk, |walk|); }
  }

  lemma InternNew(heap: Heap, offsets: map<Obj, nat>, interned: map<string, Obj>, order: seq<Obj>, o: Obj)
    requires o in heap && heap[o].IsString() && heap[o].text.value !in interned
    requires Interning(heap, interned) && OnlyRepresentatives(heap, interned, order)
    requires AllPlaced(heap, offsets, interned, order)
    ensures var interned' := interned[heap[o].text.value := o];
      Interning(heap, interned') && OnlyRepresentatives(heap, interned', order) &&
        AllPlaced(heap, offsets, interned', order)
  {
    var interned' := interned[heap[o].text.value := o];
    forall k | 0 <= k < |order| && heap[order[k]].IsString() ensures IsRepresentative(heap, interned', order[k]) {
      assert IsRepresentative(heap, interned, order[k]);
    }
    forall p | p in offsets ensures p in heap && Placed(heap, offsets, interned', order, p) {
      assert Placed(heap, offsets, interned, order, p);
    }
  }

  lemma AppendRepresentative(heap: Heap, interned: map<string, Obj>, order: seq<Obj>, o: Obj)
    requires OnlyRepresentatives(heap, interned, order) && o in heap
    requires heap[o].IsString() ==> IsRepresentative(heap, interned, o)
    ensures OnlyRepresentatives(heap, interned, order + [o])
  {
  }

  lemma AppendTiled(heap: Heap, offsets: map<Obj, nat>, order: seq<Obj>, end: nat, o: Obj)
    requires Tiled(heap, offsets, order, end) && o in heap && o !in offsets
    ensures Tiled(heap, offsets[o := end], order + [o], end + Room(heap, o)) && end >= HEADER_SIZE
  {
    var offsets', order', end' := offsets[o := end], order + [o], end + Room(heap, o);
    assert order'[..|order|] == order;
    EndAligned(heap, offsets, order, end);
    forall k | 0 <= k < |order'| ensures Inside(heap, offsets', order'[k], end') {
      if k < |order| { assert Inside(heap, offsets, order[k], end); }
    }
    forall k, m | 0 <= k < m < |order'| ensures Before(heap, offsets', order'[k], order'[m]) {
      assert Inside(heap, offsets, order[k], end);
      if m < |order| { assert Before(heap, offsets, order[k], order[m]); }
    }
  }

  lemma EndAligned(heap: Heap, offsets: map<Obj, nat>, order: seq<Obj>, end: nat)
    requires Tiled(heap, offsets, order, end)
    ensures end % 8 == 0 && end >= HEADER_SIZE
  {
  }

  lemma AppendPlaced(heap: Heap, offsets: map<Obj, nat>, interned: map<string, Obj>, order: seq<Obj>, end: nat, o: Obj)
    requires AllPlaced(heap, offsets, interned, order) && o in heap && o !in offsets
    ensures AllPlaced(heap, offsets[o := end], interned, order + [o])
  {
    var offsets', order' := offsets[o := end], order + [o];
    forall p | p in offsets' ensures p in heap && Placed(heap, offsets', interned, order', p) {
      if p != o { assert Placed(heap, offsets, interned, order, p); }
    }
  }

  // ---- what the layout gives ----

  /** A string's offset is that of its representative. */
  lemma OffsetOfString(heap: Heap, offsets: map<Obj, nat>, interned: map<string, Obj>, order: seq<Obj>, end: nat,
                       o: Obj)
    requires Closed(heap) && Layout(heap, offsets, interned, order, end) && o in offsets
    ensures o in heap
    ensures heap[o].IsString() ==>
      heap[o].text.value in interned &&
      var r := interned[heap[o].text.value];
        r in order && r in offsets && offsets[o] == offsets[r] && SameText(heap, o, r)
    ensures !heap[o].IsString() ==> o in order
  {
    assert Placed(heap, offsets, interned, order, o);
    if o in order {
      var k :| 0 <= k < |order| && order[k] == o;
      assert heap[o].IsString() ==> IsRepresentative(heap, interned, order[k]);
    }
  }

  /** Two objects share an offset exactly when they are one object or strings with the same text. */
  lemma OffsetsCoincide(heap: Heap, offsets: map<Obj, nat>, interned: map<string, Obj>, order: seq<Obj>, end: nat,
                        o: Obj, p: Obj)
    requires Closed(heap) && Layout(heap, offsets, interned, order, end) && o in offsets && p in offsets
    ensures offsets[o] == offsets[p] <==> o == p || SameText(heap, o, p)
    ensures offsets[o] != offsets[p] ==> Before(heap, offsets, o, p) || Before(heap, offsets, p, o)
    ensures Inside(heap, offsets, o, end)
  {
    OffsetOfString(heap, offsets, interned, order, end, o);
    OffsetOfString(heap, offsets, interned, order, end, p);
    var a := if heap[o].IsString() then interned[heap[o].text.value] else o;
    var b := if heap[p].IsString() then interned[heap[p].text.value] else p;
    assert Room(heap, a) == Room(heap, o) && Room(heap, b) == Room(heap, p);
    RoomsApart(heap, offsets, order, end, a, b);
  }

  lemma RoomsApart(heap: Heap, offsets: map<Obj, nat>, order: seq<Obj>, end: nat, a: Obj, b: Obj)
    requires Closed(heap) && Tiled(heap, offsets, order, end) && a in order && b in order
    ensures Inside(heap, offsets, a, end) && Inside(heap, offsets, b, end)
    ensures a != b ==> offsets[a] != offsets[b] && (Before(heap, offsets, a, b) || Before(heap, offsets, b, a))
  {
    var k :| 0 <= k < |order| && order[k] == a;
    var m :| 0 <= m < |order| && order[m] == b;
    assert Inside(heap, offsets, order[k], end) && Inside(heap, offsets, order[m], end);
    assert heap[a].Valid() && heap[b].Valid();
    if k < m {
      assert Before(heap, offsets, order[k], order[m]);
    } else if m < k {
      assert Before(heap, offsets, order[m], order[k]);
    }
  }

  /** The rooms follow one another without gaps: each starts where the ones before it end. */
  lemma {:induction false} StartsExactly(heap: Heap, offsets: map<Obj, nat>, order: seq<Obj>, end: nat, k: nat)
    requires Tiled(heap, offsets, order, end) && k < |order|
    ensures order[k] in offsets && offsets[order[k]] == End(heap, order[..k])
  {
    StartsLow(heap, offsets, order, end, k);
    StartsHigh(heap, offsets, order, end, k);
  }

  lemma EndStep(heap: Heap, order: seq<Obj>, k: nat)
    requires (forall o :: o in order ==> o in heap) && k < |order|
    ensures order[k] in heap && End(heap, order[..k + 1]) == End(heap, order[..k]) + Room(heap, order[k])
  {
    assert order[..k + 1][..k] == order[..k];
    assert order[k] in order;
  }

  lemma {:induction false} StartsLow(heap: Heap, offsets: map<Obj, nat>, order: seq<Obj>, end: nat, k: nat)
    requires Tiled(heap, offsets, order, end) && k < |order|
    ensures order[k] in offsets && offsets[order[k]] >= End(heap, order[..k])
  {
    assert Inside(heap, offsets, order[k], end);
    if k > 0 {
      StartsLow(heap, offsets, order, end, k - 1);
      assert Before(heap, offsets, order[k - 1], order[k]);
      EndStep(heap, order, k - 1);
    }
  }

  lemma {:induction false} StartsHigh(heap: Heap, offsets: map<Obj, nat>, order: seq<Obj>, end: nat, k: nat)
    requires Tiled(heap, offsets, order, end) && k < |order|
    ensures order[k] in offsets && offsets[order[k]] <= End(heap, order[..k])
    decreases |order| - k
  {
    EndStep(heap, order, k);
    assert Inside(heap, offsets, order[k], end);
    if k + 1 < |order| {
      StartsHigh(heap, offsets, order, end, k + 1);
      assert Before(heap, offsets, order[k], order[k + 1]);
    } else {
      assert order[..k + 1] == order;
    }
  }

  /** Every address between the header and the end is in some object or less than eight bytes after one. */
  lemma {:induction false} NoGaps(heap: Heap, offsets: map<Obj, nat>, order: seq<Obj>, end: nat, a: nat, n: nat)
    requires Tiled(heap, offsets, order, end) && n <= |order| && HEADER_SIZE <= a < End(heap, order[..n])
    ensures exists k ::
      0 <= k < n && Inside(heap, offsets, order[k], end) &&
        offsets[order[k]] <= a < offsets[order[k]] + heap[order[k]].SizeOf() + 7
  {
    assert n > 0;
    EndStep(heap, order, n - 1);
    StartsExactly(heap, offsets, order, end, n - 1);
    if a < End(heap, order[..n - 1]) {
      NoGaps(heap, offsets, order, end, a, n - 1);
    } else {
      assert Inside(heap, offsets, order[n - 1], end);
    }
  }

  // ---- relocated copies ----

  /** `GetImageAddress`: where the target will be at run time; null stays null. */
  function ImageAddress(offsets: map<Obj, nat>, begin: nat, target: Option<Obj>): nat
    requires target.Some? ==> target.value in offsets
  {
    if target.None? then 0 else begin + offsets[target.value]
  }

  function PutWord(b: seq<Byte>, off: nat, v: nat): (r: seq<Byte>)
    requires off + 4 <= |b|
    ensures |r| == |b|
  {
    b[..off] + WordLE(v) + b[off + 4..]
  }

  lemma ThisWord(b: seq<Byte>, p: nat, v: nat)
    requires p + 4 <= |b|
    ensures PutWord(b, p, v)[p..p + 4] == WordLE(v)
  {
  }

  lemma OtherWord(b: seq<Byte>, p: nat, v: nat, o: nat)
    requires p + 4 <= |b| && o + 4 <= |b| && o % 4 == 0 && p % 4 == 0 && o != p
    ensures PutWord(b, p, v)[o..o + 4] == b[o..o + 4]
  {
    assert o + 4 <= p || p + 4 <= o;
  }

  ghost predicate Relocatable(x: Object, offsets: map<Obj, nat>) {
    x.Valid() && forall k :: 0 <= k < |x.refs| && x.refs[k].target.Some? ==> x.refs[k].target.value in offsets
  }

  /** The object's bytes with the monitor cleared and its first `n` references relocated. */
  ghost function Fixed(x: Object, offsets: map<Obj, nat>, begin: nat, n: nat): (r: seq<Byte>)
    requires Relocatable(x, offsets) && n <= |x.refs|
    ensures |r| == x.SizeOf()
  {
    if n == 0 then PutWord(x.bytes, MONITOR_OFFSET, 0)
    else PutWord(Fixed(x, offsets, begin, n - 1), x.refs[n - 1].offset,
      ImageAddress(offsets, begin, x.refs[n - 1].target))
  }

  ghost function Relocated(x: Object, offsets: map<Obj, nat>, begin: nat): (r: seq<Byte>)
    requires Relocatable(x, offsets)
    ensures |r| == x.SizeOf()
  {
    Fixed(x, offsets, begin, |x.refs|)
  }

  /** In a relocated copy every reference field holds its target's image address. */
  lemma {:induction false} RelocatedRef(x: Object, offsets: map<Obj, nat>, begin: nat, n: nat, k: nat)
    requires Relocatable(x, offsets) && k < n <= |x.refs|
    ensures Fixed(x, offsets, begin, n)[x.refs[k].offset..x.refs[k].offset + 4] ==
      WordLE(ImageAddress(offsets, begin, x.refs[k].target))
    decreases n
  {
    hide PutWord, ImageAddress, WordLE;
    var before, p := Fixed(x, offsets, begin, n - 1), x.refs[n - 1].offset;
    if k < n - 1 {
      RelocatedRef(x, offsets, begin, n - 1, k);
      assert x.refs[k].offset % 4 == 0 && p % 4 == 0 && x.refs[k].offset != p;
      OtherWord(before, p, ImageAddress(offsets, begin, x.refs[n - 1].target), x.refs[k].offset);
    } else {
      ThisWord(before, p, ImageAddress(offsets, begin, x.refs[k].target));
    }
  }

  /** ... and every byte that is neither in a reference field nor in the monitor is as it was. */
  lemma {:induction false} RelocatedRest(x: Object, offsets: map<Obj, nat>, begin: nat, n: nat, i: nat)
    requires Relocatable(x, offsets) && n <= |x.refs| && i < x.SizeOf() && !(MONITOR_OFFSET <= i < MONITOR_OFFSET + 4)
    requires forall k :: 0 <= k < n ==> !(x.refs[k].offset <= i < x.refs[k].offset + 4)
    ensures Fixed(x, offsets, begin, n)[i] == x.bytes[i]
    decreases n
  {
    if n > 0 { RelocatedRest(x, offsets, begin, n - 1, i); }
  }

  /** The monitor word of a relocated copy is clear. */
  lemma {:induction false} MonitorCleared(x: Object, offsets: map<Obj, nat>, begin: nat, n: nat)
    requires Relocatable(x, offsets) && n <= |x.refs|
    ensures Fixed(x, offsets, begin, n)[MONITOR_OFFSET..MONITOR_OFFSET + 4] == [0, 0, 0, 0]
  {
    if n > 0 {
      MonitorCleared(x, offsets, begin, n - 1);
      var r := x.refs[n - 1];
      assert r.offset % 4 == 0 && r.offset != MONITOR_OFFSET;
      hide PutWord;
      OtherWord(Fixed(x, offsets, begin, n - 1), r.offset, ImageAddress(offsets, begin, r.target), MONITOR_OFFSET);
    } else {
      ThisWord(x.bytes, MONITOR_OFFSET, 0);
    }
  }

  // ---- copying ----

  function Overwrite(b: seq<Byte>, at: nat, d: seq<Byte>): (r: seq<Byte>)
    requires at + |d| <= |b|
    ensures |r| == |b|
  {
    b[..at] + d + b[at + |d|..]
  }

  lemma MemCopy(b: seq<Byte>, at: nat, d: seq<Byte>, r: seq<Byte>)
    requires at + |d| <= |b| == |r|
    requires forall i :: 0 <= i < |b| ==> r[i] == if at <= i < at + |d| then d[i - at] else b[i]
    ensures r == Overwrite(b, at, d)
  {
  }

  /** Storing a word inside what was written is writing the changed bytes. */
  lemma OverwriteWord(b: seq<Byte>, at: nat, d: seq<Byte>, off: nat, v: nat)
    requires at + |d| <= |b| && off + 4 <= |d|
    ensures PutWord(Overwrite(b, at, d), at + off, v) == Overwrite(b, at, PutWord(d, off, v))
  {
    var o := Overwrite(b, at, d);
    assert o[..at + off] == b[..at] + d[..off];
    assert o[at + off + 4..] == d[off + 4..] + b[at + |d|..];
  }

  lemma FitsImage(heap: Heap, offsets: map<Obj, nat>, interned: map<string, Obj>, order: seq<Obj>, end: nat, o: Obj)
    requires Closed(heap) && Layout(heap, offsets, interned, order, end) && offsets.Keys == heap.Keys && o in heap
    ensures offsets[o] + heap[o].SizeOf() <= end && Relocatable(heap[o], offsets)
  {
    OffsetsCoincide(heap, offsets, interned, order, end, o, o);
  }

  /** Each offset in `last` holds the relocated copy of the object `last` names there. */
  ghost predicate Copied(heap: Heap, offsets: map<Obj, nat>, begin: nat, image: seq<Byte>, last: map<nat, Obj>) {
    forall x :: x in last ==>
      && last[x] in heap && last[x] in offsets && offsets[last[x]] == x
      && Relocatable(heap[last[x]], offsets) && At(image, x, Relocated(heap[last[x]], offsets, begin))
  }

  lemma NoneCopied(heap: Heap, offsets: map<Obj, nat>, begin: nat, image: seq<Byte>)
    ensures Copied(heap, offsets, begin, image, map[])
  {
  }

  lemma CopiedNext(heap: Heap, offsets: map<Obj, nat>, interned: map<string, Obj>, order: seq<Obj>, end: nat,
                   begin: nat, image: seq<Byte>, last: map<nat, Obj>, o: Obj)
    requires Closed(heap) && Layout(heap, offsets, interned, order, end) && offsets.Keys == heap.Keys && o in heap
    requires end <= |image| && Copied(heap, offsets, begin, image, last) && Relocatable(heap[o], offsets)
    ensures offsets[o] + heap[o].SizeOf() <= end
    ensures Copied(heap, offsets, begin, Overwrite(image, offsets[o], Relocated(heap[o], offsets, begin)),
      last[offsets[o] := o])
  {
    hide Closed, Layout, Relocatable, Relocated, Overwrite, Room, At;
    FitsImage(heap, offsets, interned, order, end, o);
    var d := Relocated(heap[o], offsets, begin);
    var image', last' := Overwrite(image, offsets[o], d), last[offsets[o] := o];
    OverwriteHere(image, offsets[o], d);
    forall x | x in last' && x != offsets[o] ensures At(image', x, Relocated(heap[last'[x]], offsets, begin)) {
      OffsetsCoincide(heap, offsets, interned, order, end, o, last[x]);
      RoomEnough(heap, o);
      RoomEnough(heap, last[x]);
      OverwriteElsewhere(image, offsets[o], d, x, Relocated(heap[last[x]], offsets, begin));
    }
  }

  lemma RoomEnough(heap: Heap, o: Obj)
    requires o in heap
    ensures heap[o].SizeOf() <= Room(heap, o)
  {
  }

  lemma OverwriteHere(b: seq<Byte>, at: nat, d: seq<Byte>)
    requires at + |d| <= |b|
    ensures At(Overwrite(b, at, d), at, d)
  {
  }

  lemma OverwriteElsewhere(b: seq<Byte>, at: nat, d: seq<Byte>, x: nat, e: seq<Byte>)
    requires at + |d| <= |b| && At(b, x, e) && (x + |e| <= at || at + |d| <= x)
    ensures At(Overwrite(b, at, d), x, e)
  {
  }

  /** Whatever stands at an object's place is its own copy or that of a string with the same text. */
  ghost predicate HoldsCopy(heap: Heap, offsets: map<Obj, nat>, begin: nat, image: seq<Byte>, o: Obj, u: Obj) {
    && o in offsets && u in heap && (u == o || SameText(heap, u, o))
    && Relocatable(heap[u], offsets) && At(image, offsets[o], Relocated(heap[u], offsets, begin))
  }

  lemma CopyOfEquivalent(heap: Heap, offsets: map<Obj, nat>, interned: map<string, Obj>, order: seq<Obj>, end: nat,
                         begin: nat, image: seq<Byte>, last: map<nat, Obj>, o: Obj)
    requires Closed(heap) && Layout(heap, offsets, interned, order, end) && offsets.Keys == heap.Keys
    requires Copied(heap, offsets, begin, image, last) && o in heap && offsets[o] in last
    ensures HoldsCopy(heap, offsets, begin, image, o, last[offsets[o]])
  {
    hide Closed, Layout, Relocated, At;
    OffsetsCoincide(heap, offsets, interned, order, end, last[offsets[o]], o);
  }

  /** The word in the image for field `r` of the object at offset `x`. */
  ghost function FieldWord(image: seq<Byte>, x: nat, r: Ref): nat
    requires x + r.offset + 4 <= |image|
  {
    ReadWordLE(image[x + r.offset..x + r.offset + 4])
  }

  lemma FieldHoldsAddress(x: Object, offsets: map<Obj, nat>, begin: nat, image: seq<Byte>, at: nat, k: nat)
    requires Relocatable(x, offsets) && At(image, at, Relocated(x, offsets, begin)) && k < |x.refs|
    requires ImageAddress(offsets, begin, x.refs[k].target) < TWO32
    ensures at + x.refs[k].offset + 4 <= |image|
    ensures FieldWord(image, at, x.refs[k]) == ImageAddress(offsets, begin, x.refs[k].target)
  {
    var o, copy, a := x.refs[k].offset, Relocated(x, offsets, begin), ImageAddress(offsets, begin, x.refs[k].target);
    assert copy[o..o + 4] == WordLE(a) by { RelocatedRef(x, offsets, begin, |x.refs|, k); }
    hide At, Relocated, WordLE, ReadWordLE, ImageAddress;
    AtSlice(image, at, copy, o, 4);
    WordRoundTrip(a);
  }

  /**
   * The image is the heap's graph: each reference field of a copied object holds the address of a
   * place that holds the relocated copy of the field's target, or of a string with its text.
   */
  lemma ReferencesPreserved(heap: Heap, offsets: map<Obj, nat>, interned: map<string, Obj>, order: seq<Obj>, end: nat,
                            begin: nat, image: seq<Byte>, last: map<nat, Obj>, o: Obj, k: nat)
    requires Closed(heap) && Layout(heap, offsets, interned, order, end) && offsets.Keys == heap.Keys
    requires begin + end < TWO32 && Copied(heap, offsets, begin, image, last)
    requires forall p :: p in heap ==> offsets[p] in last
    requires o in heap && last[offsets[o]] == o && k < |heap[o].refs|
    ensures offsets[o] + heap[o].refs[k].offset + 4 <= |image|
    ensures var r := heap[o].refs[k];
      if r.target.None? then FieldWord(image, offsets[o], r) == 0
      else
        && r.target.value in heap
        && FieldWord(image, offsets[o], r) == begin + offsets[r.target.value]
        && HoldsCopy(heap, offsets, begin, image, r.target.value, last[offsets[r.target.value]])
  {
    var r := heap[o].refs[k];
    hide Layout;
    FitsImage(heap, offsets, interned, order, end, o);
    if r.target.Some? {
      FitsImage(heap, offsets, interned, order, end, r.target.value);
      CopyOfEquivalent(heap, offsets, interned, order, end, begin, image, last, r.target.value);
    }
    hide Closed, Layout, Relocated, At, FieldWord, HoldsCopy;
    FieldHoldsAddress(heap[o], offsets, begin, image, offsets[o], k);
  }
}
