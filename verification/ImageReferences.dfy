/**
 * Which words the image writer relocates: the fields that the reference bitmaps of an object's
 * class encode, or that the walk over its superclasses finds, are all the references of the object.
 */
module ImageReferences {
  import opened Bytes
  import opened Options
  import ImageWriter
  import RefOffsets

  type Object = ImageWriter.Object

  /** The words of an object, by their offsets. */
  ghost function WordsOf(b: seq<Byte>): map<nat, int> {
    map o | 0 <= o < |b| && o % 4 == 0 && o + 4 <= |b| :: ReadWordLE(b[o..o + 4])
  }

  /** A plain object is fixed by its class; an object that is itself a class has static fields as well. */
  datatype Kind = Instance | ClassObject(self: nat)

  /** The fields that `FixupInstanceFields` and, for a class, `FixupStaticFields` visit. */
  ghost function Visited(classes: seq<RefOffsets.Class>, c: nat, kind: Kind): set<nat>
    requires RefOffsets.Chain(classes) && c < |classes| && (kind.ClassObject? ==> kind.self < |classes|)
  {
    RefOffsets.References(classes, c, false)
    + if kind.ClassObject? then RefOffsets.References(classes, kind.self, true) else {}
  }

  ghost function Offsets(refs: seq<ImageWriter.Ref>): set<nat> {
    set k | 0 <= k < |refs| :: refs[k].offset
  }

  /** The class describes the object: its reference fields and the class pointer are all that the object refers to. */
  ghost predicate Described(x: Object, classes: seq<RefOffsets.Class>, c: nat, kind: Kind)
    requires RefOffsets.Chain(classes) && c < |classes| && (kind.ClassObject? ==> kind.self < |classes|)
  {
    Visited(classes, c, kind) + {ImageWriter.CLASS_OFFSET} == Offsets(x.refs)
  }

  /** Null is -1. */
  function Code(target: Option<ImageWriter.Obj>): int {
    if target.None? then -1 else target.value
  }

  /** What the object holds at the offsets of its references. */
  function Targets(refs: seq<ImageWriter.Ref>): map<nat, int> {
    if refs == [] then map[]
    else Targets(refs[..|refs| - 1])[refs[|refs| - 1].offset := Code(refs[|refs| - 1].target)]
  }

  /** `GetImageAddress`. */
  function Address(offsets: map<ImageWriter.Obj, nat>, begin: nat): int -> int {
    r => if r >= 0 && r in offsets then begin + offsets[r] else 0
  }

  lemma {:induction false} TargetsAt(refs: seq<ImageWriter.Ref>)
    requires forall k, m :: 0 <= k < m < |refs| ==> refs[k].offset != refs[m].offset
    ensures Targets(refs).Keys == Offsets(refs)
    ensures forall k :: 0 <= k < |refs| ==> Targets(refs)[refs[k].offset] == Code(refs[k].target)
  {
    if refs != [] {
      var n := |refs| - 1;
      TargetsAt(refs[..n]);
      assert Offsets(refs) == Offsets(refs[..n]) + {refs[n].offset};
    }
  }

  /** A word that is no reference is as it was after the class pointer was set. */
  lemma {:induction false} OtherFixed(x: Object, offsets: map<ImageWriter.Obj, nat>, begin: nat, n: nat, o: nat)
    requires ImageWriter.Relocatable(x, offsets) && 1 <= n <= |x.refs|
    requires o + 4 <= x.SizeOf() && o % 4 == 0 && o !in Offsets(x.refs)
    ensures ImageWriter.Fixed(x, offsets, begin, n)[o..o + 4] == ImageWriter.Fixed(x, offsets, begin, 1)[o..o + 4]
  {
    hide ImageWriter.PutWord, ImageWriter.ImageAddress;
    if n > 1 {
      OtherFixed(x, offsets, begin, n - 1, o);
      var r := x.refs[n - 1];
      assert r.offset in Offsets(x.refs) && r.offset % 4 == 0;
      ImageWriter.OtherWord(ImageWriter.Fixed(x, offsets, begin, n - 1), r.offset,
                            ImageWriter.ImageAddress(offsets, begin, r.target), o);
    }
  }

  /** Every address fits into a word. */
  ghost predicate Addressable(x: Object, offsets: map<ImageWriter.Obj, nat>, begin: nat)
    requires ImageWriter.Relocatable(x, offsets)
  {
    forall k :: 0 <= k < |x.refs| ==> ImageWriter.ImageAddress(offsets, begin, x.refs[k].target) < TWO32
  }

  lemma ReferenceWord(x: Object, offsets: map<ImageWriter.Obj, nat>, begin: nat, n: nat, k: nat)
    requires ImageWriter.Relocatable(x, offsets) && Addressable(x, offsets, begin) && k < n <= |x.refs|
    ensures var o := x.refs[k].offset;
      && o in WordsOf(ImageWriter.Fixed(x, offsets, begin, n))
      && WordsOf(ImageWriter.Fixed(x, offsets, begin, n))[o] == Address(offsets, begin)(Code(x.refs[k].target))
  {
    hide ImageWriter.Fixed, WordLE, ReadWordLE;
    var a := ImageWriter.ImageAddress(offsets, begin, x.refs[k].target);
    ImageWriter.RelocatedRef(x, offsets, begin, n, k);
    WordRoundTrip(a);
    assert x.refs[k].offset % 4 == 0 && x.refs[k].offset + 4 <= x.SizeOf();
  }

  /** One word after the references at `visited` were relocated. */
  ghost function NewWord(x: Object, offsets: map<ImageWriter.Obj, nat>, begin: nat, visited: set<nat>, o: nat): int
    requires ImageWriter.Relocatable(x, offsets) && visited <= Targets(x.refs).Keys
    requires o in visited || o in WordsOf(ImageWriter.Fixed(x, offsets, begin, 1))
  {
    if o in visited then Address(offsets, begin)(Targets(x.refs)[o])
    else WordsOf(ImageWriter.Fixed(x, offsets, begin, 1))[o]
  }

  lemma SameWord(x: Object, offsets: map<ImageWriter.Obj, nat>, begin: nat, visited: set<nat>, o: nat)
    requires ImageWriter.Relocatable(x, offsets) && Addressable(x, offsets, begin)
    requires visited + {ImageWriter.CLASS_OFFSET} == Offsets(x.refs) == Targets(x.refs).Keys
    requires forall k :: 0 <= k < |x.refs| ==> Targets(x.refs)[x.refs[k].offset] == Code(x.refs[k].target)
    requires o in visited || o in WordsOf(ImageWriter.Relocated(x, offsets, begin))
    ensures o in WordsOf(ImageWriter.Relocated(x, offsets, begin))
    ensures o in WordsOf(ImageWriter.Fixed(x, offsets, begin, 1))
    ensures NewWord(x, offsets, begin, visited, o) == WordsOf(ImageWriter.Relocated(x, offsets, begin))[o]
  {
    hide ImageWriter.Fixed, ReadWordLE, Addressable, Address, Code, Targets;
    if o in visited {
      assert o in Offsets(x.refs);
      var k :| 0 <= k < |x.refs| && x.refs[k].offset == o;
      ReferenceWord(x, offsets, begin, |x.refs|, k);
    } else if o == ImageWriter.CLASS_OFFSET {
      assert x.refs[0].offset == o;
      ReferenceWord(x, offsets, begin, |x.refs|, 0);
      ReferenceWord(x, offsets, begin, 1, 0);
    } else {
      OtherFixed(x, offsets, begin, |x.refs|, o);
    }
  }

  /** Relocating the words at all the references is relocating the object. */
  lemma SameWords(x: Object, offsets: map<ImageWriter.Obj, nat>, begin: nat, visited: set<nat>)
    requires ImageWriter.Relocatable(x, offsets) && Addressable(x, offsets, begin)
    requires visited + {ImageWriter.CLASS_OFFSET} == Offsets(x.refs) && visited <= Targets(x.refs).Keys
    ensures RefOffsets.Relocated(WordsOf(ImageWriter.Fixed(x, offsets, begin, 1)), Targets(x.refs), visited,
      Address(offsets, begin))
      == WordsOf(ImageWriter.Relocated(x, offsets, begin))
  {
    TargetsAt(x.refs);
    var first, last :=
      WordsOf(ImageWriter.Fixed(x, offsets, begin, 1)), WordsOf(ImageWriter.Relocated(x, offsets, begin));
    var words := RefOffsets.Relocated(first, Targets(x.refs), visited, Address(offsets, begin));
    assert first.Keys == last.Keys;
    hide WordsOf, ImageWriter.Fixed, ImageWriter.Relocated, Addressable, Address, Targets, Offsets;
    forall o | o in visited || o in last ensures o in last && words[o] == last[o] {
      SameWord(x, offsets, begin, visited, o);
    }
    assert words.Keys == last.Keys;
  }

  /**
   * The fix-up by bitmaps, from the copy whose class pointer has been set: afterwards the copy is
   * the relocated object, whether each bitmap is exact or says that the superclasses must be walked.
   */
  method FixupByClass(copy: RefOffsets.Copy, x: Object, offsets: map<ImageWriter.Obj, nat>, begin: nat,
                      classes: seq<RefOffsets.Class>, c: nat, kind: Kind, instances: RefOffsets.Word,
                      statics: RefOffsets.Word)
    requires ImageWriter.Relocatable(x, offsets) && Addressable(x, offsets, begin)
    requires RefOffsets.Chain(classes) && c < |classes| && (kind.ClassObject? ==> kind.self < |classes|)
    requires Described(x, classes, c, kind) && RefOffsets.Encodes(classes, c, false, instances)
    requires kind.ClassObject? ==> RefOffsets.Encodes(classes, kind.self, true, statics)
    requires copy.words == WordsOf(ImageWriter.Fixed(x, offsets, begin, 1))
    modifies copy
    ensures copy.words == WordsOf(ImageWriter.Relocated(x, offsets, begin))
  {
    hide ImageWriter.Fixed, WordsOf, Addressable, RefOffsets.Relocated, RefOffsets.Encodes, RefOffsets.References,
      Targets;
    ghost var words, visited := copy.words, RefOffsets.References(classes, c, false);
    TargetsAt(x.refs);
    copy.FixupFields(classes, c, false, instances, Targets(x.refs), Address(offsets, begin));
    if kind.ClassObject? {
      ghost var own := RefOffsets.References(classes, kind.self, true);
      copy.FixupFields(classes, kind.self, true, statics, Targets(x.refs), Address(offsets, begin));
      RefOffsets.RelocatedBoth(words, Targets(x.refs), visited, own, Address(offsets, begin));
      visited := visited + own;
    }
    assert visited == Visited(classes, c, kind);
    SameWords(x, offsets, begin, visited);
  }

  /**
   * The image is the heap's graph, seen through the classes: each field that the class of a copied
   * object has for a reference, and its class pointer, holds null or the address of a place with a
   * copy of what the original refers to, or of a string with its text.
   */
  lemma FieldsPreserved(heap: ImageWriter.Heap, offsets: map<ImageWriter.Obj, nat>,
                        interned: map<string, ImageWriter.Obj>,
                        order: seq<ImageWriter.Obj>, end: nat, begin: nat, image: seq<Byte>,
                        last: map<nat, ImageWriter.Obj>, o: ImageWriter.Obj,
                        classes: seq<RefOffsets.Class>, c: nat, kind: Kind, field: nat) returns (r: ImageWriter.Ref)
    requires ImageWriter.Closed(heap) && ImageWriter.Layout(heap, offsets, interned, order, end)
    requires offsets.Keys == heap.Keys
    requires begin + end < TWO32 && ImageWriter.Copied(heap, offsets, begin, image, last)
    requires (forall p :: p in heap ==> offsets[p] in last) && o in heap && last[offsets[o]] == o
    requires RefOffsets.Chain(classes) && c < |classes| && (kind.ClassObject? ==> kind.self < |classes|)
    requires Described(heap[o], classes, c, kind) && field in Visited(classes, c, kind) + {ImageWriter.CLASS_OFFSET}
    ensures r in heap[o].refs && r.offset == field && offsets[o] + field + 4 <= |image|
    ensures if r.target.None? then ImageWriter.FieldWord(image, offsets[o], r) == 0
      else
        && r.target.value in heap
        && ImageWriter.FieldWord(image, offsets[o], r) == begin + offsets[r.target.value]
        && ImageWriter.HoldsCopy(heap, offsets, begin, image, r.target.value, last[offsets[r.target.value]])
  {
    hide ImageWriter.Closed, ImageWriter.Layout, ImageWriter.Copied, ImageWriter.HoldsCopy, ImageWriter.FieldWord,
      Visited;
    var x := heap[o];
    assert field in Offsets(x.refs);
    var k :| 0 <= k < |x.refs| && x.refs[k].offset == field;
    ImageWriter.ReferencesPreserved(heap, offsets, interned, order, end, begin, image, last, o, k);
    r := x.refs[k];
  }
}
