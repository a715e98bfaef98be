/**
 * The oat file layout as the first pass of the oat writer computes it, and the argument that a
 * second pass which compares offsets finds every first copy and no later one.
 */
module OatLayout {
  import opened Bytes
  import opened Options

  datatype InstructionSet = Arm | Thumb2 | Mips | X86

  function AlignCode(offset: nat, isa: InstructionSet): (r: nat)
    ensures offset <= r
  {
    match isa
    case Arm => RoundUp(offset, 8)
    case Thumb2 => RoundUp(offset, 8)
    case Mips => RoundUp(offset, 8)
    case X86 => RoundUp(offset, 16)
  }

  function CodeAlignment(isa: InstructionSet): nat {
    if isa.X86? then 16 else 8
  }

  /** The aligned offset is the least multiple of the instruction set's alignment at or above the offset. */
  lemma AlignCodeLeast(offset: nat, isa: InstructionSet, m: nat)
    ensures AlignCode(offset, isa) % CodeAlignment(isa) == 0 && offset <= AlignCode(offset, isa)
    ensures offset <= m && m % CodeAlignment(isa) == 0 ==> AlignCode(offset, isa) <= m
  {
    if offset <= m && m % CodeAlignment(isa) == 0 {
      RoundUpLeast(offset, CodeAlignment(isa), m);
    }
  }

  /** Thumb code addresses carry the low-order bit. */
  function CodeDelta(isa: InstructionSet): nat {
    if isa.Thumb2? then 1 else 0
  }

  /** The address of a byte vector held by the compiler driver; deduplication compares addresses. */
  type Ptr = nat

  type Blobs = Ptr -> seq<Byte>

  datatype CompiledMethod = CompiledMethod(
    isa: InstructionSet, code: Ptr, frameSize: nat, coreSpillMask: nat, fpSpillMask: nat,
    mapping: Ptr, vmap: Ptr, gcMap: Ptr)

  /** A class without class data has no methods; an abstract method has no compiled method. */
  datatype ClassDef = ClassDef(status: nat, methods: seq<Option<CompiledMethod>>)

  datatype OatMethodOffsets = OatMethodOffsets(
    codeOffset: nat, frameSize: nat, coreSpillMask: nat, fpSpillMask: nat,
    mappingTableOffset: nat, vmapTableOffset: nat, gcMapOffset: nat)

  const STACK_ALIGNMENT: nat := 16

  const NO_CODE := OatMethodOffsets(0, STACK_ALIGNMENT, 0, 0, 0, 0, 0)

  /**
   * The running offset and the four deduplication maps. `delta` remembers, for the proof only,
   * which Thumb delta is inside each recorded code offset.
   */
  datatype Layout = Layout(
    offset: nat, code: map<Ptr, nat>, delta: map<Ptr, nat>,
    mapping: map<Ptr, nat>, vmap: map<Ptr, nat>, gcMap: map<Ptr, nat>)

  function Place(offset: nat, table: map<Ptr, nat>, p: Ptr, size: nat): (nat, map<Ptr, nat>) {
    if p in table then (offset, table)
    else (offset + size, table[p := if size == 0 then 0 else U32(offset)])
  }

  function CodeStep(b: Blobs, s: Layout, m: CompiledMethod): Layout {
    var offset := AlignCode(s.offset, m.isa);
    if m.code in s.code then s.(offset := offset)
    else s.(offset := offset + 4 + |b(m.code)|,
            code := s.code[m.code := U32(offset + 4 + CodeDelta(m.isa))],
            delta := s.delta[m.code := CodeDelta(m.isa)])
  }

  function MappingStep(b: Blobs, s: Layout, m: CompiledMethod): Layout {
    var (o, t) := Place(s.offset, s.mapping, m.mapping, |b(m.mapping)|);
    s.(offset := o, mapping := t)
  }

  function VmapStep(b: Blobs, s: Layout, m: CompiledMethod): Layout {
    var (o, t) := Place(s.offset, s.vmap, m.vmap, |b(m.vmap)|);
    s.(offset := o, vmap := t)
  }

  function GcMapStep(b: Blobs, s: Layout, m: CompiledMethod): Layout {
    var (o, t) := Place(s.offset, s.gcMap, m.gcMap, |b(m.gcMap)|);
    s.(offset := o, gcMap := t)
  }

  ghost predicate Knows(s: Layout, m: CompiledMethod) {
    m.code in s.code && m.code in s.delta && m.mapping in s.mapping && m.vmap in s.vmap && m.gcMap in s.gcMap
  }

  function CompiledStep(b: Blobs, s: Layout, m: CompiledMethod): Layout {
    GcMapStep(b, VmapStep(b, MappingStep(b, CodeStep(b, s, m), m), m), m)
  }

  function Step(b: Blobs, s: Layout, m: Option<CompiledMethod>): Layout {
    if m.None? then s else CompiledStep(b, s, m.value)
  }

  function OffsetsOf(s: Layout, m: CompiledMethod): OatMethodOffsets
    requires Knows(s, m)
  {
    OatMethodOffsets(s.code[m.code], m.frameSize, m.coreSpillMask, m.fpSpillMask,
                     s.mapping[m.mapping], s.vmap[m.vmap], s.gcMap[m.gcMap])
  }

  ghost predicate Dedup(s: Layout) { s.code.Keys == s.delta.Keys }

  /** What the first pass records for the method it meets in state `s`. */
  function Recorded(b: Blobs, s: Layout, m: Option<CompiledMethod>): OatMethodOffsets
    requires Dedup(s)
  {
    if m.None? then NO_CODE else OffsetsOf(CompiledStep(b, s, m.value), m.value)
  }

  function AfterMethods(b: Blobs, s: Layout, ms: seq<Option<CompiledMethod>>): Layout {
    if ms == [] then s else Step(b, AfterMethods(b, s, ms[..|ms| - 1]), ms[|ms| - 1])
  }

  /** The offsets recorded for the methods of one class met in state `s`. */
  function RecordedAll(b: Blobs, s: Layout, ms: seq<Option<CompiledMethod>>): (r: seq<OatMethodOffsets>)
    requires Dedup(s)
    ensures |r| == |ms|
  {
    if ms == [] then []
    else
      var front := ms[..|ms| - 1];
      MethodsLeq(b, s, front, 0);
      RecordedAll(b, s, front) + [Recorded(b, AfterMethods(b, s, front), ms[|ms| - 1])]
  }

  lemma {:induction false} RecordedEach(b: Blobs, s: Layout, ms: seq<Option<CompiledMethod>>, k: nat)
    requires Dedup(s) && k < |ms|
    ensures Dedup(AfterMethods(b, s, ms[..k]))
    ensures RecordedAll(b, s, ms)[k] == Recorded(b, AfterMethods(b, s, ms[..k]), ms[k])
    ensures RecordedAll(b, s, ms[..k + 1]) == RecordedAll(b, s, ms[..k]) + [RecordedAll(b, s, ms)[k]]
    ensures AfterMethods(b, s, ms[..k + 1]) == Step(b, AfterMethods(b, s, ms[..k]), ms[k])
    decreases |ms|
  {
    MethodsLeq(b, s, ms[..k], 0);
    assert ms[..k + 1][..k] == ms[..k];
    if k + 1 == |ms| {
      assert ms[..k + 1] == ms;
    } else {
      var front := ms[..|ms| - 1];
      assert front[..k] == ms[..k] && front[..k + 1] == ms[..k + 1];
      RecordedEach(b, s, front, k);
    }
  }

  function AfterClasses(b: Blobs, s: Layout, cs: seq<ClassDef>): Layout {
    if cs == [] then s
    else AfterMethods(b, AfterClasses(b, s, cs[..|cs| - 1]), cs[|cs| - 1].methods)
  }

  /** The state in which method `k` of class `c` is met. */
  function StateAt(b: Blobs, s: Layout, cs: seq<ClassDef>, c: nat, k: nat): Layout
    requires c < |cs| && k <= |cs[c].methods|
  {
    AfterMethods(b, AfterClasses(b, s, cs[..c]), cs[c].methods[..k])
  }

  // ---- the maps only grow and the offset never decreases ----

  ghost predicate Sub(x: map<Ptr, nat>, y: map<Ptr, nat>) {
    forall p :: p in x ==> p in y && y[p] == x[p]
  }

  ghost predicate Leq(s: Layout, t: Layout) {
    s.offset <= t.offset && Sub(s.code, t.code) &&
    Sub(s.mapping, t.mapping) && Sub(s.vmap, t.vmap) && Sub(s.gcMap, t.gcMap) &&
    (Dedup(s) ==> Dedup(t) && Sub(s.delta, t.delta))
  }

  lemma LeqTrans(s: Layout, t: Layout, u: Layout)
    requires Leq(s, t) && Leq(t, u)
    ensures Leq(s, u)
  {
  }

  lemma CodeAligned(b: Blobs, s: Layout, m: CompiledMethod)
    ensures s.offset <= AlignCode(s.offset, m.isa) <= CodeStep(b, s, m).offset
  {
  }

  lemma CodeLeq(b: Blobs, s: Layout, m: CompiledMethod)
    ensures Leq(s, CodeStep(b, s, m)) && m.code in CodeStep(b, s, m).code
  {
    var t := CodeStep(b, s, m);
    if m.code !in s.code {
      assert Dedup(s) ==> t.code.Keys == s.code.Keys + {m.code} == t.delta.Keys;
    }
  }

  lemma PlaceSub(offset: nat, table: map<Ptr, nat>, p: Ptr, size: nat)
    ensures var (o, t) := Place(offset, table, p, size); offset <= o && Sub(table, t) && p in t
  {
  }

  lemma TablesLeq(b: Blobs, s: Layout, m: CompiledMethod)
    ensures var t := GcMapStep(b, VmapStep(b, MappingStep(b, s, m), m), m);
      Leq(s, t) && m.mapping in t.mapping && m.vmap in t.vmap && m.gcMap in t.gcMap && t.code == s.code &&
        t.delta == s.delta
  {
    var s1 := MappingStep(b, s, m);
    var s2 := VmapStep(b, s1, m);
    PlaceSub(s.offset, s.mapping, m.mapping, |b(m.mapping)|);
    PlaceSub(s1.offset, s1.vmap, m.vmap, |b(m.vmap)|);
    PlaceSub(s2.offset, s2.gcMap, m.gcMap, |b(m.gcMap)|);
  }

  lemma StepLeq(b: Blobs, s: Layout, m: Option<CompiledMethod>)
    ensures Leq(s, Step(b, s, m))
    ensures m.Some? && Dedup(s) ==> Knows(Step(b, s, m), m.value)
  {
    if m.Some? {
      var s1 := CodeStep(b, s, m.value);
      CodeLeq(b, s, m.value);
      TablesLeq(b, s1, m.value);
      LeqTrans(s, s1, CompiledStep(b, s, m.value));
    }
  }

  lemma {:induction false} MethodsLeq(b: Blobs, s: Layout, ms: seq<Option<CompiledMethod>>, k: nat)
    requires k <= |ms|
    ensures Leq(AfterMethods(b, s, ms[..k]), AfterMethods(b, s, ms))
    ensures Leq(s, AfterMethods(b, s, ms))
    decreases |ms|
  {
    if |ms| == 0 {
    } else {
      var front := ms[..|ms| - 1];
      StepLeq(b, AfterMethods(b, s, front), ms[|ms| - 1]);
      MethodsLeq(b, s, front, if k < |ms| then k else |front|);
      if k < |ms| {
        assert front[..k] == ms[..k];
      } else {
        assert ms[..k] == ms;
      }
    }
  }

  lemma {:induction false} ClassesLeq(b: Blobs, s: Layout, cs: seq<ClassDef>, c: nat)
    requires c <= |cs|
    ensures Leq(AfterClasses(b, s, cs[..c]), AfterClasses(b, s, cs))
    ensures Leq(s, AfterClasses(b, s, cs))
    decreases |cs|
  {
    if |cs| == 0 {
    } else {
      var front := cs[..|cs| - 1];
      MethodsLeq(b, AfterClasses(b, s, front), cs[|cs| - 1].methods, 0);
      ClassesLeq(b, s, front, if c < |cs| then c else |front|);
      if c < |cs| {
        assert front[..c] == cs[..c];
      } else {
        assert cs[..c] == cs;
      }
    }
  }

  lemma StateStep(b: Blobs, s: Layout, cs: seq<ClassDef>, c: nat, k: nat)
    requires c < |cs| && k < |cs[c].methods|
    ensures StateAt(b, s, cs, c, k + 1) == Step(b, StateAt(b, s, cs, c, k), cs[c].methods[k])
  {
    assert cs[c].methods[..k + 1][..k] == cs[c].methods[..k];
  }

  lemma StateAfterStart(b: Blobs, s: Layout, cs: seq<ClassDef>, c: nat, k: nat)
    requires c < |cs| && k <= |cs[c].methods|
    ensures Leq(s, StateAt(b, s, cs, c, k))
  {
    var before := AfterClasses(b, s, cs[..c]);
    ClassesLeq(b, s, cs[..c], 0);
    MethodsLeq(b, before, cs[c].methods[..k], 0);
    LeqTrans(s, before, StateAt(b, s, cs, c, k));
  }

  lemma StateBeforeEnd(b: Blobs, s: Layout, cs: seq<ClassDef>, c: nat, k: nat)
    requires c < |cs| && k <= |cs[c].methods|
    ensures Leq(StateAt(b, s, cs, c, k), AfterClasses(b, s, cs))
  {
    var here, next, end := StateAt(b, s, cs, c, k), AfterClasses(b, s, cs[..c + 1]), AfterClasses(b, s, cs);
    assert Leq(here, next) by {
      NextClass(b, s, cs, c);
      MethodsLeq(b, AfterClasses(b, s, cs[..c]), cs[c].methods, k);
    }
    assert Leq(next, end) by { ClassesLeq(b, s, cs, c + 1); }
    LeqTrans(here, next, end);
  }

  lemma NextClass(b: Blobs, s: Layout, cs: seq<ClassDef>, c: nat)
    requires c < |cs|
    ensures StateAt(b, s, cs, c, |cs[c].methods|) == AfterClasses(b, s, cs[..c + 1])
    ensures AfterMethods(b, AfterClasses(b, s, cs[..c]), cs[c].methods) == AfterClasses(b, s, cs[..c + 1])
    ensures StateAt(b, s, cs, c, 0) == AfterClasses(b, s, cs[..c])
  {
    assert cs[..c + 1][..c] == cs[..c];
    assert cs[c].methods[..|cs[c].methods|] == cs[c].methods;
  }

  // ---- what has been written ----

  ghost predicate EntryOk(d: seq<Byte>, off: nat, w: seq<Byte>) {
    if |d| == 0 then off == 0 else 0 < off && At(w, off, d)
  }

  ghost predicate TableOk(b: Blobs, table: map<Ptr, nat>, w: seq<Byte>) {
    forall p :: p in table ==> EntryOk(b(p), table[p], w)
  }

  /** The code stands after its size, and the recorded offset is its start plus the Thumb delta. */
  ghost predicate CodeEntryOk(d: seq<Byte>, off: nat, delta: nat, w: seq<Byte>) {
    delta <= 1 && |d| > 0 && delta + 4 <= off && At(w, off - delta - 4, WordLE(|d|)) && At(w, off - delta, d)
  }

  ghost predicate CodeOk(b: Blobs, code: map<Ptr, nat>, delta: map<Ptr, nat>, w: seq<Byte>) {
    code.Keys == delta.Keys && forall p :: p in code ==> CodeEntryOk(b(p), code[p], delta[p], w)
  }

  /** `w` is a correct file so far: it ends at the running offset and holds every recorded blob. */
  ghost predicate Good(b: Blobs, s: Layout, w: seq<Byte>) {
    && |w| == s.offset > 0 && Dedup(s)
    && CodeOk(b, s.code, s.delta, w)
    && TableOk(b, s.mapping, w) && TableOk(b, s.vmap, w) && TableOk(b, s.gcMap, w)
  }

  lemma GoodSize(b: Blobs, s: Layout, w: seq<Byte>)
    requires Good(b, s, w)
    ensures |w| == s.offset > 0
  {
  }

  lemma AtAppend(w: seq<Byte>, d: seq<Byte>, off: nat, data: seq<Byte>)
    requires At(w, off, data)
    ensures At(w + d, off, data)
  {
  }

  lemma TableAppend(b: Blobs, table: map<Ptr, nat>, w: seq<Byte>, d: seq<Byte>)
    requires TableOk(b, table, w)
    ensures TableOk(b, table, w + d)
  {
    forall p | p in table ensures EntryOk(b(p), table[p], w + d) {
      if |b(p)| > 0 { AtAppend(w, d, table[p], b(p)); }
    }
  }

  lemma CodeAppend(b: Blobs, s: Layout, w: seq<Byte>, d: seq<Byte>)
    requires CodeOk(b, s.code, s.delta, w)
    ensures CodeOk(b, s.code, s.delta, w + d)
  {
    forall p | p in s.code ensures CodeEntryOk(b(p), s.code[p], s.delta[p], w + d) {
      AtAppend(w, d, s.code[p] - s.delta[p] - 4, WordLE(|b(p)|));
      AtAppend(w, d, s.code[p] - s.delta[p], b(p));
    }
  }

  lemma GoodAppend(b: Blobs, s: Layout, w: seq<Byte>, d: seq<Byte>)
    requires Good(b, s, w)
    ensures Good(b, s.(offset := s.offset + |d|), w + d)
  {
    CodeAppend(b, s, w, d);
    TableAppend(b, s.mapping, w, d);
    TableAppend(b, s.vmap, w, d);
    TableAppend(b, s.gcMap, w, d);
  }

  /** The second pass's test: the map knows the blob and we are not at its recorded offset. */
  predicate AlreadyWritten(known: map<Ptr, nat>, p: Ptr, here: nat, recorded: nat) {
    p in known && here != recorded
  }

  /**
   * The test, made with the finished map, agrees with what the first pass did: a table is written
   * exactly when the first pass made room for it here, and the file stays correct.
   */
  lemma TableTest(b: Blobs, offset: nat, table: map<Ptr, nat>, w: seq<Byte>, p: Ptr, last: map<Ptr, nat>)
    requires |w| == offset && 0 < offset < TWO32 && TableOk(b, table, w)
    requires Sub(Place(offset, table, p, |b(p)|).1, last)
    ensures var (o, t) := Place(offset, table, p, |b(p)|);
      var w' := if AlreadyWritten(last, p, offset, t[p]) then w else w + b(p);
      |w'| == o && TableOk(b, t, w')
    ensures |b(p)| > 0 ==> (AlreadyWritten(last, p, offset, Place(offset, table, p, |b(p)|).1[p]) <==> p in table)
  {
    if p in table {
      assert EntryOk(b(p), table[p], w);
    } else {
      TableAppend(b, table, w, b(p));
      assert At(w + b(p), offset, b(p));
    }
  }

  /** The same for code, where the compared offset carries the size word and the Thumb delta. */
  lemma CodeTest(b: Blobs, s: Layout, w: seq<Byte>, m: CompiledMethod, last: map<Ptr, nat>)
    requires |w| == AlignCode(s.offset, m.isa)
    requires CodeStep(b, s, m).offset < TWO32 && CodeOk(b, s.code, s.delta, w) && |b(m.code)| > 0
    requires Sub(CodeStep(b, s, m).code, last)
    ensures AlreadyWritten(last, m.code, |w| + 4 + CodeDelta(m.isa), CodeStep(b, s, m).code[m.code]) <==>
      m.code in s.code
  {
    if m.code in s.code {
      assert CodeEntryOk(b(m.code), s.code[m.code], s.delta[m.code], w);
    }
  }

  lemma FirstCopy(b: Blobs, s: Layout, w: seq<Byte>, m: CompiledMethod)
    requires |w| == AlignCode(s.offset, m.isa)
    requires CodeStep(b, s, m).offset < TWO32 && CodeOk(b, s.code, s.delta, w) && |b(m.code)| > 0
    requires m.code !in s.code
    ensures CodeOk(b, CodeStep(b, s, m).code, CodeStep(b, s, m).delta, w + WordLE(|b(m.code)|) + b(m.code))
  {
    var size, code := WordLE(|b(m.code)|), b(m.code);
    var t, w' := CodeStep(b, s, m), w + size + code;
    assert w' == w + (size + code);
    CodeAppend(b, s, w, size + code);
    assert At(w + size, |w|, size);
    AtAppend(w + size, code, |w|, size);
    assert At(w', |w| + 4, code);
    assert t.code.Keys == t.delta.Keys;
    forall p | p in t.code ensures CodeEntryOk(b(p), t.code[p], t.delta[p], w') {
      assert p != m.code ==> CodeEntryOk(b(p), s.code[p], s.delta[p], w');
    }
  }

  /** One code write of the second pass, after the alignment seek added `pad`. */
  lemma CodeWritten(b: Blobs, s: Layout, w: seq<Byte>, pad: seq<Byte>, m: CompiledMethod, last: map<Ptr, nat>)
    requires Good(b, s, w) && |w + pad| == AlignCode(s.offset, m.isa)
    requires CodeStep(b, s, m).offset < TWO32 && |b(m.code)| > 0
    requires Sub(CodeStep(b, s, m).code, last)
    ensures var t := CodeStep(b, s, m);
      var skip := AlreadyWritten(last, m.code, |w + pad| + 4 + CodeDelta(m.isa), t.code[m.code]);
      Good(b, t, if skip then w + pad else w + pad + WordLE(|b(m.code)|) + b(m.code))
  {
    hide TableOk, CodeEntryOk, CodeOk;
    var t, w1 := CodeStep(b, s, m), w + pad;
    GoodAppend(b, s, w, pad);
    CodeTest(b, s, w1, m, last);
    if m.code !in s.code {
      FirstCopy(b, s, w1, m);
      var d := WordLE(|b(m.code)|) + b(m.code);
      assert w1 + WordLE(|b(m.code)|) + b(m.code) == w1 + d;
      TableAppend(b, s.mapping, w1, d);
      TableAppend(b, s.vmap, w1, d);
      TableAppend(b, s.gcMap, w1, d);
    }
  }

  lemma MappingWritten(b: Blobs, s: Layout, w: seq<Byte>, m: CompiledMethod, last: map<Ptr, nat>)
    requires Good(b, s, w) && s.offset < TWO32 && Sub(MappingStep(b, s, m).mapping, last)
    ensures var t := MappingStep(b, s, m);
      Good(b, t, if AlreadyWritten(last, m.mapping, |w|, t.mapping[m.mapping]) then w else w + b(m.mapping))
  {
    TableTest(b, s.offset, s.mapping, w, m.mapping, last);
    GoodAppend(b, s, w, b(m.mapping));
  }

  lemma VmapWritten(b: Blobs, s: Layout, w: seq<Byte>, m: CompiledMethod, last: map<Ptr, nat>)
    requires Good(b, s, w) && s.offset < TWO32 && Sub(VmapStep(b, s, m).vmap, last)
    ensures var t := VmapStep(b, s, m);
      Good(b, t, if AlreadyWritten(last, m.vmap, |w|, t.vmap[m.vmap]) then w else w + b(m.vmap))
  {
    TableTest(b, s.offset, s.vmap, w, m.vmap, last);
    GoodAppend(b, s, w, b(m.vmap));
  }

  lemma GcMapWritten(b: Blobs, s: Layout, w: seq<Byte>, m: CompiledMethod, last: map<Ptr, nat>)
    requires Good(b, s, w) && s.offset < TWO32 && Sub(GcMapStep(b, s, m).gcMap, last)
    ensures var t := GcMapStep(b, s, m);
      Good(b, t, if AlreadyWritten(last, m.gcMap, |w|, t.gcMap[m.gcMap]) then w else w + b(m.gcMap))
  {
    TableTest(b, s.offset, s.gcMap, w, m.gcMap, last);
    GoodAppend(b, s, w, b(m.gcMap));
  }

  /** Inside a walk that ends below 4 GiB, every part of a step does too. */
  lemma StepFits(b: Blobs, s: Layout, m: CompiledMethod, end: Layout)
    requires Leq(CompiledStep(b, s, m), end)
    ensures var s1 := CodeStep(b, s, m);
      var s2 := MappingStep(b, s1, m);
      var s3 := VmapStep(b, s2, m);
      && s1.offset <= s2.offset <= s3.offset <= CompiledStep(b, s, m).offset <= end.offset
      && Sub(s1.code, end.code) && Sub(s2.mapping, end.mapping)
      && Sub(s3.vmap, end.vmap) && Sub(CompiledStep(b, s, m).gcMap, end.gcMap)
  {
  }

  /** Each recorded offset is fixed by its own part of the step. */
  lemma RecordedParts(b: Blobs, s: Layout, m: CompiledMethod)
    requires Dedup(s)
    ensures var s1 := CodeStep(b, s, m);
      var s2 := MappingStep(b, s1, m);
      var s3 := VmapStep(b, s2, m);
      var r := Recorded(b, s, Some(m));
      && r.codeOffset == s1.code[m.code] && r.mappingTableOffset == s2.mapping[m.mapping]
      && r.vmapTableOffset == s3.vmap[m.vmap] && r.gcMapOffset == GcMapStep(b, s3, m).gcMap[m.gcMap]
  {
  }

  // ---- what a correct file gives each method ----

  /** Method `m` finds its code, its code size and its tables through the offsets in `o`. */
  ghost predicate MethodPlaced(b: Blobs, w: seq<Byte>, m: CompiledMethod, o: OatMethodOffsets, delta: nat) {
    && CodeEntryOk(b(m.code), o.codeOffset, delta, w)
    && EntryOk(b(m.mapping), o.mappingTableOffset, w)
    && EntryOk(b(m.vmap), o.vmapTableOffset, w)
    && EntryOk(b(m.gcMap), o.gcMapOffset, w)
  }

  lemma RecordedIsPlaced(b: Blobs, s: Layout, t: Layout, m: CompiledMethod, w: seq<Byte>)
    requires Dedup(s) && Leq(CompiledStep(b, s, m), t) && Good(b, t, w)
    ensures Knows(t, m) && Recorded(b, s, Some(m)) == OffsetsOf(t, m)
    ensures MethodPlaced(b, w, m, Recorded(b, s, Some(m)), t.delta[m.code])
  {
    StepLeq(b, s, Some(m));
    var u := CompiledStep(b, s, m);
    assert Knows(u, m) && Knows(t, m);
  }

  ghost predicate InWalk(cs: seq<ClassDef>, m: CompiledMethod) {
    exists c, k :: 0 <= c < |cs| && 0 <= k < |cs[c].methods| && cs[c].methods[k] == Some(m)
  }

  /** Methods that share a code vector agree on the Thumb delta. */
  ghost predicate UniformDelta(cs: seq<ClassDef>) {
    forall m, n :: InWalk(cs, m) && InWalk(cs, n) && m.code == n.code ==> CodeDelta(m.isa) == CodeDelta(n.isa)
  }

  // ---- where the code of each vector was written ----

  ghost predicate Earlier(c': nat, k': nat, c: nat, k: nat) {
    c' < c || (c' == c && k' < k)
  }

  /** Method `k` of class `c` is compiled and has the code vector `p`. */
  ghost predicate Uses(cs: seq<ClassDef>, c: nat, k: nat, p: Ptr) {
    c < |cs| && k < |cs[c].methods| && cs[c].methods[k].Some? && cs[c].methods[k].value.code == p
  }

  /** The first method of the walk with this code vector. */
  ghost predicate FirstUse(cs: seq<ClassDef>, c: nat, k: nat, p: Ptr) {
    Uses(cs, c, k, p) && forall c', k' :: Uses(cs, c', k', p) ==> !Earlier(c', k', c, k)
  }

  ghost function Isa(cs: seq<ClassDef>, c: nat, k: nat): InstructionSet
    requires c < |cs| && k < |cs[c].methods| && cs[c].methods[k].Some?
  {
    cs[c].methods[k].value.isa
  }

  /** Where code met first in method `k` of class `c` goes: after the alignment and the size word. */
  ghost function CodePlace(b: Blobs, s: Layout, cs: seq<ClassDef>, c: nat, k: nat): nat
    requires c < |cs| && k < |cs[c].methods| && cs[c].methods[k].Some?
  {
    AlignCode(StateAt(b, s, cs, c, k).offset, Isa(cs, c, k)) + 4
  }

  /** The entry of `p` in the maps of `t` comes from its first use, with that method's delta. */
  ghost predicate FromFirst(b: Blobs, s: Layout, cs: seq<ClassDef>, t: Layout, p: Ptr) {
    p in t.code && p in t.delta &&
    exists c, k :: FirstUse(cs, c, k, p) &&
      t.delta[p] == CodeDelta(Isa(cs, c, k)) && t.code[p] == U32(CodePlace(b, s, cs, c, k) + CodeDelta(Isa(cs, c, k)))
  }

  /** In the state `t` before method `k` of class `c`, the maps hold the code used so far, each from its first use. */
  ghost predicate Originated(b: Blobs, s: Layout, cs: seq<ClassDef>, t: Layout, c: nat, k: nat) {
    && t.code.Keys == t.delta.Keys
    && (forall c', k', p :: Uses(cs, c', k', p) && Earlier(c', k', c, k) ==> p in t.code)
    && (forall p :: p in t.code ==>
         FromFirst(b, s, cs, t, p) && exists c', k' :: Uses(cs, c', k', p) && Earlier(c', k', c, k))
  }

  lemma OriginStep(b: Blobs, s: Layout, cs: seq<ClassDef>, c: nat, k: nat)
    requires c < |cs| && k < |cs[c].methods| && Originated(b, s, cs, StateAt(b, s, cs, c, k), c, k)
    ensures Originated(b, s, cs, Step(b, StateAt(b, s, cs, c, k), cs[c].methods[k]), c, k + 1)
  {
    var t, om := StateAt(b, s, cs, c, k), cs[c].methods[k];
    var u := Step(b, t, om);
    if om.Some? {
      var m := om.value;
      OriginCode(b, s, cs, c, k);
      TablesLeq(b, CodeStep(b, t, m), m);
    } else {
      OriginSkip(b, s, cs, t, c, k);
    }
  }

  /** A method without code moves the position only. */
  lemma OriginSkip(b: Blobs, s: Layout, cs: seq<ClassDef>, t: Layout, c: nat, k: nat)
    requires Originated(b, s, cs, t, c, k) && c < |cs| && k < |cs[c].methods| && cs[c].methods[k].None?
    ensures Originated(b, s, cs, t, c, k + 1)
  {
    hide FromFirst;
    forall p | p in t.code ensures exists c', k' :: Uses(cs, c', k', p) && Earlier(c', k', c, k + 1) {
      var c', k' :| Uses(cs, c', k', p) && Earlier(c', k', c, k);
      assert Earlier(c', k', c, k + 1);
    }
  }

  lemma OriginCode(b: Blobs, s: Layout, cs: seq<ClassDef>, c: nat, k: nat)
    requires c < |cs| && k < |cs[c].methods| && cs[c].methods[k].Some?
    requires Originated(b, s, cs, StateAt(b, s, cs, c, k), c, k)
    ensures Originated(b, s, cs, CodeStep(b, StateAt(b, s, cs, c, k), cs[c].methods[k].value), c, k + 1)
  {
    var t, m := StateAt(b, s, cs, c, k), cs[c].methods[k].value;
    var u := CodeStep(b, t, m);
    hide FromFirst, FirstUse, StateAt, CodeStep, Earlier, Uses;
    CodeStepKeys(b, t, m);
    forall p | p in u.code
      ensures FromFirst(b, s, cs, u, p) && exists c', k' :: Uses(cs, c', k', p) && Earlier(c', k', c, k + 1)
    {
      OriginOf(b, s, cs, c, k, p);
    }
    forall c', k', p | Uses(cs, c', k', p) && Earlier(c', k', c, k + 1) ensures p in u.code {
      EarlierOrHere(cs, c', k', p, c, k);
    }
  }

  lemma EarlierOrHere(cs: seq<ClassDef>, c': nat, k': nat, p: Ptr, c: nat, k: nat)
    requires Uses(cs, c', k', p) && Earlier(c', k', c, k + 1)
    ensures Earlier(c', k', c, k) || (c' == c && k' == k && cs[c].methods[k].value.code == p)
  {
  }

  lemma CodeStepKeys(b: Blobs, t: Layout, m: CompiledMethod)
    requires t.code.Keys == t.delta.Keys
    ensures var u := CodeStep(b, t, m); u.code.Keys == u.delta.Keys == t.code.Keys + {m.code}
  {
    hide AlignCode;
  }

  lemma OriginOf(b: Blobs, s: Layout, cs: seq<ClassDef>, c: nat, k: nat, p: Ptr)
    requires c < |cs| && k < |cs[c].methods| && cs[c].methods[k].Some?
    requires Originated(b, s, cs, StateAt(b, s, cs, c, k), c, k)
    requires p in CodeStep(b, StateAt(b, s, cs, c, k), cs[c].methods[k].value).code
    ensures FromFirst(b, s, cs, CodeStep(b, StateAt(b, s, cs, c, k), cs[c].methods[k].value), p)
    ensures exists c', k' :: Uses(cs, c', k', p) && Earlier(c', k', c, k + 1)
  {
    hide FromFirst, FirstUse, AlignCode, StateAt;
    var t, m := StateAt(b, s, cs, c, k), cs[c].methods[k].value;
    if p in t.code {
      SameOrigin(b, s, cs, t, CodeStep(b, t, m), p);
      var c', k' :| Uses(cs, c', k', p) && Earlier(c', k', c, k);
      assert Earlier(c', k', c, k + 1);
    } else {
      NewOrigin(b, s, cs, c, k);
      assert Uses(cs, c, k, p) && Earlier(c, k, c, k + 1);
    }
  }

  lemma SameOrigin(b: Blobs, s: Layout, cs: seq<ClassDef>, t: Layout, u: Layout, p: Ptr)
    requires FromFirst(b, s, cs, t, p) && p in u.code && p in u.delta && u.code[p] == t.code[p]
    requires u.delta[p] == t.delta[p]
    ensures FromFirst(b, s, cs, u, p)
  {
    hide CodePlace, Isa, FirstUse;
  }

  lemma NewOrigin(b: Blobs, s: Layout, cs: seq<ClassDef>, c: nat, k: nat)
    requires c < |cs| && k < |cs[c].methods| && cs[c].methods[k].Some?
    requires Originated(b, s, cs, StateAt(b, s, cs, c, k), c, k)
    requires cs[c].methods[k].value.code !in StateAt(b, s, cs, c, k).code
    ensures var m := cs[c].methods[k].value; FromFirst(b, s, cs, CodeStep(b, StateAt(b, s, cs, c, k), m), m.code)
  {
    hide StateAt, AlignCode;
    assert FirstUse(cs, c, k, cs[c].methods[k].value.code);
  }

  /** The delta and the offset recorded for a code vector are those of the first method of the walk that has it. */
  lemma {:induction false} DeltaOrigin(b: Blobs, s: Layout, cs: seq<ClassDef>, c: nat, k: nat)
    requires c <= |cs| && (if c < |cs| then k <= |cs[c].methods| else k == 0)
    requires s.code == map[] && s.delta == map[]
    ensures Originated(b, s, cs, if c < |cs| then StateAt(b, s, cs, c, k) else AfterClasses(b, s, cs), c, k)
    decreases c, k
  {
    if k > 0 {
      hide Originated;
      DeltaOrigin(b, s, cs, c, k - 1);
      StateStep(b, s, cs, c, k - 1);
      OriginStep(b, s, cs, c, k - 1);
    } else if c > 0 {
      DeltaOrigin(b, s, cs, c - 1, |cs[c - 1].methods|);
      NextClass(b, s, cs, c - 1);
      if c < |cs| {
        NextClass(b, s, cs, c);
      } else {
        assert cs[..c] == cs;
      }
      OriginNextClass(b, s, cs, AfterClasses(b, s, cs[..c]), c);
    }
  }

  /** After the last method of a class comes the first of the next. */
  lemma OriginNextClass(b: Blobs, s: Layout, cs: seq<ClassDef>, t: Layout, c: nat)
    requires 0 < c <= |cs| && Originated(b, s, cs, t, c - 1, |cs[c - 1].methods|)
    ensures Originated(b, s, cs, t, c, 0)
  {
    hide FromFirst;
    forall c', k', p | Uses(cs, c', k', p) && Earlier(c', k', c, 0) ensures p in t.code {
      assert Earlier(c', k', c - 1, |cs[c - 1].methods|);
    }
    forall p | p in t.code ensures exists c', k' :: Uses(cs, c', k', p) && Earlier(c', k', c, 0) {
      var c', k' :| Uses(cs, c', k', p) && Earlier(c', k', c - 1, |cs[c - 1].methods|);
      assert Earlier(c', k', c, 0);
    }
  }

  /** The offset the first pass records for method `k` of class `c`. */
  ghost function CodeOffset(b: Blobs, s: Layout, cs: seq<ClassDef>, c: nat, k: nat): nat
    requires Dedup(s) && c < |cs| && k < |cs[c].methods|
  {
    StateAfterStart(b, s, cs, c, k);
    Recorded(b, StateAt(b, s, cs, c, k), cs[c].methods[k]).codeOffset
  }

  /** The recorded offset of method `k` of class `c` is where its code is, plus the method's own delta. */
  ghost predicate OwnDeltaLeads(b: Blobs, s: Layout, cs: seq<ClassDef>, c: nat, k: nat)
    requires Dedup(s) && c < |cs| && k < |cs[c].methods| && cs[c].methods[k].Some?
  {
    forall c', k' :: FirstUse(cs, c', k', cs[c].methods[k].value.code) ==>
      CodeOffset(b, s, cs, c, k) == U32(CodePlace(b, s, cs, c', k') + CodeDelta(Isa(cs, c, k)))
  }

  /** A recorded offset is where the code is, plus the delta of the first method that has the code. */
  lemma RecordedFromFirst(b: Blobs, s: Layout, cs: seq<ClassDef>, c: nat, k: nat, c': nat, k': nat)
    requires s.code == map[] && s.delta == map[] && c < |cs| && k < |cs[c].methods| && cs[c].methods[k].Some?
    requires FirstUse(cs, c', k', cs[c].methods[k].value.code)
    ensures CodeOffset(b, s, cs, c, k) == U32(CodePlace(b, s, cs, c', k') + CodeDelta(Isa(cs, c', k')))
  {
    var m := cs[c].methods[k].value;
    var t := StateAt(b, s, cs, c, k);
    DeltaOrigin(b, s, cs, c, k);
    OriginCode(b, s, cs, c, k);
    StateAfterStart(b, s, cs, c, k);
    RecordedParts(b, t, m);
    assert CodeOffset(b, s, cs, c, k) == CodeStep(b, t, m).code[m.code];
    FirstOnly(b, s, cs, CodeStep(b, t, m), m.code, c', k');
  }

  lemma FirstOnly(b: Blobs, s: Layout, cs: seq<ClassDef>, t: Layout, p: Ptr, c: nat, k: nat)
    requires FromFirst(b, s, cs, t, p) && FirstUse(cs, c, k, p)
    ensures t.delta[p] == CodeDelta(Isa(cs, c, k))
    ensures t.code[p] == U32(CodePlace(b, s, cs, c, k) + CodeDelta(Isa(cs, c, k)))
  {
    hide CodePlace, Isa;
  }

  /** Some method is the first to use the code of a given one. */
  lemma {:induction false} FirstUser(cs: seq<ClassDef>, c: nat, k: nat, p: Ptr) returns (c': nat, k': nat)
    requires Uses(cs, c, k, p)
    ensures FirstUse(cs, c', k', p)
    decreases c, k
  {
    if forall d, j :: Uses(cs, d, j, p) ==> !Earlier(d, j, c, k) {
      return c, k;
    } else {
      var d: nat, j: nat :| Uses(cs, d, j, p) && Earlier(d, j, c, k);
      c', k' := FirstUser(cs, d, j, p);
    }
  }

  /**
   * Each method's own delta leads from its recorded offset to where its code is if and only if
   * methods that share code share the delta; otherwise a later sharer is off by one.
   */
  lemma OwnDelta(b: Blobs, s: Layout, cs: seq<ClassDef>)
    requires s.code == map[] && s.delta == map[]
    ensures (forall c, k :: 0 <= c < |cs| && 0 <= k < |cs[c].methods| && cs[c].methods[k].Some? ==>
               OwnDeltaLeads(b, s, cs, c, k))
      <==> UniformDelta(cs)
  {
    hide OwnDeltaLeads, UniformDelta;
    if UniformDelta(cs) {
      forall c, k | 0 <= c < |cs| && 0 <= k < |cs[c].methods| && cs[c].methods[k].Some?
        ensures OwnDeltaLeads(b, s, cs, c, k)
      {
        UniformLeads(b, s, cs, c, k);
      }
    }
    if forall c, k :: 0 <= c < |cs| && 0 <= k < |cs[c].methods| && cs[c].methods[k].Some? ==>
      OwnDeltaLeads(b, s, cs, c, k) {
      LeadsUniform(b, s, cs);
    }
  }

  lemma OwnDeltaAt(b: Blobs, s: Layout, cs: seq<ClassDef>, c: nat, k: nat, c': nat, k': nat)
    requires s.code == map[] && s.delta == map[] && c < |cs| && k < |cs[c].methods| && cs[c].methods[k].Some?
    requires FirstUse(cs, c', k', cs[c].methods[k].value.code)
    ensures OwnDeltaLeads(b, s, cs, c, k) <==> CodeDelta(Isa(cs, c, k)) == CodeDelta(Isa(cs, c', k'))
  {
    hide CodeOffset, CodePlace;
    RecordedFromFirst(b, s, cs, c, k, c', k');
    forall d, j | FirstUse(cs, d, j, cs[c].methods[k].value.code) ensures d == c' && j == k' {
      assert !Earlier(d, j, c', k') && !Earlier(c', k', d, j);
    }
  }

  lemma UniformLeads(b: Blobs, s: Layout, cs: seq<ClassDef>, c: nat, k: nat)
    requires s.code == map[] && s.delta == map[] && c < |cs| && k < |cs[c].methods| && cs[c].methods[k].Some?
    requires UniformDelta(cs)
    ensures OwnDeltaLeads(b, s, cs, c, k)
  {
    hide OwnDeltaLeads;
    var c', k' := FirstUser(cs, c, k, cs[c].methods[k].value.code);
    assert InWalk(cs, cs[c].methods[k].value) && InWalk(cs, cs[c'].methods[k'].value);
    OwnDeltaAt(b, s, cs, c, k, c', k');
  }

  lemma LeadsUniform(b: Blobs, s: Layout, cs: seq<ClassDef>)
    requires s.code == map[] && s.delta == map[]
    requires forall c, k :: 0 <= c < |cs| && 0 <= k < |cs[c].methods| && cs[c].methods[k].Some? ==>
      OwnDeltaLeads(b, s, cs, c, k)
    ensures UniformDelta(cs)
  {
    hide OwnDeltaLeads;
    forall m, n | InWalk(cs, m) && InWalk(cs, n) && m.code == n.code ensures CodeDelta(m.isa) == CodeDelta(n.isa) {
      var c, k :| 0 <= c < |cs| && 0 <= k < |cs[c].methods| && cs[c].methods[k] == Some(m);
      var d, j :| 0 <= d < |cs| && 0 <= j < |cs[d].methods| && cs[d].methods[j] == Some(n);
      var c', k' := FirstUser(cs, c, k, m.code);
      OwnDeltaAt(b, s, cs, c, k, c', k');
      OwnDeltaAt(b, s, cs, d, j, c', k');
    }
  }

  /** Two methods with one code vector, first for Thumb and then for Arm. */
  const MIXED := [
    ClassDef(0, [Some(CompiledMethod(Thumb2, 0, 0, 0, 0, 1, 1, 1)), Some(CompiledMethod(Arm, 0, 0, 0, 0, 1, 1, 1))])]

  /**
   * A failing input: the Arm method's own delta is 0, but its recorded offset is odd, one past its
   * code, because the Thumb method was met first.
   */
  lemma SharedAcrossModes(b: Blobs)
    ensures var s := Layout(0, map[], map[], map[], map[], map[]);
      && !UniformDelta(MIXED) && !OwnDeltaLeads(b, s, MIXED, 0, 1)
      && FirstUse(MIXED, 0, 0, 0) && CodeOffset(b, s, MIXED, 0, 1) == CodePlace(b, s, MIXED, 0, 0) + 1
  {
    var s := Layout(0, map[], map[], map[], map[], map[]);
    var m, n := MIXED[0].methods[0].value, MIXED[0].methods[1].value;
    assert InWalk(MIXED, m) && InWalk(MIXED, n);
    assert Uses(MIXED, 0, 0, 0) && FirstUse(MIXED, 0, 0, 0);
    assert MIXED[..0] == [] && MIXED[0].methods[..0] == [];
    assert CodePlace(b, s, MIXED, 0, 0) == 4;
    RecordedFromFirst(b, s, MIXED, 0, 1, 0, 0);
    OwnDeltaAt(b, s, MIXED, 0, 1, 0, 0);
  }
}
