/**
 * The oat writer: a first pass that promises every offset and a second pass that writes the file.
 * `Write` is proved to put every byte where the first pass said it would be.
 */
module OatWriter {
  import opened Bytes
  import opened OatLayout
  import opened Options
  import Streams

  const PAGE_SIZE: nat := 4096
  const HEADER_SIZE: nat := 64
  const OAT_MAGIC: nat := 0x0A74616F
  const OAT_VERSION: nat := 0x00373030

  /** The number that stands for an instruction set in the file. */
  function IsaCode(isa: InstructionSet): nat {
    match isa
    case Arm => 1
    case Thumb2 => 2
    case X86 => 3
    case Mips => 4
  }

  datatype DexFile = DexFile(location: seq<Byte>, locationChecksum: nat, bytes: seq<Byte>, classDefs: seq<ClassDef>)

  datatype OatHeader = OatHeader(
    magic: nat, version: nat, checksum: nat, instructionSet: nat, dexFileCount: nat, executableOffset: nat,
    trampolineOffsets: seq<nat>, imageChecksum: nat, imageBegin: nat, imageLocationSize: nat)
  {
    function Encode(): (s: seq<Byte>)
      ensures |trampolineOffsets| == 7 ==> |s| == HEADER_SIZE
    {
      WordsLE([magic, version, checksum, instructionSet, dexFileCount, executableOffset]
              + trampolineOffsets + [imageChecksum, imageBegin, imageLocationSize])
    }
  }

  datatype OatDexFile = OatDexFile(
    offset: nat, location: seq<Byte>, locationChecksum: nat, dexFileOffset: nat, methodsOffsets: seq<nat>)
  {
    function SizeOf(): nat { 4 + |location| + 4 + 4 + 4 * |methodsOffsets| }

    function Encode(): (s: seq<Byte>)
      ensures |s| == SizeOf()
    {
      WordLE(|location|) + location + WordLE(locationChecksum) + WordLE(dexFileOffset) + WordsLE(methodsOffsets)
    }
  }

  function EncodeMethods(ms: seq<OatMethodOffsets>): (s: seq<Byte>)
    ensures |s| == 28 * |ms|
  {
    if ms == [] then []
    else
      var m := ms[|ms| - 1];
      EncodeMethods(ms[..|ms| - 1])
      + WordsLE([m.codeOffset, m.frameSize, m.coreSpillMask, m.fpSpillMask,
                 m.mappingTableOffset, m.vmapTableOffset, m.gcMapOffset])
  }

  datatype OatClass = OatClass(offset: nat, status: nat, methodOffsets: seq<OatMethodOffsets>) {
    function SizeOf(): nat { 4 + 28 * |methodOffsets| }

    function Encode(): (s: seq<Byte>)
      ensures |s| == SizeOf()
    {
      WordLE(status) + EncodeMethods(methodOffsets)
    }
  }

  function AllClasses(ds: seq<DexFile>): seq<ClassDef> {
    if ds == [] then [] else AllClasses(ds[..|ds| - 1]) + ds[|ds| - 1].classDefs
  }

  /** Class `j` of dex file `i` is at a known place among all classes. */
  lemma {:induction false} ClassIndex(ds: seq<DexFile>, i: nat)
    requires i < |ds|
    ensures AllClasses(ds[..i + 1]) == AllClasses(ds[..i]) + ds[i].classDefs
    ensures AllClasses(ds[..i + 1]) <= AllClasses(ds)
    decreases |ds|
  {
    assert ds[..i + 1][..i] == ds[..i];
    if i + 1 == |ds| {
      assert ds[..i + 1] == ds;
    } else {
      var front := ds[..|ds| - 1];
      assert front[..i + 1] == ds[..i + 1] && front[..i] == ds[..i];
      ClassIndex(front, i);
    }
  }

  function SetMethodOffset(o: OatClass, k: nat, m: OatMethodOffsets): (r: OatClass)
    requires k < |o.methodOffsets|
    ensures r == o.(methodOffsets := r.methodOffsets) && |r.methodOffsets| == |o.methodOffsets|
    ensures r.methodOffsets[..k + 1] == o.methodOffsets[..k] + [m]
  {
    o.(methodOffsets := o.methodOffsets[k := m])
  }

  function NoCode(n: nat): (s: seq<OatMethodOffsets>)
    ensures |s| == n
  {
    seq(n, _ => NO_CODE)
  }

  function NoOffsets(n: nat): (s: seq<nat>)
    ensures |s| == n
  {
    seq(n, _ => 0)
  }

  /** Everything the oat writer is given. */
  datatype Input = Input(
    isa: InstructionSet, isImage: bool, blobs: Blobs, trampolines: seq<seq<Byte>>,
    dexFiles: seq<DexFile>, checksum: nat, imageChecksum: nat, imageBegin: nat, imageFileLocation: seq<Byte>)
  {
    /** What the compiler driver guarantees: seven trampolines, no empty code. */
    ghost predicate Valid() {
      && |trampolines| == 7
      && forall m :: InWalk(Classes(), m) ==> |blobs(m.code)| > 0
    }

    function Classes(): seq<ClassDef> { AllClasses(dexFiles) }

    // where the file's regions begin, in file order

    function OatDexFileStart(i: nat): nat
      requires i <= |dexFiles|
    {
      if i == 0 then HEADER_SIZE + |imageFileLocation|
      else OatDexFileStart(i - 1) + 12 + |dexFiles[i - 1].location| + 4 * |dexFiles[i - 1].classDefs|
    }

    function DexEnd(i: nat): nat
      requires i <= |dexFiles|
    {
      if i == 0 then OatDexFileStart(|dexFiles|)
      else RoundUp(DexEnd(i - 1), 4) + |dexFiles[i - 1].bytes|
    }

    function DexPadding(i: nat): nat
      requires i <= |dexFiles|
    {
      if i == 0 then 0 else DexPadding(i - 1) + RoundUp(DexEnd(i - 1), 4) - DexEnd(i - 1)
    }

    function ClassStart(c: nat): nat
      requires c <= |Classes()|
    {
      if c == 0 then DexEnd(|dexFiles|) else ClassStart(c - 1) + 4 + 28 * |Classes()[c - 1].methods|
    }

    function ExecutableOffset(): nat { RoundUp(ClassStart(|Classes()|), PAGE_SIZE) }

    function TrampolineEnd(k: nat): nat
      requires k <= |trampolines|
    {
      if k == 0 then ExecutableOffset() else AlignCode(TrampolineEnd(k - 1), isa) + |trampolines[k - 1]|
    }

    function CodeStart(): nat { if isImage then TrampolineEnd(|trampolines|) else ExecutableOffset() }

    lemma {:induction false} TrampolinesGrow(k: nat)
      requires k <= |trampolines|
      ensures TrampolineEnd(k) >= ExecutableOffset()
    {
      if k > 0 { TrampolinesGrow(k - 1); }
    }

    lemma {:induction false} RegionsGrow()
      ensures CodeStart() > 0
    {
      HeaderFirst(|dexFiles|);
      DexAfter(|dexFiles|);
      ClassesAfter(|Classes()|);
      TrampolinesGrow(|trampolines|);
    }

    lemma {:induction false} DexEndGrows(i: nat)
      requires i <= |dexFiles|
      ensures DexEnd(i) <= DexEnd(|dexFiles|)
      decreases |dexFiles| - i
    {
      if i < |dexFiles| { DexEndGrows(i + 1); }
    }

    /** Every region begins at or before the end of the file. */
    lemma EndFits()
      ensures DexEnd(|dexFiles|) <= ClassStart(|Classes()|) <= ExecutableOffset() <= CodeStart() <= End().offset
      ensures CodeStart() > 0
    {
      RegionsGrow();
      ClassesAfter(|Classes()|);
      TrampolinesGrow(|trampolines|);
      ClassesLeq(blobs, Start(), Classes(), 0);
    }

    lemma {:induction false} HeaderFirst(i: nat)
      requires i <= |dexFiles|
      ensures OatDexFileStart(i) >= HEADER_SIZE
    {
      if i > 0 { HeaderFirst(i - 1); }
    }

    lemma {:induction false} DexAfter(i: nat)
      requires i <= |dexFiles|
      ensures DexEnd(i) >= OatDexFileStart(|dexFiles|)
    {
      if i > 0 { DexAfter(i - 1); }
    }

    lemma {:induction false} ClassesAfter(c: nat)
      requires c <= |Classes()|
      ensures ClassStart(c) >= DexEnd(|dexFiles|)
    {
      if c > 0 { ClassesAfter(c - 1); }
    }

    // what the first pass records

    function Blank(c: nat): OatClass
      requires c < |Classes()|
    {
      OatClass(ClassStart(c), Classes()[c].status, NoCode(|Classes()[c].methods|))
    }

    function Done(c: nat): OatClass
      requires c < |Classes()|
    {
      ClassesLeq(blobs, Start(), Classes()[..c], 0);
      OatClass(ClassStart(c), Classes()[c].status,
               RecordedAll(blobs, AfterClasses(blobs, Start(), Classes()[..c]), Classes()[c].methods))
    }

    /** The code and tables of the first `n` classes are in the file `w`. */
    ghost predicate CodeUpTo(n: nat, w: seq<Byte>) {
      n <= |Classes()| && Good(blobs, AfterClasses(blobs, Start(), Classes()[..n]), w)
    }

    lemma CodeAfterHeader(n: nat, w: seq<Byte>)
      requires CodeUpTo(n, w)
      ensures |w| > 0
    {
    }

    lemma CodeBounds(w: seq<Byte>)
      ensures CodeUpTo(0, w) <==> Good(blobs, Start(), w)
      ensures CodeUpTo(|Classes()|, w) <==> Good(blobs, End(), w)
    {
      assert Classes()[..0] == [] && Classes()[..|Classes()|] == Classes();
    }

    lemma ClassBounds()
      ensures FirstClass(0) == 0 && FirstClass(|dexFiles|) == |Classes()|
    {
      assert dexFiles[..0] == [] && dexFiles[..|dexFiles|] == dexFiles;
    }

    /** The classes of dex file `i` stand together, and those of the next one follow. */
    lemma ClassesOf(i: nat)
      requires i < |dexFiles|
      ensures FirstClass(i + 1) == FirstClass(i) + |dexFiles[i].classDefs| <= |Classes()|
      ensures Classes()[FirstClass(i)..FirstClass(i + 1)] == dexFiles[i].classDefs
    {
      ClassIndex(dexFiles, i);
    }

    function FirstClass(i: nat): nat
      requires i <= |dexFiles|
    {
      |AllClasses(dexFiles[..i])|
    }

    /** The offsets of the `n` classes from class `first` on. */
    function Pointers(first: nat, n: nat): (s: seq<nat>)
      requires first + n <= |Classes()|
      ensures |s| == n
    {
      if n == 0 then [] else Pointers(first, n - 1) + [ClassStart(first + n - 1)]
    }

    function Unlinked(i: nat): OatDexFile
      requires i < |dexFiles|
    {
      OatDexFile(OatDexFileStart(i), dexFiles[i].location, dexFiles[i].locationChecksum, 0,
                 NoOffsets(|dexFiles[i].classDefs|))
    }

    function Located(i: nat): OatDexFile
      requires i < |dexFiles|
    {
      Unlinked(i).(dexFileOffset := RoundUp(DexEnd(i), 4))
    }

    function Linked(i: nat): OatDexFile
      requires i < |dexFiles|
    {
      ClassIndex(dexFiles, i);
      Located(i).(methodsOffsets := Pointers(FirstClass(i), |dexFiles[i].classDefs|))
    }

    function TrampolineStart(k: nat): nat
      requires k < |trampolines|
    {
      AlignCode(TrampolineEnd(k), isa)
    }

    function TrampolineOffsets(k: nat): (s: seq<nat>)
      requires k <= |trampolines|
      ensures |s| == k
    {
      if k == 0 then [] else TrampolineOffsets(k - 1) + [TrampolineStart(k - 1)]
    }

    /** The header as its constructor leaves it, but for the checksum. */
    function NewHeader(): OatHeader {
      OatHeader(OAT_MAGIC, OAT_VERSION, checksum, IsaCode(isa), |dexFiles|, 0, NoOffsets(7), imageChecksum, imageBegin,
                |imageFileLocation|)
    }

    function Header(): OatHeader {
      NewHeader().(executableOffset := ExecutableOffset(),
                   trampolineOffsets := if isImage then TrampolineOffsets(|trampolines|) else NoOffsets(7))
    }

    function Start(): Layout { Layout(CodeStart(), map[], map[], map[], map[], map[]) }

    /** The layout in which method `k` of class `c` is met. */
    function MethodState(c: nat, k: nat): Layout
      requires c < |Classes()| && k <= |Classes()[c].methods|
    {
      StateAt(blobs, Start(), Classes(), c, k)
    }

    lemma MethodFacts(c: nat, k: nat)
      requires Valid() && c < |Classes()| && k < |Classes()[c].methods|
      ensures var m, s := Classes()[c].methods[k], MethodState(c, k);
        && Dedup(s) && Done(c).methodOffsets[k] == Recorded(blobs, s, m)
        && MethodState(c, k + 1) == Step(blobs, s, m) && Leq(Step(blobs, s, m), End())
        && (m.Some? ==> |blobs(m.value.code)| > 0)
    {
      ClassesLeq(blobs, Start(), Classes()[..c], 0);
      RecordedEach(blobs, AfterClasses(blobs, Start(), Classes()[..c]), Classes()[c].methods, k);
      StateStep(blobs, Start(), Classes(), c, k);
      StateBeforeEnd(blobs, Start(), Classes(), c, k + 1);
      assert Classes()[c].methods[k].Some? ==> InWalk(Classes(), Classes()[c].methods[k].value);
    }

    function End(): Layout { AfterClasses(blobs, Start(), Classes()) }
  }

  // ---- what the written file holds ----

  ghost predicate OatDexFilesAt(inp: Input, w: seq<Byte>, n: nat)
    requires n <= |inp.dexFiles|
  {
    forall i {:trigger inp.Linked(i)} :: 0 <= i < n ==> At(w, inp.Linked(i).offset, inp.Linked(i).Encode())
  }

  /** Dex file `i` is copied at the offset its `OatDexFile` records. */
  ghost predicate DexFilesAt(inp: Input, w: seq<Byte>, n: nat)
    requires n <= |inp.dexFiles|
  {
    forall i {:trigger inp.Linked(i)} :: 0 <= i < n ==> At(w, inp.Linked(i).dexFileOffset, inp.dexFiles[i].bytes)
  }

  ghost predicate OatClassesAt(inp: Input, w: seq<Byte>, n: nat)
    requires n <= |inp.Classes()|
  {
    forall c {:trigger inp.Done(c)} :: 0 <= c < n ==> At(w, inp.Done(c).offset, inp.Done(c).Encode())
  }

  ghost predicate TrampolinesAt(inp: Input, w: seq<Byte>, n: nat)
    requires n <= |inp.trampolines|
  {
    forall k {:trigger inp.TrampolineStart(k)} :: 0 <= k < n ==> At(w, inp.TrampolineStart(k), inp.trampolines[k])
  }

  ghost predicate HeaderAt(inp: Input, w: seq<Byte>) {
    At(w, 0, inp.Header().Encode()) && At(w, HEADER_SIZE, inp.imageFileLocation)
  }

  lemma RegionsAppend(inp: Input, w: seq<Byte>, d: seq<Byte>, i: nat, j: nat, c: nat, k: nat)
    requires i <= |inp.dexFiles| && j <= |inp.dexFiles| && c <= |inp.Classes()| && k <= |inp.trampolines|
    requires HeaderAt(inp, w) && OatDexFilesAt(inp, w, i) && DexFilesAt(inp, w, j)
    requires OatClassesAt(inp, w, c) && TrampolinesAt(inp, w, k)
    ensures HeaderAt(inp, w + d) && OatDexFilesAt(inp, w + d, i) && DexFilesAt(inp, w + d, j)
    ensures OatClassesAt(inp, w + d, c) && TrampolinesAt(inp, w + d, k)
  {
    AtAppend(w, d, 0, inp.Header().Encode());
    AtAppend(w, d, HEADER_SIZE, inp.imageFileLocation);
    forall h {:trigger inp.Linked(h)} | 0 <= h < i ensures At(w + d, inp.Linked(h).offset, inp.Linked(h).Encode()) {
      AtAppend(w, d, inp.Linked(h).offset, inp.Linked(h).Encode());
    }
    forall h {:trigger inp.Linked(h)} | 0 <= h < j
      ensures At(w + d, inp.Linked(h).dexFileOffset, inp.dexFiles[h].bytes)
    {
      AtAppend(w, d, inp.Linked(h).dexFileOffset, inp.dexFiles[h].bytes);
    }
    forall h {:trigger inp.Done(h)} | 0 <= h < c ensures At(w + d, inp.Done(h).offset, inp.Done(h).Encode()) {
      AtAppend(w, d, inp.Done(h).offset, inp.Done(h).Encode());
    }
    forall h {:trigger inp.TrampolineStart(h)} | 0 <= h < k
      ensures At(w + d, inp.TrampolineStart(h), inp.trampolines[h])
    {
      AtAppend(w, d, inp.TrampolineStart(h), inp.trampolines[h]);
    }
  }

  lemma AtEnd(w: seq<Byte>, d: seq<Byte>)
    ensures At(w + d, |w|, d)
  {
  }

  lemma LinkedSpan(inp: Input, i: nat)
    requires i < |inp.dexFiles|
    ensures inp.Linked(i).offset == inp.OatDexFileStart(i)
    ensures |inp.Linked(i).Encode()| == inp.OatDexFileStart(i + 1) - inp.OatDexFileStart(i)
    ensures inp.Linked(i).dexFileOffset == RoundUp(inp.DexEnd(i), 4)
    ensures inp.DexEnd(i + 1) == RoundUp(inp.DexEnd(i), 4) + |inp.dexFiles[i].bytes|
  {
  }

  lemma ClassSpan(inp: Input, c: nat)
    requires c < |inp.Classes()|
    ensures inp.Done(c).offset == inp.ClassStart(c)
    ensures |inp.Done(c).Encode()| == inp.ClassStart(c + 1) - inp.ClassStart(c)
  {
  }

  lemma OatDexFilesMore(inp: Input, w: seq<Byte>, i: nat)
    requires i < |inp.dexFiles| && OatDexFilesAt(inp, w, i) && At(w, inp.Linked(i).offset, inp.Linked(i).Encode())
    ensures OatDexFilesAt(inp, w, i + 1)
  {
    hide At, Input.Linked, OatDexFile.Encode;
  }

  lemma DexFilesMore(inp: Input, w: seq<Byte>, i: nat)
    requires i < |inp.dexFiles| && DexFilesAt(inp, w, i) && At(w, inp.Linked(i).dexFileOffset, inp.dexFiles[i].bytes)
    ensures DexFilesAt(inp, w, i + 1)
  {
    hide At, Input.Linked;
  }

  lemma OatClassesMore(inp: Input, w: seq<Byte>, c: nat)
    requires c < |inp.Classes()| && OatClassesAt(inp, w, c) && At(w, inp.Done(c).offset, inp.Done(c).Encode())
    ensures OatClassesAt(inp, w, c + 1)
  {
    hide At, Input.Done, OatClass.Encode;
  }

  lemma TrampolinesMore(inp: Input, w: seq<Byte>, k: nat)
    requires k < |inp.trampolines| && TrampolinesAt(inp, w, k) && At(w, inp.TrampolineStart(k), inp.trampolines[k])
    ensures TrampolinesAt(inp, w, k + 1)
  {
    hide At, Input.TrampolineStart;
  }

  lemma OatDexFileAppended(inp: Input, w: seq<Byte>, i: nat)
    requires i < |inp.dexFiles| && |w| == inp.OatDexFileStart(i) && HeaderAt(inp, w) && OatDexFilesAt(inp, w, i)
    ensures var w' := w + inp.Linked(i).Encode();
      |w'| == inp.OatDexFileStart(i + 1) && HeaderAt(inp, w') && OatDexFilesAt(inp, w', i + 1)
  {
    hide HeaderAt, OatDexFilesAt, DexFilesAt, OatClassesAt, TrampolinesAt, At, Input.Linked, OatDexFile.Encode,
      Input.OatDexFileStart;
    var d := inp.Linked(i).Encode();
    NothingYet(inp, w);
    RegionsAppend(inp, w, d, i, 0, 0, 0);
    LinkedSpan(inp, i);
    AtEnd(w, d);
    OatDexFilesMore(inp, w + d, i);
  }

  lemma DexFileAppended(inp: Input, w: seq<Byte>, pad: seq<Byte>, i: nat)
    requires i < |inp.dexFiles| && |w| == inp.DexEnd(i) && |w + pad| == RoundUp(inp.DexEnd(i), 4)
    requires HeaderAt(inp, w) && OatDexFilesAt(inp, w, |inp.dexFiles|) && DexFilesAt(inp, w, i)
    ensures var w' := w + pad + inp.dexFiles[i].bytes;
      && |w'| == inp.DexEnd(i + 1) && HeaderAt(inp, w')
      && OatDexFilesAt(inp, w', |inp.dexFiles|) && DexFilesAt(inp, w', i + 1)
  {
    hide HeaderAt, OatDexFilesAt, DexFilesAt, OatClassesAt, TrampolinesAt, At, Input.Linked, Input.DexEnd, RoundUp;
    var bytes, n := inp.dexFiles[i].bytes, |inp.dexFiles|;
    NothingYet(inp, w);
    RegionsAppend(inp, w, pad, n, i, 0, 0);
    RegionsAppend(inp, w + pad, bytes, n, i, 0, 0);
    LinkedSpan(inp, i);
    AtEnd(w + pad, bytes);
    DexFilesMore(inp, w + pad + bytes, i);
  }

  lemma OatClassAppended(inp: Input, w: seq<Byte>, c: nat)
    requires c < |inp.Classes()| && |w| == inp.ClassStart(c) && HeaderAt(inp, w)
    requires OatDexFilesAt(inp, w, |inp.dexFiles|) && DexFilesAt(inp, w, |inp.dexFiles|) && OatClassesAt(inp, w, c)
    ensures var w' := w + inp.Done(c).Encode();
      && |w'| == inp.ClassStart(c + 1) && HeaderAt(inp, w')
      && OatDexFilesAt(inp, w', |inp.dexFiles|) && DexFilesAt(inp, w', |inp.dexFiles|) && OatClassesAt(inp, w', c + 1)
  {
    hide HeaderAt, OatDexFilesAt, DexFilesAt, OatClassesAt, TrampolinesAt, At, Input.Done, OatClass.Encode,
      Input.ClassStart, Input.Classes;
    var d := inp.Done(c).Encode();
    NothingYet(inp, w);
    RegionsAppend(inp, w, d, |inp.dexFiles|, |inp.dexFiles|, c, 0);
    ClassSpan(inp, c);
    AtEnd(w, d);
    OatClassesMore(inp, w + d, c);
  }

  lemma TrampolineAppended(inp: Input, w: seq<Byte>, pad: seq<Byte>, k: nat)
    requires k < |inp.trampolines| && |w| == inp.TrampolineEnd(k) && |w + pad| == inp.TrampolineStart(k)
    requires TablesAt(inp, w) && TrampolinesAt(inp, w, k)
    ensures var w' := w + pad + inp.trampolines[k];
      |w'| == inp.TrampolineEnd(k + 1) && TablesAt(inp, w') && TrampolinesAt(inp, w', k + 1)
  {
    hide HeaderAt, OatDexFilesAt, DexFilesAt, OatClassesAt, TrampolinesAt, At, Input.Classes;
    var t, n, c := inp.trampolines[k], |inp.dexFiles|, |inp.Classes()|;
    RegionsAppend(inp, w, pad, n, n, c, k);
    RegionsAppend(inp, w + pad, t, n, n, c, k);
    AtEnd(w + pad, t);
    TrampolinesMore(inp, w + pad + t, k);
  }

  lemma NothingYet(inp: Input, w: seq<Byte>)
    ensures OatDexFilesAt(inp, w, 0) && DexFilesAt(inp, w, 0) && OatClassesAt(inp, w, 0) && TrampolinesAt(inp, w, 0)
  {
  }

  lemma HeaderWritten(inp: Input)
    requires inp.Valid()
    ensures var w := inp.Header().Encode() + inp.imageFileLocation;
      |w| == inp.OatDexFileStart(0) && HeaderAt(inp, w)
  {
  }

  /** A complete set of tables stays complete however the code region grows. */
  lemma TablesKept(inp: Input, base: seq<Byte>, w: seq<Byte>)
    requires inp.Valid() && base <= w && TablesAt(inp, base) && (inp.isImage ==> TrampolinesAt(inp, base, 7))
    ensures TablesAt(inp, w) && (inp.isImage ==> TrampolinesAt(inp, w, 7))
  {
    assert w == base + w[|base|..];
    RegionsAppend(inp, base, w[|base|..], |inp.dexFiles|, |inp.dexFiles|, |inp.Classes()|,
                  if inp.isImage then 7 else 0);
  }

  /** Everything before the executable region is in the file. */
  ghost predicate TablesAt(inp: Input, w: seq<Byte>) {
    && HeaderAt(inp, w) && OatDexFilesAt(inp, w, |inp.dexFiles|) && DexFilesAt(inp, w, |inp.dexFiles|)
    && OatClassesAt(inp, w, |inp.Classes()|)
  }

  /** The `size_*` counters of the debug build. */
  datatype Stats = Stats(
    dexFileAlignment: nat, oatHeader: nat, imageFileLocation: nat, dexFile: nat,
    trampolines: nat, trampolineAlignment: nat, codeSize: nat, code: nat, codeAlignment: nat,
    mappingTable: nat, vmapTable: nat, gcMap: nat,
    locationSize: nat, locationData: nat, locationChecksum: nat, dexFileOffset: nat, methodsOffsets: nat,
    classStatus: nat, classMethodOffsets: nat)
  {
    function Total(): nat {
      dexFileAlignment + oatHeader + imageFileLocation + dexFile
      + trampolines + trampolineAlignment + codeSize + code + codeAlignment
      + mappingTable + vmapTable + gcMap
      + locationSize + locationData + locationChecksum + dexFileOffset + methodsOffsets
      + classStatus + classMethodOffsets
    }
  }

  const NO_STATS := Stats(0, 0, 0, 0, 0, 0, 0, 0, 0, 0, 0, 0, 0, 0, 0, 0, 0, 0, 0)

  class OatWriter {
    const input: Input

    var oatHeader: OatHeader
    var oatDexFiles: seq<OatDexFile>
    var oatClasses: seq<OatClass>
    var codeOffsets: map<Ptr, nat>
    var mappingTableOffsets: map<Ptr, nat>
    var vmapTableOffsets: map<Ptr, nat>
    var gcMapOffsets: map<Ptr, nat>
    var size: nat
    var sizeExecutableOffsetAlignment: nat
    var stats: Stats
    /** Which Thumb delta is inside each code offset; used by the proof only. */
    ghost var codeDeltas: map<Ptr, nat>
    /** The stream's bytes before the oat file; used by the proof only. */
    ghost var prefix: seq<Byte>
    /** Where the stream started; used by the proof only. */
    ghost var origin: Streams.Sink

    ghost function Tables(offset: nat): Layout
      reads `codeOffsets, `codeDeltas, `mappingTableOffsets, `vmapTableOffsets, `gcMapOffsets
    {
      Layout(offset, codeOffsets, codeDeltas, mappingTableOffsets, vmapTableOffsets, gcMapOffsets)
    }

    ghost predicate DexFilesLinked()
      reads `oatDexFiles
    {
      && |oatDexFiles| == |input.dexFiles|
      && forall i {:trigger oatDexFiles[i]} :: 0 <= i < |oatDexFiles| ==> oatDexFiles[i] == input.Linked(i)
    }

    ghost predicate ClassesBlank()
      reads `oatClasses
    {
      && |oatClasses| == |input.Classes()|
      && forall c {:trigger oatClasses[c]} :: 0 <= c < |oatClasses| ==> oatClasses[c] == input.Blank(c)
    }

    ghost predicate ClassesDone()
      reads `oatClasses
    {
      && |oatClasses| == |input.Classes()|
      && forall c {:trigger oatClasses[c]} :: 0 <= c < |oatClasses| ==> oatClasses[c] == input.Done(c)
    }

    /** Every offset has been fixed, and `size` is where the last region ends. */
    ghost predicate Promised()
      reads `oatHeader, `oatDexFiles, `oatClasses, `size, `sizeExecutableOffsetAlignment
      reads `codeOffsets, `codeDeltas, `mappingTableOffsets, `vmapTableOffsets, `gcMapOffsets
    {
      && input.Valid()
      && oatHeader == input.Header()
      && DexFilesLinked() && ClassesDone()
      && Tables(size) == input.End()
      && sizeExecutableOffsetAlignment == input.ExecutableOffset() - input.ClassStart(|input.Classes()|)
    }

    ghost predicate FreshStats()
      reads `stats
    {
      stats == NO_STATS.(dexFileAlignment := input.DexPadding(|input.dexFiles|))
    }

    constructor (input: Input)
      requires input.Valid()
      ensures this.input == input && Promised() && FreshStats()
    {
      hide AllClasses, AfterClasses, Input.DexEnd, Input.DexPadding, Input.OatDexFileStart;
      hide DexFilesLinked, ClassesBlank, ClassesDone;
      this.input := input;
      oatHeader := OatHeader(0, 0, 0, 0, 0, 0, [], 0, 0, 0);
      oatDexFiles, oatClasses := [], [];
      codeOffsets, mappingTableOffsets, vmapTableOffsets, gcMapOffsets := map[], map[], map[], map[];
      codeDeltas, prefix, origin := map[], [], Streams.Sink([], 0);
      stats := NO_STATS;
      size, sizeExecutableOffsetAlignment := 0, 0;
      new;
      var offset := InitOatHeader();
      offset := InitOatDexFiles(offset);
      offset := InitDexFiles(offset);
      offset := InitOatClasses(offset);
      offset := InitOatCode(offset);
      offset := InitOatCodeDexFiles(offset);
      size := offset;
    }

    method InitOatHeader() returns (offset: nat)
      modifies this`oatHeader
      ensures offset == input.OatDexFileStart(0) && oatHeader == input.NewHeader()
    {
      oatHeader := OatHeader(OAT_MAGIC, OAT_VERSION, input.checksum, IsaCode(input.isa), |input.dexFiles|, 0,
                             NoOffsets(7), input.imageChecksum, input.imageBegin, |input.imageFileLocation|);
      offset := HEADER_SIZE;
      offset := offset + |input.imageFileLocation|;
    }

    method InitOatDexFiles(start: nat) returns (offset: nat)
      requires start == input.OatDexFileStart(0) && oatDexFiles == []
      modifies this`oatDexFiles
      ensures offset == input.DexEnd(0) && |oatDexFiles| == |input.dexFiles|
      ensures forall i {:trigger oatDexFiles[i]} :: 0 <= i < |oatDexFiles| ==> oatDexFiles[i] == input.Unlinked(i)
    {
      offset := start;
      for i := 0 to |input.dexFiles|
        invariant offset == input.OatDexFileStart(i) && |oatDexFiles| == i
        invariant forall h {:trigger oatDexFiles[h]} :: 0 <= h < i ==> oatDexFiles[h] == input.Unlinked(h)
      {
        var dexFile := input.dexFiles[i];
        var oatDexFile := OatDexFile(offset, dexFile.location, dexFile.locationChecksum, 0,
                                     NoOffsets(|dexFile.classDefs|));
        oatDexFiles := oatDexFiles + [oatDexFile];
        offset := offset + oatDexFile.SizeOf();
      }
    }

    method InitDexFiles(start: nat) returns (offset: nat)
      requires start == input.DexEnd(0) && stats == NO_STATS && |oatDexFiles| == |input.dexFiles|
      requires forall i {:trigger oatDexFiles[i]} :: 0 <= i < |oatDexFiles| ==> oatDexFiles[i] == input.Unlinked(i)
      modifies this`oatDexFiles, this`stats
      ensures offset == input.DexEnd(|input.dexFiles|) && |oatDexFiles| == |input.dexFiles|
      ensures forall i {:trigger oatDexFiles[i]} :: 0 <= i < |oatDexFiles| ==> oatDexFiles[i] == input.Located(i)
      ensures stats == NO_STATS.(dexFileAlignment := input.DexPadding(|input.dexFiles|))
    {
      offset := start;
      for i := 0 to |input.dexFiles|
        invariant offset == input.DexEnd(i) && |oatDexFiles| == |input.dexFiles|
        invariant forall h {:trigger oatDexFiles[h]} :: 0 <= h < |oatDexFiles| ==>
          oatDexFiles[h] == if h < i then input.Located(h) else input.Unlinked(h)
        invariant stats == NO_STATS.(dexFileAlignment := input.DexPadding(i))
      {
        var originalOffset := offset;
        offset := RoundUp(offset, 4);
        stats := stats.(dexFileAlignment := stats.dexFileAlignment + offset - originalOffset);
        oatDexFiles := oatDexFiles[i := oatDexFiles[i].(dexFileOffset := offset)];
        offset := offset + |input.dexFiles[i].bytes|;
      }
    }

    method InitOatClasses(start: nat) returns (offset: nat)
      requires start == input.ClassStart(0) && oatClasses == [] && |oatDexFiles| == |input.dexFiles|
      requires forall i {:trigger oatDexFiles[i]} :: 0 <= i < |oatDexFiles| ==> oatDexFiles[i] == input.Located(i)
      modifies this`oatDexFiles, this`oatClasses
      ensures offset == input.ClassStart(|input.Classes()|) && DexFilesLinked() && ClassesBlank()
    {
      offset := start;
      var n := |input.dexFiles|;
      for i := 0 to n
        invariant |oatClasses| == input.FirstClass(i) <= |input.Classes()| && |oatDexFiles| == n
        invariant offset == input.ClassStart(|oatClasses|)
        invariant forall h {:trigger oatDexFiles[h]} :: 0 <= h < n ==>
          oatDexFiles[h] == if h < i then input.Linked(h) else input.Located(h)
        invariant forall c {:trigger oatClasses[c]} :: 0 <= c < |oatClasses| ==> oatClasses[c] == input.Blank(c)
      {
        ClassIndex(input.dexFiles, i);
        offset := InitOatClassesOf(offset, i);
      }
      assert input.dexFiles[..n] == input.dexFiles;
    }

    /** The inner loop of `InitOatClasses`: the classes of dex file `i`. */
    method InitOatClassesOf(start: nat, i: nat) returns (offset: nat)
      requires i < |input.dexFiles| == |oatDexFiles| && oatDexFiles[i] == input.Located(i)
      requires |oatClasses| == input.FirstClass(i)
      requires input.FirstClass(i) + |input.dexFiles[i].classDefs| <= |input.Classes()|
      requires start == input.ClassStart(|oatClasses|)
      modifies this`oatDexFiles, this`oatClasses
      ensures oatDexFiles == old(oatDexFiles)[i := input.Linked(i)]
      ensures old(oatClasses) <= oatClasses && |oatClasses| == input.FirstClass(i) + |input.dexFiles[i].classDefs|
      ensures forall c {:trigger oatClasses[c]} :: |old(oatClasses)| <= c < |oatClasses| ==>
        oatClasses[c] == input.Blank(c)
      ensures offset == input.ClassStart(|oatClasses|)
    {
      hide AllClasses, Input.FirstClass;
      offset := start;
      var dexFile := input.dexFiles[i];
      ghost var first, o0 := input.FirstClass(i), oatDexFiles[i];
      input.ClassesOf(i);
      for j := 0 to |dexFile.classDefs|
        invariant |oatClasses| == first + j && old(oatClasses) <= oatClasses && |oatDexFiles| == |input.dexFiles|
        invariant offset == input.ClassStart(|oatClasses|)
        invariant oatDexFiles == old(oatDexFiles)[i := o0.(methodsOffsets := oatDexFiles[i].methodsOffsets)]
        invariant |oatDexFiles[i].methodsOffsets| == |dexFile.classDefs|
        invariant oatDexFiles[i].methodsOffsets[..j] == input.Pointers(first, j)
        invariant forall c {:trigger oatClasses[c]} :: |old(oatClasses)| <= c < |oatClasses| ==>
          oatClasses[c] == input.Blank(c)
      {
        var o := oatDexFiles[i];
        oatDexFiles := oatDexFiles[i := o.(methodsOffsets := o.methodsOffsets[j := offset])];
        assert oatDexFiles[i].methodsOffsets[..j + 1] == o.methodsOffsets[..j] + [offset];
        var classDef := dexFile.classDefs[j];
        assert classDef == input.Classes()[first + j];
        var oatClass := OatClass(offset, classDef.status, NoCode(|classDef.methods|));
        oatClasses := oatClasses + [oatClass];
        offset := offset + oatClass.SizeOf();
      }
      assert oatDexFiles[i].methodsOffsets == oatDexFiles[i].methodsOffsets[..|dexFile.classDefs|];
    }

    method InitOatCode(start: nat) returns (offset: nat)
      requires input.Valid() && start == input.ClassStart(|input.Classes()|) && oatHeader == input.NewHeader()
      modifies this`oatHeader, this`sizeExecutableOffsetAlignment
      ensures offset == input.CodeStart() && oatHeader == input.Header()
      ensures sizeExecutableOffsetAlignment == input.ExecutableOffset() - input.ClassStart(|input.Classes()|)
    {
      var oldOffset := start;
      offset := RoundUp(oldOffset, PAGE_SIZE);
      oatHeader := oatHeader.(executableOffset := offset);
      sizeExecutableOffsetAlignment := offset - oldOffset;
      if input.isImage {
        ghost var h0 := oatHeader;
        for k := 0 to 7
          invariant |oatHeader.trampolineOffsets| == 7
          invariant oatHeader == h0.(trampolineOffsets := oatHeader.trampolineOffsets)
          invariant oatHeader.trampolineOffsets[..k] == input.TrampolineOffsets(k)
          invariant offset == input.TrampolineEnd(k)
          invariant sizeExecutableOffsetAlignment == input.ExecutableOffset() - oldOffset
        {
          offset := AlignCode(offset, input.isa);
          var ts := oatHeader.trampolineOffsets;
          oatHeader := oatHeader.(trampolineOffsets := ts[k := offset]);
          assert oatHeader.trampolineOffsets[..k + 1] == ts[..k] + [offset];
          offset := offset + |input.trampolines[k]|;
        }
      } else {
        oatHeader := oatHeader.(trampolineOffsets := NoOffsets(7));
      }
    }

    method InitOatCodeDexFiles(start: nat) returns (offset: nat)
      requires start == input.CodeStart() && Tables(start) == input.Start() && ClassesBlank()
      modifies this`oatClasses, this`codeOffsets, this`mappingTableOffsets, this`vmapTableOffsets, this`gcMapOffsets,
        this`codeDeltas
      ensures Tables(offset) == input.End() && ClassesDone()
    {
      offset := start;
      hide AllClasses, Input.FirstClass;
      input.ClassBounds();
      var oatClassIndex := 0;
      var n := |input.dexFiles|;
      ghost var cs := input.Classes();
      for i := 0 to n
        invariant oatClassIndex == input.FirstClass(i) <= |cs| == |oatClasses|
        invariant Tables(offset) == AfterClasses(input.blobs, input.Start(), cs[..oatClassIndex])
        invariant forall c {:trigger oatClasses[c]} :: 0 <= c < |cs| ==>
          oatClasses[c] == if c < oatClassIndex then input.Done(c) else input.Blank(c)
      {
        input.ClassesOf(i);
        offset, oatClassIndex := InitOatCodeDexFile(offset, oatClassIndex, input.dexFiles[i]);
      }
      assert cs[..|cs|] == cs;
    }

    method InitOatCodeDexFile(start: nat, firstClass: nat, dexFile: DexFile) returns (offset: nat, oatClassIndex: nat)
      requires |oatClasses| == |input.Classes()| && firstClass + |dexFile.classDefs| <= |input.Classes()|
      requires input.Classes()[firstClass..firstClass + |dexFile.classDefs|] == dexFile.classDefs
      requires Tables(start) == AfterClasses(input.blobs, input.Start(), input.Classes()[..firstClass])
      requires forall c {:trigger oatClasses[c]} :: firstClass <= c < |oatClasses| ==> oatClasses[c] == input.Blank(c)
      modifies this`oatClasses, this`codeOffsets, this`mappingTableOffsets, this`vmapTableOffsets, this`gcMapOffsets,
        this`codeDeltas
      ensures oatClassIndex == firstClass + |dexFile.classDefs| && |oatClasses| == |input.Classes()|
      ensures Tables(offset) == AfterClasses(input.blobs, input.Start(), input.Classes()[..oatClassIndex])
      ensures forall c {:trigger oatClasses[c]} :: 0 <= c < |oatClasses| ==>
        oatClasses[c] == if firstClass <= c < oatClassIndex then input.Done(c) else old(oatClasses)[c]
    {
      hide AfterClasses, AllClasses;
      offset, oatClassIndex := start, firstClass;
      for j := 0 to |dexFile.classDefs|
        invariant oatClassIndex == firstClass + j && |oatClasses| == |input.Classes()|
        invariant Tables(offset) == AfterClasses(input.blobs, input.Start(), input.Classes()[..oatClassIndex])
        invariant forall c {:trigger oatClasses[c]} :: 0 <= c < |oatClasses| ==>
          oatClasses[c] == if firstClass <= c < oatClassIndex then input.Done(c) else old(oatClasses)[c]
      {
        assert input.Classes()[oatClassIndex] == input.Classes()[firstClass..firstClass + |dexFile.classDefs|][j];
        offset := InitOatCodeClassDef(offset, oatClassIndex, dexFile.classDefs[j]);
        oatClassIndex := oatClassIndex + 1;
      }
    }

    method InitOatCodeClassDef(start: nat, oatClassIndex: nat, classDef: ClassDef) returns (offset: nat)
      requires oatClassIndex < |input.Classes()| == |oatClasses| && input.Classes()[oatClassIndex] == classDef
      requires oatClasses[oatClassIndex] == input.Blank(oatClassIndex)
      requires Tables(start) == AfterClasses(input.blobs, input.Start(), input.Classes()[..oatClassIndex])
      modifies this`oatClasses, this`codeOffsets, this`mappingTableOffsets, this`vmapTableOffsets, this`gcMapOffsets,
        this`codeDeltas
      ensures oatClasses == old(oatClasses)[oatClassIndex := input.Done(oatClassIndex)]
      ensures Tables(offset) == AfterClasses(input.blobs, input.Start(), input.Classes()[..oatClassIndex + 1])
    {
      offset := start;
      ghost var b, s, ms := input.blobs, Tables(start), classDef.methods;
      assert Dedup(s) by { ClassesLeq(b, input.Start(), input.Classes()[..oatClassIndex], 0); }
      assert AfterMethods(b, s, ms[..0]) == s && RecordedAll(b, s, ms[..0]) == [];
      hide AfterClasses, AllClasses, AfterMethods, RecordedAll, Step, Recorded, SetMethodOffset;
      assert AfterMethods(b, s, ms) == AfterClasses(b, input.Start(), input.Classes()[..oatClassIndex + 1]) by {
        NextClass(b, input.Start(), input.Classes(), oatClassIndex);
      }
      var oatClass := oatClasses[oatClassIndex];
      for k := 0 to |classDef.methods|
        invariant oatClasses == old(oatClasses)[oatClassIndex := oatClass]
        invariant oatClass == old(oatClasses)[oatClassIndex].(methodOffsets := oatClass.methodOffsets)
        invariant |oatClass.methodOffsets| == |ms|
        invariant oatClass.methodOffsets[..k] == RecordedAll(b, s, ms[..k])
        invariant Tables(offset) == AfterMethods(b, s, ms[..k])
      {
        RecordedEach(b, s, ms, k);
        var recorded;
        offset, recorded := InitOatCodeMethod(offset, classDef.methods[k]);
        oatClass := SetMethodOffset(oatClass, k, recorded);
        oatClasses := oatClasses[oatClassIndex := oatClass];
      }
      assert ms[..|ms|] == ms;
      assert oatClass.methodOffsets == oatClass.methodOffsets[..|ms|];
    }

    method InitOatCodeMethod(start: nat, method_: Option<CompiledMethod>)
      returns (offset: nat, recorded: OatMethodOffsets)
      requires Dedup(Tables(start))
      modifies this`codeOffsets, this`mappingTableOffsets, this`vmapTableOffsets, this`gcMapOffsets, this`codeDeltas
      ensures Tables(offset) == Step(input.blobs, old(Tables(start)), method_)
      ensures recorded == Recorded(input.blobs, old(Tables(start)), method_)
    {
      offset := start;
      recorded := NO_CODE;
      if method_.Some? {
        var m := method_.value;
        ghost var b, s0 := input.blobs, Tables(start);
        offset := AlignCode(offset, m.isa);
        var codeSize := |input.blobs(m.code)|;
        var codeOffset := U32(offset + 4 + CodeDelta(m.isa));
        if m.code in codeOffsets {
          codeOffset := codeOffsets[m.code];
        } else {
          codeOffsets := codeOffsets[m.code := codeOffset];
          codeDeltas := codeDeltas[m.code := CodeDelta(m.isa)];
          offset := offset + 4;
          offset := offset + codeSize;
        }
        var mappingTableOffset, vmapTableOffset, gcMapOffset;
        ghost var s1 := Tables(offset);
        assert s1 == CodeStep(b, s0, m);
        offset, mappingTableOffsets, mappingTableOffset := InitTable(offset, mappingTableOffsets, m.mapping);
        ghost var s2 := Tables(offset);
        assert s2 == MappingStep(b, s1, m);
        offset, vmapTableOffsets, vmapTableOffset := InitTable(offset, vmapTableOffsets, m.vmap);
        ghost var s3 := Tables(offset);
        assert s3 == VmapStep(b, s2, m);
        offset, gcMapOffsets, gcMapOffset := InitTable(offset, gcMapOffsets, m.gcMap);
        assert Tables(offset) == GcMapStep(b, s3, m);
        recorded := OatMethodOffsets(codeOffset, m.frameSize, m.coreSpillMask, m.fpSpillMask,
                                     mappingTableOffset, vmapTableOffset, gcMapOffset);
      }
    }

    method InitTable(start: nat, table: map<Ptr, nat>, p: Ptr)
      returns (offset: nat, table': map<Ptr, nat>, recorded: nat)
      ensures (offset, table') == Place(start, table, p, |input.blobs(p)|)
      ensures p in table' && recorded == table'[p]
    {
      var tableSize := |input.blobs(p)|;
      recorded := if tableSize == 0 then 0 else U32(start);
      if p in table {
        recorded := table[p];
        offset, table' := start, table;
      } else {
        table' := table[p := recorded];
        offset := start + tableSize;
      }
    }

    // ---- the second pass ----

    /** What was in the stream before the oat file, which stays as it was. */
    ghost predicate Sound(out: Streams.VectorOutputStream, fileOffset: nat)
      reads `origin, `prefix, out
    {
      out.Valid() && out.Logged() && out.origin == origin && fileOffset <= out.pos &&
        out.Written()[..fileOffset] == prefix
    }

    /** The file so far, from `fileOffset` on. */
    ghost function File(out: Streams.VectorOutputStream, fileOffset: nat): seq<Byte>
      requires Sound(out, fileOffset)
      reads `origin, `prefix, out
    {
      out.Written()[fileOffset..]
    }

    lemma FilePos(out: Streams.VectorOutputStream, fileOffset: nat)
      requires Sound(out, fileOffset)
      ensures out.pos == fileOffset + |File(out, fileOffset)|
    {
    }

    method Emit(out: Streams.VectorOutputStream, fileOffset: nat, data: seq<Byte>) returns (ok: bool)
      requires Sound(out, fileOffset)
      modifies out
      ensures ok && Sound(out, fileOffset)
      ensures File(out, fileOffset) == old(File(out, fileOffset)) + data
    {
      ok := out.WriteFully(data);
    }

    /** Moves forward over `n` bytes, whatever they are. */
    method Skip(out: Streams.VectorOutputStream, fileOffset: nat, n: nat) returns (newOffset: nat, ghost pad: seq<Byte>)
      requires Sound(out, fileOffset)
      modifies out
      ensures Sound(out, fileOffset)
      ensures |pad| == n && File(out, fileOffset) == old(File(out, fileOffset)) + pad
      ensures newOffset == fileOffset + |File(out, fileOffset)|
    {
      ghost var before := out.Written();
      newOffset := out.Seek(n, Streams.SeekCurrent);
      pad := out.Written()[|before|..];
      assert out.Written() == before + pad;
    }

    method WriteTable(out: Streams.VectorOutputStream, offsets: map<Ptr, nat>, p: Ptr, recorded: nat,
                      fileOffset: nat, start: nat) returns (relativeOffset: nat)
      requires Sound(out, fileOffset) && start == |File(out, fileOffset)|
      modifies out
      ensures Sound(out, fileOffset)
      ensures File(out, fileOffset) ==
        if AlreadyWritten(offsets, p, start, recorded) then old(File(out, fileOffset))
        else old(File(out, fileOffset)) + input.blobs(p)
      ensures relativeOffset == |File(out, fileOffset)|
    {
      relativeOffset := start;
      if p in offsets && relativeOffset != recorded {
      } else {
        var _ := Emit(out, fileOffset, input.blobs(p));
        relativeOffset := relativeOffset + |input.blobs(p)|;
      }
    }

    /** Writes one method's code and tables unless they are already in the file. */
    method WriteCodeMethod(out: Streams.VectorOutputStream, fileOffset: nat, start: nat,
                           recorded: OatMethodOffsets, method_: Option<CompiledMethod>, ghost s: Layout,
                           ghost base: seq<Byte>)
      returns (relativeOffset: nat)
      requires Sound(out, fileOffset) && Tables(size) == input.End() && fileOffset + size < TWO32
      requires Good(input.blobs, s, File(out, fileOffset)) && start == s.offset
      requires base <= File(out, fileOffset) && Dedup(s)
      requires recorded == Recorded(input.blobs, s, method_) && Leq(Step(input.blobs, s, method_), input.End())
      requires method_.Some? ==> |input.blobs(method_.value.code)| > 0
      modifies out, this`stats
      ensures Sound(out, fileOffset)
      ensures base <= File(out, fileOffset)
      ensures Good(input.blobs, Step(input.blobs, s, method_), File(out, fileOffset))
      ensures relativeOffset == Step(input.blobs, s, method_).offset
      ensures stats.Total() == old(stats.Total()) + relativeOffset - start
    {
      hide CodeStep, MappingStep, VmapStep, GcMapStep, Good, Sub, Recorded;
      relativeOffset := start;
      if method_.Some? {
        var m := method_.value;
        ghost var s1 := CodeStep(input.blobs, s, m);
        ghost var s2 := MappingStep(input.blobs, s1, m);
        ghost var s3 := VmapStep(input.blobs, s2, m);
        StepFits(input.blobs, s, m, input.End());
        RecordedParts(input.blobs, s, m);
        relativeOffset := WriteMethodCode(out, fileOffset, relativeOffset, recorded.codeOffset, m, s, base);
        relativeOffset := WriteMapping(out, fileOffset, relativeOffset, recorded.mappingTableOffset, m, s1, base);
        relativeOffset := WriteVmap(out, fileOffset, relativeOffset, recorded.vmapTableOffset, m, s2, base);
        relativeOffset := WriteGcMap(out, fileOffset, relativeOffset, recorded.gcMapOffset, m, s3, base);
      }
    }

    method WriteMethodCode(out: Streams.VectorOutputStream, fileOffset: nat, start: nat,
                           codeOffset: nat, m: CompiledMethod, ghost s: Layout, ghost base: seq<Byte>)
      returns (relativeOffset: nat)
      requires Sound(out, fileOffset) && Good(input.blobs, s, File(out, fileOffset)) && start == s.offset
      requires base <= File(out, fileOffset)
      requires fileOffset + CodeStep(input.blobs, s, m).offset < TWO32
      requires Sub(CodeStep(input.blobs, s, m).code, codeOffsets) && |input.blobs(m.code)| > 0
      requires codeOffset == CodeStep(input.blobs, s, m).code[m.code]
      modifies out, this`stats
      ensures Sound(out, fileOffset) && base <= File(out, fileOffset)
      ensures Good(input.blobs, CodeStep(input.blobs, s, m), File(out, fileOffset))
      ensures relativeOffset == CodeStep(input.blobs, s, m).offset
      ensures stats.Total() == old(stats.Total()) + relativeOffset - start
    {
      hide Good, Sub, Sound, File, AlignCode, CodeStep;
      ghost var w := File(out, fileOffset);
      GoodSize(input.blobs, s, w);
      CodeAligned(input.blobs, s, m);
      ghost var pad;
      relativeOffset, pad := AlignTo(out, fileOffset, start, AlignCode(start, m.isa), base);
      CodeWritten(input.blobs, s, w, pad, m, codeOffsets);
      var here := relativeOffset + 4 + CodeDelta(m.isa);
      if m.code in codeOffsets && here != codeOffset {
      } else {
        relativeOffset := EmitCode(out, fileOffset, relativeOffset, input.blobs(m.code), base);
      }
      GoodSize(input.blobs, CodeStep(input.blobs, s, m), File(out, fileOffset));
    }

    method AlignTo(out: Streams.VectorOutputStream, fileOffset: nat, start: nat, alignedOffset: nat,
                   ghost base: seq<Byte>)
      returns (relativeOffset: nat, ghost pad: seq<Byte>)
      requires Sound(out, fileOffset) && |File(out, fileOffset)| == start <= alignedOffset
      requires base <= File(out, fileOffset) && fileOffset + alignedOffset < TWO32
      modifies out, this`stats
      ensures Sound(out, fileOffset) && relativeOffset == alignedOffset == |File(out, fileOffset)|
      ensures base <= File(out, fileOffset) == old(File(out, fileOffset)) + pad
      ensures stats == old(stats).(codeAlignment := old(stats).codeAlignment + alignedOffset - start)
    {
      relativeOffset, pad := 0, [];
      var alignedCodeDelta := alignedOffset - start;
      if alignedCodeDelta != 0 {
        var newOffset;
        newOffset, pad := Skip(out, fileOffset, alignedCodeDelta);
        stats := stats.(codeAlignment := stats.codeAlignment + alignedCodeDelta);
        var expectedOffset := U32(fileOffset + alignedOffset);
        if U32(newOffset) != expectedOffset {
          return;
        }
      }
      relativeOffset := start + alignedCodeDelta;
    }

    method EmitCode(out: Streams.VectorOutputStream, fileOffset: nat, start: nat, code: seq<Byte>,
                    ghost base: seq<Byte>)
      returns (relativeOffset: nat)
      requires Sound(out, fileOffset) && base <= File(out, fileOffset)
      modifies out, this`stats
      ensures Sound(out, fileOffset) && relativeOffset == start + 4 + |code|
      ensures base <= File(out, fileOffset) == old(File(out, fileOffset)) + WordLE(|code|) + code
      ensures stats == old(stats).(codeSize := old(stats).codeSize + 4, code := old(stats).code + |code|)
    {
      var _ := Emit(out, fileOffset, WordLE(|code|));
      stats := stats.(codeSize := stats.codeSize + 4);
      relativeOffset := start + 4;
      assert base <= File(out, fileOffset);
      var _ := Emit(out, fileOffset, code);
      stats := stats.(code := stats.code + |code|);
      relativeOffset := relativeOffset + |code|;
    }

    method WriteMapping(out: Streams.VectorOutputStream, fileOffset: nat, start: nat,
                        recorded: nat, m: CompiledMethod, ghost s: Layout, ghost base: seq<Byte>)
      returns (relativeOffset: nat)
      requires Sound(out, fileOffset) && Good(input.blobs, s, File(out, fileOffset)) && start == s.offset < TWO32
      requires base <= File(out, fileOffset)
      requires Sub(MappingStep(input.blobs, s, m).mapping, mappingTableOffsets)
      requires recorded == MappingStep(input.blobs, s, m).mapping[m.mapping]
      modifies out, this`stats
      ensures Sound(out, fileOffset) && base <= File(out, fileOffset)
      ensures Good(input.blobs, MappingStep(input.blobs, s, m), File(out, fileOffset))
      ensures relativeOffset == MappingStep(input.blobs, s, m).offset
      ensures stats.Total() == old(stats.Total()) + relativeOffset - start
    {
      MappingWritten(input.blobs, s, File(out, fileOffset), m, mappingTableOffsets);
      relativeOffset := WriteTable(out, mappingTableOffsets, m.mapping, recorded, fileOffset, start);
      stats := stats.(mappingTable := stats.mappingTable + relativeOffset - start);
    }

    method WriteVmap(out: Streams.VectorOutputStream, fileOffset: nat, start: nat,
                     recorded: nat, m: CompiledMethod, ghost s: Layout, ghost base: seq<Byte>)
      returns (relativeOffset: nat)
      requires Sound(out, fileOffset) && Good(input.blobs, s, File(out, fileOffset)) && start == s.offset < TWO32
      requires base <= File(out, fileOffset)
      requires Sub(VmapStep(input.blobs, s, m).vmap, vmapTableOffsets)
      requires recorded == VmapStep(input.blobs, s, m).vmap[m.vmap]
      modifies out, this`stats
      ensures Sound(out, fileOffset) && base <= File(out, fileOffset)
      ensures Good(input.blobs, VmapStep(input.blobs, s, m), File(out, fileOffset))
      ensures relativeOffset == VmapStep(input.blobs, s, m).offset
      ensures stats.Total() == old(stats.Total()) + relativeOffset - start
    {
      VmapWritten(input.blobs, s, File(out, fileOffset), m, vmapTableOffsets);
      relativeOffset := WriteTable(out, vmapTableOffsets, m.vmap, recorded, fileOffset, start);
      stats := stats.(vmapTable := stats.vmapTable + relativeOffset - start);
    }

    method WriteGcMap(out: Streams.VectorOutputStream, fileOffset: nat, start: nat,
                      recorded: nat, m: CompiledMethod, ghost s: Layout, ghost base: seq<Byte>)
      returns (relativeOffset: nat)
      requires Sound(out, fileOffset) && Good(input.blobs, s, File(out, fileOffset)) && start == s.offset < TWO32
      requires base <= File(out, fileOffset)
      requires Sub(GcMapStep(input.blobs, s, m).gcMap, gcMapOffsets)
      requires recorded == GcMapStep(input.blobs, s, m).gcMap[m.gcMap]
      modifies out, this`stats
      ensures Sound(out, fileOffset) && base <= File(out, fileOffset)
      ensures Good(input.blobs, GcMapStep(input.blobs, s, m), File(out, fileOffset))
      ensures relativeOffset == GcMapStep(input.blobs, s, m).offset
      ensures stats.Total() == old(stats.Total()) + relativeOffset - start
    {
      GcMapWritten(input.blobs, s, File(out, fileOffset), m, gcMapOffsets);
      relativeOffset := WriteTable(out, gcMapOffsets, m.gcMap, recorded, fileOffset, start);
      stats := stats.(gcMap := stats.gcMap + relativeOffset - start);
    }

    method WriteCodeClassDef(out: Streams.VectorOutputStream, fileOffset: nat, start: nat, oatClassIndex: nat,
                             classDef: ClassDef, ghost base: seq<Byte>)
      returns (relativeOffset: nat)
      requires input.Valid() && oatClassIndex < |input.Classes()| == |oatClasses|
      requires input.Classes()[oatClassIndex] == classDef && oatClasses[oatClassIndex] == input.Done(oatClassIndex)
      requires Sound(out, fileOffset) && Tables(size) == input.End() && fileOffset + size < TWO32
      requires input.CodeUpTo(oatClassIndex, File(out, fileOffset))
      requires start == |File(out, fileOffset)| && base <= File(out, fileOffset)
      modifies out, this`stats
      ensures Sound(out, fileOffset) && base <= File(out, fileOffset)
      ensures input.CodeUpTo(oatClassIndex + 1, File(out, fileOffset))
      ensures relativeOffset == |File(out, fileOffset)|
      ensures stats.Total() == old(stats.Total()) + relativeOffset - start
    {
      relativeOffset := start;
      NextClass(input.blobs, input.Start(), input.Classes(), oatClassIndex);
      for k := 0 to |classDef.methods|
        invariant Sound(out, fileOffset) && base <= File(out, fileOffset)
        invariant Good(input.blobs, input.MethodState(oatClassIndex, k), File(out, fileOffset))
        invariant relativeOffset == |File(out, fileOffset)|
        invariant stats.Total() == old(stats.Total()) + relativeOffset - start
      {
        input.MethodFacts(oatClassIndex, k);
        relativeOffset := WriteCodeMethod(out, fileOffset, relativeOffset, oatClasses[oatClassIndex].methodOffsets[k],
                                          classDef.methods[k], input.MethodState(oatClassIndex, k), base);
      }
    }

    method WriteCodeDexFile(out: Streams.VectorOutputStream, fileOffset: nat, start: nat, firstClass: nat,
                            dexFile: DexFile, ghost base: seq<Byte>)
      returns (relativeOffset: nat, oatClassIndex: nat)
      requires Promised() && firstClass + |dexFile.classDefs| <= |input.Classes()|
      requires input.Classes()[firstClass..firstClass + |dexFile.classDefs|] == dexFile.classDefs
      requires Sound(out, fileOffset) && fileOffset + size < TWO32
      requires input.CodeUpTo(firstClass, File(out, fileOffset))
      requires start == |File(out, fileOffset)| && base <= File(out, fileOffset)
      modifies out, this`stats
      ensures Sound(out, fileOffset) && base <= File(out, fileOffset)
      ensures oatClassIndex == firstClass + |dexFile.classDefs|
      ensures input.CodeUpTo(oatClassIndex, File(out, fileOffset))
      ensures relativeOffset == |File(out, fileOffset)|
      ensures stats.Total() == old(stats.Total()) + relativeOffset - start
    {
      hide Input.CodeUpTo, AllClasses, Sound, File, Stats.Total;
      relativeOffset, oatClassIndex := start, firstClass;
      for j := 0 to |dexFile.classDefs|
        invariant Sound(out, fileOffset) && base <= File(out, fileOffset)
        invariant oatClassIndex == firstClass + j
        invariant input.CodeUpTo(oatClassIndex, File(out, fileOffset))
        invariant relativeOffset == |File(out, fileOffset)|
        invariant stats.Total() == old(stats.Total()) + relativeOffset - start
      {
        assert input.Classes()[oatClassIndex] == input.Classes()[firstClass..firstClass + |dexFile.classDefs|][j];
        relativeOffset := WriteCodeClassDef(out, fileOffset, relativeOffset, oatClassIndex, dexFile.classDefs[j], base);
        input.CodeAfterHeader(oatClassIndex + 1, File(out, fileOffset));
        if relativeOffset == 0 {
          return;
        }
        oatClassIndex := oatClassIndex + 1;
      }
    }

    method WriteCodeDexFiles(out: Streams.VectorOutputStream, fileOffset: nat, start: nat, ghost base: seq<Byte>)
      returns (relativeOffset: nat)
      requires Promised() && Sound(out, fileOffset) && fileOffset + size < TWO32
      requires Good(input.blobs, input.Start(), File(out, fileOffset))
      requires start == |File(out, fileOffset)| && base <= File(out, fileOffset)
      modifies out, this`stats
      ensures Sound(out, fileOffset) && base <= File(out, fileOffset)
      ensures Good(input.blobs, input.End(), File(out, fileOffset))
      ensures relativeOffset == |File(out, fileOffset)|
      ensures stats.Total() == old(stats.Total()) + relativeOffset - start
    {
      relativeOffset := start;
      hide Promised, Input.FirstClass, Input.Classes, Input.CodeUpTo, Good, Input.Start, Input.End, Sound, File,
        Stats.Total;
      input.CodeBounds(File(out, fileOffset));
      input.ClassBounds();
      var oatClassIndex := 0;
      for i := 0 to |input.dexFiles|
        invariant Sound(out, fileOffset) && base <= File(out, fileOffset)
        invariant oatClassIndex == input.FirstClass(i) <= |input.Classes()|
        invariant input.CodeUpTo(oatClassIndex, File(out, fileOffset))
        invariant relativeOffset == |File(out, fileOffset)|
        invariant stats.Total() == old(stats.Total()) + relativeOffset - start
      {
        input.ClassesOf(i);
        relativeOffset, oatClassIndex :=
          WriteCodeDexFile(out, fileOffset, relativeOffset, oatClassIndex, input.dexFiles[i], base);
        input.CodeAfterHeader(oatClassIndex, File(out, fileOffset));
        if relativeOffset == 0 {
          return;
        }
      }
      input.CodeBounds(File(out, fileOffset));
    }

    /** Moves to the executable region and writes the trampolines of a boot image. */
    method WriteCode(out: Streams.VectorOutputStream, fileOffset: nat) returns (relativeOffset: nat)
      requires Promised() && Sound(out, fileOffset)
      requires fileOffset + input.CodeStart() < TWO32
      requires |File(out, fileOffset)| == input.ClassStart(|input.Classes()|)
      requires TablesAt(input, File(out, fileOffset))
      modifies out, this`stats
      ensures Sound(out, fileOffset)
      ensures TablesAt(input, File(out, fileOffset))
      ensures input.isImage ==> TrampolinesAt(input, File(out, fileOffset), 7)
      ensures relativeOffset == |File(out, fileOffset)| == input.CodeStart()
      ensures stats.Total() == old(stats.Total()) + input.CodeStart() - input.ExecutableOffset()
    {
      hide HeaderAt, OatDexFilesAt, DexFilesAt, OatClassesAt, TrampolinesAt, Streams.Leads;
      relativeOffset := 0;
      ghost var w, pad := File(out, fileOffset), [];
      NothingYet(input, w);
      var newOffset;
      newOffset, pad := Skip(out, fileOffset, sizeExecutableOffsetAlignment);
      RegionsAppend(input, w, pad, |input.dexFiles|, |input.dexFiles|, |input.Classes()|, 0);
      input.TrampolinesGrow(|input.trampolines|);
      var expectedFileOffset := fileOffset + oatHeader.executableOffset;
      if U32(newOffset) != expectedFileOffset {
        return;
      }
      relativeOffset := oatHeader.executableOffset;
      if input.isImage {
        for k := 0 to 7
          invariant Sound(out, fileOffset)
          invariant TablesAt(input, File(out, fileOffset)) && TrampolinesAt(input, File(out, fileOffset), k)
          invariant relativeOffset == |File(out, fileOffset)| == input.TrampolineEnd(k)
          invariant stats.Total() == old(stats.Total()) + relativeOffset - input.ExecutableOffset()
        {
          relativeOffset := WriteTrampoline(out, fileOffset, relativeOffset, k);
        }
      }
    }

    method WriteTrampoline(out: Streams.VectorOutputStream, fileOffset: nat, start: nat, k: nat)
      returns (relativeOffset: nat)
      requires k < |input.trampolines| && Sound(out, fileOffset)
      requires TablesAt(input, File(out, fileOffset)) && TrampolinesAt(input, File(out, fileOffset), k)
      requires start == |File(out, fileOffset)| == input.TrampolineEnd(k)
      modifies out, this`stats
      ensures Sound(out, fileOffset)
      ensures TablesAt(input, File(out, fileOffset)) && TrampolinesAt(input, File(out, fileOffset), k + 1)
      ensures relativeOffset == |File(out, fileOffset)| == input.TrampolineEnd(k + 1)
      ensures stats.Total() == old(stats.Total()) + relativeOffset - start
    {
      hide TablesAt, TrampolinesAt;
      ghost var w := File(out, fileOffset);
      var trampoline := input.trampolines[k];
      var alignedOffset := AlignCode(start, input.isa);
      var alignmentPadding := alignedOffset - start;
      var _, pad := Skip(out, fileOffset, alignmentPadding);
      TrampolineAppended(input, w, pad, k);
      stats := stats.(trampolineAlignment := stats.trampolineAlignment + alignmentPadding);
      var _ := Emit(out, fileOffset, trampoline);
      stats := stats.(trampolines := stats.trampolines + |trampoline|);
      relativeOffset := start + alignmentPadding + |trampoline|;
    }

    method WriteOatDexFile(out: Streams.VectorOutputStream, fileOffset: nat, o: OatDexFile) returns (ok: bool)
      requires Sound(out, fileOffset)
      modifies out, this`stats
      ensures ok && Sound(out, fileOffset)
      ensures File(out, fileOffset) == old(File(out, fileOffset)) + o.Encode()
      ensures stats.Total() == old(stats.Total()) + o.SizeOf()
    {
      hide Sound, File, WordLE, WordsLE;
      ghost var w := File(out, fileOffset);
      ok := Emit(out, fileOffset, WordLE(|o.location|));
      ok := Emit(out, fileOffset, o.location);
      ok := Emit(out, fileOffset, WordLE(o.locationChecksum));
      ok := Emit(out, fileOffset, WordLE(o.dexFileOffset));
      ok := Emit(out, fileOffset, WordsLE(o.methodsOffsets));
      Regroup(w, WordLE(|o.location|), o.location, WordLE(o.locationChecksum), WordLE(o.dexFileOffset),
              WordsLE(o.methodsOffsets));
      stats := stats.(
        locationSize := stats.locationSize + 4, locationData := stats.locationData + |o.location|,
        locationChecksum := stats.locationChecksum + 4, dexFileOffset := stats.dexFileOffset + 4,
        methodsOffsets := stats.methodsOffsets + 4 * |o.methodsOffsets|);
    }

    method WriteOatDexFiles(out: Streams.VectorOutputStream, fileOffset: nat) returns (ok: bool)
      requires Promised() && Sound(out, fileOffset) && HeaderAt(input, File(out, fileOffset))
      requires |File(out, fileOffset)| == input.OatDexFileStart(0)
      modifies out, this`stats
      ensures ok && Sound(out, fileOffset) && |File(out, fileOffset)| == input.DexEnd(0)
      ensures HeaderAt(input, File(out, fileOffset)) && OatDexFilesAt(input, File(out, fileOffset), |input.dexFiles|)
      ensures stats.Total() == old(stats.Total()) + input.DexEnd(0) - input.OatDexFileStart(0)
    {
      hide HeaderAt, OatDexFilesAt, Input.OatDexFileStart, WordsLE, Sound, File, Stats.Total;
      NothingYet(input, File(out, fileOffset));
      ok := true;
      for i := 0 to |oatDexFiles|
        invariant ok && Sound(out, fileOffset) && |File(out, fileOffset)| == input.OatDexFileStart(i)
        invariant HeaderAt(input, File(out, fileOffset)) && OatDexFilesAt(input, File(out, fileOffset), i)
        invariant stats.Total() == old(stats.Total()) + input.OatDexFileStart(i) - input.OatDexFileStart(0)
      {
        FilePos(out, fileOffset);
        assert fileOffset + oatDexFiles[i].offset == out.pos;
        OatDexFileAppended(input, File(out, fileOffset), i);
        ok := WriteOatDexFile(out, fileOffset, oatDexFiles[i]);
      }
    }

    method WriteDexFiles(out: Streams.VectorOutputStream, fileOffset: nat) returns (ok: bool)
      requires Promised() && Sound(out, fileOffset) && |File(out, fileOffset)| == input.DexEnd(0)
      requires HeaderAt(input, File(out, fileOffset)) && OatDexFilesAt(input, File(out, fileOffset), |input.dexFiles|)
      requires fileOffset + input.DexEnd(|input.dexFiles|) < TWO32
      modifies out, this`stats
      ensures ok && Sound(out, fileOffset) && |File(out, fileOffset)| == input.DexEnd(|input.dexFiles|)
      ensures HeaderAt(input, File(out, fileOffset)) && OatDexFilesAt(input, File(out, fileOffset), |input.dexFiles|)
      ensures DexFilesAt(input, File(out, fileOffset), |input.dexFiles|)
      ensures stats.Total() + input.DexPadding(|input.dexFiles|) ==
        old(stats.Total()) + input.DexEnd(|input.dexFiles|) - input.DexEnd(0)
    {
      hide HeaderAt, OatDexFilesAt, DexFilesAt, Sound, File, Stats.Total;
      NothingYet(input, File(out, fileOffset));
      ok := true;
      ghost var n := |input.dexFiles|;
      for i := 0 to |oatDexFiles|
        invariant ok && Sound(out, fileOffset) && |File(out, fileOffset)| == input.DexEnd(i)
        invariant HeaderAt(input, File(out, fileOffset)) && OatDexFilesAt(input, File(out, fileOffset), n)
        invariant DexFilesAt(input, File(out, fileOffset), i)
        invariant stats.Total() + input.DexPadding(i) == old(stats.Total()) + input.DexEnd(i) - input.DexEnd(0)
      {
        input.DexEndGrows(i + 1);
        ok := WriteDexFile(out, fileOffset, i);
      }
    }

    method WriteDexFile(out: Streams.VectorOutputStream, fileOffset: nat, i: nat) returns (ok: bool)
      requires Promised() && Sound(out, fileOffset) && i < |input.dexFiles|
      requires |File(out, fileOffset)| == input.DexEnd(i)
      requires HeaderAt(input, File(out, fileOffset)) && OatDexFilesAt(input, File(out, fileOffset), |input.dexFiles|)
      requires DexFilesAt(input, File(out, fileOffset), i) && fileOffset + input.DexEnd(i + 1) < TWO32
      modifies out, this`stats
      ensures ok && Sound(out, fileOffset) && |File(out, fileOffset)| == input.DexEnd(i + 1)
      ensures HeaderAt(input, File(out, fileOffset)) && OatDexFilesAt(input, File(out, fileOffset), |input.dexFiles|)
      ensures DexFilesAt(input, File(out, fileOffset), i + 1)
      ensures stats.Total() == old(stats.Total()) + |input.dexFiles[i].bytes|
    {
      hide HeaderAt, OatDexFilesAt, DexFilesAt;
      ok := false;
      ghost var w := File(out, fileOffset);
      var dexFile := input.dexFiles[i];
      assert oatDexFiles[i].dexFileOffset == RoundUp(input.DexEnd(i), 4);
      var expectedOffset := U32(fileOffset + oatDexFiles[i].dexFileOffset);
      var actualOffset, pad := SkipTo(out, fileOffset, expectedOffset);
      if U32(actualOffset) != expectedOffset {
        return;
      }
      DexFileAppended(input, w, pad, i);
      ok := Emit(out, fileOffset, dexFile.bytes);
      stats := stats.(dexFile := stats.dexFile + |dexFile.bytes|);
    }

    /** Seeks to an absolute position at or after the current one. */
    method SkipTo(out: Streams.VectorOutputStream, fileOffset: nat, target: nat)
      returns (newOffset: nat, ghost pad: seq<Byte>)
      requires Sound(out, fileOffset) && out.pos <= target
      modifies out
      ensures Sound(out, fileOffset) && newOffset == target
      ensures File(out, fileOffset) == old(File(out, fileOffset)) + pad && |pad| == target - old(out.pos)
    {
      ghost var before := out.Written();
      newOffset := out.Seek(target, Streams.SeekSet);
      pad := out.Written()[|before|..];
      assert out.Written() == before + pad;
    }

    method WriteOatClasses(out: Streams.VectorOutputStream, fileOffset: nat) returns (ok: bool)
      requires Promised() && Sound(out, fileOffset) && |File(out, fileOffset)| == input.ClassStart(0)
      requires HeaderAt(input, File(out, fileOffset)) && OatDexFilesAt(input, File(out, fileOffset), |input.dexFiles|)
      requires DexFilesAt(input, File(out, fileOffset), |input.dexFiles|)
      modifies out, this`stats
      ensures ok && Sound(out, fileOffset) && |File(out, fileOffset)| == input.ClassStart(|input.Classes()|)
      ensures TablesAt(input, File(out, fileOffset))
      ensures stats.Total() == old(stats.Total()) + input.ClassStart(|input.Classes()|) - input.ClassStart(0)
    {
      hide HeaderAt, OatDexFilesAt, DexFilesAt, OatClassesAt, AllClasses, Input.ClassStart, EncodeMethods, Sound,
        File, Stats.Total;
      NothingYet(input, File(out, fileOffset));
      ok := true;
      ghost var n := |input.dexFiles|;
      for c := 0 to |oatClasses|
        invariant ok && Sound(out, fileOffset) && |File(out, fileOffset)| == input.ClassStart(c)
        invariant HeaderAt(input, File(out, fileOffset)) && OatDexFilesAt(input, File(out, fileOffset), n)
        invariant DexFilesAt(input, File(out, fileOffset), n) && OatClassesAt(input, File(out, fileOffset), c)
        invariant stats.Total() == old(stats.Total()) + input.ClassStart(c) - input.ClassStart(0)
      {
        FilePos(out, fileOffset);
        assert fileOffset + oatClasses[c].offset == out.pos;
        OatClassAppended(input, File(out, fileOffset), c);
        ok := WriteOatClass(out, fileOffset, oatClasses[c]);
      }
    }

    method WriteOatClass(out: Streams.VectorOutputStream, fileOffset: nat, o: OatClass) returns (ok: bool)
      requires Sound(out, fileOffset)
      modifies out, this`stats
      ensures ok && Sound(out, fileOffset)
      ensures File(out, fileOffset) == old(File(out, fileOffset)) + o.Encode()
      ensures stats.Total() == old(stats.Total()) + o.SizeOf()
    {
      hide Sound, File, WordLE, EncodeMethods;
      ghost var w := File(out, fileOffset);
      ok := Emit(out, fileOffset, WordLE(o.status));
      ok := Emit(out, fileOffset, EncodeMethods(o.methodOffsets));
      assert w + WordLE(o.status) + EncodeMethods(o.methodOffsets) == w + o.Encode();
      stats := stats.(classStatus := stats.classStatus + 4,
                      classMethodOffsets := stats.classMethodOffsets + 28 * |o.methodOffsets|);
    }

    method WriteTables(out: Streams.VectorOutputStream, fileOffset: nat) returns (ok: bool)
      requires Promised() && Sound(out, fileOffset) && HeaderAt(input, File(out, fileOffset))
      requires |File(out, fileOffset)| == input.OatDexFileStart(0)
      requires fileOffset + input.ClassStart(|input.Classes()|) < TWO32
      modifies out, this`stats
      ensures ok && Sound(out, fileOffset) && |File(out, fileOffset)| == input.ClassStart(|input.Classes()|)
      ensures TablesAt(input, File(out, fileOffset))
      ensures stats.Total() + input.DexPadding(|input.dexFiles|) ==
              old(stats.Total()) + input.ClassStart(|input.Classes()|) - input.OatDexFileStart(0)
    {
      hide HeaderAt, OatDexFilesAt, DexFilesAt, OatClassesAt, TablesAt, Promised;
      input.ClassesAfter(|input.Classes()|);
      ok := WriteOatDexFiles(out, fileOffset);
      ok := WriteDexFiles(out, fileOffset);
      ok := WriteOatClasses(out, fileOffset);
    }

    /** The regions in order, with the last offset reached. */
    method WriteRegions(out: Streams.VectorOutputStream, fileOffset: nat) returns (relativeOffset: nat)
      requires Promised() && FreshStats() && Sound(out, fileOffset) && |File(out, fileOffset)| == 0
      requires fileOffset + size < TWO32
      modifies out, this`stats
      ensures Promised() && Sound(out, fileOffset) && relativeOffset == size == |File(out, fileOffset)| > 0
      ensures FileComplete(input, File(out, fileOffset))
      ensures stats.Total() + sizeExecutableOffsetAlignment == size
    {
      hide HeaderAt, OatDexFilesAt, DexFilesAt, OatClassesAt, TablesAt, TrampolinesAt, Good, FileComplete,
        Streams.Leads;
      input.EndFits();
      assert fileOffset + input.End().offset < TWO32;
      var wrote := WriteHeader(out, fileOffset);
      wrote := WriteTables(out, fileOffset);
      relativeOffset := WriteCode(out, fileOffset);
      ghost var base := File(out, fileOffset);
      StartGood(input, base);
      relativeOffset := WriteCodeDexFiles(out, fileOffset, relativeOffset, base);
      Completed(input, base, File(out, fileOffset));
    }

    /**
     * Writes the whole file. Every region stands where the first pass said, the file ends at
     * `size`, what preceded it in the stream is untouched, and the counters add up to the size.
     * Offsets are 32-bit, so the file must end below 4 GiB.
     */
    method Write(out: Streams.VectorOutputStream) returns (ok: bool)
      requires Promised() && FreshStats() && out.Valid() && out.Logged() && out.pos + size < TWO32
      modifies out, this`stats, this`prefix, this`origin
      ensures ok && out.Valid() && Promised()
      ensures out.Logged() && out.origin == old(out.origin) && out.log != [] && out.log[|out.log| - 1].Seek?
      ensures old(out.Written()) <= out.Written() && out.pos == old(out.pos) + size
      ensures FileComplete(input, out.Written()[old(out.pos)..])
      ensures stats.Total() + sizeExecutableOffsetAlignment == size
    {
      hide FileComplete, Promised, FreshStats;
      ok := false;
      var fileOffset := out.Seek(0, Streams.SeekCurrent);
      prefix, origin := out.Written(), out.origin;
      var relativeOffset := WriteRegions(out, fileOffset);
      if relativeOffset == 0 {
        return;
      }
      var last := out.Seek(0, Streams.SeekCurrent);
      assert fileOffset + size == last;
      assert size == relativeOffset;
      ok := true;
    }

    method WriteHeader(out: Streams.VectorOutputStream, fileOffset: nat) returns (ok: bool)
      requires Promised() && Sound(out, fileOffset) && |File(out, fileOffset)| == 0
      modifies out, this`stats
      ensures ok && Sound(out, fileOffset) && HeaderAt(input, File(out, fileOffset))
      ensures |File(out, fileOffset)| == input.OatDexFileStart(0)
      ensures stats.Total() == old(stats.Total()) + input.OatDexFileStart(0)
    {
      ok := Emit(out, fileOffset, oatHeader.Encode());
      assert File(out, fileOffset) == input.Header().Encode();
      ok := Emit(out, fileOffset, input.imageFileLocation);
      HeaderWritten(input);
      stats := stats.(oatHeader := stats.oatHeader + HEADER_SIZE,
                      imageFileLocation := stats.imageFileLocation + |input.imageFileLocation|);
    }
  }

  /**
   * The same calls made on a buffered stream leave the same complete file in its sink: the last of
   * them is a seek, so nothing is pending that a destructor without a flush would drop.
   */
  method WriteBuffered(writer: OatWriter, direct: Streams.VectorOutputStream, buffered: Streams.BufferedOutputStream)
    requires writer.Promised() && writer.FreshStats() && direct.Valid() && direct.pos + writer.size < TWO32
    requires direct.Logged() && direct.log == []
    requires buffered.Valid() && buffered.View() == direct.State() && buffered.out != direct
    modifies writer, direct, buffered, buffered.out, buffered.buffer
    ensures buffered.Valid() && buffered.used == 0 && buffered.out.State() == direct.State()
    ensures old(direct.pos) <= direct.pos && FileComplete(writer.input, buffered.out.Written()[old(direct.pos)..])
  {
    hide FileComplete, OatWriter.Promised, OatWriter.FreshStats;
    var ok := writer.Write(direct);
    buffered.Run(direct.log);
  }

  /** Before the first method the maps are empty, so there is nothing to place. */
  lemma StartGood(inp: Input, w: seq<Byte>)
    requires |w| == inp.CodeStart() > 0
    ensures Good(inp.blobs, inp.Start(), w)
  {
  }

  lemma Completed(inp: Input, base: seq<Byte>, w: seq<Byte>)
    requires inp.Valid() && base <= w && TablesAt(inp, base) && (inp.isImage ==> TrampolinesAt(inp, base, 7))
    requires Good(inp.blobs, inp.End(), w)
    ensures FileComplete(inp, w) && |w| == inp.End().offset
  {
    hide TablesAt, TrampolinesAt, Good;
    TablesKept(inp, base, w);
    GoodSize(inp.blobs, inp.End(), w);
  }

  lemma Regroup(w: seq<Byte>, a: seq<Byte>, b: seq<Byte>, c: seq<Byte>, d: seq<Byte>, e: seq<Byte>)
    ensures w + a + b + c + d + e == w + (a + b + c + d + e)
  {
  }

  ghost predicate FileComplete(inp: Input, w: seq<Byte>)
  {
    && inp.Valid()
    && TablesAt(inp, w)
    && (inp.isImage ==> TrampolinesAt(inp, w, 7))
    && Good(inp.blobs, inp.End(), w)
  }

  /** Where the code first met in method `j` of class `d` is in the file. */
  ghost function CodeAt(inp: Input, d: nat, j: nat): nat
    requires d < |inp.Classes()| && j < |inp.Classes()[d].methods| && inp.Classes()[d].methods[j].Some?
  {
    CodePlace(inp.blobs, inp.Start(), inp.Classes(), d, j)
  }

  /**
   * In a complete file every compiled method's recorded offsets lead to its own bytes: the code
   * behind its 4-byte size, and each non-empty table, however the methods share them. The code
   * offset is the place of the code plus the delta of the first method, `j` of class `d`, that has it.
   */
  lemma EveryMethodPlaced(inp: Input, w: seq<Byte>, c: nat, k: nat, d: nat, j: nat)
    requires FileComplete(inp, w) && c < |inp.Classes()| && k < |inp.Classes()[c].methods|
    requires inp.Classes()[c].methods[k].Some? && FirstUse(inp.Classes(), d, j, inp.Classes()[c].methods[k].value.code)
    ensures MethodPlaced(inp.blobs, w, inp.Classes()[c].methods[k].value, inp.Done(c).methodOffsets[k],
      CodeDelta(Isa(inp.Classes(), d, j)))
    ensures |w| < TWO32 ==>
      inp.Done(c).methodOffsets[k].codeOffset == CodeAt(inp, d, j) + CodeDelta(Isa(inp.Classes(), d, j))
    ensures |w| < TWO32 && UniformDelta(inp.Classes()) ==>
      inp.Done(c).methodOffsets[k].codeOffset - CodeDelta(Isa(inp.Classes(), c, k)) == CodeAt(inp, d, j)
  {
    var cs, m := inp.Classes(), inp.Classes()[c].methods[k].value;
    inp.MethodFacts(c, k);
    RecordedIsPlaced(inp.blobs, inp.MethodState(c, k), inp.End(), m, w);
    DeltaAtEnd(inp, m.code, d, j);
    OffsetFromFirst(inp, c, k, d, j);
    CodeInside(inp, d, j);
    assert InWalk(cs, m) && InWalk(cs, cs[d].methods[j].value);
  }

  lemma DeltaAtEnd(inp: Input, p: Ptr, d: nat, j: nat)
    requires FirstUse(inp.Classes(), d, j, p) && p in inp.End().code
    ensures p in inp.End().delta && inp.End().delta[p] == CodeDelta(Isa(inp.Classes(), d, j))
  {
    hide FromFirst, FirstUse;
    DeltaOrigin(inp.blobs, inp.Start(), inp.Classes(), |inp.Classes()|, 0);
    FirstOnly(inp.blobs, inp.Start(), inp.Classes(), inp.End(), p, d, j);
  }

  lemma OffsetFromFirst(inp: Input, c: nat, k: nat, d: nat, j: nat)
    requires inp.Valid() && c < |inp.Classes()| && k < |inp.Classes()[c].methods|
    requires inp.Classes()[c].methods[k].Some? && FirstUse(inp.Classes(), d, j, inp.Classes()[c].methods[k].value.code)
    ensures inp.Done(c).methodOffsets[k].codeOffset == U32(CodeAt(inp, d, j) + CodeDelta(Isa(inp.Classes(), d, j)))
    ensures inp.Done(c).methodOffsets[k].codeOffset == CodeOffset(inp.blobs, inp.Start(), inp.Classes(), c, k)
  {
    hide CodePlace, Recorded, StateAt, Input.Done, FirstUse;
    inp.MethodFacts(c, k);
    RecordedFromFirst(inp.blobs, inp.Start(), inp.Classes(), c, k, d, j);
  }

  /** The code ends within the file. */
  lemma CodeInside(inp: Input, d: nat, j: nat)
    requires inp.Valid() && d < |inp.Classes()| && j < |inp.Classes()[d].methods| && inp.Classes()[d].methods[j].Some?
    requires FirstUse(inp.Classes(), d, j, inp.Classes()[d].methods[j].value.code)
    ensures CodeAt(inp, d, j) + |inp.blobs(inp.Classes()[d].methods[j].value.code)| <= inp.End().offset
    ensures |inp.blobs(inp.Classes()[d].methods[j].value.code)| > 0
  {
    var m := inp.Classes()[d].methods[j].value;
    inp.MethodFacts(d, j);
    StepFits(inp.blobs, inp.MethodState(d, j), m, inp.End());
    NotYetUsed(inp, d, j);
  }

  lemma NotYetUsed(inp: Input, d: nat, j: nat)
    requires d < |inp.Classes()| && j < |inp.Classes()[d].methods| && inp.Classes()[d].methods[j].Some?
    requires FirstUse(inp.Classes(), d, j, inp.Classes()[d].methods[j].value.code)
    ensures inp.Classes()[d].methods[j].value.code !in inp.MethodState(d, j).code
  {
    hide FromFirst;
    DeltaOrigin(inp.blobs, inp.Start(), inp.Classes(), d, j);
  }

  /**
   * In a file below 4 GiB every method finds its code at its recorded offset less its own delta if
   * and only if methods that share a code vector share the delta.
   */
  lemma OwnDeltaInFile(inp: Input, w: seq<Byte>)
    requires FileComplete(inp, w) && |w| < TWO32
    ensures AllFindCode(inp) <==> UniformDelta(inp.Classes())
  {
    hide FindsCode, OwnDeltaLeads, FileComplete, UniformDelta;
    var cs := inp.Classes();
    OwnDelta(inp.blobs, inp.Start(), cs);
    forall c, k | 0 <= c < |cs| && 0 <= k < |cs[c].methods| && cs[c].methods[k].Some?
      ensures FindsCode(inp, c, k) <==> OwnDeltaLeads(inp.blobs, inp.Start(), cs, c, k)
    {
      FindsByOwnDelta(inp, w, c, k);
    }
  }

  ghost predicate AllFindCode(inp: Input) {
    forall c, k ::
      0 <= c < |inp.Classes()| && 0 <= k < |inp.Classes()[c].methods| && inp.Classes()[c].methods[k].Some? ==>
      FindsCode(inp, c, k)
  }

  ghost predicate FindsCode(inp: Input, c: nat, k: nat)
    requires c < |inp.Classes()| && k < |inp.Classes()[c].methods| && inp.Classes()[c].methods[k].Some?
  {
    forall d, j :: FirstUse(inp.Classes(), d, j, inp.Classes()[c].methods[k].value.code) ==>
      inp.Done(c).methodOffsets[k].codeOffset == CodeAt(inp, d, j) + CodeDelta(Isa(inp.Classes(), c, k))
  }

  lemma FindsByOwnDelta(inp: Input, w: seq<Byte>, c: nat, k: nat)
    requires FileComplete(inp, w) && |w| < TWO32
    requires c < |inp.Classes()| && k < |inp.Classes()[c].methods| && inp.Classes()[c].methods[k].Some?
    ensures FindsCode(inp, c, k) <==> OwnDeltaLeads(inp.blobs, inp.Start(), inp.Classes(), c, k)
  {
    hide FileComplete, CodePlace, OwnDeltaLeads;
    var cs, p := inp.Classes(), inp.Classes()[c].methods[k].value.code;
    var d, j := FirstUser(cs, c, k, p);
    EveryMethodPlaced(inp, w, c, k, d, j);
    OwnDeltaAt(inp.blobs, inp.Start(), cs, c, k, d, j);
    forall d', j' | FirstUse(cs, d', j', p) ensures d' == d && j' == j {
      assert !Earlier(d', j', d, j) && !Earlier(d, j, d', j');
    }
  }
}
