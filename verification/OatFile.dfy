/**
 * The loader of oat files. Its functions read words and follow offsets in a file, and know nothing
 * of how the writer laid it out; what they find in a file that the writer wrote is what the writer
 * was given.
 */
module OatFile {
  import opened Bytes
  import opened OatLayout
  import opened Options
  import OatWriter
  import Streams

  const OAT_HEADER_SIZE: nat := 64
  const DEX_HEADER_SIZE: nat := 112

  /** "oat\n" and "007\0". */
  const OAT_MAGIC: seq<Byte> := [0x6F, 0x61, 0x74, 0x0A]
  const OAT_VERSION: seq<Byte> := [0x30, 0x30, 0x37, 0]

  /** "dex\n" and "035\0". */
  const DEX_MAGIC: seq<Byte> := [0x64, 0x65, 0x78, 0x0A]
  const DEX_VERSION: seq<Byte> := [0x30, 0x33, 0x35, 0]

  function Word(w: seq<Byte>, at: nat): nat
    requires at + 4 <= |w|
  {
    ReadWordLE(w[at..at + 4])
  }

  // ---- the header ----

  predicate HeaderValid(w: seq<Byte>) {
    |w| >= OAT_HEADER_SIZE && w[..4] == OAT_MAGIC && w[4..8] == OAT_VERSION
  }

  function DexFileCount(w: seq<Byte>): nat
    requires |w| >= OAT_HEADER_SIZE
  {
    Word(w, 16)
  }

  function ExecutableOffset(w: seq<Byte>): nat
    requires |w| >= OAT_HEADER_SIZE
  {
    Word(w, 20)
  }

  /** The seven trampolines, from the interpreter-to-interpreter bridge to the quick-to-interpreter bridge. */
  function TrampolineOffset(w: seq<Byte>, k: nat): nat
    requires |w| >= OAT_HEADER_SIZE && k < 7
  {
    Word(w, 24 + 4 * k)
  }

  function ImageFileLocationSize(w: seq<Byte>): nat
    requires |w| >= OAT_HEADER_SIZE
  {
    Word(w, 60)
  }

  // ---- dex files ----

  /**
   * An entry for a dex file: `dexFile` and `methodsOffsets` are offsets in the file, and the next
   * entry is at `end`.
   */
  datatype OatDexFile = OatDexFile(location: seq<Byte>, checksum: nat, dexFile: nat, methodsOffsets: nat, end: nat)

  predicate IsDexFile(w: seq<Byte>, at: nat) {
    at + DEX_HEADER_SIZE <= |w| && w[at..at + 4] == DEX_MAGIC && w[at + 4..at + 8] == DEX_VERSION
  }

  /** `class_defs_size_` in the header of the dex file at `at`. */
  function ClassDefsSize(w: seq<Byte>, at: nat): nat
    requires at + DEX_HEADER_SIZE <= |w|
  {
    Word(w, at + 96)
  }

  /** What stands at `oat` is the entry `e`, with a name and with a dex file. */
  predicate EntryAt(w: seq<Byte>, oat: nat, e: OatDexFile) {
    var size := |e.location|;
    && oat + 12 + size <= |w| && 0 < size == Word(w, oat)
    && e.location == w[oat + 4..oat + 4 + size]
    && e.checksum == Word(w, oat + 4 + size)
    && 0 < e.dexFile == Word(w, oat + 8 + size) && IsDexFile(w, e.dexFile)
    && e.methodsOffsets == oat + 12 + size
    && e.end == e.methodsOffsets + 4 * ClassDefsSize(w, e.dexFile) <= |w|
  }

  function FirstEntry(w: seq<Byte>): nat
    requires |w| >= OAT_HEADER_SIZE
  {
    OAT_HEADER_SIZE + ImageFileLocationSize(w)
  }

  /** Where entry `i` starts. */
  function EntryStart(w: seq<Byte>, files: seq<OatDexFile>, i: nat): nat
    requires |w| >= OAT_HEADER_SIZE && i <= |files|
  {
    if i == 0 then FirstEntry(w) else files[i - 1].end
  }

  /** The entries follow one another after the header and the image location. */
  ghost predicate Listed(w: seq<Byte>, files: seq<OatDexFile>) {
    HeaderValid(w) && forall i :: 0 <= i < |files| ==> EntryAt(w, EntryStart(w, files, i), files[i])
  }

  /** `files` is all that the file lists. */
  ghost predicate Opened(w: seq<Byte>, files: seq<OatDexFile>) {
    Listed(w, files) && |files| == DexFileCount(w)
  }

  lemma OneEntry(w: seq<Byte>, oat: nat, e: OatDexFile, f: OatDexFile)
    requires EntryAt(w, oat, e) && EntryAt(w, oat, f)
    ensures e == f
  {
    hide ReadWordLE;
  }

  lemma {:induction false} ListedOnce(w: seq<Byte>, a: seq<OatDexFile>, b: seq<OatDexFile>, n: nat)
    requires Listed(w, a) && Listed(w, b) && n <= |a| && n <= |b|
    ensures forall i :: 0 <= i < n ==> a[i] == b[i]
  {
    hide EntryAt;
    if n > 0 {
      ListedOnce(w, a, b, n - 1);
      OneEntry(w, EntryStart(w, a, n - 1), a[n - 1], b[n - 1]);
    }
  }

  lemma ListedMore(w: seq<Byte>, files: seq<OatDexFile>, e: OatDexFile)
    requires Listed(w, files) && EntryAt(w, EntryStart(w, files, |files|), e)
    ensures Listed(w, files + [e])
  {
    hide EntryAt;
    var fs := files + [e];
    forall i | 0 <= i < |fs| ensures EntryAt(w, EntryStart(w, fs, i), fs[i]) {
      assert EntryStart(w, fs, i) == EntryStart(w, files, i);
    }
  }

  lemma NextListed(w: seq<Byte>, files: seq<OatDexFile>, fs: seq<OatDexFile>)
    requires Listed(w, files) && |files| < DexFileCount(w) && Opened(w, fs)
    ensures EntryAt(w, EntryStart(w, files, |files|), fs[|files|])
  {
    hide EntryAt;
    ListedOnce(w, files, fs, |files|);
    assert EntryAt(w, EntryStart(w, fs, |files|), fs[|files|]);
  }

  /** Opens a file: succeeds if and only if the file lists as many dex files as its header says. */
  method Setup(w: seq<Byte>) returns (ok: bool, files: seq<OatDexFile>)
    ensures ok ==> Opened(w, files)
    ensures !ok ==> forall fs :: !Opened(w, fs)
  {
    hide EntryAt;
    ok, files := false, [];
    if !HeaderValid(w) {
      return;
    }
    var oat := FirstEntry(w);
    var i := 0;
    while i < DexFileCount(w)
      invariant i == |files| <= DexFileCount(w) && Listed(w, files)
      invariant oat == EntryStart(w, files, i)
    {
      var found, e := ReadEntry(w, oat);
      if !found {
        forall fs ensures !Opened(w, fs) {
          if Opened(w, fs) {
            NextListed(w, files, fs);
          }
        }
        return;
      }
      ListedMore(w, files, e);
      files := files + [e];
      oat := e.end;
      i := i + 1;
    }
    ok := true;
  }

  /** One entry, unless it is cut off, has no name or leads to no dex file. */
  method ReadEntry(w: seq<Byte>, start: nat) returns (ok: bool, e: OatDexFile)
    ensures ok ==> EntryAt(w, start, e)
    ensures !ok ==> forall f :: !EntryAt(w, start, f)
  {
    ok, e := false, OatDexFile([], 0, 0, 0, 0);
    var oat := start;
    if oat + 4 > |w| {
      return;
    }
    var size := Word(w, oat);
    if size == 0 {
      return;
    }
    oat := oat + 4;
    if oat + size + 8 > |w| {
      return;
    }
    var location := w[oat..oat + size];
    oat := oat + size;
    var checksum := Word(w, oat);
    oat := oat + 4;
    var dexFile := Word(w, oat);
    if dexFile == 0 {
      return;
    }
    if dexFile > |w| {
      return;
    }
    oat := oat + 4;
    if !IsDexFile(w, dexFile) {
      return;
    }
    var end := oat + 4 * ClassDefsSize(w, dexFile);
    if end > |w| {
      return;
    }
    return true, OatDexFile(location, checksum, dexFile, oat, end);
  }

  // ---- classes and methods ----

  /** Where class `j` of a dex file is. */
  function OatClassOffset(w: seq<Byte>, e: OatDexFile, j: nat): nat
    requires e.methodsOffsets + 4 * j + 4 <= |w|
  {
    Word(w, e.methodsOffsets + 4 * j)
  }

  function GetStatus(w: seq<Byte>, oatClass: nat): nat
    requires oatClass + 4 <= |w|
  {
    Word(w, oatClass)
  }

  /** Method `k` of the class at `oatClass`: seven words. */
  function GetOatMethod(w: seq<Byte>, oatClass: nat, k: nat): OatMethodOffsets
    requires oatClass + 4 + 28 * (k + 1) <= |w|
  {
    var at := oatClass + 4 + 28 * k;
    OatMethodOffsets(Word(w, at), Word(w, at + 4), Word(w, at + 8), Word(w, at + 12), Word(w, at + 16),
                     Word(w, at + 20), Word(w, at + 24))
  }

  /** Where the code is: the lowest bit of its offset only says that it is Thumb code. */
  function CodeStart(codeOffset: nat): nat { codeOffset - codeOffset % 2 }

  /** `GetCodeSize`: the word before the code. */
  function CodeSize(w: seq<Byte>, codeOffset: nat): nat
    requires 4 <= CodeStart(codeOffset) <= |w|
  {
    if codeOffset == 0 then 0 else Word(w, CodeStart(codeOffset) - 4)
  }

  // ---- reading back what was written ----

  /** A word of data that stands in the file reads as itself. */
  lemma ReadsAs(w: seq<Byte>, off: nat, data: seq<Byte>, i: nat, v: nat)
    requires At(w, off, data) && i + 4 <= |data| && data[i..i + 4] == WordLE(v) && v < TWO32
    ensures off + i + 4 <= |w| && Word(w, off + i) == v
  {
    hide ReadWordLE, WordLE;
    AtSlice(w, off, data, i, 4);
    WordRoundTrip(v);
  }

  lemma ReadsWord(w: seq<Byte>, off: nat, data: seq<Byte>, base: nat, xs: seq<nat>, i: nat)
    requires At(w, off, data) && base + 4 * |xs| <= |data| && data[base..base + 4 * |xs|] == WordsLE(xs)
    requires i < |xs| && xs[i] < TWO32
    ensures off + base + 4 * i + 4 <= |w| && Word(w, off + base + 4 * i) == xs[i]
  {
    hide WordLE, WordsLE, Word, At;
    WordsAt(xs, i);
    var words := data[base..base + 4 * |xs|];
    SliceOfSlice(data, base, base + 4 * |xs|, 4 * i, 4 * i + 4);
    ReadsAs(w, off, data, base + 4 * i, xs[i]);
  }

  /**
   * What the writer is given fits the format: numbers are 32 bits, dex files are dex files, and
   * locations have names.
   */
  ghost predicate Loadable(inp: OatWriter.Input) {
    && inp.checksum < TWO32 && inp.imageChecksum < TWO32 && inp.imageBegin < TWO32
    && (forall i :: 0 <= i < |inp.dexFiles| ==> LoadableDexFile(inp.dexFiles[i]))
  }

  ghost predicate LoadableDexFile(d: OatWriter.DexFile) {
    && d.location != [] && d.locationChecksum < TWO32 && IsDexFile(d.bytes, 0)
    && ClassDefsSize(d.bytes, 0) == |d.classDefs|
    && forall j :: 0 <= j < |d.classDefs| ==> LoadableClass(d.classDefs[j])
  }

  ghost predicate LoadableClass(c: ClassDef) {
    && c.status < TWO32
    && forall k :: 0 <= k < |c.methods| && c.methods[k].Some? ==>
         var m := c.methods[k].value; m.frameSize < TWO32 && m.coreSpillMask < TWO32 && m.fpSpillMask < TWO32
  }

  ghost predicate Written(inp: OatWriter.Input, w: seq<Byte>) {
    OatWriter.FileComplete(inp, w) && |w| < TWO32 && Loadable(inp)
  }

  /** Every region is inside the file. */
  lemma Inside(inp: OatWriter.Input, w: seq<Byte>)
    requires OatWriter.FileComplete(inp, w)
    ensures inp.OatDexFileStart(|inp.dexFiles|) <= inp.ClassStart(|inp.Classes()|) <= inp.ExecutableOffset()
    ensures inp.ExecutableOffset() <= inp.CodeStart() <= |w|
    ensures 64 + |inp.imageFileLocation| + 12 * |inp.dexFiles| <= |w|
  {
    hide OatWriter.TablesAt, OatWriter.TrampolinesAt;
    GoodSize(inp.blobs, inp.End(), w);
    hide Good;
    inp.EndFits();
    inp.DexAfter(|inp.dexFiles|);
    EntriesGrow(inp, |inp.dexFiles|);
  }

  lemma {:induction false} EntriesGrow(inp: OatWriter.Input, i: nat)
    requires i <= |inp.dexFiles|
    ensures 64 + |inp.imageFileLocation| + 12 * i <= inp.OatDexFileStart(i)
  {
    if i > 0 { EntriesGrow(inp, i - 1); }
  }

  lemma {:induction false} TrampolineInside(inp: OatWriter.Input, k: nat, n: nat)
    requires k < n <= |inp.trampolines|
    ensures inp.TrampolineStart(k) <= inp.TrampolineEnd(n)
  {
    if k < n - 1 { TrampolineInside(inp, k, n - 1); }
  }

  lemma {:induction false} TrampolineOffsetsAt(inp: OatWriter.Input, n: nat, k: nat)
    requires k < n <= |inp.trampolines|
    ensures inp.TrampolineOffsets(n)[k] == inp.TrampolineStart(k)
  {
    if k < n - 1 { TrampolineOffsetsAt(inp, n - 1, k); }
  }

  ghost function HeaderWords(h: OatWriter.OatHeader): seq<nat> {
    [h.magic, h.version, h.checksum, h.instructionSet, h.dexFileCount, h.executableOffset]
    + h.trampolineOffsets + [h.imageChecksum, h.imageBegin, h.imageLocationSize]
  }

  lemma HeaderWord(inp: OatWriter.Input, w: seq<Byte>, i: nat)
    requires Written(inp, w) && i < 16
    ensures |HeaderWords(inp.Header())| == 16 && 64 <= |w|
    ensures HeaderWords(inp.Header())[i] < TWO32 ==> Word(w, 4 * i) == HeaderWords(inp.Header())[i]
  {
    hide Good, OatWriter.TrampolinesAt, OatWriter.OatDexFilesAt, OatWriter.DexFilesAt, OatWriter.OatClassesAt,
      WordsLE, Word;
    var words := HeaderWords(inp.Header());
    if words[i] < TWO32 {
      ReadsWord(w, 0, inp.Header().Encode(), 0, words, i);
    }
  }

  lemma HeaderRead(inp: OatWriter.Input, w: seq<Byte>)
    requires Written(inp, w)
    ensures HeaderValid(w) && DexFileCount(w) == |inp.dexFiles| && ImageFileLocationSize(w) == |inp.imageFileLocation|
    ensures FirstEntry(w) == inp.OatDexFileStart(0)
    ensures ExecutableOffset(w) == inp.ExecutableOffset() && ExecutableOffset(w) % 4096 == 0
    ensures inp.ClassStart(|inp.Classes()|) <= ExecutableOffset(w) < inp.ClassStart(|inp.Classes()|) + 4096
  {
    Inside(inp, w);
    assert inp.ExecutableOffset() % 4096 == 0;
    assert inp.ClassStart(|inp.Classes()|) <= inp.ExecutableOffset() < inp.ClassStart(|inp.Classes()|) + 4096;
    hide OatWriter.FileComplete, Word, OatWriter.Input.ExecutableOffset, OatWriter.Input.TrampolineOffsets;
    HeaderWord(inp, w, 4);
    HeaderWord(inp, w, 5);
    HeaderWord(inp, w, 15);
    MagicRead(inp, w);
  }

  /** What else the header says. */
  lemma HeaderRest(inp: OatWriter.Input, w: seq<Byte>)
    requires Written(inp, w)
    ensures 64 + |inp.imageFileLocation| <= |w| && w[64..64 + |inp.imageFileLocation|] == inp.imageFileLocation
    ensures Word(w, 8) == inp.checksum && Word(w, 52) == inp.imageChecksum && Word(w, 56) == inp.imageBegin
    ensures (Word(w, 12) == 1 <==> inp.isa.Arm?) && (Word(w, 12) == 2 <==> inp.isa.Thumb2?)
    ensures (Word(w, 12) == 3 <==> inp.isa.X86?) && (Word(w, 12) == 4 <==> inp.isa.Mips?)
  {
    Inside(inp, w);
    assert At(w, 64, inp.imageFileLocation);
    hide OatWriter.FileComplete, Word, At, OatWriter.Input.ExecutableOffset, OatWriter.Input.TrampolineOffsets;
    AtSlice(w, 64, inp.imageFileLocation, 0, |inp.imageFileLocation|);
    HeaderWord(inp, w, 2);
    HeaderWord(inp, w, 3);
    HeaderWord(inp, w, 13);
    HeaderWord(inp, w, 14);
  }

  lemma MagicRead(inp: OatWriter.Input, w: seq<Byte>)
    requires Written(inp, w)
    ensures HeaderValid(w)
  {
    hide Good, OatWriter.TrampolinesAt, OatWriter.OatDexFilesAt, OatWriter.DexFilesAt, OatWriter.OatClassesAt,
      WordsLE, At;
    var words, data := HeaderWords(inp.Header()), inp.Header().Encode();
    WordsAt(words, 0);
    WordsAt(words, 1);
    AtSlice(w, 0, data, 0, 4);
    AtSlice(w, 0, data, 4, 4);
    HeaderWord(inp, w, 0);
    assert w[..4] == w[0..4] == WordLE(OatWriter.OAT_MAGIC) && w[4..8] == WordLE(OatWriter.OAT_VERSION);
  }

  lemma TrampolineRead(inp: OatWriter.Input, w: seq<Byte>, k: nat)
    requires Written(inp, w) && k < 7
    ensures |w| >= OAT_HEADER_SIZE
    ensures if inp.isImage then At(w, TrampolineOffset(w, k), inp.trampolines[k]) else TrampolineOffset(w, k) == 0
  {
    hide Good, OatWriter.TablesAt, At, Word, OatWriter.Input.TrampolineOffsets, OatWriter.Input.TrampolineStart,
      OatWriter.Input.TrampolineEnd, OatWriter.Input.ExecutableOffset;
    Inside(inp, w);
    HeaderWord(inp, w, 6 + k);
    if inp.isImage {
      TrampolineOffsetsAt(inp, 7, k);
      TrampolineInside(inp, k, 7);
    }
  }

  // ---- the entries of the dex files ----

  /** The entry that the loader finds for dex file `i`. */
  ghost function Expected(inp: OatWriter.Input, i: nat): OatDexFile
    requires i < |inp.dexFiles|
  {
    var d := inp.dexFiles[i];
    OatDexFile(d.location, d.locationChecksum, inp.Linked(i).dexFileOffset,
               inp.OatDexFileStart(i) + 12 + |d.location|, inp.OatDexFileStart(i + 1))
  }

  lemma {:induction false} EntryInside(inp: OatWriter.Input, i: nat)
    requires i <= |inp.dexFiles|
    ensures inp.OatDexFileStart(i) <= inp.OatDexFileStart(|inp.dexFiles|)
    decreases |inp.dexFiles| - i
  {
    if i < |inp.dexFiles| { EntryInside(inp, i + 1); }
  }

  /** The dex file that an entry leads to is the one that was given. */
  lemma DexFileRead(inp: OatWriter.Input, w: seq<Byte>, i: nat)
    requires Written(inp, w) && i < |inp.dexFiles|
    ensures var at := inp.Linked(i).dexFileOffset;
      && 0 < at < TWO32 && At(w, at, inp.dexFiles[i].bytes) && IsDexFile(w, at)
      && ClassDefsSize(w, at) == |inp.dexFiles[i].classDefs|
  {
    hide OatWriter.FileComplete, ReadWordLE, OatWriter.Input.Linked, At;
    var at, bytes := inp.Linked(i).dexFileOffset, inp.dexFiles[i].bytes;
    assert LoadableDexFile(inp.dexFiles[i]);
    DexFilePlace(inp, w, i);
    AtSlice(w, at, bytes, 0, 4);
    AtSlice(w, at, bytes, 4, 4);
    AtSlice(w, at, bytes, 96, 4);
  }

  lemma DexFilePlace(inp: OatWriter.Input, w: seq<Byte>, i: nat)
    requires Written(inp, w) && i < |inp.dexFiles|
    ensures var at := inp.Linked(i).dexFileOffset;
      0 < at < TWO32 && At(w, at, inp.dexFiles[i].bytes) && at + |inp.dexFiles[i].bytes| <= |w|
  {
    hide Good, OatWriter.HeaderAt, OatWriter.OatDexFilesAt, OatWriter.OatClassesAt, OatWriter.TrampolinesAt;
    assert At(w, inp.Linked(i).dexFileOffset, inp.dexFiles[i].bytes);
    inp.DexAfter(i);
    EntriesGrow(inp, |inp.dexFiles|);
  }

  lemma EntryRead(inp: OatWriter.Input, w: seq<Byte>, i: nat)
    requires Written(inp, w) && i < |inp.dexFiles|
    ensures EntryAt(w, inp.OatDexFileStart(i), Expected(inp, i))
  {
    hide OatWriter.FileComplete, Word, At, IsDexFile, ClassDefsSize, OatWriter.Input.Linked, OatWriter.Input.ClassStart;
    hide OatWriter.Input.ExecutableOffset, OatWriter.Input.CodeStart;
    DexFileRead(inp, w, i);
    Inside(inp, w);
    EntryInside(inp, i + 1);
    EntryWords(inp, w, i);
    assert LoadableDexFile(inp.dexFiles[i]);
  }

  lemma EntryEncoded(o: OatWriter.OatDexFile)
    ensures var data, n := o.Encode(), |o.location|;
      && |data| >= 12 + n && data[0..4] == WordLE(n) && data[4..4 + n] == o.location
      && data[4 + n..8 + n] == WordLE(o.locationChecksum) && data[8 + n..12 + n] == WordLE(o.dexFileOffset)
  {
    hide WordLE, WordsLE;
  }

  lemma EntryWords(inp: OatWriter.Input, w: seq<Byte>, i: nat)
    requires Written(inp, w) && i < |inp.dexFiles| && inp.Linked(i).dexFileOffset < TWO32
    requires inp.OatDexFileStart(i + 1) <= |w|
    ensures var at, n := inp.OatDexFileStart(i), |inp.dexFiles[i].location|;
      && at + 12 + n <= |w| && Word(w, at) == n && w[at + 4..at + 4 + n] == inp.dexFiles[i].location
      && Word(w, at + 4 + n) == inp.dexFiles[i].locationChecksum && Word(w, at + 8 + n) == inp.Linked(i).dexFileOffset
  {
    hide Good, OatWriter.HeaderAt, OatWriter.DexFilesAt, OatWriter.OatClassesAt, OatWriter.TrampolinesAt, WordsLE,
      WordLE, Word;
    assert LoadableDexFile(inp.dexFiles[i]);
    var o, data := inp.Linked(i), inp.Linked(i).Encode();
    var n := |o.location|;
    assert At(w, o.offset, data);
    hide At, OatWriter.OatDexFile.Encode;
    EntryEncoded(o);
    ReadsAs(w, o.offset, data, 0, n);
    AtSlice(w, o.offset, data, 4, n);
    ReadsAs(w, o.offset, data, 4 + n, o.locationChecksum);
    ReadsAs(w, o.offset, data, 8 + n, o.dexFileOffset);
  }

  // ---- classes and methods of a written file ----

  lemma {:induction false} PointersAt(inp: OatWriter.Input, first: nat, n: nat, j: nat)
    requires first + n <= |inp.Classes()| && j < n
    ensures inp.Pointers(first, n)[j] == inp.ClassStart(first + j)
  {
    if j < n - 1 { PointersAt(inp, first, n - 1, j); }
  }

  lemma {:induction false} ClassInside(inp: OatWriter.Input, c: nat)
    requires c <= |inp.Classes()|
    ensures inp.ClassStart(c) <= inp.ClassStart(|inp.Classes()|)
    decreases |inp.Classes()| - c
  {
    if c < |inp.Classes()| { ClassInside(inp, c + 1); }
  }

  /** Word `j` of an entry leads to class `j` of its dex file. */
  lemma ClassPointer(inp: OatWriter.Input, w: seq<Byte>, i: nat, j: nat)
    requires Written(inp, w) && i < |inp.dexFiles| && j < |inp.dexFiles[i].classDefs|
    ensures inp.FirstClass(i) + j < |inp.Classes()|
    ensures inp.Classes()[inp.FirstClass(i) + j] == inp.dexFiles[i].classDefs[j]
    ensures var at := Expected(inp, i).methodsOffsets + 4 * j;
      at + 4 <= |w| && Word(w, at) == inp.ClassStart(inp.FirstClass(i) + j)
  {
    hide OatWriter.FileComplete, Word, OatWriter.Input.ClassStart, OatWriter.Input.Pointers;
    inp.ClassesOf(i);
    var first := inp.FirstClass(i);
    assert inp.Classes()[first..inp.FirstClass(i + 1)][j] == inp.Classes()[first + j];
    Inside(inp, w);
    ClassInside(inp, first + j);
    PointersAt(inp, first, |inp.dexFiles[i].classDefs|, j);
    PointerWord(inp, w, i, j);
  }

  lemma PointerWord(inp: OatWriter.Input, w: seq<Byte>, i: nat, j: nat)
    requires Written(inp, w) && i < |inp.dexFiles| && j < |inp.Linked(i).methodsOffsets|
    requires inp.Linked(i).methodsOffsets[j] < TWO32
    ensures var at := Expected(inp, i).methodsOffsets + 4 * j;
      at + 4 <= |w| && Word(w, at) == inp.Linked(i).methodsOffsets[j]
  {
    hide Good, OatWriter.HeaderAt, OatWriter.DexFilesAt, OatWriter.OatClassesAt, OatWriter.TrampolinesAt, WordsLE,
      WordLE, Word;
    hide OatWriter.Input.Pointers;
    var o, data := inp.Linked(i), inp.Linked(i).Encode();
    assert At(w, o.offset, data);
    hide At;
    var base := 12 + |o.location|;
    assert data[base..base + 4 * |o.methodsOffsets|] == WordsLE(o.methodsOffsets);
    ReadsWord(w, o.offset, data, base, o.methodsOffsets, j);
  }

  function MethodWords(m: OatMethodOffsets): seq<nat> {
    [m.codeOffset, m.frameSize, m.coreSpillMask, m.fpSpillMask, m.mappingTableOffset, m.vmapTableOffset, m.gcMapOffset]
  }

  lemma {:induction false} MethodBytes(ms: seq<OatMethodOffsets>, k: nat)
    requires k < |ms|
    ensures OatWriter.EncodeMethods(ms)[28 * k..28 * k + 28] == WordsLE(MethodWords(ms[k]))
  {
    hide WordsLE;
    var n := |ms| - 1;
    var front := OatWriter.EncodeMethods(ms[..n]);
    if k < n {
      MethodBytes(ms[..n], k);
      assert OatWriter.EncodeMethods(ms)[28 * k..28 * k + 28] == front[28 * k..28 * k + 28];
    } else {
      assert OatWriter.EncodeMethods(ms)[28 * k..28 * k + 28] == WordsLE(MethodWords(ms[n]));
    }
  }

  lemma ClassRecord(inp: OatWriter.Input, w: seq<Byte>, c: nat)
    requires Written(inp, w) && c < |inp.Classes()|
    ensures At(w, inp.ClassStart(c), inp.Done(c).Encode())
    ensures inp.ClassStart(c) + 4 + 28 * |inp.Classes()[c].methods| <= |w|
  {
    hide Good, OatWriter.HeaderAt, OatWriter.DexFilesAt, OatWriter.OatDexFilesAt, OatWriter.TrampolinesAt, At;
    assert At(w, inp.Done(c).offset, inp.Done(c).Encode());
    AtFits(w, inp.ClassStart(c), inp.Done(c).Encode());
  }

  lemma AtFits(w: seq<Byte>, off: nat, data: seq<Byte>)
    requires At(w, off, data)
    ensures off + |data| <= |w|
  {
  }

  lemma StatusRead(inp: OatWriter.Input, w: seq<Byte>, c: nat)
    requires Written(inp, w) && c < |inp.Classes()| && inp.Classes()[c].status < TWO32
    ensures inp.ClassStart(c) + 4 <= |w| && GetStatus(w, inp.ClassStart(c)) == inp.Classes()[c].status
  {
    hide OatWriter.FileComplete, At, WordLE, OatWriter.EncodeMethods, Word;
    ClassRecord(inp, w, c);
    var data := inp.Done(c).Encode();
    assert data[0..4] == WordLE(inp.Classes()[c].status);
    ReadsAs(w, inp.ClassStart(c), data, 0, inp.Classes()[c].status);
  }

  ghost predicate Words32(o: OatMethodOffsets) {
    && o.codeOffset < TWO32 && o.frameSize < TWO32 && o.coreSpillMask < TWO32 && o.fpSpillMask < TWO32
    && o.mappingTableOffset < TWO32 && o.vmapTableOffset < TWO32 && o.gcMapOffset < TWO32
  }

  lemma ReadsMethod(w: seq<Byte>, off: nat, data: seq<Byte>, base: nat, m: OatMethodOffsets)
    requires At(w, off, data) && base + 28 <= |data| && data[base..base + 28] == WordsLE(MethodWords(m)) && Words32(m)
    ensures off + base + 28 <= |w|
    ensures Word(w, off + base) == m.codeOffset && Word(w, off + base + 4) == m.frameSize
    ensures Word(w, off + base + 8) == m.coreSpillMask && Word(w, off + base + 12) == m.fpSpillMask
    ensures Word(w, off + base + 16) == m.mappingTableOffset && Word(w, off + base + 20) == m.vmapTableOffset
    ensures Word(w, off + base + 24) == m.gcMapOffset
  {
    hide At, WordsLE, Word;
    var ws := MethodWords(m);
    ReadsWord(w, off, data, base, ws, 0);
    ReadsWord(w, off, data, base, ws, 1);
    ReadsWord(w, off, data, base, ws, 2);
    ReadsWord(w, off, data, base, ws, 3);
    ReadsWord(w, off, data, base, ws, 4);
    ReadsWord(w, off, data, base, ws, 5);
    ReadsWord(w, off, data, base, ws, 6);
  }

  /** The seven words of a method are those recorded for it, in the order of the format. */
  lemma MethodRead(inp: OatWriter.Input, w: seq<Byte>, c: nat, k: nat)
    requires Written(inp, w) && c < |inp.Classes()| && k < |inp.Classes()[c].methods|
    requires Words32(inp.Done(c).methodOffsets[k])
    ensures inp.ClassStart(c) + 4 + 28 * (k + 1) <= |w|
    ensures GetOatMethod(w, inp.ClassStart(c), k) == inp.Done(c).methodOffsets[k]
  {
    hide OatWriter.FileComplete, At, WordLE, WordsLE, OatWriter.EncodeMethods, Word, OatWriter.Input.ClassStart,
      Words32;
    ClassRecord(inp, w, c);
    var o := inp.Done(c);
    var data, base := o.Encode(), 4 + 28 * k;
    MethodBytes(o.methodOffsets, k);
    assert data[4..] == OatWriter.EncodeMethods(o.methodOffsets);
    SliceOfSlice(data, 4, |data|, 28 * k, 28 * k + 28);
    assert data[4..|data|] == data[4..];
    ReadsMethod(w, inp.ClassStart(c), data, base, o.methodOffsets[k]);
  }

  // ---- what the loader finds ----

  /** A method as it was compiled: its frame, its code behind the code's size, and its tables; or no code. */
  ghost predicate MethodFound(inp: OatWriter.Input, w: seq<Byte>, o: OatMethodOffsets,
                              method_: Option<CompiledMethod>) {
    match method_
    case None => o == OatMethodOffsets(0, 16, 0, 0, 0, 0, 0)
    case Some(m) =>
      && o.frameSize == m.frameSize && o.coreSpillMask == m.coreSpillMask && o.fpSpillMask == m.fpSpillMask
      && CodeFound(w, o.codeOffset, inp.blobs(m.code))
      && (UniformDelta(inp.Classes()) ==> (o.codeOffset % 2 == 1 <==> m.isa.Thumb2?))
      && ((forall n :: InWalk(inp.Classes(), n) ==> n.isa.X86?) ==> (CodeStart(o.codeOffset) - 4) % 16 == 0)
      && TableFound(w, o.mappingTableOffset, inp.blobs(m.mapping))
      && TableFound(w, o.vmapTableOffset, inp.blobs(m.vmap))
      && TableFound(w, o.gcMapOffset, inp.blobs(m.gcMap))
  }

  ghost predicate CodeFound(w: seq<Byte>, offset: nat, code: seq<Byte>) {
    && |w| >= OAT_HEADER_SIZE && ExecutableOffset(w) + 4 <= CodeStart(offset) <= |w|
    && (CodeStart(offset) - 4) % 8 == 0
    && CodeSize(w, offset) == |code| > 0 && At(w, CodeStart(offset), code)
  }

  /** An offset of 0 stands for an empty table. */
  ghost predicate TableFound(w: seq<Byte>, offset: nat, table: seq<Byte>) {
    if table == [] then offset == 0 else offset > 0 && At(w, offset, table)
  }

  ghost predicate ClassFound(inp: OatWriter.Input, w: seq<Byte>, e: OatDexFile, j: nat, c: ClassDef) {
    && e.methodsOffsets + 4 * j + 4 <= |w|
    && var at := OatClassOffset(w, e, j);
       && at + 4 + 28 * |c.methods| <= |w| && GetStatus(w, at) == c.status
       && forall k :: 0 <= k < |c.methods| ==> MethodFound(inp, w, GetOatMethod(w, at, k), c.methods[k])
  }

  /** Code starts on an 8-byte boundary on every instruction set, and on a 16-byte boundary on x86. */
  lemma BothAlignments(offset: nat, isa: InstructionSet)
    ensures AlignCode(offset, isa) % 8 == 0 && (isa.X86? ==> AlignCode(offset, isa) % 16 == 0)
  {
    AlignCodeLeast(offset, isa, 0);
    assert AlignCode(offset, isa) % 16 == 0 ==> AlignCode(offset, isa) % 8 == 0;
  }

  lemma PlaceAligned(inp: OatWriter.Input, d: nat, j: nat, p: Ptr)
    requires FirstUse(inp.Classes(), d, j, p)
    ensures d < |inp.Classes()| && j < |inp.Classes()[d].methods| && inp.Classes()[d].methods[j].Some?
    ensures OatWriter.CodeAt(inp, d, j) >= inp.ExecutableOffset() + 4 && (OatWriter.CodeAt(inp, d, j) - 4) % 8 == 0
    ensures Isa(inp.Classes(), d, j).X86? ==> (OatWriter.CodeAt(inp, d, j) - 4) % 16 == 0
    ensures InWalk(inp.Classes(), inp.Classes()[d].methods[j].value)
  {
    hide AlignCode, StateAt;
    StateAfterStart(inp.blobs, inp.Start(), inp.Classes(), d, j);
    inp.TrampolinesGrow(|inp.trampolines|);
    BothAlignments(StateAt(inp.blobs, inp.Start(), inp.Classes(), d, j).offset, Isa(inp.Classes(), d, j));
  }

  /** A recorded code offset leads to the code, whatever its lowest bit. */
  lemma CodeLoads(w: seq<Byte>, offset: nat, place: nat, delta: nat, code: seq<Byte>)
    requires CodeEntryOk(code, offset, delta, w) && offset == place + delta && (place - 4) % 8 == 0
    requires OAT_HEADER_SIZE <= |w| < TWO32 && place >= ExecutableOffset(w) + 4
    ensures CodeFound(w, offset, code) && offset < TWO32 && offset % 2 == delta
  {
    assert CodeStart(offset) == place;
    assert WordLE(|code|)[0..4] == WordLE(|code|);
    hide WordLE, ReadWordLE;
    ReadsAs(w, place - 4, WordLE(|code|), 0, |code|);
  }

  lemma TableLoads(w: seq<Byte>, offset: nat, table: seq<Byte>)
    requires EntryOk(table, offset, w) && |w| < TWO32
    ensures TableFound(w, offset, table) && offset < TWO32
  {
  }

  lemma CompiledFound(inp: OatWriter.Input, w: seq<Byte>, c: nat, k: nat)
    requires Written(inp, w) && c < |inp.Classes()| && k < |inp.Classes()[c].methods|
    requires inp.Classes()[c].methods[k].Some?
    requires LoadableClass(inp.Classes()[c])
    ensures var o := inp.Done(c).methodOffsets[k]; Words32(o) && MethodFound(inp, w, o, inp.Classes()[c].methods[k])
  {
    hide OatWriter.FileComplete, FirstUse, CodeFound, TableFound, OatWriter.CodeAt;
    var m, o := inp.Classes()[c].methods[k].value, inp.Done(c).methodOffsets[k];
    var d, j := FirstUser(inp.Classes(), c, k, m.code);
    OatWriter.EveryMethodPlaced(inp, w, c, k, d, j);
    PlaceAligned(inp, d, j, m.code);
    HeaderRead(inp, w);
    CodeLoads(w, o.codeOffset, OatWriter.CodeAt(inp, d, j), CodeDelta(Isa(inp.Classes(), d, j)), inp.blobs(m.code));
    TableLoads(w, o.mappingTableOffset, inp.blobs(m.mapping));
    TableLoads(w, o.vmapTableOffset, inp.blobs(m.vmap));
    TableLoads(w, o.gcMapOffset, inp.blobs(m.gcMap));
    FrameRecorded(inp, w, c, k);
  }

  lemma FrameRecorded(inp: OatWriter.Input, w: seq<Byte>, c: nat, k: nat)
    requires OatWriter.FileComplete(inp, w) && c < |inp.Classes()| && k < |inp.Classes()[c].methods|
    ensures var o := inp.Done(c).methodOffsets[k];
      match inp.Classes()[c].methods[k]
      case None => o == OatMethodOffsets(0, 16, 0, 0, 0, 0, 0)
      case Some(m) => o.frameSize == m.frameSize && o.coreSpillMask == m.coreSpillMask && o.fpSpillMask == m.fpSpillMask
  {
    inp.MethodFacts(c, k);
  }

  lemma EveryMethodFound(inp: OatWriter.Input, w: seq<Byte>, c: nat, k: nat)
    requires Written(inp, w) && c < |inp.Classes()| && k < |inp.Classes()[c].methods| && LoadableClass(inp.Classes()[c])
    ensures inp.ClassStart(c) + 4 + 28 * (k + 1) <= |w|
    ensures MethodFound(inp, w, GetOatMethod(w, inp.ClassStart(c), k), inp.Classes()[c].methods[k])
  {
    hide OatWriter.FileComplete, MethodFound, GetOatMethod;
    if inp.Classes()[c].methods[k].Some? {
      CompiledFound(inp, w, c, k);
    } else {
      FrameRecorded(inp, w, c, k);
      NothingFound(inp, w, inp.Done(c).methodOffsets[k]);
    }
    MethodRead(inp, w, c, k);
  }

  lemma NothingFound(inp: OatWriter.Input, w: seq<Byte>, o: OatMethodOffsets)
    requires o == OatMethodOffsets(0, 16, 0, 0, 0, 0, 0)
    ensures Words32(o) && MethodFound(inp, w, o, None)
  {
  }

  lemma EveryClassFound(inp: OatWriter.Input, w: seq<Byte>, i: nat, j: nat)
    requires Written(inp, w) && i < |inp.dexFiles| && j < |inp.dexFiles[i].classDefs|
    ensures ClassFound(inp, w, Expected(inp, i), j, inp.dexFiles[i].classDefs[j])
  {
    hide OatWriter.FileComplete, MethodFound, GetOatMethod, LoadableClass, Word;
    assert LoadableDexFile(inp.dexFiles[i]) && LoadableClass(inp.dexFiles[i].classDefs[j]);
    ClassPointer(inp, w, i, j);
    var c := inp.FirstClass(i) + j;
    assert inp.Classes()[c].status < TWO32 by { StatusFits(inp.Classes()[c]); }
    StatusRead(inp, w, c);
    ClassRecord(inp, w, c);
    forall k | 0 <= k < |inp.Classes()[c].methods|
      ensures MethodFound(inp, w, GetOatMethod(w, inp.ClassStart(c), k), inp.Classes()[c].methods[k])
    {
      EveryMethodFound(inp, w, c, k);
    }
  }

  lemma StatusFits(c: ClassDef)
    requires LoadableClass(c)
    ensures c.status < TWO32
  {
  }

  /** Everything about dex file `i` is found through entry `e`. */
  ghost predicate DexFileFound(inp: OatWriter.Input, w: seq<Byte>, e: OatDexFile, d: OatWriter.DexFile) {
    && e.location == d.location && e.checksum == d.locationChecksum && At(w, e.dexFile, d.bytes)
    && forall j :: 0 <= j < |d.classDefs| ==> ClassFound(inp, w, e, j, d.classDefs[j])
  }

  ghost function AllExpected(inp: OatWriter.Input): (files: seq<OatDexFile>)
    ensures |files| == |inp.dexFiles|
  {
    seq(|inp.dexFiles|, i requires 0 <= i < |inp.dexFiles| => Expected(inp, i))
  }

  lemma WrittenOpens(inp: OatWriter.Input, w: seq<Byte>)
    requires Written(inp, w)
    ensures Opened(w, AllExpected(inp))
  {
    hide OatWriter.FileComplete, EntryAt, OatWriter.Input.OatDexFileStart;
    HeaderRead(inp, w);
    var files := AllExpected(inp);
    forall i | 0 <= i < |files| ensures EntryAt(w, EntryStart(w, files, i), files[i]) {
      EntryRead(inp, w, i);
    }
  }

  /**
   * The loader undoes the writer: a file that the writer wrote opens, and following its words from
   * the header leads to every dex file, every class with its status and every method with its frame,
   * its code and its tables, as the writer was given them.
   */
  lemma LoadsWhatWasWritten(inp: OatWriter.Input, w: seq<Byte>, files: seq<OatDexFile>)
    requires Written(inp, w)
    ensures exists fs :: Opened(w, fs)
    ensures Opened(w, files) ==> |files| == |inp.dexFiles|
    ensures Opened(w, files) ==> forall i :: 0 <= i < |files| ==> DexFileFound(inp, w, files[i], inp.dexFiles[i])
  {
    hide OatWriter.FileComplete, EntryAt, ClassFound, At;
    WrittenOpens(inp, w);
    HeaderRead(inp, w);
    if Opened(w, files) {
      ListedOnce(w, files, AllExpected(inp), |files|);
      forall i | 0 <= i < |files| ensures DexFileFound(inp, w, files[i], inp.dexFiles[i]) {
        DexFileRead(inp, w, i);
        forall j | 0 <= j < |inp.dexFiles[i].classDefs|
          ensures ClassFound(inp, w, files[i], j, inp.dexFiles[i].classDefs[j])
        {
          EveryClassFound(inp, w, i, j);
        }
      }
    }
  }

  /** Dex files stand on 4-byte boundaries, each less than four bytes after what comes before it. */
  ghost predicate Packed(w: seq<Byte>, files: seq<OatDexFile>, dexFiles: seq<OatWriter.DexFile>)
    requires |w| >= OAT_HEADER_SIZE && |files| == |dexFiles|
  {
    forall i :: 0 <= i < |files| ==>
      var end := if i == 0 then EntryStart(w, files, |files|) else files[i - 1].dexFile + |dexFiles[i - 1].bytes|;
      NextTo(end, files[i].dexFile)
  }

  ghost predicate NextTo(end: nat, at: nat) {
    end <= at < end + 4 && at % 4 == 0
  }

  lemma DexFilesPacked(inp: OatWriter.Input, w: seq<Byte>, files: seq<OatDexFile>)
    requires Written(inp, w) && Opened(w, files)
    ensures |w| >= OAT_HEADER_SIZE && |files| == |inp.dexFiles| && Packed(w, files, inp.dexFiles)
  {
    OpenedIsExpected(inp, w, files);
    hide OatWriter.Input.OatDexFileStart, OatWriter.Input.Linked, Opened, Written, EntryStart, NextTo;
    forall i: nat | i < |files|
      ensures var end := if i == 0 then inp.OatDexFileStart(|files|)
                         else files[i - 1].dexFile + |inp.dexFiles[i - 1].bytes|;
              NextTo(end, files[i].dexFile)
    {
      OnePacked(inp, i);
    }
  }

  lemma OpenedIsExpected(inp: OatWriter.Input, w: seq<Byte>, files: seq<OatDexFile>)
    requires Written(inp, w) && Opened(w, files)
    ensures |w| >= OAT_HEADER_SIZE && |files| == |inp.dexFiles|
    ensures forall i :: 0 <= i < |files| ==> files[i].dexFile == inp.Linked(i).dexFileOffset
    ensures EntryStart(w, files, |files|) == inp.OatDexFileStart(|files|)
  {
    hide OatWriter.FileComplete, EntryAt, Word, OatWriter.Input.OatDexFileStart;
    WrittenOpens(inp, w);
    HeaderRead(inp, w);
    ListedOnce(w, files, AllExpected(inp), |files|);
    forall i | 0 <= i < |files| ensures files[i].dexFile == inp.Linked(i).dexFileOffset {
      assert files[i] == Expected(inp, i);
    }
  }

  lemma OnePacked(inp: OatWriter.Input, i: nat)
    requires i < |inp.dexFiles|
    ensures var end := if i == 0 then inp.OatDexFileStart(|inp.dexFiles|)
                       else inp.Linked(i - 1).dexFileOffset + |inp.dexFiles[i - 1].bytes|;
            NextTo(end, inp.Linked(i).dexFileOffset)
  {
    hide OatWriter.Input.OatDexFileStart, OatWriter.Input.Pointers;
    assert inp.Linked(i).dexFileOffset == RoundUp(inp.DexEnd(i), 4);
  }

  /** Writing a file and opening it again, for every input whose file stays below 4 GiB. */
  method WriteThenOpen(inp: OatWriter.Input) returns (fits: bool, w: seq<Byte>, files: seq<OatDexFile>)
    requires inp.Valid() && Loadable(inp)
    ensures fits <==> inp.End().offset < TWO32
    ensures fits ==> |w| == inp.End().offset && Opened(w, files) && |files| == |inp.dexFiles|
    ensures fits ==> forall i :: 0 <= i < |files| ==> DexFileFound(inp, w, files[i], inp.dexFiles[i])
  {
    hide OatWriter.FileComplete, Listed, DexFileFound, Loadable;
    w, files := [], [];
    var writer := new OatWriter.OatWriter(inp);
    fits := writer.size < TWO32;
    if fits {
      var out := new Streams.VectorOutputStream([]);
      var _ := writer.Write(out);
      w := out.vec[..out.pos];
      assert out.Written()[0..] == w;
      var ok;
      ok, files := Setup(w);
      LoadsWhatWasWritten(inp, w, files);
    }
  }
}
