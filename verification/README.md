# Layouts, tables and protocols of the Android runtime, in Dafny

This project models the hard core of an Android 4.4 ART source tree and proves what its parts
promise: the file writers of the compiler and the loader of oat files, the class linker of the
runtime, the encoders of its debugger support and the packet relay of `jdwpspy`. Nothing was
executed; every statement below is a theorem about the model. `dafny verify dfyconfig.toml` checks
the whole project.

Code that works in place is modelled in place: objects are classes, buffers are arrays, loops are
loops, and each method is proved against a value-level specification. Code that races is a state
machine over the steps of its threads, and the theorems are about every reachable state of every
run.

| file | what it models | main results |
|---|---|---|
| `Options.dfy`, `Bytes.dfy` | optional values, bytes, words, alignment | shared by the others |
| `Streams.dfy` | the vector and the buffered output stream | `BufferedOutputStream.Run`, `SinkLacks` |
| `OatLayout.dfy`, `OatWriter.dfy` | the two passes of the oat file writer | `OatWriter.Write`, `WriteBuffered`, `EveryMethodPlaced`, `OwnDeltaInFile` |
| `OatFile.dfy` | the loader that reads an oat file back | `LoadsWhatWasWritten`, `WriteThenOpen`, `Setup` |
| `ImageWriter.dfy` | offsets, copying and relocation of the boot image | `OffsetsCoincide`, `NoGaps`, `ReferencesPreserved` |
| `ElfStripper.dfy` | removing sections from a mapped ELF file | `Strip`, `UnneededByName` |
| `ClassInit.dfy` | class initialization under racing threads | `ClinitRunsOnce`, `ThrownIsError`, `NotThrownIsInitialized`, `ResultMeaning`, `ClinitAfterSuper`, `NeverAborts` |
| `ClassTable.dfy` | the class table and the migration of image classes under racing threads | `SameClassEverywhere`, `ReturnedIsResolved`, `ResolvedIsReturned`, `NoDuplicateEntries` |
| `VerifyClass.dfy` | verification of classes, superclass first, while other threads interfere | `Linker.VerifyClass`, `EndsByItself`, `Linker.Decide`, `Linker.VerifyAll` |
| `VirtualMethods.dfy` | vtables, interface method tables, mirandas | `Linker.LinkChain`, `MostDerived`, `FinalForGood`, `IndexedUnlessTooMany` |
| `InterfaceTables.dfy` | flattening of the interface hierarchy | `LinkAll`, `ImplementedIsReached` |
| `LinkFields.dfy` | field layout and the size of Class objects | `LinkFields`, `SlotsDisjoint`, `SortedUnique`, `LinkStaticFields` |
| `RefOffsets.dfy` | reference bitmaps and the loops over them | `LinkBitmaps`, `Copy.FixupFields` |
| `ImageReferences.dfy` | the image writer's fix-up by those bitmaps | `FixupByClass`, `FieldsPreserved` |
| `HeapChunk.dfy` | heap segment messages | `DecodeEncode`, `HeapChunkContext.Walk`, `WalkExplained` |
| `JdwpRelay.dfy` | the JDWP packet relay | `NetState.Relay` |
| `AllocRing.dfy` | the ring of recent allocation records | `AllocTracker.RecentAllocations` |

What the model takes from outside:

- Pointers that the source compares by address (code vectors, methods, objects, classes) are numbers;
  what they point to is a map or a sequence. `HasSameNameAndSignature` is equality of a signature
  number and `CanAccessMember` is a predicate passed in for each class.
- Thread interleavings, lock acquisition, wake-ups, verifier verdicts, oat file statuses, the results
  of `select`, `read` and `write`, and the states reported for heap objects are arbitrary inputs.
- `std::sort` in field linking is any sequence that is sorted by the comparator and a permutation of
  the fields.
- Memory never runs out, and streams under the oat writer and the buffered stream never fail.
- The Quick build of the oat writer is modelled (`ART_USE_PORTABLE_COMPILER` undefined).
- A 32-bit bitmap is the sequence of its bits from the highest to the lowest; `ValueInjective` and
  `MagicValues` tie it to the number it stands for.

Where a promise fails, the exact condition on the input is proved:

- `OwnDelta` and `OwnDeltaInFile`: methods that share a code vector must share the Thumb delta;
  `SharedAcrossModes` is two that do not.
- `IndexedUnlessTooMany`: the inherited vtable and the signatures it lacks must be at most 0x10000
  together, because miranda indices are masked and the length is not checked again; `LinkTooMany`
  links 0x10001.
- `SinkLacks`: the destructor of the buffered stream does not flush, so the operations must leave no
  bytes over, which `Left` computes from their lengths.
- `Linker.Decide`: the check on the superclass fails if the superclass becomes erroneous between
  the moment its monitor is given back and the decision, and nothing else is wrong with the class;
  `SuperFailsMeanwhile` is such a state.
- `LinkVirtualMethods` and `LinkChain`: final overrides, the 16-bit limit and implementations that
  are not public.
- `ThrowingWaitLeavesError`: a run that shows why initialization needs waits that do not throw, as
  `WaitIgnoringInterrupts` (runtime/object_utils.h:49-51) provides.

## Model

| member | source | states |
|---|---|---|
| `Streams.WritesFuse` | compiler/buffered_output_stream.cc:26-41 | for any sink state, writing two pieces one after the other is writing their concatenation, which is what lets writes be gathered |
| `Streams.EmptyWrite` | compiler/buffered_output_stream.cc:43-50 | writing nothing changes neither bytes nor position, so skipping an empty flush is harmless |
| `Streams.WriteBytes` | compiler/vector_output_stream.h:34-46 | byte by byte: a write changes exactly the bytes it covers |
| `Streams.SeekBytes` | compiler/vector_output_stream.cc:26-46 | byte by byte: a seek changes no byte, and the bytes it adds to reach its place are zero |
| `Streams.SeekPlaces` | compiler/vector_output_stream.cc:26-46 | seeks count from the start, from the position or from the end |
| `Streams.LeadsOn` | compiler/vector_output_stream.h:34-46 | the log of a stream, run from where it started, leads to where it is, after every further operation |
| `Streams.VectorOutputStream.EnsureCapacity` | compiler/vector_output_stream.h:51-55 | grows the vector with zeros up to the offset and never shrinks it |
| `Streams.VectorOutputStream.WriteFully` | compiler/vector_output_stream.h:34-46 | both branches overwrite in place from the position and extend at the end; bytes before the position are untouched |
| `Streams.VectorOutputStream.Seek` | compiler/vector_output_stream.cc:26-46 | moves to set, current or end plus the offset, extending with zeros, and keeps everything already written |
| `Streams.BufferedOutputStream.constructor` | compiler/buffered_output_stream.cc:23-24 | starts with nothing pending |
| `Streams.BufferedOutputStream.Flush` | compiler/buffered_output_stream.cc:43-50 | empties the buffer into the sink without changing the stream a reader would see |
| `Streams.BufferedOutputStream.WriteFully` | compiler/buffered_output_stream.cc:26-41 | large, fitting and overflowing writes alike act on the sink-with-pending-bytes as the direct write does |
| `Streams.BufferedOutputStream.Seek` | compiler/buffered_output_stream.cc:52-57 | acts as the direct seek and leaves nothing pending |
| `Streams.BufferedOutputStream.Apply` | compiler/buffered_output_stream.cc:26-57 | one write or seek acts on the sink-with-pending-bytes as it does on a direct stream |
| `Streams.LeftIsData` | compiler/buffered_output_stream.cc:26-50 | the number of bytes left in the buffer, computed from the lengths of the writes alone, is that of the writes since the sink was last reached |
| `Streams.SinkLacks` | compiler/buffered_output_stream.h:30-32 | from the operations alone: the whole run is the part of it that reached the sink and then one write of the bytes left over, so a destructor that does not flush loses nothing if and only if no bytes are left over |
| `Streams.BufferedOutputStream.Run` | compiler/buffered_output_stream.cc:26-57 | any sequence of writes and seeks leaves the sink with the pending bytes applied equal to the direct run; from an empty buffer the sink itself is the direct run of exactly the operations that reached it, the buffer holds the data of the others, and the two agree if and only if the operations leave no bytes over; a run that ends in a seek leaves the sink equal to the direct run |
| `OatLayout.AlignCodeLeast` | compiler/compiled_method.cc:53-66 | the aligned offset is the least multiple of the instruction set's alignment at or above the offset |
| `OatLayout.RecordedEach` | compiler/oat_writer.cc:274-396 | the offsets recorded for the k-th method are those computed in the state after the k methods before it |
| `OatLayout.StepLeq` | compiler/oat_writer.cc:302-386 | placing a method only advances the offset and only adds to the four deduplication maps |
| `OatLayout.MethodsLeq` | compiler/oat_writer.cc:233-272 | the same over the methods of a class |
| `OatLayout.ClassesLeq` | compiler/oat_writer.cc:210-231 | the same over all classes |
| `OatLayout.TableTest` | compiler/oat_writer.cc:726-741 | for a mapping, vmap or GC table, comparing the current offset with the recorded one decides "already written" correctly: never for a first copy, always for a later one |
| `OatLayout.CodeTest` | compiler/oat_writer.cc:695-716 | the same for code, with the size word and the Thumb delta in the compared offset |
| `OatLayout.FirstCopy` | compiler/oat_writer.cc:695-716 | writing the size word and the first copy of a code vector at the aligned end of bytes that hold every code entry recorded so far gives bytes that hold every code entry after the step |
| `OatLayout.CodeWritten` | compiler/oat_writer.cc:676-717 | after the code step of the second pass the bytes hold every code entry recorded so far, each behind its size |
| `OatLayout.MappingWritten` | compiler/oat_writer.cc:720-742 | the same after the mapping table step |
| `OatLayout.VmapWritten` | compiler/oat_writer.cc:744-766 | the same after the vmap table step |
| `OatLayout.GcMapWritten` | compiler/oat_writer.cc:768-790 | the same after the GC map step |
| `OatLayout.RecordedIsPlaced` | compiler/oat_writer.cc:274-396 | in any bytes that agree with the final maps, each recorded offset leads to that method's code or table |
| `OatLayout.DeltaOrigin` | compiler/oat_writer.cc:302-319 | at every point of the walk the offset and the Thumb delta recorded for a code vector are those of the first method in the walk with this code |
| `OatLayout.RecordedFromFirst` | compiler/oat_writer.cc:302-319 | the code offset recorded for any method is where the first method with its code put it, plus that first method's delta, modulo 2^32 |
| `OatLayout.OwnDelta` | compiler/oat_writer.cc:302-319 | every method's own delta leads from its recorded offset to where its code was put if and only if methods that share a code vector share the delta |
| `OatLayout.SharedAcrossModes` | compiler/oat_writer.cc:302-319 | a concrete input that fails: an Arm method that shares its code with a Thumb method met before it is recorded one past the code |
| `OatWriter.OatWriter.constructor` | compiler/oat_writer.cc:38-85 | after the first pass every offset in the header, the dex file entries, the classes and the methods is the one the layout functions define, and size is where the last region ends |
| `OatWriter.OatWriter.InitOatHeader` | compiler/oat_writer.cc:93-103 | makes the header from the inputs and counts, and gives the offset after it and the image location |
| `OatWriter.OatWriter.InitOatDexFiles` | compiler/oat_writer.cc:105-115 | one entry per dex file, each at the end of the one before |
| `OatWriter.OatWriter.InitDexFiles` | compiler/oat_writer.cc:117-132 | each dex file at a 4-byte boundary, its offset stored in its entry and the padding counted |
| `OatWriter.OatWriter.InitOatClasses` | compiler/oat_writer.cc:134-171 | one class per class definition at consecutive offsets, and its offset stored in the dex file entry |
| `OatWriter.OatWriter.InitOatClassesOf` | compiler/oat_writer.cc:138-166 | the same for the classes of one dex file |
| `OatWriter.OatWriter.InitOatCode` | compiler/oat_writer.cc:173-208 | the executable offset on a page boundary and, for an image, the aligned trampolines |
| `OatWriter.OatWriter.InitOatCodeDexFiles` | compiler/oat_writer.cc:210-218 | all methods of all dex files placed in walk order |
| `OatWriter.OatWriter.InitOatCodeDexFile` | compiler/oat_writer.cc:220-231 | all methods of one dex file placed, and the class index moved past its classes |
| `OatWriter.OatWriter.InitOatCodeClassDef` | compiler/oat_writer.cc:233-272 | the method offsets of one class become exactly the recorded ones |
| `OatWriter.OatWriter.InitOatCodeMethod` | compiler/oat_writer.cc:274-396 | one method recorded with pointer-keyed deduplication of code and tables |
| `OatWriter.OatWriter.InitTable` | compiler/oat_writer.cc:325-338 | a table is placed, shared, or recorded as 0 when empty |
| `OatWriter.OatWriter.WriteRegions` | compiler/oat_writer.cc:432-461 | all regions are written in order and the last offset is size |
| `OatWriter.OatWriter.Write` | compiler/oat_writer.cc:432-507 | the file ends at exactly size after the stream's old position, every region stands where the first pass promised, earlier bytes are untouched, the counters add up to size, and both closing checks hold |
| `OatWriter.OatWriter.WriteHeader` | compiler/oat_writer.cc:435-446 | the header and the image location stand at the start |
| `OatWriter.OatWriter.WriteTables` | compiler/oat_writer.cc:509-540 | dex file entries, dex files and classes stand at their offsets |
| `OatWriter.OatWriter.WriteOatDexFiles` | compiler/oat_writer.cc:510-515 | every dex file entry stands at its offset |
| `OatWriter.OatWriter.WriteOatDexFile` | compiler/oat_writer.cc:823-855 | one entry is written field by field as its encoding, and counted |
| `OatWriter.OatWriter.WriteDexFiles` | compiler/oat_writer.cc:516-532 | every dex file stands at its offset |
| `OatWriter.OatWriter.WriteDexFile` | compiler/oat_writer.cc:516-532 | one dex file stands at the offset its entry holds, after a seek over the padding |
| `OatWriter.OatWriter.WriteOatClasses` | compiler/oat_writer.cc:533-538 | every class stands at its offset |
| `OatWriter.OatWriter.WriteOatClass` | compiler/oat_writer.cc:884-904 | one class is written as its status and method offsets, and counted |
| `OatWriter.OatWriter.WriteCode` | compiler/oat_writer.cc:542-580 | the stream is at the page boundary and, for an image, the seven trampolines stand at their offsets |
| `OatWriter.OatWriter.WriteTrampoline` | compiler/oat_writer.cc:550-577 | one trampoline is aligned, written and counted |
| `OatWriter.OatWriter.WriteCodeDexFiles` | compiler/oat_writer.cc:582-596 | the bytes agree with the deduplication maps after all methods |
| `OatWriter.OatWriter.WriteCodeDexFile` | compiler/oat_writer.cc:598-611 | the same after the methods of one dex file |
| `OatWriter.OatWriter.WriteCodeClassDef` | compiler/oat_writer.cc:619-661 | the same after the methods of one class |
| `OatWriter.OatWriter.WriteCodeMethod` | compiler/oat_writer.cc:663-794 | the same after one method, whether or not its code and tables were written before |
| `OatWriter.OatWriter.WriteMethodCode` | compiler/oat_writer.cc:676-717 | alignment, size and code of one method, or only the alignment when the code is already in the file |
| `OatWriter.OatWriter.AlignTo` | compiler/oat_writer.cc:677-690 | seeks over the alignment padding and ends where expected |
| `OatWriter.OatWriter.EmitCode` | compiler/oat_writer.cc:703-716 | writes the size word and the code |
| `OatWriter.OatWriter.WriteTable` | compiler/oat_writer.cc:726-741 | a table is written exactly when the test says it is not in the file |
| `OatWriter.OatWriter.WriteMapping` | compiler/oat_writer.cc:720-742 | the mapping table of one method |
| `OatWriter.OatWriter.WriteVmap` | compiler/oat_writer.cc:744-766 | the vmap table of one method |
| `OatWriter.OatWriter.WriteGcMap` | compiler/oat_writer.cc:768-790 | the GC map of one method |
| `OatWriter.WriteBuffered` | compiler/oat_writer.cc:432-507 | the calls that the writer makes on a direct stream, made on a buffered one, leave the same complete file in its sink with nothing pending, because the last of them is a seek |
| `OatWriter.EveryMethodPlaced` | compiler/oat_writer.cc:274-396 | in a complete file, for every sharing pattern, each compiled method's code stands behind its 4-byte size, its code_offset_ is that place plus the delta of the first method with the code, and each non-empty table stands at its recorded offset |
| `OatFile.Setup` | runtime/oat_file.cc:203-310 | reading any bytes: succeeds if and only if they are an oat file, whose header is valid and whose entries, each with a name and a dex file, follow one another; then it lists all of them |
| `OatFile.ReadEntry` | runtime/oat_file.cc:226-301 | reading one entry: succeeds if and only if one stands there |
| `OatFile.ListedOnce` | runtime/oat_file.cc:226-308 | the bytes decide the entries: two listings of one file agree |
| `OatFile.HeaderRead` | runtime/oat.h:86-106 | the words of a written header, read back at their offsets: magic, version, dex file count, an executable offset that is the next page after the class records, size of the image location |
| `OatFile.HeaderRest` | runtime/oat.h:86-106 | the other words read back: checksums, image begin, instruction set, and the image location behind them |
| `OatFile.TrampolineRead` | runtime/oat.h:92-100 | each trampoline offset read from the header leads to that trampoline's bytes, or is 0 in a file that is not for an image |
| `OatFile.EntryRead` | runtime/oat_file.cc:226-301 | the entry read where a dex file's entry was written has its location, checksum and offset, and leads to that dex file |
| `OatFile.ClassPointer` | runtime/oat_file.cc:381-384 | the offset read for class def j of a dex file is where its class record was written |
| `OatFile.StatusRead` | runtime/oat_file.cc:386 | the status read from a class record is the class's |
| `OatFile.MethodRead` | runtime/oat_file.cc:407-418 | the seven words read from a class record, in the order of the format, are the ones recorded for the method |
| `OatFile.CodeLoads` | runtime/oat_file.cc:447-466 | a recorded code offset leads to the code and to its size in front of it, whatever its lowest bit |
| `OatFile.EveryMethodFound` | runtime/oat_file.cc:407-418 | what the loader reads for a method leads to its code, alignment and Thumb bit included, its three tables and its frame; for a method without code it reads none |
| `OatFile.EveryClassFound` | runtime/oat_file.cc:381-395 | from the entry of its dex file every class leads to its status and to all its methods |
| `OatFile.DexFilesPacked` | compiler/oat_writer.cc:117-132 | by the offsets in the file, every dex file stands on a 4-byte boundary and less than four bytes after what comes before it |
| `OatFile.LoadsWhatWasWritten` | runtime/oat_file.cc:203-418 | a written file opens, and however it is read, its listing has exactly the dex files that were given, with their bytes, and through the offsets in the file every class leads to its status and every method to its code, tables and frame |
| `OatFile.WriteThenOpen` | compiler/oat_writer.cc:432-507 | end to end: for every input, writing and then reading the file gives back all that was written, if and only if the file ends below 4 GiB |
| `OatWriter.OwnDeltaInFile` | compiler/oat_writer.cc:274-396 | in a complete file below 4 GiB every method finds its code at code_offset_ less its own delta if and only if methods that share a code vector share the delta |
| `ClassInit.NextKeeps` | runtime/class_linker.cc:2955-3153 | every step of every thread keeps the invariant (who owns an initializing class, which locks are held, what each frame knows) and moves no status back |
| `ClassInit.RunKeeps` | runtime/class_linker.cc:2955-3153 | the invariant holds in every state of every run of any number of threads |
| `ClassInit.RunForward` | runtime/mirror/class.cc:53-69 | in every run a status only moves forward, or to Error before it is Initialized |
| `ClassInit.FinalStatuses` | runtime/class_linker.cc:2955-3112 | in every run Initialized and Error are never left and the class initializer is entered at most once |
| `ClassInit.ResultMeaning` | runtime/class_linker.cc:2955-3153 | in every run a true result means Initialized, or being initialized by the caller itself; a false one means erroneous, refused, or in the compiler to be retried |
| `ClassInit.WokenNeverAborts` | runtime/class_linker.cc:3117-3153 | a woken waiter always finds a status it handles |
| `ClassInit.ClinitAfterSuper` | runtime/class_linker.cc:3026-3080 | while a class initializer runs, the superclass is Initialized or being initialized by the same thread, and no other frame runs the same initializer |
| `ClassInit.ClinitRunsOnce` | runtime/class_linker.cc:3060-3112 | in every run a class with an initializer that becomes initialized has had it run exactly once, and a class without one never |
| `ClassInit.CountedWasRun` | runtime/class_linker.cc:3075-3080 | a counted run is a real one: some state before has a thread inside that class's initializer |
| `ClassInit.ThrownIsError` | runtime/class_linker.cc:3092-3098 | after an initializer throws, in every later state the class is not initialized, and its call can only end in false |
| `ClassInit.NotThrownIsInitialized` | runtime/class_linker.cc:3060-3112 | an initialization that got past the superclass and whose initializer does not throw leaves the class initialized when its thread is done, whatever the others do |
| `ClassInit.VerifiedBefore` | runtime/class_linker.cc:2986-3030 | no class is initialized, or begins to be, that was not verified in an earlier state |
| `ClassInit.SuperBefore` | runtime/class_linker.cc:3026-3058 | when a class becomes initialized its superclass is initialized, or being initialized further up by the same thread |
| `ClassInit.RunSupersFirst` | runtime/class_linker.cc:2986-3049 | in every run in which a class becomes verified only below a superclass that is verified or has failed, every verified class has a superclass that is verified or erroneous |
| `ClassInit.NeverAborts` | runtime/class_linker.cc:2955-3112 | in every such run every step that does not have to wait is taken, so the checks on the way hold, the one on a failed superclass included; the only exception is a superclass call that was refused and left no error |
| `ClassInit.ThrowingWaitLeavesError` | runtime/class_linker.cc:3119-3131 | a concrete run in which a wait returns with an exception pending and Error is left, so the assumption that waits do not throw is needed |
| `ClassTable.LookupFinds` | runtime/class_linker.cc:2279-2302 | a lookup finds a class if and only if an entry with that hash, descriptor and loader is in the table |
| `ClassTable.NothingCached` | runtime/class_linker.cc:2202-2231 | when a new boot class is inserted no image class with its descriptor is still waiting to be migrated |
| `ClassTable.NextKeeps` | runtime/class_linker.cc:1309-1440 | every step of defining, finding, migrating and caching keeps the invariant and removes no entry |
| `ClassTable.RunKeeps` | runtime/class_linker.cc:2249-2399 | the invariant holds in every state of every run of any number of threads |
| `ClassTable.RunRemembers` | runtime/class_linker.cc:2202-2231 | a class once in the table under a name stays there under it |
| `ClassTable.RunLeavesToBoot` | runtime/class_linker.cc:1334-1341 | in every run of the compiler no class of the boot class path is in the table under another loader |
| `ClassTable.DefinedBy` | runtime/class_linker.cc:1309-1440 | a successful call ends with a class of the descriptor asked for, under the loader asked for or, in the compiler and for a class of the boot class path, under the boot loader |
| `ClassTable.StaysResolved` | runtime/class_linker.cc:1309-1440 | in every run a resolved class stays resolved |
| `ClassTable.ReturnedIsResolved` | runtime/class_linker.cc:1273-1303 | a class that a call returns is resolved then and in all later states |
| `ClassTable.ResolvedIsReturned` | runtime/class_linker.cc:1309-1440 | a call that starts when a resolved class of that name and loader is in the table can only end with that class |
| `ClassTable.NoClassMeans` | runtime/class_linker.cc:1273-1440 | a call ends without a class only when loading it fails or when the class of that name in the table is erroneous |
| `ClassTable.SameClassEverywhere` | runtime/class_linker.cc:1309-1440 | all successful calls that ask for one descriptor through one loader, by any threads at any times, return the same class object |
| `ClassTable.NoDuplicateEntries` | runtime/class_linker.cc:2202-2231 | no reachable table holds two entries for one descriptor and loader |
| `ClassTable.MigrationNeverAborts` | runtime/class_linker.cc:2324-2357 | the check that a migrated class is not already in the table as another object never fails |
| `ClassTable.MigratedMeansFound` | runtime/class_linker.cc:2324-2357 | once the migration flag is cleared every image class is found in the table itself |
| `ImageWriter.ImageWriter.Intern` | compiler/image_writer.cc:342-368 | the representative of a string's text, which is the string itself when the text is new; interning keeps one string per text |
| `ImageWriter.ImageWriter.SetImageOffset` | compiler/image_writer.h:74-79 | an object gets an offset once |
| `ImageWriter.ImageWriter.AssignImageOffset` | compiler/image_writer.h:65-72 | the object gets the end of the image, which then moves by its size rounded up to 8 |
| `ImageWriter.ImageWriter.CalculateNewObjectOffsetsCallback` | compiler/image_writer.cc:342-368 | one object placed, or a string given its representative's offset, with the layout kept |
| `ImageWriter.ImageWriter.CalculateNewObjectOffsets` | compiler/image_writer.cc:408-436 | for every reference-closed heap and every walk order, every object has an offset and the layout holds |
| `ImageWriter.OffsetsCoincide` | compiler/image_writer.cc:342-368 | two objects share an offset if and only if they are the same object or strings of the same text; otherwise their ranges are apart; every range is 8-aligned and inside the image |
| `ImageWriter.StartsExactly` | compiler/image_writer.h:65-72 | each placed object starts exactly where the ones before it end |
| `ImageWriter.NoGaps` | compiler/image_writer.h:65-72 | every offset between the header and image_end_ lies in some object or less than eight bytes after one |
| `ImageWriter.ImageWriter.StoreWord` | compiler/image_writer.cc:578-583 | stores one little-endian word and nothing else |
| `ImageWriter.ImageWriter.CopyAndFixupObjectsCallback` | compiler/image_writer.cc:477-493 | the object's place holds its relocated copy, and nothing else changed |
| `ImageWriter.ImageWriter.FixupObject` | compiler/image_writer.cc:495-509 | the class pointer and every reference of the copy are relocated |
| `ImageWriter.ImageWriter.CopyAndFixupObjects` | compiler/image_writer.cc:463-475 | afterwards every object's place holds a relocated copy, of that object or of a string of the same text |
| `ImageWriter.RelocatedRef` | compiler/image_writer.cc:578-640 | in a relocated copy each reference word is the image address of its original target |
| `ImageWriter.RelocatedRest` | compiler/image_writer.cc:477-493 | every byte outside the reference words and the monitor word is the original one |
| `ImageWriter.MonitorCleared` | compiler/image_writer.cc:477-493 | the monitor word of every copy is zero, whatever the object's lock state was |
| `ImageWriter.CopyOfEquivalent` | compiler/image_writer.cc:477-493 | whichever duplicate of a string was copied last, its place holds a copy equivalent to each of them |
| `ImageWriter.FieldHoldsAddress` | compiler/image_writer.cc:605-640 | a reference field read back from the image is the address of its target |
| `ImageWriter.ReferencesPreserved` | compiler/image_writer.cc:463-640 | the image is the heap's graph: every reference field of a copy holds null for null, or the address of a copy of the original target or of a string of the same text |
| `ImageReferences.OtherFixed` | compiler/image_writer.cc:605-640 | a word that is no reference field is untouched by the fix-up |
| `ImageReferences.SameWords` | compiler/image_writer.cc:605-640 | storing the image addresses at the offsets that the classes give, in any order, is relocating all references of the object |
| `ImageReferences.FixupByClass` | compiler/image_writer.cc:495-514 | fixing the instance fields by the bitmap of the class, and the static fields of a class object by its own, leaves exactly the relocated object, whether each bitmap is exact or the superclasses are walked |
| `ImageReferences.FieldsPreserved` | compiler/image_writer.cc:463-640 | in the image every reference field that an object's class and superclasses declare, and its class pointer, holds null for null, or the address of a copy of the original target or of a string of the same text |
| `VirtualMethods.Linker.FindOverridden` | runtime/class_linker.cc:3436-3457 | the first slot with the signature that the class may access, or none |
| `VirtualMethods.Linker.LinkVirtualMethods` | runtime/class_linker.cc:3417-3479 | succeeds if and only if no final method is overridden and the table fits 16 bits; inherited slots keep their numbers, a slot is replaced only by an accessible override of the same signature, the others are appended, and every entry sits at its own method index |
| `VirtualMethods.Linker.LinkRootMethods` | runtime/class_linker.cc:3480-3498 | the root's table is its declared methods, each at its own index |
| `VirtualMethods.Linker.LinkVirtualOrRoot` | runtime/class_linker.cc:3417-3500 | the virtual methods of a class, with a superclass or without |
| `VirtualMethods.LinkedUnique` | runtime/class_linker.cc:3417-3479 | what a class declares and inherits decides its table before mirandas: overridden slots, and new ones in the order of declaration |
| `VirtualMethods.Linker.LinkMethods` | runtime/class_linker.cc:3411-3412 | links the virtual methods of one class and then its interface methods: the declared methods have their slots, every interface method its entry and every missing signature its miranda, cloned from an interface method; succeeds if and only if no final method is overridden, the table before mirandas fits 16 bits and no implementation of an interface method is concrete and not public; what holds of the classes above stays true |
| `VirtualMethods.Linker.LinkChain` | runtime/class_linker.cc:3411-3716 | down any chain of classes with any interfaces, each class in turn is linked in this sense below the table and with the method objects that the one before it left, mirandas inherited and overridden, up to the first that does not pass; every slot keeps its signature in all classes below; in a class every entry sits at its own index if and only if it has at most 0x10000 entries, which every class with a subclass has |
| `VirtualMethods.MostDerived` | runtime/class_linker.cc:3417-3479 | dispatch: where classes may access what they inherit, every table in the chain has one entry for each signature, and for a declared signature it is the method of the nearest class that declares it, whatever interfaces and mirandas there are |
| `VirtualMethods.HiddenAppends` | runtime/class_linker.cc:3436-3457 | where nothing inherited may be accessed nothing is overridden: the declared methods are appended in order |
| `VirtualMethods.FinalForGood` | runtime/class_linker.cc:3443-3448 | a final method keeps its slot in all classes below |
| `VirtualMethods.CallableEntries` | runtime/class_linker.cc:3638-3652 | after linking, every interface table entry is public, abstract or a miranda |
| `VirtualMethods.Linker.FindImplementation` | runtime/class_linker.cc:3638-3652 | the last slot with the signature, or none |
| `VirtualMethods.Linker.FindOrMakeMiranda` | runtime/class_linker.cc:3653-3677 | the miranda made before for this signature, or a new clone when there is none |
| `VirtualMethods.Linker.LinkInterfaceMethod` | runtime/class_linker.cc:3626-3678 | the entry for one interface method: fails if and only if its implementation is concrete and not public; otherwise the implementation or the miranda of its signature |
| `VirtualMethods.Linker.LinkInterface` | runtime/class_linker.cc:3614-3680 | one interface's method array: fails if and only if an implementation is concrete and not public; every entry has its interface method's signature |
| `VirtualMethods.Linker.LinkInterfaceMethods` | runtime/class_linker.cc:3611-3716 | all interfaces: every entry is the vtable's implementation or the miranda of its signature, and each unimplemented signature has exactly one miranda however many interfaces declare it |
| `VirtualMethods.Linker.AppendMirandas` | runtime/class_linker.cc:3681-3716 | the mirandas are appended to the vtable in order with their masked indices |
| `VirtualMethods.OneForEachMissing` | runtime/class_linker.cc:3653-3677 | there are exactly as many mirandas as signatures that the interfaces ask for and the vtable does not implement |
| `VirtualMethods.IndexedUnlessTooMany` | runtime/class_linker.cc:3706-3713 | after mirandas every entry sits at its own method index if and only if the vtable before and the signatures it does not implement are at most 0x10000 together, because indices are masked to 16 bits and the length is not checked again |
| `VirtualMethods.LinkTooMany` | runtime/class_linker.cc:3681-3716 | a concrete input that fails: 0xFFFF inherited methods and two missing ones give a vtable whose last entry has index 0 |
| `VirtualMethods.EntrySitsAtIndex` | runtime/class_linker.cc:3611-3716 | with a vtable of at most 0x10000 entries every interface table entry sits in the final vtable at its own index |
| `InterfaceTables.UpwardClosed` | runtime/class_linker.cc:3502-3605 | implementing is transitive: all that an implemented interface extends is implemented |
| `InterfaceTables.ImplementedIsReached` | runtime/class_linker.cc:3502-3605 | what a class implements is what it can reach: by naming interfaces, from the class or any superclass, and following what interfaces name |
| `InterfaceTables.AlreadyThere` | runtime/class_linker.cc:3565-3589 | an interface that is already in the table has brought its super-interfaces, so skipping them loses nothing |
| `InterfaceTables.Contains` | runtime/class_linker.cc:3566-3573 | whether an interface is among the first entries |
| `InterfaceTables.AddSuperInterfaces` | runtime/class_linker.cc:3577-3591 | appends exactly the super-interfaces that are not there yet |
| `InterfaceTables.CountInterfaces` | runtime/class_linker.cc:3503-3517 | the room counted in advance |
| `InterfaceTables.RoomGrows` | runtime/class_linker.cc:3503-3517 | the counted room covers every prefix of the direct interfaces, so the index never passes it |
| `InterfaceTables.HasNonMarker` | runtime/class_linker.cc:3524-3533 | whether some inherited interface declares a method |
| `InterfaceTables.AddInterface` | runtime/class_linker.cc:3554-3592 | after one more direct interface the table is complete so far and within its share of the room |
| `InterfaceTables.Flatten` | runtime/class_linker.cc:3541-3605 | the table is filled within the counted room, or a non-interface is reported |
| `InterfaceTables.LinkInterfaces` | runtime/class_linker.cc:3502-3605 | succeeds if and only if all named interfaces are interfaces; the table lists, without repeats and with the superclass's table in front, exactly the interfaces that a path of superclasses and named interfaces leads to |
| `InterfaceTables.LinkAll` | runtime/class_linker.cc:3502-3605 | the same for every class of any hierarchy |
| `LinkFields.LinkFields` | runtime/class_linker.cc:3774-3924 | for every field list and 4-aligned start, a permutation of the fields with references first and contiguous, the rest end to end after them, every 64-bit field 8-aligned, 4 bytes wasted exactly when the references end off an 8-byte boundary and the non-empty rest is all 64-bit; the order is the sorted one but for the first 32-bit field where it fills the gap |
| `LinkFields.FieldLessOrder` | runtime/class_linker.cc:3741-3770 | the comparison is a strict weak order in which only fields of one group and name are equal |
| `LinkFields.NameLessIs` | runtime/class_linker.cc:3763-3768 | names are in dictionary order: a proper prefix comes first, else the smaller of the first characters that differ |
| `LinkFields.Kinds` | runtime/class_linker.cc:3753-3758 | references, then longs and doubles of eight bytes, then the other primitives of four, for every descriptor |
| `LinkFields.SortedUnique` | runtime/class_linker.cc:3795-3807 | when fields of one group have different names, sorting has one outcome, so the layout does not depend on the order of declaration |
| `LinkFields.PlaceReferences` | runtime/class_linker.cc:3809-3825 | the references are laid out first, 4 bytes each |
| `LinkFields.FillGap` | runtime/class_linker.cc:3827-3847 | off an 8-byte boundary the first 32-bit field fills the gap, or 4 bytes are lost; what follows is aligned |
| `LinkFields.FirstNarrow` | runtime/class_linker.cc:3831-3838 | the first field that is not 64-bit |
| `LinkFields.PlaceRest` | runtime/class_linker.cc:3849-3865 | what is left is laid out end to end with 64-bit fields aligned |
| `LinkFields.Place` | runtime/class_linker.cc:3812-3824 | one field moves from the front of those left to the next position and offset |
| `LinkFields.SlotsDisjoint` | runtime/class_linker.cc:3809-3865 | no two fields share a byte and all lie between the start and the size |
| `LinkFields.LaidOutSize` | runtime/class_linker.cc:3774-3924 | the size a layout reaches follows from the number of fields, the number of 64-bit fields and the wasted bytes |
| `LinkFields.CountFields` | runtime/class_linker.cc:1480-1492 | the static fields counted by descriptor |
| `LinkFields.SizeOfClass` | runtime/class_linker.cc:1474-1512 | the predicted size as a function of the counts |
| `LinkFields.SizePredicted` | runtime/class_linker.cc:1473-1512 | the predicted size is the size reached by any layout of any permutation of the same fields |
| `LinkFields.LinkStaticFields` | runtime/class_linker.cc:3733-3739 | the size after laying out static fields is the size allocated, so the check never fails |
| `RefOffsets.ValueInjective` | runtime/mirror/class.h:30-34 | two words of bits are equal exactly when their numbers are |
| `RefOffsets.MagicValues` | runtime/mirror/class.h:30 | the walk marker is the number 3 |
| `RefOffsets.BitValue` | runtime/mirror/class.h:50-53 | as a number, the bit of an offset is the top bit shifted right once for each word before the offset |
| `RefOffsets.ExactMagic` | runtime/mirror/class.h:24-30 | an exact bitmap equals the walk marker for one set of offsets only, 120 and 124 |
| `RefOffsets.Clz` | compiler/image_writer.cc:611-612 | the topmost set bit of a non-zero word |
| `RefOffsets.CreateReferenceOffsets` | runtime/class_linker.cc:3946-3976 | the walk marker if some offset cannot be encoded, else the exact bitmap of the inherited and own offsets |
| `RefOffsets.CreateReferenceInstanceOffsets` | runtime/class_linker.cc:3928-3940 | the marker exactly when an offset is out of reach, the superclass has the marker or the exact bitmap happens to be 3; else exact for the whole superclass chain |
| `RefOffsets.CreateReferenceStaticOffsets` | runtime/class_linker.cc:3942-3944 | the same for the class's own static references |
| `RefOffsets.LinkBitmaps` | runtime/class_linker.cc:3928-3976 | the same for every class of any hierarchy |
| `RefOffsets.Copy.FixupMarked` | compiler/image_writer.cc:609-618 | the leading-zero loop ends and rewrites exactly the offsets the bitmap encodes |
| `RefOffsets.Copy.FixupOwn` | compiler/image_writer.cc:627-638 | rewrites exactly the references of one class |
| `RefOffsets.Copy.FixupWalking` | compiler/image_writer.cc:619-640 | the walk rewrites exactly the references of the class and its superclasses, or one class's statics |
| `RefOffsets.Copy.FixupFields` | compiler/image_writer.cc:605-640 | both branches rewrite the same set, the one the walk finds, also for a bitmap that comes out at the marker by itself |
| `VerifyClass.Linker.SetStatus` | runtime/mirror/class.cc:53-73 | a status only moves forward, and Error is set once, with an exception pending |
| `VerifyClass.Linker.VerifyClassUsingOatFile` | runtime/class_linker.cc:2543-2613 | when the oat file is consulted, what status it gives and when that means preverified |
| `VerifyClass.Linker.Interfere` | runtime/class_linker.cc:2446-2472 | while this thread holds some monitors, others may move the classes it does not hold forward or to Error, keeping the order of superclasses; nothing else |
| `VerifyClass.Linker.VerifySuper` | runtime/class_linker.cc:2446-2456 | however other threads interfere, the superclass ends verified, erroneous or (compiler only) to be retried; as expected of it when they do not |
| `VerifyClass.Linker.Decide` | runtime/class_linker.cc:2473-2531 | the verdict on the class given its superclass as it is then; the check on the superclass's status fails if and only if the superclass has become erroneous and neither the oat file nor the verifier finds anything wrong with the class |
| `VerifyClass.SuperFailsMeanwhile` | runtime/class_linker.cc:2502-2509 | a concrete state that fails the check: the superclass fails its initialization after its monitor was given back |
| `VerifyClass.Linker.VerifyMarked` | runtime/class_linker.cc:2445-2531 | the rest of verification, once the class is marked as being verified |
| `VerifyClass.VerifiedInOrder` | runtime/class_linker.cc:2445-2531 | however other threads interfere, a class becomes verified below a superclass that is verified or has failed meanwhile |
| `VerifyClass.Linker.VerifyClass` | runtime/class_linker.cc:2419-2531 | whatever other threads do to classes not held: no status moves back, and the class ends verified, erroneous or (compiler only) to be retried, as its superclass was when given back and when the decision fell, unless that one check aborts; with no interference it does not, and the class ends exactly as oat files and verdicts up the superclass chain say, below a verified superclass if it becomes verified; an exception is pending if and only if it ends erroneous |
| `VerifyClass.Linker.EnsureVerified` | runtime/class_linker.cc:2986-3001 | a class that initialization goes on with is verified, and its superclass is too or has failed; otherwise the class is erroneous with an exception pending or, in the compiler only, to be retried; with no interference a class that it verifies has a verified superclass |
| `VerifyClass.Linker.VerifyAll` | runtime/class_linker.cc:2419-2531 | over any sequence of requests, with other threads verifying and initializing before and during each, every class asked for is done with unless a check aborts, no status moves back, and no class is ever verified ahead of a superclass that is not erroneous |
| `VerifyClass.ExpectedAgrees` | runtime/class_linker.cc:2446-2471 | how a class ends depends only on the classes above it |
| `VerifyClass.ErrorInherited` | runtime/class_linker.cc:2457-2471 | an erroneous superclass makes the class erroneous |
| `VerifyClass.OutcomeExpected` | runtime/class_linker.cc:2473-2531 | the decision made after the superclass is the outcome defined on the whole chain |
| `VerifyClass.EndsByItself` | runtime/class_linker.cc:2419-2613 | below a verified superclass or none: verified or rejected as a trusted oat file says; without one, a hard failure rejects, no failure verifies, and a soft one verifies at run time and is retried when compiling |
| `VerifyClass.EndsBelow` | runtime/class_linker.cc:2446-2531 | an erroneous superclass rejects the class; below one to be retried, which only the compiler leaves, the class is at best to be retried, and rejected by its oat file or a hard failure |
| `ElfStripper.SelectSections` | compiler/elf_stripper.cc:66-89 | keeps, in order, exactly the sections that are not debug sections, .strtab or .symtab, section 0 first |
| `ElfStripper.UnneededByName` | compiler/elf_stripper.cc:72-86 | by the name that the section's header points to: a section goes if and only if its name starts with .debug or is .strtab or .symtab |
| `ElfStripper.SectionHeaderFields` | compiler/elf_stripper.cc:94-111 | the fields of a section header are its words in the order of the ELF format, and setting the offset sets that word only |
| `ElfStripper.FileHeaderFields` | compiler/elf_stripper.cc:66-72 | the fields of the file header stand where the ELF format has them |
| `ElfStripper.MoveEarlier` | compiler/elf_stripper.cc:106-109 | memmove to an earlier, possibly overlapping place: the bytes as they were arrive, and nothing else changes |
| `ElfStripper.NextPlace` | compiler/elf_stripper.cc:98-100 | the first aligned place is never later than where the section is |
| `ElfStripper.PlaceSection` | compiler/elf_stripper.cc:98-111 | one section is put at the first aligned place, never later than it was, with its bytes |
| `ElfStripper.SameSection` | compiler/elf_stripper.cc:96 | a section header read while sections are being moved reads as it did at the start |
| `ElfStripper.CompactedMore` | compiler/elf_stripper.cc:94-112 | placing one more section keeps all the placed ones and everything not yet placed |
| `ElfStripper.Compact` | compiler/elf_stripper.cc:91-112 | every kept section has its bytes, is aligned, apart from the others and no later than before, and its header changed only in its offset |
| `ElfStripper.WriteTable` | compiler/elf_stripper.cc:114-117 | the new headers stand one after another |
| `ElfStripper.UpdateFileHeader` | compiler/elf_stripper.cc:119-120 | e_shoff and e_shnum are updated and no other byte |
| `ElfStripper.Strip` | compiler/elf_stripper.cc:30-127 | the truncated file holds exactly the kept sections: same bytes, same headers but for the offset, aligned, apart, none later than before, the front of the file unchanged outside the two table fields |
| `HeapChunk.DecodeRunsBack` | runtime/debugger.cc:3344-3353 | reading the runs back gives the chunks with their addresses |
| `HeapChunk.UnitsTile` | runtime/debugger.cc:3343-3346 | the units of contiguous chunks add up to the address range they cover |
| `HeapChunk.DecodeEncode` | runtime/debugger.cc:3222-3253 | a message decodes to exactly the chunks it was made from; the runs add up to the length field and lie end to end from the header's address |
| `HeapChunk.RunLength` | runtime/debugger.cc:3328-3331 | a chunk takes exactly the two bytes per started 256 units that were reserved for it |
| `HeapChunk.HeapChunkContext.constructor` | runtime/debugger.cc:3204-3214 | an empty buffer and nothing reported |
| `HeapChunk.HeapChunkContext.Reset` | runtime/debugger.cc:3264-3270 | an empty buffer |
| `HeapChunk.HeapChunkContext.EnsureHeader` | runtime/debugger.cc:3222-3238 | a new message starts with a 17-byte header, inside the buffer |
| `HeapChunk.HeapChunkContext.Flush` | runtime/debugger.cc:3240-3253 | the buffer with its length field patched is sent as the encoding of the pending chunks, and nothing reported is lost |
| `HeapChunk.HeapChunkContext.WriteRuns` | runtime/debugger.cc:3344-3353 | the runs of one chunk, inside the buffer |
| `HeapChunk.HeapChunkContext.AppendChunk` | runtime/debugger.cc:3326-3354 | a chunk joins the current message, or the next one when there is no room, or is dropped exactly when no message could hold it; the buffer is never overrun and messages stay contiguous |
| `HeapChunk.HeapChunkContext.ReportGap` | runtime/debugger.cc:3293-3311 | the free memory before an allocation is reported, or a new segment starts |
| `HeapChunk.HeapChunkContext.HeapChunkCallback` | runtime/debugger.cc:3272-3324 | one callback reports its gap and its allocation, whatever the buffer did meanwhile |
| `HeapChunk.HeapChunkContext.Close` | runtime/debugger.cc:3216-3220 | nothing is left unsent |
| `HeapChunk.WalkExplained` | runtime/debugger.cc:3272-3324 | the chunks of a walk, said without the walk: an allocation for each callback that has one, with its state, units and address, and free memory for each gap between neighbours that is short enough, native or not |
| `HeapChunk.HeapChunkContext.Walk` | runtime/debugger.cc:3216-3354 | over any sequence of callbacks the decoded messages, put together, are all chunks of the walk that fit into a message, in order and at their addresses, and each message is contiguous; a chunk is in them if and only if some callback, or the gap before one, explains it and it fits |
| `JdwpRelay.LawfulAfter` | jdwpspy/Net.cpp:417-430 | what follows whole units of a lawful stream starts with a lawful packet |
| `JdwpRelay.UnitsMaximal` | jdwpspy/Net.cpp:417-430 | with no complete unit buffered, no longer front part of the bytes read is whole units |
| `JdwpRelay.Peer.HaveFullPacket` | jdwpspy/Net.cpp:417-430 | whether a complete handshake or packet is at the front of the buffer |
| `JdwpRelay.Peer.ConsumeBytes` | jdwpspy/Net.cpp:437-450 | drops bytes from the front and keeps the rest in order |
| `JdwpRelay.Peer.Read` | jdwpspy/Net.cpp:618-640 | moves as many bytes as are offered, have come and fit from the socket to the end of the buffer |
| `JdwpRelay.HandlePacket` | jdwpspy/Net.cpp:525-549 | forwards exactly the packet at the front; breaks off if and only if the write breaks within it, with only a front part of the stream forwarded |
| `JdwpRelay.HandleIncoming` | jdwpspy/Net.cpp:554-581 | forwards exactly the handshake or packet at the front if it is complete, else nothing; fails if and only if the write breaks within it; received stays forwarded then buffered then unread |
| `JdwpRelay.NetState.ReadFrom` | jdwpspy/Net.cpp:618-666 | one read, interrupted, failed or of any size, moves exactly the bytes read and keeps both directions' invariants; it is given up if and only if it fails or a ready socket gives nothing, because the end had closed or the buffer was full before it |
| `JdwpRelay.NetState.ReadUntilFull` | jdwpspy/Net.cpp:596-667 | reads rounds until one end has a complete unit, or none is left, or one closes, judged by what was read and buffered before that round; never past the first such round; forwards nothing |
| `JdwpRelay.NetState.ProcessIncoming` | jdwpspy/Net.cpp:589-674 | one call handles, waits or closes exactly as where it starts, the rounds and the writes say; what it forwards is in order |
| `JdwpRelay.OneWay` | jdwpspy/Net.cpp:589-674 | where a call starts, the rounds and the writes decide it: if it can handle something it cannot close, and it ends in one place |
| `JdwpRelay.NoSpinning` | jdwpspy/Net.cpp:618-666 | the ready sockets that a call gets to are no more than the bytes it reads, so it never goes round on a socket at its end |
| `JdwpRelay.QuietWaits` | jdwpspy/Net.cpp:596-640 | rounds without bytes or errors, interrupted or not, leave a waiting call as it is |
| `JdwpRelay.NetState.Relay` | jdwpspy/Net.cpp:589-674 | under any chunking of reads, interruption and failure each end gets a front part of what the other sent; while the connection holds that is the handshake and whole packets, and when the relay waits it is the longest such run of the bytes read; each call starts where the one before ended, all but the last forward something, and a connection is closed only by the last call, for the last round that this call read or for a write of its own that broke within a unit |
| `AllocRing.MaskKeepsRemainder` | runtime/debugger.cc:3574-3576 | masking with a power of two less one is the remainder |
| `AllocRing.MaskWraps` | runtime/debugger.cc:3611 | masking wraps an index of the next round |
| `AllocRing.AllocTracker.constructor` | runtime/debugger.cc:3487-3498 | an empty ring |
| `AllocRing.AllocTracker.RecordAllocation` | runtime/debugger.cc:3537-3564 | the ring holds the latest records of the whole history, as many as fit |
| `AllocRing.AllocTracker.HeadIndex` | runtime/debugger.cc:3574-3576 | the slot of the oldest record kept |
| `AllocRing.AllocTracker.NextIndex` | runtime/debugger.cc:3611 | the next slot, or the first after the last |
| `AllocRing.AllocTracker.RecentAllocations` | runtime/debugger.cc:3588-3612 | for every power-of-two capacity and every history, the walk visits exactly the last min(n, capacity) records, oldest first |

## Left out

- OatWriter.OatWriter.Write: the file must end below 4 GiB, because file offsets are 32-bit and wrap beyond; the checksum of the oat header is an input, of the statistics only the sum is stated, and a failing stream is not; both would add only straight-line code.
- OatFile.Setup: a read past the end of the file, in an entry or in the header of a dex file, fails here, where the code reads first and then checks its pointer; the entries are a list, where the code keys them by location; `FindOatDexFile` and the opening of dex files are not modelled.
- OatFile.LoadsWhatWasWritten: the numbers given to the writer fit 32 bits, locations are not empty, and the dex files are ones the loader accepts, with as many class defs as the writer was told.
- OatWriter.WriteBuffered: the writer runs on a direct stream that logs its calls, and the buffered stream replays that log; the log is a list the code does not keep, and the answers to seeks that the writer compares are those of the direct run.
- OatWriter.OatWriter.InitOatCodeMethod: the debug-only check on missing GC maps and the hand-over of offsets to resolved methods do not affect the layout.
- ClassInit.NeverAborts: that a class becomes verified only below a superclass that is verified or has failed is assumed of the run, because verification is one step here; `VerifyClass.VerifiedInOrder` proves it of one thread's verification, with other threads interfering.
- ClassInit.NextKeeps: waits are assumed not to throw; `CanWeInitializeClass` and `ValidateSuperClassDescriptors` answer arbitrarily, and verification is one step here because VerifyClass.dfy models it; the static field values set before the initializer runs are not modelled.
- ClassTable.NextKeeps: `RemoveClass`, array classes, primitive classes, the hand-made roots before start-up, class circularity and loaders written in Java are not modelled; nor is the check in the compiler that a class of the boot class path can be loaded, which aborts where loading fails.
- ImageWriter.ImageWriter.CopyAndFixupObjects: entry points of methods, the image header and roots, the live bitmap, pruning and the patching of oat code are not modelled; String objects are all one size.
- VirtualMethods.Linker.LinkInterfaceMethods: the copy of the mirandas into the class's own method list is not modelled, only the vtable and the interface tables.
- InterfaceTables.LinkAll: an interface hierarchy is given with superclasses and interfaces numbered before the classes that name them, which class loading guarantees.
- LinkFields.LinkFields: the hidden `referent` field of java.lang.ref.Reference, which only lowers the count of reference fields, is not modelled.
- LinkFields.SizeOfClass: field descriptors are those the dex format allows, and the size of a Class object is where its static fields start and is a multiple of 4.
- ImageReferences.FixupByClass: that an object refers to other objects only through its class pointer and the fields its class declares is given; the elements of arrays, which are fixed one by one, are part of ImageWriter.dfy only.
- RefOffsets.Copy.FixupFields: the separate fix-up of `referent` is not modelled.
- VerifyClass.Linker.VerifyClass: a superclass is numbered before its subclasses, and at run time every class has an oat file entry; what other threads do is any forward move of classes that this thread does not hold, seen at the two moments when it holds no monitor of the superclass; callbacks into class loaders while verifying, and the preverified flag of methods, are not modelled.
- ElfStripper.Strip: section indices stored elsewhere (`e_shstrndx`, `sh_link`) are not updated by the code, and nothing is claimed about them; the sections that stay must be in order, apart, aligned and backed by the file, with the section headers last, as the linker lays them out; a failing `ftruncate` is not modelled.
- ElfStripper.Compact: the same is asked of the sections; the code does not check it, and moves sections that overlap or are out of order over one another.
- HeapChunk.HeapChunkContext.Walk: how `ExamineObject` classifies an object is an input; starts and lengths are multiples of the allocation unit.
- JdwpRelay.NetState.Relay: printing is not modelled; no packet declares fewer than 11 bytes, while one larger than the buffer closes the connection, as in the code.
- AllocRing.AllocTracker.RecordAllocation: how the stack trace is collected is not modelled, nor is the message that reports the records.
- The line table walk of single stepping, option parsing, finding and locking oat files, ELF fix-up, method resolution caching and the JNI checks are not part of this model: they are easy next to the rest, or depend on I/O.
