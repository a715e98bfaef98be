/** Reporting heap segments to a debugger as run-length encoded messages. */
module HeapChunk {
  import opened Bytes
  import opened Options

  const ALLOCATION_UNIT_SIZE := 8
  const BUFFER_SIZE := 16384 - 16
  const HEADER_SIZE := 17
  const LENGTH_FIELD := 13
  const HPSG_PARTIAL := 128
  const SOLIDITY_FREE_STATE := 0
  /** Native free memory of two pages or more is not reported. */
  const MAX_FREE_LEN := 2 * 4096
  const DL_MALLOC_OVERHEAD := 4

  // ---------- what is reported ----------

  /** A stretch of memory in one state, its length in allocation units. */
  datatype Chunk = Chunk(state: nat, ptr: nat, units: nat) {
    function End(): nat { ptr + ALLOCATION_UNIT_SIZE * units }

    ghost predicate Valid() { state < HPSG_PARTIAL && units > 0 && End() < TWO32 }

    /** The room a chunk may need: two bytes for every 256 units and a header. */
    function Needed(): nat { (units + 255) / 256 * 2 + HEADER_SIZE }
  }

  /** Chunks that follow each other in memory without gaps. */
  ghost predicate Contiguous(c: seq<Chunk>) {
    && (forall k :: 0 <= k < |c| ==> c[k].Valid())
    && forall k :: 0 < k < |c| ==> c[k - 1].End() == c[k].ptr
  }

  ghost function Units(c: seq<Chunk>): nat {
    if c == [] then 0 else Units(c[..|c| - 1]) + c[|c| - 1].units
  }

  // ---------- the encoding ----------

  /** One chunk: full partial runs, then the last run. */
  ghost function Run(state: nat, units: nat): seq<Byte>
    requires state < HPSG_PARTIAL && units > 0
  {
    if units > 256 then [state + HPSG_PARTIAL, 255] + Run(state, units - 256) else [state, units - 1]
  }

  ghost function Runs(c: seq<Chunk>): seq<Byte>
    requires Contiguous(c)
  {
    if c == [] then [] else Run(c[0].state, c[0].units) + Runs(c[1..])
  }

  /** Heap id, unit size, address of the segment and offset of this piece. */
  ghost function Head(ptr: nat): (s: seq<Byte>)
    ensures |s| == LENGTH_FIELD
  {
    Word4BE(1) + [8] + Word4BE(ptr) + Word4BE(0)
  }

  /** The message for a segment. */
  ghost function Encode(c: seq<Chunk>): seq<Byte>
    requires Contiguous(c) && c != []
  {
    Head(c[0].ptr) + Word4BE(Units(c)) + Runs(c)
  }

  // ---------- the decoding ----------

  /** Reads runs back, laying the chunks end to end from `ptr`; `open` units of the first chunk were read already. */
  function DecodeRuns(b: seq<Byte>, ptr: nat, open: nat): Option<seq<Chunk>>
    decreases |b|
  {
    if b == [] && open == 0 then Some([])
    else if |b| < 2 then None
    else
      var state: int, units: int := b[0], open + b[1] + 1;
      if state >= HPSG_PARTIAL then
        if |b| >= 4 && (b[2] == state || b[2] == state - HPSG_PARTIAL) then DecodeRuns(b[2..], ptr, units) else None
      else
        var rest := DecodeRuns(b[2..], ptr + ALLOCATION_UNIT_SIZE * units, 0);
        if rest.None? then None else Some([Chunk(state, ptr, units)] + rest.value)
  }

  /** Reads a message back; the runs must add up to the length field. */
  ghost function Decode(m: seq<Byte>): Option<seq<Chunk>> {
    if |m| < HEADER_SIZE || m[..5] != Word4BE(1) + [8] || m[9..13] != Word4BE(0) then None
    else
      var c := DecodeRuns(m[HEADER_SIZE..], Read4BE(m[5..9]), 0);
      if c.Some? && Units(c.value) == Read4BE(m[13..17]) then c else None
  }

  // ---------- round trip ----------

  lemma {:induction false} DecodeRun(state: nat, units: nat, rest: seq<Byte>, ptr: nat, open: nat)
    requires state < HPSG_PARTIAL && units > 0
    ensures DecodeRuns(Run(state, units) + rest, ptr, open) ==
      var tail := DecodeRuns(rest, ptr + ALLOCATION_UNIT_SIZE * (open + units), 0);
      if tail.None? then None else Some([Chunk(state, ptr, open + units)] + tail.value)
    decreases units
  {
    var b := Run(state, units) + rest;
    if units > 256 {
      var more := Run(state, units - 256);
      assert b[2..] == more + rest;
      assert b[2] == more[0] && |more| >= 2;
      DecodeRun(state, units - 256, rest, ptr, open + 256);
    } else {
      assert b[2..] == rest;
    }
  }

  lemma {:induction false} DecodeRunsBack(c: seq<Chunk>)
    requires Contiguous(c) && c != []
    ensures DecodeRuns(Runs(c), c[0].ptr, 0) == Some(c)
  {
    DecodeRun(c[0].state, c[0].units, Runs(c[1..]), c[0].ptr, 0);
    if |c| > 1 {
      DecodeRunsBack(c[1..]);
    }
    assert c == [c[0]] + c[1..];
  }

  lemma {:induction false} UnitsTile(c: seq<Chunk>)
    requires Contiguous(c) && c != []
    ensures c[0].ptr + ALLOCATION_UNIT_SIZE * Units(c) == c[|c| - 1].End()
  {
    if |c| > 1 {
      UnitsTile(c[..|c| - 1]);
    }
  }

  /** A message decodes to exactly the chunks it was made from, addresses included. */
  lemma DecodeEncode(c: seq<Chunk>)
    requires Contiguous(c) && c != []
    ensures Decode(Encode(c)) == Some(c)
  {
    hide Word4BE, Read4BE, DecodeRuns, Runs, Units;
    var m := Encode(c);
    UnitsTile(c);
    Word4BERoundTrip(c[0].ptr);
    Word4BERoundTrip(Units(c));
    assert m[..5] == Word4BE(1) + [8] && m[5..9] == Word4BE(c[0].ptr) && m[9..13] == Word4BE(0);
    assert m[13..17] == Word4BE(Units(c)) && m[HEADER_SIZE..] == Runs(c);
    DecodeRunsBack(c);
  }

  lemma {:induction false} RunsMore(c: seq<Chunk>, x: Chunk)
    requires Contiguous(c + [x]) && Contiguous(c) && x.Valid()
    ensures Runs(c + [x]) == Runs(c) + Run(x.state, x.units)
  {
    if c == [] {
      assert (c + [x])[1..] == [];
    } else {
      assert (c + [x])[1..] == c[1..] + [x];
      RunsMore(c[1..], x);
    }
  }

  lemma UnitsMore(c: seq<Chunk>, x: Chunk)
    ensures Units(c + [x]) == Units(c) + x.units
  {
    assert (c + [x])[..|c|] == c;
  }

  lemma {:induction false} RunLength(state: nat, units: nat)
    requires state < HPSG_PARTIAL && units > 0
    ensures |Run(state, units)| == (units + 255) / 256 * 2
  {
    if units > 256 {
      RunLength(state, units - 256);
    }
  }

  // ---------- the encoder ----------

  ghost function Flatten(s: seq<seq<Chunk>>): seq<Chunk> {
    if s == [] then [] else Flatten(s[..|s| - 1]) + s[|s| - 1]
  }

  lemma FlattenMore(s: seq<seq<Chunk>>, c: seq<Chunk>)
    ensures Flatten(s + [c]) == Flatten(s) + c
  {
    assert (s + [c])[..|s|] == s;
  }

  /** The messages are the encodings of the segments. */
  ghost predicate Sent(messages: seq<seq<Byte>>, segments: seq<seq<Chunk>>) {
    |messages| == |segments|
    && forall i :: 0 <= i < |segments| ==>
         segments[i] != [] && Contiguous(segments[i]) && messages[i] == Encode(segments[i])
  }

  /** The buffer holds the message for `c`, starting at `first`, but for its length field. */
  ghost predicate Holds(b: seq<Byte>, c: seq<Chunk>, first: nat)
    requires Contiguous(c)
  {
    |b| >= HEADER_SIZE && b[..LENGTH_FIELD] == Head(first) && b[HEADER_SIZE..] == Runs(c)
  }

  lemma HoldsMore(b: seq<Byte>, c: seq<Chunk>, first: nat, x: Chunk)
    requires Contiguous(c) && Holds(b, c, first) && x.Valid() && (c != [] ==> c[|c| - 1].End() == x.ptr)
    ensures Contiguous(c + [x]) && Holds(b + Run(x.state, x.units), c + [x], first)
  {
    RunsMore(c, x);
    var b' := b + Run(x.state, x.units);
    assert b'[..LENGTH_FIELD] == b[..LENGTH_FIELD] && b'[HEADER_SIZE..] == b[HEADER_SIZE..] + Run(x.state, x.units);
  }

  lemma HoldsNone(b: seq<Byte>, first: nat)
    ensures |b| == HEADER_SIZE && b[..LENGTH_FIELD] == Head(first) ==> Holds(b, [], first)
  {
  }

  /** The chunks that fit into a message. */
  function Transmitted(c: seq<Chunk>): seq<Chunk> {
    if c == [] then [] else Transmitted(c[..|c| - 1]) + if c[|c| - 1].Needed() <= BUFFER_SIZE then [c[|c| - 1]] else []
  }

  lemma TransmittedOne(x: Chunk)
    ensures Transmitted([x]) == if x.Needed() <= BUFFER_SIZE then [x] else []
  {
    assert [x][..0] == [];
  }

  class HeapChunkContext {
    const buf: array<Byte>
    var p: nat
    var pieceLenField: Option<nat>
    /** 0 is the null pointer. */
    var startOfNextMemoryChunk: nat
    var totalAllocationUnits: nat
    var needHeader: bool
    const native: bool
    /** The messages handed to the debugger. */
    var sent: seq<seq<Byte>>

    /** The chunks in the buffer, and those in each message. */
    ghost var pending: seq<Chunk>
    ghost var segments: seq<seq<Chunk>>

    ghost predicate Valid()
      reads `p, `pieceLenField, `totalAllocationUnits, `needHeader, `sent, `pending, `segments, buf
    {
      && p <= buf.Length == BUFFER_SIZE && Contiguous(pending) && Sent(sent, segments)
      && totalAllocationUnits == Units(pending)
      && if pending == [] then p == 0 && needHeader && pieceLenField == None
         else !needHeader && pieceLenField == Some(LENGTH_FIELD) && Holds(buf[..p], pending, pending[0].ptr)
    }

    /** Everything reported so far, sent or still in the buffer. */
    ghost function Reported(): seq<Chunk>
      reads `segments, `pending
    {
      Flatten(segments) + pending
    }

    constructor (native: bool)
      ensures Valid() && fresh(buf) && this.native == native && Reported() == [] && startOfNextMemoryChunk == 0
    {
      buf := new Byte[BUFFER_SIZE](_ => 0);
      this.native := native;
      sent, segments := [], [];
      p, startOfNextMemoryChunk, totalAllocationUnits := 0, 0, 0;
      needHeader, pieceLenField, pending := true, None, [];
    }

    method Reset()
      modifies this
      ensures p == 0 && startOfNextMemoryChunk == 0 && totalAllocationUnits == 0 && needHeader && pieceLenField == None
      ensures pending == [] && sent == old(sent) && segments == old(segments)
    {
      p := 0;
      startOfNextMemoryChunk := 0;
      totalAllocationUnits := 0;
      needHeader := true;
      pieceLenField := None;
      pending := [];
    }

    method Put(x: Byte)
      requires p < buf.Length
      modifies `p, buf
      ensures p == old(p) + 1 && buf[..p] == old(buf[..p]) + [x]
    {
      buf[p] := x;
      p := p + 1;
    }

    method Write4BE(x: nat)
      requires p + 4 <= buf.Length
      modifies `p, buf
      ensures p == old(p) + 4 && buf[..p] == old(buf[..p]) + Word4BE(x)
    {
      Put(x / 16777216 % 256);
      Put(x / 65536 % 256);
      Put(x / 256 % 256);
      Put(x % 256);
    }

    method Set4BE(at: nat, x: nat)
      requires at + 4 <= p <= buf.Length
      modifies buf
      ensures buf[..p] == old(buf[..at]) + Word4BE(x) + old(buf[at + 4..p])
    {
      buf[at] := x / 16777216 % 256;
      buf[at + 1] := x / 65536 % 256;
      buf[at + 2] := x / 256 % 256;
      buf[at + 3] := x % 256;
    }

    /** Starts a message, with a length field to be filled in later. */
    method EnsureHeader(ptr: nat)
      requires p + HEADER_SIZE <= buf.Length || !needHeader
      requires needHeader ==> p == 0
      modifies `p, `pieceLenField, `needHeader, buf
      ensures !needHeader
      ensures if old(needHeader) then
                p == HEADER_SIZE && pieceLenField == Some(LENGTH_FIELD) && buf[..LENGTH_FIELD] == Head(ptr)
              else p == old(p) && pieceLenField == old(pieceLenField) && buf[..] == old(buf[..])
    {
      if !needHeader {
        return;
      }
      hide Word4BE;
      Write4BE(1);
      Put(8);
      Write4BE(ptr);
      Write4BE(0);
      ghost var head := buf[..p];
      pieceLenField := Some(p);
      Write4BE(0x55555555);
      assert buf[..LENGTH_FIELD] == buf[..p][..LENGTH_FIELD] == head;
      needHeader := false;
    }

    /** Sends what the buffer holds, with its length. */
    method Flush()
      requires Valid()
      modifies this, buf
      ensures Valid() && pending == [] && Reported() == old(Reported())
      ensures startOfNextMemoryChunk == if old(pending) == [] then old(startOfNextMemoryChunk) else 0
    {
      if pieceLenField.None? {
        assert needHeader;
        return;
      }
      assert pieceLenField.value <= p;
      ghost var before := buf[..p];
      Set4BE(pieceLenField.value, totalAllocationUnits);
      assert buf[..p] == Encode(pending);
      sent, segments := sent + [buf[..p]], segments + [pending];
      FlattenMore(old(segments), old(pending));
      Reset();
    }

    /** Two bytes for every 256 allocation units or part of them. */
    method WriteRuns(state: nat, units: nat)
      requires state < HPSG_PARTIAL && units > 0 && p + |Run(state, units)| <= buf.Length
      modifies `p, buf
      ensures p == old(p) + |Run(state, units)| && buf[..p] == old(buf[..p]) + Run(state, units)
    {
      var length := units;
      ghost var all := buf[..p] + Run(state, units);
      while length > 256
        invariant 0 < length && p <= buf.Length && buf[..p] + Run(state, length) == all && |all| <= buf.Length
      {
        ghost var before := buf[..p];
        Put(state + HPSG_PARTIAL);
        Put(255);
        assert buf[..p] == before + [state + HPSG_PARTIAL, 255];
        assert before + Run(state, length) == before + [state + HPSG_PARTIAL, 255] + Run(state, length - 256);
        length := length - 256;
      }
      Put(state);
      Put(length - 1);
    }

    /**
     * Adds a chunk to the current message, sending the message first when there is no room, or
     * drops it if no message could hold it.
     */
    method AppendChunk(state: nat, ptr: nat, length: nat)
      requires Valid() && state < HPSG_PARTIAL && ptr + length < TWO32
      requires length > 0 && length % ALLOCATION_UNIT_SIZE == 0
      requires pending != [] ==> ptr == pending[|pending| - 1].End()
      modifies this, buf
      ensures Valid()
      ensures var x := Chunk(state, ptr, length / ALLOCATION_UNIT_SIZE);
        && Reported() == old(Reported()) + Transmitted([x])
        && if x.Needed() <= BUFFER_SIZE then pending != [] && pending[|pending| - 1] == x else pending == []
    {
      hide Flatten, Sent, Runs, Run, Head, Word4BE, Holds, Units, Transmitted;
      ghost var x := Chunk(state, ptr, length / ALLOCATION_UNIT_SIZE);
      var needed := (length / ALLOCATION_UNIT_SIZE + 255) / 256 * 2 + HEADER_SIZE;
      if buf.Length - p < needed {
        Flush();
      }
      TransmittedOne(x);
      if buf.Length - p < needed {
        return;
      }
      ghost var first := if pending == [] then ptr else pending[0].ptr;
      EnsureHeader(ptr);
      assert Holds(buf[..p], pending, first) by { HoldsNone(buf[..p], ptr); }
      var units := length / ALLOCATION_UNIT_SIZE;
      totalAllocationUnits := totalAllocationUnits + units;
      RunLength(state, units);
      ghost var before := buf[..p];
      WriteRuns(state, units);
      HoldsMore(before, pending, first, x);
      UnitsMore(pending, x);
      pending := pending + [x];
    }

    /** Between callbacks the segment in the buffer, if any, reaches up to where the next chunk may start. */
    ghost predicate Ready()
      reads this, buf
    {
      && Valid() && startOfNextMemoryChunk % ALLOCATION_UNIT_SIZE == 0 && startOfNextMemoryChunk < TWO32
      && (pending != [] ==> startOfNextMemoryChunk == pending[|pending| - 1].End() != 0)
    }

    /** Reports the free memory before `start`, or starts a new segment there. */
    method ReportGap(start: nat)
      requires Ready() && startOfNextMemoryChunk != 0 && start % ALLOCATION_UNIT_SIZE == 0 && start < TWO32
      modifies this, buf
      ensures Valid() && (pending != [] ==> pending[|pending| - 1].End() == start)
      ensures Reported() == old(Reported()) + Transmitted(Gap(native, old(startOfNextMemoryChunk), start))
    {
      hide Valid, Reported, Transmitted, Chunk.Needed;
      TransmittedNone();
      var flush := true;
      if start > startOfNextMemoryChunk {
        var freeStart := startOfNextMemoryChunk;
        var freeLen := start - freeStart;
        if !native || freeLen < MAX_FREE_LEN {
          AppendChunk(SOLIDITY_FREE_STATE, freeStart, freeLen);
          flush := false;
        }
      }
      if flush {
        startOfNextMemoryChunk := 0;
        Flush();
      }
    }

    /** Called for each allocation of a heap walk, and with a null start at the start of a heap. */
    method HeapChunkCallback(cb: Callback)
      requires Ready() && cb.Valid()
      modifies this, buf
      ensures Ready() && startOfNextMemoryChunk == Next(old(startOfNextMemoryChunk), cb)
      ensures Reported() == old(Reported()) + Transmitted(Chunks(native, old(startOfNextMemoryChunk), cb))
    {
      hide Valid, Reported, Transmitted, Chunk.Needed, Gap;
      var start, usedBytes := cb.start, cb.used;
      TransmittedNone();
      if usedBytes == 0 {
        if start == 0 {
          startOfNextMemoryChunk := 0;
          Flush();
        }
        return;
      }
      ghost var gap := Gap(native, startOfNextMemoryChunk, start);
      NoGap(native, start);
      if startOfNextMemoryChunk != 0 {
        ReportGap(start);
      }
      var length := usedBytes + DL_MALLOC_OVERHEAD;
      TransmittedBoth(gap, [Chunk(cb.state, start, length / ALLOCATION_UNIT_SIZE)]);
      AppendChunk(cb.state, start, length);
      startOfNextMemoryChunk := start + length;
    }

    /** Sends what is left when the walk is over. */
    method Close()
      requires Ready()
      modifies this, buf
      ensures Valid() && pending == [] && Reported() == old(Reported())
    {
      if p > 0 {
        Flush();
      }
    }

    /**
     * A whole walk. What the debugger reads back from the messages, put together, is every chunk of
     * the walk that fits into a message, in order, at its address; within a message there are no gaps.
     */
    method Walk(callbacks: seq<Callback>) returns (ghost read: seq<seq<Chunk>>)
      requires Ready() && Reported() == [] && startOfNextMemoryChunk == 0
      requires forall i :: 0 <= i < |callbacks| ==> callbacks[i].Valid()
      modifies this, buf
      ensures |read| == |sent| && forall i :: 0 <= i < |read| ==>
        Contiguous(read[i]) && Decode(sent[i]) == Some(read[i])
      ensures Flatten(read) == Transmitted(AllChunks(native, callbacks))
      ensures forall x :: x in Flatten(read) <==> Explained(native, callbacks, x) && x.Needed() <= BUFFER_SIZE
    {
      hide Flatten, Transmitted, Chunks, Contiguous, Decode, Encode, Units, Holds;
      TransmittedNone();
      for i := 0 to |callbacks|
        invariant Ready() && startOfNextMemoryChunk == AllNext(callbacks[..i])
        invariant Reported() == Transmitted(AllChunks(native, callbacks[..i]))
      {
        assert callbacks[..i + 1][..i] == callbacks[..i];
        TransmittedBoth(AllChunks(native, callbacks[..i]), Chunks(native, AllNext(callbacks[..i]), callbacks[i]));
        HeapChunkCallback(callbacks[i]);
      }
      assert callbacks[..|callbacks|] == callbacks;
      Close();
      read := segments;
      forall i | 0 <= i < |read| ensures Decode(sent[i]) == Some(read[i]) {
        DecodeEncode(read[i]);
      }
      forall x ensures x in Flatten(read) <==> Explained(native, callbacks, x) && x.Needed() <= BUFFER_SIZE {
        ReadIsExplained(native, callbacks, x);
      }
    }
  }

  ghost function AllNext(callbacks: seq<Callback>): nat {
    if callbacks == [] then 0 else Next(AllNext(callbacks[..|callbacks| - 1]), callbacks[|callbacks| - 1])
  }

  /** Everything a walk reports, with no message boundaries. */
  ghost function AllChunks(native: bool, callbacks: seq<Callback>): seq<Chunk> {
    if callbacks == [] then []
    else
      var n := |callbacks| - 1;
      AllChunks(native, callbacks[..n]) + Chunks(native, AllNext(callbacks[..n]), callbacks[n])
  }

  /** One call of the heap walk: where, how many bytes are used, and the state of the object there. */
  datatype Callback = Callback(start: nat, used: nat, state: nat) {
    /** Allocations start at, and with the overhead of the allocator extend over, whole allocation units. */
    ghost predicate Valid() {
      used > 0 ==>
        && start % ALLOCATION_UNIT_SIZE == 0 && (used + DL_MALLOC_OVERHEAD) % ALLOCATION_UNIT_SIZE == 0
        && start + used + DL_MALLOC_OVERHEAD < TWO32 && state < HPSG_PARTIAL
    }
  }

  /** Where the memory after this call's allocation starts; 0 if that is not known. */
  function Next(next: nat, cb: Callback): nat {
    if cb.used > 0 then cb.start + cb.used + DL_MALLOC_OVERHEAD else if cb.start == 0 then 0 else next
  }

  /** The free memory between two allocations, unless it is a large native gap. */
  function Gap(native: bool, next: nat, start: nat): seq<Chunk> {
    if next != 0 && next < start && (!native || start - next < MAX_FREE_LEN)
    then [Chunk(SOLIDITY_FREE_STATE, next, (start - next) / ALLOCATION_UNIT_SIZE)] else []
  }

  lemma NoGap(native: bool, start: nat)
    ensures Gap(native, 0, start) == []
  {
  }

  /** What one call reports: the free memory before the allocation, and the allocation. */
  function Chunks(native: bool, next: nat, cb: Callback): seq<Chunk> {
    if cb.used == 0 then []
    else
      Gap(native, next, cb.start)
      + [Chunk(cb.state, cb.start, (cb.used + DL_MALLOC_OVERHEAD) / ALLOCATION_UNIT_SIZE)]
  }

  lemma TransmittedNone()
    ensures Transmitted([]) == []
  {
  }

  lemma {:induction false} TransmittedBoth(a: seq<Chunk>, b: seq<Chunk>)
    ensures Transmitted(a + b) == Transmitted(a) + Transmitted(b)
  {
    if b == [] {
      assert a + b == a;
    } else {
      var n := |b| - 1;
      TransmittedBoth(a, b[..n]);
      assert (a + b)[..|a + b| - 1] == a + b[..n];
    }
  }

  // ---------- what a walk reports, from its callbacks ----------

  /** Where the allocation of a callback ends. */
  function EndOf(cb: Callback): nat { cb.start + cb.used + DL_MALLOC_OVERHEAD }

  /** Callback `i` is the last allocation before `j`, in the same heap. */
  ghost predicate Before(cbs: seq<Callback>, i: nat, j: nat) {
    && i < j <= |cbs| && cbs[i].used > 0
    && forall m :: i < m < j ==> cbs[m].used == 0 && cbs[m].start != 0
  }

  /** `x` is the allocation of callback `i`: all of it, in the state of the object there. */
  predicate AllocationOf(cbs: seq<Callback>, i: nat, x: Chunk) {
    i < |cbs| && cbs[i].used > 0 && x.state == cbs[i].state && x.ptr == cbs[i].start && x.End() == EndOf(cbs[i])
  }

  /** `x` is the free memory between allocation `i` and the next one, `j`, unless it is native and large. */
  ghost predicate GapOf(native: bool, cbs: seq<Callback>, i: nat, j: nat, x: Chunk) {
    && j < |cbs| && Before(cbs, i, j) && cbs[j].used > 0
    && x.state == SOLIDITY_FREE_STATE && x.ptr == EndOf(cbs[i]) < cbs[j].start == x.End()
    && (native ==> cbs[j].start - EndOf(cbs[i]) < MAX_FREE_LEN)
  }

  /** One of the first `n` callbacks accounts for `x`. */
  ghost predicate ExplainedBy(native: bool, cbs: seq<Callback>, n: nat, x: Chunk) {
    exists j: nat :: j < n && AccountsFor(native, cbs, j, x)
  }

  ghost predicate AccountsFor(native: bool, cbs: seq<Callback>, j: nat, x: Chunk) {
    AllocationOf(cbs, j, x) || exists i: nat :: GapOf(native, cbs, i, j, x)
  }

  ghost predicate Explained(native: bool, cbs: seq<Callback>, x: Chunk) {
    ExplainedBy(native, cbs, |cbs|, x)
  }

  ghost predicate AllValid(cbs: seq<Callback>) {
    forall i :: 0 <= i < |cbs| ==> cbs[i].Valid()
  }

  /** The walk remembers where the last allocation of the heap ended. */
  lemma {:induction false} NextIsEnd(cbs: seq<Callback>, j: nat) returns (i: nat)
    requires j <= |cbs|
    ensures AllNext(cbs[..j]) != 0 ==> Before(cbs, i, j) && AllNext(cbs[..j]) == EndOf(cbs[i])
    ensures AllNext(cbs[..j]) == 0 ==> forall k: nat :: !Before(cbs, k, j)
  {
    i := 0;
    if j > 0 {
      i := NextIsEnd(cbs, j - 1);
      assert cbs[..j][..j - 1] == cbs[..j - 1];
      if cbs[j - 1].used > 0 {
        i := j - 1;
      } else if cbs[j - 1].start != 0 {
        forall k: nat ensures Before(cbs, k, j) ==> Before(cbs, k, j - 1) {
        }
      }
    }
  }

  lemma BeforeOnce(cbs: seq<Callback>, i: nat, k: nat, j: nat)
    requires Before(cbs, i, j) && Before(cbs, k, j)
    ensures i == k
  {
  }

  /** What the call for callback `j` reports is its allocation and the gap before it. */
  lemma CallExplained(native: bool, cbs: seq<Callback>, j: nat, x: Chunk)
    requires j < |cbs| && AllValid(cbs)
    ensures x in Chunks(native, AllNext(cbs[..j]), cbs[j]) <==> AccountsFor(native, cbs, j, x)
  {
    var next := AllNext(cbs[..j]);
    var i := NextIsEnd(cbs, j);
    if cbs[j].used > 0 {
      GapExplained(native, cbs, i, j, x);
      assert cbs[j].Valid();
      EndAligned(cbs[j]);
      UnitsBetween(cbs[j].start, EndOf(cbs[j]), x);
      hide Gap, GapOf, Before;
    }
  }

  lemma GapExplained(native: bool, cbs: seq<Callback>, i: nat, j: nat, x: Chunk)
    requires j < |cbs| && AllValid(cbs) && cbs[j].used > 0
    requires AllNext(cbs[..j]) != 0 ==> Before(cbs, i, j) && AllNext(cbs[..j]) == EndOf(cbs[i])
    requires AllNext(cbs[..j]) == 0 ==> forall k: nat :: !Before(cbs, k, j)
    ensures x in Gap(native, AllNext(cbs[..j]), cbs[j].start) <==> exists k: nat :: GapOf(native, cbs, k, j, x)
  {
    var next := AllNext(cbs[..j]);
    if next != 0 {
      assert cbs[i].Valid() && cbs[j].Valid();
      EndAligned(cbs[i]);
      UnitsBetween(next, cbs[j].start, x);
      forall k: nat | Before(cbs, k, j) ensures k == i {
        BeforeOnce(cbs, i, k, j);
      }
      hide Before;
      assert x in Gap(native, next, cbs[j].start) ==> GapOf(native, cbs, i, j, x);
    }
  }

  lemma EndAligned(cb: Callback)
    requires cb.Valid() && cb.used > 0
    ensures EndOf(cb) % ALLOCATION_UNIT_SIZE == 0
  {
  }

  lemma UnitsBetween(from: nat, to: nat, x: Chunk)
    requires from % ALLOCATION_UNIT_SIZE == 0 && to % ALLOCATION_UNIT_SIZE == 0
    ensures from <= to && x.ptr == from ==> (x.End() == to <==> x.units == (to - from) / ALLOCATION_UNIT_SIZE)
  {
  }

  /** A walk reports exactly its allocations and the gaps between them. */
  lemma {:induction false} WalkExplained(native: bool, cbs: seq<Callback>, n: nat, x: Chunk)
    requires n <= |cbs| && AllValid(cbs)
    ensures x in AllChunks(native, cbs[..n]) <==> ExplainedBy(native, cbs, n, x)
  {
    if n > 0 {
      WalkExplained(native, cbs, n - 1, x);
      CallExplained(native, cbs, n - 1, x);
      assert cbs[..n][..n - 1] == cbs[..n - 1];
      hide AccountsFor, Chunks;
    }
  }

  lemma ReadIsExplained(native: bool, cbs: seq<Callback>, x: Chunk)
    requires AllValid(cbs)
    ensures x in Transmitted(AllChunks(native, cbs)) <==> Explained(native, cbs, x) && x.Needed() <= BUFFER_SIZE
  {
    hide ExplainedBy, AllChunks, Transmitted;
    TransmittedIn(AllChunks(native, cbs), x);
    WalkExplained(native, cbs, |cbs|, x);
    assert cbs[..|cbs|] == cbs;
  }

  lemma {:induction false} TransmittedIn(c: seq<Chunk>, x: Chunk)
    ensures x in Transmitted(c) <==> x in c && x.Needed() <= BUFFER_SIZE
  {
    if c != [] {
      var n := |c| - 1;
      TransmittedIn(c[..n], x);
      assert c == c[..n] + [c[n]];
    }
  }
}
