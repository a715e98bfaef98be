/** The vector-backed output stream and the buffering wrapper around it. */
module Streams {
  import opened Bytes

  datatype Whence = SeekSet | SeekCurrent | SeekEnd

  function Zeros(n: nat): (z: seq<Byte>)
    ensures |z| == n
  {
    seq(n, i => 0)
  }

  function Extend(v: seq<Byte>, n: nat): (r: seq<Byte>)
    ensures v <= r && |r| == if n > |v| then n else |v|
  {
    if n > |v| then v + Zeros(n - |v|) else v
  }

  function Splice(v: seq<Byte>, p: nat, d: seq<Byte>): (r: seq<Byte>)
    requires p <= |v|
    ensures |r| == if p + |d| > |v| then p + |d| else |v|
    ensures r[..p + |d|] == v[..p] + d
  {
    v[..p] + d + (if p + |d| < |v| then v[p + |d|..] else [])
  }

  /** A stream's observable state: the bytes so far and the position. */
  datatype Sink = Sink(vec: seq<Byte>, pos: nat) {
    ghost predicate Valid() { pos <= |vec| }
  }

  datatype Op = Write(data: seq<Byte>) | Seek(offset: int, whence: Whence)

  function Target(s: Sink, offset: int, whence: Whence): int {
    match whence
    case SeekSet => offset
    case SeekCurrent => s.pos + offset
    case SeekEnd => |s.vec| + offset
  }

  /** A seek before the start of the vector would be followed by writes outside it. */
  ghost predicate Legal(s: Sink, op: Op) {
    op.Seek? ==> Target(s, op.offset, op.whence) >= 0
  }

  /** What the unbuffered stream does for one operation. */
  function Direct(s: Sink, op: Op): (t: Sink)
    requires s.Valid() && Legal(s, op)
    ensures t.Valid()
  {
    match op
    case Write(d) => Sink(Splice(s.vec, s.pos, d), s.pos + |d|)
    case Seek(o, w) => Sink(Extend(s.vec, Target(s, o, w)), Target(s, o, w))
  }

  ghost predicate LegalRun(s: Sink, ops: seq<Op>)
    requires s.Valid()
    decreases |ops|
  {
    ops != [] ==> Legal(s, ops[0]) && LegalRun(Direct(s, ops[0]), ops[1..])
  }

  ghost function DirectRun(s: Sink, ops: seq<Op>): (t: Sink)
    requires s.Valid() && LegalRun(s, ops)
    ensures t.Valid()
    decreases |ops|
  {
    if ops == [] then s else DirectRun(Direct(s, ops[0]), ops[1..])
  }

  /** A run of `log` from `origin` leads to `now`. */
  ghost predicate Leads(origin: Sink, log: seq<Op>, now: Sink) {
    origin.Valid() && LegalRun(origin, log) && DirectRun(origin, log) == now
  }

  lemma {:induction false} LeadsOn(origin: Sink, log: seq<Op>, now: Sink, op: Op)
    requires Leads(origin, log, now) && now.Valid() && Legal(now, op)
    ensures Leads(origin, log + [op], Direct(now, op))
    decreases |log|
  {
    if log == [] {
      assert (log + [op])[1..] == [];
    } else {
      LeadsOn(Direct(origin, log[0]), log[1..], now, op);
      assert (log + [op])[1..] == log[1..] + [op];
    }
  }

  /** Two writes in a row are one write of the concatenation. */
  lemma WritesFuse(s: Sink, a: seq<Byte>, b: seq<Byte>)
    requires s.Valid()
    ensures Direct(Direct(s, Write(a)), Write(b)) == Direct(s, Write(a + b))
  {
    var t := Direct(s, Write(a));
    assert t.vec[..t.pos] == s.vec[..s.pos] + a;
    var u, v := Splice(t.vec, t.pos, b), Splice(s.vec, s.pos, a + b);
    assert u[..s.pos + |a| + |b|] == v[..s.pos + |a| + |b|];
    assert u[s.pos + |a| + |b|..] == v[s.pos + |a| + |b|..];
    assert u == u[..s.pos + |a| + |b|] + u[s.pos + |a| + |b|..];
    assert v == v[..s.pos + |a| + |b|] + v[s.pos + |a| + |b|..];
  }

  lemma EmptyWrite(s: Sink)
    requires s.Valid()
    ensures Direct(s, Write([])) == s
  {
    assert s.vec[..s.pos] + [] + s.vec[s.pos..] == s.vec;
  }

  /** Byte by byte: a write changes the bytes it covers and no others. */
  lemma WriteBytes(s: Sink, d: seq<Byte>, i: nat)
    requires s.Valid()
    ensures var t := Direct(s, Write(d));
      && t.pos == s.pos + |d| && (i < |t.vec| <==> i < |s.vec| || i < s.pos + |d|)
      && (i < |t.vec| ==> t.vec[i] == if s.pos <= i < s.pos + |d| then d[i - s.pos] else s.vec[i])
  {
    var t := Direct(s, Write(d));
    if s.pos + |d| <= i < |t.vec| {
      assert t.vec == (s.vec[..s.pos] + d) + s.vec[s.pos + |d|..];
    }
  }

  /** Byte by byte: a seek changes no byte, and what it adds to reach its place is zero. */
  lemma SeekBytes(s: Sink, o: int, whence: Whence, i: nat)
    requires s.Valid() && Legal(s, Seek(o, whence))
    ensures var t := Direct(s, Seek(o, whence));
      && (i < |t.vec| <==> i < |s.vec| || i < t.pos)
      && (i < |t.vec| ==> t.vec[i] == if i < |s.vec| then s.vec[i] else 0)
  {
  }

  /** Seeks are relative to the start, to the position or to the end, and there and back is no move. */
  lemma SeekPlaces(s: Sink, o: nat, d: int)
    requires s.Valid() && o + d >= 0
    ensures var there := Direct(s, Seek(o, SeekSet));
      && there.pos == o && Direct(there, Seek(d, SeekCurrent)).pos == o + d
      && Direct(there, Seek(0 - o, SeekCurrent)).pos == 0
    ensures Direct(s, Seek(0, SeekCurrent)) == s
    ensures Direct(s, Seek(0, SeekEnd)) == Sink(s.vec, |s.vec|)
    ensures Direct(s, Seek(-|s.vec|, SeekEnd)) == Sink(s.vec, 0)
    ensures Direct(s, Seek(o, SeekEnd)).pos == |s.vec| + o
  {
  }

  class VectorOutputStream {
    var vec: seq<Byte>
    var pos: nat
    /** Where the stream started. */
    ghost var origin: Sink
    /** The calls made on the stream so far. The code keeps no such list; here it can be replayed on another stream. */
    var log: seq<Op>

    ghost predicate Valid() reads `vec, `pos { pos <= |vec| }

    /** The log is what led here. */
    ghost predicate Logged() reads this { Leads(origin, log, State()) }

    ghost function State(): Sink reads `vec, `pos { Sink(vec, pos) }

    /** Everything before the position: later writes never touch it. */
    ghost function Written(): seq<Byte>
      requires Valid()
      reads `vec, `pos
    {
      vec[..pos]
    }

    constructor (v: seq<Byte>)
      ensures Valid() && vec == v && pos == |v| && Logged() && log == [] && origin == State()
    {
      vec, pos := v, |v|;
      origin, log := Sink(v, |v|), [];
    }

    method EnsureCapacity(newOffset: nat)
      modifies this`vec
      ensures vec == Extend(old(vec), newOffset)
    {
      if newOffset > |vec| {
        vec := vec + Zeros(newOffset - |vec|);
      }
    }

    method WriteFully(data: seq<Byte>) returns (ok: bool)
      requires Valid()
      modifies this
      ensures Valid() && ok
      ensures State() == Direct(old(State()), Write(data))
      ensures Written() == old(Written()) + data
      ensures origin == old(origin) && log == old(log) + [Write(data)] && (old(Logged()) ==> Logged())
    {
      hide Leads;
      ghost var before := State();
      if pos == |vec| {
        vec := vec + data;
        pos := pos + |data|;
      } else {
        var newOffset := pos + |data|;
        EnsureCapacity(newOffset);
        vec := vec[..pos] + data + vec[newOffset..];
        pos := newOffset;
      }
      assert vec == Splice(before.vec, before.pos, data);
      if old(Logged()) {
        LeadsOn(origin, log, before, Write(data));
      }
      log := log + [Write(data)];
      ok := true;
    }

    method Seek(offset: int, whence: Whence) returns (p: nat)
      requires Valid() && Legal(State(), Op.Seek(offset, whence))
      modifies this
      ensures Valid() && p == pos == Target(old(State()), offset, whence)
      ensures State() == Direct(old(State()), Op.Seek(offset, whence))
      ensures p >= old(pos) ==> old(Written()) <= Written() && |Written()| == p
      ensures origin == old(origin) && log == old(log) + [Op.Seek(offset, whence)] && (old(Logged()) ==> Logged())
    {
      hide Leads;
      if old(Logged()) {
        LeadsOn(origin, log, State(), Op.Seek(offset, whence));
      }
      var newOffset := Target(Sink(vec, pos), offset, whence);
      EnsureCapacity(newOffset);
      pos := newOffset;
      p := pos;
      log := log + [Op.Seek(offset, whence)];
    }
  }

  const BUFFER_SIZE: nat := 8 * 1024

  class BufferedOutputStream {
    const out: VectorOutputStream
    const buffer: array<Byte>
    var used: nat

    ghost predicate Valid()
      reads this, out, buffer
    {
      out.Valid() && buffer.Length == BUFFER_SIZE && used <= BUFFER_SIZE
    }

    ghost function Pending(): seq<Byte>
      requires Valid()
      reads this, out, buffer
    {
      buffer[..used]
    }

    /** The stream a reader of the unbuffered run would see: the sink with the pending bytes applied. */
    ghost function View(): Sink
      requires Valid()
      reads this, out, buffer
    {
      Direct(out.State(), Write(Pending()))
    }

    constructor (out: VectorOutputStream)
      requires out.Valid()
      ensures Valid() && fresh(buffer) && this.out == out && used == 0
      ensures View() == out.State()
    {
      this.out := out;
      this.buffer := new Byte[BUFFER_SIZE](i => 0);
      used := 0;
      new;
      EmptyWrite(out.State());
    }

    method Flush() returns (success: bool)
      requires Valid()
      modifies this`used, out
      ensures Valid() && success && used == 0
      ensures View() == old(View()) == out.State()
    {
      success := true;
      EmptyWrite(out.State());
      if used > 0 {
        success := out.WriteFully(buffer[..used]);
        used := 0;
      }
      EmptyWrite(out.State());
    }

    method WriteFully(data: seq<Byte>) returns (ok: bool)
      requires Valid()
      modifies this`used, out, buffer
      ensures Valid() && ok
      ensures View() == Direct(old(View()), Write(data))
      ensures used == Fill(old(used), Write(data))
      ensures |data| > BUFFER_SIZE ==> out.State() == View()
      ensures |data| <= BUFFER_SIZE ==>
        out.State() == if old(used) + |data| > BUFFER_SIZE then old(View()) else old(out.State())
    {
      if |data| > BUFFER_SIZE {
        var _ := Flush();
        ok := out.WriteFully(data);
        EmptyWrite(out.State());
        return;
      }
      if used + |data| > BUFFER_SIZE {
        var success := Flush();
        if !success {
          return false;
        }
      }
      ghost var before := buffer[..used];
      forall i | 0 <= i < |data| {
        buffer[used + i] := data[i];
      }
      used := used + |data|;
      assert buffer[..used] == before + data;
      WritesFuse(out.State(), before, data);
      ok := true;
    }

    /** Every seek empties the buffer, so nothing is left for the destructor to drop. */
    method Seek(offset: int, whence: Whence) returns (p: int)
      requires Valid() && Legal(View(), Op.Seek(offset, whence))
      modifies this`used, out
      ensures Valid() && used == 0
      ensures View() == Direct(old(View()), Op.Seek(offset, whence)) == out.State()
      ensures p == View().pos
    {
      var ok := Flush();
      if !ok {
        return -1;
      }
      p := out.Seek(offset, whence);
      EmptyWrite(out.State());
    }

    /**
     * Buffering refines the direct stream over whole runs. The sink alone, which is all the
     * non-flushing destructor leaves, has had exactly the operations up to `Reached(ops)`; the other
     * operations are writes of `Left(ops)` bytes together, and those bytes are what is lost.
     */
    method Run(ops: seq<Op>)
      requires Valid() && LegalRun(View(), ops)
      modifies this`used, out, buffer
      ensures Valid()
      ensures View() == DirectRun(old(View()), ops)
      ensures ops != [] && ops[|ops| - 1].Seek? ==> used == 0 && out.State() == View()
      ensures old(used) == 0 ==> used == Left(ops) && Leads(old(View()), ops[..Reached(ops)], out.State())
      ensures old(used) == 0 ==> Pending() == Data(ops[Reached(ops)..])
      ensures old(used) == 0 ==> (out.State() == DirectRun(old(View()), ops) <==> Left(ops) == 0)
    {
      hide Leads, LegalRun, DirectRun, Left, Reached, Fill, Data;
      ghost var origin, empty := View(), used == 0;
      NoOps(origin);
      EmptyWrite(out.State());
      for i := 0 to |ops|
        invariant Valid() && Leads(origin, ops[..i], View())
        invariant i > 0 && ops[i - 1].Seek? ==> used == 0 && out.State() == View()
        invariant empty ==> used == Left(ops[..i]) && Leads(origin, ops[..Reached(ops[..i])], out.State())
      {
        LegalNext(origin, ops, i);
        LeadsTo(origin, ops[..i], View());
        LeadsOn(origin, ops[..i], View(), ops[i]);
        assert ops[..i + 1] == ops[..i] + [ops[i]];
        ReachedNext(ops, i);
        Apply(ops[i]);
      }
      assert ops[..|ops|] == ops;
      LeadsTo(origin, ops, View());
      if empty {
        SinkLacks(origin, ops);
        LeadsTo(origin, ops[..Reached(ops)], out.State());
        WriteDetermines(out.State(), Pending(), Data(ops[Reached(ops)..]));
      }
    }

    /** One operation, and how much of the run the sink has afterwards. */
    method Apply(op: Op)
      requires Valid() && Legal(View(), op)
      modifies this`used, out, buffer
      ensures Valid() && View() == Direct(old(View()), op) && used == Fill(old(used), op)
      ensures op.Seek? ==> used == 0 && out.State() == View()
      ensures out.State() == match Passes(old(used), op)
        case Everything => View()
        case Earlier => old(View())
        case Nothing => old(out.State())
    {
      match op {
        case Write(d) => var _ := WriteFully(d);
        case Seek(o, w) => var _ := Seek(o, w);
      }
    }
  }

  // ---------- what a run leaves in the buffer ----------

  /** How full an operation leaves a buffer that held `used` bytes, whatever the bytes are. */
  function Fill(used: nat, op: Op): nat {
    match op
    case Seek(_, _) => 0
    case Write(d) => if |d| > BUFFER_SIZE then 0 else if used + |d| > BUFFER_SIZE then |d| else used + |d|
  }

  datatype Passed = Everything | Earlier | Nothing

  /** What an operation makes pass from the buffer to the sink: all, all before it, or nothing. */
  function Passes(used: nat, op: Op): Passed {
    match op
    case Seek(_, _) => Everything
    case Write(d) => if |d| > BUFFER_SIZE then Everything else if used + |d| > BUFFER_SIZE then Earlier else Nothing
  }

  /** How many bytes a run leaves in an empty buffer. */
  function Left(ops: seq<Op>): nat {
    if ops == [] then 0 else Fill(Left(ops[..|ops| - 1]), ops[|ops| - 1])
  }

  /** How many of the operations have reached the sink: all up to the last one that emptied the buffer. */
  function Reached(ops: seq<Op>): (n: nat)
    ensures n <= |ops|
  {
    if ops == [] then 0
    else
      var n := |ops| - 1;
      match Passes(Left(ops[..n]), ops[n])
      case Everything => n + 1
      case Earlier => n
      case Nothing => Reached(ops[..n])
  }

  lemma ReachedNext(ops: seq<Op>, i: nat)
    requires i < |ops|
    ensures Left(ops[..i + 1]) == Fill(Left(ops[..i]), ops[i])
    ensures Reached(ops[..i + 1]) == match Passes(Left(ops[..i]), ops[i])
      case Everything => i + 1
      case Earlier => i
      case Nothing => Reached(ops[..i])
  {
    assert ops[..i + 1][..i] == ops[..i];
  }

  /** The data of writes, one after the other. */
  function Data(ops: seq<Op>): seq<Byte> {
    if ops == [] then []
    else Data(ops[..|ops| - 1]) + if ops[|ops| - 1].Write? then ops[|ops| - 1].data else []
  }

  /** What has not reached the sink is writes, `Left(ops)` bytes of them. */
  lemma {:induction false} LeftIsData(ops: seq<Op>)
    ensures |Data(ops[Reached(ops)..])| == Left(ops)
    ensures forall k :: Reached(ops) <= k < |ops| ==> ops[k].Write?
  {
    if ops != [] {
      var n := |ops| - 1;
      LeftIsData(ops[..n]);
      var rest := ops[Reached(ops)..];
      if Reached(ops) < |ops| {
        assert rest[..|rest| - 1] == ops[..n][Reached(ops)..];
        if Reached(ops) == n {
          assert ops[..n][n..] == [];
        }
      }
    }
  }

  lemma NoOps(origin: Sink)
    requires origin.Valid()
    ensures Leads(origin, [], origin) && Left([]) == 0 && Reached([]) == 0
  {
  }

  lemma LeadsTo(origin: Sink, ops: seq<Op>, now: Sink)
    requires Leads(origin, ops, now)
    ensures origin.Valid() && LegalRun(origin, ops) && now == DirectRun(origin, ops)
  {
  }

  /** A run in two parts. */
  lemma {:induction false} RunSplit(s: Sink, a: seq<Op>, b: seq<Op>)
    requires s.Valid() && LegalRun(s, a + b)
    ensures LegalRun(s, a) && LegalRun(DirectRun(s, a), b) && DirectRun(s, a + b) == DirectRun(DirectRun(s, a), b)
    decreases |a|
  {
    if a == [] {
      assert a + b == b;
    } else {
      assert (a + b)[1..] == a[1..] + b;
      RunSplit(Direct(s, a[0]), a[1..], b);
    }
  }

  lemma LegalNext(origin: Sink, ops: seq<Op>, i: nat)
    requires origin.Valid() && LegalRun(origin, ops) && i < |ops|
    ensures LegalRun(origin, ops[..i]) && Legal(DirectRun(origin, ops[..i]), ops[i])
  {
    assert ops == ops[..i] + ops[i..];
    RunSplit(origin, ops[..i], ops[i..]);
  }

  /** Writes alone are one write of all their data. */
  lemma {:induction false} WritesAreOne(s: Sink, ops: seq<Op>)
    requires s.Valid() && forall k :: 0 <= k < |ops| ==> ops[k].Write?
    ensures Leads(s, ops, Direct(s, Write(Data(ops))))
  {
    if ops == [] {
      EmptyWrite(s);
    } else {
      var n := |ops| - 1;
      WritesAreOne(s, ops[..n]);
      LeadsOn(s, ops[..n], Direct(s, Write(Data(ops[..n]))), ops[n]);
      WritesFuse(s, Data(ops[..n]), ops[n].data);
      assert ops == ops[..n] + [ops[n]];
    }
  }

  lemma WriteDetermines(s: Sink, a: seq<Byte>, b: seq<Byte>)
    requires s.Valid() && |a| == |b| && Direct(s, Write(a)) == Direct(s, Write(b))
    ensures a == b
  {
    var v := Direct(s, Write(a)).vec;
    assert v[..s.pos + |a|] == s.vec[..s.pos] + a == s.vec[..s.pos] + b;
    assert a == (s.vec[..s.pos] + a)[s.pos..] && b == (s.vec[..s.pos] + b)[s.pos..];
  }

  /**
   * What a destructor that does not flush loses, from the operations alone: the whole run is the
   * part that reached the sink and then one write of the bytes left over; so nothing is lost if and
   * only if no bytes are left over.
   */
  lemma SinkLacks(origin: Sink, ops: seq<Op>)
    requires origin.Valid() && LegalRun(origin, ops)
    ensures |Data(ops[Reached(ops)..])| == Left(ops) && LegalRun(origin, ops[..Reached(ops)])
    ensures DirectRun(origin, ops) == Direct(DirectRun(origin, ops[..Reached(ops)]), Write(Data(ops[Reached(ops)..])))
    ensures DirectRun(origin, ops[..Reached(ops)]) == DirectRun(origin, ops) <==> Left(ops) == 0
  {
    hide DirectRun, LegalRun, Reached, Left, Data;
    var reached, rest := ops[..Reached(ops)], ops[Reached(ops)..];
    LeftIsData(ops);
    assert ops == reached + rest;
    RunSplit(origin, reached, rest);
    var s := DirectRun(origin, reached);
    WritesAreOne(s, rest);
    if Left(ops) == 0 {
      EmptyWrite(s);
    }
  }
}
