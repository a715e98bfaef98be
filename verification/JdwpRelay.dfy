/** Relaying JDWP packets between a debugger and a VM. */
module JdwpRelay {
  import opened Bytes
  import opened Options

  const INPUT_BUFFER_SIZE := 256 * 1024
  const MAGIC_HANDSHAKE_LEN := 14
  const JDWP_HEADER_LEN := 11

  // ---------- the shape of a JDWP stream ----------

  /** Whole packets, each as long as its first four bytes say. */
  ghost predicate IsPackets(s: seq<Byte>)
    decreases |s|
  {
    s == [] || (|s| >= 4 && 0 < Read4BE(s) <= |s| && IsPackets(s[Read4BE(s)..]))
  }

  /** Nothing yet, or the handshake and then whole packets. */
  ghost predicate IsUnits(s: seq<Byte>) {
    s == [] || (|s| >= MAGIC_HANDSHAKE_LEN && IsPackets(s[MAGIC_HANDSHAKE_LEN..]))
  }

  /** No packet declares less than a JDWP header, or a length that is not a positive `int`. */
  ghost predicate LawfulPackets(s: seq<Byte>)
    decreases |s|
  {
    |s| >= 4 ==>
      JDWP_HEADER_LEN <= Read4BE(s) < 0x8000_0000 && (Read4BE(s) <= |s| ==> LawfulPackets(s[Read4BE(s)..]))
  }

  ghost predicate Lawful(s: seq<Byte>) {
    |s| >= MAGIC_HANDSHAKE_LEN ==> LawfulPackets(s[MAGIC_HANDSHAKE_LEN..])
  }

  /** A complete handshake or packet is at the front. */
  predicate Full(s: seq<Byte>, awaitingHandshake: bool) {
    if awaitingHandshake then |s| >= MAGIC_HANDSHAKE_LEN else |s| >= 4 && |s| >= Read4BE(s)
  }

  function UnitLength(s: seq<Byte>, awaitingHandshake: bool): nat
    requires Full(s, awaitingHandshake)
  {
    if awaitingHandshake then MAGIC_HANDSHAKE_LEN else Read4BE(s)
  }

  lemma {:induction false} PacketsMore(s: seq<Byte>, packet: seq<Byte>)
    requires IsPackets(s) && |packet| >= 4 && Read4BE(packet) == |packet|
    ensures IsPackets(s + packet)
    decreases |s|
  {
    if s == [] {
      assert s + packet == packet && packet[|packet|..] == [];
    } else {
      var n := Read4BE(s);
      PacketsMore(s[n..], packet);
      assert (s + packet)[n..] == s[n..] + packet;
    }
  }

  lemma {:induction false} LawfulRest(s: seq<Byte>, rest: seq<Byte>)
    requires IsPackets(s) && LawfulPackets(s + rest)
    ensures LawfulPackets(rest)
    decreases |s|
  {
    if s == [] {
      assert s + rest == rest;
    } else {
      var n := Read4BE(s);
      assert (s + rest)[n..] == s[n..] + rest;
      LawfulRest(s[n..], rest);
    }
  }

  /** What is left of a lawful stream after whole units starts with a lawful packet. */
  lemma LawfulAfter(written: seq<Byte>, rest: seq<Byte>)
    requires IsUnits(written) && written != [] && Lawful(written + rest)
    ensures LawfulPackets(rest)
  {
    assert (written + rest)[MAGIC_HANDSHAKE_LEN..] == written[MAGIC_HANDSHAKE_LEN..] + rest;
    LawfulRest(written[MAGIC_HANDSHAKE_LEN..], rest);
  }

  lemma UnitsMore(written: seq<Byte>, packet: seq<Byte>)
    requires IsUnits(written) && written != [] && |packet| >= 4 && Read4BE(packet) == |packet|
    ensures IsUnits(written + packet)
  {
    PacketsMore(written[MAGIC_HANDSHAKE_LEN..], packet);
    assert (written + packet)[MAGIC_HANDSHAKE_LEN..] == written[MAGIC_HANDSHAKE_LEN..] + packet;
  }

  lemma {:induction false} PacketsMaximal(s: seq<Byte>, rest: seq<Byte>, n: nat)
    requires IsPackets(s) && !Full(rest, false) && n <= |s + rest| && IsPackets((s + rest)[..n])
    ensures n <= |s|
    decreases |s|
  {
    var all := s + rest;
    if s != [] && n > 0 {
      var k := Read4BE(s);
      assert n >= 4 ==> Read4BE(all[..n]) == k;
      assert all[k..] == s[k..] + rest && all[..n][k..] == all[k..][..n - k];
      PacketsMaximal(s[k..], rest, n - k);
    }
  }

  /** With no complete unit in the buffer, what was forwarded is the longest run of whole units there is. */
  lemma UnitsMaximal(written: seq<Byte>, buffered: seq<Byte>, n: nat)
    requires IsUnits(written) && !Full(buffered, written == []) && n <= |written + buffered|
    requires IsUnits((written + buffered)[..n])
    ensures n <= |written|
  {
    var all, k := written + buffered, MAGIC_HANDSHAKE_LEN;
    if n > 0 && written != [] {
      assert all[..n][k..] == all[k..][..n - k] && all[k..] == written[k..] + buffered;
      PacketsMaximal(written[k..], buffered, n - k);
    }
  }

  /** `s` is whole units, and no longer front part of `all` is. */
  ghost predicate LongestUnits(s: seq<Byte>, all: seq<Byte>) {
    IsUnits(s) && s <= all && forall n :: 0 <= n <= |all| && IsUnits(all[..n]) ==> n <= |s|
  }

  lemma UnitsLongest(written: seq<Byte>, buffered: seq<Byte>)
    requires IsUnits(written) && !Full(buffered, written == [])
    ensures LongestUnits(written, written + buffered)
  {
    hide IsUnits, Full;
    var all := written + buffered;
    forall n | 0 <= n <= |all| && IsUnits(all[..n]) ensures n <= |written| {
      UnitsMaximal(written, buffered, n);
    }
  }

  // ---------- what one call does, on values ----------

  /** What a socket that is polled may do: nothing, be interrupted, fail, or have bytes (none at the end). */
  datatype Ready = Idle | Interrupted | Failed | Offers(bytes: nat)

  datatype Round = SelectInterrupted | SelectFailed | Selected(dbg: Ready, vm: Ready)

  /** One end: what is buffered from it and still to be read from it, and what was written to it. */
  datatype End = End(buffered: seq<Byte>, awaitingHandshake: bool, unread: seq<Byte>, written: seq<Byte>)

  datatype Ends = Ends(dbg: End, vm: End)

  predicate Complete(e: End) { Full(e.buffered, e.awaitingHandshake) }

  predicate AnyComplete(x: Ends) { Complete(x.dbg) || Complete(x.vm) }

  /** A read fails: it reports an error, or a socket that is ready gives nothing, at its end or for lack of room. */
  predicate Fails(e: End, ready: Ready) {
    ready.Failed? || (ready.Offers? && (ready.bytes == 0 || e.unread == [] || |e.buffered| >= INPUT_BUFFER_SIZE))
  }

  function Taken(e: End, offered: nat): (n: nat)
    ensures n <= offered && n <= |e.unread|
  {
    var n := if offered < |e.unread| then offered else |e.unread|;
    if |e.buffered| >= INPUT_BUFFER_SIZE then 0
    else if INPUT_BUFFER_SIZE - |e.buffered| < n then INPUT_BUFFER_SIZE - |e.buffered| else n
  }

  function AfterRead(e: End, ready: Ready): End {
    match ready
    case Offers(n) => e.(buffered := e.buffered + e.unread[..Taken(e, n)], unread := e.unread[Taken(e, n)..])
    case _ => e
  }

  /** A round closes the connection: its poll fails, or a read that it gets to. */
  predicate Closes(x: Ends, round: Round) {
    round.SelectFailed? ||
      (round.Selected? && (Fails(x.dbg, round.dbg) || (!round.dbg.Interrupted? && Fails(x.vm, round.vm))))
  }

  function AfterRound(x: Ends, round: Round): Ends {
    if !round.Selected? then x
    else if round.dbg.Interrupted? then x
    else Ends(AfterRead(x.dbg, round.dbg), AfterRead(x.vm, round.vm))
  }

  function AfterRounds(x: Ends, rounds: seq<Round>): Ends {
    if rounds == [] then x else AfterRound(AfterRounds(x, rounds[..|rounds| - 1]), rounds[|rounds| - 1])
  }

  /** From `x` the first `n` rounds are read: no unit is complete before them, and none of them closes. */
  ghost predicate ReadOn(x: Ends, rounds: seq<Round>, n: nat) {
    n <= |rounds| && forall k :: 0 <= k < n ==>
      var y := AfterRounds(x, rounds[..k]); !AnyComplete(y) && !Closes(y, rounds[k])
  }

  /** Forwards the unit at the front of `source`, if it is complete; the write may break within it. */
  function Forward(source: End, target: End, broken: Option<nat>): (End, End, bool) {
    if !Complete(source) then (source, target, true)
    else
      var n := UnitLength(source.buffered, source.awaitingHandshake);
      if broken.Some? && broken.value < n then
        (source, target.(written := target.written + source.buffered[..broken.value]), false)
      else
        (source.(buffered := source.buffered[n..], awaitingHandshake := false),
         target.(written := target.written + source.buffered[..n]), true)
  }

  /** From the VM to the debugger and, if that succeeds, the other way. */
  function ForwardBoth(x: Ends, broken: (Option<nat>, Option<nat>)): (Ends, bool) {
    var (vm, dbg, ok) := Forward(x.vm, x.dbg, broken.0);
    if !ok then (Ends(dbg, vm), false)
    else
      var (dbg', vm', ok') := Forward(dbg, vm, broken.1);
      (Ends(dbg', vm'), ok')
  }

  /** A call that starts at `x` and reads all but `rest` of the rounds ends at `y`, having forwarded something. */
  ghost predicate CallHandles(x: Ends, rounds: seq<Round>, rest: seq<Round>, broken: (Option<nat>, Option<nat>),
                              y: Ends) {
    |rest| <= |rounds| &&
    var n := |rounds| - |rest|;
    var z := AfterRounds(x, rounds[..n]);
    rest == rounds[n..] && ReadOn(x, rounds, n) && AnyComplete(z) && ForwardBoth(z, broken) == (y, true)
  }

  /** A call that starts at `x` reads all rounds and waits for more. */
  ghost predicate CallWaits(x: Ends, rounds: seq<Round>, y: Ends) {
    ReadOn(x, rounds, |rounds|) && AfterRounds(x, rounds) == y && !AnyComplete(y)
  }

  /** A call that starts at `x` closes the connection, for the last round it reads or for a write. */
  ghost predicate CallCloses(x: Ends, rounds: seq<Round>, rest: seq<Round>, broken: (Option<nat>, Option<nat>)) {
    |rest| <= |rounds| &&
    var n := |rounds| - |rest|;
    rest == rounds[n..] && (ReadCloses(x, rounds, n) || WriteCloses(x, rounds, n, broken))
  }

  ghost predicate ReadCloses(x: Ends, rounds: seq<Round>, n: nat) {
    0 < n <= |rounds| && ReadOn(x, rounds, n - 1) &&
    var y := AfterRounds(x, rounds[..n - 1]); !AnyComplete(y) && Closes(y, rounds[n - 1])
  }

  ghost predicate WriteCloses(x: Ends, rounds: seq<Round>, n: nat, broken: (Option<nat>, Option<nat>)) {
    ReadOn(x, rounds, n) && var y := AfterRounds(x, rounds[..n]); AnyComplete(y) && !ForwardBoth(y, broken).1
  }

  /** What a call does is decided by where it starts. */
  lemma OneWay(x: Ends, rounds: seq<Round>, rest: seq<Round>, broken: (Option<nat>, Option<nat>), y: Ends,
               rest': seq<Round>)
    requires CallHandles(x, rounds, rest, broken, y)
    ensures !CallCloses(x, rounds, rest', broken)
    ensures forall z :: CallHandles(x, rounds, rest', broken, z) ==> z == y && rest' == rest
  {
    hide AfterRounds, AnyComplete, Closes, ForwardBoth;
    var n := |rounds| - |rest|;
    if |rest'| <= |rounds| && rest' == rounds[|rounds| - |rest'|..] {
      var m := |rounds| - |rest'|;
      if m < n {
        assert m > 0 ==> !Closes(AfterRounds(x, rounds[..m - 1]), rounds[m - 1]);
      } else if m == n {
        assert m > 0 ==> !Closes(AfterRounds(x, rounds[..m - 1]), rounds[m - 1]);
      }
    }
  }

  lemma ReadNothing(x: Ends, rounds: seq<Round>)
    ensures ReadOn(x, rounds, 0) && AfterRounds(x, rounds[..0]) == x
  {
  }

  lemma ReadOnNext(x: Ends, rounds: seq<Round>, n: nat)
    requires ReadOn(x, rounds, n) && n < |rounds|
    requires var y := AfterRounds(x, rounds[..n]); !AnyComplete(y)
    ensures AfterRounds(x, rounds[..n + 1]) == AfterRound(AfterRounds(x, rounds[..n]), rounds[n])
    ensures !Closes(AfterRounds(x, rounds[..n]), rounds[n]) ==> ReadOn(x, rounds, n + 1)
    ensures Closes(AfterRounds(x, rounds[..n]), rounds[n]) ==> ReadCloses(x, rounds, n + 1)
  {
    hide AnyComplete, Closes, AfterRound;
    assert rounds[..n + 1][..n] == rounds[..n];
  }

  /** How many sockets that have something to say a round gets to. */
  ghost function Offered(round: Round): nat {
    if !round.Selected? then 0
    else (if round.dbg.Offers? then 1 else 0) + (if round.vm.Offers? && !round.dbg.Interrupted? then 1 else 0)
  }

  ghost function AllOffered(rounds: seq<Round>): nat {
    if rounds == [] then 0 else AllOffered(rounds[..|rounds| - 1]) + Offered(rounds[|rounds| - 1])
  }

  lemma ReadGives(e: End, ready: Ready)
    requires !Fails(e, ready)
    ensures |AfterRead(e, ready).unread| + (if ready.Offers? then 1 else 0) <= |e.unread|
  {
  }

  lemma RoundGives(x: Ends, round: Round)
    requires !Closes(x, round)
    ensures var y := AfterRound(x, round);
      Offered(round) + |y.dbg.unread| + |y.vm.unread| <= |x.dbg.unread| + |x.vm.unread|
  {
    hide Fails, AfterRead;
    if round.Selected? {
      ReadGives(x.dbg, round.dbg);
      if !round.dbg.Interrupted? {
        ReadGives(x.vm, round.vm);
      }
    }
  }

  /** Every ready socket that a call gets to gives at least one byte, so a call cannot go round at the end of one. */
  lemma {:induction false} NoSpinning(x: Ends, rounds: seq<Round>)
    requires ReadOn(x, rounds, |rounds|)
    ensures var y := AfterRounds(x, rounds);
      AllOffered(rounds) + |y.dbg.unread| + |y.vm.unread| <= |x.dbg.unread| + |x.vm.unread|
  {
    hide AnyComplete, Closes, AfterRound, Offered;
    if rounds != [] {
      var n := |rounds| - 1;
      var before := rounds[..n];
      forall k | 0 <= k < n ensures before[..k] == rounds[..k] && before[k] == rounds[k] {
      }
      assert ReadOn(x, before, n);
      NoSpinning(x, before);
      RoundGives(AfterRounds(x, before), rounds[n]);
    }
  }

  ghost predicate Quiet(round: Round) {
    round.SelectInterrupted? || (round.Selected? && round.dbg in {Idle, Interrupted} && round.vm in {Idle, Interrupted})
  }

  /** Rounds without bytes or errors, interrupted or not, leave a waiting call as it is. */
  lemma {:induction false} QuietWaits(x: Ends, rounds: seq<Round>)
    requires !AnyComplete(x) && forall round :: round in rounds ==> Quiet(round)
    ensures CallWaits(x, rounds, x)
  {
    hide AnyComplete, Taken;
    if rounds != [] {
      var n := |rounds| - 1;
      var before := rounds[..n];
      QuietWaits(x, before);
      assert Quiet(rounds[n]) && rounds[..n] == before;
      forall k | 0 <= k < n ensures before[..k] == rounds[..k] && before[k] == rounds[k] {
      }
    }
  }

  // ---------- one end ----------

  /** One end of the relay and its socket: bytes still to be read from it and bytes written to it. */
  class Peer {
    const inputBuffer: array<Byte>
    var inputCount: nat
    var awaitingHandshake: bool
    var unread: seq<Byte>
    var written: seq<Byte>

    ghost predicate Valid()
      reads this
    {
      inputCount <= inputBuffer.Length == INPUT_BUFFER_SIZE
    }

    ghost function Buffered(): seq<Byte>
      requires Valid()
      reads this, inputBuffer
    {
      inputBuffer[..inputCount]
    }

    ghost function Now(): End
      requires Valid()
      reads this, inputBuffer
    {
      End(Buffered(), awaitingHandshake, unread, written)
    }

    constructor (unread: seq<Byte>)
      ensures Valid() && fresh(inputBuffer) && Buffered() == [] && awaitingHandshake && this.unread == unread
      ensures written == []
    {
      inputBuffer := new Byte[INPUT_BUFFER_SIZE](_ => 0);
      inputCount, awaitingHandshake := 0, true;
      this.unread, written := unread, [];
    }

    method HaveFullPacket() returns (r: bool)
      requires Valid()
      ensures r == Full(Buffered(), awaitingHandshake)
    {
      if awaitingHandshake {
        return inputCount >= MAGIC_HANDSHAKE_LEN;
      }
      if inputCount < 4 {
        return false;
      }
      var length := Read4BE(inputBuffer[..4]);
      return inputCount >= length;
    }

    method ConsumeBytes(count: nat)
      requires Valid() && 0 < count <= inputCount
      modifies `inputCount, inputBuffer
      ensures Valid() && Buffered() == old(Buffered())[count..]
    {
      if count == inputCount {
        inputCount := 0;
        return;
      }
      for i := 0 to inputCount - count
        modifies inputBuffer
        invariant inputBuffer[..i] == old(inputBuffer[count..count + i])
        invariant inputBuffer[i..] == old(inputBuffer[i..])
      {
        assert inputBuffer[count + i] == inputBuffer[i..][count];
        inputBuffer[i] := inputBuffer[count + i];
        assert old(inputBuffer[i + 1..]) == old(inputBuffer[i..])[1..];
      }
      inputCount := inputCount - count;
    }

    /** `read`: at most `offered` bytes, at most what has arrived and at most what fits; 0 is the end. */
    method Read(offered: nat) returns (cc: nat)
      requires Valid()
      modifies `inputCount, `unread, inputBuffer
      ensures Valid() && Buffered() + unread == old(Buffered() + unread)
      ensures Now() == AfterRead(old(Now()), Offers(offered)) && cc == Taken(old(Now()), offered)
    {
      cc := if offered < |unread| then offered else |unread|;
      if INPUT_BUFFER_SIZE - inputCount < cc {
        cc := INPUT_BUFFER_SIZE - inputCount;
      }
      Fill(unread[..cc]);
      Regroup(old(Buffered()), [], unread, unread[..cc], unread[cc..]);
      unread := unread[cc..];
    }

    /** Adds data at the end of what is buffered. */
    method Fill(data: seq<Byte>)
      requires Valid() && inputCount + |data| <= INPUT_BUFFER_SIZE
      modifies `inputCount, inputBuffer
      ensures Valid() && Buffered() == old(Buffered()) + data
    {
      for i := 0 to |data|
        modifies inputBuffer
        invariant inputBuffer[..inputCount + i] == old(inputBuffer[..inputCount]) + data[..i]
      {
        inputBuffer[inputCount + i] := data[i];
      }
      assert data[..|data|] == data;
      inputCount := inputCount + |data|;
    }

    /** `write`: all of the data, or only some of it when the connection breaks. */
    method Write(data: seq<Byte>, broken: Option<nat>) returns (cc: nat)
      modifies `written
      ensures cc <= |data| && written == old(written) + data[..cc]
      ensures cc == if broken.Some? && broken.value < |data| then broken.value else |data|
    {
      cc := match broken
        case None => |data|
        case Some(n) => if n < |data| then n else |data|;
      written := written + data[..cc];
    }
  }

  // ---------- one direction ----------

  /**
   * What one direction keeps: everything that `source` sends is what was forwarded, then what is
   * buffered, then what is still to be read; and what was forwarded is whole units.
   */
  ghost predicate Link(source: Peer, target: Peer, stream: seq<Byte>)
    reads source, source.inputBuffer, target
  {
    && source.Valid() && source.inputBuffer != target.inputBuffer
    && stream == target.written + source.Buffered() + source.unread
    && IsUnits(target.written) && (source.awaitingHandshake <==> target.written == [])
  }

  /** A connection was lost: whatever was forwarded is still the front of the stream. */
  ghost predicate Broken(target: Peer, stream: seq<Byte>)
    reads target
  {
    target.written <= stream
  }

  method HandlePacket(target: Peer, source: Peer, broken: Option<nat>, ghost stream: seq<Byte>) returns (ok: bool)
    requires Link(source, target, stream) && Lawful(stream) && !source.awaitingHandshake
    requires Full(source.Buffered(), false)
    requires source != target && target.Valid()
    modifies target`written, source`inputCount, source.inputBuffer
    ensures ok ==> Link(source, target, stream) && |target.written| > |old(target.written)|
    ensures !ok ==> Broken(target, stream)
    ensures source.Valid() && target.Valid()
    ensures (source.Now(), target.Now(), ok) == Forward(old(source.Now()), old(target.Now()), broken)
  {
    hide IsUnits, Lawful, LawfulPackets;
    ghost var before, buffered, unread := target.written, source.Buffered(), source.unread;
    assert stream == before + (buffered + unread);
    LawfulAfter(before, buffered + unread);
    LawfulFront(buffered, unread);
    var length := Read4BE(source.inputBuffer[..4]);
    assert Read4BE(buffered) == length;
    var data := source.inputBuffer[..length];
    assert data == buffered[..length] && data[..length] == data && Read4BE(data) == length;
    var cc := target.Write(data, broken);
    if cc != length {
      Forwarded(before, buffered, unread, cc);
      assert data[..cc] == buffered[..cc];
      return false;
    }
    source.ConsumeBytes(length);
    UnitsMore(before, data);
    Forwarded(before, buffered, unread, length);
    return true;
  }

  lemma Forwarded(before: seq<Byte>, buffered: seq<Byte>, unread: seq<Byte>, n: nat)
    requires n <= |buffered|
    ensures before + buffered + unread == (before + buffered[..n]) + buffered[n..] + unread
  {
    assert buffered == buffered[..n] + buffered[n..];
  }

  lemma LawfulFront(buffered: seq<Byte>, unread: seq<Byte>)
    requires LawfulPackets(buffered + unread) && |buffered| >= 4
    ensures JDWP_HEADER_LEN <= Read4BE(buffered)
  {
    assert Read4BE(buffered + unread) == Read4BE(buffered);
  }

  /** Forwards the handshake or the packet at the front of the buffer, if it is complete. */
  method HandleIncoming(target: Peer, source: Peer, broken: Option<nat>, ghost stream: seq<Byte>) returns (ok: bool)
    requires Link(source, target, stream) && Lawful(stream) && source != target && target.Valid()
    modifies target`written, source`inputCount, source`awaitingHandshake, source.inputBuffer
    ensures ok ==> Link(source, target, stream)
    ensures ok && old(Full(source.Buffered(), source.awaitingHandshake)) ==> |target.written| > |old(target.written)|
    ensures ok && !old(Full(source.Buffered(), source.awaitingHandshake)) ==>
      target.written == old(target.written) && source.Buffered() == old(source.Buffered()) &&
        source.awaitingHandshake == old(source.awaitingHandshake)
    ensures !ok ==> Broken(target, stream)
    ensures source.Valid() && target.Valid()
    ensures (source.Now(), target.Now(), ok) == Forward(old(source.Now()), old(target.Now()), broken)
  {
    hide Lawful, IsPackets;
    ok := true;
    var full := source.HaveFullPacket();
    if full {
      if source.awaitingHandshake {
        ghost var buffered, unread := source.Buffered(), source.unread;
        var cc := target.Write(source.inputBuffer[..MAGIC_HANDSHAKE_LEN], broken);
        Forwarded([], buffered, unread, cc);
        assert source.inputBuffer[..MAGIC_HANDSHAKE_LEN][..cc] == buffered[..cc];
        if cc != MAGIC_HANDSHAKE_LEN {
          return false;
        }
        source.ConsumeBytes(MAGIC_HANDSHAKE_LEN);
        source.awaitingHandshake := false;
        NoPackets(target.written);
      } else {
        ok := HandlePacket(target, source, broken, stream);
      }
    }
  }

  lemma NoPackets(s: seq<Byte>)
    requires |s| == MAGIC_HANDSHAKE_LEN
    ensures IsUnits(s)
  {
    assert s[MAGIC_HANDSHAKE_LEN..] == [];
  }

  // ---------- both directions ----------

  datatype ReadResult = Proceed | Again | Lost

  datatype Result = Handled | Blocked | Closed

  /** Where a call starts, and the rounds that are left for it. */
  datatype Call = Call(start: Ends, rounds: seq<Round>)

  /** Each call but the last forwards something and leaves off where the next one starts. */
  ghost predicate AllHandle(calls: seq<Call>, broken: nat -> (Option<nat>, Option<nat>)) {
    forall i :: 0 <= i < |calls| - 1 ==>
      CallHandles(calls[i].start, calls[i].rounds, calls[i + 1].rounds, broken(i), calls[i + 1].start)
  }

  lemma NoCalls(c: Call, broken: nat -> (Option<nat>, Option<nat>))
    ensures AllHandle([c], broken)
  {
  }

  lemma OneMoreCall(calls: seq<Call>, broken: nat -> (Option<nat>, Option<nat>), c: Call)
    requires |calls| > 0 && AllHandle(calls, broken)
    requires var last := calls[|calls| - 1];
      CallHandles(last.start, last.rounds, c.rounds, broken(|calls| - 1), c.start)
    ensures AllHandle(calls + [c], broken)
  {
    hide CallHandles;
  }

  class NetState {
    const dbg: Peer
    const vm: Peer
    /** All that the debugger and the VM ever send. */
    ghost const fromDbg: seq<Byte>
    ghost const fromVm: seq<Byte>

    constructor (fromDbg: seq<Byte>, fromVm: seq<Byte>)
      requires Lawful(fromDbg) && Lawful(fromVm)
      ensures Valid() && fresh(dbg) && fresh(vm) && fresh(dbg.inputBuffer) && fresh(vm.inputBuffer)
      ensures this.fromDbg == fromDbg && this.fromVm == fromVm
    {
      dbg := new Peer(fromDbg);
      vm := new Peer(fromVm);
      this.fromDbg, this.fromVm := fromDbg, fromVm;
    }

    ghost predicate Valid()
      reads this, dbg, vm, dbg.inputBuffer, vm.inputBuffer
    {
      && dbg != vm && dbg.inputBuffer != vm.inputBuffer && Lawful(fromDbg) && Lawful(fromVm)
      && Link(dbg, vm, fromDbg) && Link(vm, dbg, fromVm)
    }

    /** Whatever happens, each end has been sent only a front part of what the other sent. */
    ghost predicate InOrder()
      reads this, dbg, vm
    {
      vm.written <= fromDbg && dbg.written <= fromVm
    }

    /** Both ends as they are. */
    ghost function Now(): Ends
      requires Valid()
      reads this, dbg, vm, dbg.inputBuffer, vm.inputBuffer
    {
      Ends(dbg.Now(), vm.Now())
    }

    ghost predicate Waiting()
      requires Valid()
      reads this, dbg, vm, dbg.inputBuffer, vm.inputBuffer
    {
      !Full(dbg.Buffered(), dbg.awaitingHandshake) && !Full(vm.Buffered(), vm.awaitingHandshake)
    }

    /** Reads from one end into its buffer. */
    method ReadFrom(source: Peer, ready: Ready) returns (r: ReadResult)
      requires Valid() && (source == dbg || source == vm) && source.Valid()
      modifies source`inputCount, source`unread, source.inputBuffer
      ensures Valid() && source.Valid()
      ensures r.Again? <==> ready.Interrupted?
      ensures r.Lost? <==> Fails(old(source.Now()), ready)
      ensures source.Now() == AfterRead(old(source.Now()), ready)
    {
      match ready
      case Idle => return Proceed;
      case Interrupted => return Again;
      case Failed => return Lost;
      case Offers(n) =>
        hide Lawful, IsUnits;
        ghost var buffered, unread := source.Buffered(), source.unread;
        var cc := source.Read(n);
        Regroup(dbg.written, buffered, unread, source.Buffered(), source.unread);
        Regroup(vm.written, buffered, unread, source.Buffered(), source.unread);
        return if cc == 0 then Lost else Proceed;
    }

    /** Reads until one end has sent a complete unit; nothing is forwarded meanwhile. */
    method ReadUntilFull(rounds: seq<Round>) returns (result: Result, rest: seq<Round>)
      requires Valid()
      modifies dbg`inputCount, dbg`unread, dbg.inputBuffer, vm`inputCount, vm`unread, vm.inputBuffer
      ensures Valid()
      ensures result.Handled? ==> !Waiting()
      ensures result.Blocked? ==> Waiting() && rest == []
      ensures |rest| <= |rounds| && rest == rounds[|rounds| - |rest|..]
      ensures match result
        case Closed => ReadCloses(old(Now()), rounds, |rounds| - |rest|)
        case _ =>
          && ReadOn(old(Now()), rounds, |rounds| - |rest|)
          && Now() == AfterRounds(old(Now()), rounds[..|rounds| - |rest|])
    {
      hide Link, Lawful, Full, Fails, Taken, AfterRounds, ReadOn;
      rest := rounds;
      ghost var x := Now();
      ReadNothing(x, rounds);
      while true
        invariant Valid() && |rest| <= |rounds| && rest == rounds[|rounds| - |rest|..]
        invariant ReadOn(x, rounds, |rounds| - |rest|) && Now() == AfterRounds(x, rounds[..|rounds| - |rest|])
        decreases |rest|
      {
        assert dbg.Valid() && vm.Valid() by { LinksValid(); }
        var fullDbg := dbg.HaveFullPacket();
        var fullVm := vm.HaveFullPacket();
        if fullDbg || fullVm {
          return Handled, rest;
        }
        if rest == [] {
          return Blocked, rest;
        }
        ReadOnNext(x, rounds, |rounds| - |rest|);
        var round := rest[0];
        assert round == rounds[|rounds| - |rest|];
        rest := rest[1..];
        if round.SelectFailed? {
          return Closed, rest;
        }
        if round.Selected? {
          var r := ReadFrom(dbg, round.dbg);
          if r.Proceed? {
            r := ReadFrom(vm, round.vm);
          }
          if r.Lost? {
            return Closed, rest;
          }
        }
      }
    }

    lemma LinksValid()
      requires Valid()
      ensures dbg.Valid() && vm.Valid() && InOrder()
    {
      assert vm.written + dbg.Buffered() + dbg.unread == vm.written + (dbg.Buffered() + dbg.unread);
      assert dbg.written + vm.Buffered() + vm.unread == dbg.written + (vm.Buffered() + vm.unread);
    }

    /** Reads until one end has sent a complete unit, then forwards at most one unit each way. */
    method ProcessIncoming(rounds: seq<Round>, broken: (Option<nat>, Option<nat>))
      returns (result: Result, rest: seq<Round>)
      requires Valid()
      modifies dbg, vm, dbg.inputBuffer, vm.inputBuffer
      ensures InOrder()
      ensures !result.Closed? ==> Valid()
      ensures result.Handled? ==> |dbg.written| + |vm.written| > old(|dbg.written| + |vm.written|)
      ensures result.Blocked? ==> Waiting() && rest == []
      ensures |rest| <= |rounds|
      ensures match result
        case Handled => CallHandles(old(Now()), rounds, rest, broken, Now())
        case Blocked => CallWaits(old(Now()), rounds, Now())
        case Closed => CallCloses(old(Now()), rounds, rest, broken)
    {
      hide Lawful, IsUnits, Full, Forward, AfterRounds, ReadOn, ReadCloses;
      result, rest := ReadUntilFull(rounds);
      LinksValid();
      if !result.Handled? {
        assert rounds[..|rounds|] == rounds;
        return;
      }
      var ok := HandleIncoming(dbg, vm, broken.0, fromVm);
      if !ok {
        return Closed, rest;
      }
      ok := HandleIncoming(vm, dbg, broken.1, fromDbg);
      if !ok {
        return Closed, rest;
      }
      LinksValid();
    }

    /**
     * Relays for as long as data comes and the connections hold. Each end gets, in order, what the
     * other sent; when the relay waits for more, it has forwarded every complete unit it has read.
     * Each call starts where the one before it ended, all but the last forward something, and the
     * last one waits, or closes the connection for the last round it read or for a write.
     */
    method Relay(rounds: seq<Round>, broken: nat -> (Option<nat>, Option<nat>))
      returns (closed: bool, rest: seq<Round>, ghost calls: seq<Call>)
      requires Valid()
      modifies dbg, vm, dbg.inputBuffer, vm.inputBuffer
      ensures InOrder()
      ensures !closed ==> Valid() && Waiting()
      ensures |calls| > 0 && calls[0] == Call(old(Now()), rounds) && AllHandle(calls, broken)
      ensures var last := calls[|calls| - 1];
        if closed then CallCloses(last.start, last.rounds, rest, broken(|calls| - 1))
        else rest == [] && CallWaits(last.start, last.rounds, Now())
      ensures !closed ==>
        LongestUnits(vm.written, vm.written + dbg.Buffered()) && LongestUnits(dbg.written, dbg.written + vm.Buffered())
    {
      hide Link, Lawful, IsUnits, Full, LongestUnits, CallHandles, CallWaits, CallCloses, AllHandle;
      LinksValid();
      rest, calls := rounds, [Call(Now(), rounds)];
      NoCalls(calls[0], broken);
      var n := 0;
      while true
        invariant Valid() && n + 1 == |calls| && calls[0] == Call(old(Now()), rounds) && AllHandle(calls, broken)
        invariant calls[n] == Call(Now(), rest)
        decreases |fromDbg| + |fromVm| - |vm.written| - |dbg.written|
      {
        LinksValid();
        var result;
        result, rest := ProcessIncoming(rest, broken(n));
        if !result.Handled? {
          closed := result.Closed?;
          break;
        }
        LinksValid();
        OneMoreCall(calls, broken, Call(Now(), rest));
        calls := calls + [Call(Now(), rest)];
        n := n + 1;
      }
      if !closed {
        WaitingForwardedAll();
      }
    }

    lemma WaitingForwardedAll()
      requires Valid() && Waiting()
      ensures LongestUnits(vm.written, vm.written + dbg.Buffered())
      ensures LongestUnits(dbg.written, dbg.written + vm.Buffered())
    {
      hide IsPackets, Lawful;
      UnitsLongest(vm.written, dbg.Buffered());
      UnitsLongest(dbg.written, vm.Buffered());
    }
  }

  lemma Regroup(written: seq<Byte>, a: seq<Byte>, b: seq<Byte>, c: seq<Byte>, d: seq<Byte>)
    requires a + b == c + d
    ensures written + a + b == written + c + d
  {
    assert written + a + b == written + (a + b) && written + c + d == written + (c + d);
  }
}
