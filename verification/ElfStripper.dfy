/** Removing sections from an ELF file in place. */
module ElfStripper {
  import opened Bytes

  // ---------- reading ELF structures ----------

  const EHDR_SIZE := 52
  const SHDR_SIZE := 40
  const SHT_STRTAB := 3

  function WordAt(b: seq<Byte>, at: nat): nat
    requires at + 4 <= |b|
  {
    ReadWordLE(b[at..at + 4])
  }

  function HalfAt(b: seq<Byte>, at: nat): nat
    requires at + 2 <= |b|
  {
    var low: int, high: int := b[at], b[at + 1];
    low + 256 * high
  }

  function HalfLE(x: nat): (s: seq<Byte>)
    ensures |s| == 2
  {
    [x % 256, x / 256 % 256]
  }

  /** Where the file header says the section headers are, and how many. */
  function TableAt(b: seq<Byte>): nat requires EHDR_SIZE <= |b| { WordAt(b, 32) }
  function EntrySize(b: seq<Byte>): nat requires EHDR_SIZE <= |b| { HalfAt(b, 46) }
  function Count(b: seq<Byte>): nat requires EHDR_SIZE <= |b| { HalfAt(b, 48) }
  function NameSection(b: seq<Byte>): nat requires EHDR_SIZE <= |b| { HalfAt(b, 50) }

  type Header = h: seq<Byte> | |h| == SHDR_SIZE witness seq(SHDR_SIZE, i => 0)

  function Name(h: Header): nat { WordAt(h, 0) }
  function Kind(h: Header): nat { WordAt(h, 4) }
  function Start(h: Header): nat { WordAt(h, 16) }
  function Size(h: Header): nat { WordAt(h, 20) }
  function Alignment(h: Header): nat { WordAt(h, 32) }

  function WithStart(h: Header, start: nat): Header {
    h[..16] + WordLE(start) + h[20..]
  }

  predicate HasTable(b: seq<Byte>) {
    EHDR_SIZE <= |b| < TWO32 && EntrySize(b) == SHDR_SIZE && TableAt(b) + SHDR_SIZE * Count(b) <= |b|
  }

  function Section(b: seq<Byte>, i: nat): Header
    requires HasTable(b) && i < Count(b)
  {
    b[TableAt(b) + SHDR_SIZE * i..TableAt(b) + SHDR_SIZE * (i + 1)]
  }

  /** The fields of a section header are its ten words. */
  lemma SectionHeaderFields(h: Header, words: seq<nat>, start: nat)
    requires |words| == 10 && (forall i :: 0 <= i < 10 ==> words[i] < TWO32) && h == WordsLE(words) && start < TWO32
    ensures Name(h) == words[0] && Kind(h) == words[1] && Start(h) == words[4] && Size(h) == words[5]
    ensures Alignment(h) == words[8] && WithStart(h, start) == WordsLE(words[4 := start])
  {
    hide WordLE, WordsLE, ReadWordLE;
    FieldWord(h, words, 0);
    FieldWord(h, words, 1);
    FieldWord(h, words, 4);
    FieldWord(h, words, 5);
    FieldWord(h, words, 8);
    WordsSplit(words, 4);
    WordsSplit(words[4 := start], 4);
    assert words[..4] == words[4 := start][..4] && words[5..] == words[4 := start][5..];
  }

  lemma FieldWord(h: Header, words: seq<nat>, i: nat)
    requires i < |words| == 10 && words[i] < TWO32 && h == WordsLE(words)
    ensures WordAt(h, 4 * i) == words[i]
  {
    hide WordLE, WordsLE, ReadWordLE;
    WordsAt(words, i);
    WordRoundTrip(words[i]);
  }

  lemma {:induction false} WordsSplit(words: seq<nat>, i: nat)
    requires i < |words|
    ensures WordsLE(words) == WordsLE(words[..i]) + WordLE(words[i]) + WordsLE(words[i + 1..])
    decreases |words|
  {
    hide WordLE;
    var n := |words| - 1;
    if i < n {
      WordsSplit(words[..n], i);
      assert words[..n][..i] == words[..i] && words[..n][i + 1..] == words[i + 1..][..n - i - 1];
    } else {
      assert words[i + 1..] == [];
    }
  }

  /** The fields of the file header come after 32 bytes that are not looked at. */
  lemma FileHeaderFields(b: seq<Byte>, front: seq<Byte>, table: nat, flags: nat, sizes: seq<Byte>, entry: nat,
                         count: nat, names: nat)
    requires |front| == 32 && |sizes| == 6 && table < TWO32 && entry < 65536 && count < 65536 && names < 65536
    requires 52 <= |b|
    requires b[..52] == front + WordLE(table) + WordLE(flags) + sizes + HalfLE(entry) + HalfLE(count) + HalfLE(names)
    ensures TableAt(b) == table && EntrySize(b) == entry && Count(b) == count && NameSection(b) == names
  {
    var h := b[..52];
    assert b[32..36] == h[32..36] == WordLE(table);
    WordRoundTrip(table);
    assert h[46] == HalfLE(entry)[0] && h[47] == HalfLE(entry)[1];
    assert h[48] == HalfLE(count)[0] && h[49] == HalfLE(count)[1];
    assert h[50] == HalfLE(names)[0] && h[51] == HalfLE(names)[1];
    assert b[46] == h[46] && b[47] == h[47] && b[48] == h[48] && b[49] == h[49] && b[50] == h[50] && b[51] == h[51];
  }

  // ---------- which sections go ----------

  const DEBUG: seq<Byte> := [46, 100, 101, 98, 117, 103]             // ".debug"
  const STRTAB: seq<Byte> := [46, 115, 116, 114, 116, 97, 98, 0]     // ".strtab" and its end
  const SYMTAB: seq<Byte> := [46, 115, 121, 109, 116, 97, 98, 0]     // ".symtab" and its end

  predicate StandsAt(b: seq<Byte>, at: nat, s: seq<Byte>) {
    at + |s| <= |b| && b[at..at + |s|] == s
  }

  /** What the file must be like: names are in the name section, and only the first section has none. */
  ghost predicate Named(b: seq<Byte>) {
    && HasTable(b) && 2 <= Count(b) && NameSection(b) < Count(b)
    && Kind(Section(b, NameSection(b))) == SHT_STRTAB
    && forall i :: 0 <= i < Count(b) ==>
      && Name(Section(b, i)) < Size(Section(b, NameSection(b)))
      && Start(Section(b, NameSection(b))) + Name(Section(b, i)) < |b|
      && (Name(Section(b, i)) == 0 <==> i == 0)
  }

  /** Debug sections and the full symbol table with its strings. */
  predicate Unneeded(b: seq<Byte>, i: nat)
    requires HasTable(b) && NameSection(b) < Count(b) && i < Count(b)
  {
    var at := Start(Section(b, NameSection(b))) + Name(Section(b, i));
    Name(Section(b, i)) != 0 && (StandsAt(b, at, DEBUG) || StandsAt(b, at, STRTAB) || StandsAt(b, at, SYMTAB))
  }

  /** At `at` stands the string `s`, ended by a zero byte. */
  ghost predicate Spells(b: seq<Byte>, at: nat, s: string) {
    && at + |s| < |b| && b[at + |s|] == 0
    && forall k :: 0 <= k < |s| ==> s[k] as int != 0 && b[at + k] == s[k] as int
  }

  lemma PrefixSpelled(b: seq<Byte>, at: nat, s: string, bytes: seq<Byte>, t: string)
    requires Spells(b, at, s) && |bytes| == |t| && forall k :: 0 <= k < |t| ==> bytes[k] == t[k] as int != 0
    ensures StandsAt(b, at, bytes) <==> t <= s
  {
    if StandsAt(b, at, bytes) {
      forall k | 0 <= k < |t| ensures k < |s| && s[k] == t[k] {
        assert b[at + k] == b[at..at + |bytes|][k] == bytes[k];
      }
    }
    if t <= s {
      assert b[at..at + |bytes|] == bytes;
    }
  }

  lemma WordSpelled(b: seq<Byte>, at: nat, s: string, bytes: seq<Byte>, t: string)
    requires Spells(b, at, s) && |bytes| == |t| + 1 && bytes[|t|] == 0
    requires forall k :: 0 <= k < |t| ==> bytes[k] == t[k] as int != 0
    ensures StandsAt(b, at, bytes) <==> s == t
  {
    var front := bytes[..|t|];
    assert |t| < |s| ==> b[at + |t|] == s[|t|] as int != 0;
    PrefixSpelled(b, at, s, front, t);
    if StandsAt(b, at, bytes) {
      assert b[at..at + |t|] == b[at..at + |bytes|][..|t|] == front;
      assert b[at + |t|] == b[at..at + |bytes|][|t|] == 0;
    }
    if s == t {
      assert b[at..at + |bytes|] == b[at..at + |t|] + [b[at + |t|]] && bytes == front + [bytes[|t|]];
    }
  }

  /** A section goes if and only if its name begins with .debug, or is .strtab or .symtab. */
  lemma UnneededByName(b: seq<Byte>, i: nat, name: string)
    requires Named(b) && 1 <= i < Count(b) && Spells(b, Start(Section(b, NameSection(b))) + Name(Section(b, i)), name)
    ensures Unneeded(b, i) <==> ".debug" <= name || name == ".strtab" || name == ".symtab"
  {
    var at := Start(Section(b, NameSection(b))) + Name(Section(b, i));
    hide Section, Start, Name, Spells, StandsAt;
    PrefixSpelled(b, at, name, DEBUG, ".debug");
    WordSpelled(b, at, name, STRTAB, ".strtab");
    WordSpelled(b, at, name, SYMTAB, ".symtab");
  }

  ghost predicate Increasing(s: seq<nat>) {
    forall j, k :: 0 <= j < k < |s| ==> s[j] < s[k]
  }

  /** The indexes of the sections among the first `n` that stay, in order. */
  ghost predicate Selected(b: seq<Byte>, kept: seq<nat>, n: nat)
    requires Named(b) && n <= Count(b)
  {
    && Increasing(kept) && (forall j :: 0 <= j < |kept| ==> kept[j] < n)
    && forall i :: 0 <= i < n ==> (i in kept <==> !Unneeded(b, i))
  }

  lemma SelectedMore(b: seq<Byte>, kept: seq<nat>, n: nat)
    requires Named(b) && n < Count(b) && Selected(b, kept, n)
    ensures Unneeded(b, n) ==> Selected(b, kept, n + 1)
    ensures !Unneeded(b, n) ==> Selected(b, kept + [n], n + 1)
  {
    hide Named, Unneeded;
    assert n !in kept;
  }

  method SelectSections(f: array<Byte>) returns (kept: seq<nat>, headers: seq<Header>)
    requires Named(f[..])
    ensures Selected(f[..], kept, Count(f[..])) && kept != [] && kept[0] == 0
    ensures |headers| == |kept| && forall j :: 0 <= j < |kept| ==> headers[j] == Section(f[..], kept[j])
  {
    hide Unneeded, Selected, Section, Name, Kind, Start, Size;
    kept, headers := [], [];
    var b := f[..];
    SelectedNone(b);
    for i := 0 to Count(b)
      invariant Selected(b, kept, i) && (if i == 0 then kept == [] else kept != [] && kept[0] == 0)
      invariant |headers| == |kept| && forall j :: 0 <= j < |kept| ==>
        kept[j] < Count(b) && headers[j] == Section(b, kept[j])
    {
      var sh := Section(b, i);
      SelectedMore(b, kept, i);
      if Name(sh) == 0 {
        assert i == 0;
        FirstStays(b);
        kept, headers := kept + [i], headers + [sh];
      } else if !Unneeded(b, i) {
        kept, headers := kept + [i], headers + [sh];
      }
    }
  }

  lemma SelectedNone(b: seq<Byte>)
    requires Named(b)
    ensures Selected(b, [], 0)
  {
  }

  lemma FirstStays(b: seq<Byte>)
    requires Named(b)
    ensures !Unneeded(b, 0)
  {
  }

  // ---------- moving what stays ----------

  /** Where a section is and what its place must be a multiple of. */
  datatype Span = Span(start: nat, size: nat, alignment: nat) {
    predicate Aligned(at: nat) { alignment > 1 ==> at % alignment == 0 }
  }

  function SpanOf(h: Header): Span {
    Span(Start(h), Size(h), Alignment(h))
  }

  /** A section has been moved to `at`: not later, aligned, ending by `end`, with its bytes. */
  ghost predicate Moved(b: seq<Byte>, span: Span, now: seq<Byte>, at: nat, end: nat) {
    && at <= span.start && span.Aligned(at) && at + span.size <= end
    && span.start + span.size <= |b| == |now|
    && now[at..at + span.size] == b[span.start..span.start + span.size]
  }

  /** `memmove` to an earlier place. */
  method MoveEarlier(f: array<Byte>, to: nat, from: nat, n: nat)
    requires to <= from && from + n <= f.Length
    modifies f
    ensures f[..to] == old(f[..to]) && f[to + n..] == old(f[to + n..])
    ensures f[to..to + n] == old(f[from..from + n])
  {
    for k := 0 to n
      invariant f[..to] == old(f[..to]) && f[to + k..] == old(f[to + k..])
      invariant f[to..to + k] == old(f[from..from + k])
    {
      assert f[from + k] == f[to + k..][from - to];
      f[to + k] := f[from + k];
      assert old(f[to + k + 1..]) == old(f[to + k..])[1..];
    }
  }

  /** The state after the first `n` kept sections were placed, in order and apart, from `first` up to `end`. */
  ghost predicate Compacted(b: seq<Byte>, spans: seq<Span>, now: seq<Byte>, places: seq<nat>, first: nat, end: nat) {
    && |places| == |spans| && |now| == |b| && first <= end <= |b|
    && now[..first] == b[..first] && now[end..] == b[end..]
    && (forall j :: 0 <= j < |spans| ==> first <= places[j] && Moved(b, spans[j], now, places[j], end))
    && forall j, k :: 0 <= j < k < |spans| ==> places[j] + spans[j].size <= places[k]
  }

  /** Placing one more section keeps all that was placed. */
  lemma CompactedMore(b: seq<Byte>, spans: seq<Span>, now: seq<Byte>, places: seq<nat>, first: nat, end: nat,
                      later: seq<Byte>, span: Span, at: nat)
    requires Compacted(b, spans, now, places, first, end) && end <= at
    requires Moved(b, span, later, at, at + span.size)
    requires later[..at] == now[..at] && later[at + span.size..] == now[at + span.size..]
    ensures Compacted(b, spans + [span], later, places + [at], first, at + span.size)
  {
    SliceOfHead(later, at, 0, first);
    SliceOfHead(now, at, 0, first);
    SliceOfTail(b, end, at + span.size, |b|);
    SliceOfTail(now, end, at + span.size, |b|);
    forall j | 0 <= j < |spans| ensures Moved(b, spans[j], later, places[j], at + span.size) {
      var to := places[j] + spans[j].size;
      SliceOfHead(later, at, places[j], to);
      SliceOfHead(now, at, places[j], to);
    }
  }

  /** The file header and the section headers are as they were, so a section header reads as it did. */
  lemma SameSection(b: seq<Byte>, now: seq<Byte>, i: nat, first: nat, end: nat)
    requires HasTable(b) && i < Count(b) && |now| == |b| && EHDR_SIZE <= first <= end <= TableAt(b)
    requires now[..first] == b[..first] && now[end..] == b[end..]
    ensures HasTable(now) && Count(now) == Count(b) && Section(now, i) == Section(b, i)
  {
    assert now[..first][32..36] == now[32..36] && b[..first][32..36] == b[32..36];
    assert now[..first][46] == now[46] && now[..first][47] == now[47] && now[..first][48] == now[48] &&
      now[..first][49] == now[49];
    var from, to := TableAt(b) + SHDR_SIZE * i, TableAt(b) + SHDR_SIZE * (i + 1);
    assert SHDR_SIZE * (i + 1) <= SHDR_SIZE * Count(b);
    SliceOfTail(now, end, from, to);
    SliceOfTail(b, end, from, to);
  }

  lemma SliceOfTail(s: seq<Byte>, end: nat, from: nat, to: nat)
    requires end <= from <= to <= |s|
    ensures s[from..to] == s[end..][from - end..to - end]
  {
  }

  /** The first aligned place from `offset`, which is no later than where the section is. */
  method NextPlace(span: Span, offset: nat) returns (at: nat)
    requires offset <= span.start && span.Aligned(span.start)
    ensures offset <= at <= span.start && span.Aligned(at)
  {
    at := offset;
    if span.alignment > 1 {
      RoundUpLeast(offset, span.alignment, span.start);
      at := RoundUp(offset, span.alignment);
    }
  }

  /** Puts one section at the first aligned place from `offset`, unless it is there already. */
  method PlaceSection(f: array<Byte>, span: Span, offset: nat, ghost b: seq<Byte>) returns (at: nat)
    requires offset <= span.start && span.Aligned(span.start) && span.start + span.size <= f.Length == |b|
    requires f[offset..] == b[offset..]
    modifies f
    ensures offset <= at <= span.start && Moved(b, span, f[..], at, at + span.size)
    ensures f[..at] == old(f[..at]) && f[at + span.size..] == old(f[at + span.size..])
  {
    hide Span.Aligned;
    ghost var end := span.start + span.size;
    SliceOfTail(f[..], offset, span.start, end);
    SliceOfTail(b, offset, span.start, end);
    assert f[span.start..end] == f[..][span.start..end] && f[..][offset..] == f[offset..];
    at := NextPlace(span, offset);
    if span.start != at {
      MoveEarlier(f, at, span.start, span.size);
    }
    assert f[..][at..at + span.size] == f[at..at + span.size];
  }

  /** The sections to place, in order, apart and aligned between `first` and `table`. */
  ghost predicate InOrder(spans: seq<Span>, first: nat, table: nat) {
    && (forall i :: 0 <= i < |spans| ==>
      first <= spans[i].start && spans[i].Aligned(spans[i].start) && spans[i].start + spans[i].size <= table)
    && forall i, j :: 0 <= i < j < |spans| ==> spans[i].start + spans[i].size <= spans[j].start
  }

  /** The spans of all sections but the first, which is only a header. */
  ghost function Spans(headers: seq<Header>): (spans: seq<Span>)
    requires headers != []
    ensures |spans| == |headers| - 1
  {
    seq(|headers| - 1, j requires 0 <= j < |headers| - 1 => SpanOf(headers[j + 1]))
  }

  /** Headers that differ from the old ones only in where the sections are. */
  ghost predicate Relocated(before: seq<Header>, now: seq<Header>, places: seq<nat>)
    requires before != []
  {
    && |now| == |before| == |places| + 1 && now[0] == before[0]
    && forall j :: 1 <= j < |now| ==> now[j] == WithStart(before[j], places[j - 1])
  }

  lemma {:induction false} WordReadBack(s: seq<Byte>)
    requires |s| == 4
    ensures WordLE(ReadWordLE(s)) == s
  {
    var b0: int, b1: int, b2: int, b3: int := s[0], s[1], s[2], s[3];
    var x := b0 + 256 * b1 + 65536 * b2 + 16777216 * b3;
    assert x / 256 == b1 + 256 * b2 + 65536 * b3;
    assert x / 65536 == b2 + 256 * b3;
    assert x / 16777216 == b3;
  }

  lemma SameStart(h: Header)
    ensures WithStart(h, Start(h)) == h
  {
    WordReadBack(h[16..20]);
  }

  lemma SpansNext(headers: seq<Header>, i: nat)
    requires 1 <= i < |headers|
    ensures Spans(headers)[i - 1] == SpanOf(headers[i])
    ensures Spans(headers)[..i] == Spans(headers)[..i - 1] + [SpanOf(headers[i])]
  {
  }

  /** Moves the kept sections up to close the gaps, reading each old header just before its section moves. */
  method Compact(f: array<Byte>, kept: seq<nat>, headers: seq<Header>, first: nat)
    returns (headers': seq<Header>, end: nat, ghost places: seq<nat>)
    requires HasTable(f[..]) && EHDR_SIZE <= first <= TableAt(f[..])
    requires |headers| == |kept| > 0 && forall j :: 0 <= j < |kept| ==>
      kept[j] < Count(f[..]) && headers[j] == Section(f[..], kept[j])
    requires InOrder(Spans(headers), first, TableAt(f[..]))
    modifies f
    ensures end <= TableAt(old(f[..])) && Compacted(old(f[..]), Spans(headers), f[..], places, first, end)
    ensures Relocated(headers, headers', places)
  {
    hide Section, Spans, WithStart, Compacted, Start, Size, Alignment, Span.Aligned, TableAt, Count, EntrySize, Moved;
    ghost var b, table, all := f[..], TableAt(f[..]), Spans(headers);
    end, places, headers' := first, [], headers;
    CompactedNone(b, first);
    for i := 1 to |headers|
      invariant |headers'| == |headers| && |places| == i - 1 && first <= end <= table
      invariant Compacted(b, all[..i - 1], f[..], places, first, end)
      invariant forall j :: i - 1 <= j < |all| ==> end <= all[j].start
      invariant headers'[0] == headers[0] && headers'[i..] == headers[i..]
      invariant forall j :: 1 <= j < i ==> headers'[j] == WithStart(headers[j], places[j - 1])
    {
      ghost var now := f[..];
      CompactedFrame(b, all[..i - 1], now, places, first, end);
      SameSection(b, now, kept[i], first, end);
      var sh := Section(f[..], kept[i]);
      assert sh == headers[i];
      var span := SpanOf(sh);
      SpansNext(headers, i);
      var at := PlaceSection(f, span, end, b);
      SameStart(sh);
      if span.start != at {
        headers' := headers'[i := WithStart(headers'[i], at)];
      }
      CompactedMore(b, all[..i - 1], now, places, first, end, f[..], span, at);
      places := places + [at];
      end := at + span.size;
    }
    assert all[..|headers| - 1] == all;
  }

  lemma CompactedNone(b: seq<Byte>, first: nat)
    requires first <= |b|
    ensures Compacted(b, [], b, [], first, first)
  {
  }

  lemma CompactedFrame(b: seq<Byte>, spans: seq<Span>, now: seq<Byte>, places: seq<nat>, first: nat, end: nat)
    requires Compacted(b, spans, now, places, first, end)
    ensures |now| == |b| && first <= end <= |b| && now[..first] == b[..first] && now[end..] == b[end..]
  {
  }

  // ---------- writing the new headers ----------

  method Store(f: array<Byte>, at: nat, data: seq<Byte>)
    requires at + |data| <= f.Length
    modifies f
    ensures f[..at] == old(f[..at]) && f[at..at + |data|] == data && f[at + |data|..] == old(f[at + |data|..])
  {
    for k := 0 to |data|
      invariant f[..at] == old(f[..at]) && f[at..at + k] == data[..k] && f[at + k..] == old(f[at + k..])
    {
      f[at + k] := data[k];
      assert old(f[at + k + 1..]) == old(f[at + k..])[1..];
    }
    assert data[..|data|] == data;
  }

  /** The headers stand one after another at `at`. */
  ghost predicate HeadersAt(b: seq<Byte>, at: nat, headers: seq<Header>) {
    && at + SHDR_SIZE * |headers| <= |b|
    && forall j {:trigger headers[j]} :: 0 <= j < |headers| ==>
         b[at + SHDR_SIZE * j..at + SHDR_SIZE * (j + 1)] == headers[j]
  }

  lemma HeadersMore(b: seq<Byte>, b': seq<Byte>, at: nat, headers: seq<Header>, h: Header)
    requires HeadersAt(b, at, headers) && at + SHDR_SIZE * (|headers| + 1) <= |b'|
    requires b'[..at + SHDR_SIZE * |headers|] == b[..at + SHDR_SIZE * |headers|]
    requires b'[at + SHDR_SIZE * |headers|..at + SHDR_SIZE * (|headers| + 1)] == h
    ensures HeadersAt(b', at, headers + [h])
  {
    var end := at + SHDR_SIZE * |headers|;
    forall j | 0 <= j < |headers| ensures b'[at + SHDR_SIZE * j..at + SHDR_SIZE * (j + 1)] == headers[j] {
      assert SHDR_SIZE * (j + 1) <= SHDR_SIZE * |headers|;
      SliceOfHead(b, end, at + SHDR_SIZE * j, at + SHDR_SIZE * (j + 1));
      SliceOfHead(b', end, at + SHDR_SIZE * j, at + SHDR_SIZE * (j + 1));
    }
  }

  lemma SliceOfHead(s: seq<Byte>, end: nat, from: nat, to: nat)
    requires from <= to <= end <= |s|
    ensures s[from..to] == s[..end][from..to]
  {
  }

  method WriteTable(f: array<Byte>, at: nat, headers: seq<Header>)
    requires at + SHDR_SIZE * |headers| <= f.Length
    modifies f
    ensures f[..at] == old(f[..at]) && HeadersAt(f[..], at, headers)
  {
    hide HeadersAt;
    HeadersNone(f[..], at);
    for j := 0 to |headers|
      invariant f[..at] == old(f[..at]) && HeadersAt(f[..], at, headers[..j])
    {
      ghost var before := f[..];
      assert SHDR_SIZE * (j + 1) <= SHDR_SIZE * |headers|;
      Store(f, at + SHDR_SIZE * j, headers[j]);
      SliceOfHead(before, at + SHDR_SIZE * j, 0, at);
      SliceOfHead(f[..], at + SHDR_SIZE * j, 0, at);
      HeadersMore(before, f[..], at, headers[..j], headers[j]);
      assert headers[..j + 1] == headers[..j] + [headers[j]];
    }
    assert headers[..|headers|] == headers;
  }

  lemma HeadersNone(b: seq<Byte>, at: nat)
    requires at <= |b|
    ensures HeadersAt(b, at, [])
  {
  }

  /** The file header's own fields for the section header table. */
  predicate TableField(p: nat) {
    32 <= p < 36 || 48 <= p < 50
  }

  method UpdateFileHeader(f: array<Byte>, shoff: nat, shnum: nat)
    requires EHDR_SIZE <= f.Length && shoff < TWO32 && shnum < 65536
    modifies f
    ensures TableAt(f[..]) == shoff && Count(f[..]) == shnum
    ensures forall p :: 0 <= p < f.Length && !TableField(p) ==> f[p] == old(f[p])
  {
    WordRoundTrip(shoff);
    Store(f, 48, HalfLE(shnum));
    ghost var mid := f[..];
    assert forall p :: 50 <= p < f.Length ==> f[p] == f[50..][p - 50] && old(f[p]) == old(f[50..])[p - 50];
    assert forall p :: 0 <= p < 48 ==> f[p] == f[..48][p] && old(f[p]) == old(f[..48])[p];
    assert f[48] == f[48..50][0] && f[49] == f[48..50][1];
    Store(f, 32, WordLE(shoff));
    assert forall p :: 36 <= p < f.Length ==> f[p] == f[36..][p - 36] && mid[p] == mid[36..][p - 36];
    assert forall p :: 0 <= p < 32 ==> f[p] == f[..32][p] && mid[p] == mid[..32][p];
    assert f[..][32..36] == f[32..36];
  }

  /**
   * `r` is `b` with only the sections `kept`: each with its bytes, its header changed only in where
   * it is, aligned, no later than before and apart from the others; and the rest of the front of the
   * file as it was.
   */
  ghost predicate Stripped(b: seq<Byte>, r: seq<Byte>, kept: seq<nat>)
    requires HasTable(b) && 2 <= Count(b) && forall j :: 0 <= j < |kept| ==> kept[j] < Count(b)
  {
    && HasTable(r) && Count(r) == |kept| > 0 && TableAt(r) + SHDR_SIZE * |kept| == |r|
    && Section(r, 0) == Section(b, kept[0])
    && (forall j :: 1 <= j < |kept| ==> Same(b, Section(b, kept[j]), r, Section(r, j), TableAt(r)))
    && (forall j, k :: 1 <= j < k < |kept| ==> Start(Section(r, j)) + Size(Section(r, j)) <= Start(Section(r, k)))
    && forall p :: 0 <= p < Start(Section(b, 1)) && p < |r| && p < |b| && !TableField(p) ==> r[p] == b[p]
  }

  /** The section with header `h'` in `r` is the one with header `h` in `b`, no later and still aligned. */
  ghost predicate Same(b: seq<Byte>, h: Header, r: seq<Byte>, h': Header, table: nat) {
    && h' == WithStart(h, Start(h')) && Size(h') == Size(h) && Alignment(h') == Alignment(h)
    && Start(h') <= Start(h) && (Alignment(h') > 1 ==> Start(h') % Alignment(h') == 0)
    && Start(h') + Size(h') <= table <= |r| && Start(h) + Size(h) <= |b|
    && r[Start(h')..Start(h') + Size(h')] == b[Start(h)..Start(h) + Size(h)]
  }

  lemma WithStartReads(h: Header, start: nat)
    requires start < TWO32
    ensures Start(WithStart(h, start)) == start && Size(WithStart(h, start)) == Size(h)
    ensures Alignment(WithStart(h, start)) == Alignment(h)
  {
    var h' := WithStart(h, start);
    WordRoundTrip(start);
    assert h'[16..20] == WordLE(start) && h'[20..24] == h[20..24] && h'[32..36] == h[32..36];
  }

  /** Puts together what the steps of stripping established. */
  lemma StrippedAll(b: seq<Byte>, kept: seq<nat>, headers: seq<Header>, first: nat, mid: seq<Byte>,
                    headers': seq<Header>, places: seq<nat>, end: nat, r: seq<Byte>)
    requires HasTable(b) && 2 <= Count(b) && |headers| == |kept| > 0
    requires forall j :: 0 <= j < |kept| ==> kept[j] < Count(b) && headers[j] == Section(b, kept[j])
    requires EHDR_SIZE <= first == Start(Section(b, 1)) <= end <= |b|
    requires Compacted(b, Spans(headers), mid, places, first, end) && Relocated(headers, headers', places)
    requires |r| == end + SHDR_SIZE * |kept| <= |b| && TableAt(r) == end && Count(r) == |kept|
    requires HeadersAt(r, end, headers')
    requires forall p :: 0 <= p < end && !TableField(p) ==> r[p] == mid[p]
    ensures Stripped(b, r, kept)
  {
    hide WithStart, Start, Size, Alignment, Section, TableAt;
    assert HasTable(r) by { SameEntrySize(b, mid, r, first, end); }
    forall j | 0 <= j < |kept| ensures Section(r, j) == headers'[j] {
      SectionReads(r, j);
    }
    forall j | 1 <= j < |kept| ensures Same(b, headers[j], r, headers'[j], end) && Start(headers'[j]) == places[j - 1] {
      SameMoved(b, headers, mid, places, first, end, headers', r, j);
    }
    forall j, k | 1 <= j < k < |kept| ensures Start(Section(r, j)) + Size(Section(r, j)) <= Start(Section(r, k)) {
      assert places[j - 1] + Spans(headers)[j - 1].size <= places[k - 1];
      SpansNext(headers, j);
    }
    forall p | 0 <= p < first && p < |r| && p < |b| && !TableField(p) ensures r[p] == b[p] {
      assert mid[p] == mid[..first][p] && b[p] == b[..first][p];
    }
  }

  lemma SameEntrySize(b: seq<Byte>, mid: seq<Byte>, r: seq<Byte>, first: nat, end: nat)
    requires HasTable(b) && EHDR_SIZE <= first <= end <= |r| <= |b| == |mid| && mid[..first] == b[..first]
    requires TableAt(r) + SHDR_SIZE * Count(r) <= |r|
    requires forall p :: 0 <= p < end && !TableField(p) ==> r[p] == mid[p]
    ensures HasTable(r)
  {
    assert mid[46] == mid[..first][46] && mid[47] == mid[..first][47] && b[46] == b[..first][46] &&
      b[47] == b[..first][47];
  }

  lemma SectionReads(r: seq<Byte>, j: nat)
    requires HasTable(r) && j < Count(r)
    ensures TableAt(r) + SHDR_SIZE * (j + 1) <= |r|
    ensures Section(r, j) == r[TableAt(r) + SHDR_SIZE * j..TableAt(r) + SHDR_SIZE * (j + 1)]
  {
    assert SHDR_SIZE * (j + 1) <= SHDR_SIZE * Count(r);
  }

  lemma SameMoved(b: seq<Byte>, headers: seq<Header>, mid: seq<Byte>, places: seq<nat>, first: nat, end: nat,
                  headers': seq<Header>, r: seq<Byte>, j: nat)
    requires 1 <= j < |headers| && |b| < TWO32 && EHDR_SIZE <= first
    requires Compacted(b, Spans(headers), mid, places, first, end) && Relocated(headers, headers', places)
    requires end <= |r| && forall p :: 0 <= p < end && !TableField(p) ==> r[p] == mid[p]
    ensures Same(b, headers[j], r, headers'[j], end) && Start(headers'[j]) == places[j - 1]
  {
    hide WithStart, Start, Size, Alignment;
    SpansNext(headers, j);
    var at, span := places[j - 1], SpanOf(headers[j]);
    assert Moved(b, span, mid, at, end) && first <= at;
    WithStartReads(headers[j], at);
    assert r[at..at + span.size] == mid[at..at + span.size];
  }

  /**
   * Strips the mapped file `f` in place; what is left after truncation is `f[..length]`. Reading the
   * old headers while sections move is safe because nothing is ever written past where it is read.
   */
  method Strip(f: array<Byte>) returns (length: nat, ghost kept: seq<nat>)
    requires Named(f[..]) && Ordered(f[..])
    modifies f
    ensures length <= f.Length
    ensures Selected(old(f[..]), kept, Count(old(f[..]))) && Stripped(old(f[..]), f[..length], kept)
  {
    hide Ordered, Selected, Stripped, Compacted, HeadersAt, Section, Start, InOrder, Spans, Same, Unneeded,
      TableAt, Count, WithStart;
    ghost var b := f[..];
    var indexes, headers := SelectSections(f);
    kept := indexes;
    KeptAreSections(b, kept);
    var first := Start(Section(f[..], 1));
    KeptInOrder(b, kept, headers, first);
    var headers', end;
    ghost var places;
    headers', end, places := Compact(f, indexes, headers, first);
    length := end + SHDR_SIZE * |headers'|;
    assert SHDR_SIZE * |headers'| <= SHDR_SIZE * Count(b);
    ghost var mid := f[..];
    CompactedFrame(b, Spans(headers), mid, places, first, end);
    WriteTable(f, end, headers');
    ghost var written := f[..];
    UpdateFileHeader(f, end, |headers'|);
    TruncatedReads(written, f[..], end, headers', length);
    assert forall p :: 0 <= p < end ==> written[p] == written[..end][p] && mid[p] == mid[..end][p];
    StrippedAll(b, kept, headers, first, mid, headers', places, end, f[..length]);
  }

  /** Truncating after the table, and the writes to the file header before it, leave the table as written. */
  lemma TruncatedReads(written: seq<Byte>, now: seq<Byte>, end: nat, headers: seq<Header>, length: nat)
    requires HeadersAt(written, end, headers) && |now| == |written| && EHDR_SIZE <= end
    requires length == end + SHDR_SIZE * |headers| && forall p :: 0 <= p < |now| && !TableField(p) ==>
      now[p] == written[p]
    ensures length <= |now| && HeadersAt(now[..length], end, headers)
    ensures TableAt(now[..length]) == TableAt(now) && Count(now[..length]) == Count(now)
  {
    var r := now[..length];
    assert r[32..36] == now[32..36];
    forall j {:trigger headers[j]} | 0 <= j < |headers|
      ensures r[end + SHDR_SIZE * j..end + SHDR_SIZE * (j + 1)] == headers[j]
    {
      assert SHDR_SIZE * (j + 1) <= SHDR_SIZE * |headers|;
      var from, to := end + SHDR_SIZE * j, end + SHDR_SIZE * (j + 1);
      assert forall p :: from <= p < to ==> r[p] == written[p];
      assert r[from..to] == written[from..to];
    }
  }

  /**
   * The sections that stay follow the start of the first section in order, apart and aligned, and
   * the section headers come last. Those that go may be anywhere.
   */
  ghost predicate Ordered(b: seq<Byte>)
    requires Named(b)
  {
    && EHDR_SIZE <= Start(Section(b, 1)) <= TableAt(b)
    && (forall i :: 1 <= i < Count(b) && !Unneeded(b, i) ==>
          var span := SpanOf(Section(b, i));
          Start(Section(b, 1)) <= span.start && span.Aligned(span.start) && span.start + span.size <= TableAt(b))
    && forall i, j :: 1 <= i < j < Count(b) && !Unneeded(b, i) && !Unneeded(b, j) ==>
         Start(Section(b, i)) + Size(Section(b, i)) <= Start(Section(b, j))
  }

  lemma {:induction false} IncreasingLength(s: seq<nat>, n: nat)
    requires Increasing(s) && forall j :: 0 <= j < |s| ==> s[j] < n
    ensures |s| <= n
  {
    if s != [] {
      IncreasingLength(s[..|s| - 1], s[|s| - 1]);
    }
  }

  lemma KeptAreSections(b: seq<Byte>, kept: seq<nat>)
    requires Named(b) && Selected(b, kept, Count(b))
    ensures |kept| <= Count(b) < 65536 && forall j :: 0 <= j < |kept| ==> kept[j] < Count(b)
  {
    IncreasingLength(kept, Count(b));
  }

  lemma KeptInOrder(b: seq<Byte>, kept: seq<nat>, headers: seq<Header>, first: nat)
    requires Named(b) && Ordered(b) && Selected(b, kept, Count(b)) && kept != [] && kept[0] == 0
    requires |headers| == |kept| && forall j :: 0 <= j < |kept| ==> headers[j] == Section(b, kept[j])
    requires first == Start(Section(b, 1))
    ensures EHDR_SIZE <= first <= TableAt(b) && InOrder(Spans(headers), first, TableAt(b))
  {
    hide Section, Start, Size, Alignment, TableAt, Count, Unneeded, Span.Aligned, Name, Kind;
    var spans := Spans(headers);
    forall j | 0 <= j < |spans|
      ensures spans[j] == SpanOf(Section(b, kept[j + 1])) && 1 <= kept[j + 1] < Count(b) && !Unneeded(b, kept[j + 1])
    {
      assert kept[0] < kept[j + 1] && kept[j + 1] in kept;
    }
  }
}
