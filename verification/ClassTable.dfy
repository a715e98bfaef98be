/**
 * The class table and the image classes that are moved into it lazily, as a state machine over
 * the steps of `FindClass` and the functions it calls, interleaved by any number of threads.
 */
module ClassTable {
  import opened Options

  /** The boot class loader is `NULL` in the code. */
  type Loader = nat

  const BOOT: Loader := 0
  const MAX_FAILED_DEX_CACHE_LOOKUPS: nat := 1000

  datatype Status = Loading | Resolved | Erroneous

  datatype Class = Class(descriptor: string, loader: Loader, status: Status)

  /** An entry of the multimap from descriptor hash to class; classes are indices into the heap. */
  datatype Entry = Entry(hash: nat, cls: nat)

  /** Where a thread's call of `FindClass` stands. */
  datatype Pc =
    | Idle
    | Miss(d: string, l: Loader)                    // the table had no such class
    | Search(d: string, i: nat)                     // searching the image's dex caches from cache i on
    | Found(d: string, c: nat, i: nat, j: nat)      // cache i holds c as its type j
    | Exhausted(d: string)                          // no dex cache holds it
    | MoveWait(then_: Option<string>)               // MoveImageClassesToClassTable, waiting for the lock
    | Moving(then_: Option<string>, i: nat, j: nat) // holding the lock, at type j of cache i
    | Absent(d: string, l: Loader)                  // LookupClass returned NULL
    | Defined(d: string, l: Loader, c: nat)         // DefineClass made class c, not yet inserted
    | Linking(d: string, l: Loader, c: nat)         // class c is in the table and being linked
    | Ensure(d: string, l: Loader, c: nat)          // EnsureResolved
    | Done(d: string, l: Loader, result: Option<nat>)

  /**
   * `types[i][j]` is the descriptor of type `j` of the image's dex file `i`; `compileTime` is
   * `UseCompileTimeClassPath`, and `bootClassPath` the descriptors `IsInBootClassPath` accepts.
   */
  datatype Config = Config(threads: nat, types: seq<seq<string>>, hash: string -> nat, compileTime: bool,
                           bootClassPath: set<string>) {
    /** A dex file lists each type once. */
    ghost predicate Valid() {
      forall i, j, m :: 0 <= i < |types| && 0 <= j < m < |types[i]| ==> types[i][j] != types[i][m]
    }

    /** In the compiler every loader leaves the classes of the boot class path to the boot loader. */
    predicate Redirects(d: string, l: Loader) {
      compileTime && l != BOOT && d in bootClassPath
    }

    /** The loader that defines the class a call of `FindClass` returns. */
    function Definer(d: string, l: Loader): Loader {
      if Redirects(d, l) then BOOT else l
    }
  }

  /** `writer` is the thread moving the image classes, which holds the classes lock throughout. */
  datatype State = State(
    heap: seq<Class>, table: seq<Entry>, caches: seq<seq<Option<nat>>>,
    lookupRequired: bool, failed: nat, writer: Option<nat>, pcs: seq<Pc>)

  datatype Action =
    | Start(descriptor: string, loader: Loader)
    | LookupAll
    | Advance(ok: bool)
    | Remember(i: nat, j: nat)

  ghost predicate Shape(g: Config, s: State) {
    && |s.pcs| == g.threads && |s.caches| == |g.types|
    && forall i :: 0 <= i < |g.types| ==> |s.caches[i]| == |g.types[i]|
  }

  predicate Matches(heap: seq<Class>, e: Entry, h: nat, d: string, l: Loader) {
    e.hash == h && e.cls < |heap| && heap[e.cls].loader == l && heap[e.cls].descriptor == d
  }

  /** `LookupClassFromTableLocked`: the first entry of the bucket with this descriptor and loader. */
  function Lookup(g: Config, heap: seq<Class>, table: seq<Entry>, d: string, l: Loader): Option<nat> {
    if table == [] then None
    else if Matches(heap, table[0], g.hash(d), d, l) then Some(table[0].cls)
    else Lookup(g, heap, table[1..], d, l)
  }

  /** The class that cache `i` has resolved for descriptor `d`, with its type index. */
  ghost predicate Cached(g: Config, s: State, i: nat, j: nat, d: string, c: nat)
    requires Shape(g, s)
  {
    i < |g.types| && j < |g.types[i]| && g.types[i][j] == d && s.caches[i][j] == Some(c)
  }

  ghost predicate InTable(g: Config, s: State, c: nat) {
    c < |s.heap| && Entry(g.hash(s.heap[c].descriptor), c) in s.table
  }

  function Go(s: State, t: nat, pc: Pc): State
    requires t < |s.pcs|
  {
    s.(pcs := s.pcs[t := pc])
  }

  /** `InsertClass`, under the lock: `None` if the class went in, otherwise the class already there. */
  function Insert(g: Config, s: State, d: string, c: nat): (State, Option<nat>)
    requires c < |s.heap|
  {
    var existing := Lookup(g, s.heap, s.table, d, s.heap[c].loader);
    if existing.Some? then (s, existing) else (s.(table := s.table + [Entry(g.hash(d), c)]), None)
  }

  /** One iteration of the migration loop; `None` where its CHECK would fail. */
  function MoveOne(g: Config, s: State, c: nat): Option<State>
    requires c < |s.heap|
  {
    var existing := Lookup(g, s.heap, s.table, s.heap[c].descriptor, BOOT);
    if existing.None? then Some(s.(table := s.table + [Entry(g.hash(s.heap[c].descriptor), c)]))
    else if existing == Some(c) then Some(s) else None
  }

  /** Index of a descriptor among a dex file's types, if it is there. */
  function TypeIndex(types: seq<string>, d: string): (j: Option<nat>)
    ensures j.Some? ==> j.value < |types| && types[j.value] == d
    ensures j.None? ==> d !in types
  {
    if types == [] then None
    else if types[0] == d then Some(0)
    else var r := TypeIndex(types[1..], d); if r.None? then None else Some(r.value + 1)
  }

  function AfterMove(d: Option<string>): Pc {
    if d.None? then Idle else Absent(d.value, BOOT)
  }

  /** `LookupClass` up to its search of the table: a call of `FindClass` starts with it. */
  function Looked(g: Config, s: State, t: nat, d: string, l: Loader): State
    requires t < |s.pcs|
  {
    var r := Lookup(g, s.heap, s.table, d, l);
    Go(s, t, if r.Some? then Ensure(d, l, r.value) else Miss(d, l))
  }

  /** The next step of a thread, or `None` when it is blocked or the runtime aborts. */
  ghost function Next(g: Config, s: State, t: nat, a: Action): Option<State>
    requires Shape(g, s) && t < g.threads
  {
    match a
    case Start(d, l) =>
      if !(s.pcs[t].Idle? || s.pcs[t].Done?) || s.writer.Some? then None
      else
        Some(Looked(g, s, t, d, l))
    case LookupAll => if s.pcs[t].Idle? then Some(Go(s, t, MoveWait(None))) else None
    case Remember(i, j) =>
      // ResolveType stores what FindClass returned into the dex cache it resolves for
      if s.pcs[t].Done? && s.pcs[t].l == BOOT && s.pcs[t].result.Some? &&
         i < |g.types| && j < |g.types[i]| && g.types[i][j] == s.pcs[t].d
      then Some(s.(caches := s.caches[i := s.caches[i][j := s.pcs[t].result]])) else None
    case Advance(ok) => Step(g, s, t, ok)
  }

  ghost function Step(g: Config, s: State, t: nat, ok: bool): Option<State>
    requires Shape(g, s) && t < g.threads
  {
    match s.pcs[t]
    case Idle => None
    case Miss(d, l) => Some(Go(s, t, if l != BOOT || !s.lookupRequired then Absent(d, l) else Search(d, 0)))
    case Search(d, i) =>
      if i >= |g.types| then Some(Go(s, t, Exhausted(d)))
      else
        var j := TypeIndex(g.types[i], d);
        if j.Some? && s.caches[i][j.value].Some? then Some(Go(s, t, Found(d, s.caches[i][j.value].value, i, j.value)))
        else Some(Go(s, t, Search(d, i + 1)))
    case Found(d, c, _, _) =>
      if s.writer.Some? || c >= |s.heap| then None
      else Some(Go(Insert(g, s, d, c).0, t, Ensure(d, BOOT, c)))
    case Exhausted(d) =>
      var s1 := s.(failed := s.failed + 1);
      Some(Go(s1, t, if s1.failed > MAX_FAILED_DEX_CACHE_LOOKUPS then MoveWait(Some(d)) else Absent(d, BOOT)))
    case MoveWait(d) =>
      if s.writer.Some? then None
      else if !s.lookupRequired then Some(Go(s, t, AfterMove(d)))
      else Some(Go(s.(writer := Some(t)), t, Moving(d, 0, 0)))
    case Moving(d, i, j) =>
      if i >= |g.types| then Some(Go(s.(writer := None, lookupRequired := false), t, AfterMove(d)))
      else if j >= |g.types[i]| then Some(Go(s, t, Moving(d, i + 1, 0)))
      else
        var c := s.caches[i][j];
        if c.None? then Some(Go(s, t, Moving(d, i, j + 1)))
        else if c.value >= |s.heap| then None
        else var r := MoveOne(g, s, c.value); if r.None? then None else Some(Go(r.value, t, Moving(d, i, j + 1)))
    case Absent(d, l) =>
      if g.Redirects(d, l) then if s.writer.Some? then None else Some(Looked(g, s, t, d, BOOT)) // FindSystemClass
      else if ok then Some(Go(s.(heap := s.heap + [Class(d, l, Loading)]), t, Defined(d, l, |s.heap|)))
      else Some(Go(s, t, Done(d, l, None)))
    case Defined(d, l, c) =>
      if s.writer.Some? || c >= |s.heap| then None
      else
        var (s1, existing) := Insert(g, s, d, c);
        Some(Go(s1, t, if existing.Some? then Ensure(d, l, existing.value) else Linking(d, l, c)))
    case Linking(d, l, c) =>
      if c >= |s.heap| then None
      else Some(Go(s.(heap := s.heap[c := s.heap[c].(status := if ok then Resolved else Erroneous)]), t,
                   Done(d, l, if ok then Some(c) else None)))
    case Ensure(d, l, c) =>
      if c >= |s.heap| || s.heap[c].status.Loading? then None
      else Some(Go(s, t, Done(d, l, if s.heap[c].status.Resolved? then Some(c) else None)))
    case Done(_, _, _) => None
  }

  // ---- the invariant ----

  ghost predicate TableOk(g: Config, s: State) {
    && (forall k :: 0 <= k < |s.table| ==>
          s.table[k].cls < |s.heap| && s.table[k].hash == g.hash(s.heap[s.table[k].cls].descriptor))
    && (forall k, m :: 0 <= k < m < |s.table| ==> !SameName(s.heap, s.table[k].cls, s.table[m].cls))
  }

  predicate SameName(heap: seq<Class>, c: nat, e: nat) {
    c < |heap| && e < |heap| && heap[c].descriptor == heap[e].descriptor && heap[c].loader == heap[e].loader
  }

  ghost predicate CacheOk(g: Config, s: State)
    requires Shape(g, s)
  {
    && (forall i: nat, j: nat, d, c: nat :: Cached(g, s, i, j, d, c) ==>
         c < |s.heap| && s.heap[c].descriptor == d && s.heap[c].loader == BOOT)
    && (forall i: nat, j: nat, k: nat, m: nat, d, c: nat, e: nat ::
         Cached(g, s, i, j, d, c) && Cached(g, s, k, m, d, e) ==> c == e)
    && (forall i: nat, j: nat, d, c: nat, e: nat ::
         Cached(g, s, i, j, d, c) && InTable(g, s, e) && SameName(s.heap, c, e) ==> c == e)
  }

  /** Everything the image dex caches know under `d`, in caches before `n`, is in the table. */
  ghost predicate ClearUpTo(g: Config, s: State, d: string, n: nat)
    requires Shape(g, s)
  {
    forall i: nat, j: nat, c: nat :: i < n && Cached(g, s, i, j, d, c) ==> InTable(g, s, c)
  }

  ghost predicate MovedUpTo(g: Config, s: State, i: nat, j: nat)
    requires Shape(g, s)
  {
    forall k: nat, m: nat, d, c: nat :: Cached(g, s, k, m, d, c) && (k < i || (k == i && m < j)) ==> InTable(g, s, c)
  }

  ghost predicate Named(s: State, c: nat, d: string, l: Loader) {
    c < |s.heap| && s.heap[c].descriptor == d && s.heap[c].loader == l
  }

  ghost predicate PcOk(g: Config, s: State, t: nat)
    requires Shape(g, s) && t < g.threads
  {
    match s.pcs[t]
    case Idle => true
    case Miss(d, l) => true
    case Search(d, i) => ClearUpTo(g, s, d, i)
    case Found(d, c, i, j) => Cached(g, s, i, j, d, c)
    case Exhausted(d) => ClearUpTo(g, s, d, |g.types|)
    case MoveWait(d) => d.Some? ==> ClearUpTo(g, s, d.value, |g.types|)
    case Moving(d, i, j) =>
      && s.writer == Some(t) && s.lookupRequired && MovedUpTo(g, s, i, j)
      && (d.Some? ==> ClearUpTo(g, s, d.value, |g.types|))
    case Absent(d, l) => l == BOOT ==> ClearUpTo(g, s, d, |g.types|)
    case Defined(d, l, c) => Named(s, c, d, l) && (l == BOOT ==> ClearUpTo(g, s, d, |g.types|))
    case Linking(d, l, c) => Named(s, c, d, l) && InTable(g, s, c)
    case Ensure(d, l, c) => Named(s, c, d, l) && InTable(g, s, c)
    case Done(d, l, r) => r.Some? ==> Named(s, r.value, d, l) && InTable(g, s, r.value)
  }

  ghost predicate Inv(g: Config, s: State) {
    && g.Valid() && Shape(g, s) && TableOk(g, s) && CacheOk(g, s)
    && (!s.lookupRequired ==> MovedUpTo(g, s, |g.types|, 0))
    && (s.writer.Some? ==> s.writer.value < g.threads && s.pcs[s.writer.value].Moving?)
    && (forall t :: 0 <= t < g.threads ==> PcOk(g, s, t))
  }

  /** A table lookup finds a class exactly when the table holds that class under that name. */
  lemma {:induction false} LookupFinds(g: Config, heap: seq<Class>, table: seq<Entry>, d: string, l: Loader)
    requires forall k :: 0 <= k < |table| ==>
      table[k].cls < |heap| && table[k].hash == g.hash(heap[table[k].cls].descriptor)
    requires forall k, m :: 0 <= k < m < |table| ==> !SameName(heap, table[k].cls, table[m].cls)
    ensures forall c: nat :: Lookup(g, heap, table, d, l) == Some(c) <==>
      c < |heap| && heap[c].descriptor == d && heap[c].loader == l && Entry(g.hash(d), c) in table
  {
    if table != [] {
      LookupFinds(g, heap, table[1..], d, l);
      assert table == [table[0]] + table[1..];
    }
  }

  // ---- every step keeps the invariant ----

  /** Nothing is forgotten: classes keep their names, the table only grows, dex caches keep their
      classes and gain only classes that are in the table, and the flag is never set again. */
  ghost predicate Grows(g: Config, s: State, s': State) {
    && Shape(g, s) && Shape(g, s')
    && |s.heap| <= |s'.heap|
    && (forall c :: 0 <= c < |s.heap| ==>
         s'.heap[c].descriptor == s.heap[c].descriptor && s'.heap[c].loader == s.heap[c].loader)
    && s.table <= s'.table
    && (forall i: nat, j: nat, d, c: nat :: Cached(g, s, i, j, d, c) ==> Cached(g, s', i, j, d, c))
    && (forall i: nat, j: nat, d, c: nat :: Cached(g, s', i, j, d, c) ==> Cached(g, s, i, j, d, c) || InTable(g, s', c))
    && (s'.lookupRequired ==> s.lookupRequired)
  }

  lemma TableStays(g: Config, s: State, s': State, c: nat)
    requires Grows(g, s, s') && InTable(g, s, c)
    ensures InTable(g, s', c)
  {
  }

  /** A thread that does not move stays where it was, correctly. */
  lemma OthersKeep(g: Config, s: State, s': State, u: nat)
    requires Inv(g, s) && Grows(g, s, s') && u < g.threads && s'.pcs[u] == s.pcs[u]
    requires s.pcs[u].Moving? ==> s'.writer == s.writer && s'.lookupRequired
    ensures PcOk(g, s', u)
  {
    assert PcOk(g, s, u);
    forall c | InTable(g, s, c) ensures InTable(g, s', c) { TableStays(g, s, s', c); }
  }

  /** Adding a class that is new under its name and agrees with the dex caches. */
  lemma InsertOk(g: Config, s: State, c: nat)
    requires Inv(g, s) && c < |s.heap|
    requires forall e :: InTable(g, s, e) ==> !SameName(s.heap, c, e)
    requires forall i: nat, j: nat, d, e: nat :: Cached(g, s, i, j, d, e) && SameName(s.heap, c, e) ==> c == e
    ensures var s' := s.(table := s.table + [Entry(g.hash(s.heap[c].descriptor), c)]);
      Grows(g, s, s') && TableOk(g, s') && CacheOk(g, s') && InTable(g, s', c)
  {
    var s' := s.(table := s.table + [Entry(g.hash(s.heap[c].descriptor), c)]);
    forall k, m | 0 <= k < m < |s'.table| ensures !SameName(s'.heap, s'.table[k].cls, s'.table[m].cls) {
      assert s.table[k] in s.table;
      assert InTable(g, s, s.table[k].cls);
    }
    assert s'.table[|s.table|] == Entry(g.hash(s.heap[c].descriptor), c);
    forall e | InTable(g, s', e) ensures e == c || InTable(g, s, e) {
    }
    forall i: nat, j: nat, d, e: nat ensures Cached(g, s', i, j, d, e) == Cached(g, s, i, j, d, e) {
    }
  }

  lemma LookupInTable(g: Config, s: State, d: string, l: Loader)
    requires Inv(g, s)
    ensures forall c: nat :: Lookup(g, s.heap, s.table, d, l) == Some(c) <==> Named(s, c, d, l) && InTable(g, s, c)
  {
    LookupFinds(g, s.heap, s.table, d, l);
  }

  /** Putting a step together: its own thread is right, and it only added to what was there. */
  lemma Assemble(g: Config, s: State, s': State, t: nat)
    requires Inv(g, s) && Grows(g, s, s') && t < g.threads && TableOk(g, s') && CacheOk(g, s')
    requires forall u :: 0 <= u < g.threads && u != t ==> s'.pcs[u] == s.pcs[u]
    requires PcOk(g, s', t)
    requires s'.writer == s.writer || (s.writer == Some(t) && s'.writer.None?) ||
      (s.writer.None? && s'.writer == Some(t))
    requires s'.writer == Some(t) <==> s'.pcs[t].Moving?
    requires s'.lookupRequired != s.lookupRequired ==> s.writer == Some(t) && MovedUpTo(g, s', |g.types|, 0)
    ensures Inv(g, s')
  {
    forall u | 0 <= u < g.threads ensures PcOk(g, s', u) {
      if u != t {
        assert PcOk(g, s, u);
        OthersKeep(g, s, s', u);
      }
    }
    if !s.lookupRequired {
      forall k: nat, m: nat, d, c: nat | Cached(g, s', k, m, d, c) ensures InTable(g, s', c) {
        if Cached(g, s, k, m, d, c) { TableStays(g, s, s', c); }
      }
    }
  }

  /** A step that moves only the thread's own program counter. */
  lemma GoKeeps(g: Config, s: State, t: nat, pc: Pc)
    requires Inv(g, s) && t < g.threads && !s.pcs[t].Moving? && !pc.Moving?
    requires PcOk(g, Go(s, t, pc), t)
    ensures Inv(g, Go(s, t, pc)) && Grows(g, s, Go(s, t, pc))
  {
    var s' := Go(s, t, pc);
    assert PcOk(g, s, t);
    forall i: nat, j: nat, d, c: nat ensures Cached(g, s', i, j, d, c) == Cached(g, s, i, j, d, c) {
    }
    forall c: nat ensures InTable(g, s', c) == InTable(g, s, c) {
    }
    Assemble(g, s, s', t);
  }

  lemma SearchKeeps(g: Config, s: State, t: nat, ok: bool)
    requires Inv(g, s) && t < g.threads && (s.pcs[t].Search? || s.pcs[t].Miss?)
    ensures Inv(g, Step(g, s, t, ok).value) && Grows(g, s, Step(g, s, t, ok).value)
  {
    var s' := Step(g, s, t, ok).value;
    assert PcOk(g, s, t);
    forall i: nat, j: nat, d, c: nat ensures Cached(g, s', i, j, d, c) == Cached(g, s, i, j, d, c) {
    }
    forall c: nat ensures InTable(g, s', c) == InTable(g, s, c) {
    }
    GoKeeps(g, s, t, s'.pcs[t]);
  }

  /** An image class that was found goes in, or is the one already there. */
  lemma FoundKeeps(g: Config, s: State, t: nat, ok: bool)
    requires Inv(g, s) && t < g.threads && s.pcs[t].Found? && Step(g, s, t, ok).Some?
    ensures Inv(g, Step(g, s, t, ok).value) && Grows(g, s, Step(g, s, t, ok).value)
  {
    var s' := Step(g, s, t, ok).value;
    var d, c := s.pcs[t].d, s.pcs[t].c;
    assert PcOk(g, s, t);
    LookupInTable(g, s, d, BOOT);
    if Lookup(g, s.heap, s.table, d, BOOT).None? {
      InsertOk(g, s, c);
      InsertGrows(g, s, s', t, c);
    } else {
      GoKeeps(g, s, t, Ensure(d, BOOT, c));
    }
  }

  /** The rest of a step that inserted class `c`. */
  lemma InsertGrows(g: Config, s: State, s': State, t: nat, c: nat)
    requires Inv(g, s) && t < g.threads && c < |s.heap| && s.writer.None? && !s.pcs[t].Moving?
    requires var s1 := s.(table := s.table + [Entry(g.hash(s.heap[c].descriptor), c)]);
      && Grows(g, s, s1) && TableOk(g, s1) && CacheOk(g, s1) && InTable(g, s1, c)
      && exists pc: Pc :: s' == Go(s1, t, pc) && !pc.Moving? && PcOk(g, s', t)
    ensures Inv(g, s') && Grows(g, s, s')
  {
    var s1 := s.(table := s.table + [Entry(g.hash(s.heap[c].descriptor), c)]);
    forall i: nat, j: nat, d, e: nat ensures Cached(g, s', i, j, d, e) == Cached(g, s1, i, j, d, e) {
    }
    forall e: nat ensures InTable(g, s', e) == InTable(g, s1, e) {
    }
    Assemble(g, s, s', t);
  }

  lemma DefinedKeeps(g: Config, s: State, t: nat, ok: bool)
    requires Inv(g, s) && t < g.threads && s.pcs[t].Defined? && Step(g, s, t, ok).Some?
    ensures Inv(g, Step(g, s, t, ok).value) && Grows(g, s, Step(g, s, t, ok).value)
  {
    var s' := Step(g, s, t, ok).value;
    var d, l, c := s.pcs[t].d, s.pcs[t].l, s.pcs[t].c;
    assert PcOk(g, s, t);
    LookupInTable(g, s, d, l);
    var existing := Lookup(g, s.heap, s.table, d, l);
    if existing.None? {
      NothingCached(g, s, d, l, c);
      InsertOk(g, s, c);
      InsertGrows(g, s, s', t, c);
    } else {
      GoKeeps(g, s, t, Ensure(d, l, existing.value));
    }
  }

  /**
   * A new class that is about to be inserted is in no dex cache of the image: this is what the
   * debug build checks in `InsertClass`.
   */
  lemma NothingCached(g: Config, s: State, d: string, l: Loader, c: nat)
    requires Inv(g, s) && Named(s, c, d, l) && (l == BOOT ==> ClearUpTo(g, s, d, |g.types|))
    requires Lookup(g, s.heap, s.table, d, l).None?
    ensures forall i: nat, j: nat, e: nat :: l == BOOT ==> !Cached(g, s, i, j, d, e)
    ensures forall i: nat, j: nat, d', e: nat :: Cached(g, s, i, j, d', e) ==> !SameName(s.heap, c, e)
    ensures forall e :: InTable(g, s, e) ==> !SameName(s.heap, c, e)
  {
    LookupInTable(g, s, d, l);
  }

  lemma MovingKeeps(g: Config, s: State, t: nat, ok: bool)
    requires Inv(g, s) && t < g.threads && s.pcs[t].Moving?
    ensures Step(g, s, t, ok).Some?
    ensures Inv(g, Step(g, s, t, ok).value) && Grows(g, s, Step(g, s, t, ok).value)
  {
    var i, j := s.pcs[t].i, s.pcs[t].j;
    assert PcOk(g, s, t);
    if i < |g.types| && j < |g.types[i]| && s.caches[i][j].Some? {
      var c := s.caches[i][j].value;
      assert Cached(g, s, i, j, g.types[i][j], c);
      LookupInTable(g, s, s.heap[c].descriptor, BOOT);
      MoveOneKeeps(g, s, t, c);
    } else {
      MoveOnKeeps(g, s, t, ok);
    }
  }

  /** Going on to the next class, the next cache or, with the flag cleared, out of the migration. */
  lemma MoveOnKeeps(g: Config, s: State, t: nat, ok: bool)
    requires Inv(g, s) && t < g.threads && s.pcs[t].Moving?
    requires var i, j := s.pcs[t].i, s.pcs[t].j; !(i < |g.types| && j < |g.types[i]| && s.caches[i][j].Some?)
    ensures Step(g, s, t, ok).Some?
    ensures Inv(g, Step(g, s, t, ok).value) && Grows(g, s, Step(g, s, t, ok).value)
  {
    assert PcOk(g, s, t);
    var s' := Step(g, s, t, ok).value;
    forall k: nat, m: nat, d, e: nat ensures Cached(g, s', k, m, d, e) == Cached(g, s, k, m, d, e) {
    }
    forall e: nat ensures InTable(g, s', e) == InTable(g, s, e) {
    }
    Assemble(g, s, s', t);
  }

  /** One class of the migration: the CHECK holds, and the class is in the table afterwards. */
  lemma MoveOneKeeps(g: Config, s: State, t: nat, c: nat)
    requires Inv(g, s) && t < g.threads && s.pcs[t].Moving?
    requires s.pcs[t].i < |g.types| && s.pcs[t].j < |g.types[s.pcs[t].i]| && s.caches[s.pcs[t].i][s.pcs[t].j] == Some(c)
    ensures c < |s.heap| && MoveOne(g, s, c).Some?
    ensures var s' := Go(MoveOne(g, s, c).value, t, Moving(s.pcs[t].then_, s.pcs[t].i, s.pcs[t].j + 1));
      Inv(g, s') && Grows(g, s, s')
  {
    var i, j := s.pcs[t].i, s.pcs[t].j;
    assert PcOk(g, s, t);
    assert Cached(g, s, i, j, g.types[i][j], c);
    LookupInTable(g, s, s.heap[c].descriptor, BOOT);
    var existing := Lookup(g, s.heap, s.table, s.heap[c].descriptor, BOOT);
    if existing.Some? {
      assert SameName(s.heap, c, existing.value);
      assert MoveOne(g, s, c) == Some(s) && InTable(g, s, c);
    } else {
      InsertOk(g, s, c);
    }
    MoveOneGrows(g, s, MoveOne(g, s, c).value, t, c);
  }

  lemma MoveOneGrows(g: Config, s: State, s1: State, t: nat, c: nat)
    requires Inv(g, s) && t < g.threads && s.pcs[t].Moving?
    requires s.pcs[t].i < |g.types| && s.pcs[t].j < |g.types[s.pcs[t].i]| && s.caches[s.pcs[t].i][s.pcs[t].j] == Some(c)
    requires s1 == s.(table := s1.table) && Grows(g, s, s1) && TableOk(g, s1) && CacheOk(g, s1) && InTable(g, s1, c)
    ensures var s' := Go(s1, t, Moving(s.pcs[t].then_, s.pcs[t].i, s.pcs[t].j + 1)); Inv(g, s') && Grows(g, s, s')
  {
    var i, j := s.pcs[t].i, s.pcs[t].j;
    var s' := Go(s1, t, Moving(s.pcs[t].then_, i, j + 1));
    assert PcOk(g, s, t);
    forall k: nat, m: nat, d, e: nat ensures Cached(g, s', k, m, d, e) == Cached(g, s, k, m, d, e) {
    }
    forall e: nat ensures InTable(g, s', e) == InTable(g, s1, e) && (InTable(g, s, e) ==> InTable(g, s1, e)) {
    }
    forall k: nat, m: nat, d, e: nat | Cached(g, s', k, m, d, e) && (k < i || (k == i && m < j + 1))
      ensures InTable(g, s', e)
    {
      if k < i || m < j { assert InTable(g, s, e); }
    }
    Assemble(g, s, s', t);
  }

  /** Steps that touch only the counter, the lock and the thread itself. */
  lemma PlainKeeps(g: Config, s: State, t: nat, ok: bool)
    requires Inv(g, s) && t < g.threads && Step(g, s, t, ok).Some?
    requires s.pcs[t].Exhausted? || s.pcs[t].MoveWait? || s.pcs[t].Ensure?
    ensures Inv(g, Step(g, s, t, ok).value) && Grows(g, s, Step(g, s, t, ok).value)
  {
    hide Lookup, TypeIndex;
    var s' := Step(g, s, t, ok).value;
    assert PcOk(g, s, t);
    forall i: nat, j: nat, d, c: nat ensures Cached(g, s', i, j, d, c) == Cached(g, s, i, j, d, c) {
    }
    forall c: nat ensures InTable(g, s', c) == InTable(g, s, c) {
    }
    Assemble(g, s, s', t);
  }

  /** Allocating a class or finishing its linking changes no name. */
  lemma HeapKeeps(g: Config, s: State, t: nat, heap: seq<Class>, pc: Pc)
    requires Inv(g, s) && t < g.threads && !s.pcs[t].Moving? && !pc.Moving? && |s.heap| <= |heap|
    requires forall c :: 0 <= c < |s.heap| ==>
      heap[c].descriptor == s.heap[c].descriptor && heap[c].loader == s.heap[c].loader
    requires PcOk(g, Go(s.(heap := heap), t, pc), t)
    ensures var s' := Go(s.(heap := heap), t, pc); Inv(g, s') && Grows(g, s, s')
  {
    var s' := Go(s.(heap := heap), t, pc);
    assert PcOk(g, s, t);
    forall i: nat, j: nat, d, c: nat ensures Cached(g, s', i, j, d, c) == Cached(g, s, i, j, d, c) {
    }
    SameTable(g, s, s');
    Assemble(g, s, s', t);
  }

  lemma SameTable(g: Config, s: State, s': State)
    requires TableOk(g, s) && s'.table == s.table && |s.heap| <= |s'.heap|
    requires forall c :: 0 <= c < |s.heap| ==>
      s'.heap[c].descriptor == s.heap[c].descriptor && s'.heap[c].loader == s.heap[c].loader
    ensures TableOk(g, s') && forall c :: InTable(g, s', c) <==> InTable(g, s, c)
  {
    forall c: nat | InTable(g, s', c) ensures c < |s.heap| {
      var k :| 0 <= k < |s.table| && s.table[k] == Entry(g.hash(s'.heap[c].descriptor), c);
    }
  }

  lemma LookedKeeps(g: Config, s: State, t: nat, d: string, l: Loader)
    requires Inv(g, s) && t < g.threads && !s.pcs[t].Moving?
    ensures Inv(g, Looked(g, s, t, d, l)) && Grows(g, s, Looked(g, s, t, d, l))
  {
    LookupInTable(g, s, d, l);
    var s' := Looked(g, s, t, d, l);
    forall c: nat ensures InTable(g, s', c) == InTable(g, s, c) {
    }
    GoKeeps(g, s, t, s'.pcs[t]);
  }

  lemma ClassStepKeeps(g: Config, s: State, t: nat, ok: bool)
    requires Inv(g, s) && t < g.threads && Step(g, s, t, ok).Some?
    requires (s.pcs[t].Absent? && !g.Redirects(s.pcs[t].d, s.pcs[t].l)) || s.pcs[t].Linking?
    ensures Inv(g, Step(g, s, t, ok).value) && Grows(g, s, Step(g, s, t, ok).value)
  {
    var s' := Step(g, s, t, ok).value;
    assert PcOk(g, s, t);
    forall i: nat, j: nat, d, c: nat ensures Cached(g, s', i, j, d, c) == Cached(g, s, i, j, d, c) {
    }
    SameTable(g, s, s');
    HeapKeeps(g, s, t, s'.heap, s'.pcs[t]);
  }

  lemma RememberKeeps(g: Config, s: State, t: nat, i: nat, j: nat)
    requires Inv(g, s) && t < g.threads && Next(g, s, t, Remember(i, j)).Some?
    ensures Inv(g, Next(g, s, t, Remember(i, j)).value) && Grows(g, s, Next(g, s, t, Remember(i, j)).value)
  {
    var s', c := Next(g, s, t, Remember(i, j)).value, s.pcs[t].result.value;
    assert PcOk(g, s, t);
    forall e: nat ensures InTable(g, s', e) == InTable(g, s, e) {
    }
    forall k: nat, m: nat, d, e: nat
      ensures Cached(g, s', k, m, d, e) <==>
        Cached(g, s, k, m, d, e) || (k == i && m == j && d == g.types[i][j] && e == c)
    {
      if k == i && m == j && Cached(g, s, k, m, d, e) {
        assert SameName(s.heap, e, c);
      }
    }
    RememberCache(g, s, s', i, j, c);
    Assemble(g, s, s', t);
  }

  lemma RememberCache(g: Config, s: State, s': State, i: nat, j: nat, c: nat)
    requires Inv(g, s) && Shape(g, s') && s'.heap == s.heap && s'.table == s.table
    requires i < |g.types| && j < |g.types[i]| && Named(s, c, g.types[i][j], BOOT) && InTable(g, s, c)
    requires forall k: nat, m: nat, d, e: nat ::
      Cached(g, s', k, m, d, e) <==> Cached(g, s, k, m, d, e) || (k == i && m == j && d == g.types[i][j] && e == c)
    ensures CacheOk(g, s')
  {
    LookupInTable(g, s, g.types[i][j], BOOT);
    forall e: nat ensures InTable(g, s', e) == InTable(g, s, e) {
    }
    forall k: nat, m: nat, d, e: nat, f: nat
      | Cached(g, s', k, m, d, e) && InTable(g, s', f) && SameName(s'.heap, e, f)
      ensures e == f
    {
      if !Cached(g, s, k, m, d, e) {
        assert Named(s, f, g.types[i][j], BOOT);
      }
    }
    forall k: nat, m: nat, n: nat, o: nat, d, e: nat, f: nat
      | Cached(g, s', k, m, d, e) && Cached(g, s', n, o, d, f)
      ensures e == f
    {
      if Cached(g, s, k, m, d, e) && !Cached(g, s, n, o, d, f) {
        assert SameName(s.heap, e, c);
      } else if Cached(g, s, n, o, d, f) && !Cached(g, s, k, m, d, e) {
        assert SameName(s.heap, f, c);
      }
    }
  }

  /** Every step of every thread keeps the invariant and forgets nothing. */
  lemma NextKeeps(g: Config, s: State, t: nat, a: Action)
    requires Inv(g, s) && t < g.threads && Next(g, s, t, a).Some?
    ensures Inv(g, Next(g, s, t, a).value) && Grows(g, s, Next(g, s, t, a).value)
  {
    match a
    case Start(d, l) => LookedKeeps(g, s, t, d, l);
    case LookupAll => GoKeeps(g, s, t, MoveWait(None));
    case Remember(i, j) => RememberKeeps(g, s, t, i, j);
    case Advance(ok) =>
      hide Inv, Grows;
      if s.pcs[t].Search? || s.pcs[t].Miss? {
        SearchKeeps(g, s, t, ok);
      } else if s.pcs[t].Found? {
        FoundKeeps(g, s, t, ok);
      } else if s.pcs[t].Defined? {
        DefinedKeeps(g, s, t, ok);
      } else if s.pcs[t].Moving? {
        MovingKeeps(g, s, t, ok);
      } else if s.pcs[t].Absent? && g.Redirects(s.pcs[t].d, s.pcs[t].l) {
        LookedKeeps(g, s, t, s.pcs[t].d, BOOT);
      } else if s.pcs[t].Absent? || s.pcs[t].Linking? {
        ClassStepKeeps(g, s, t, ok);
      } else {
        PlainKeeps(g, s, t, ok);
      }
  }

  // ---- whole runs ----

  /** A well-formed image, an empty table, and no thread doing anything. */
  ghost predicate Init(g: Config, s: State) {
    && g.Valid() && Shape(g, s) && s.table == [] && s.writer.None?
    && (forall t :: 0 <= t < g.threads ==> s.pcs[t].Idle?)
    && (forall i: nat, j: nat, d, c: nat :: Cached(g, s, i, j, d, c) ==>
          s.lookupRequired && c < |s.heap| && s.heap[c].descriptor == d && s.heap[c].loader == BOOT)
    && (forall i: nat, j: nat, k: nat, m: nat, d, c: nat, e: nat ::
         Cached(g, s, i, j, d, c) && Cached(g, s, k, m, d, e) ==> c == e)
  }

  datatype Move = Move(thread: nat, action: Action)

  ghost predicate Run(g: Config, states: seq<State>, moves: seq<Move>) {
    && |states| == |moves| + 1 && Init(g, states[0])
    && forall i :: 0 <= i < |moves| ==>
         && Shape(g, states[i]) && moves[i].thread < g.threads
         && Next(g, states[i], moves[i].thread, moves[i].action) == Some(states[i + 1])
  }

  lemma {:induction false} RunKeeps(g: Config, states: seq<State>, moves: seq<Move>, i: nat)
    requires Run(g, states, moves) && i < |states|
    ensures Inv(g, states[i])
  {
    if i > 0 {
      hide Inv, Next, Init;
      RunKeeps(g, states, moves, i - 1);
      assert Next(g, states[i - 1], moves[i - 1].thread, moves[i - 1].action) == Some(states[i]);
      NextKeeps(g, states[i - 1], moves[i - 1].thread, moves[i - 1].action);
    } else {
      InitKeeps(g, states[0]);
    }
  }

  lemma InitKeeps(g: Config, s: State)
    requires Init(g, s)
    ensures Inv(g, s)
  {
  }

  /** What is in the table under a name stays there under that name. */
  lemma {:induction false} RunRemembers(g: Config, states: seq<State>, moves: seq<Move>, i: nat, j: nat, c: nat,
                                        d: string, l: Loader)
    requires Run(g, states, moves) && i <= j < |states| && Named(states[i], c, d, l) && InTable(g, states[i], c)
    ensures Named(states[j], c, d, l) && InTable(g, states[j], c)
    decreases j
  {
    if i < j {
      var k := j - 1;
      RunRemembers(g, states, moves, i, k, c, d, l);
      RunKeeps(g, states, moves, k);
      assert Next(g, states[k], moves[k].thread, moves[k].action) == Some(states[k + 1]);
      NextKeeps(g, states[k], moves[k].thread, moves[k].action);
      TableStays(g, states[k], states[j], c);
    }
  }

  /** All successful lookups that ended at one defining loader return the same class object. */
  lemma SameNameEverywhere(g: Config, states: seq<State>, moves: seq<Move>, i: nat, j: nat, t: nat, u: nat)
    requires Run(g, states, moves) && i <= j < |states| && t < g.threads && u < g.threads
    requires Shape(g, states[i]) && Shape(g, states[j])
    requires states[i].pcs[t].Done? && states[i].pcs[t].result.Some?
    requires states[j].pcs[u].Done? && states[j].pcs[u].result.Some?
    requires states[i].pcs[t].d == states[j].pcs[u].d && states[i].pcs[t].l == states[j].pcs[u].l
    ensures states[i].pcs[t].result == states[j].pcs[u].result
  {
    var d, l := states[i].pcs[t].d, states[i].pcs[t].l;
    RunKeeps(g, states, moves, i);
    RunKeeps(g, states, moves, j);
    assert PcOk(g, states[i], t) && PcOk(g, states[j], u);
    RunRemembers(g, states, moves, i, j, states[i].pcs[t].result.value, d, l);
    LookupInTable(g, states[j], d, l);
  }

  // ---- the loader a call asked for ----

  /** No class of the boot class path is in the table, or about to be, under another loader. */
  ghost predicate LeftToBoot(g: Config, s: State) {
    && (forall k :: 0 <= k < |s.table| ==> LeftAlone(g, s.heap, s.table[k].cls))
    && (forall t :: 0 <= t < |s.pcs| ==> s.pcs[t].Defined? ==> !g.Redirects(s.pcs[t].d, s.pcs[t].l))
  }

  ghost predicate LeftAlone(g: Config, heap: seq<Class>, c: nat) {
    c < |heap| ==> !g.Redirects(heap[c].descriptor, heap[c].loader)
  }

  lemma LeftToBootKeeps(g: Config, s: State, t: nat, a: Action)
    requires Inv(g, s) && LeftToBoot(g, s) && t < g.threads && Next(g, s, t, a).Some?
    ensures LeftToBoot(g, Next(g, s, t, a).value)
  {
    assert PcOk(g, s, t);
    if a.Advance? {
      if s.pcs[t].Moving? {
        MovingLeavesToBoot(g, s, t, a.ok);
      } else {
        StepLeavesToBoot(g, s, t, a.ok);
      }
    }
  }

  /** A step of a call that inserts nothing, or the class it has found or defined. */
  lemma StepLeavesToBoot(g: Config, s: State, t: nat, ok: bool)
    requires Shape(g, s) && CacheOk(g, s) && LeftToBoot(g, s) && t < g.threads && Step(g, s, t, ok).Some?
    requires !s.pcs[t].Moving? && PcOk(g, s, t)
    ensures LeftToBoot(g, Step(g, s, t, ok).value)
  {
    hide ClearUpTo, Lookup, TypeIndex, InTable, CacheOk, LeftToBoot;
    if s.pcs[t].Found? || s.pcs[t].Defined? {
      InsertLeavesToBoot(g, s, t, ok);
    } else {
      PlainLeavesToBoot(g, s, t, ok);
    }
  }

  lemma InsertLeavesToBoot(g: Config, s: State, t: nat, ok: bool)
    requires Shape(g, s) && CacheOk(g, s) && LeftToBoot(g, s) && t < g.threads && Step(g, s, t, ok).Some?
    requires (s.pcs[t].Found? || s.pcs[t].Defined?) && PcOk(g, s, t)
    ensures LeftToBoot(g, Step(g, s, t, ok).value)
  {
    hide ClearUpTo, Lookup, InTable;
    assert !g.Redirects(s.heap[s.pcs[t].c].descriptor, s.heap[s.pcs[t].c].loader);
  }

  lemma PlainLeavesToBoot(g: Config, s: State, t: nat, ok: bool)
    requires Shape(g, s) && LeftToBoot(g, s) && t < g.threads && Step(g, s, t, ok).Some?
    requires !s.pcs[t].Found? && !s.pcs[t].Defined? && !s.pcs[t].Moving?
    requires s.pcs[t].Linking? ==> s.pcs[t].c < |s.heap|
    ensures LeftToBoot(g, Step(g, s, t, ok).value)
  {
    hide Lookup, TypeIndex;
    var s' := Step(g, s, t, ok).value;
    assert s'.table == s.table;
    forall k | 0 <= k < |s.table| ensures LeftAlone(g, s'.heap, s.table[k].cls) {
      assert LeftAlone(g, s.heap, s.table[k].cls);
    }
  }

  lemma MovingLeavesToBoot(g: Config, s: State, t: nat, ok: bool)
    requires Shape(g, s) && CacheOk(g, s) && LeftToBoot(g, s) && t < g.threads && Step(g, s, t, ok).Some?
    requires s.pcs[t].Moving?
    ensures LeftToBoot(g, Step(g, s, t, ok).value)
  {
    hide Lookup, InTable;
    var i, j := s.pcs[t].i, s.pcs[t].j;
    if i < |g.types| && j < |g.types[i]| && s.caches[i][j].Some? {
      assert Cached(g, s, i, j, g.types[i][j], s.caches[i][j].value);
    }
    var s' := Step(g, s, t, ok).value;
    forall k | 0 <= k < |s'.table| ensures LeftAlone(g, s'.heap, s'.table[k].cls) {
      if k < |s.table| {
        assert LeftAlone(g, s.heap, s.table[k].cls);
      }
    }
  }

  lemma {:induction false} RunLeavesToBoot(g: Config, states: seq<State>, moves: seq<Move>, i: nat)
    requires Run(g, states, moves) && i < |states|
    ensures Inv(g, states[i]) && LeftToBoot(g, states[i])
  {
    RunKeeps(g, states, moves, i);
    if i > 0 {
      hide Inv, Next, Init, LeftToBoot;
      RunLeavesToBoot(g, states, moves, i - 1);
      assert Next(g, states[i - 1], moves[i - 1].thread, moves[i - 1].action) == Some(states[i]);
      LeftToBootKeeps(g, states[i - 1], moves[i - 1].thread, moves[i - 1].action);
    }
  }

  /** The descriptor and the loader that a call is working on. */
  function Subject(pc: Pc): Option<(string, Loader)> {
    match pc
    case Idle => None
    case Search(d, _) => Some((d, BOOT))
    case Found(d, _, _, _) => Some((d, BOOT))
    case Exhausted(d) => Some((d, BOOT))
    case MoveWait(d) => if d.Some? then Some((d.value, BOOT)) else None
    case Moving(d, _, _) => if d.Some? then Some((d.value, BOOT)) else None
    case Miss(d, l) => Some((d, l))
    case Absent(d, l) => Some((d, l))
    case Defined(d, l, _) => Some((d, l))
    case Linking(d, l, _) => Some((d, l))
    case Ensure(d, l, _) => Some((d, l))
    case Done(d, l, _) => Some((d, l))
  }

  /** Thread `t` asked for `d` through `l` in move `a`, and between then and state `i` for nothing else. */
  ghost predicate Asked(g: Config, states: seq<State>, moves: seq<Move>, a: nat, i: nat, t: nat, d: string, l: Loader) {
    && a < i < |states| && i <= |moves| && moves[a] == Move(t, Start(d, l))
    && forall k :: a < k < i ==> moves[k].thread == t ==> !moves[k].action.Start?
  }

  /** A step works on what the last one did, unless it hands the call over to the boot loader. */
  lemma SubjectStays(g: Config, s: State, t: nat, ok: bool)
    requires Shape(g, s) && t < g.threads && Step(g, s, t, ok).Some?
    ensures var pc, pc' := s.pcs[t], Step(g, s, t, ok).value.pcs[t];
      Subject(pc') == if pc.Absent? && g.Redirects(pc.d, pc.l) then Some((pc.d, BOOT)) else Subject(pc)
  {
    hide Lookup, TypeIndex, Matches;
    match s.pcs[t]
    case Search(_, _) =>
    case Moving(_, _, _) =>
    case Defined(_, _, _) =>
    case _ =>
  }

  lemma OthersStay(g: Config, s: State, t: nat, a: Action, u: nat)
    requires Shape(g, s) && t < g.threads && u < g.threads && Next(g, s, t, a).Some? && (u != t || a.Remember?)
    ensures |Next(g, s, t, a).value.pcs| == g.threads && Next(g, s, t, a).value.pcs[u] == s.pcs[u]
  {
    hide Lookup, TypeIndex, Matches;
    if a.Advance? {
      match s.pcs[t]
      case Search(_, _) =>
      case Moving(_, _, _) =>
      case Defined(_, _, _) =>
      case _ =>
    }
  }

  lemma {:induction false} SubjectOfCall(g: Config, states: seq<State>, moves: seq<Move>, a: nat, i: nat, t: nat,
                                         d: string, l: Loader)
    requires Run(g, states, moves) && Asked(g, states, moves, a, i, t, d, l)
    ensures t < g.threads && Shape(g, states[i])
    ensures Subject(states[i].pcs[t]) == Some((d, l)) ||
      (g.Redirects(d, l) && Subject(states[i].pcs[t]) == Some((d, BOOT)))
    decreases i
  {
    var k := i - 1;
    RunKeeps(g, states, moves, k);
    RunKeeps(g, states, moves, i);
    assert Next(g, states[k], moves[k].thread, moves[k].action) == Some(states[k + 1]);
    if k > a {
      SubjectOfCall(g, states, moves, a, k, t, d, l);
      if moves[k].thread == t && moves[k].action.Advance? {
        SubjectStays(g, states[k], t, moves[k].action.ok);
      } else if moves[k].thread != t || moves[k].action.Remember? {
        OthersStay(g, states[k], moves[k].thread, moves[k].action, t);
      }
    }
  }

  /** A successful call ends with a class of its descriptor and its defining loader. */
  lemma DefinedBy(g: Config, states: seq<State>, moves: seq<Move>, a: nat, i: nat, t: nat, d: string, l: Loader)
    requires Run(g, states, moves) && Asked(g, states, moves, a, i, t, d, l) && t < g.threads && Shape(g, states[i])
    requires states[i].pcs[t].Done? && states[i].pcs[t].result.Some?
    ensures states[i].pcs[t].d == d && states[i].pcs[t].l == g.Definer(d, l)
    ensures Named(states[i], states[i].pcs[t].result.value, d, g.Definer(d, l))
  {
    SubjectOfCall(g, states, moves, a, i, t, d, l);
    RunLeavesToBoot(g, states, moves, i);
    assert PcOk(g, states[i], t);
    var c := states[i].pcs[t].result.value;
    assert InTable(g, states[i], c);
    assert LeftAlone(g, states[i].heap, c);
  }

  /**
   * All successful calls that ask for one descriptor through one loader return the same class
   * object, whenever they happen and whichever threads make them.
   */
  lemma SameClassEverywhere(g: Config, states: seq<State>, moves: seq<Move>, a: nat, i: nat, t: nat, b: nat, j: nat,
                            u: nat, d: string, l: Loader)
    requires Run(g, states, moves) && i <= j && t < g.threads && u < g.threads
    requires Asked(g, states, moves, a, i, t, d, l) && Asked(g, states, moves, b, j, u, d, l)
    requires Shape(g, states[i]) && Shape(g, states[j])
    requires states[i].pcs[t].Done? && states[i].pcs[t].result.Some?
    requires states[j].pcs[u].Done? && states[j].pcs[u].result.Some?
    ensures states[i].pcs[t].result == states[j].pcs[u].result
  {
    DefinedBy(g, states, moves, a, i, t, d, l);
    DefinedBy(g, states, moves, b, j, u, d, l);
    SameNameEverywhere(g, states, moves, i, j, t, u);
  }

  // ---- only resolved classes are returned ----

  /** The class that the call is making, if it is making one. */
  function Making(pc: Pc): Option<nat> {
    if pc.Defined? || pc.Linking? then Some(pc.c) else None
  }

  /** Classes are made by one call each and are not resolved before; what a call returned is resolved. */
  ghost predicate StatusOk(s: State) {
    && (forall t :: 0 <= t < |s.pcs| && Making(s.pcs[t]).Some? ==> InMaking(s.heap, s.pcs[t].c))
    && (forall t, u :: 0 <= t < u < |s.pcs| && Making(s.pcs[t]).Some? ==> Making(s.pcs[t]) != Making(s.pcs[u]))
    && (forall t :: 0 <= t < |s.pcs| && s.pcs[t].Done? && s.pcs[t].result.Some? ==>
         IsResolved(s.heap, s.pcs[t].result.value))
  }

  predicate InMaking(heap: seq<Class>, c: nat) { c < |heap| && heap[c].status.Loading? }

  predicate IsResolved(heap: seq<Class>, c: nat) { c < |heap| && heap[c].status.Resolved? }

  /** Resolved classes stay resolved. */
  ghost predicate StillResolved(s: State, s': State) {
    forall c :: IsResolved(s.heap, c) ==> IsResolved(s'.heap, c)
  }

  /** A step may add classes, and change only the class it is making. */
  ghost predicate HeapGrows(heap: seq<Class>, heap': seq<Class>, making: Option<nat>) {
    |heap| <= |heap'| && forall c :: 0 <= c < |heap| ==> heap'[c] == heap[c] || making == Some(c)
  }

  /** The thread goes on making its class, or begins a new one, or returns a resolved one. */
  ghost predicate PcGoesOn(s: State, s': State, pc: Pc, pc': Pc) {
    && (Making(pc').Some? ==> InMaking(s'.heap, pc'.c) && (Making(pc') == Making(pc) || pc'.c >= |s.heap|))
    && (pc'.Done? && pc'.result.Some? ==> pc' == pc || IsResolved(s'.heap, pc'.result.value))
  }

  lemma StatusGo(s: State, s': State, t: nat)
    requires StatusOk(s) && t < |s.pcs| == |s'.pcs| && forall u :: 0 <= u < |s.pcs| && u != t ==> s'.pcs[u] == s.pcs[u]
    requires HeapGrows(s.heap, s'.heap, Making(s.pcs[t])) && PcGoesOn(s, s', s.pcs[t], s'.pcs[t])
    ensures StatusOk(s') && StillResolved(s, s')
  {
    assert Making(s.pcs[t]).Some? ==> InMaking(s.heap, s.pcs[t].c);
  }

  lemma StatusKeeps(g: Config, s: State, t: nat, a: Action)
    requires Inv(g, s) && StatusOk(s) && t < g.threads && Next(g, s, t, a).Some?
    ensures var s' := Next(g, s, t, a).value; StatusOk(s') && StillResolved(s, s')
  {
    assert Making(s.pcs[t]).Some? ==> InMaking(s.heap, s.pcs[t].c);
    assert Shape(g, s);
    hide Inv, StatusOk, Lookup, TypeIndex;
    var s' := Next(g, s, t, a).value;
    if a.Advance? {
      HeapStep(g, s, t, a.ok);
      PcStep(g, s, t, a.ok);
      hide Next, Step;
    }
    forall u | 0 <= u < |s.pcs| && u != t ensures s'.pcs[u] == s.pcs[u] {
      OthersStay(g, s, t, a, u);
    }
    StatusGo(s, s', t);
  }

  lemma HeapStep(g: Config, s: State, t: nat, ok: bool)
    requires Shape(g, s) && t < g.threads && Step(g, s, t, ok).Some?
    ensures HeapGrows(s.heap, Step(g, s, t, ok).value.heap, Making(s.pcs[t]))
  {
    hide Lookup, TypeIndex, Looked;
    LookedLeaves(g, s, t);
    match s.pcs[t]
    case Absent(_, _) =>
    case Linking(_, _, _) =>
    case Moving(_, _, _) =>
    case _ =>
  }

  lemma LookedLeaves(g: Config, s: State, t: nat)
    requires t < |s.pcs|
    ensures forall d, l :: Looked(g, s, t, d, l).heap == s.heap && Making(Looked(g, s, t, d, l).pcs[t]).None?
    ensures forall d, l :: |Looked(g, s, t, d, l).pcs| == |s.pcs| && !Looked(g, s, t, d, l).pcs[t].Done?
  {
  }

  lemma PcStep(g: Config, s: State, t: nat, ok: bool)
    requires Shape(g, s) && t < g.threads && Step(g, s, t, ok).Some?
    requires Making(s.pcs[t]).Some? ==> InMaking(s.heap, s.pcs[t].c)
    ensures |Step(g, s, t, ok).value.pcs| == |s.pcs|
    ensures PcGoesOn(s, Step(g, s, t, ok).value, s.pcs[t], Step(g, s, t, ok).value.pcs[t])
  {
    hide Lookup, TypeIndex, Looked;
    LookedLeaves(g, s, t);
    match s.pcs[t]
    case Absent(_, _) =>
    case Defined(_, _, _) =>
    case Linking(_, _, _) =>
    case Moving(_, _, _) =>
    case Ensure(_, _, _) =>
    case _ =>
  }

  lemma {:induction false} RunResolves(g: Config, states: seq<State>, moves: seq<Move>, i: nat)
    requires Run(g, states, moves) && i < |states|
    ensures Inv(g, states[i]) && StatusOk(states[i])
  {
    RunKeeps(g, states, moves, i);
    if i > 0 {
      hide Inv, Next, Init, StatusOk;
      RunResolves(g, states, moves, i - 1);
      assert Next(g, states[i - 1], moves[i - 1].thread, moves[i - 1].action) == Some(states[i]);
      StatusKeeps(g, states[i - 1], moves[i - 1].thread, moves[i - 1].action);
    }
  }

  lemma {:induction false} StaysResolved(g: Config, states: seq<State>, moves: seq<Move>, i: nat, j: nat, c: nat)
    requires Run(g, states, moves) && i <= j < |states| && IsResolved(states[i].heap, c)
    ensures IsResolved(states[j].heap, c)
    decreases j
  {
    if i < j {
      StaysResolved(g, states, moves, i, j - 1, c);
      RunResolves(g, states, moves, j - 1);
      hide Inv, Next, StatusOk;
      assert Next(g, states[j - 1], moves[j - 1].thread, moves[j - 1].action) == Some(states[j]);
      StatusKeeps(g, states[j - 1], moves[j - 1].thread, moves[j - 1].action);
    }
  }

  /** In every run a class that a call returned is resolved, then and ever after. */
  lemma ReturnedIsResolved(g: Config, states: seq<State>, moves: seq<Move>, i: nat, j: nat, t: nat)
    requires Run(g, states, moves) && i <= j < |states| && t < g.threads && Shape(g, states[i])
    requires states[i].pcs[t].Done? && states[i].pcs[t].result.Some?
    ensures IsResolved(states[j].heap, states[i].pcs[t].result.value)
  {
    RunResolves(g, states, moves, i);
    StaysResolved(g, states, moves, i, j, states[i].pcs[t].result.value);
  }

  /** A call that is going to return class `c`, or has. */
  predicate OnTheWay(g: Config, pc: Pc, d: string, l: Loader, c: nat) {
    || (g.Redirects(d, l) && (pc == Miss(d, l) || pc == Absent(d, l)))
    || pc == Ensure(d, g.Definer(d, l), c)
    || pc == Done(d, g.Definer(d, l), Some(c))
  }

  /** The table has the resolved class `c` under the name that the call will look for. */
  ghost predicate Has(g: Config, s: State, d: string, l: Loader, c: nat) {
    Named(s, c, d, g.Definer(d, l)) && InTable(g, s, c) && IsResolved(s.heap, c)
  }

  lemma WayStays(g: Config, s: State, t: nat, a: Action, u: nat, d: string, l: Loader, c: nat)
    requires Inv(g, s) && Has(g, s, d, l, c) && t < g.threads && u < g.threads && Next(g, s, t, a).Some?
    requires (t == u ==> !a.Start?) && OnTheWay(g, s.pcs[u], d, l, c)
    ensures var s' := Next(g, s, t, a).value; |s'.pcs| == g.threads && OnTheWay(g, s'.pcs[u], d, l, c)
  {
    if t == u && a.Advance? {
      LookupInTable(g, s, d, BOOT);
      hide Inv, Lookup, InTable;
    } else {
      OthersStay(g, s, t, a, u);
    }
  }

  lemma StartsOnTheWay(g: Config, s: State, t: nat, d: string, l: Loader, c: nat)
    requires Inv(g, s) && LeftToBoot(g, s) && Has(g, s, d, l, c) && t < g.threads && Next(g, s, t, Start(d, l)).Some?
    ensures OnTheWay(g, Next(g, s, t, Start(d, l)).value.pcs[t], d, l, c)
  {
    LookupInTable(g, s, d, l);
    var r := Lookup(g, s.heap, s.table, d, l);
    if r.Some? {
      assert InTable(g, s, r.value);
      assert LeftAlone(g, s.heap, r.value);
    }
  }

  /** In every run, a call that starts when the table has a resolved class of that name can only return that class. */
  lemma {:induction false} ResolvedIsReturned(g: Config, states: seq<State>, moves: seq<Move>, a: nat, i: nat, t: nat,
                                              d: string, l: Loader, c: nat)
    requires Run(g, states, moves) && Asked(g, states, moves, a, i, t, d, l) && t < g.threads
    requires Has(g, states[a], d, l, c)
    ensures Shape(g, states[i]) && OnTheWay(g, states[i].pcs[t], d, l, c)
    ensures states[i].pcs[t].Done? ==> states[i].pcs[t].result == Some(c)
    decreases i
  {
    var k := i - 1;
    RunLeavesToBoot(g, states, moves, k);
    RunKeeps(g, states, moves, i);
    RunRemembers(g, states, moves, a, k, c, d, g.Definer(d, l));
    StaysResolved(g, states, moves, a, k, c);
    assert Next(g, states[k], moves[k].thread, moves[k].action) == Some(states[i]);
    if k == a {
      StartsOnTheWay(g, states[a], t, d, l, c);
    } else {
      ResolvedIsReturned(g, states, moves, a, k, t, d, l, c);
      WayStays(g, states[k], moves[k].thread, moves[k].action, t, d, l, c);
    }
  }

  /** A call ends without a class only if the class is erroneous, or could not be found, defined or linked. */
  lemma NoClassMeans(g: Config, s: State, t: nat, a: Action, d: string, l: Loader)
    requires Inv(g, s) && t < g.threads && Next(g, s, t, a).Some? && !s.pcs[t].Done?
    requires Next(g, s, t, a).value.pcs[t] == Done(d, l, None)
    ensures a == Advance(false) ||
      exists c: nat :: Named(s, c, d, l) && InTable(g, s, c) && s.heap[c].status.Erroneous?
  {
    assert PcOk(g, s, t);
    hide Inv, Lookup, TypeIndex, InTable, Looked;
    LookedLeaves(g, s, t);
    if a.Advance? {
      match s.pcs[t]
      case Ensure(_, _, c) => assert Named(s, c, d, l);
      case Moving(_, _, _) =>
      case Search(_, _) =>
      case _ =>
    }
  }

  /** The table never holds two entries for one descriptor and loader. */
  lemma NoDuplicateEntries(g: Config, states: seq<State>, moves: seq<Move>, i: nat, k: nat, m: nat)
    requires Run(g, states, moves) && i < |states| && k < m < |states[i].table|
    ensures !SameName(states[i].heap, states[i].table[k].cls, states[i].table[m].cls)
  {
    RunKeeps(g, states, moves, i);
  }

  /** The CHECK in `MoveImageClassesToClassTable` never fails: the migration always takes its next step. */
  lemma MigrationNeverAborts(g: Config, states: seq<State>, moves: seq<Move>, i: nat, t: nat, ok: bool)
    requires Run(g, states, moves) && i < |states| && t < g.threads && Shape(g, states[i]) && states[i].pcs[t].Moving?
    ensures Step(g, states[i], t, ok).Some?
  {
    RunKeeps(g, states, moves, i);
    MovingKeeps(g, states[i], t, ok);
  }

  /** Once the flag is cleared every image class is found in the table itself. */
  lemma MigratedMeansFound(g: Config, states: seq<State>, moves: seq<Move>, i: nat, k: nat, m: nat, d: string, c: nat)
    requires Run(g, states, moves) && i < |states| && Shape(g, states[i])
    requires !states[i].lookupRequired && Cached(g, states[i], k, m, d, c)
    ensures Lookup(g, states[i].heap, states[i].table, d, BOOT) == Some(c)
  {
    RunKeeps(g, states, moves, i);
    LookupInTable(g, states[i], d, BOOT);
  }
}
