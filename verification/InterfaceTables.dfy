/** Flattening the interface hierarchy into a class's interface table. */
module InterfaceTables {
  import opened Options

  /** `methods` counts the methods the class itself declares; a marker interface has none. */
  datatype Class = Class(isInterface: bool, super: Option<nat>, interfaces: seq<nat>, methods: nat)

  /** Superclasses and direct interfaces are loaded before the class that names them. */
  ghost predicate Hierarchy(classes: seq<Class>) {
    forall c :: 0 <= c < |classes| ==>
      && (classes[c].super.Some? ==> classes[c].super.value < c)
      && forall k :: 0 <= k < |classes[c].interfaces| ==> classes[c].interfaces[k] < c
  }

  /** The first `n` classes that class `c` names as its interfaces are interfaces. */
  ghost predicate NamesInterfaces(classes: seq<Class>, c: nat, n: nat)
    requires Hierarchy(classes) && c < |classes| && n <= |classes[c].interfaces|
  {
    forall k :: 0 <= k < n ==> classes[classes[c].interfaces[k]].isInterface
  }

  /**
   * Everything a class implements: what its superclass implements, its direct interfaces and, in
   * turn, their super-interfaces.
   */
  ghost function Implemented(classes: seq<Class>, c: nat): set<nat>
    requires Hierarchy(classes) && c < |classes|
    decreases c, 1, 0
  {
    (if classes[c].super.Some? then Implemented(classes, classes[c].super.value) else {})
    + FromDirect(classes, c, |classes[c].interfaces|)
  }

  /** The first `n` direct interfaces of class `c` and all they extend. */
  ghost function FromDirect(classes: seq<Class>, c: nat, n: nat): set<nat>
    requires Hierarchy(classes) && c < |classes| && n <= |classes[c].interfaces|
    decreases c, 0, n
  {
    if n == 0 then {}
    else
      var i := classes[c].interfaces[n - 1];
      FromDirect(classes, c, n - 1) + {i} + Implemented(classes, i)
  }

  /** Implementing is transitive: an implemented interface brings everything above it. */
  lemma {:induction false} UpwardClosed(classes: seq<Class>, c: nat, i: nat)
    requires Hierarchy(classes) && c < |classes| && i in Implemented(classes, c)
    ensures i < c && Implemented(classes, i) <= Implemented(classes, c)
    decreases c, 1, 0
  {
    if classes[c].super.Some? && i in Implemented(classes, classes[c].super.value) {
      UpwardClosed(classes, classes[c].super.value, i);
    } else {
      DirectClosed(classes, c, |classes[c].interfaces|, i);
    }
  }

  lemma {:induction false} DirectClosed(classes: seq<Class>, c: nat, n: nat, i: nat)
    requires Hierarchy(classes) && c < |classes| && n <= |classes[c].interfaces| && i in FromDirect(classes, c, n)
    ensures i < c && Implemented(classes, i) <= FromDirect(classes, c, n)
    decreases c, 0, n
  {
    var d := classes[c].interfaces[n - 1];
    if i in FromDirect(classes, c, n - 1) {
      DirectClosed(classes, c, n - 1, i);
    } else if i != d {
      UpwardClosed(classes, d, i);
    }
  }

  // ---- implementing, step by step ----

  predicate Names(classes: seq<Class>, a: nat, b: nat) {
    a < |classes| && b < |classes| && b in classes[a].interfaces
  }

  predicate Extends(classes: seq<Class>, a: nat, b: nat) {
    a < |classes| && b < |classes| && classes[a].super == Some(b)
  }

  /** A way up from class to superclass or to a named interface, the last step to a named interface. */
  ghost predicate Way(classes: seq<Class>, p: seq<nat>) {
    && |p| >= 2 && Names(classes, p[|p| - 2], p[|p| - 1])
    && forall i :: 0 <= i < |p| - 1 ==> Names(classes, p[i], p[i + 1]) || Extends(classes, p[i], p[i + 1])
  }

  /** There is a way from class `c` to `x`. */
  ghost predicate Reaches(classes: seq<Class>, c: nat, x: nat) {
    exists p :: Way(classes, p) && p[0] == c && p[|p| - 1] == x
  }

  lemma WayLonger(classes: seq<Class>, c: nat, p: seq<nat>)
    requires Way(classes, p) && (Names(classes, c, p[0]) || Extends(classes, c, p[0]))
    ensures Way(classes, [c] + p)
  {
    var q := [c] + p;
    forall i | 0 <= i < |q| - 1 ensures Names(classes, q[i], q[i + 1]) || Extends(classes, q[i], q[i + 1]) {
      assert i > 0 ==> q[i] == p[i - 1];
    }
  }

  lemma {:induction false} WayTo(classes: seq<Class>, c: nat, x: nat) returns (p: seq<nat>)
    requires Hierarchy(classes) && c < |classes| && x in Implemented(classes, c)
    ensures Way(classes, p) && p[0] == c && p[|p| - 1] == x
    decreases c, 1, 0
  {
    if classes[c].super.Some? && x in Implemented(classes, classes[c].super.value) {
      p := WayTo(classes, classes[c].super.value, x);
      WayLonger(classes, c, p);
      p := [c] + p;
    } else {
      p := WayToDirect(classes, c, |classes[c].interfaces|, x);
    }
  }

  lemma {:induction false} WayToDirect(classes: seq<Class>, c: nat, n: nat, x: nat) returns (p: seq<nat>)
    requires Hierarchy(classes) && c < |classes| && n <= |classes[c].interfaces| && x in FromDirect(classes, c, n)
    ensures Way(classes, p) && p[0] == c && p[|p| - 1] == x
    decreases c, 0, n
  {
    var d := classes[c].interfaces[n - 1];
    if x in FromDirect(classes, c, n - 1) {
      p := WayToDirect(classes, c, n - 1, x);
    } else if x == d {
      p := [c, d];
    } else {
      p := WayTo(classes, d, x);
      WayLonger(classes, c, p);
      p := [c] + p;
    }
  }

  lemma {:induction false} DirectIn(classes: seq<Class>, c: nat, n: nat, k: nat)
    requires Hierarchy(classes) && c < |classes| && k < n <= |classes[c].interfaces|
    ensures var d := classes[c].interfaces[k]; {d} + Implemented(classes, d) <= FromDirect(classes, c, n)
  {
    if k < n - 1 {
      DirectIn(classes, c, n - 1, k);
    }
  }

  lemma {:induction false} WayImplements(classes: seq<Class>, p: seq<nat>)
    requires Hierarchy(classes) && Way(classes, p)
    ensures p[0] < |classes| && p[|p| - 1] in Implemented(classes, p[0])
    decreases |p|
  {
    var c, next := p[0], p[1];
    assert Names(classes, c, next) || Extends(classes, c, next);
    if |p| > 2 {
      var q := p[1..];
      forall i | 0 <= i < |q| - 1 ensures Names(classes, q[i], q[i + 1]) || Extends(classes, q[i], q[i + 1]) {
        assert q[i] == p[i + 1] && q[i + 1] == p[i + 2];
      }
      WayImplements(classes, q);
    }
    if Names(classes, c, next) {
      var k :| 0 <= k < |classes[c].interfaces| && classes[c].interfaces[k] == next;
      DirectIn(classes, c, |classes[c].interfaces|, k);
    }
  }

  /** What a class implements is what there is a way to. */
  lemma ImplementedIsReached(classes: seq<Class>, c: nat, x: nat)
    requires Hierarchy(classes) && c < |classes|
    ensures x in Implemented(classes, c) <==> Reaches(classes, c, x)
  {
    if x in Implemented(classes, c) {
      var p := WayTo(classes, c, x);
    }
    if Reaches(classes, c, x) {
      var p :| Way(classes, p) && p[0] == c && p[|p| - 1] == x;
      WayImplements(classes, p);
    }
  }

  // ---- the tables ----

  /** `table` holds exactly the members of `all`, each once. */
  ghost predicate Lists(table: seq<nat>, all: set<nat>) {
    && (forall j, k :: 0 <= j < k < |table| ==> table[j] != table[k])
    && (forall x :: x in table <==> x in all)
  }

  ghost predicate Begins(table: seq<nat>, start: seq<nat>) {
    start <= table
  }

  lemma ListsMore(table: seq<nat>, all: set<nat>, x: nat)
    requires Lists(table, all) && x !in table
    ensures Lists(table + [x], all + {x})
  {
  }

  /** Every class before `n` has its table, which lists all the class implements. */
  ghost predicate TablesOk(classes: seq<Class>, tables: seq<seq<nat>>, n: nat)
    requires Hierarchy(classes) && n <= |classes|
  {
    |tables| == n && forall c :: 0 <= c < n ==> Lists(tables[c], Implemented(classes, c))
  }

  function SuperTable(classes: seq<Class>, tables: seq<seq<nat>>, c: nat): seq<nat>
    requires c < |classes| && (classes[c].super.Some? ==> classes[c].super.value < |tables|)
  {
    if classes[c].super.Some? then tables[classes[c].super.value] else []
  }

  /** What the table must hold once the first `n` direct interfaces are in. */
  ghost function Target(classes: seq<Class>, c: nat, n: nat): set<nat>
    requires Hierarchy(classes) && c < |classes| && n <= |classes[c].interfaces|
  {
    (if classes[c].super.Some? then Implemented(classes, classes[c].super.value) else {}) + FromDirect(classes, c, n)
  }

  /** An interface that is already in the table has brought its super-interfaces with it. */
  lemma AlreadyThere(classes: seq<Class>, c: nat, i: nat)
    requires Hierarchy(classes) && c < |classes| && i < |classes[c].interfaces|
    requires classes[c].interfaces[i] in Target(classes, c, i)
    ensures Target(classes, c, i + 1) == Target(classes, c, i)
  {
    var d := classes[c].interfaces[i];
    if d in FromDirect(classes, c, i) {
      DirectClosed(classes, c, i, d);
    } else {
      UpwardClosed(classes, classes[c].super.value, d);
    }
  }

  method Contains(table: array<nat>, idx: nat, x: nat) returns (duplicate: bool)
    requires idx <= table.Length
    ensures duplicate <==> x in table[..idx]
  {
    for j := 0 to idx
      invariant x !in table[..j]
    {
      if table[j] == x {
        return true;
      }
    }
    return false;
  }

  method Append(table: array<nat>, idx: nat, x: nat, ghost all: set<nat>)
    requires idx < table.Length && Lists(table[..idx], all) && x !in table[..idx]
    modifies table
    ensures table[..idx] == old(table[..idx]) && Lists(table[..idx + 1], all + {x})
  {
    hide Lists;
    ListsMore(table[..idx], all, x);
    table[idx] := x;
    assert table[..idx + 1] == old(table[..idx]) + [x];
  }

  /** Appends those of `more` that are not in the table yet. */
  method AddSuperInterfaces(table: array<nat>, start: nat, more: seq<nat>, ghost all: set<nat>, ghost added: set<nat>)
    returns (idx: nat)
    requires start + |more| <= table.Length && Lists(table[..start], all) && Lists(more, added)
    modifies table
    ensures start <= idx <= start + |more| && table[..start] == old(table[..start])
    ensures Lists(table[..idx], all + added)
  {
    hide Lists;
    idx := start;
    ghost var now := all;
    for j := 0 to |more|
      invariant start <= idx <= start + j && table[..start] == old(table[..start])
      invariant Lists(table[..idx], now) && now == all + set x | x in more[..j]
    {
      assert more[..j + 1] == more[..j] + [more[j]];
      var superDuplicate := Contains(table, idx, more[j]);
      if !superDuplicate {
        ghost var before := table[..idx];
        Append(table, idx, more[j], now);
        assert table[..start] == before[..start];
        now := now + {more[j]};
        idx := idx + 1;
      } else {
        Listed(table[..idx], now, more[j]);
      }
    }
    ListedAll(more, added);
    assert more[..|more|] == more;
    assert now == all + added;
  }

  lemma Listed(table: seq<nat>, all: set<nat>, x: nat)
    requires Lists(table, all)
    ensures x in table <==> x in all
  {
  }

  lemma ListedAll(table: seq<nat>, all: set<nat>)
    requires Lists(table, all)
    ensures all == set x | x in table
  {
  }

  /** Room for each of the first `n` direct interfaces and its whole table. */
  ghost function Room(tables: seq<seq<nat>>, direct: seq<nat>, n: nat): nat
    requires n <= |direct| && forall k :: 0 <= k < |direct| ==> direct[k] < |tables|
  {
    if n == 0 then 0 else Room(tables, direct, n - 1) + 1 + |tables[direct[n - 1]]|
  }

  lemma {:induction false} RoomGrows(tables: seq<seq<nat>>, direct: seq<nat>, n: nat)
    requires n <= |direct| && forall k :: 0 <= k < |direct| ==> direct[k] < |tables|
    ensures n < |direct| ==>
      Room(tables, direct, n) + 1 + |tables[direct[n]]| == Room(tables, direct, n + 1) <= Room(tables, direct, |direct|)
    decreases |direct| - n
  {
    if n < |direct| {
      RoomGrows(tables, direct, n + 1);
    }
  }

  /** The table size counted in advance: the superclass's table and room for every direct interface. */
  method CountInterfaces(tables: seq<seq<nat>>, superCount: nat, direct: seq<nat>) returns (ifcount: nat)
    requires forall k :: 0 <= k < |direct| ==> direct[k] < |tables|
    ensures ifcount == superCount + Room(tables, direct, |direct|)
  {
    ifcount := superCount;
    for i := 0 to |direct|
      invariant ifcount == superCount + Room(tables, direct, i)
    {
      ifcount := ifcount + 1 + |tables[direct[i]]|;
    }
  }

  method HasNonMarker(classes: seq<Class>, table: seq<nat>) returns (r: bool)
    requires forall k :: 0 <= k < |table| ==> table[k] < |classes|
    ensures r <==> exists k :: 0 <= k < |table| && classes[table[k]].methods > 0
  {
    for i := 0 to |table|
      invariant forall k :: 0 <= k < i ==> classes[table[k]].methods == 0
    {
      if classes[table[i]].methods > 0 {
        return true;
      }
    }
    return false;
  }

  /**
   * The state of class `c`'s table when its first `n` direct interfaces are in: complete so far and
   * within its share of the room.
   */
  ghost predicate Partial(classes: seq<Class>, tables: seq<seq<nat>>, c: nat, n: nat, table: seq<nat>)
    requires Hierarchy(classes) && c < |classes| && TablesOk(classes, tables, c) && n <= |classes[c].interfaces|
  {
    && Lists(table, Target(classes, c, n)) && Begins(table, SuperTable(classes, tables, c))
    && |table| <= |SuperTable(classes, tables, c)| + Room(tables, classes[c].interfaces, n)
  }

  /** Enters direct interface `i` of class `c`, unless it is already there. */
  method AddInterface(classes: seq<Class>, tables: seq<seq<nat>>, c: nat, i: nat, table: array<nat>, start: nat)
    returns (idx: nat)
    requires Hierarchy(classes) && c < |classes| && TablesOk(classes, tables, c) && i < |classes[c].interfaces|
    requires table.Length ==
      |SuperTable(classes, tables, c)| + Room(tables, classes[c].interfaces, |classes[c].interfaces|)
    requires start <= table.Length && Partial(classes, tables, c, i, table[..start])
    modifies table
    ensures idx <= table.Length && Partial(classes, tables, c, i + 1, table[..idx])
  {
    hide Lists;
    var interface := classes[c].interfaces[i];
    idx := start;
    RoomGrows(tables, classes[c].interfaces, i);
    ghost var all := Target(classes, c, i);
    ghost var first := table[..start];
    var duplicate := Contains(table, idx, interface);
    Listed(table[..idx], all, interface);
    if !duplicate {
      Append(table, idx, interface, all);
      ghost var before := table[..idx + 1];
      idx := AddSuperInterfaces(table, idx + 1, tables[interface], all + {interface}, Implemented(classes, interface));
      assert table[..start] == before[..start];
      assert Begins(table[..idx], first);
      assert all + {interface} + Implemented(classes, interface) == Target(classes, c, i + 1);
    } else {
      AlreadyThere(classes, c, i);
    }
  }

  method CopySuper(superTable: seq<nat>, ifcount: nat) returns (iftable: array<nat>)
    requires |superTable| <= ifcount
    ensures fresh(iftable) && iftable.Length == ifcount && iftable[..|superTable|] == superTable
  {
    iftable := new nat[ifcount](_ => 0);
    for i := 0 to |superTable|
      invariant iftable[..i] == superTable[..i]
    {
      iftable[i] := superTable[i];
    }
  }

  /** Copies the superclass's table and enters the direct interfaces one by one. */
  method Flatten(classes: seq<Class>, tables: seq<seq<nat>>, c: nat, ifcount: nat) returns (r: Option<seq<nat>>)
    requires Hierarchy(classes) && c < |classes| && TablesOk(classes, tables, c)
    requires ifcount == |SuperTable(classes, tables, c)| + Room(tables, classes[c].interfaces, |classes[c].interfaces|)
    ensures r.Some? <==> NamesInterfaces(classes, c, |classes[c].interfaces|)
    ensures r.Some? ==> Lists(r.value, Implemented(classes, c)) && Begins(r.value, SuperTable(classes, tables, c))
  {
    hide Lists, Implemented, Partial, Room, Begins;
    var superTable := SuperTable(classes, tables, c);
    PartialStart(classes, tables, c);
    var iftable := CopySuper(superTable, ifcount);
    var idx: nat := |superTable|;
    for i := 0 to |classes[c].interfaces|
      invariant idx <= iftable.Length && Partial(classes, tables, c, i, iftable[..idx])
      invariant NamesInterfaces(classes, c, i)
    {
      if !classes[classes[c].interfaces[i]].isInterface {
        return None;
      }
      idx := AddInterface(classes, tables, c, i, iftable, idx);
    }
    PartialEnd(classes, tables, c, iftable[..idx]);
    return Some(iftable[..idx]);
  }

  lemma PartialStart(classes: seq<Class>, tables: seq<seq<nat>>, c: nat)
    requires Hierarchy(classes) && c < |classes| && TablesOk(classes, tables, c)
    ensures Partial(classes, tables, c, 0, SuperTable(classes, tables, c))
  {
    SuperListed(classes, tables, c);
  }

  lemma PartialEnd(classes: seq<Class>, tables: seq<seq<nat>>, c: nat, table: seq<nat>)
    requires Hierarchy(classes) && c < |classes| && TablesOk(classes, tables, c)
    requires Partial(classes, tables, c, |classes[c].interfaces|, table)
    ensures Lists(table, Implemented(classes, c)) && Begins(table, SuperTable(classes, tables, c))
  {
  }

  /**
   * The interface table of class `c`. It lists what the class implements, with the superclass's
   * table in front, although the super-interfaces of an interface that is already there are not
   * looked at again; and the room counted in advance is enough.
   */
  method LinkInterfaces(classes: seq<Class>, tables: seq<seq<nat>>, c: nat) returns (r: Option<seq<nat>>)
    requires Hierarchy(classes) && c < |classes| && TablesOk(classes, tables, c)
    ensures r.Some? <==> NamesInterfaces(classes, c, |classes[c].interfaces|)
    ensures r.Some? ==> Lists(r.value, Implemented(classes, c)) && Begins(r.value, SuperTable(classes, tables, c))
    ensures r.Some? ==> forall x :: x in r.value <==> Reaches(classes, c, x)
  {
    forall x ensures x in Implemented(classes, c) <==> Reaches(classes, c, x) {
      ImplementedIsReached(classes, c, x);
    }
    hide Reaches;
    SuperListed(classes, tables, c);
    hide Lists;
    var superTable := SuperTable(classes, tables, c);
    var direct := classes[c].interfaces;
    var ifcount := CountInterfaces(tables, |superTable|, direct);
    if ifcount == 0 {
      return Some([]);
    }
    if ifcount == |superTable| {
      var hasNonMarker := HasNonMarker(classes, superTable);
      if !hasNonMarker {
        return Some(superTable);
      }
    }
    r := Flatten(classes, tables, c, ifcount);
  }

  lemma SuperListed(classes: seq<Class>, tables: seq<seq<nat>>, c: nat)
    requires Hierarchy(classes) && c < |classes| && TablesOk(classes, tables, c)
    ensures Lists(SuperTable(classes, tables, c), Target(classes, c, 0))
    ensures forall k :: 0 <= k < |SuperTable(classes, tables, c)| ==> SuperTable(classes, tables, c)[k] < |classes|
    ensures |tables| == c && forall k :: 0 <= k < |classes[c].interfaces| ==> classes[c].interfaces[k] < c
  {
    var table := SuperTable(classes, tables, c);
    forall k | 0 <= k < |table| ensures table[k] < |classes| {
      assert table[k] in table;
      UpwardClosed(classes, classes[c].super.value, table[k]);
    }
  }

  /** Links every class of a hierarchy in order; fails exactly when some class implements a non-interface. */
  method LinkAll(classes: seq<Class>) returns (r: Option<seq<seq<nat>>>)
    requires Hierarchy(classes)
    ensures r.Some? <==> forall c :: 0 <= c < |classes| ==> NamesInterfaces(classes, c, |classes[c].interfaces|)
    ensures r.Some? ==> TablesOk(classes, r.value, |classes|)
    ensures r.Some? ==> forall c, x :: 0 <= c < |classes| ==> (x in r.value[c] <==> Reaches(classes, c, x))
    ensures r.Some? ==> forall c :: 0 <= c < |classes| ==> Begins(r.value[c], SuperTable(classes, r.value, c))
  {
    hide Lists, Reaches;
    var tables: seq<seq<nat>> := [];
    for c := 0 to |classes|
      invariant TablesOk(classes, tables, c)
      invariant forall b :: 0 <= b < c ==> NamesInterfaces(classes, b, |classes[b].interfaces|)
      invariant forall b :: 0 <= b < c ==> Begins(tables[b], SuperTable(classes, tables, b))
      invariant forall b, x :: 0 <= b < c ==> (x in tables[b] <==> Reaches(classes, b, x))
    {
      var table := LinkInterfaces(classes, tables, c);
      if table.None? {
        return None;
      }
      tables := tables + [table.value];
    }
    return Some(tables);
  }
}
