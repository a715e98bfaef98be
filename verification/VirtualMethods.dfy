/** Virtual method tables: overriding, appending, and interface methods with their mirandas. */
module VirtualMethods {

  /**
   * A method object. `index` is its position in the virtual method table, which linking assigns.
   */
  datatype Method = Method(
    signature: nat, declaringClass: nat, isFinal: bool, isAbstract: bool, isPublic: bool, isMiranda: bool, index: nat)

  /** `IsUint(16, n)`. */
  predicate Fits16(n: nat) { n < 0x1_0000 }

  /** `CanAccessMember` for the class being linked, on the declaring class and access of a method. */
  type Access = Method -> bool

  /** Entries are method objects, and each knows its own position. */
  ghost predicate Indexed(methods: seq<Method>, vtable: seq<nat>) {
    forall j :: 0 <= j < |vtable| ==> vtable[j] < |methods| && methods[vtable[j]].index == j
  }

  ghost predicate Entries(methods: seq<Method>, vtable: seq<nat>) {
    forall j :: 0 <= j < |vtable| ==> vtable[j] < |methods|
  }

  /** The declared methods are objects not yet in the table, with signatures all different. */
  ghost predicate Declared(methods: seq<Method>, vtable: seq<nat>, locals: seq<nat>) {
    && (forall i :: 0 <= i < |locals| ==> locals[i] < |methods|)
    && (forall i, j :: 0 <= i < j < |locals| ==> methods[locals[i]].signature != methods[locals[j]].signature)
    && (forall i, j :: 0 <= i < |locals| && 0 <= j < |vtable| ==> locals[i] != vtable[j])
  }

  /** Slot `j` is one that a method with signature `s` overrides: same signature, and accessible. */
  ghost predicate Overrides(methods: seq<Method>, access: Access, vtable: seq<nat>, j: nat, s: nat) {
    j < |vtable| && vtable[j] < |methods| && methods[vtable[j]].signature == s && access(methods[vtable[j]])
  }

  ghost predicate NoOverride(methods: seq<Method>, access: Access, vtable: seq<nat>, s: nat) {
    forall j :: 0 <= j < |vtable| ==> !Overrides(methods, access, vtable, j, s)
  }

  ghost predicate FirstOverride(methods: seq<Method>, access: Access, vtable: seq<nat>, j: nat, s: nat) {
    Overrides(methods, access, vtable, j, s) && forall k :: 0 <= k < j ==> !Overrides(methods, access, vtable, k, s)
  }

  /** Some declared method would override a final method. */
  ghost predicate OverridesFinal(methods: seq<Method>, access: Access, vtable: seq<nat>, locals: seq<nat>) {
    exists i, j :: 0 <= i < |locals| && 0 <= j < |vtable| && locals[i] < |methods| &&
      FirstOverride(methods, access, vtable, j, methods[locals[i]].signature) && methods[vtable[j]].isFinal
  }

  /** Only the index of declared methods changes. */
  ghost predicate OnlyIndexes(methods: seq<Method>, methods': seq<Method>, locals: seq<nat>) {
    && |methods'| == |methods|
    && forall m :: 0 <= m < |methods| ==>
         methods'[m] == methods[m].(index := methods'[m].index) && (m !in locals ==> methods'[m] == methods[m])
  }

  /**
   * `vtable'` is the table of a class that declares `locals` below a class with table `vtable`:
   * inherited slots keep their number; a slot changes only to the declared method that overrides
   * it; a declared method that overrides nothing has a slot of its own after the inherited ones,
   * in the order of declaration.
   */
  ghost predicate Linked(methods: seq<Method>, access: Access, vtable: seq<nat>, locals: seq<nat>, vtable': seq<nat>) {
    && |vtable| <= |vtable'|
    && (forall j :: 0 <= j < |vtable| ==>
         vtable'[j] == vtable[j] || OverriddenBy(methods, access, vtable, locals, j, vtable'[j]))
    && (forall j :: |vtable| <= j < |vtable'| ==> NewSlot(methods, access, vtable, locals, vtable'[j]))
    && vtable'[|vtable|..] == Fresh(methods, access, vtable, locals)
    && (forall i :: 0 <= i < |locals| ==> locals[i] < |methods| && HasSlot(methods, access, vtable, locals[i], vtable'))
  }

  /** The declared methods that override nothing, in order. */
  ghost function Fresh(methods: seq<Method>, access: Access, vtable: seq<nat>, locals: seq<nat>): seq<nat> {
    if locals == [] then []
    else
      var rest, m := Fresh(methods, access, vtable, locals[..|locals| - 1]), locals[|locals| - 1];
      if m < |methods| && NoOverride(methods, access, vtable, methods[m].signature) then rest + [m] else rest
  }

  ghost predicate OverriddenBy(methods: seq<Method>, access: Access, vtable: seq<nat>, locals: seq<nat>, j: nat, m: nat)
    requires j < |vtable|
  {
    m in locals && m < |methods| && vtable[j] < |methods| && !methods[vtable[j]].isFinal &&
    FirstOverride(methods, access, vtable, j, methods[m].signature)
  }

  ghost predicate NewSlot(methods: seq<Method>, access: Access, vtable: seq<nat>, locals: seq<nat>, m: nat) {
    m in locals && m < |methods| && NoOverride(methods, access, vtable, methods[m].signature)
  }

  /** A declared method sits in the first slot it overrides, or in a new one. */
  ghost predicate HasSlot(methods: seq<Method>, access: Access, vtable: seq<nat>, m: nat, vtable': seq<nat>)
    requires m < |methods|
  {
    exists j :: 0 <= j < |vtable'| && vtable'[j] == m &&
      if j < |vtable| then FirstOverride(methods, access, vtable, j, methods[m].signature)
      else NoOverride(methods, access, vtable, methods[m].signature)
  }

  class Linker {
    var methods: seq<Method>

    constructor (methods: seq<Method>)
      ensures this.methods == methods
    {
      this.methods := methods;
    }

    method SetMethodIndex(m: nat, index: nat)
      requires m < |methods|
      modifies this
      ensures methods == old(methods)[m := old(methods)[m].(index := index)]
    {
      methods := methods[m := methods[m].(index := index)];
    }

    /** The first slot of `vtable` with this signature that the class may access. */
    method FindOverridden(vtable: seq<nat>, signature: nat, access: Access) returns (j: nat)
      requires forall k :: 0 <= k < |vtable| ==> vtable[k] < |methods|
      ensures j <= |vtable|
      ensures j < |vtable| ==> FirstOverride(methods, access, vtable, j, signature)
      ensures j == |vtable| ==> NoOverride(methods, access, vtable, signature)
    {
      j := 0;
      while j < |vtable|
        invariant j <= |vtable|
        invariant forall k :: 0 <= k < j ==> !Overrides(methods, access, vtable, k, signature)
      {
        var superMethod := methods[vtable[j]];
        if superMethod.signature == signature && access(superMethod) {
          return;
        }
        j := j + 1;
      }
    }

    method LinkVirtualMethods(superVtable: seq<nat>, locals: seq<nat>, access: Access)
      returns (ok: bool, vtable: seq<nat>)
      requires Entries(methods, superVtable) && Declared(methods, superVtable, locals)
      modifies this
      ensures OnlyIndexes(old(methods), methods, locals)
      ensures ok <==> !OverridesFinal(old(methods), access, superVtable, locals) && Fits16(|vtable|)
      ensures !OverridesFinal(old(methods), access, superVtable, locals) ==>
        Entries(methods, vtable) && Linked(old(methods), access, superVtable, locals, vtable)
      ensures !OverridesFinal(old(methods), access, superVtable, locals) && Indexed(old(methods), superVtable) ==>
        Indexed(methods, vtable)
    {
      vtable := superVtable;
      ok := false;
      ghost var m0 := methods;
      for i := 0 to |locals|
        invariant Partial(m0, methods, access, superVtable, locals, vtable, i)
      {
        hide Declared, Overrides, NoOverride, FirstOverride, Linked, OnlyIndexes, OverridesFinal;
        var m := locals[i];
        NotYetLinked(m0, methods, access, superVtable, locals, vtable, i);
        var j := FindOverridden(vtable, methods[m].signature, access);
        if j < |vtable| {
          OverrideStep(m0, methods, access, superVtable, locals, vtable, i, j);
          if methods[vtable[j]].isFinal {
            return;
          }
          vtable := vtable[j := m];
        } else {
          AppendStep(m0, methods, access, superVtable, locals, vtable, i);
          vtable := vtable + [m];
        }
        SetMethodIndex(m, j);
      }
      assert locals[..|locals|] == locals;
      if !Fits16(|vtable|) {
        return;
      }
      ok := true;
    }

    /** The root of the hierarchy: its table is its declared methods. */
    method LinkRootMethods(locals: seq<nat>) returns (ok: bool, vtable: seq<nat>)
      requires Declared(methods, [], locals)
      modifies this
      ensures OnlyIndexes(old(methods), methods, locals) && vtable == locals
      ensures ok <==> Fits16(|locals|)
      ensures ok ==> Indexed(methods, vtable)
    {
      vtable := locals;
      if !Fits16(|locals|) {
        return false, vtable;
      }
      for i := 0 to |locals|
        invariant OnlyIndexes(old(methods), methods, locals)
        invariant forall j :: 0 <= j < i ==> methods[locals[j]].index == j
      {
        SetMethodIndex(locals[i], i % 0x1_0000);
      }
      ok := true;
    }

    /**
     * Links one class below the classes with `tables`: its virtual methods and then its interface
     * methods, so that its mirandas are inherited, and may be overridden, by the classes below.
     */
    method LinkMethods(chain: seq<Declaration>, tables: seq<seq<nat>>, ghost m0: seq<Method>)
      returns (ok: bool, vtable: seq<nat>, ghost link: Link)
      requires WellDeclared(m0, chain) && |tables| < |chain| && Above(m0, methods, chain, tables, |tables|)
      modifies this
      ensures Above(m0, methods, chain, tables, |tables| + 1)
      ensures link.before == old(methods) && link.inherited == Inherited(tables, |tables|)
      ensures VirtualDone(chain[|tables|], link)
      ensures ok <==> Passes(chain[|tables|], link)
      ensures ok ==>
        InterfacesDone(chain[|tables|], link) && link.after == methods && vtable == link.linked + link.mirandas
      ensures ok ==> Above(m0, methods, chain, tables + [vtable], |tables| + 1)
    {
      hide WellDeclared, Above, Linked, Declared, Indexed, Entries, OnlyIndexes, MirandasOk, RowsOk, Inaccessible,
        Flatten;
      hide LinkedBelow, OverridesFinal;
      var n := |tables|;
      var d := chain[n];
      ghost var m1 := methods;
      var inherited := Inherited(tables, n);
      Inherits(m0, m1, chain, tables);
      ok, vtable := LinkVirtualOrRoot(n, inherited, d);
      ghost var m2, linked := methods, vtable;
      link := Link(m1, inherited, linked, m2, [], [], m2);
      AboveIndexes(m0, m1, m2, chain, tables);
      if !ok {
        return;
      }
      TableLinked(m0, m1, m2, chain, tables, linked);
      InterfacesKnown(m0, m2, chain, n);
      var all, interfaceTables, mirandas;
      ok, all, interfaceTables, mirandas := LinkInterfaceMethods(vtable, d.interfaces);
      if !ok {
        AboveGrows(m0, m2, methods, chain, tables, n + 1);
        return;
      }
      link := Link(m1, inherited, linked, m2, mirandas, interfaceTables, methods);
      MirandaEntries(m2, methods, linked, mirandas, Flatten(d.interfaces));
      MirandasLast(m2, methods, linked, mirandas, Flatten(d.interfaces));
      AboveGrows(m0, m2, methods, chain, tables, n + 1);
      TableCompleted(m0, m2, methods, chain, tables, linked, mirandas, Flatten(d.interfaces));
      vtable := all;
    }

    /** The virtual methods of a class, with or without a superclass. */
    method LinkVirtualOrRoot(n: nat, inherited: seq<nat>, d: Declaration) returns (ok: bool, vtable: seq<nat>)
      requires Entries(methods, inherited) && Declared(methods, inherited, d.locals) && (n == 0 ==> inherited == [])
      modifies this
      ensures OnlyIndexes(old(methods), methods, d.locals)
      ensures ok <==> !OverridesFinal(old(methods), d.access, inherited, d.locals) && Fits16(|vtable|)
      ensures !OverridesFinal(old(methods), d.access, inherited, d.locals) ==>
        Entries(methods, vtable) && Linked(old(methods), d.access, inherited, d.locals, vtable)
      ensures ok && Indexed(old(methods), inherited) ==> Indexed(methods, vtable)
    {
      if n == 0 {
        ok, vtable := LinkRootMethods(d.locals);
        RootLinked(old(methods), d);
      } else {
        ok, vtable := LinkVirtualMethods(inherited, d.locals, d.access);
      }
    }

    /**
     * Links a chain of classes from the root down, each with the interface methods it must have,
     * until one does not pass. Each class in turn is linked below the one before it. In a class
     * `vtable[m.index] == m` for each entry if and only if the class has at most 0x10000 entries,
     * which every class with a subclass has; and a slot has the same signature in a class and in
     * all classes below it, mirandas included.
     */
    method LinkChain(chain: seq<Declaration>) returns (ok: bool, tables: seq<seq<nat>>, ghost links: seq<Link>)
      requires WellDeclared(methods, chain)
      modifies this
      ensures |tables| <= |chain| && |links| == if ok then |tables| else |tables| + 1
      ensures ok <==> |tables| == |chain|
      ensures AllLinked(old(methods), chain, tables, links)
      ensures ok && chain != [] ==> methods == links[|chain| - 1].after
      ensures !ok ==> ClassFailed(old(methods), chain, tables, links)
      ensures forall k :: 0 <= k < |tables| ==> (Indexed(methods, tables[k]) <==> |tables[k]| <= 0x1_0000)
      ensures forall k :: 0 <= k < |tables| - 1 ==> Fits16(|tables[k]|)
      ensures forall a, b :: 0 <= a < b < |tables| ==> SameSlots(methods, tables[a], tables[b])
    {
      hide Above, WellDeclared, VirtualDone, Passes, InterfacesDone, AllLinked, ClassFailed, Indexed, SameSlots;
      tables, links := [], [];
      ok := true;
      ghost var m0 := methods;
      NoClasses(m0, chain);
      while |tables| < |chain|
        invariant ok && |tables| == |links| <= |chain| && Above(m0, methods, chain, tables, |tables|)
        invariant methods == Before(m0, links, |links|) && AllLinked(m0, chain, tables, links)
      {
        var vtable;
        ghost var link;
        ok, vtable, link := LinkMethods(chain, tables, m0);
        LinksMore(m0, chain, tables, links, vtable, link, ok);
        links := links + [link];
        if !ok {
          AboveGives(m0, methods, chain, tables, |tables| + 1);
          return;
        }
        tables := tables + [vtable];
      }
      AboveGives(m0, methods, chain, tables, |tables|);
    }

    /** The last slot with this signature, searching from the end; -1 if there is none. */
    method FindImplementation(vtable: seq<nat>, signature: nat) returns (k: int)
      requires forall j :: 0 <= j < |vtable| ==> vtable[j] < |methods|
      ensures -1 <= k < |vtable|
      ensures k >= 0 ==> LastMatch(methods, vtable, k, signature)
      ensures k < 0 ==> NoMatch(methods, vtable, signature)
    {
      k := |vtable| - 1;
      while k >= 0
        invariant -1 <= k < |vtable|
        invariant forall j :: k < j < |vtable| ==> methods[vtable[j]].signature != signature
      {
        if methods[vtable[k]].signature == signature {
          return;
        }
        k := k - 1;
      }
    }

    /** The miranda made earlier for this signature, or a new clone of the interface method. */
    method FindOrMakeMiranda(interfaceMethod: nat, mirandas: seq<nat>) returns (miranda: nat, mirandas': seq<nat>)
      requires interfaceMethod < |methods| && (forall i :: 0 <= i < |mirandas| ==> mirandas[i] < |methods|)
      modifies this
      ensures old(methods) <= methods && miranda in mirandas' && miranda < |methods|
      ensures methods[miranda].signature == old(methods)[interfaceMethod].signature
      ensures (mirandas' == mirandas && methods == old(methods)) ||
              (&& mirandas' == mirandas + [|old(methods)|] && methods == old(methods) + [old(methods)[interfaceMethod]]
               && miranda == |old(methods)|
               && forall i :: 0 <= i < |mirandas| ==>
                    old(methods)[mirandas[i]].signature != old(methods)[interfaceMethod].signature)
    {
      for i := 0 to |mirandas|
        invariant methods == old(methods)
        invariant forall h :: 0 <= h < i ==> methods[mirandas[h]].signature != methods[interfaceMethod].signature
      {
        if methods[mirandas[i]].signature == methods[interfaceMethod].signature {
          return mirandas[i], mirandas;
        }
      }
      miranda := |methods|;
      methods := methods + [methods[interfaceMethod]];
      mirandas' := mirandas + [miranda];
    }

    /** Fills the method array of one interface. */
    method LinkInterface(vtable: seq<nat>, interface: seq<nat>, mirandas: seq<nat>, ghost m0: seq<Method>,
                         ghost before: seq<nat>)
      returns (ok: bool, table: seq<nat>, mirandas': seq<nat>)
      requires m0 <= methods && MirandasOk(m0, methods, vtable, mirandas, before)
      requires forall j :: 0 <= j < |vtable| ==> vtable[j] < |m0|
      requires forall j :: 0 <= j < |interface| ==> interface[j] < |m0|
      modifies this
      ensures old(methods) <= methods && mirandas <= mirandas'
      ensures ok ==> MirandasOk(m0, methods, vtable, mirandas', before + interface)
      ensures ok <==> forall j :: 0 <= j < |interface| ==> !Inaccessible(m0, vtable, interface[j])
      ensures ok ==> RowOk(m0, methods, vtable, mirandas', interface, table)
    {
      hide RowOk, MirandasOk, Inaccessible;
      ok, table, mirandas' := false, [], mirandas;
      assert before + interface[..0] == before;
      RowNone(m0, methods, vtable, mirandas);
      for j := 0 to |interface|
        invariant m0 <= methods && old(methods) <= methods && mirandas <= mirandas'
        invariant MirandasOk(m0, methods, vtable, mirandas', before + interface[..j])
        invariant forall h :: 0 <= h < j ==> !Inaccessible(m0, vtable, interface[h])
        invariant RowOk(m0, methods, vtable, mirandas', interface[..j], table)
      {
        assert before + interface[..j + 1] == before + interface[..j] + [interface[j]];
        assert interface[..j + 1] == interface[..j] + [interface[j]];
        var found, entry;
        found, entry, mirandas' := LinkInterfaceMethod(vtable, interface[j], mirandas', m0, before + interface[..j],
                                                       interface[..j], table);
        if !found {
          return;
        }
        table := table + [entry];
      }
      assert interface[..|interface|] == interface;
      ok := true;
    }

    /** The entry for one interface method, unless its implementation is not public. */
    method LinkInterfaceMethod(vtable: seq<nat>, m: nat, mirandas: seq<nat>,
                               ghost m0: seq<Method>, ghost before: seq<nat>, ghost linked: seq<nat>,
                               ghost table: seq<nat>)
      returns (ok: bool, entry: nat, mirandas': seq<nat>)
      requires m0 <= methods && MirandasOk(m0, methods, vtable, mirandas, before)
      requires RowOk(m0, methods, vtable, mirandas, linked, table)
      requires Entries(m0, vtable) && m < |m0|
      modifies this
      ensures old(methods) <= methods && mirandas <= mirandas'
      ensures ok <==> !Inaccessible(m0, vtable, m)
      ensures ok ==> MirandasOk(m0, methods, vtable, mirandas', before + [m])
      ensures ok ==> RowOk(m0, methods, vtable, mirandas', linked + [m], table + [entry])
    {
      MirandaEntries(m0, methods, vtable, mirandas, before);
      hide LastMatch, NoMatch, RowOk, MirandasOk;
      ok, entry, mirandas' := true, 0, mirandas;
      var k := FindImplementation(vtable, methods[m].signature);
      PrefixMatches(m0, methods, vtable, m0[m].signature);
      if k >= 0 {
        if NotCallable(methods[vtable[k]]) {
          assert LastMatch(m0, vtable, k, m0[m].signature);
          return false, 0, mirandas;
        }
        Implemented(m0, methods, vtable, mirandas, before, linked, table, m, k);
        entry := vtable[k];
      } else {
        ghost var m1 := methods;
        entry, mirandas' := FindOrMakeMiranda(m, mirandas);
        Unimplemented(m0, m1, methods, vtable, mirandas, mirandas', before, linked, table, m, entry);
      }
    }

    /**
     * Fills the interface table of a class: an implemented method gets the last entry of the
     * vtable with its signature, an unimplemented one a miranda that is appended to the vtable,
     * one for each signature however many interfaces declare it.
     */
    method LinkInterfaceMethods(vtable: seq<nat>, interfaces: seq<seq<nat>>)
      returns (ok: bool, vtable': seq<nat>, tables: seq<seq<nat>>, mirandas: seq<nat>)
      requires Entries(methods, vtable)
      requires forall i, j :: 0 <= i < |interfaces| && 0 <= j < |interfaces[i]| ==> interfaces[i][j] < |methods|
      modifies this
      ensures !ok ==> old(methods) <= methods
      ensures ok <==> forall i, j :: 0 <= i < |interfaces| && 0 <= j < |interfaces[i]| ==>
        !Inaccessible(old(methods), vtable, interfaces[i][j])
      ensures ok ==>
        vtable' == vtable + mirandas && MirandasOk(old(methods), methods, vtable, mirandas, Flatten(interfaces))
      ensures ok ==> RowsOk(old(methods), methods, vtable, mirandas, interfaces, tables)
      ensures ok ==> forall i :: 0 <= i < |mirandas| ==>
        methods[mirandas[i]].index == (|vtable| + i) % 0x1_0000 && methods[mirandas[i]].isMiranda
    {
      hide MirandasOk, RowOk, RowsOk, Inaccessible, Flatten, Marked;
      ok, tables, mirandas, vtable' := false, [], [], vtable;
      ghost var m0 := methods;
      NoneLinked(m0, vtable);
      assert interfaces[..0] == [];
      for i := 0 to |interfaces|
        invariant m0 <= methods
        invariant MirandasOk(m0, methods, vtable, mirandas, Flatten(interfaces[..i]))
        invariant forall h, j :: 0 <= h < i && 0 <= j < |interfaces[h]| ==> !Inaccessible(m0, vtable, interfaces[h][j])
        invariant RowsOk(m0, methods, vtable, mirandas, interfaces[..i], tables)
      {
        FlattenNext(interfaces, i);
        ghost var m1, old' := methods, mirandas;
        var linked, table;
        linked, table, mirandas := LinkInterface(vtable, interfaces[i], mirandas, m0, Flatten(interfaces[..i]));
        if !linked {
          return;
        }
        MirandaPlaces(m0, m1, vtable, old', Flatten(interfaces[..i]));
        MirandaPlaces(m0, methods, vtable, mirandas, Flatten(interfaces[..i + 1]));
        RowsStay(m0, m1, methods, vtable, old', mirandas, interfaces[..i], tables);
        RowsMore(m0, methods, vtable, mirandas, interfaces[..i], tables, interfaces[i], table);
        tables := tables + [table];
      }
      assert interfaces[..|interfaces|] == interfaces;
      ghost var m2 := methods;
      MirandaPlaces(m0, m2, vtable, mirandas, Flatten(interfaces));
      vtable' := AppendMirandas(vtable, mirandas, m0);
      MarkedMirandas(m0, m2, methods, vtable, mirandas, Flatten(interfaces));
      MarkedSignatures(m2, methods, |m0|, |vtable|, |mirandas|);
      RowsStay(m0, m2, methods, vtable, mirandas, mirandas, interfaces, tables);
      ok := true;
    }

    method AppendMirandas(vtable: seq<nat>, mirandas: seq<nat>, ghost m0: seq<Method>) returns (vtable': seq<nat>)
      requires |methods| == |m0| + |mirandas| && forall i :: 0 <= i < |mirandas| ==> mirandas[i] == |m0| + i
      modifies this
      ensures vtable' == vtable + mirandas && Marked(old(methods), methods, |m0|, |vtable|, |mirandas|)
    {
      vtable' := vtable;
      for i := 0 to |mirandas|
        invariant vtable' == vtable + mirandas[..i] && Marked(old(methods), methods, |m0|, |vtable|, i)
      {
        var m := mirandas[i];
        methods := methods[m := methods[m].(isMiranda := true, index := (|vtable| + i) % 0x1_0000)];
        vtable' := vtable' + [m];
      }
      assert mirandas[..|mirandas|] == mirandas;
    }
  }

  // ---- interface methods ----

  ghost predicate LastMatch(methods: seq<Method>, vtable: seq<nat>, k: nat, s: nat) {
    && k < |vtable| && vtable[k] < |methods| && methods[vtable[k]].signature == s
    && forall j :: k < j < |vtable| ==> vtable[j] < |methods| && methods[vtable[j]].signature != s
  }

  ghost predicate NoMatch(methods: seq<Method>, vtable: seq<nat>, s: nat) {
    forall j :: 0 <= j < |vtable| ==> vtable[j] < |methods| && methods[vtable[j]].signature != s
  }

  predicate NotCallable(m: Method) { !m.isAbstract && !m.isPublic }

  /** The vtable's implementation of an interface method is concrete but not public. */
  ghost predicate Inaccessible(methods: seq<Method>, vtable: seq<nat>, m: nat) {
    m < |methods| &&
    exists k ::
      0 <= k < |vtable| && LastMatch(methods, vtable, k, methods[m].signature) && NotCallable(methods[vtable[k]])
  }

  /** The entry for interface method `m`: its implementation, or the miranda of its signature. */
  ghost predicate EntryOk(m0: seq<Method>, methods: seq<Method>, vtable: seq<nat>, mirandas: seq<nat>, m: nat, e: nat) {
    && m < |m0| && e < |methods| && methods[e].signature == m0[m].signature
    && if e in mirandas then NoMatch(m0, vtable, m0[m].signature)
       else exists k :: 0 <= k < |vtable| && vtable[k] == e && LastMatch(m0, vtable, k, m0[m].signature)
  }

  /**
   * The mirandas are new method objects with signatures all different, each a clone of some
   * interface method of `done` that the vtable does not implement; every such signature has one.
   */
  ghost predicate MirandasOk(m0: seq<Method>, methods: seq<Method>, vtable: seq<nat>, mirandas: seq<nat>,
                             done: seq<nat>) {
    && |methods| == |m0| + |mirandas| && (forall h :: 0 <= h < |m0| ==> methods[h] == m0[h])
    && (forall i :: 0 <= i < |mirandas| ==> mirandas[i] == |m0| + i)
    && (forall i, j :: 0 <= i < j < |mirandas| ==> methods[mirandas[i]].signature != methods[mirandas[j]].signature)
    && (forall i :: 0 <= i < |mirandas| ==>
         NoMatch(m0, vtable, methods[mirandas[i]].signature) && Cloned(m0, done, methods[mirandas[i]]))
    && (forall d :: d in done && d < |m0| && NoMatch(m0, vtable, m0[d].signature) ==>
         HasMiranda(methods, mirandas, m0[d].signature))
  }

  /** `x` is one of the interface methods but for its miranda flag and its index. */
  ghost predicate Cloned(m0: seq<Method>, done: seq<nat>, x: Method) {
    exists d :: d in done && d < |m0| && x == m0[d].(isMiranda := x.isMiranda, index := x.index)
  }

  ghost predicate HasMiranda(methods: seq<Method>, mirandas: seq<nat>, s: nat) {
    exists i :: 0 <= i < |mirandas| && mirandas[i] < |methods| && methods[mirandas[i]].signature == s
  }

  ghost predicate RowOk(m0: seq<Method>, methods: seq<Method>, vtable: seq<nat>, mirandas: seq<nat>,
                        interface: seq<nat>, table: seq<nat>) {
    |table| == |interface| && forall j :: 0 <= j < |interface| ==>
      EntryOk(m0, methods, vtable, mirandas, interface[j], table[j])
  }

  ghost predicate RowsOk(m0: seq<Method>, methods: seq<Method>, vtable: seq<nat>, mirandas: seq<nat>,
                         interfaces: seq<seq<nat>>, tables: seq<seq<nat>>) {
    |tables| == |interfaces| && forall i :: 0 <= i < |interfaces| ==>
      RowOk(m0, methods, vtable, mirandas, interfaces[i], tables[i])
  }

  /** The `n` method objects from `first` on were flagged as mirandas and numbered from `slot`. */
  ghost predicate Marked(m1: seq<Method>, methods: seq<Method>, first: nat, slot: nat, n: nat) {
    && |methods| == |m1|
    && forall h {:trigger methods[h]} :: 0 <= h < |m1| ==>
         if first <= h < first + n then methods[h] == m1[h].(isMiranda := true, index := (slot + h - first) % 0x1_0000)
         else methods[h] == m1[h]
  }

  function Flatten(xs: seq<seq<nat>>): seq<nat> {
    if xs == [] then [] else Flatten(xs[..|xs| - 1]) + xs[|xs| - 1]
  }

  lemma PrefixMatches(m0: seq<Method>, methods: seq<Method>, vtable: seq<nat>, s: nat)
    requires m0 <= methods && forall j :: 0 <= j < |vtable| ==> vtable[j] < |m0|
    ensures NoMatch(methods, vtable, s) <==> NoMatch(m0, vtable, s)
    ensures forall k: nat :: LastMatch(methods, vtable, k, s) <==> LastMatch(m0, vtable, k, s)
  {
  }

  lemma RowNone(m0: seq<Method>, methods: seq<Method>, vtable: seq<nat>, mirandas: seq<nat>)
    ensures RowOk(m0, methods, vtable, mirandas, [], [])
  {
  }

  lemma MirandaEntries(m0: seq<Method>, methods: seq<Method>, vtable: seq<nat>, mirandas: seq<nat>, done: seq<nat>)
    requires MirandasOk(m0, methods, vtable, mirandas, done)
    ensures forall i :: 0 <= i < |mirandas| ==> mirandas[i] < |methods|
  {
  }

  /** More implemented methods ask for no more mirandas. */
  lemma MirandasGrow(m0: seq<Method>, methods: seq<Method>, vtable: seq<nat>, mirandas: seq<nat>, done: seq<nat>,
                     done': seq<nat>)
    requires MirandasOk(m0, methods, vtable, mirandas, done) && done <= done'
    requires forall d :: d in done' && d !in done && d < |m0| ==> !NoMatch(m0, vtable, m0[d].signature)
    ensures MirandasOk(m0, methods, vtable, mirandas, done')
  {
    forall i | 0 <= i < |mirandas| ensures Cloned(m0, done', methods[mirandas[i]]) {
      assert Cloned(m0, done, methods[mirandas[i]]);
    }
  }

  lemma MirandasStep(m0: seq<Method>, m1: seq<Method>, methods: seq<Method>, vtable: seq<nat>, mirandas: seq<nat>,
                     mirandas': seq<nat>, done: seq<nat>, m: nat)
    requires MirandasOk(m0, m1, vtable, mirandas, done) && m < |m0| && NoMatch(m0, vtable, m0[m].signature)
    requires (mirandas' == mirandas && methods == m1 && HasMiranda(m1, mirandas, m0[m].signature)) ||
             (&& mirandas' == mirandas + [|m1|] && methods == m1 + [m0[m]]
              && forall i :: 0 <= i < |mirandas| ==> m1[mirandas[i]].signature != m0[m].signature)
    ensures MirandasOk(m0, methods, vtable, mirandas', done + [m])
  {
    var done' := done + [m];
    assert m in done' && Cloned(m0, done', m0[m]);
    forall i | 0 <= i < |mirandas'|
      ensures NoMatch(m0, vtable, methods[mirandas'[i]].signature) && Cloned(m0, done', methods[mirandas'[i]])
    {
      if i < |mirandas| {
        assert Cloned(m0, done, m1[mirandas[i]]);
      }
    }
    forall d | d in done' && d < |m0| && NoMatch(m0, vtable, m0[d].signature)
      ensures HasMiranda(methods, mirandas', m0[d].signature)
    {
      if d in done {
        assert HasMiranda(m1, mirandas, m0[d].signature);
        var i :| 0 <= i < |mirandas| && mirandas[i] < |m1| && m1[mirandas[i]].signature == m0[d].signature;
        assert mirandas'[i] == mirandas[i];
      } else if |mirandas'| > |mirandas| {
        assert mirandas'[|mirandas|] == |m1|;
      }
    }
  }

  /** Entries filled so far stay right when method objects are added or mirandas are flagged. */
  lemma RowStays(m0: seq<Method>, m1: seq<Method>, methods: seq<Method>, vtable: seq<nat>, mirandas: seq<nat>,
                 mirandas': seq<nat>, interface: seq<nat>, table: seq<nat>)
    requires RowOk(m0, m1, vtable, mirandas, interface, table) && |m1| <= |methods| && mirandas <= mirandas'
    requires forall h :: 0 <= h < |m1| ==> methods[h].signature == m1[h].signature
    requires forall i :: |mirandas| <= i < |mirandas'| ==> mirandas'[i] >= |m1|
    ensures RowOk(m0, methods, vtable, mirandas', interface, table)
  {
    forall j | 0 <= j < |interface| ensures EntryOk(m0, methods, vtable, mirandas', interface[j], table[j]) {
      assert EntryOk(m0, m1, vtable, mirandas, interface[j], table[j]);
    }
  }

  lemma RowsStay(m0: seq<Method>, m1: seq<Method>, methods: seq<Method>, vtable: seq<nat>, mirandas: seq<nat>,
                 mirandas': seq<nat>, interfaces: seq<seq<nat>>, tables: seq<seq<nat>>)
    requires RowsOk(m0, m1, vtable, mirandas, interfaces, tables) && |m1| <= |methods| && mirandas <= mirandas'
    requires forall h :: 0 <= h < |m1| ==> methods[h].signature == m1[h].signature
    requires forall i :: |mirandas| <= i < |mirandas'| ==> mirandas'[i] >= |m1|
    ensures RowsOk(m0, methods, vtable, mirandas', interfaces, tables)
  {
    hide RowOk;
    forall i | 0 <= i < |interfaces| ensures RowOk(m0, methods, vtable, mirandas', interfaces[i], tables[i]) {
      RowStays(m0, m1, methods, vtable, mirandas, mirandas', interfaces[i], tables[i]);
    }
  }

  lemma RowsMore(m0: seq<Method>, methods: seq<Method>, vtable: seq<nat>, mirandas: seq<nat>,
                 interfaces: seq<seq<nat>>, tables: seq<seq<nat>>, interface: seq<nat>, table: seq<nat>)
    requires RowsOk(m0, methods, vtable, mirandas, interfaces, tables)
    requires RowOk(m0, methods, vtable, mirandas, interface, table)
    ensures RowsOk(m0, methods, vtable, mirandas, interfaces + [interface], tables + [table])
  {
  }

  lemma FlattenNext(xs: seq<seq<nat>>, i: nat)
    requires i < |xs|
    ensures xs[..i + 1] == xs[..i] + [xs[i]] && Flatten(xs[..i + 1]) == Flatten(xs[..i]) + xs[i]
  {
    assert xs[..i + 1][..i] == xs[..i];
  }

  lemma NoneLinked(m0: seq<Method>, vtable: seq<nat>)
    ensures MirandasOk(m0, m0, vtable, [], Flatten([])) && RowsOk(m0, m0, vtable, [], [], [])
  {
  }

  lemma MirandaPlaces(m0: seq<Method>, methods: seq<Method>, vtable: seq<nat>, mirandas: seq<nat>, done: seq<nat>)
    requires MirandasOk(m0, methods, vtable, mirandas, done)
    ensures |methods| == |m0| + |mirandas| && forall i :: 0 <= i < |mirandas| ==> mirandas[i] == |m0| + i
  {
  }

  lemma MarkedSignatures(m1: seq<Method>, methods: seq<Method>, first: nat, slot: nat, n: nat)
    requires Marked(m1, methods, first, slot, n)
    ensures |methods| == |m1| && forall h :: 0 <= h < |m1| ==> methods[h].signature == m1[h].signature
  {
  }

  lemma Implemented(m0: seq<Method>, methods: seq<Method>, vtable: seq<nat>, mirandas: seq<nat>, done: seq<nat>,
                    interface: seq<nat>, table: seq<nat>, m: nat, k: nat)
    requires MirandasOk(m0, methods, vtable, mirandas, done) && RowOk(m0, methods, vtable, mirandas, interface, table)
    requires m < |m0| && LastMatch(m0, vtable, k, m0[m].signature) && !NotCallable(m0[vtable[k]])
    ensures MirandasOk(m0, methods, vtable, mirandas, done + [m])
    ensures RowOk(m0, methods, vtable, mirandas, interface + [m], table + [vtable[k]])
    ensures !Inaccessible(m0, vtable, m)
  {
    MirandasGrow(m0, methods, vtable, mirandas, done, done + [m]);
    assert EntryOk(m0, methods, vtable, mirandas, m, vtable[k]);
  }

  lemma Unimplemented(m0: seq<Method>, m1: seq<Method>, methods: seq<Method>, vtable: seq<nat>, mirandas: seq<nat>,
                      mirandas': seq<nat>,
                      done: seq<nat>, interface: seq<nat>, table: seq<nat>, m: nat, miranda: nat)
    requires MirandasOk(m0, m1, vtable, mirandas, done) && RowOk(m0, m1, vtable, mirandas, interface, table)
    requires m < |m0| && NoMatch(m0, vtable, m0[m].signature) && miranda in mirandas' && miranda < |methods|
    requires methods[miranda].signature == m0[m].signature
    requires (mirandas' == mirandas && methods == m1) ||
             (&& mirandas' == mirandas + [|m1|] && methods == m1 + [m0[m]] && miranda == |m1|
              && forall i :: 0 <= i < |mirandas| ==> m1[mirandas[i]].signature != m0[m].signature)
    ensures MirandasOk(m0, methods, vtable, mirandas', done + [m])
    ensures RowOk(m0, methods, vtable, mirandas', interface + [m], table + [miranda])
    ensures !Inaccessible(m0, vtable, m)
  {
    var i :| 0 <= i < |mirandas'| && mirandas'[i] == miranda;
    MirandasStep(m0, m1, methods, vtable, mirandas, mirandas', done, m);
    RowStays(m0, m1, methods, vtable, mirandas, mirandas', interface, table);
  }

  lemma StillCloned(m0: seq<Method>, done: seq<nat>, x: Method, y: Method)
    requires Cloned(m0, done, x) && y == x.(isMiranda := y.isMiranda, index := y.index)
    ensures Cloned(m0, done, y)
  {
  }

  lemma MarkedMirandas(m0: seq<Method>, m1: seq<Method>, methods: seq<Method>, vtable: seq<nat>, mirandas: seq<nat>,
                       done: seq<nat>)
    requires MirandasOk(m0, m1, vtable, mirandas, done) && Marked(m1, methods, |m0|, |vtable|, |mirandas|)
    ensures MirandasOk(m0, methods, vtable, mirandas, done)
    ensures forall i :: 0 <= i < |mirandas| ==>
      methods[mirandas[i]].index == (|vtable| + i) % 0x1_0000 && methods[mirandas[i]].isMiranda
  {
    hide NoMatch, Cloned;
    forall i | 0 <= i < |mirandas|
      ensures methods[mirandas[i]].signature == m1[mirandas[i]].signature && Cloned(m0, done, methods[mirandas[i]])
    {
      assert Cloned(m0, done, m1[mirandas[i]]);
      StillCloned(m0, done, m1[mirandas[i]], methods[mirandas[i]]);
    }
    forall d | d in done && d < |m0| && NoMatch(m0, vtable, m0[d].signature)
      ensures HasMiranda(methods, mirandas, m0[d].signature)
    {
      assert HasMiranda(m1, mirandas, m0[d].signature);
      var i :| 0 <= i < |mirandas| && mirandas[i] < |m1| && m1[mirandas[i]].signature == m0[d].signature;
      assert methods[mirandas[i]].signature == m0[d].signature;
    }
  }

  /** The signatures of interface methods that the vtable does not implement. */
  ghost function Missing(methods: seq<Method>, vtable: seq<nat>, asked: seq<nat>): set<nat> {
    set d | d in asked && d < |methods| && NoMatch(methods, vtable, methods[d].signature) :: methods[d].signature
  }

  ghost function Signatures(methods: seq<Method>, mirandas: seq<nat>): set<nat>
    requires Entries(methods, mirandas)
  {
    set i | 0 <= i < |mirandas| :: methods[mirandas[i]].signature
  }

  lemma {:induction false} DistinctSignatures(methods: seq<Method>, mirandas: seq<nat>)
    requires Entries(methods, mirandas)
    requires forall i, j :: 0 <= i < j < |mirandas| ==> methods[mirandas[i]].signature != methods[mirandas[j]].signature
    ensures |Signatures(methods, mirandas)| == |mirandas|
  {
    if mirandas != [] {
      var n := |mirandas| - 1;
      DistinctSignatures(methods, mirandas[..n]);
      assert Signatures(methods, mirandas) == Signatures(methods, mirandas[..n]) + {methods[mirandas[n]].signature};
      assert methods[mirandas[n]].signature !in Signatures(methods, mirandas[..n]);
    }
  }

  /** There are as many mirandas as missing signatures. */
  lemma OneForEachMissing(m0: seq<Method>, methods: seq<Method>, vtable: seq<nat>, mirandas: seq<nat>, asked: seq<nat>)
    requires MirandasOk(m0, methods, vtable, mirandas, asked)
    ensures |mirandas| == |Missing(m0, vtable, asked)|
  {
    hide NoMatch;
    DistinctSignatures(methods, mirandas);
    forall s ensures s in Signatures(methods, mirandas) <==> s in Missing(m0, vtable, asked) {
      if s in Signatures(methods, mirandas) {
        var i :| 0 <= i < |mirandas| && methods[mirandas[i]].signature == s;
        assert Cloned(m0, asked, methods[mirandas[i]]);
      }
      if s in Missing(m0, vtable, asked) {
        assert HasMiranda(methods, mirandas, s);
      }
    }
    assert Signatures(methods, mirandas) == Missing(m0, vtable, asked);
  }

  /**
   * After interface linking every entry of the vtable knows its position if and only if the vtable
   * and the missing signatures are at most 0x10000 together: the positions of mirandas are cut to
   * 16 bits and the length is not checked again.
   */
  lemma IndexedUnlessTooMany(m0: seq<Method>, methods: seq<Method>, vtable: seq<nat>, mirandas: seq<nat>,
                             asked: seq<nat>)
    requires Indexed(m0, vtable) && Fits16(|vtable|) && MirandasOk(m0, methods, vtable, mirandas, asked)
    requires forall i :: 0 <= i < |mirandas| ==> methods[mirandas[i]].index == (|vtable| + i) % 0x1_0000
    ensures Indexed(methods, vtable + mirandas) <==> |vtable| + |Missing(m0, vtable, asked)| <= 0x1_0000
    ensures |vtable + mirandas| == |vtable| + |Missing(m0, vtable, asked)|
  {
    OneForEachMissing(m0, methods, vtable, mirandas, asked);
    var all := vtable + mirandas;
    if |all| <= 0x1_0000 {
      forall j | 0 <= j < |all| ensures all[j] < |methods| && methods[all[j]].index == j {
        if j >= |vtable| { assert all[j] == mirandas[j - |vtable|]; }
      }
    } else {
      var j := 0x1_0000;
      assert all[j] == mirandas[j - |vtable|] && methods[all[j]].index == 0;
    }
  }

  /** A failing input: 0xFFFF inherited methods and an interface with two new ones. The second miranda gets index 0. */
  method LinkTooMany() returns (linker: Linker, vtable: seq<nat>)
    ensures |vtable| == 0x1_0001 && vtable[0x1_0000] < |linker.methods| && linker.methods[vtable[0x1_0000]].index == 0
    ensures !Indexed(linker.methods, vtable)
  {
    hide NoMatch, LastMatch, Inaccessible, RowOk, Missing, Cloned, HasMiranda, Flatten;
    var methods := seq(0x1_0001, i requires 0 <= i => Method(i, 0, false, true, true, false, i));
    var inherited := seq(0xFFFF, i requires 0 <= i => i);
    var interface := [0xFFFF, 0x1_0000];
    linker := new Linker(methods);
    var ok, tables, mirandas;
    TwoMissing(methods, inherited, interface);
    ok, vtable, tables, mirandas := linker.LinkInterfaceMethods(inherited, [interface]);
    OneForEachMissing(methods, linker.methods, inherited, mirandas, interface);
  }

  lemma TwoMissing(methods: seq<Method>, vtable: seq<nat>, interface: seq<nat>)
    requires |methods| == 0x1_0001 && forall i :: 0 <= i < |methods| ==> methods[i].signature == i
    requires |vtable| == 0xFFFF && (forall i :: 0 <= i < |vtable| ==> vtable[i] == i) && interface == [0xFFFF, 0x1_0000]
    ensures Missing(methods, vtable, interface) == {0xFFFF, 0x1_0000} && Flatten([interface]) == interface
    ensures forall j :: 0 <= j < |interface| ==> !Inaccessible(methods, vtable, interface[j])
  {
    assert NoMatch(methods, vtable, 0xFFFF) && NoMatch(methods, vtable, 0x1_0000);
    assert 0xFFFF in interface && 0x1_0000 in interface;
    assert [interface][..0] == [];
  }

  /** Every interface entry sits in the final vtable at its own index. */
  lemma EntrySitsAtIndex(m0: seq<Method>, methods: seq<Method>, vtable: seq<nat>, mirandas: seq<nat>, m: nat, e: nat)
    requires Indexed(methods, vtable + mirandas) && EntryOk(m0, methods, vtable, mirandas, m, e)
    ensures methods[e].signature == m0[m].signature
    ensures methods[e].index < |vtable + mirandas| && (vtable + mirandas)[methods[e].index] == e
  {
    var all := vtable + mirandas;
    if e in mirandas {
      var i :| 0 <= i < |mirandas| && mirandas[i] == e;
      assert all[|vtable| + i] == e;
    } else {
      var k :| 0 <= k < |vtable| && vtable[k] == e;
      assert all[k] == e;
    }
  }

  /** What a class declares, and the methods of each interface in its interface table. */
  datatype Declaration = Declaration(locals: seq<nat>, access: Access, interfaces: seq<seq<nat>>)

  function Inherited(tables: seq<seq<nat>>, k: nat): seq<nat>
    requires k <= |tables|
  {
    if k > 0 then tables[k - 1] else []
  }

  /**
   * How one class was linked: the method objects and the inherited table at first, the table and
   * the objects after its virtual methods, and the mirandas, the interface tables and the objects
   * after its interface methods.
   */
  datatype Link = Link(before: seq<Method>, inherited: seq<nat>, linked: seq<nat>, middle: seq<Method>,
                       mirandas: seq<nat>, rows: seq<seq<nat>>, after: seq<Method>)

  /** The table before mirandas is the one that the class must have, if it has one at all. */
  ghost predicate VirtualDone(d: Declaration, link: Link) {
    && OnlyIndexes(link.before, link.middle, d.locals)
    && (!OverridesFinal(link.before, d.access, link.inherited, d.locals) ==>
          Entries(link.middle, link.linked) && Linked(link.before, d.access, link.inherited, d.locals, link.linked))
  }

  /** No final method is overridden, the table fits, and no interface method has a hidden implementation. */
  ghost predicate Passes(d: Declaration, link: Link) {
    && !OverridesFinal(link.before, d.access, link.inherited, d.locals) && Fits16(|link.linked|)
    && forall i, j :: 0 <= i < |d.interfaces| && 0 <= j < |d.interfaces[i]| ==>
         !Inaccessible(link.middle, link.linked, d.interfaces[i][j])
  }

  ghost predicate InterfacesDone(d: Declaration, link: Link) {
    && MirandasOk(link.middle, link.after, link.linked, link.mirandas, Flatten(d.interfaces))
    && RowsOk(link.middle, link.after, link.linked, link.mirandas, d.interfaces, link.rows)
    && forall i :: 0 <= i < |link.mirandas| ==>
         link.mirandas[i] < |link.after| && link.after[link.mirandas[i]].isMiranda
  }

  /** The method objects before class `k`. */
  ghost function Before(m0: seq<Method>, links: seq<Link>, k: nat): seq<Method>
    requires k <= |links|
  {
    if k > 0 then links[k - 1].after else m0
  }

  /** Class `k` was linked below the one before it, with the objects that one left. */
  ghost predicate ClassLinked(m0: seq<Method>, chain: seq<Declaration>, tables: seq<seq<nat>>, links: seq<Link>, k: nat)
    requires k < |tables| <= |chain| && k < |links|
  {
    && links[k].before == Before(m0, links, k) && links[k].inherited == Inherited(tables, k)
    && VirtualDone(chain[k], links[k]) && Passes(chain[k], links[k]) && InterfacesDone(chain[k], links[k])
    && tables[k] == links[k].linked + links[k].mirandas
  }

  ghost predicate AllLinked(m0: seq<Method>, chain: seq<Declaration>, tables: seq<seq<nat>>, links: seq<Link>) {
    |tables| <= |chain| && |tables| <= |links| && forall k :: 0 <= k < |tables| ==>
      ClassLinked(m0, chain, tables, links, k)
  }

  /** The next class is linked too, or it is the one that fails. */
  lemma LinksMore(m0: seq<Method>, chain: seq<Declaration>, tables: seq<seq<nat>>, links: seq<Link>, vtable: seq<nat>,
                  link: Link, ok: bool)
    requires AllLinked(m0, chain, tables, links) && |tables| == |links| < |chain|
    requires link.before == Before(m0, links, |links|) && link.inherited == Inherited(tables, |tables|)
    requires VirtualDone(chain[|tables|], link)
    requires ok <==> Passes(chain[|tables|], link)
    requires ok ==> InterfacesDone(chain[|tables|], link) && vtable == link.linked + link.mirandas
    ensures AllLinked(m0, chain, tables, links + [link])
    ensures if ok then AllLinked(m0, chain, tables + [vtable], links + [link])
      else ClassFailed(m0, chain, tables, links + [link])
  {
    hide VirtualDone, Passes, InterfacesDone;
    var tables', links' := tables + [vtable], links + [link];
    forall k | 0 <= k < |tables|
      ensures ClassLinked(m0, chain, tables, links', k) && ClassLinked(m0, chain, tables', links', k)
    {
      assert ClassLinked(m0, chain, tables, links, k);
    }
  }

  /** The class after the last one linked does not pass. */
  ghost predicate ClassFailed(m0: seq<Method>, chain: seq<Declaration>, tables: seq<seq<nat>>, links: seq<Link>) {
    var k := |tables|;
    && k < |chain| && |links| == k + 1 && links[k].before == Before(m0, links, k)
    && links[k].inherited == Inherited(tables, k)
    && VirtualDone(chain[k], links[k]) && !Passes(chain[k], links[k])
  }

  /** A class has only one table: what is declared and inherited decides it. */
  lemma LinkedUnique(methods: seq<Method>, access: Access, vtable: seq<nat>, locals: seq<nat>, one: seq<nat>,
                     other: seq<nat>)
    requires Linked(methods, access, vtable, locals, one) && Linked(methods, access, vtable, locals, other)
    ensures one == other
  {
    forall j | 0 <= j < |vtable| ensures one[j] == other[j] {
      if one[j] != vtable[j] {
        SlotUnique(methods, access, vtable, locals, one, other, j);
      } else if other[j] != vtable[j] {
        SlotUnique(methods, access, vtable, locals, other, one, j);
      }
    }
    assert one == one[..|vtable|] + one[|vtable|..] && other == other[..|vtable|] + other[|vtable|..];
  }

  lemma SlotUnique(methods: seq<Method>, access: Access, vtable: seq<nat>, locals: seq<nat>, one: seq<nat>,
                   other: seq<nat>, j: nat)
    requires Linked(methods, access, vtable, locals, one) && Linked(methods, access, vtable, locals, other)
    requires j < |vtable| && one[j] != vtable[j]
    ensures other[j] == one[j]
  {
    var m := one[j];
    assert OverriddenBy(methods, access, vtable, locals, j, m);
    var i :| 0 <= i < |locals| && locals[i] == m;
    assert HasSlot(methods, access, vtable, locals[i], other);
  }

  ghost predicate DeclaredBy(chain: seq<Declaration>, n: nat, m: nat) {
    exists k :: 0 <= k < n && k < |chain| && m in chain[k].locals
  }

  /** Each class declares its own methods, with signatures all different; interface methods are given. */
  ghost predicate WellDeclared(methods: seq<Method>, chain: seq<Declaration>) {
    && (forall k :: 0 <= k < |chain| ==> Declared(methods, [], chain[k].locals))
    && (forall a, b, m :: 0 <= a < b < |chain| && m in chain[a].locals ==> m !in chain[b].locals)
    && (forall k, i, j :: 0 <= k < |chain| && 0 <= i < |chain[k].interfaces| && 0 <= j < |chain[k].interfaces[i]| ==>
      chain[k].interfaces[i][j] < |methods|)
  }

  ghost predicate SameSlots(methods: seq<Method>, upper: seq<nat>, lower: seq<nat>) {
    |upper| <= |lower| && forall j :: 0 <= j < |upper| ==>
      upper[j] < |methods| && lower[j] < |methods| && methods[lower[j]].signature == methods[upper[j]].signature
  }

  /** Of the methods given at first, only those declared by the first `n` classes were given indexes. */
  ghost predicate Renumbered(m0: seq<Method>, methods: seq<Method>, chain: seq<Declaration>, n: nat) {
    && |m0| <= |methods|
    && forall m :: 0 <= m < |m0| ==>
         methods[m] == m0[m].(index := methods[m].index) && (!DeclaredBy(chain, n, m) ==> methods[m] == m0[m])
  }

  /** Entries come from the first `n` classes: they declare them, or they are their mirandas. */
  ghost predicate Owned(m0: seq<Method>, methods: seq<Method>, chain: seq<Declaration>, n: nat, vtable: seq<nat>) {
    forall m :: m in vtable ==> m < |methods| && (DeclaredBy(chain, n, m) || m >= |m0|)
  }

  ghost predicate TableOk(m0: seq<Method>, methods: seq<Method>, chain: seq<Declaration>, n: nat, vtable: seq<nat>) {
    Owned(m0, methods, chain, n, vtable) && (Indexed(methods, vtable) <==> |vtable| <= 0x1_0000)
  }

  /** What linking the first `n` classes keeps of the tables linked so far. */
  ghost predicate Above(m0: seq<Method>, methods: seq<Method>, chain: seq<Declaration>, tables: seq<seq<nat>>, n: nat) {
    && Renumbered(m0, methods, chain, n)
    && (forall k :: 0 <= k < |tables| ==> TableOk(m0, methods, chain, n, tables[k]))
    && (forall k :: 0 <= k < |tables| - 1 ==> Fits16(|tables[k]|))
    && (forall a, b :: 0 <= a < b < |tables| ==> SameSlots(methods, tables[a], tables[b]))
  }

  lemma NoClasses(m0: seq<Method>, chain: seq<Declaration>)
    ensures Above(m0, m0, chain, [], 0) && AllLinked(m0, chain, [], [])
  {
  }

  lemma AboveGives(m0: seq<Method>, methods: seq<Method>, chain: seq<Declaration>, tables: seq<seq<nat>>, n: nat)
    requires Above(m0, methods, chain, tables, n)
    ensures forall k :: 0 <= k < |tables| ==> (Indexed(methods, tables[k]) <==> |tables[k]| <= 0x1_0000)
    ensures forall k :: 0 <= k < |tables| - 1 ==> Fits16(|tables[k]|)
    ensures forall a, b :: 0 <= a < b < |tables| ==> SameSlots(methods, tables[a], tables[b])
  {
    hide Indexed, SameSlots, Owned, Renumbered;
  }

  /** What a table says depends only on the method objects in it. */
  lemma TableSame(m1: seq<Method>, methods: seq<Method>, vtable: seq<nat>)
    requires forall m :: m in vtable ==> m < |m1| && m < |methods| && methods[m] == m1[m]
    ensures Indexed(methods, vtable) <==> Indexed(m1, vtable)
  {
    forall j | 0 <= j < |vtable| ensures vtable[j] in vtable {
    }
  }

  lemma SlotsSame(m1: seq<Method>, methods: seq<Method>, upper: seq<nat>, lower: seq<nat>)
    requires SameSlots(m1, upper, lower)
    requires forall m :: m in upper || m in lower ==>
      m < |m1| && m < |methods| && methods[m].signature == m1[m].signature
    ensures SameSlots(methods, upper, lower)
  {
    forall j | 0 <= j < |upper| ensures methods[lower[j]].signature == methods[upper[j]].signature {
      assert upper[j] in upper && lower[j] in lower;
    }
  }

  lemma SlotsTransitive(methods: seq<Method>, a: seq<nat>, b: seq<nat>, c: seq<nat>)
    requires SameSlots(methods, a, b) && SameSlots(methods, b, c)
    ensures SameSlots(methods, a, c)
  {
  }

  /** The inherited table and the declared methods are as linking expects them. */
  lemma Inherits(m0: seq<Method>, methods: seq<Method>, chain: seq<Declaration>, tables: seq<seq<nat>>)
    requires WellDeclared(m0, chain) && |tables| < |chain| && Above(m0, methods, chain, tables, |tables|)
    ensures var inherited := Inherited(tables, |tables|);
      Entries(methods, inherited) && Declared(methods, inherited, chain[|tables|].locals)
  {
    hide WellDeclared, Renumbered, TableOk, SameSlots;
    var n := |tables|;
    var inherited, locals := Inherited(tables, n), chain[n].locals;
    assert n > 0 ==> TableOk(m0, methods, chain, n, tables[n - 1]);
    LocalsDeclared(m0, methods, chain, n);
    forall j | 0 <= j < |inherited| ensures inherited[j] < |methods| && inherited[j] !in locals {
      NotLocal(m0, methods, chain, n, inherited, inherited[j]);
    }
  }

  lemma LocalsDeclared(m0: seq<Method>, methods: seq<Method>, chain: seq<Declaration>, n: nat)
    requires WellDeclared(m0, chain) && n < |chain| && Renumbered(m0, methods, chain, n)
    ensures Declared(methods, [], chain[n].locals)
  {
    assert Declared(m0, [], chain[n].locals);
  }

  lemma InterfacesKnown(m0: seq<Method>, methods: seq<Method>, chain: seq<Declaration>, n: nat)
    requires WellDeclared(m0, chain) && n < |chain| && |m0| <= |methods|
    ensures forall i, j :: 0 <= i < |chain[n].interfaces| && 0 <= j < |chain[n].interfaces[i]| ==>
      chain[n].interfaces[i][j] < |methods|
  {
  }

  /** Linking the virtual methods of the next class renumbers none of the methods in the tables above it. */
  lemma AboveIndexes(m0: seq<Method>, m1: seq<Method>, methods: seq<Method>, chain: seq<Declaration>,
                     tables: seq<seq<nat>>)
    requires WellDeclared(m0, chain) && |tables| < |chain| && Above(m0, m1, chain, tables, |tables|)
    requires OnlyIndexes(m1, methods, chain[|tables|].locals)
    ensures Above(m0, methods, chain, tables, |tables| + 1) && |m0| <= |methods|
  {
    var n := |tables|;
    forall k, m | 0 <= k < n && m in tables[k]
      ensures m < |m1| && methods[m] == m1[m] && (DeclaredBy(chain, n + 1, m) || m >= |m0|)
    {
      NotLocal(m0, m1, chain, n, tables[k], m);
    }
    forall k | 0 <= k < n ensures TableOk(m0, methods, chain, n + 1, tables[k]) {
      assert TableOk(m0, m1, chain, n, tables[k]);
      TableSame(m1, methods, tables[k]);
    }
    forall a, b | 0 <= a < b < n ensures SameSlots(methods, tables[a], tables[b]) {
      SlotsSame(m1, methods, tables[a], tables[b]);
    }
    RenumberedNext(m0, m1, methods, chain, n);
  }

  lemma NotLocal(m0: seq<Method>, m1: seq<Method>, chain: seq<Declaration>, n: nat, vtable: seq<nat>, m: nat)
    requires WellDeclared(m0, chain) && n < |chain| && TableOk(m0, m1, chain, n, vtable) && m in vtable
    ensures m < |m1| && m !in chain[n].locals && (DeclaredBy(chain, n + 1, m) || m >= |m0|)
  {
    assert Declared(m0, [], chain[n].locals);
  }

  lemma RenumberedNext(m0: seq<Method>, m1: seq<Method>, methods: seq<Method>, chain: seq<Declaration>, n: nat)
    requires Renumbered(m0, m1, chain, n) && n < |chain| && OnlyIndexes(m1, methods, chain[n].locals)
    ensures Renumbered(m0, methods, chain, n + 1)
  {
  }

  /** New method objects change nothing for the tables linked so far. */
  lemma AboveGrows(m0: seq<Method>, m1: seq<Method>, methods: seq<Method>, chain: seq<Declaration>,
                   tables: seq<seq<nat>>, n: nat)
    requires Above(m0, m1, chain, tables, n) && |m1| <= |methods| && forall h :: 0 <= h < |m1| ==> methods[h] == m1[h]
    ensures Above(m0, methods, chain, tables, n)
  {
    forall k | 0 <= k < |tables| ensures TableOk(m0, methods, chain, n, tables[k]) {
      assert TableOk(m0, m1, chain, n, tables[k]);
      TableSame(m1, methods, tables[k]);
    }
    forall a, b | 0 <= a < b < |tables| ensures SameSlots(methods, tables[a], tables[b]) {
      assert TableOk(m0, m1, chain, n, tables[a]) && TableOk(m0, m1, chain, n, tables[b]);
      SlotsSame(m1, methods, tables[a], tables[b]);
    }
  }

  /** With nothing to override, every declared method is a new one. */
  lemma {:induction false} FreshAll(methods: seq<Method>, access: Access, vtable: seq<nat>, locals: seq<nat>)
    requires forall i :: 0 <= i < |locals| ==> locals[i] < |methods|
    requires vtable == [] || forall m :: !access(m)
    ensures Fresh(methods, access, vtable, locals) == locals
  {
    if locals != [] {
      FreshAll(methods, access, vtable, locals[..|locals| - 1]);
    }
  }

  /** The table of the root is linked below no table. */
  lemma RootLinked(methods: seq<Method>, d: Declaration)
    requires Declared(methods, [], d.locals)
    ensures Linked(methods, d.access, [], d.locals, d.locals)
  {
    FreshAll(methods, d.access, [], d.locals);
    forall i | 0 <= i < |d.locals| ensures HasSlot(methods, d.access, [], d.locals[i], d.locals) {
      assert NoOverride(methods, d.access, [], methods[d.locals[i]].signature);
    }
  }

  /** What the table of the next class is before its interface methods. */
  ghost predicate LinkedBelow(m0: seq<Method>, methods: seq<Method>, chain: seq<Declaration>, tables: seq<seq<nat>>,
                              vtable: seq<nat>) {
    && Owned(m0, methods, chain, |tables| + 1, vtable) && Fits16(|vtable|) && Indexed(methods, vtable)
    && (|tables| > 0 ==> SameSlots(methods, tables[|tables| - 1], vtable) && Fits16(|tables[|tables| - 1]|))
  }

  lemma TableLinked(m0: seq<Method>, m1: seq<Method>, methods: seq<Method>, chain: seq<Declaration>,
                    tables: seq<seq<nat>>, vtable: seq<nat>)
    requires WellDeclared(m0, chain) && |tables| < |chain| && Above(m0, m1, chain, tables, |tables|)
    requires OnlyIndexes(m1, methods, chain[|tables|].locals) && Fits16(|vtable|) && Entries(methods, vtable)
    requires var inherited := Inherited(tables, |tables|);
      && Linked(m1, chain[|tables|].access, inherited, chain[|tables|].locals, vtable)
      && (Indexed(m1, inherited) ==> Indexed(methods, vtable))
    ensures LinkedBelow(m0, methods, chain, tables, vtable)
  {
    hide WellDeclared, Renumbered, Linked, OnlyIndexes, SameSlots, Owned;
    var n, d := |tables|, chain[|tables|];
    var inherited := Inherited(tables, n);
    assert n > 0 ==> TableOk(m0, m1, chain, n, tables[n - 1]);
    LinkedLonger(m1, d.access, inherited, d.locals, vtable);
    OwnedNone(m0, m1, chain, n);
    OwnedLinked(m0, m1, methods, chain, n, inherited, vtable);
    if n > 0 {
      LinkedSlots(m1, methods, d, inherited, vtable);
    }
  }

  lemma LinkedLonger(methods: seq<Method>, access: Access, vtable: seq<nat>, locals: seq<nat>, vtable': seq<nat>)
    requires Linked(methods, access, vtable, locals, vtable')
    ensures |vtable| <= |vtable'|
  {
  }

  lemma OwnedNone(m0: seq<Method>, methods: seq<Method>, chain: seq<Declaration>, n: nat)
    ensures Owned(m0, methods, chain, n, [])
  {
  }

  lemma OwnedLinked(m0: seq<Method>, m1: seq<Method>, methods: seq<Method>, chain: seq<Declaration>, n: nat,
                    inherited: seq<nat>, vtable: seq<nat>)
    requires n < |chain| && Owned(m0, m1, chain, n, inherited) && Entries(methods, vtable)
    requires Linked(m1, chain[n].access, inherited, chain[n].locals, vtable)
    ensures Owned(m0, methods, chain, n + 1, vtable)
  {
    hide FirstOverride, NoOverride, HasSlot;
    forall j | 0 <= j < |vtable| ensures DeclaredBy(chain, n + 1, vtable[j]) || vtable[j] >= |m0| {
      if j < |inherited| && vtable[j] == inherited[j] {
        assert inherited[j] in inherited;
      } else {
        assert vtable[j] in chain[n].locals;
      }
    }
  }

  /** A linked table keeps its superclass's signatures slot by slot. */
  lemma LinkedSlots(m1: seq<Method>, methods: seq<Method>, d: Declaration, vtable: seq<nat>, vtable': seq<nat>)
    requires Entries(m1, vtable) && OnlyIndexes(m1, methods, d.locals)
    requires Linked(m1, d.access, vtable, d.locals, vtable')
    ensures SameSlots(methods, vtable, vtable')
  {
  }

  lemma MirandasLast(m0: seq<Method>, methods: seq<Method>, vtable: seq<nat>, mirandas: seq<nat>, asked: seq<nat>)
    requires MirandasOk(m0, methods, vtable, mirandas, asked)
    ensures |m0| <= |methods| && forall h :: 0 <= h < |m0| ==> methods[h] == m0[h]
  {
  }

  /** With its mirandas, the table of the next class joins the others. */
  lemma TableCompleted(m0: seq<Method>, m1: seq<Method>, methods: seq<Method>, chain: seq<Declaration>,
                       tables: seq<seq<nat>>,
                       vtable: seq<nat>, mirandas: seq<nat>, asked: seq<nat>)
    requires LinkedBelow(m0, m1, chain, tables, vtable) && Above(m0, methods, chain, tables, |tables| + 1)
    requires |m0| <= |m1|
    requires MirandasOk(m1, methods, vtable, mirandas, asked)
    requires forall i :: 0 <= i < |mirandas| ==> methods[mirandas[i]].index == (|vtable| + i) % 0x1_0000
    ensures Above(m0, methods, chain, tables + [vtable + mirandas], |tables| + 1)
  {
    var n, all := |tables|, vtable + mirandas;
    IndexedUnlessTooMany(m1, methods, vtable, mirandas, asked);
    forall m | m in all ensures m < |methods| && (DeclaredBy(chain, n + 1, m) || m >= |m0|) {
      if m in mirandas {
        var i :| 0 <= i < |mirandas| && mirandas[i] == m;
      } else {
        assert m in vtable;
      }
    }
    assert TableOk(m0, methods, chain, n + 1, all);
    if n > 0 {
      assert TableOk(m0, methods, chain, n + 1, tables[n - 1]);
      CompletedSlots(m1, methods, tables[n - 1], vtable, all);
    }
    var tables' := tables + [all];
    forall a, b | 0 <= a < b < |tables'| ensures SameSlots(methods, tables'[a], tables'[b]) {
      if b == n && a < n - 1 {
        SlotsTransitive(methods, tables[a], tables[n - 1], all);
      }
    }
  }

  lemma CompletedSlots(m1: seq<Method>, methods: seq<Method>, upper: seq<nat>, vtable: seq<nat>, all: seq<nat>)
    requires SameSlots(m1, upper, vtable) && vtable <= all && Entries(methods, all)
    requires |m1| <= |methods| && forall h :: 0 <= h < |m1| ==> methods[h] == m1[h]
    ensures SameSlots(methods, upper, all)
  {
  }

  /**
   * Slots that earlier declared methods took have other signatures, and so did the methods they
   * replaced: what overrides in the table being built is what overrides in the inherited table.
   */
  lemma SearchOriginal(m0: seq<Method>, methods: seq<Method>, access: Access, vtable: seq<nat>, locals: seq<nat>,
                       vtable': seq<nat>, i: nat)
    requires Entries(m0, vtable) && Declared(m0, vtable, locals) && i < |locals|
    requires OnlyIndexes(m0, methods, locals[..i]) && Entries(methods, vtable')
    requires Linked(m0, access, vtable, locals[..i], vtable')
    ensures forall k :: 0 <= k < |vtable'| ==>
      (Overrides(methods, access, vtable', k, methods[locals[i]].signature) <==>
       Overrides(m0, access, vtable, k, m0[locals[i]].signature))
    ensures forall k :: 0 <= k < |vtable| && Overrides(m0, access, vtable, k, m0[locals[i]].signature) ==>
      vtable'[k] == vtable[k]
  {
    forall k | 0 <= k < |vtable'|
      ensures Overrides(methods, access, vtable', k, methods[locals[i]].signature) <==>
        Overrides(m0, access, vtable, k, m0[locals[i]].signature)
      ensures k < |vtable| && Overrides(m0, access, vtable, k, m0[locals[i]].signature) ==> vtable'[k] == vtable[k]
    {
      if k < |vtable| && vtable'[k] == vtable[k] {
        assert vtable[k] !in locals[..i];
      } else {
        assert vtable'[k] in locals[..i];
        var h :| 0 <= h < i && locals[h] == vtable'[k];
        assert m0[locals[h]].signature != m0[locals[i]].signature;
      }
    }
  }

  /** The state of the table while the methods before `i` have been linked. */
  ghost predicate Partial(m0: seq<Method>, methods: seq<Method>, access: Access, vtable: seq<nat>, locals: seq<nat>,
                          vtable': seq<nat>, i: nat) {
    && i <= |locals| && Entries(m0, vtable) && Declared(m0, vtable, locals)
    && OnlyIndexes(m0, methods, locals[..i]) && Entries(methods, vtable')
    && (Indexed(m0, vtable) ==> Indexed(methods, vtable'))
    && Linked(m0, access, vtable, locals[..i], vtable') && !OverridesFinal(m0, access, vtable, locals[..i])
  }

  lemma NotYetLinked(m0: seq<Method>, methods: seq<Method>, access: Access, vtable: seq<nat>, locals: seq<nat>,
                     vtable': seq<nat>, i: nat)
    requires Partial(m0, methods, access, vtable, locals, vtable', i) && i < |locals|
    ensures locals[i] !in vtable' && locals[i] < |methods| && locals[..i + 1] == locals[..i] + [locals[i]]
  {
    forall k | 0 <= k < |vtable'| ensures vtable'[k] != locals[i] {
      if k >= |vtable| || vtable'[k] != vtable[k] {
        assert vtable'[k] in locals[..i];
      }
    }
  }

  /** Giving declared method `i` position `j`, which the table already has or is just gaining. */
  lemma Reindex(m0: seq<Method>, methods: seq<Method>, access: Access, vtable: seq<nat>, locals: seq<nat>,
                vtable': seq<nat>, i: nat, j: nat, vtable'': seq<nat>)
    requires Partial(m0, methods, access, vtable, locals, vtable', i) && i < |locals| && j <= |vtable'|
    requires vtable'' == if j < |vtable'| then vtable'[j := locals[i]] else vtable' + [locals[i]]
    ensures locals[i] < |methods|
    ensures var methods' := methods[locals[i] := methods[locals[i]].(index := j)];
      OnlyIndexes(m0, methods', locals[..i + 1]) && Entries(methods', vtable'') &&
        (Indexed(m0, vtable) ==> Indexed(methods', vtable''))
  {
    NotYetLinked(m0, methods, access, vtable, locals, vtable', i);
    var methods' := methods[locals[i] := methods[locals[i]].(index := j)];
    forall k | 0 <= k < |vtable''| ensures vtable''[k] < |methods'| {
      if k != j { assert vtable''[k] == vtable'[k]; }
    }
    if Indexed(m0, vtable) {
      forall k | 0 <= k < |vtable''| ensures methods'[vtable''[k]].index == k {
        if k != j { assert vtable''[k] == vtable'[k]; }
      }
    }
  }

  lemma FinalStep(m0: seq<Method>, methods: seq<Method>, access: Access, vtable: seq<nat>, locals: seq<nat>,
                  vtable': seq<nat>, i: nat)
    requires Partial(m0, methods, access, vtable, locals, vtable', i) && i < |locals|
    requires forall j :: 0 <= j < |vtable| && FirstOverride(m0, access, vtable, j, m0[locals[i]].signature) ==>
      !m0[vtable[j]].isFinal
    ensures !OverridesFinal(m0, access, vtable, locals[..i + 1])
  {
  }

  lemma OverrideStep(m0: seq<Method>, methods: seq<Method>, access: Access, vtable: seq<nat>, locals: seq<nat>,
                     vtable': seq<nat>, i: nat, j: nat)
    requires Partial(m0, methods, access, vtable, locals, vtable', i) && i < |locals| && j < |vtable'|
    requires locals[i] < |methods|
    requires FirstOverride(methods, access, vtable', j, methods[locals[i]].signature)
    ensures vtable'[j] < |methods|
    ensures methods[vtable'[j]].isFinal ==> OverridesFinal(m0, access, vtable, locals)
    ensures !methods[vtable'[j]].isFinal ==>
      var methods', vtable'' := methods[locals[i] := methods[locals[i]].(index := j)], vtable'[j := locals[i]];
      Partial(m0, methods', access, vtable, locals, vtable'', i + 1)
  {
    var m, s := locals[i], m0[locals[i]].signature;
    SearchOriginal(m0, methods, access, vtable, locals, vtable', i);
    assert FirstOverride(m0, access, vtable, j, s) && vtable'[j] == vtable[j];
    assert vtable[j] !in locals[..i];
    if !methods[vtable'[j]].isFinal {
      var vtable'' := vtable'[j := m];
      Reindex(m0, methods, access, vtable, locals, vtable', i, j, vtable'');
      FinalStep(m0, methods, access, vtable, locals, vtable', i);
      OverrideLinked(m0, methods, access, vtable, locals, vtable', i, j);
    }
  }

  lemma OverrideLinked(m0: seq<Method>, methods: seq<Method>, access: Access, vtable: seq<nat>, locals: seq<nat>,
                       vtable': seq<nat>, i: nat, j: nat)
    requires Partial(m0, methods, access, vtable, locals, vtable', i) && i < |locals| && j < |vtable|
    requires FirstOverride(m0, access, vtable, j, m0[locals[i]].signature) && vtable'[j] == vtable[j]
    requires !m0[vtable[j]].isFinal
    ensures Linked(m0, access, vtable, locals[..i + 1], vtable'[j := locals[i]])
  {
    hide FirstOverride, NoOverride, OverridesFinal;
    var m, vtable'' := locals[i], vtable'[j := locals[i]];
    FreshNext(m0, access, vtable, locals, i);
    SomeOverride(m0, access, vtable, j, m0[m].signature);
    assert vtable''[|vtable|..] == vtable'[|vtable|..];
    NotYetLinked(m0, methods, access, vtable, locals, vtable', i);
    forall k | 0 <= k < |vtable|
      ensures vtable''[k] == vtable[k] || OverriddenBy(m0, access, vtable, locals[..i + 1], k, vtable''[k])
    {
      if k != j && vtable'[k] != vtable[k] {
        assert OverriddenBy(m0, access, vtable, locals[..i], k, vtable'[k]);
      }
    }
    forall k | |vtable| <= k < |vtable''| ensures NewSlot(m0, access, vtable, locals[..i + 1], vtable''[k]) {
      assert NewSlot(m0, access, vtable, locals[..i], vtable'[k]);
    }
    forall h | 0 <= h < i + 1 ensures HasSlot(m0, access, vtable, locals[h], vtable'') {
      if h < i {
        assert HasSlot(m0, access, vtable, locals[..i][h], vtable');
        assert vtable[j] !in locals;
        KeepsSlot(m0, access, vtable, locals[h], vtable', vtable'');
      } else {
        assert vtable''[j] == m;
      }
    }
  }

  lemma FreshNext(methods: seq<Method>, access: Access, vtable: seq<nat>, locals: seq<nat>, i: nat)
    requires i < |locals| && locals[i] < |methods|
    ensures Fresh(methods, access, vtable, locals[..i + 1]) ==
      Fresh(methods, access, vtable, locals[..i])
      + (if NoOverride(methods, access, vtable, methods[locals[i]].signature) then [locals[i]] else [])
  {
    assert locals[..i + 1][..i] == locals[..i];
  }

  lemma SomeOverride(methods: seq<Method>, access: Access, vtable: seq<nat>, j: nat, s: nat)
    requires FirstOverride(methods, access, vtable, j, s)
    ensures !NoOverride(methods, access, vtable, s)
  {
  }

  lemma KeepsSlot(m0: seq<Method>, access: Access, vtable: seq<nat>, m: nat, vtable': seq<nat>, vtable'': seq<nat>)
    requires m < |m0| && HasSlot(m0, access, vtable, m, vtable') && |vtable'| <= |vtable''|
    requires forall k :: 0 <= k < |vtable'| && vtable'[k] == m ==> vtable''[k] == m
    ensures HasSlot(m0, access, vtable, m, vtable'')
  {
  }

  lemma AppendStep(m0: seq<Method>, methods: seq<Method>, access: Access, vtable: seq<nat>, locals: seq<nat>,
                   vtable': seq<nat>, i: nat)
    requires Partial(m0, methods, access, vtable, locals, vtable', i) && i < |locals| && locals[i] < |methods|
    requires NoOverride(methods, access, vtable', methods[locals[i]].signature)
    ensures
      var methods', vtable'' := methods[locals[i] := methods[locals[i]].(index := |vtable'|)], vtable' + [locals[i]];
      Partial(m0, methods', access, vtable, locals, vtable'', i + 1)
  {
    var m, s, vtable'' := locals[i], m0[locals[i]].signature, vtable' + [locals[i]];
    SearchOriginal(m0, methods, access, vtable, locals, vtable', i);
    assert NoOverride(m0, access, vtable, s);
    Reindex(m0, methods, access, vtable, locals, vtable', i, |vtable'|, vtable'');
    FinalStep(m0, methods, access, vtable, locals, vtable', i);
    AppendLinked(m0, methods, access, vtable, locals, vtable', i);
  }

  lemma AppendLinked(m0: seq<Method>, methods: seq<Method>, access: Access, vtable: seq<nat>, locals: seq<nat>,
                     vtable': seq<nat>, i: nat)
    requires Partial(m0, methods, access, vtable, locals, vtable', i) && i < |locals|
    requires locals[i] < |m0| && NoOverride(m0, access, vtable, m0[locals[i]].signature)
    ensures Linked(m0, access, vtable, locals[..i + 1], vtable' + [locals[i]])
  {
    hide FirstOverride, NoOverride, OverridesFinal, Declared, OnlyIndexes, Indexed, Fresh;
    var m, vtable'' := locals[i], vtable' + [locals[i]];
    NotYetLinked(m0, methods, access, vtable, locals, vtable', i);
    FreshNext(m0, access, vtable, locals, i);
    assert vtable''[|vtable|..] == vtable'[|vtable|..] + [m];
    forall k | |vtable| <= k < |vtable''| ensures NewSlot(m0, access, vtable, locals[..i + 1], vtable''[k]) {
      if k < |vtable'| { assert NewSlot(m0, access, vtable, locals[..i], vtable'[k]); }
    }
    forall h | 0 <= h < i + 1 ensures HasSlot(m0, access, vtable, locals[h], vtable'') {
      if h < i {
        assert HasSlot(m0, access, vtable, locals[..i][h], vtable');
        KeepsSlot(m0, access, vtable, locals[h], vtable', vtable'');
      } else {
        assert vtable''[|vtable'|] == m;
      }
    }
  }

  // ---- which method a call reaches ----

  ghost predicate OneForEachSignature(methods: seq<Method>, vtable: seq<nat>) {
    && Entries(methods, vtable)
    && forall p, q :: 0 <= p < q < |vtable| ==> methods[vtable[p]].signature != methods[vtable[q]].signature
  }

  /** A class after `a` and up to `k` declares a method with this signature. */
  ghost predicate Redeclared(m0: seq<Method>, chain: seq<Declaration>, a: nat, k: nat, s: nat) {
    exists b, m :: a < b <= k && b < |chain| && m in chain[b].locals && m < |m0| && m0[m].signature == s
  }

  /** The nearest declaration of each signature is in the table, which has one entry for each. */
  ghost predicate Dispatches(m0: seq<Method>, methods: seq<Method>, chain: seq<Declaration>, k: nat, vtable: seq<nat>) {
    && OneForEachSignature(methods, vtable)
    && forall a, m :: 0 <= a <= k && a < |chain| && m in chain[a].locals && m < |m0| ==>
         m in vtable || Redeclared(m0, chain, a, k, m0[m].signature)
  }

  /** Linking a class changes no method but for its index. */
  lemma KeepsMethods(d: Declaration, link: Link)
    requires VirtualDone(d, link) && InterfacesDone(d, link)
    ensures |link.before| == |link.middle| <= |link.after|
    ensures forall m :: 0 <= m < |link.before| ==> link.after[m] == link.before[m].(index := link.after[m].index)
    ensures forall m :: 0 <= m < |link.middle| ==> link.after[m] == link.middle[m]
  {
    hide Linked, RowsOk, OverridesFinal, Cloned, NoMatch, HasMiranda;
  }

  lemma {:induction false} FreshDistinct(methods: seq<Method>, access: Access, vtable: seq<nat>, locals: seq<nat>)
    requires Declared(methods, [], locals)
    ensures var added := Fresh(methods, access, vtable, locals);
      OneForEachSignature(methods, added) && forall m :: m in added ==> m in locals
  {
    if locals != [] {
      var rest := locals[..|locals| - 1];
      FreshDistinct(methods, access, vtable, rest);
      hide NoOverride, OneForEachSignature;
      var before, last := Fresh(methods, access, vtable, rest), locals[|locals| - 1];
      forall m | m in before ensures m < |methods| && methods[m].signature != methods[last].signature {
        var i :| 0 <= i < |rest| && rest[i] == m;
        assert locals[i] == m;
      }
      OneMore(methods, before, last);
    }
  }

  lemma OneMore(methods: seq<Method>, vtable: seq<nat>, m: nat)
    requires OneForEachSignature(methods, vtable) && m < |methods|
    requires forall x :: x in vtable ==> x < |methods| && methods[x].signature != methods[m].signature
    ensures OneForEachSignature(methods, vtable + [m])
  {
    forall p | 0 <= p < |vtable| ensures methods[vtable[p]].signature != methods[m].signature {
      assert vtable[p] in vtable;
    }
  }

  /** Where every inherited method is accessible, the new slots have signatures of their own. */
  lemma LinkedDistinct(methods: seq<Method>, access: Access, vtable: seq<nat>, locals: seq<nat>, vtable': seq<nat>)
    requires Linked(methods, access, vtable, locals, vtable') && Declared(methods, [], locals)
    requires OneForEachSignature(methods, vtable) && forall m :: access(m)
    ensures OneForEachSignature(methods, vtable')
  {
    FreshDistinct(methods, access, vtable, locals);
    hide Fresh, HasSlot;
    var added := vtable'[|vtable|..];
    forall j | 0 <= j < |vtable'|
      ensures vtable'[j] < |methods|
      ensures j < |vtable| ==> methods[vtable'[j]].signature == methods[vtable[j]].signature
    {
    }
    forall p, q | 0 <= p < q < |vtable'| ensures methods[vtable'[p]].signature != methods[vtable'[q]].signature {
      if q >= |vtable| {
        assert NewSlot(methods, access, vtable, locals, vtable'[q]);
        if p >= |vtable| {
          assert added[p - |vtable|] == vtable'[p] && added[q - |vtable|] == vtable'[q];
        } else {
          assert !Overrides(methods, access, vtable, p, methods[vtable'[q]].signature);
        }
      }
    }
  }

  lemma MirandasDistinct(m0: seq<Method>, methods: seq<Method>, vtable: seq<nat>, mirandas: seq<nat>, asked: seq<nat>)
    requires MirandasOk(m0, methods, vtable, mirandas, asked) && OneForEachSignature(m0, vtable)
    ensures OneForEachSignature(methods, vtable + mirandas)
  {
    hide Cloned, HasMiranda;
    var all := vtable + mirandas;
    forall p, q | 0 <= p < q < |all| ensures methods[all[p]].signature != methods[all[q]].signature {
      if q >= |vtable| && p < |vtable| {
        assert NoMatch(m0, vtable, methods[mirandas[q - |vtable|]].signature);
      }
    }
  }

  /** An inherited method stays in the table unless the class declares its signature again. */
  lemma LinkedKeeps(methods: seq<Method>, access: Access, vtable: seq<nat>, locals: seq<nat>, vtable': seq<nat>, m: nat)
    requires Linked(methods, access, vtable, locals, vtable') && m in vtable && m < |methods|
    requires forall l :: l in locals && l < |methods| ==> methods[l].signature != methods[m].signature
    ensures m in vtable'
  {
    hide Fresh, HasSlot, NewSlot;
    var j :| 0 <= j < |vtable| && vtable[j] == m;
    assert vtable'[j] == m;
  }

  lemma LocalsIn(methods: seq<Method>, access: Access, vtable: seq<nat>, locals: seq<nat>, vtable': seq<nat>, m: nat)
    requires Linked(methods, access, vtable, locals, vtable') && m in locals
    ensures m in vtable'
  {
    hide Fresh, FirstOverride, NoOverride;
    var i :| 0 <= i < |locals| && locals[i] == m;
    assert HasSlot(methods, access, vtable, locals[i], vtable');
  }

  lemma {:induction false} GivenKept(m0: seq<Method>, chain: seq<Declaration>, tables: seq<seq<nat>>, links: seq<Link>,
                                     k: nat)
    requires AllLinked(m0, chain, tables, links) && k <= |tables|
    ensures var methods := Before(m0, links, k);
      |m0| <= |methods| && forall m :: 0 <= m < |m0| ==> methods[m] == m0[m].(index := methods[m].index)
  {
    hide VirtualDone, InterfacesDone, Passes;
    if k > 0 {
      GivenKept(m0, chain, tables, links, k - 1);
      assert ClassLinked(m0, chain, tables, links, k - 1);
      KeepsMethods(chain[k - 1], links[k - 1]);
    }
  }

  lemma LocalsGiven(m0: seq<Method>, chain: seq<Declaration>, tables: seq<seq<nat>>, links: seq<Link>, k: nat)
    requires WellDeclared(m0, chain) && AllLinked(m0, chain, tables, links) && k < |tables|
    ensures Declared(Before(m0, links, k), [], chain[k].locals)
  {
    hide ClassLinked;
    GivenKept(m0, chain, tables, links, k);
    assert Declared(m0, [], chain[k].locals);
  }

  lemma StillDistinct(d: Declaration, link: Link)
    requires VirtualDone(d, link) && Passes(d, link) && InterfacesDone(d, link)
    requires Declared(link.before, [], d.locals) && forall m :: d.access(m)
    requires OneForEachSignature(link.before, link.inherited)
    ensures OneForEachSignature(link.after, link.linked + link.mirandas)
  {
    LinkedDistinct(link.before, d.access, link.inherited, d.locals, link.linked);
    hide Linked, OverridesFinal, Inaccessible, RowsOk, Declared, MirandasOk;
    assert OneForEachSignature(link.middle, link.linked);
    MirandasDistinct(link.middle, link.after, link.linked, link.mirandas, Flatten(d.interfaces));
  }

  lemma NearestStays(m0: seq<Method>, chain: seq<Declaration>, k: nat, link: Link, m: nat)
    requires k < |chain| && VirtualDone(chain[k], link) && Passes(chain[k], link)
    requires |m0| <= |link.before| && forall h :: 0 <= h < |m0| ==> link.before[h].signature == m0[h].signature
    requires m < |m0| && (m in chain[k].locals || m in link.inherited)
    requires m !in chain[k].locals ==>
      forall l :: l in chain[k].locals ==> l < |m0| && m0[l].signature != m0[m].signature
    ensures m in link.linked
  {
    hide Linked, OverridesFinal, Inaccessible;
    var d := chain[k];
    if m in d.locals {
      LocalsIn(link.before, d.access, link.inherited, d.locals, link.linked, m);
    } else {
      LinkedKeeps(link.before, d.access, link.inherited, d.locals, link.linked, m);
    }
  }

  /**
   * Dynamic dispatch: where every class may access the methods it inherits, the table of a class
   * has one entry for each signature, and for a signature declared in the chain it is the method
   * of the nearest class that declares it, whatever mirandas and interfaces there are.
   */
  lemma {:induction false} MostDerived(m0: seq<Method>, chain: seq<Declaration>, tables: seq<seq<nat>>,
                                       links: seq<Link>, k: nat)
    requires WellDeclared(m0, chain) && AllLinked(m0, chain, tables, links) && k < |tables|
    requires forall c, m :: 0 <= c < |chain| ==> chain[c].access(m)
    ensures Dispatches(m0, links[k].after, chain, k, tables[k])
  {
    hide VirtualDone, Passes, InterfacesDone, WellDeclared, OneForEachSignature;
    var link := links[k];
    assert ClassLinked(m0, chain, tables, links, k);
    LocalsGiven(m0, chain, tables, links, k);
    GivenKept(m0, chain, tables, links, k);
    if k > 0 {
      MostDerived(m0, chain, tables, links, k - 1);
    } else {
      NoneDistinct(m0);
    }
    StillDistinct(chain[k], link);
    forall a, m | 0 <= a <= k && m in chain[a].locals && m < |m0| && !Redeclared(m0, chain, a, k, m0[m].signature)
      ensures m in tables[k]
    {
      assert a < k ==> !Redeclared(m0, chain, a, k - 1, m0[m].signature);
      LocalsKnown(m0, chain, k);
      NearestStays(m0, chain, k, link, m);
    }
  }

  lemma NoneDistinct(methods: seq<Method>)
    ensures OneForEachSignature(methods, [])
  {
  }

  lemma LocalsKnown(m0: seq<Method>, chain: seq<Declaration>, k: nat)
    requires WellDeclared(m0, chain) && k < |chain|
    ensures forall l :: l in chain[k].locals ==> l < |m0|
  {
    assert Declared(m0, [], chain[k].locals);
  }

  /** A final method keeps its slot in every class below. */
  lemma {:induction false} FinalForGood(m0: seq<Method>, chain: seq<Declaration>, tables: seq<seq<nat>>,
                                        links: seq<Link>, a: nat, b: nat, j: nat)
    requires AllLinked(m0, chain, tables, links) && a <= b < |tables|
    requires j < |tables[a]| && tables[a][j] < |links[a].after| && links[a].after[tables[a][j]].isFinal
    ensures j < |tables[b]| && tables[b][j] == tables[a][j] < |links[b].after| && links[b].after[tables[b][j]].isFinal
    decreases b
  {
    if a < b {
      FinalForGood(m0, chain, tables, links, a, b - 1, j);
      assert ClassLinked(m0, chain, tables, links, b);
      FinalOnce(chain[b], links[b], j);
    }
  }

  lemma FinalOnce(d: Declaration, link: Link, j: nat)
    requires VirtualDone(d, link) && Passes(d, link) && InterfacesDone(d, link)
    requires j < |link.inherited| && link.inherited[j] < |link.before| && link.before[link.inherited[j]].isFinal
    ensures j < |link.linked| && link.linked[j] == link.inherited[j] < |link.after|
    ensures link.after[link.linked[j]].isFinal
  {
    KeepsMethods(d, link);
    hide OverridesFinal, Inaccessible, RowsOk, MirandasOk, Fresh, HasSlot, NewSlot, FirstOverride;
  }

  /** Every entry of an interface table is public, abstract or a miranda. */
  lemma CallableEntries(d: Declaration, link: Link, i: nat, j: nat)
    requires VirtualDone(d, link) && Passes(d, link) && InterfacesDone(d, link)
    requires i < |d.interfaces| && j < |d.interfaces[i]|
    ensures i < |link.rows| && j < |link.rows[i]| && link.rows[i][j] < |link.after|
    ensures var e := link.after[link.rows[i][j]]; e.isPublic || e.isAbstract || e.isMiranda
  {
    KeepsMethods(d, link);
    hide OverridesFinal, Linked, MirandasOk;
    var m, e := d.interfaces[i][j], link.rows[i][j];
    assert RowOk(link.middle, link.after, link.linked, link.mirandas, d.interfaces[i], link.rows[i]);
    assert EntryOk(link.middle, link.after, link.linked, link.mirandas, m, e);
    assert !Inaccessible(link.middle, link.linked, m);
  }

  /** A class that may access nothing it inherits overrides nothing: its methods are all appended. */
  lemma HiddenAppends(methods: seq<Method>, access: Access, vtable: seq<nat>, locals: seq<nat>, vtable': seq<nat>)
    requires Linked(methods, access, vtable, locals, vtable') && forall m :: !access(m)
    requires forall m :: m in locals ==> m < |methods|
    ensures vtable' == vtable + locals
  {
    FreshAll(methods, access, vtable, locals);
    hide Fresh, HasSlot, NewSlot;
    assert vtable'[..|vtable|] == vtable;
    assert vtable' == vtable'[..|vtable|] + vtable'[|vtable|..];
  }
}
