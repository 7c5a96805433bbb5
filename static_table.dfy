/**
 * The class table of the interpreter (StaticTable in State.kt): fields and
 * methods per class and the DOWNWARD class hierarchy, which maps a class to
 * the set of its direct subclasses. `GetSuper` inverts that map by search,
 * and `GetSuperMethod` walks up the ancestors of a class to find the
 * nearest inherited definition of a method.
 */
module StaticInfo {
  import opened Wrappers
  import opened SmolTypes

  datatype Visibility = PUBLIC | PROTECTED | PRIVATE

  datatype FieldInfo = FieldInfo(
    name: string,
    fieldType: Type,
    computationVisibility: Visibility,
    inferenceVisibility: Visibility,
    declaredIn: Type)

  /** The statement tree of a method body is not part of this model; it is identified by a number. */
  type Statement = nat

  /** A method definition: its body and the names of its parameters. */
  datatype MethodEntry = MethodEntry(body: Statement, params: seq<string>)

  /** One entry of the downward hierarchy: a class and its direct subclasses. */
  datatype HierarchyEntry = HierarchyEntry(parent: string, children: set<string>)

  /**
   * The hierarchy is an insertion-ordered map; it is kept as the sequence
   * of its entries in iteration order, since `GetSuper` answers with the
   * FIRST entry that lists a class.
   */
  datatype StaticTable = StaticTable(
    fieldTable: map<string, seq<FieldInfo>>,
    methodTable: map<string, map<string, MethodEntry>>,
    hierarchy: seq<HierarchyEntry>)

  /** The parent of `name`: the key of the first entry whose subclasses include it, if any. */
  function ParentOf(h: seq<HierarchyEntry>, name: string): Option<string>
  {
    if h == [] then None
    else if name in h[0].children then Some(h[0].parent)
    else ParentOf(h[1..], name)
  }

  /** ParentOf finds the first listing entry, and answers None exactly when no entry lists the class. */
  lemma {:induction false} ParentOfFirstListing(h: seq<HierarchyEntry>, name: string)
    ensures ParentOf(h, name).None? <==> forall i :: 0 <= i < |h| ==> name !in h[i].children
    ensures ParentOf(h, name).Some? ==>
      exists i :: 0 <= i < |h| && name in h[i].children && h[i].parent == ParentOf(h, name).value &&
                  forall j :: 0 <= j < i ==> name !in h[j].children
  {
    if h != [] && name !in h[0].children {
      ParentOfFirstListing(h[1..], name);
      assert forall i :: 1 <= i < |h| ==> h[i] == h[1..][i - 1];
      if ParentOf(h[1..], name).Some? {
        var i :| 0 <= i < |h[1..]| && name in h[1..][i].children && h[1..][i].parent == ParentOf(h, name).value &&
                 forall j :: 0 <= j < i ==> name !in h[1..][j].children;
        assert name in h[i + 1].children && forall j :: 0 <= j < i + 1 ==> name !in h[j].children;
      }
    }
  }

  /** Reverse lookup in the hierarchy: scans the entries in order, and each entry's subclasses. */
  method GetSuper(t: StaticTable, name: string) returns (r: Option<string>)
    ensures r == ParentOf(t.hierarchy, name)
  {
    var h := t.hierarchy;
    var i := 0;
    while i < |h|
      invariant 0 <= i <= |h|
      invariant ParentOf(h, name) == ParentOf(h[i..], name)
    {
      var rest := h[i].children;
      while rest != {}
        invariant rest <= h[i].children
        invariant name in h[i].children ==> name in rest
        decreases rest
      {
        var child :| child in rest;
        if child == name {
          return Some(h[i].parent);
        }
        rest := rest - {child};
      }
      assert h[i..][1..] == h[i + 1..];
      i := i + 1;
    }
    return None;
  }

  /** The walk of `GetSuperMethod` stops on reaching no class or the root class "Object". */
  predicate Halts(current: Option<string>)
  {
    current.None? || current.value == "Object"
  }

  /** Where the walk stands after `k` more steps from `current`; once halted it stays put. */
  function Climb(h: seq<HierarchyEntry>, current: Option<string>, k: nat): Option<string>
    decreases k
  {
    if k == 0 || Halts(current) then current else Climb(h, ParentOf(h, current.value), k - 1)
  }

  /**
   * The walk from the parent of `className` halts after finitely many
   * steps, as it does whenever the hierarchy has no cycle. Without it the
   * lookup loops forever.
   */
  ghost predicate AncestryEnds(h: seq<HierarchyEntry>, className: string)
  {
    exists k: nat :: Halts(Climb(h, ParentOf(h, className), k))
  }

  /**
   * The loop of `GetSuperMethod` exits at `current`: the walk has halted,
   * the class has no method table, or its table defines the method.
   */
  predicate Stops(t: StaticTable, current: Option<string>, methodName: string)
  {
    Halts(current) || current.value !in t.methodTable || methodName in t.methodTable[current.value]
  }

  /**
   * The lookup of `methodName` from the parent of `className` exits after
   * finitely many steps. This holds whenever the ancestry ends, and also on
   * a cyclic hierarchy when some class on the cycle lacks a method table
   * or defines the method; only without it does the lookup loop forever.
   */
  ghost predicate LookupEnds(t: StaticTable, className: string, methodName: string)
  {
    exists k: nat :: Stops(t, Climb(t.hierarchy, ParentOf(t.hierarchy, className), k), methodName)
  }

  ghost function LookupStop(t: StaticTable, start: Option<string>, methodName: string): (k: nat)
    requires exists k: nat :: Stops(t, Climb(t.hierarchy, start, k), methodName)
    ensures Stops(t, Climb(t.hierarchy, start, k), methodName)
  {
    var k: nat :| Stops(t, Climb(t.hierarchy, start, k), methodName); k
  }

  /** An ancestry that ends lets every lookup end, at the latest where the walk halts. */
  lemma AncestryEndsLookupEnds(t: StaticTable, className: string, methodName: string)
    requires AncestryEnds(t.hierarchy, className)
    ensures LookupEnds(t, className, methodName)
  {
    var k: nat :| Halts(Climb(t.hierarchy, ParentOf(t.hierarchy, className), k));
    assert Stops(t, Climb(t.hierarchy, ParentOf(t.hierarchy, className), k), methodName);
  }

  /**
   * The result of the lookup from `current` with at most `fuel` steps:
   * None on halting or on a class without a method table, the definition
   * at the first class that has one.
   */
  function Resolve(t: StaticTable, current: Option<string>, methodName: string, fuel: nat): Option<MethodEntry>
    decreases fuel
  {
    if Halts(current) || fuel == 0 then None
    else if current.value !in t.methodTable then None
    else if methodName in t.methodTable[current.value] then Some(t.methodTable[current.value][methodName])
    else Resolve(t, ParentOf(t.hierarchy, current.value), methodName, fuel - 1)
  }

  /** What `GetSuperMethod` returns; the walk starts at the parent of the class and runs until it stops. */
  ghost function SuperMethod(t: StaticTable, className: string, methodName: string): Option<MethodEntry>
    requires LookupEnds(t, className, methodName)
  {
    var start := ParentOf(t.hierarchy, className);
    Resolve(t, start, methodName, LookupStop(t, start, methodName) + 1)
  }

  method GetSuperMethod(t: StaticTable, className: string, methodName: string) returns (r: Option<MethodEntry>)
    requires LookupEnds(t, className, methodName)
    ensures r == SuperMethod(t, className, methodName)
  {
    var current := GetSuper(t, className);
    ghost var start := current;
    ghost var k := LookupStop(t, start, methodName);
    ghost var i := 0;
    while current.Some? && current.value != "Object"
      invariant 0 <= i <= k
      invariant current == Climb(t.hierarchy, start, i)
      invariant Resolve(t, current, methodName, k + 1 - i) == SuperMethod(t, className, methodName)
      decreases k - i
    {
      if current.value !in t.methodTable {
        return None;
      }
      if methodName in t.methodTable[current.value] {
        return Some(t.methodTable[current.value][methodName]);
      }
      assert !Stops(t, current, methodName) && i < k;
      ClimbStep(t.hierarchy, start, i);
      current := GetSuper(t, current.value);
      i := i + 1;
    }
    return None;
  }

  /** One more step of the walk moves to the parent of where it stands, unless it has halted. */
  lemma {:induction false} ClimbStep(h: seq<HierarchyEntry>, s: Option<string>, n: nat)
    ensures Climb(h, s, n + 1) ==
      (var c := Climb(h, s, n); if Halts(c) then c else ParentOf(h, c.value))
    decreases n
  {
    if n > 0 && !Halts(s) {
      ClimbStep(h, ParentOf(h, s.value), n - 1);
    }
  }

  /** Walking a + b steps is walking a steps and then b steps. */
  lemma {:induction false} ClimbAdd(h: seq<HierarchyEntry>, s: Option<string>, a: nat, b: nat)
    ensures Climb(h, s, a + b) == Climb(h, Climb(h, s, a), b)
    decreases a
  {
    if a > 0 && !Halts(s) {
      ClimbAdd(h, ParentOf(h, s.value), a - 1, b);
    }
  }

  /** A walk that returns to its start within p steps, without halting on the way, never halts. */
  lemma {:induction false} PeriodicNeverHalts(h: seq<HierarchyEntry>, s: Option<string>, p: nat, n: nat)
    requires p > 0 && Climb(h, s, p) == s
    requires forall i :: 0 <= i < p ==> !Halts(Climb(h, s, i))
    ensures !Halts(Climb(h, s, n))
    decreases n
  {
    if n >= p {
      ClimbAdd(h, s, p, n - p);
      PeriodicNeverHalts(h, s, p, n - p);
    }
  }

  /** When the ancestry of a class ends, the class is not among its own ancestors. */
  lemma NotOwnAncestor(h: seq<HierarchyEntry>, className: string, n: nat)
    requires AncestryEnds(h, className) && className != "Object"
    ensures Climb(h, ParentOf(h, className), n) != Some(className)
  {
    var start := ParentOf(h, className);
    if Climb(h, start, n) == Some(className) {
      forall i | 0 <= i < n + 1 ensures !Halts(Climb(h, start, i)) {
        ClimbAdd(h, start, i, n - i);
      }
      ClimbStep(h, start, n);
      var k: nat :| Halts(Climb(h, start, k));
      PeriodicNeverHalts(h, start, n + 1, k);
    }
  }

  /** Two tables that differ only in the method table of `skip` resolve alike along a walk that never stands on `skip`. */
  lemma {:induction false} ResolveAvoids(t: StaticTable, t': StaticTable, skip: string, current: Option<string>, methodName: string, fuel: nat)
    requires t'.hierarchy == t.hierarchy && t'.methodTable - {skip} == t.methodTable - {skip}
    requires forall n: nat :: Climb(t.hierarchy, current, n) != Some(skip)
    ensures Resolve(t, current, methodName, fuel) == Resolve(t', current, methodName, fuel)
    decreases fuel
  {
    if !Halts(current) && fuel > 0 {
      assert Climb(t.hierarchy, current, 0) == current;
      var c := current.value;
      assert c in t.methodTable <==> c in t.methodTable - {skip};
      assert c in t'.methodTable <==> c in t'.methodTable - {skip};
      if c in t.methodTable {
        assert t.methodTable[c] == (t.methodTable - {skip})[c];
        assert t'.methodTable[c] == (t'.methodTable - {skip})[c];
      }
      var next := ParentOf(t.hierarchy, c);
      forall n: nat ensures Climb(t.hierarchy, next, n) != Some(skip) {
        assert Climb(t.hierarchy, current, n + 1) == Climb(t.hierarchy, next, n);
      }
      ResolveAvoids(t, t', skip, next, methodName, fuel - 1);
    }
  }

  /**
   * When the ancestry ends, the lookup never consults the method table of
   * the class it starts from. (On a cycle through the class it may.)
   */
  lemma SuperMethodIgnoresOwnClass(t: StaticTable, t': StaticTable, className: string, methodName: string)
    requires AncestryEnds(t.hierarchy, className)
    requires t'.hierarchy == t.hierarchy && t'.methodTable - {className} == t.methodTable - {className}
    ensures LookupEnds(t, className, methodName) && LookupEnds(t', className, methodName)
    ensures SuperMethod(t, className, methodName) == SuperMethod(t', className, methodName)
  {
    var h := t.hierarchy;
    var start := ParentOf(h, className);
    AncestryEndsLookupEnds(t, className, methodName);
    AncestryEndsLookupEnds(t', className, methodName);
    var k1, k2 := LookupStop(t, start, methodName), LookupStop(t', start, methodName);
    var k := k1 + k2;
    ResolveSettles(t, start, methodName, k1, k);
    ResolveSettles(t', start, methodName, k2, k);
    if className == "Object" {
      ResolveSkipsObject(t, t', start, methodName, k + 1);
    } else {
      forall n: nat ensures Climb(h, start, n) != Some(className) {
        NotOwnAncestor(h, className, n);
      }
      ResolveAvoids(t, t', className, start, methodName, k + 1);
    }
  }

  /** The root class "Object" is never consulted either: the walk halts there. */
  lemma {:induction false} ResolveSkipsObject(t: StaticTable, t': StaticTable, current: Option<string>, methodName: string, fuel: nat)
    requires t'.hierarchy == t.hierarchy && t'.methodTable - {"Object"} == t.methodTable - {"Object"}
    ensures Resolve(t, current, methodName, fuel) == Resolve(t', current, methodName, fuel)
    decreases fuel
  {
    if !Halts(current) && fuel > 0 {
      var c := current.value;
      assert c in t.methodTable <==> c in t.methodTable - {"Object"};
      assert c in t'.methodTable <==> c in t'.methodTable - {"Object"};
      if c in t.methodTable {
        assert t.methodTable[c] == (t.methodTable - {"Object"})[c];
        assert t'.methodTable[c] == (t'.methodTable - {"Object"})[c];
      }
      ResolveSkipsObject(t, t', ParentOf(t.hierarchy, c), methodName, fuel - 1);
    }
  }

  /** Fuel beyond the step where the lookup stops changes nothing. */
  lemma {:induction false} ResolveSettles(t: StaticTable, current: Option<string>, methodName: string, k: nat, k': nat)
    requires Stops(t, Climb(t.hierarchy, current, k), methodName) && k <= k'
    ensures Resolve(t, current, methodName, k + 1) == Resolve(t, current, methodName, k' + 1)
    decreases k
  {
    if !Stops(t, current, methodName) {
      assert k > 0;
      ResolveSettles(t, ParentOf(t.hierarchy, current.value), methodName, k - 1, k' - 1);
    }
  }

  /** A class without a parent, or whose parent is "Object", inherits nothing. */
  lemma SuperMethodAtRoot(t: StaticTable, className: string, methodName: string)
    requires Halts(ParentOf(t.hierarchy, className))
    ensures LookupEnds(t, className, methodName)
    ensures SuperMethod(t, className, methodName) == None
  {
    assert Stops(t, Climb(t.hierarchy, ParentOf(t.hierarchy, className), 0), methodName);
  }

  /** A parent that defines the method supplies it: the nearest definition wins, whatever lies above it. */
  lemma SuperMethodFromParent(t: StaticTable, className: string, methodName: string, parent: string)
    requires ParentOf(t.hierarchy, className) == Some(parent) && parent != "Object"
    requires parent in t.methodTable && methodName in t.methodTable[parent]
    ensures LookupEnds(t, className, methodName)
    ensures SuperMethod(t, className, methodName) == Some(t.methodTable[parent][methodName])
  {
    assert Stops(t, Climb(t.hierarchy, Some(parent), 0), methodName);
  }

  /** A parent without a method table stops the search with None, even if a further ancestor defines the method. */
  lemma SuperMethodMissingTable(t: StaticTable, className: string, methodName: string, parent: string)
    requires ParentOf(t.hierarchy, className) == Some(parent) && parent != "Object"
    requires parent !in t.methodTable
    ensures LookupEnds(t, className, methodName)
    ensures SuperMethod(t, className, methodName) == None
  {
    assert Stops(t, Climb(t.hierarchy, Some(parent), 0), methodName);
  }

  /** A parent with a method table that lacks the method passes the search on to its own parent. */
  lemma SuperMethodInherits(t: StaticTable, className: string, methodName: string, parent: string)
    requires ParentOf(t.hierarchy, className) == Some(parent) && parent != "Object"
    requires parent in t.methodTable && methodName !in t.methodTable[parent]
    requires LookupEnds(t, className, methodName)
    ensures LookupEnds(t, parent, methodName)
    ensures SuperMethod(t, className, methodName) == SuperMethod(t, parent, methodName)
  {
    var h := t.hierarchy;
    var kc := LookupStop(t, Some(parent), methodName);
    assert kc != 0;
    var next := ParentOf(h, parent);
    assert Climb(h, Some(parent), kc) == Climb(h, next, kc - 1);
    var kp := LookupStop(t, next, methodName);
    if kc - 1 <= kp {
      ResolveSettles(t, next, methodName, kc - 1, kp);
    } else {
      ResolveSettles(t, next, methodName, kp, kc - 1);
    }
  }

  /**
   * A two-class cycle A -> B -> A whose class B defines the method: the
   * ancestry of A never ends, yet the lookup from A returns B's
   * definition at its first step.
   */
  lemma CycleStillResolves(e: MethodEntry)
    ensures var t := StaticTable(map[], map["B" := map["m" := e]],
                                 [HierarchyEntry("A", {"B"}), HierarchyEntry("B", {"A"})]);
      && !AncestryEnds(t.hierarchy, "A")
      && LookupEnds(t, "A", "m")
      && SuperMethod(t, "A", "m") == Some(e)
  {
    var t := StaticTable(map[], map["B" := map["m" := e]],
                         [HierarchyEntry("A", {"B"}), HierarchyEntry("B", {"A"})]);
    var h := t.hierarchy;
    assert ParentOf(h, "A") == Some("B");
    assert ParentOf(h, "B") == Some("A");
    assert Climb(h, Some("B"), 1) == Some("A");
    assert Climb(h, Some("B"), 2) == Some("B");
    forall n: nat ensures !Halts(Climb(h, Some("B"), n)) {
      PeriodicNeverHalts(h, Some("B"), 2, n);
    }
    SuperMethodFromParent(t, "A", "m", "B");
  }

  /** The class dump, which is disabled. */
  function DumpClasses(t: StaticTable): string
  {
    ""
  }

  /** The dump does not depend on the table: it is the empty text for every table. */
  lemma DumpClassesIgnoresTable(t: StaticTable, t': StaticTable)
    ensures DumpClasses(t) == DumpClasses(t') && DumpClasses(t) == ""
  {
  }
}
