/**
 internal/graph/ontology.go: entity types under single inheritance, searched upward by IsA and downward by
 SubClassesOf.
 */
module Ontologies {

  datatype Attribute = Attribute(name: string, required: bool)
  datatype EntityType = EntityType(name: string, subClassOf: string, attributes: seq<Attribute>)
  datatype Relation = Relation(name: string, domain: string, range: string)
  datatype Ontology = Ontology(name: string, types: seq<EntityType>, relations: seq<Relation>)

  predicate Declared(o: Ontology, name: string) {
    exists i :: 0 <= i < |o.types| && o.types[i].name == name
  }

  // ---------------------------------------------------------------------------
  // Validation.

  ghost predicate TypesDistinct(types: seq<EntityType>) {
    && (forall i :: 0 <= i < |types| ==> types[i].name != "")
    && (forall i, j :: 0 <= i < j < |types| ==> types[i].name != types[j].name)
  }

  predicate ParentDeclared(o: Ontology, i: nat)
    requires i < |o.types|
  {
    o.types[i].subClassOf != "" ==> Declared(o, o.types[i].subClassOf)
  }

  ghost predicate ParentsDeclared(o: Ontology) {
    forall i :: 0 <= i < |o.types| ==> ParentDeclared(o, i)
  }

  ghost predicate RelationsDistinct(rs: seq<Relation>) {
    && (forall i :: 0 <= i < |rs| ==> rs[i].name != "")
    && (forall i, j :: 0 <= i < j < |rs| ==> rs[i].name != rs[j].name)
  }

  predicate EndsDeclared(o: Ontology, r: Relation) {
    r.domain != "" && r.range != "" && Declared(o, r.domain) && Declared(o, r.range)
  }

  ghost predicate WellFormed(o: Ontology) {
    && o.name != "" && o.types != []
    && TypesDistinct(o.types) && ParentsDeclared(o)
    && RelationsDistinct(o.relations) && forall i :: 0 <= i < |o.relations| ==> EndsDeclared(o, o.relations[i])
  }

  method Validate(o: Ontology) returns (ok: bool)
    ensures ok <==> WellFormed(o)
  {
    if o.name == "" || o.types == [] {
      return false;
    }
    var typeSet, typesOk := TypeNames(o.types);
    if !typesOk {
      return false;
    }
    for i := 0 to |o.types|
      invariant forall j :: 0 <= j < i ==> ParentDeclared(o, j)
    {
      assert ParentDeclared(o, i) <==> o.types[i].subClassOf == "" || o.types[i].subClassOf in typeSet;
      if o.types[i].subClassOf != "" && o.types[i].subClassOf !in typeSet {
        return false;
      }
    }
    ok := ValidateRelations(o, typeSet);
  }

  method ValidateRelations(o: Ontology, typeSet: set<string>) returns (ok: bool)
    requires forall n :: n in typeSet <==> Declared(o, n)
    ensures ok <==> RelationsDistinct(o.relations) && forall i :: 0 <= i < |o.relations| ==>
      EndsDeclared(o, o.relations[i])
  {
    var relSet: set<string> := {};
    for i := 0 to |o.relations|
      invariant RelationsDistinct(o.relations[..i])
      invariant forall n :: n in relSet <==> exists j :: 0 <= j < i && o.relations[j].name == n
      invariant forall j :: 0 <= j < i ==> EndsDeclared(o, o.relations[j])
    {
      var r := o.relations[i];
      if r.name == "" || r.name in relSet {
        return false;
      }
      relSet := relSet + {r.name};
      if r.domain == "" || r.range == "" || r.domain !in typeSet || r.range !in typeSet {
        assert !EndsDeclared(o, r);
        return false;
      }
    }
    assert o.relations[..|o.relations|] == o.relations;
    return true;
  }

  method TypeNames(types: seq<EntityType>) returns (names: set<string>, ok: bool)
    ensures ok <==> TypesDistinct(types)
    ensures ok ==> forall n :: n in names <==> exists i :: 0 <= i < |types| && types[i].name == n
  {
    names := {};
    for i := 0 to |types|
      invariant TypesDistinct(types[..i])
      invariant forall n :: n in names <==> exists j :: 0 <= j < i && types[j].name == n
    {
      if types[i].name == "" || types[i].name in names {
        return names, false;
      }
      names := names + {types[i].name};
    }
    assert types[..|types|] == types;
    ok := true;
  }

  // ---------------------------------------------------------------------------
  // Declarations and chains of subclass links.

  /** The first declaration of a name, or -1. */
  function Find(types: seq<EntityType>, name: string): (i: int)
    ensures -1 <= i < |types|
    ensures i >= 0 ==> types[i].name == name
  {
    if types == [] then -1
    else if types[0].name == name then 0
    else var i := Find(types[1..], name); if i < 0 then -1 else i + 1
  }

  lemma {:induction false} FindFinds(types: seq<EntityType>, i: nat)
    requires i < |types|
    ensures 0 <= Find(types, types[i].name) <= i
  {
    if types[0].name != types[i].name {
      assert types[1..][i - 1] == types[i];
      FindFinds(types[1..], i - 1);
    }
  }

  lemma DeclaredAt(o: Ontology, i: nat)
    requires TypesDistinct(o.types) && i < |o.types|
    ensures Find(o.types, o.types[i].name) == i
  {
    FindFinds(o.types, i);
  }

  /** A chain of subclass declarations from `path[0]` up to its last element. */
  ghost predicate Chain(o: Ontology, path: seq<string>) {
    path != [] && forall i :: 0 <= i < |path| - 1 ==> Link(o, path[i], path[i + 1])
  }

  ghost predicate Link(o: Ontology, child: string, parent: string) {
    parent != "" && exists i :: 0 <= i < |o.types| && o.types[i].name == child && o.types[i].subClassOf == parent
  }

  ghost predicate Reaches(o: Ontology, child: string, parent: string) {
    exists path :: Chain(o, path) && path[0] == child && path[|path| - 1] == parent
  }

  lemma LinkIsFound(o: Ontology, child: string, parent: string)
    requires TypesDistinct(o.types)
    ensures Link(o, child, parent) <==>
      parent != "" && Find(o.types, child) >= 0 && o.types[Find(o.types, child)].subClassOf == parent
  {
    if Link(o, child, parent) {
      var i :| 0 <= i < |o.types| && o.types[i].name == child && o.types[i].subClassOf == parent;
      FindFinds(o.types, i);
    }
  }

  lemma ChainGrows(o: Ontology, child: string, rest: seq<string>)
    requires Chain(o, rest) && Link(o, child, rest[0])
    ensures Chain(o, [child] + rest)
  {
    var path := [child] + rest;
    forall i | 0 <= i < |path| - 1 ensures Link(o, path[i], path[i + 1]) {
      if i > 0 {
        assert path[i] == rest[i - 1] && path[i + 1] == rest[i];
      }
    }
  }

  lemma LinkDeclares(o: Ontology, child: string, parent: string)
    requires TypesDistinct(o.types) && Link(o, child, parent)
    ensures Find(o.types, child) >= 0 && child != "" && child in Names(o)
  {
    LinkIsFound(o, child, parent);
  }

  function Names(o: Ontology): set<string> {
    set i | 0 <= i < |o.types| :: o.types[i].name
  }

  // ---------------------------------------------------------------------------
  // Acyclic subclassing.

  ghost predicate Cycle(o: Ontology, path: seq<string>) {
    Chain(o, path) && |path| > 1 && path[0] == path[|path| - 1]
  }

  /** No chain of subclass links leads from a type back to itself. */
  ghost predicate Acyclic(o: Ontology) {
    forall path :: !Cycle(o, path)
  }

  /** Validation does not notice two types that are each other's parent. */
  lemma CyclesPassValidation() returns (o: Ontology)
    ensures WellFormed(o) && !Acyclic(o)
  {
    var a, b := EntityType("a", "b", []), EntityType("b", "a", []);
    o := Ontology("o", [a, b], []);
    assert o.types[0] == a && o.types[1] == b;
    assert Declared(o, "a") && Declared(o, "b");
    assert ParentDeclared(o, 0) && ParentDeclared(o, 1);
    assert Link(o, "a", "b") && Link(o, "b", "a");
    assert Cycle(o, ["a", "b", "a"]);
  }

  /** Distinct names and no cycle: what the searches need to end. */
  ghost predicate Treelike(o: Ontology) {
    TypesDistinct(o.types) && Acyclic(o)
  }

  // ---------------------------------------------------------------------------
  // Without a cycle every type has a height: the number of its ancestors, counting itself.

  ghost function Depth(o: Ontology, name: string, fuel: nat): nat
    decreases fuel
  {
    if fuel == 0 || Find(o.types, name) < 0 then 0
    else 1 + Depth(o, o.types[Find(o.types, name)].subClassOf, fuel - 1)
  }

  lemma {:induction false} DepthSettles(o: Ontology, name: string, fuel: nat)
    requires Depth(o, name, fuel) < fuel
    ensures Depth(o, name, fuel + 1) == Depth(o, name, fuel)
    decreases fuel
  {
    if Find(o.types, name) >= 0 {
      DepthSettles(o, o.types[Find(o.types, name)].subClassOf, fuel - 1);
    }
  }

  /** As long as the fuel runs out first, the ancestors form a chain of declared types. */
  lemma {:induction false} Ancestors(o: Ontology, name: string, fuel: nat) returns (path: seq<string>)
    requires TypesDistinct(o.types) && fuel > 0 && Depth(o, name, fuel) >= fuel
    ensures |path| == fuel && path[0] == name && Chain(o, path)
    ensures forall i :: 0 <= i < |path| ==> path[i] in Names(o)
    decreases fuel
  {
    var i := Find(o.types, name);
    assert name in Names(o) by { assert o.types[i].name == name; }
    if fuel == 1 {
      path := [name];
    } else {
      var up := o.types[i].subClassOf;
      var rest := Ancestors(o, up, fuel - 1);
      assert up != "" by { assert o.types[Find(o.types, up)].name == up; }
      assert Link(o, name, up);
      ChainGrows(o, name, rest);
      path := [name] + rest;
    }
  }

  /** More names than there are to go round: one occurs twice. */
  lemma {:induction false} Repeats(path: seq<string>, names: set<string>) returns (i: nat, j: nat)
    requires |path| > |names| && forall k :: 0 <= k < |path| ==> path[k] in names
    ensures i < j < |path| && path[i] == path[j]
    decreases |path|
  {
    var n := |path| - 1;
    if k :| 0 <= k < n && path[k] == path[n] {
      i, j := k, n;
    } else {
      assert path[n] in names;
      i, j := Repeats(path[..n], names - {path[n]});
    }
  }

  lemma PartOfChain(o: Ontology, path: seq<string>, i: nat, j: nat)
    requires Chain(o, path) && i <= j < |path|
    ensures Chain(o, path[i..j + 1])
  {
    var part := path[i..j + 1];
    forall k | 0 <= k < |part| - 1 ensures Link(o, part[k], part[k + 1]) {
      assert part[k] == path[i + k] && part[k + 1] == path[i + k + 1];
    }
  }

  /** The pigeonhole: without a cycle no type has more ancestors than there are types. */
  lemma DepthIsBounded(o: Ontology, name: string, fuel: nat)
    requires Treelike(o) && fuel > |Names(o)|
    ensures Depth(o, name, fuel) < fuel
  {
    if Depth(o, name, fuel) >= fuel {
      var path := Ancestors(o, name, fuel);
      var i, j := Repeats(path, Names(o));
      PartOfChain(o, path, i, j);
      assert Cycle(o, path[i..j + 1]);
    }
  }

  ghost function Height(o: Ontology, name: string): nat {
    Depth(o, name, |Names(o)| + 1)
  }

  /** Every type lies one above its parent, and none above the number of types. */
  lemma HeightFalls(o: Ontology, i: nat)
    requires Treelike(o) && i < |o.types|
    ensures Height(o, o.types[i].name) == Height(o, o.types[i].subClassOf) + 1
    ensures Height(o, o.types[i].name) <= |Names(o)|
  {
    DeclaredAt(o, i);
    DepthIsBounded(o, o.types[i].name, |Names(o)| + 1);
    DepthSettles(o, o.types[i].subClassOf, |Names(o)|);
  }

  // ---------------------------------------------------------------------------
  // Upward search.

  function IsA(o: Ontology, child: string, parent: string): bool
    requires Treelike(o)
    decreases Height(o, child)
  {
    if child == parent then true
    else
      var i := Find(o.types, child);
      if i < 0 || o.types[i].subClassOf == "" then false
      else
        HeightFalls(o, i);
        IsA(o, o.types[i].subClassOf, parent)
  }

  lemma {:induction false} IsAFindsChain(o: Ontology, child: string, parent: string) returns (path: seq<string>)
    requires Treelike(o) && IsA(o, child, parent)
    ensures Chain(o, path) && path[0] == child && path[|path| - 1] == parent
    decreases Height(o, child)
  {
    if child == parent {
      path := [child];
    } else {
      var up := o.types[Find(o.types, child)].subClassOf;
      HeightFalls(o, Find(o.types, child));
      var rest := IsAFindsChain(o, up, parent);
      LinkIsFound(o, child, up);
      path := [child] + rest;
      assert forall i :: 0 < i < |path| ==> path[i] == rest[i - 1];
      ChainGrows(o, child, rest);
    }
  }

  lemma {:induction false} ChainIsFound(o: Ontology, path: seq<string>)
    requires Treelike(o) && Chain(o, path)
    ensures IsA(o, path[0], path[|path| - 1])
    decreases |path|
  {
    if |path| > 1 && path[0] != path[|path| - 1] {
      assert Link(o, path[0], path[1]);
      LinkIsFound(o, path[0], path[1]);
      var rest := path[1..];
      assert forall i :: 0 <= i < |rest| ==> rest[i] == path[i + 1];
      assert Chain(o, rest);
      ChainIsFound(o, rest);
    }
  }

  /** The upward search decides reachability along declared subclass links. */
  lemma IsAIsReaching(o: Ontology, child: string, parent: string)
    requires Treelike(o)
    ensures IsA(o, child, parent) <==> Reaches(o, child, parent)
  {
    if IsA(o, child, parent) {
      var path := IsAFindsChain(o, child, parent);
    }
    if Reaches(o, child, parent) {
      var path :| Chain(o, path) && path[0] == child && path[|path| - 1] == parent;
      ChainIsFound(o, path);
    }
  }

  // ---------------------------------------------------------------------------
  // Downward search.

  ghost function Room(o: Ontology, p: string): nat {
    if Height(o, p) <= |Names(o)| then |Names(o)| - Height(o, p) + 1 else 0
  }

  /** The names below `parent`, found under the first `n` declarations. */
  ghost function Below(o: Ontology, parent: string, n: nat): seq<string>
    requires Treelike(o) && n <= |o.types|
    decreases Room(o, parent), n
  {
    if n == 0 then []
    else
      var et := o.types[n - 1];
      Below(o, parent, n - 1) +
        if et.subClassOf == parent then HeightFalls(o, n - 1); [et.name] + Below(o, et.name, |o.types|) else []
  }

  method SubClassesOf(o: Ontology, parent: string) returns (result: seq<string>)
    requires Treelike(o)
    ensures result == Below(o, parent, |o.types|)
    decreases Room(o, parent)
  {
    result := [];
    for i := 0 to |o.types|
      invariant result == Below(o, parent, i)
    {
      var et := o.types[i];
      if et.subClassOf == parent {
        result := result + [et.name];
        HeightFalls(o, i);
        var below := SubClassesOf(o, et.name);
        result := result + below;
        assert result == Below(o, parent, i) + ([et.name] + below);
      }
    }
  }

  // ---------------------------------------------------------------------------
  // The two searches agree.

  lemma IsAGoesUp(o: Ontology, t: string, p: string)
    requires Treelike(o) && IsA(o, t, p)
    ensures Height(o, p) <= Height(o, t) && (t != p ==> Height(o, p) < Height(o, t))
    decreases Height(o, t)
  {
    if t != p {
      var i := Find(o.types, t);
      HeightFalls(o, i);
      IsAGoesUp(o, o.types[i].subClassOf, p);
    }
  }

  lemma {:induction false} IsAIsTransitive(o: Ontology, a: string, b: string, c: string)
    requires Treelike(o) && IsA(o, a, b) && IsA(o, b, c)
    ensures IsA(o, a, c)
    decreases Height(o, a)
  {
    if a != b && a != c {
      HeightFalls(o, Find(o.types, a));
      IsAIsTransitive(o, o.types[Find(o.types, a)].subClassOf, b, c);
    }
  }

  /** Two ancestors of one type are related to each other. */
  lemma {:induction false} AncestorsAreInLine(o: Ontology, t: string, a: string, b: string)
    requires Treelike(o) && IsA(o, t, a) && IsA(o, t, b)
    ensures IsA(o, a, b) || IsA(o, b, a)
    decreases Height(o, t)
  {
    if t != a && t != b {
      HeightFalls(o, Find(o.types, t));
      AncestorsAreInLine(o, o.types[Find(o.types, t)].subClassOf, a, b);
    }
  }

  predicate ChildAt(o: Ontology, i: nat, p: string) {
    i < |o.types| && o.types[i].subClassOf == p
  }

  /** Nothing lies under two children of one parent. */
  lemma OneBranch(o: Ontology, t: string, p: string, i: nat, j: nat)
    requires Treelike(o) && ChildAt(o, i, p) && ChildAt(o, j, p)
    requires IsA(o, t, o.types[i].name) && IsA(o, t, o.types[j].name)
    ensures i == j
  {
    var a, b := o.types[i].name, o.types[j].name;
    AncestorsAreInLine(o, t, a, b);
    DeclaredAt(o, i);
    DeclaredAt(o, j);
    if a != b {
      if IsA(o, a, b) {
        SiblingsAreApart(o, i, j, p);
      } else {
        SiblingsAreApart(o, j, i, p);
      }
    }
  }

  lemma SiblingsAreApart(o: Ontology, i: nat, j: nat, p: string)
    requires Treelike(o) && ChildAt(o, i, p) && ChildAt(o, j, p) && i != j
    ensures !IsA(o, o.types[i].name, o.types[j].name)
  {
    DeclaredAt(o, i);
    var b := o.types[j].name;
    HeightFalls(o, j);
    if p != "" && IsA(o, p, b) {
      IsAGoesUp(o, p, b);
    }
  }

  /**
   What the downward search should list under `p`: everything declared under no name, proper subclasses under any
   other.
   */
  predicate Under(o: Ontology, t: string, p: string)
    requires Treelike(o)
  {
    if p == "" then Declared(o, t) else t != p && IsA(o, t, p)
  }

  /** A type under `p` lies under, or is, one of the children of `p`. */
  lemma {:induction false} SomeBranch(o: Ontology, t: string, p: string) returns (i: nat)
    requires Treelike(o) && ParentsDeclared(o) && Under(o, t, p)
    ensures ChildAt(o, i, p) && IsA(o, t, o.types[i].name)
    decreases Height(o, t)
  {
    if p == "" {
      var j :| 0 <= j < |o.types| && o.types[j].name == t;
      FindFinds(o.types, j);
    }
    var k := Find(o.types, t);
    var up := o.types[k].subClassOf;
    assert ParentDeclared(o, k);
    if up == p {
      i := k;
    } else {
      if p == "" {
        assert o.types[k].subClassOf != "";
      }
      HeightFalls(o, k);
      i := SomeBranch(o, up, p);
    }
  }

  lemma BranchIsUnder(o: Ontology, t: string, p: string, i: nat)
    requires Treelike(o) && ChildAt(o, i, p) && IsA(o, t, o.types[i].name)
    ensures Under(o, t, p)
  {
    DeclaredAt(o, i);
    var c := o.types[i].name;
    IsAGoesUp(o, t, c);
    HeightFalls(o, i);
    if p == "" {
      AncestorIsDeclared(o, t, c);
    } else {
      assert IsA(o, c, p);
      IsAIsTransitive(o, t, c, p);
    }
  }

  lemma AncestorIsDeclared(o: Ontology, t: string, c: string)
    requires Treelike(o) && IsA(o, t, c) && Declared(o, c)
    ensures Declared(o, t)
  {
  }

  /** Whether `t` lies in the branch of one of the first `n` declarations. */
  ghost predicate InBranch(o: Ontology, t: string, p: string, n: nat)
    requires Treelike(o)
  {
    exists i :: 0 <= i < n && ChildAt(o, i, p) && IsA(o, t, o.types[i].name)
  }

  /** How often `t` occurs. */
  function Times(s: seq<string>, t: string): nat
    decreases |s|
  {
    if s == [] then 0 else Times(s[..|s| - 1], t) + if s[|s| - 1] == t then 1 else 0
  }

  lemma {:induction false} TimesOfJoin(a: seq<string>, b: seq<string>, t: string)
    ensures Times(a + b, t) == Times(a, t) + Times(b, t)
    decreases |b|
  {
    if b == [] {
      assert a + b == a;
    } else {
      TimesOfJoin(a, b[..|b| - 1], t);
      assert (a + b)[..|a + b| - 1] == a + b[..|b| - 1];
    }
  }

  lemma {:induction false} OccursIff(s: seq<string>, t: string)
    ensures t in s <==> Times(s, t) > 0
    decreases |s|
  {
    if s == [] {
    } else {
      OccursIff(s[..|s| - 1], t);
      assert s == s[..|s| - 1] + [s[|s| - 1]];
    }
  }

  ghost function Branch(o: Ontology, n: nat): seq<string>
    requires Treelike(o) && n < |o.types|
  {
    [o.types[n].name] + Below(o, o.types[n].name, |o.types|)
  }

  lemma BelowGrows(o: Ontology, p: string, n: nat)
    requires Treelike(o) && n < |o.types|
    ensures Below(o, p, n + 1) == if ChildAt(o, n, p) then Below(o, p, n) + Branch(o, n) else Below(o, p, n)
  {
  }

  /** Names the type whose count a proof asks for; the facts below stay aside until one does. */
  predicate Asked(t: string) {
    true
  }

  /** Among the first `n` declarations, `t` is listed once if it lies in a branch below `p`, and else not at all. */
  ghost predicate Counted(o: Ontology, p: string, n: nat, t: string)
    requires Treelike(o) && n <= |o.types|
  {
    forall u {:trigger Asked(u)} :: Asked(u) && u == t ==>
      Times(Below(o, p, n), u) == if InBranch(o, u, p, n) then 1 else 0
  }

  /** The branch of declaration `n` lists `t` once if `t` is a subclass of it or the type itself. */
  ghost predicate BranchCounted(o: Ontology, n: nat, t: string)
    requires Treelike(o) && n < |o.types|
  {
    forall u {:trigger Asked(u)} :: Asked(u) && u == t ==>
      Times(Branch(o, n), u) == if IsA(o, u, o.types[n].name) then 1 else 0
  }

  lemma CountOf(o: Ontology, p: string, n: nat, t: string)
    requires Treelike(o) && n <= |o.types| && Counted(o, p, n, t)
    ensures Times(Below(o, p, n), t) == if InBranch(o, t, p, n) then 1 else 0
  {
    assert Asked(t);
  }

  lemma BranchCountOf(o: Ontology, n: nat, t: string)
    requires Treelike(o) && n < |o.types| && BranchCounted(o, n, t)
    ensures Times(Branch(o, n), t) == if IsA(o, t, o.types[n].name) then 1 else 0
  {
    assert Asked(t);
  }

  lemma ChildGrows(o: Ontology, p: string, n: nat)
    requires Treelike(o) && n < |o.types| && ChildAt(o, n, p)
    ensures Below(o, p, n + 1) == Below(o, p, n) + Branch(o, n)
  {
    BelowGrows(o, p, n);
  }

  lemma OneMoreBranch(front: seq<string>, branch: seq<string>, t: string, inFront: bool, inBranch: bool)
    requires Times(front, t) == (if inFront then 1 else 0) && Times(branch, t) == (if inBranch then 1 else 0)
    requires !(inFront && inBranch)
    ensures Times(front + branch, t) == if inFront || inBranch then 1 else 0
  {
    TimesOfJoin(front, branch, t);
  }

  lemma OneMoreChild(o: Ontology, p: string, n: nat, t: string)
    requires Treelike(o) && n < |o.types| && ChildAt(o, n, p)
    requires Counted(o, p, n, t) && BranchCounted(o, n, t)
    ensures Times(Below(o, p, n + 1), t) == if InBranch(o, t, p, n + 1) then 1 else 0
  {
    CountOf(o, p, n, t);
    BranchCountOf(o, n, t);
    BranchesGrow(o, p, n + 1, t);
    OneMoreBranch(Below(o, p, n), Branch(o, n), t, InBranch(o, t, p, n), IsA(o, t, o.types[n].name));
    ChildGrows(o, p, n);
  }

  lemma OneMoreStranger(o: Ontology, p: string, n: nat, t: string)
    requires Treelike(o) && n < |o.types| && !ChildAt(o, n, p) && Counted(o, p, n, t)
    ensures Times(Below(o, p, n + 1), t) == if InBranch(o, t, p, n + 1) then 1 else 0
  {
    CountOf(o, p, n, t);
    BelowGrows(o, p, n);
  }

  lemma OneMoreCount(o: Ontology, p: string, n: nat, t: string)
    requires Treelike(o) && n < |o.types| && Counted(o, p, n, t)
    requires ChildAt(o, n, p) ==> BranchCounted(o, n, t)
    ensures Counted(o, p, n + 1, t)
  {
    if ChildAt(o, n, p) {
      OneMoreChild(o, p, n, t);
    } else {
      OneMoreStranger(o, p, n, t);
    }
  }

  lemma CountStep(o: Ontology, p: string, n: nat, t: string)
    requires Treelike(o) && ParentsDeclared(o) && n < |o.types| && Counted(o, p, n, t)
    requires ChildAt(o, n, p) ==> Counted(o, o.types[n].name, |o.types|, t)
    ensures Counted(o, p, n + 1, t)
  {
    if ChildAt(o, n, p) {
      BranchCounts(o, n, t);
    }
    OneMoreCount(o, p, n, t);
  }

  lemma {:induction false} BelowCounts(o: Ontology, p: string, n: nat, t: string)
    requires Treelike(o) && ParentsDeclared(o) && n <= |o.types|
    ensures Counted(o, p, n, t)
    decreases Room(o, p), n
  {
    if n == 0 {
    } else {
      BelowCounts(o, p, n - 1, t);
      if ChildAt(o, n - 1, p) {
        HeightFalls(o, n - 1);
        BelowCounts(o, o.types[n - 1].name, |o.types|, t);
      }
      CountStep(o, p, n - 1, t);
    }
  }

  lemma BranchCounts(o: Ontology, n: nat, t: string)
    requires Treelike(o) && ParentsDeclared(o) && n < |o.types|
    requires Counted(o, o.types[n].name, |o.types|, t)
    ensures BranchCounted(o, n, t)
  {
    var c := o.types[n].name;
    CountOf(o, c, |o.types|, t);
    TimesOfJoin([c], Below(o, c, |o.types|), t);
    assert Times([c], t) == if c == t then 1 else 0;
    InBranchIffUnder(o, t, c);
  }

  lemma InBranchIffUnder(o: Ontology, t: string, p: string)
    requires Treelike(o) && ParentsDeclared(o)
    ensures InBranch(o, t, p, |o.types|) <==> Under(o, t, p)
  {
    if InBranch(o, t, p, |o.types|) {
      var i :| 0 <= i < |o.types| && ChildAt(o, i, p) && IsA(o, t, o.types[i].name);
      BranchIsUnder(o, t, p, i);
    }
    if Under(o, t, p) {
      var i := SomeBranch(o, t, p);
    }
  }

  lemma BranchesGrow(o: Ontology, p: string, n: nat, t: string)
    requires Treelike(o) && 0 < n <= |o.types| && ChildAt(o, n - 1, p)
    ensures InBranch(o, t, p, n) <==> InBranch(o, t, p, n - 1) || IsA(o, t, o.types[n - 1].name)
    ensures !(InBranch(o, t, p, n - 1) && IsA(o, t, o.types[n - 1].name))
  {
    if InBranch(o, t, p, n - 1) && IsA(o, t, o.types[n - 1].name) {
      var i :| 0 <= i < n - 1 && ChildAt(o, i, p) && IsA(o, t, o.types[i].name);
      OneBranch(o, t, p, i, n - 1);
    }
  }

  /** The downward search lists exactly the types under its argument, each once. */
  lemma ListedOnceIff(o: Ontology, t: string, p: string)
    requires WellFormed(o) && Acyclic(o)
    ensures Times(Below(o, p, |o.types|), t) == if Under(o, t, p) then 1 else 0
  {
    BelowCounts(o, p, |o.types|, t);
    CountOf(o, p, |o.types|, t);
    InBranchIffUnder(o, t, p);
  }

  lemma ListedIffUnder(o: Ontology, t: string, p: string)
    requires WellFormed(o) && Acyclic(o)
    ensures t in Below(o, p, |o.types|) <==> Under(o, t, p)
  {
    ListedOnceIff(o, t, p);
    OccursIff(Below(o, p, |o.types|), t);
  }

  /** So a type is listed exactly when it is another type and a subclass, for every argument but the empty name. */
  lemma ListedIffProperSubclass(o: Ontology, p: string)
    requires WellFormed(o) && Acyclic(o)
    ensures (forall t :: t in Below(o, p, |o.types|) <==> t != p && IsA(o, t, p)) <==> p != ""
  {
    if p == "" {
      var t := o.types[0].name;
      assert Declared(o, t);
      ListedIffUnder(o, t, p);
      NothingIsNameless(o, t);
      assert !(t in Below(o, p, |o.types|) <==> t != p && IsA(o, t, p));
    } else {
      forall t ensures t in Below(o, p, |o.types|) <==> t != p && IsA(o, t, p) {
        ListedIffUnder(o, t, p);
      }
    }
  }

  lemma {:induction false} NothingIsNameless(o: Ontology, t: string)
    requires Treelike(o) && t != ""
    ensures !IsA(o, t, "")
    decreases Height(o, t)
  {
    var i := Find(o.types, t);
    if i >= 0 && o.types[i].subClassOf != "" {
      HeightFalls(o, i);
      NothingIsNameless(o, o.types[i].subClassOf);
    }
  }

  // ---------------------------------------------------------------------------
  // When the searches end, on any ontology: their steps, without the condition their recursion needs.

  datatype Climbing = At(name: string) | Answer(found: bool)

  function ClimbStep(o: Ontology, name: string, parent: string): Climbing {
    if name == parent then Answer(true)
    else
      var i := Find(o.types, name);
      if i < 0 || o.types[i].subClassOf == "" then Answer(false) else At(o.types[i].subClassOf)
  }

  /** Where the upward search stands after `n` calls. */
  function Climb(o: Ontology, child: string, parent: string, n: nat): Climbing {
    if n == 0 then At(child)
    else
      var c := Climb(o, child, parent, n - 1);
      if c.At? then ClimbStep(o, c.name, parent) else c
  }

  ghost predicate UpwardEnds(o: Ontology, child: string, parent: string) {
    exists n: nat :: Climb(o, child, parent, n).Answer?
  }

  lemma {:induction false} ClimbFromFirst(o: Ontology, child: string, parent: string, n: nat)
    ensures var c := ClimbStep(o, child, parent);
      Climb(o, child, parent, n + 1) == if c.At? then Climb(o, c.name, parent, n) else c
  {
    if n == 0 {
      assert Climb(o, child, parent, 0) == At(child);
    } else {
      ClimbFromFirst(o, child, parent, n - 1);
    }
  }

  /** Without a cycle the steps end with the answer of the search. */
  lemma {:induction false} ClimbAnswers(o: Ontology, child: string, parent: string) returns (n: nat)
    requires Treelike(o)
    ensures Climb(o, child, parent, n) == Answer(IsA(o, child, parent))
    decreases Height(o, child)
  {
    var c := ClimbStep(o, child, parent);
    if c.Answer? {
      ClimbFromFirst(o, child, parent, 0);
      n := 1;
    } else {
      HeightFalls(o, Find(o.types, child));
      var m := ClimbAnswers(o, c.name, parent);
      ClimbFromFirst(o, child, parent, m);
      n := m + 1;
    }
  }

  /** On a cycle the upward search goes round for ever, unless it looks for a type of the cycle. */
  lemma {:induction false} ClimbGoesRound(o: Ontology, path: seq<string>, parent: string, n: nat) returns (k: nat)
    requires TypesDistinct(o.types) && Cycle(o, path) && parent !in path
    ensures k < |path| - 1 && Climb(o, path[0], parent, n) == At(path[k])
  {
    if n == 0 {
      k := 0;
    } else {
      var j := ClimbGoesRound(o, path, parent, n - 1);
      assert Link(o, path[j], path[j + 1]);
      LinkIsFound(o, path[j], path[j + 1]);
      k := if j + 1 == |path| - 1 then 0 else j + 1;
    }
  }

  /** The downward search from `p` returns within `n` nested calls. */
  ghost predicate Within(o: Ontology, p: string, n: nat)
    decreases n
  {
    forall i: nat :: ChildAt(o, i, p) ==> n > 0 && Within(o, o.types[i].name, n - 1)
  }

  ghost predicate DownwardEnds(o: Ontology, p: string) {
    exists n: nat :: Within(o, p, n)
  }

  lemma {:induction false} WithinRoom(o: Ontology, p: string, n: nat)
    requires Treelike(o) && n >= Room(o, p)
    ensures Within(o, p, n)
    decreases n
  {
    forall i: nat | ChildAt(o, i, p) ensures n > 0 && Within(o, o.types[i].name, n - 1) {
      HeightFalls(o, i);
      WithinRoom(o, o.types[i].name, n - 1);
    }
  }

  /** On a cycle the downward search nests without bound. */
  lemma {:induction false} NestsForEver(o: Ontology, path: seq<string>, k: nat, n: nat)
    requires Cycle(o, path) && k < |path|
    ensures !Within(o, path[k], n)
    decreases n
  {
    var j := if k == 0 then |path| - 2 else k - 1;
    assert Link(o, path[j], path[j + 1]) && path[j + 1] == path[k];
    var i :| 0 <= i < |o.types| && o.types[i].name == path[j] && o.types[i].subClassOf == path[k];
    assert ChildAt(o, i, path[k]);
    if n == 0 {
    } else {
      NestsForEver(o, path, j, n - 1);
    }
  }

  /** The empty name lies on no cycle. */
  lemma CycleIsNamed(o: Ontology, path: seq<string>)
    requires TypesDistinct(o.types) && Cycle(o, path)
    ensures "" !in path
  {
    forall k | 0 <= k < |path| ensures path[k] != "" {
      var j := if k == |path| - 1 then 0 else k;
      assert Link(o, path[j], path[j + 1]);
      LinkDeclares(o, path[j], path[j + 1]);
    }
  }

  /** The upward search ends for all arguments exactly when there is no cycle. */
  lemma UpwardEndsIffAcyclic(o: Ontology)
    requires WellFormed(o)
    ensures (forall child, parent :: UpwardEnds(o, child, parent)) <==> Acyclic(o)
  {
    if Acyclic(o) {
      forall child, parent ensures UpwardEnds(o, child, parent) {
        var n := ClimbAnswers(o, child, parent);
      }
    } else {
      var path :| Cycle(o, path);
      CycleIsNamed(o, path);
      forall n: nat ensures Climb(o, path[0], "", n).At? {
        var k := ClimbGoesRound(o, path, "", n);
      }
      assert !UpwardEnds(o, path[0], "");
    }
  }

  /** And so does the downward search. */
  lemma DownwardEndsIffAcyclic(o: Ontology)
    requires WellFormed(o)
    ensures (forall p :: DownwardEnds(o, p)) <==> Acyclic(o)
  {
    if Acyclic(o) {
      forall p ensures DownwardEnds(o, p) {
        WithinRoom(o, p, Room(o, p));
      }
    } else {
      var path :| Cycle(o, path);
      forall n: nat ensures !Within(o, path[0], n) {
        NestsForEver(o, path, 0, n);
      }
      assert !DownwardEnds(o, path[0]);
    }
  }

  /** Exactly: a search up from a type of a cycle ends if and only if it looks for a type of the cycle. */
  lemma OnACycleUpwardEndsIff(o: Ontology, path: seq<string>, parent: string)
    requires WellFormed(o) && Cycle(o, path)
    ensures UpwardEnds(o, path[0], parent) <==> parent in path
  {
    if parent in path {
      var k :| 0 <= k < |path| && path[k] == parent;
      FindsOnCycle(o, path, k, k);
    } else {
      forall n: nat ensures Climb(o, path[0], parent, n).At? {
        var k := ClimbGoesRound(o, path, parent, n);
      }
    }
  }

  /** After `n` links up the path the search stands there, or has found its type before. */
  lemma {:induction false} FindsOnCycle(o: Ontology, path: seq<string>, k: nat, n: nat)
    requires TypesDistinct(o.types) && Chain(o, path) && n <= k < |path|
    ensures Climb(o, path[0], path[k], n) == At(path[n]) || Climb(o, path[0], path[k], n) == Answer(true)
    ensures n == k ==> Climb(o, path[0], path[k], k + 1) == Answer(true)
  {
    if n == 0 {
    } else {
      FindsOnCycle(o, path, k, n - 1);
      assert Link(o, path[n - 1], path[n - 1 + 1]);
      LinkIsFound(o, path[n - 1], path[n]);
    }
  }
}
