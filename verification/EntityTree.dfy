/** The cached tree of an entity's models: built once by one visitor, refreshed in place by another. */
module EntityTree {

  import opened Common
  import opened EntityGraph

  datatype Tree = Tree(staticModel: StaticModel, dynamicModel: DynamicModel, children: map<Key, Tree>)

  /** What a map makes of a key that it is asked for and does not have. */
  const Empty := Tree(StaticModel([], [], [], map[], []), NoDynamic, map[])
  const NoDynamic := DynamicModel(false, [], [], [])

  /** A tree of a node alone. Locales, strings and audio maps have no dynamic model. */
  function Leaf(m: Model): Tree {
    Tree(m.staticModel, if m.kind.HasDynamic() then m.dynamicModel else NoDynamic, map[])
  }

  // ---------------------------------------------------------------- What the tree stands for

  /** The tree of a graph, without its redundant streams. */
  function TreeOf(n: Node): Tree
    decreases n, |n.children| + 1
  {
    Leaf(n.model).(children := Trees(n, |n.children|))
  }

  function Trees(n: Node, k: nat): map<Key, Tree>
    requires k <= |n.children|
    decreases n, k
  {
    if k == 0 then map[]
    else
      var c := n.children[k - 1];
      if c.model.kind.IsVirtual() then Trees(n, k - 1) else Trees(n, k - 1)[KeyOf(c) := TreeOf(c)]
  }

  // ---------------------------------------------------------------- The visitors

  datatype Visitor = Full | Dynamic

  predicate Ignores(visitor: Visitor, v: Visit) {
    v.isVirtual || v.model.kind.IsVirtual() || (visitor == Dynamic && !v.model.kind.HasDynamic())
  }

  /** The full visitor puts a new node in the place of what is there; the dynamic one updates what is there. Both
      create what the path lacks. */
  function WriteAt(visitor: Visitor, t: Tree, path: seq<Key>, m: Model): Tree
    decreases path
  {
    if path == [] then (if visitor == Full then Leaf(m) else t.(dynamicModel := m.dynamicModel))
    else t.(children := t.children[path[0] := WriteAt(visitor, Below(t, path[0]), path[1..], m)])
  }

  function Below(t: Tree, key: Key): Tree {
    if key in t.children then t.children[key] else Empty
  }

  function VisitOne(visitor: Visitor, t: Tree, v: Visit): Tree {
    if Ignores(visitor, v) then t else WriteAt(visitor, t, v.path, v.model)
  }

  function VisitAll(visitor: Visitor, t: Tree, vs: seq<Visit>): Tree {
    if vs == [] then t else VisitOne(visitor, VisitAll(visitor, t, vs[..|vs| - 1]), vs[|vs| - 1])
  }

  class ControlledEntity {
    var entityTree: Option<Tree>
    var gotFatalEnumerateError: bool
    const isAemSupported: bool

    constructor (isAemSupported: bool)
      ensures entityTree == None && !gotFatalEnumerateError && this.isAemSupported == isAemSupported
    {
      this.isAemSupported := isAemSupported;
      entityTree, gotFatalEnumerateError := None, false;
    }

    /** The tree is built on the first call and refreshed on later ones; an entity that cannot be visited keeps what
        it has. */
    method GetEntityModelTree(entity: Node) returns (tree: Tree)
      requires IsEntity(entity)
      modifies this`entityTree
      ensures gotFatalEnumerateError || !isAemSupported ==>
                entityTree == old(entityTree) && tree == if entityTree.Some? then entityTree.value else Empty
      ensures !gotFatalEnumerateError && isAemSupported ==>
                && entityTree == Some(tree)
                && tree == if old(entityTree) == None then TreeOf(entity) else Refreshed(old(entityTree).value, entity)
    {
      if !gotFatalEnumerateError && isAemSupported {
        var visitor := if entityTree.None? then Full else Dynamic;
        var visits := Accept(entity, true);
        ghost var before := if entityTree.Some? then entityTree.value else Empty;
        assert visits[..0] == [] && VisitAll(visitor, before, []) == before;
        FirstVisit(entity);
        hide *;
        for i := 0 to |visits|
          invariant entityTree.None? ==> i == 0 && visitor == Full
          invariant entityTree.Some? ==> entityTree.value == VisitAll(visitor, before, visits[..i])
          invariant entityTree.None? ==> before == VisitAll(visitor, before, visits[..i])
        {
          VisitAllNext(visitor, before, visits, i);
          Handle(visitor, visits[i]);
        }
        assert visits[..|visits|] == visits;
        FullBuildsTree(before, entity);
        RefreshedIs(before, entity);
      }
      tree := if entityTree.Some? then entityTree.value else Empty;
    }

    method Handle(visitor: Visitor, v: Visit)
      requires entityTree.Some? || (visitor == Full && v == Visit([], v.model, false) && !v.model.kind.IsVirtual())
      modifies this`entityTree
      ensures entityTree
           == Some(VisitOne(visitor, if old(entityTree).Some? then old(entityTree).value else Empty, v))
    {
      if !Ignores(visitor, v) {
        entityTree := Some(if v.path == [] && visitor == Full then Leaf(v.model)
                           else WriteAt(visitor, entityTree.value, v.path, v.model));
      }
    }
  }

  function Refreshed(t: Tree, n: Node): Tree {
    VisitAll(Dynamic, t, Visits(n, true))
  }

  lemma FirstVisit(n: Node)
    requires IsEntity(n)
    ensures |Visits(n, true)| > 0 && Visits(n, true)[0] == Visit([], n.model, false)
    ensures !n.model.kind.IsVirtual() && IsGraph(n)
  {
  }

  lemma RefreshedIs(t: Tree, n: Node)
    ensures Refreshed(t, n) == VisitAll(Dynamic, t, Visits(n, true))
  {
  }

  lemma VisitAllNext(visitor: Visitor, t: Tree, vs: seq<Visit>, i: nat)
    requires i < |vs|
    ensures VisitAll(visitor, t, vs[..i + 1]) == VisitOne(visitor, VisitAll(visitor, t, vs[..i]), vs[i])
  {
    assert vs[..i + 1][..i] == vs[..i];
    hide VisitOne;
  }

  // ---------------------------------------------------------------- Visiting below a key

  lemma {:induction false} VisitAllConcat(visitor: Visitor, t: Tree, vs: seq<Visit>, ws: seq<Visit>)
    ensures VisitAll(visitor, t, vs + ws) == VisitAll(visitor, VisitAll(visitor, t, vs), ws)
  {
    if ws == [] {
      assert vs + ws == vs;
    } else {
      var n := |ws| - 1;
      VisitAllConcat(visitor, t, vs, ws[..n]);
      assert (vs + ws)[..|vs| + n] == vs + ws[..n];
      hide VisitOne;
    }
  }

  /** Visits below a key change what is at the key, and nothing else. */
  lemma {:induction false} VisitAllBelow(visitor: Visitor, t: Tree, key: Key, vs: seq<Visit>)
    requires key in t.children
    ensures VisitAll(visitor, t, Prefixed(key, vs))
         == t.(children := t.children[key := VisitAll(visitor, t.children[key], vs)])
  {
    if vs == [] {
      assert t.children[key := t.children[key]] == t.children;
    } else {
      var n := |vs| - 1;
      VisitAllBelow(visitor, t, key, vs[..n]);
      assert Prefixed(key, vs)[..n] == Prefixed(key, vs[..n]);
      var before := VisitAll(visitor, t, Prefixed(key, vs[..n]));
      VisitOneBelow(visitor, before, key, vs[n]);
      hide VisitOne;
    }
  }

  lemma VisitOneBelow(visitor: Visitor, t: Tree, key: Key, v: Visit)
    requires key in t.children
    ensures VisitOne(visitor, t, v.(path := [key] + v.path))
         == t.(children := t.children[key := VisitOne(visitor, t.children[key], v)])
  {
    assert ([key] + v.path)[1..] == v.path;
    assert t.children[key := t.children[key]] == t.children;
  }

  lemma {:induction false} IgnoredVisits(visitor: Visitor, t: Tree, vs: seq<Visit>)
    requires forall i :: 0 <= i < |vs| ==> Ignores(visitor, vs[i])
    ensures VisitAll(visitor, t, vs) == t
  {
    if vs != [] {
      IgnoredVisits(visitor, t, vs[..|vs| - 1]);
    }
  }

  lemma {:induction false} ReferencesAreVirtual(parent: Node, kind: Kind, references: seq<Index>, k: nat)
    requires k <= |references|
    ensures forall i :: 0 <= i < |ReferenceVisits(parent, kind, references, k)| ==>
              ReferenceVisits(parent, kind, references, k)[i].isVirtual
  {
    if k > 0 {
      ReferencesAreVirtual(parent, kind, references, k - 1);
      assert forall v :: v in ReferenceVisit(parent, Key(kind, references[k - 1])) ==> v.isVirtual;
      hide ReferenceVisit;
    }
  }

  lemma ReferencesAreIgnored(visitor: Visitor, t: Tree, parent: Node, c: Node)
    ensures VisitAll(visitor, t, Prefixed(KeyOf(c), References(parent, c))) == t
  {
    var referred := Referred(c.model.kind);
    if referred.Some? {
      var references := c.model.staticModel.references;
      ReferencesAreVirtual(parent, referred.value, references, |references|);
    }
    IgnoredVisits(visitor, t, Prefixed(KeyOf(c), References(parent, c)));
  }

  lemma VisitAllStep(visitor: Visitor, t: Tree, n: Node, k: nat)
    requires k < |n.children|
    ensures VisitAll(visitor, t, ChildVisits(n, k + 1, true))
         == VisitAll(visitor, VisitAll(visitor, t, ChildVisits(n, k, true)),
                     Prefixed(KeyOf(n.children[k]), Visits(n.children[k], true)))
  {
    var c := n.children[k];
    var own, met := Prefixed(KeyOf(c), Visits(c, true)), Prefixed(KeyOf(c), References(n, c));
    ChildVisitsStep(n, k, true);
    assert VisitsOfChild(n, k, true) == own + met;
    hide *;
    VisitAllConcat(visitor, t, ChildVisits(n, k, true), own + met);
    VisitAllConcat(visitor, VisitAll(visitor, t, ChildVisits(n, k, true)), own, met);
    ReferencesAreIgnored(visitor, VisitAll(visitor, VisitAll(visitor, t, ChildVisits(n, k, true)), own), n, c);
  }

  lemma OwnVisitFirst(visitor: Visitor, t: Tree, n: Node)
    ensures VisitAll(visitor, t, Visits(n, true))
         == VisitAll(visitor, VisitOne(visitor, t, Visit([], n.model, false)), ChildVisits(n, |n.children|, true))
  {
    var own := [Visit([], n.model, false)];
    assert own[..0] == [] && VisitAll(visitor, t, []) == t;
    assert VisitAll(visitor, t, own) == VisitOne(visitor, t, own[0]);
    assert Visits(n, true) == own + ChildVisits(n, |n.children|, true);
    hide ChildVisits, VisitOne, VisitAll, Visits;
    VisitAllConcat(visitor, t, own, ChildVisits(n, |n.children|, true));
  }

  /** The visits of a redundant stream leave no trace in the tree. */
  lemma VirtualVisits(visitor: Visitor, t: Tree, n: Node)
    requires IsGraph(n) && n.model.kind.IsVirtual()
    ensures VisitAll(visitor, t, Prefixed(KeyOf(n), Visits(n, true))) == t
  {
    assert ChildKinds(n.model.kind) == [];
    if n.children != [] {
      ChildKindAllowed(n, 0);
      assert false;
    }
    assert Visits(n, true) == [Visit([], n.model, false)];
    IgnoredVisits(visitor, t, Prefixed(KeyOf(n), Visits(n, true)));
  }

  // ---------------------------------------------------------------- The full visitor

  /** Visiting a graph with the full visitor gives its tree, whatever there was. */
  lemma {:induction false} FullBuildsTree(t: Tree, n: Node)
    requires IsGraph(n) && !n.model.kind.IsVirtual()
    ensures VisitAll(Full, t, Visits(n, true)) == TreeOf(n)
    decreases n, |n.children| + 1
  {
    OwnVisitFirst(Full, t, n);
    assert VisitOne(Full, t, Visit([], n.model, false)) == Leaf(n.model);
    FullBuildsChildren(n, |n.children|);
  }

  lemma {:induction false} FullBuildsChildren(n: Node, k: nat)
    requires IsGraph(n) && k <= |n.children|
    ensures VisitAll(Full, Leaf(n.model), ChildVisits(n, k, true)) == Leaf(n.model).(children := Trees(n, k))
    decreases n, k
  {
    hide *;
    if k == 0 {
      NoneVisited(Full, Leaf(n.model), n);
    } else {
      FullBuildsChildren(n, k - 1);
      FullBuildsChild(n, k - 1);
      VisitAllStep(Full, Leaf(n.model), n, k - 1);
    }
  }

  lemma NoneVisited(visitor: Visitor, t: Tree, n: Node)
    ensures VisitAll(visitor, t, ChildVisits(n, 0, true)) == t
    ensures Trees(n, 0) == map[] && Leaf(n.model).(children := map[]) == Leaf(n.model)
  {
  }

  lemma {:induction false} FullBuildsChild(n: Node, k: nat)
    requires IsGraph(n) && k < |n.children|
    ensures VisitAll(Full, Leaf(n.model).(children := Trees(n, k)),
                     Prefixed(KeyOf(n.children[k]), Visits(n.children[k], true)))
         == Leaf(n.model).(children := Trees(n, k + 1))
    decreases n, 0
  {
    var c := n.children[k];
    var before := Leaf(n.model).(children := Trees(n, k));
    assert IsGraph(c);
    TreesStep(n, k);
    hide *;
    if c.model.kind.IsVirtual() {
      VirtualVisits(Full, before, c);
    } else {
      FullBuildsTree(Empty, c);
      FullVisitsBelow(before, c);
    }
  }

  lemma TreesStep(n: Node, k: nat)
    requires k < |n.children|
    ensures var c := n.children[k];
            Trees(n, k + 1) == if c.model.kind.IsVirtual() then Trees(n, k) else Trees(n, k)[KeyOf(c) := TreeOf(c)]
  {
    hide TreeOf;
  }

  lemma VisitAllOfOne(visitor: Visitor, t: Tree, v: Visit)
    ensures VisitAll(visitor, t, [v]) == VisitOne(visitor, t, v)
  {
    assert [v][..0] == [];
  }

  lemma FullVisitsBelow(t: Tree, c: Node)
    requires !c.model.kind.IsVirtual() && VisitAll(Full, Empty, Visits(c, true)) == TreeOf(c)
    ensures VisitAll(Full, t, Prefixed(KeyOf(c), Visits(c, true))) == t.(children := t.children[KeyOf(c) := TreeOf(c)])
  {
    hide *;
    var key, leaf := KeyOf(c), Leaf(c.model);
    var v, rest := Visit([], c.model, false), ChildVisits(c, |c.children|, true);
    var w := Visit([key], c.model, false);
    var placed := t.(children := t.children[key := leaf]);
    VisitsOf(c);
    PrefixedCons(key, v, rest);
    LeafBelow(t, c);
    VisitAllOfOne(Full, t, w);
    VisitAllConcat(Full, t, [w], Prefixed(key, rest));
    VisitAllBelow(Full, placed, key, rest);
    OwnVisitFirst(Full, Empty, c);
    OwnLeaf(Empty, c);
    assert placed.children[key] == leaf;
    assert placed.children[key := TreeOf(c)] == t.children[key := TreeOf(c)];
  }

  lemma OwnLeaf(t: Tree, c: Node)
    requires !c.model.kind.IsVirtual()
    ensures VisitOne(Full, t, Visit([], c.model, false)) == Leaf(c.model)
  {
  }

  lemma PrefixedCons(key: Key, v: Visit, rest: seq<Visit>)
    ensures Prefixed(key, [v] + rest) == [v.(path := [key] + v.path)] + Prefixed(key, rest)
    ensures v.path == [] ==> Prefixed(key, [v] + rest) == [v.(path := [key])] + Prefixed(key, rest)
  {
    assert v.path == [] ==> [key] + v.path == [key];
  }

  lemma LeafBelow(t: Tree, c: Node)
    requires !c.model.kind.IsVirtual()
    ensures VisitOne(Full, t, Visit([KeyOf(c)], c.model, false))
         == t.(children := t.children[KeyOf(c) := Leaf(c.model)])
  {
    var path := [KeyOf(c)];
    assert path[1..] == [];
    assert WriteAt(Full, Below(t, path[0]), [], c.model) == Leaf(c.model);
  }

  // ---------------------------------------------------------------- The dynamic visitor

  lemma {:induction false} TreesAt(n: Node, k: nat, i: nat)
    requires IsGraph(n) && i < k <= |n.children| && !n.children[i].model.kind.IsVirtual()
    ensures KeyOf(n.children[i]) in Trees(n, k) && Trees(n, k)[KeyOf(n.children[i])] == TreeOf(n.children[i])
  {
    hide *;
    TreesStep(n, k - 1);
    if i < k - 1 {
      TreesAt(n, k - 1, i);
      KeysAreDistinct(n, i, k - 1);
    }
  }

  function At(t: Tree, key: Key): Option<Tree> {
    if key in t.children then Some(t.children[key]) else None
  }

  lemma EqualIff(t: Tree, u: Tree)
    ensures t == u <==>
            t.staticModel == u.staticModel && t.dynamicModel == u.dynamicModel && forall key :: At(t, key) == At(u, key)
  {
    if forall key :: At(t, key) == At(u, key) {
      forall key ensures key in t.children <==> key in u.children {
        assert At(t, key) == At(u, key);
      }
      forall key | key in t.children ensures t.children[key] == u.children[key] {
        assert At(t, key) == At(u, key);
      }
      assert t.children == u.children;
    }
  }

  /** The key of a child that is no redundant stream. */
  ghost predicate IsChild(n: Node, k: nat, key: Key)
    requires k <= |n.children|
  {
    exists i :: 0 <= i < k && KeyOf(n.children[i]) == key && !n.children[i].model.kind.IsVirtual()
  }

  lemma {:induction false} TreesHave(n: Node, k: nat, key: Key)
    requires k <= |n.children|
    ensures key in Trees(n, k) <==> IsChild(n, k, key)
  {
    if k == 0 {
      assert Trees(n, 0) == map[];
    } else {
      TreesHave(n, k - 1, key);
      TreesStep(n, k - 1);
      IsChildStep(n, k - 1, key);
      hide *;
    }
  }

  lemma IsChildStep(n: Node, k: nat, key: Key)
    requires k < |n.children|
    ensures IsChild(n, k + 1, key)
            <==> IsChild(n, k, key) || (KeyOf(n.children[k]) == key && !n.children[k].model.kind.IsVirtual())
  {
  }

  lemma TreeOfAt(n: Node, i: nat)
    requires IsGraph(n) && i < |n.children| && !n.children[i].model.kind.IsVirtual()
    ensures At(TreeOf(n), KeyOf(n.children[i])) == Some(TreeOf(n.children[i]))
  {
    TreesAt(n, |n.children|, i);
    TreeOfIs(n);
    hide TreeOf, Trees, IsGraph;
  }

  lemma TreeOfIs(n: Node)
    ensures TreeOf(n) == Leaf(n.model).(children := Trees(n, |n.children|))
  {
    hide Trees;
  }

  lemma TreeOfNowhereElse(n: Node, key: Key)
    requires !IsChild(n, |n.children|, key)
    ensures At(TreeOf(n), key) == None
  {
    TreesHave(n, |n.children|, key);
    TreeOfIs(n);
    hide TreeOf, Trees, IsChild;
  }

  // ---------------------------------------------------------------- What a refresh does to each child

  ghost predicate Silent(vs: seq<Visit>) {
    forall i :: 0 <= i < |vs| ==> Ignores(Dynamic, vs[i])
  }

  lemma SilentParts(key: Key, vs: seq<Visit>, ws: seq<Visit>)
    ensures Silent(vs) ==> Silent(Prefixed(key, vs))
    ensures Silent(vs) && Silent(ws) ==> Silent(vs + ws)
    ensures Silent([])
  {
  }

  /** Where there is no dynamic model there is none below. */
  lemma {:induction false} SilentVisits(n: Node)
    requires IsGraph(n) && !n.model.kind.HasDynamic()
    ensures Silent(Visits(n, true))
    decreases n, |n.children| + 1
  {
    assert Silent([Visit([], n.model, false)]);
    hide *;
    SilentChildren(n, |n.children|);
    VisitsOf(n);
    SilentParts(KeyOf(n), [Visit([], n.model, false)], ChildVisits(n, |n.children|, true));
  }

  lemma {:induction false} SilentChildren(n: Node, k: nat)
    requires IsGraph(n) && !n.model.kind.HasDynamic() && k <= |n.children|
    ensures Silent(ChildVisits(n, k, true))
    decreases n, k
  {
    hide *;
    if k == 0 {
      NoVisits(n);
    } else {
      var c := n.children[k - 1];
      var own := Prefixed(KeyOf(c), Visits(c, true));
      SilentChildren(n, k - 1);
      SilentKind(n, k - 1);
      SilentVisits(c);
      ChildVisitsStep(n, k - 1, true);
      OwnVisits(n, k - 1);
      SilentParts(KeyOf(c), Visits(c, true), []);
      SilentParts(KeyOf(c), ChildVisits(n, k - 1, true), own);
    }
  }

  lemma NoVisits(n: Node)
    ensures Silent(ChildVisits(n, 0, true))
  {
  }

  lemma SilentKind(n: Node, k: nat)
    requires IsGraph(n) && !n.model.kind.HasDynamic() && k < |n.children|
    ensures IsGraph(n.children[k]) && n.children[k].model.kind == Strings && !n.children[k].model.kind.HasDynamic()
  {
    ChildKindAllowed(n, k);
  }

  lemma OwnVisits(n: Node, k: nat)
    requires k < |n.children| && n.children[k].model.kind == Strings
    ensures VisitsOfChild(n, k, true) == Prefixed(KeyOf(n.children[k]), Visits(n.children[k], true))
  {
    assert References(n, n.children[k]) == [];
    hide Visits;
  }

  /** What a refresh leaves at the key of a child: what was there refreshed, or else a new tree of it, unless it has
      no dynamic model to write. */
  function Subtree(t: Tree, c: Node): Option<Tree> {
    if KeyOf(c) in t.children then Some(Refreshed(t.children[KeyOf(c)], c))
    else if c.model.kind.HasDynamic() then Some(Refreshed(Empty, c))
    else None
  }

  function Put(t: Tree, key: Key, sub: Option<Tree>): Tree {
    if sub.None? then t else t.(children := t.children[key := sub.value])
  }

  lemma SilentChild(t: Tree, c: Node)
    requires IsGraph(c) && !c.model.kind.HasDynamic()
    ensures VisitAll(Dynamic, t, Prefixed(KeyOf(c), Visits(c, true))) == t
  {
    SilentVisits(c);
    SilentParts(KeyOf(c), Visits(c, true), []);
    hide Visits, VisitAll, Prefixed;
    IgnoredVisits(Dynamic, t, Prefixed(KeyOf(c), Visits(c, true)));
  }

  lemma NewChild(t: Tree, c: Node)
    requires c.model.kind.HasDynamic() && KeyOf(c) !in t.children
    ensures VisitAll(Dynamic, t, Prefixed(KeyOf(c), Visits(c, true))) == Put(t, KeyOf(c), Some(Refreshed(Empty, c)))
  {
    hide *;
    var key := KeyOf(c);
    var v, rest := Visit([], c.model, false), ChildVisits(c, |c.children|, true);
    var w := Visit([key], c.model, false);
    var sub := VisitOne(Dynamic, Empty, v);
    var placed := Put(t, key, Some(sub));
    PutIs(t, key, sub);
    VisitsOf(c);
    PrefixedCons(key, v, rest);
    NewBelow(t, c);
    VisitAllOfOne(Dynamic, t, w);
    VisitAllConcat(Dynamic, t, [w], Prefixed(key, rest));
    VisitAllBelow(Dynamic, placed, key, rest);
    OwnVisitFirst(Dynamic, Empty, c);
    RefreshedIs(Empty, c);
    PutIs(t, key, Refreshed(Empty, c));
    assert placed.children[key := Refreshed(Empty, c)] == t.children[key := Refreshed(Empty, c)];
  }

  lemma PutIs(t: Tree, key: Key, sub: Tree)
    ensures Put(t, key, Some(sub)) == t.(children := t.children[key := sub])
  {
  }

  lemma NewBelow(t: Tree, c: Node)
    requires c.model.kind.HasDynamic() && KeyOf(c) !in t.children
    ensures VisitOne(Dynamic, t, Visit([KeyOf(c)], c.model, false))
         == Put(t, KeyOf(c), Some(VisitOne(Dynamic, Empty, Visit([], c.model, false))))
  {
    var path := [KeyOf(c)];
    assert path[1..] == [] && Below(t, path[0]) == Empty;
    assert WriteAt(Dynamic, Empty, [], c.model) == Empty.(dynamicModel := c.model.dynamicModel);
  }

  lemma OldChild(t: Tree, c: Node)
    requires KeyOf(c) in t.children
    ensures VisitAll(Dynamic, t, Prefixed(KeyOf(c), Visits(c, true)))
         == Put(t, KeyOf(c), Some(Refreshed(t.children[KeyOf(c)], c)))
  {
    hide *;
    VisitAllBelow(Dynamic, t, KeyOf(c), Visits(c, true));
    RefreshedIs(t.children[KeyOf(c)], c);
    PutIs(t, KeyOf(c), Refreshed(t.children[KeyOf(c)], c));
  }

  lemma RefreshedChild(t: Tree, c: Node)
    requires IsGraph(c) && !c.model.kind.IsVirtual()
    ensures VisitAll(Dynamic, t, Prefixed(KeyOf(c), Visits(c, true))) == Put(t, KeyOf(c), Subtree(t, c))
  {
    hide VisitAll, Visits, Refreshed, IsGraph, Prefixed;
    if KeyOf(c) in t.children {
      OldChild(t, c);
    } else if c.model.kind.HasDynamic() {
      NewChild(t, c);
    } else {
      SilentChild(t, c);
    }
  }

  /** A tree that the refresh of the first k children makes of t. */
  ghost predicate ChildrenRefreshed(t: Tree, n: Node, k: nat, r: Tree)
    requires k <= |n.children|
  {
    && r.staticModel == t.staticModel && r.dynamicModel == t.dynamicModel
    && SubtreesAt(t, n, k, r) && OthersKept(t, n, k, r)
  }

  ghost predicate SubtreesAt(t: Tree, n: Node, k: nat, r: Tree)
    requires k <= |n.children|
  {
    forall i :: 0 <= i < k && !n.children[i].model.kind.IsVirtual() ==>
      At(r, KeyOf(n.children[i])) == Subtree(t, n.children[i])
  }

  ghost predicate OthersKept(t: Tree, n: Node, k: nat, r: Tree)
    requires k <= |n.children|
  {
    forall key :: !IsChild(n, k, key) ==> At(r, key) == At(t, key)
  }

  lemma {:induction false} RefreshedChildren(t: Tree, n: Node, k: nat)
    requires IsGraph(n) && k <= |n.children|
    ensures ChildrenRefreshed(t, n, k, VisitAll(Dynamic, t, ChildVisits(n, k, true)))
  {
    hide *;
    if k == 0 {
      NoneVisited(Dynamic, t, n);
      NoneRefreshed(t, n);
    } else {
      var before := VisitAll(Dynamic, t, ChildVisits(n, k - 1, true));
      var c := n.children[k - 1];
      RefreshedChildren(t, n, k - 1);
      ChildIsGraph(n, k - 1);
      VisitAllStep(Dynamic, t, n, k - 1);
      if c.model.kind.IsVirtual() {
        VirtualVisits(Dynamic, before, c);
        OneMoreVirtual(t, n, k - 1, before);
      } else {
        RefreshedChild(before, c);
        OneMoreChild(t, n, k - 1, before);
      }
    }
  }

  lemma NoneRefreshed(t: Tree, n: Node)
    ensures ChildrenRefreshed(t, n, 0, t)
  {
    hide Subtree;
  }

  lemma OneMoreVirtual(t: Tree, n: Node, k: nat, r: Tree)
    requires k < |n.children| && n.children[k].model.kind.IsVirtual() && ChildrenRefreshed(t, n, k, r)
    ensures ChildrenRefreshed(t, n, k + 1, r)
  {
    forall key ensures IsChild(n, k + 1, key) <==> IsChild(n, k, key) {
      IsChildStep(n, k, key);
    }
    hide IsChild, Subtree, At;
  }

  ghost predicate FirstOfKey(n: Node, k: nat)
    requires k < |n.children|
  {
    forall i :: 0 <= i < k ==> KeyOf(n.children[i]) != KeyOf(n.children[k])
  }

  lemma NotYetChild(n: Node, k: nat)
    requires IsGraph(n) && k < |n.children|
    ensures FirstOfKey(n, k) && !IsChild(n, k, KeyOf(n.children[k]))
  {
    forall i | 0 <= i < k ensures KeyOf(n.children[i]) != KeyOf(n.children[k]) {
      KeysAreDistinct(n, i, k);
    }
    hide IsGraph;
  }

  lemma OneMoreChild(t: Tree, n: Node, k: nat, r: Tree)
    requires IsGraph(n) && k < |n.children| && !n.children[k].model.kind.IsVirtual() && ChildrenRefreshed(t, n, k, r)
    ensures ChildrenRefreshed(t, n, k + 1, Put(r, KeyOf(n.children[k]), Subtree(r, n.children[k])))
  {
    var c := n.children[k];
    var next := Put(r, KeyOf(c), Subtree(r, c));
    NotYetChild(n, k);
    SameSubtree(t, r, c);
    PutAt(r, c);
    hide IsGraph, Subtree, Put, KeyOf, IsChild, At, SubtreesAt;
    OneMoreSubtree(t, n, k, r, next);
    OthersStillKept(t, n, k, r, next);
  }

  /** next is r but for one key. */
  ghost predicate DiffersAt(r: Tree, next: Tree, key: Key) {
    forall other :: other != key ==> At(next, other) == At(r, other)
  }

  lemma OneMoreSubtree(t: Tree, n: Node, k: nat, r: Tree, next: Tree)
    requires k < |n.children| && SubtreesAt(t, n, k, r) && FirstOfKey(n, k)
    requires DiffersAt(r, next, KeyOf(n.children[k])) && At(next, KeyOf(n.children[k])) == Subtree(t, n.children[k])
    ensures SubtreesAt(t, n, k + 1, next)
  {
    hide Subtree, KeyOf, At;
  }

  lemma OthersStillKept(t: Tree, n: Node, k: nat, r: Tree, next: Tree)
    requires k < |n.children| && OthersKept(t, n, k, r) && DiffersAt(r, next, KeyOf(n.children[k]))
    requires !n.children[k].model.kind.IsVirtual()
    ensures OthersKept(t, n, k + 1, next)
  {
    forall key | !IsChild(n, k + 1, key) ensures At(next, key) == At(t, key) {
      IsChildStep(n, k, key);
    }
  }

  lemma SameSubtree(t: Tree, r: Tree, c: Node)
    requires At(t, KeyOf(c)) == At(r, KeyOf(c))
    ensures Subtree(t, c) == Subtree(r, c)
  {
    hide Refreshed;
  }

  lemma PutAt(r: Tree, c: Node)
    ensures var next := Put(r, KeyOf(c), Subtree(r, c));
            && next.staticModel == r.staticModel && next.dynamicModel == r.dynamicModel
            && At(next, KeyOf(c)) == Subtree(r, c)
            && DiffersAt(r, next, KeyOf(c))
  {
    hide Refreshed;
  }

  // ---------------------------------------------------------------- When a refresh is as good as a rebuild

  /** The tree has the static models of the graph, and no dynamic models but where there are some; it has no node
      beyond those of the graph, and what it lacks the dynamic visitor makes as the full one would. */
  ghost predicate Fresh(t: Tree, n: Node)
    decreases n, 0
  {
    && t.staticModel == n.model.staticModel && (n.model.kind.HasDynamic() || t.dynamicModel == NoDynamic)
    && (forall key :: key in t.children ==> IsChild(n, |n.children|, key))
    && (forall i :: 0 <= i < |n.children| && !n.children[i].model.kind.IsVirtual() ==> FreshAt(t, n.children[i]))
  }

  ghost predicate FreshAt(t: Tree, c: Node)
    decreases c, 1
  {
    if KeyOf(c) in t.children then Fresh(t.children[KeyOf(c)], c) else c.model.kind.HasDynamic() && Fresh(Empty, c)
  }

  /** The node itself refreshed. */
  function Own(t: Tree, n: Node): Tree {
    if n.model.kind.HasDynamic() then t.(dynamicModel := n.model.dynamicModel) else t
  }

  lemma RefreshedOwn(t: Tree, n: Node)
    requires IsGraph(n) && !n.model.kind.IsVirtual()
    ensures ChildrenRefreshed(Own(t, n), n, |n.children|, Refreshed(t, n))
  {
    OwnVisitFirst(Dynamic, t, n);
    assert VisitOne(Dynamic, t, Visit([], n.model, false)) == Own(t, n);
    RefreshedIs(t, n);
    hide *;
    RefreshedChildren(Own(t, n), n, |n.children|);
  }

  /** Exactly when refreshing a tree over a graph gives the tree that a rebuild would give. */
  lemma {:induction false} RefreshedIffFresh(t: Tree, n: Node)
    requires IsGraph(n) && !n.model.kind.IsVirtual()
    ensures Refreshed(t, n) == TreeOf(n) <==> Fresh(t, n)
    decreases n, 1
  {
    RefreshedOwn(t, n);
    assert ChildrenIffFresh(t, n) by {
      forall i | 0 <= i < |n.children| && !n.children[i].model.kind.IsVirtual()
        ensures Subtree(t, n.children[i]) == Some(TreeOf(n.children[i])) <==> FreshAt(t, n.children[i])
      {
        ChildIsGraph(n, i);
        SubtreeIffFresh(t, n.children[i]);
      }
      hide IsGraph, Fresh, Subtree, TreeOf;
    }
    hide *;
    if Refreshed(t, n) == TreeOf(n) {
      RebuiltMeansFresh(t, n);
    }
    if Fresh(t, n) {
      FreshMeansRebuilt(t, n, Refreshed(t, n));
    }
  }

  lemma {:induction false} SubtreeIffFresh(t: Tree, c: Node)
    requires IsGraph(c) && !c.model.kind.IsVirtual()
    ensures Subtree(t, c) == Some(TreeOf(c)) <==> FreshAt(t, c)
    decreases c, 2
  {
    hide Fresh, TreeOf, Refreshed, IsGraph;
    if KeyOf(c) in t.children {
      RefreshedIffFresh(t.children[KeyOf(c)], c);
    } else {
      RefreshedIffFresh(Empty, c);
    }
  }

  /** The children agree, one by one, exactly where they are fresh. */
  ghost predicate ChildrenIffFresh(t: Tree, n: Node) {
    forall i :: 0 <= i < |n.children| && !n.children[i].model.kind.IsVirtual() ==>
      (Subtree(t, n.children[i]) == Some(TreeOf(n.children[i])) <==> FreshAt(t, n.children[i]))
  }

  lemma RefreshedAt(t: Tree, n: Node, r: Tree)
    requires ChildrenRefreshed(Own(t, n), n, |n.children|, r)
    ensures r.staticModel == t.staticModel
    ensures r.dynamicModel == if n.model.kind.HasDynamic() then n.model.dynamicModel else t.dynamicModel
    ensures forall i :: 0 <= i < |n.children| && !n.children[i].model.kind.IsVirtual() ==>
              At(r, KeyOf(n.children[i])) == Subtree(t, n.children[i])
    ensures forall key :: !IsChild(n, |n.children|, key) ==> At(r, key) == At(t, key)
  {
    forall i | 0 <= i < |n.children| ensures Subtree(t, n.children[i]) == Subtree(Own(t, n), n.children[i]) {
      SameSubtree(t, Own(t, n), n.children[i]);
    }
    hide Subtree, IsChild, KeyOf;
  }

  lemma TreeOfFields(n: Node)
    ensures TreeOf(n).staticModel == n.model.staticModel
    ensures TreeOf(n).dynamicModel == if n.model.kind.HasDynamic() then n.model.dynamicModel else NoDynamic
  {
    TreeOfIs(n);
    hide TreeOf, Trees;
  }

  lemma RebuiltMeansFresh(t: Tree, n: Node)
    requires IsGraph(n) && ChildrenRefreshed(Own(t, n), n, |n.children|, TreeOf(n)) && ChildrenIffFresh(t, n)
    ensures Fresh(t, n)
  {
    RefreshedAt(t, n, TreeOf(n));
    TreeOfFields(n);
    forall i | 0 <= i < |n.children| && !n.children[i].model.kind.IsVirtual() ensures FreshAt(t, n.children[i]) {
      TreeOfAt(n, i);
    }
    forall key | key in t.children ensures IsChild(n, |n.children|, key) {
      if !IsChild(n, |n.children|, key) {
        TreeOfNowhereElse(n, key);
      }
    }
    hide IsGraph, Subtree, FreshAt, TreeOf, IsChild, ChildrenRefreshed;
  }

  lemma FreshMeansRebuilt(t: Tree, n: Node, r: Tree)
    requires IsGraph(n) && ChildrenRefreshed(Own(t, n), n, |n.children|, r) && ChildrenIffFresh(t, n) && Fresh(t, n)
    ensures r == TreeOf(n)
  {
    RefreshedAt(t, n, r);
    TreeOfFields(n);
    forall key ensures At(r, key) == At(TreeOf(n), key) {
      if IsChild(n, |n.children|, key) {
        var i :| 0 <= i < |n.children| && KeyOf(n.children[i]) == key && !n.children[i].model.kind.IsVirtual();
        TreeOfAt(n, i);
      } else {
        TreeOfNowhereElse(n, key);
        assert At(t, key) == None;
      }
      hide IsGraph, Subtree, FreshAt, TreeOf, ChildrenRefreshed;
    }
    hide IsGraph, Subtree, FreshAt, TreeOf, IsChild, ChildrenRefreshed, At;
    EqualIff(r, TreeOf(n));
  }

  lemma {:induction false} OwnTreeIsFresh(a: Node, b: Node)
    requires SameStatic(a, b) && IsGraph(a) && IsGraph(b) && !b.model.kind.IsVirtual()
    ensures Fresh(TreeOf(a), b)
    decreases a
  {
    TreeOfFields(a);
    forall i | 0 <= i < |b.children| && !b.children[i].model.kind.IsVirtual()
      ensures FreshAt(TreeOf(a), b.children[i])
    {
      SameChild(a, b, i);
      ChildIsGraph(a, i);
      ChildIsGraph(b, i);
      OwnTreeIsFresh(a.children[i], b.children[i]);
      TreeOfAt(a, i);
      hide IsGraph, SameStatic, TreeOf, Fresh;
    }
    forall key | key in TreeOf(a).children ensures IsChild(b, |b.children|, key) {
      if !IsChild(a, |a.children|, key) {
        TreeOfNowhereElse(a, key);
      }
      forall i | 0 <= i < |a.children|
        ensures KeyOf(a.children[i]) == KeyOf(b.children[i])
      {
        SameChild(a, b, i);
      }
      hide IsGraph, SameStatic, TreeOf;
    }
    SameRoot(a, b);
    hide IsGraph, SameStatic, TreeOf, IsChild, FreshAt;
  }

  lemma SameRoot(a: Node, b: Node)
    requires SameStatic(a, b)
    ensures |a.children| == |b.children| && a.model.staticModel == b.model.staticModel && a.model.kind == b.model.kind
  {
  }

  lemma SameChild(a: Node, b: Node, i: nat)
    requires SameStatic(a, b) && i < |a.children|
    ensures |a.children| == |b.children| && SameStatic(a.children[i], b.children[i])
    ensures KeyOf(a.children[i]) == KeyOf(b.children[i])
    ensures a.children[i].model.kind == b.children[i].model.kind
  {
  }

  /** Refreshing the tree of a graph over another with the same nodes and static models gives the tree that the full
      visitor would build from the second; no key comes or goes. */
  lemma RefreshedIsRebuilt(a: Node, b: Node)
    requires SameStatic(a, b) && IsGraph(a) && IsGraph(b) && !b.model.kind.IsVirtual()
    ensures Refreshed(TreeOf(a), b) == TreeOf(b)
  {
    OwnTreeIsFresh(a, b);
    RefreshedIffFresh(TreeOf(a), b);
  }

  // ---------------------------------------------------------------- Nodes that are gone

  predicate HasPath(t: Tree, path: seq<Key>) {
    path == [] || (path[0] in t.children && HasPath(t.children[path[0]], path[1..]))
  }

  ghost predicate HasNode(n: Node, path: seq<Key>)
    decreases path
  {
    path == [] || exists i :: 0 <= i < |n.children| && IsAt(n.children[i], path[0]) && HasNode(n.children[i], path[1..])
  }

  predicate IsAt(c: Node, key: Key) {
    KeyOf(c) == key && !c.model.kind.IsVirtual()
  }

  lemma {:induction false} FreshHasNodes(t: Tree, n: Node, path: seq<Key>)
    requires Fresh(t, n) && HasPath(t, path)
    ensures HasNode(n, path)
    decreases path
  {
    if path != [] {
      assert IsChild(n, |n.children|, path[0]);
      var i :| 0 <= i < |n.children| && KeyOf(n.children[i]) == path[0] && !n.children[i].model.kind.IsVirtual();
      var c := n.children[i];
      assert FreshAt(t, c);
      FreshHasNodes(t.children[path[0]], c, path[1..]);
      assert IsAt(c, path[0]);
    }
  }

  lemma {:induction false} WriteKeepsPath(t: Tree, path: seq<Key>, m: Model, q: seq<Key>)
    requires HasPath(t, q)
    ensures HasPath(WriteAt(Dynamic, t, path, m), q)
    decreases q
  {
    if q != [] && path != [] && path[0] == q[0] {
      WriteKeepsPath(t.children[q[0]], path[1..], m, q[1..]);
    }
  }

  lemma {:induction false} VisitsKeepPath(t: Tree, vs: seq<Visit>, q: seq<Key>)
    requires HasPath(t, q)
    ensures HasPath(VisitAll(Dynamic, t, vs), q)
  {
    if vs != [] {
      var n := |vs| - 1;
      VisitsKeepPath(t, vs[..n], q);
      WriteKeepsPath(VisitAll(Dynamic, t, vs[..n]), vs[n].path, vs[n].model, q);
    }
  }

  /** A node that is gone from the graph, at any depth, stays in a tree that is refreshed, which is then not the tree
      of the graph. */
  lemma RefreshedIsStale(t: Tree, n: Node, path: seq<Key>)
    requires IsGraph(n) && !n.model.kind.IsVirtual() && HasPath(t, path) && !HasNode(n, path)
    ensures HasPath(Refreshed(t, n), path) && Refreshed(t, n) != TreeOf(n)
  {
    VisitsKeepPath(t, Visits(n, true), path);
    RefreshedIs(t, n);
    RefreshedIffFresh(t, n);
    if Fresh(t, n) {
      FreshHasNodes(t, n, path);
    }
  }

  // ---------------------------------------------------------------- What a tree holds

  /** The node at a path below n, met through no redundant stream, has this model. */
  ghost predicate ModelAt(n: Node, path: seq<Key>, m: Model)
    decreases path
  {
    if path == [] then m == n.model
    else exists i :: 0 <= i < |n.children| && IsAt(n.children[i], path[0]) && ModelAt(n.children[i], path[1..], m)
  }

  function TreeAt(t: Tree, path: seq<Key>): Tree
    requires HasPath(t, path)
    decreases path
  {
    if path == [] then t else TreeAt(t.children[path[0]], path[1..])
  }

  /** The tree of a graph has every node of it but redundant streams, at its path, with its models. */
  lemma {:induction false} TreeHasNode(n: Node, path: seq<Key>, m: Model)
    requires IsGraph(n) && ModelAt(n, path, m)
    ensures HasPath(TreeOf(n), path)
    ensures var t := TreeAt(TreeOf(n), path);
            && t.staticModel == m.staticModel
            && t.dynamicModel == if m.kind.HasDynamic() then m.dynamicModel else NoDynamic
    decreases path
  {
    if path == [] {
      TreeOfFields(n);
    } else {
      var i :| 0 <= i < |n.children| && IsAt(n.children[i], path[0]) && ModelAt(n.children[i], path[1..], m);
      ChildIsGraph(n, i);
      TreeOfAt(n, i);
      hide IsGraph, TreeOf;
      TreeHasNode(n.children[i], path[1..], m);
    }
  }

  /** And no other node. */
  lemma {:induction false} TreeHasOnlyNodes(n: Node, path: seq<Key>)
    requires IsGraph(n) && HasPath(TreeOf(n), path)
    ensures HasNode(n, path)
    decreases path
  {
    if path != [] {
      if !IsChild(n, |n.children|, path[0]) {
        TreeOfNowhereElse(n, path[0]);
        assert false;
      }
      var i :| 0 <= i < |n.children| && KeyOf(n.children[i]) == path[0] && !n.children[i].model.kind.IsVirtual();
      ChildIsGraph(n, i);
      TreeOfAt(n, i);
      hide IsGraph, TreeOf;
      TreeHasOnlyNodes(n.children[i], path[1..]);
      assert IsAt(n.children[i], path[0]);
    }
  }

  // ---------------------------------------------------------------- Any number of calls

  /** The tree after calls over these graphs, one after the other. */
  function Cached(graphs: seq<Node>): Tree
    requires graphs != []
  {
    if |graphs| == 1 then TreeOf(graphs[0]) else Refreshed(Cached(graphs[..|graphs| - 1]), graphs[|graphs| - 1])
  }

  /** However often the tree was refreshed, it is the one a rebuild would give. */
  lemma {:induction false} CachedIsRebuilt(graphs: seq<Node>)
    requires graphs != [] && forall k :: 0 <= k < |graphs| ==> IsEntity(graphs[k])
    requires forall k :: 0 <= k < |graphs| - 1 ==> SameStatic(graphs[k], graphs[k + 1])
    ensures Cached(graphs) == TreeOf(graphs[|graphs| - 1])
  {
    var n := |graphs| - 1;
    if n > 0 {
      CachedIsRebuilt(graphs[..n]);
      assert SameStatic(graphs[n - 1], graphs[n - 1 + 1]);
      RefreshedIsRebuilt(graphs[n - 1], graphs[n]);
    }
  }
}
