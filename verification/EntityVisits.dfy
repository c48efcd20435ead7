/** What a traversal visits and in which order, said without the traversal. */
module EntityVisits {

  import opened Common
  import opened EntityGraph

  // ---------------------------------------------------------------- Which visits there are

  /** The node at a path below n has this model. */
  ghost predicate RealAt(n: Node, path: seq<Key>, m: Model)
    decreases path
  {
    if path == [] then m == n.model
    else exists i :: 0 <= i < |n.children| && KeyOf(n.children[i]) == path[0] && RealAt(n.children[i], path[1..], m)
  }

  /** c, a child of n, refers to a sibling at a path below c; a PTP instance stands there with its children. */
  ghost predicate Refers(n: Node, c: Node, path: seq<Key>, m: Model) {
    exists kind, r :: r in c.model.staticModel.references && RefersTo(c.model.kind, kind)
                      && StandsAt(n, Key(kind, r), path, m)
  }

  predicate RefersTo(kind: Kind, target: Kind) {
    || (kind == RedundantStreamInput && target == StreamInput)
    || (kind == RedundantStreamOutput && target == StreamOutput)
    || (kind == ClockDomain && target == ClockSource)
    || (kind == Timing && target == PtpInstance)
  }

  ghost predicate StandsAt(n: Node, key: Key, path: seq<Key>, m: Model) {
    exists j :: 0 <= j < |n.children| && KeyOf(n.children[j]) == key && MetThrough(n.children[j], path, m)
  }

  ghost predicate MetThrough(target: Node, path: seq<Key>, m: Model) {
    || (path == [KeyOf(target)] && m == target.model)
    || (target.model.kind == PtpInstance
        && exists l :: 0 <= l < |target.children| && path == [KeyOf(target), KeyOf(target.children[l])]
                       && m == target.children[l].model)
  }

  ghost predicate ReferredAt(n: Node, path: seq<Key>, m: Model)
    decreases path
  {
    path != [] &&
    exists i :: 0 <= i < |n.children| && KeyOf(n.children[i]) == path[0]
                && (ReferredAt(n.children[i], path[1..], m) || Refers(n, n.children[i], path[1..], m))
  }

  ghost predicate IsVisited(n: Node, v: Visit) {
    if v.isVirtual then ReferredAt(n, v.path, v.model) else RealAt(n, v.path, v.model)
  }

  function Tail(v: Visit): Visit
    requires v.path != []
  {
    v.(path := v.path[1..])
  }

  ghost predicate Under(key: Key, v: Visit, vs: seq<Visit>) {
    v.path != [] && v.path[0] == key && Tail(v) in vs
  }

  lemma PrefixedHas(key: Key, vs: seq<Visit>, v: Visit)
    ensures v in Prefixed(key, vs) <==> Under(key, v, vs)
  {
    if v in Prefixed(key, vs) {
      var i :| 0 <= i < |vs| && Prefixed(key, vs)[i] == v;
      assert v.path[1..] == vs[i].path;
      assert Tail(v) == vs[i];
    }
    if Under(key, v, vs) {
      var i :| 0 <= i < |vs| && vs[i] == Tail(v);
      assert [key] + v.path[1..] == v.path;
      assert Prefixed(key, vs)[i] == v;
    }
  }

  lemma ReferenceVisitHas(n: Node, key: Key, v: Visit)
    requires IsGraph(n)
    ensures v in ReferenceVisit(n, key) <==>
            v.isVirtual && StandsAt(n, key, v.path, v.model)
  {
    var k := Find(n.children, key);
    FindsOnly(n, key);
    if k < |n.children| {
      var target := n.children[k];
      forall j | 0 <= j < |n.children| && KeyOf(n.children[j]) == key ensures j == k {
        if j != k {
          KeysAreDistinct(n, j, k);
        }
      }
      hide IsGraph, Find;
      BelowHas(key, target, v);
    }
  }

  lemma {:induction false} FindsOnly(n: Node, key: Key)
    ensures Find(n.children, key) == |n.children| ==>
              forall j :: 0 <= j < |n.children| ==> KeyOf(n.children[j]) != key
  {
    FindsNone(n.children, key);
  }

  lemma {:induction false} FindsNone(nodes: seq<Node>, key: Key)
    ensures Find(nodes, key) == |nodes| ==> forall j :: 0 <= j < |nodes| ==> KeyOf(nodes[j]) != key
  {
    if nodes != [] {
      FindsNone(nodes[1..], key);
      if Find(nodes, key) == |nodes| {
        forall j | 0 <= j < |nodes| ensures KeyOf(nodes[j]) != key {
          if j > 0 {
            assert nodes[1..][j - 1] == nodes[j];
          }
        }
      }
    }
  }

  lemma BelowHas(key: Key, target: Node, v: Visit)
    ensures v in VisitsBelow(key, target) <==>
            v.isVirtual && exists l :: 0 <= l < |target.children| && v.path == [key, KeyOf(target.children[l])]
                                       && v.model == target.children[l].model
  {
    if l :| 0 <= l < |target.children| && v.path == [key, KeyOf(target.children[l])]
            && v.model == target.children[l].model && v.isVirtual {
      assert VisitsBelow(key, target)[l] == v;
    }
  }

  ghost predicate MetAt(n: Node, kind: Kind, references: seq<Index>, i: nat, v: Visit)
    requires i < |references|
  {
    v in ReferenceVisit(n, Key(kind, references[i]))
  }

  lemma {:induction false} ReferenceVisitsHave(n: Node, kind: Kind, references: seq<Index>, k: nat, v: Visit)
    requires k <= |references|
    ensures v in ReferenceVisits(n, kind, references, k) <==>
            exists i :: 0 <= i < k && MetAt(n, kind, references, i, v)
  {
    hide ReferenceVisits, ReferenceVisit;
    if k == 0 {
      NoneMet(n, kind, references);
    } else {
      ReferenceVisitsHave(n, kind, references, k - 1, v);
      ReferenceVisitsStep(n, kind, references, k - 1);
      assert MetAt(n, kind, references, k - 1, v) <==> v in ReferenceVisit(n, Key(kind, references[k - 1]));
      hide MetAt;
    }
  }

  lemma NoneMet(n: Node, kind: Kind, references: seq<Index>)
    ensures ReferenceVisits(n, kind, references, 0) == []
  {
  }

  lemma MetAtIs(n: Node, kind: Kind, references: seq<Index>, i: nat, v: Visit)
    requires i < |references|
    ensures MetAt(n, kind, references, i, v) <==> v in ReferenceVisit(n, Key(kind, references[i]))
  {
    hide ReferenceVisit;
  }

  lemma RefersOnly(n: Node, c: Node, path: seq<Key>, m: Model)
    ensures Referred(c.model.kind).None? ==> !Refers(n, c, path, m)
    ensures var referred, references := Referred(c.model.kind), c.model.staticModel.references;
            referred.Some? ==>
              (Refers(n, c, path, m) <==>
               exists i :: 0 <= i < |references| && StandsAt(n, Key(referred.value, references[i]), path, m))
  {
    var referred, references := Referred(c.model.kind), c.model.staticModel.references;
    hide StandsAt;
    if Refers(n, c, path, m) {
      var kind, r :| r in references && RefersTo(c.model.kind, kind) && StandsAt(n, Key(kind, r), path, m);
      var i :| 0 <= i < |references| && references[i] == r;
      assert StandsAt(n, Key(referred.value, references[i]), path, m);
    }
    if i :| 0 <= i < |references| && referred.Some? && StandsAt(n, Key(referred.value, references[i]), path, m) {
      assert references[i] in references && RefersTo(c.model.kind, referred.value);
    }
  }

  lemma ReferencesHave(n: Node, c: Node, v: Visit)
    requires IsGraph(n)
    ensures v in References(n, c) <==> v.isVirtual && Refers(n, c, v.path, v.model)
  {
    hide *;
    ReferencesAre(n, c);
    RefersOnly(n, c, v.path, v.model);
    var referred, references := Referred(c.model.kind), c.model.staticModel.references;
    if referred.Some? {
      ReferenceVisitsHave(n, referred.value, references, |references|, v);
      forall i | 0 <= i < |references|
        ensures MetAt(n, referred.value, references, i, v) <==>
                v.isVirtual && StandsAt(n, Key(referred.value, references[i]), v.path, v.model)
      {
        ReferenceVisitHas(n, Key(referred.value, references[i]), v);
        MetAtIs(n, referred.value, references, i, v);
      }
    }
  }

  ghost predicate InChild(n: Node, i: nat, v: Visit)
    requires i < |n.children|
  {
    v in VisitsOfChild(n, i, true)
  }

  lemma InChildIs(n: Node, i: nat, v: Visit)
    requires i < |n.children|
    ensures InChild(n, i, v) <==> v in VisitsOfChild(n, i, true)
  {
    hide VisitsOfChild;
  }

  lemma {:induction false} ChildVisitsHave(n: Node, k: nat, v: Visit)
    requires k <= |n.children|
    ensures v in ChildVisits(n, k, true) <==> exists i :: 0 <= i < k && InChild(n, i, v)
  {
    hide *;
    if k == 0 {
      NoneYet(n);
    } else {
      ChildVisitsHave(n, k - 1, v);
      ChildVisitsStep(n, k - 1, true);
      assert InChild(n, k - 1, v) <==> v in VisitsOfChild(n, k - 1, true) by {
        InChildIs(n, k - 1, v);
      }
    }
  }

  lemma VisitsOfChildHave(n: Node, i: nat, v: Visit)
    requires i < |n.children|
    ensures var c := n.children[i];
            v in VisitsOfChild(n, i, true) <==>
            Under(KeyOf(c), v, Visits(c, true)) || Under(KeyOf(c), v, References(n, c))
  {
    var c := n.children[i];
    PrefixedHas(KeyOf(c), Visits(c, true), v);
    PrefixedHas(KeyOf(c), References(n, c), v);
    hide Visits, References, Prefixed, Under;
  }

  /** Exactly the nodes are visited through their parents, and exactly those referred to through references. */
  lemma {:induction false} VisitsHave(n: Node, v: Visit)
    requires IsGraph(n)
    ensures v in Visits(n, true) <==> IsVisited(n, v)
    decreases n, 1
  {
    if v.path == [] {
      OwnOnly(n, v);
    } else {
      ChildVisitsHave(n, |n.children|, v);
      NotOwn(n, v);
      forall i | 0 <= i < |n.children|
        ensures InChild(n, i, v) <==> VisitedUnder(n, i, v)
      {
        ChildIsGraph(n, i);
        hide IsGraph;
        VisitsUnder(n, i, v);
      }
      hide *;
      IsVisitedBelow(n, v);
      if v in ChildVisits(n, |n.children|, true) {
        var i :| 0 <= i < |n.children| && InChild(n, i, v);
        assert VisitedUnder(n, i, v);
      }
      if i :| 0 <= i < |n.children| && VisitedUnder(n, i, v) {
        assert InChild(n, i, v);
      }
    }
  }

  /** The visit is to something at or below the i-th child, or met through it. */
  ghost predicate VisitedUnder(n: Node, i: nat, v: Visit)
    requires i < |n.children|
  {
    && v.path != [] && v.path[0] == KeyOf(n.children[i])
    && (IsVisited(n.children[i], Tail(v)) || (v.isVirtual && Refers(n, n.children[i], v.path[1..], v.model)))
  }

  lemma IsVisitedBelow(n: Node, v: Visit)
    requires v.path != []
    ensures IsVisited(n, v) <==> exists i :: 0 <= i < |n.children| && VisitedUnder(n, i, v)
  {
    hide Refers;
    if IsVisited(n, v) {
      if v.isVirtual {
        var i :| 0 <= i < |n.children| && KeyOf(n.children[i]) == v.path[0]
                 && (ReferredAt(n.children[i], v.path[1..], v.model) || Refers(n, n.children[i], v.path[1..], v.model));
        assert VisitedUnder(n, i, v);
      } else {
        var i :| 0 <= i < |n.children| && KeyOf(n.children[i]) == v.path[0]
                 && RealAt(n.children[i], v.path[1..], v.model);
        assert VisitedUnder(n, i, v);
      }
    }
  }

  lemma {:induction false} VisitsUnder(n: Node, i: nat, v: Visit)
    requires IsGraph(n) && i < |n.children| && v.path != [] && IsGraph(n.children[i])
    ensures InChild(n, i, v) <==> VisitedUnder(n, i, v)
    decreases n, 0
  {
    var c := n.children[i];
    VisitsOfChildHave(n, i, v);
    VisitsHave(c, Tail(v));
    ReferencesHave(n, c, Tail(v));
    hide IsGraph, Visits, References, VisitsOfChild, IsVisited, Refers, KeyOf;
  }

  lemma NotOwn(n: Node, v: Visit)
    requires v.path != []
    ensures v in Visits(n, true) <==> v in ChildVisits(n, |n.children|, true)
  {
    VisitsOf(n);
    hide Visits, ChildVisits;
  }

  lemma OwnOnly(n: Node, v: Visit)
    requires v.path == []
    ensures v in Visits(n, true) <==> IsVisited(n, v)
  {
    VisitsOf(n);
    PathsBelow(n, |n.children|, true);
    hide ChildVisits, Visits;
  }

  // ---------------------------------------------------------------- Their order

  /** p comes before q: it leads to q, or they part at children in that order. */
  ghost predicate Comes(n: Node, p: seq<Key>, q: seq<Key>)
    decreases p
  {
    q != [] && (p == [] || exists i, j :: 0 <= i <= j < |n.children| && Part(n, i, j, p, q))
  }

  ghost predicate Part(n: Node, i: nat, j: nat, p: seq<Key>, q: seq<Key>)
    requires i < |n.children| && j < |n.children| && p != [] && q != []
    decreases p, 0
  {
    && KeyOf(n.children[i]) == p[0] && KeyOf(n.children[j]) == q[0]
    && (i < j || (i == j && Comes(n.children[i], p[1..], q[1..])))
  }

  /** Of two visits of which one at least is no reference. */
  ghost predicate InOrder(n: Node, vs: seq<Visit>) {
    forall a, b :: 0 <= a < b < |vs| && !(vs[a].isVirtual && vs[b].isVirtual) ==> Comes(n, vs[a].path, vs[b].path)
  }

  lemma InOrderConcat(n: Node, vs: seq<Visit>, ws: seq<Visit>)
    requires InOrder(n, vs) && InOrder(n, ws)
    requires forall a, b :: 0 <= a < |vs| && 0 <= b < |ws| && !(vs[a].isVirtual && ws[b].isVirtual) ==>
               Comes(n, vs[a].path, ws[b].path)
    ensures InOrder(n, vs + ws)
  {
    var us := vs + ws;
    forall a, b | 0 <= a < b < |us| && !(us[a].isVirtual && us[b].isVirtual)
      ensures Comes(n, us[a].path, us[b].path)
    {
      if b >= |vs| {
        assert us[b] == ws[b - |vs|];
        if a >= |vs| {
          assert us[a] == ws[a - |vs|];
        }
      }
    }
  }

  lemma InOrderUnder(n: Node, i: nat, vs: seq<Visit>)
    requires i < |n.children| && InOrder(n.children[i], vs)
    ensures InOrder(n, Prefixed(KeyOf(n.children[i]), vs))
  {
    var c := n.children[i];
    var ps := Prefixed(KeyOf(c), vs);
    forall a, b | 0 <= a < b < |vs| && !(vs[a].isVirtual && vs[b].isVirtual)
      ensures Comes(n, ps[a].path, ps[b].path)
    {
      assert ps[a].path[1..] == vs[a].path && ps[b].path[1..] == vs[b].path;
      assert Part(n, i, i, ps[a].path, ps[b].path);
    }
  }

  lemma AllVirtualInOrder(n: Node, vs: seq<Visit>)
    requires forall a :: 0 <= a < |vs| ==> vs[a].isVirtual
    ensures InOrder(n, vs)
  {
  }

  /** Where there are references nothing is below. */
  lemma ReferrerIsLeaf(c: Node)
    requires IsGraph(c) && Referred(c.model.kind).Some?
    ensures c.children == []
  {
    if c.children != [] {
      ChildKindAllowed(c, 0);
      assert false;
    }
  }

  lemma ReferencesAreVirtual(n: Node, c: Node)
    requires IsGraph(n)
    ensures forall a :: 0 <= a < |References(n, c)| ==> References(n, c)[a].isVirtual && References(n, c)[a].path != []
  {
    forall a | 0 <= a < |References(n, c)|
      ensures References(n, c)[a].isVirtual && References(n, c)[a].path != []
    {
      ReferencesHave(n, c, References(n, c)[a]);
    }
  }

  lemma {:induction false} OrderOfChild(n: Node, i: nat)
    requires IsGraph(n) && i < |n.children|
    ensures InOrder(n, VisitsOfChild(n, i, true))
    decreases n, 0
  {
    var c := n.children[i];
    var own, met := Prefixed(KeyOf(c), Visits(c, true)), Prefixed(KeyOf(c), References(n, c));
    ChildIsGraph(n, i);
    VisitsInOrder(c);
    InOrderUnder(n, i, Visits(c, true));
    ReferencesAreVirtual(n, c);
    AllVirtualInOrder(n, met);
    if Referred(c.model.kind).Some? {
      ReferrerIsLeaf(c);
      VisitsOf(c);
      assert Visits(c, true) == [Visit([], c.model, false)];
      forall b | 0 <= b < |met| ensures Comes(n, own[0].path, met[b].path) {
        assert own[0].path[1..] == [] && met[b].path[1..] == References(n, c)[b].path;
        assert Part(n, i, i, own[0].path, met[b].path);
      }
    }
    hide Visits, References, Comes, InOrder;
    InOrderConcat(n, own, met);
  }

  lemma {:induction false} OrderOfChildren(n: Node, k: nat)
    requires IsGraph(n) && k <= |n.children|
    ensures InOrder(n, ChildVisits(n, k, true)) && UnderChildren(n, k, ChildVisits(n, k, true))
    decreases n, 1, k
  {
    hide *;
    if k == 0 {
      NoneYet(n);
      NoneInOrder(n);
    } else {
      var vs, ws := ChildVisits(n, k - 1, true), VisitsOfChild(n, k - 1, true);
      OrderOfChildren(n, k - 1);
      OrderOfChild(n, k - 1);
      PathsOfChild(n, k - 1, true);
      ChildVisitsStep(n, k - 1, true);
      NextChildComes(n, k - 1, vs, ws);
      InOrderConcat(n, vs, ws);
      UnderGrows(n, k - 1, vs, ws);
    }
  }

  lemma NoneInOrder(n: Node)
    ensures InOrder(n, []) && UnderChildren(n, 0, [])
  {
  }

  lemma NextChildComes(n: Node, k: nat, vs: seq<Visit>, ws: seq<Visit>)
    requires k < |n.children| && UnderChildren(n, k, vs)
    requires forall b :: 0 <= b < |ws| ==> |ws[b].path| >= 1 && ws[b].path[0] == KeyOf(n.children[k])
    ensures forall a, b :: 0 <= a < |vs| && 0 <= b < |ws| ==> Comes(n, vs[a].path, ws[b].path)
  {
    hide Comes;
    forall a, b | 0 <= a < |vs| && 0 <= b < |ws|
      ensures Comes(n, vs[a].path, ws[b].path)
    {
      assert UnderOne(n, k, vs[a]);
      var i :| 0 <= i < k && vs[a].path != [] && vs[a].path[0] == KeyOf(n.children[i]);
      PartedCome(n, i, k, vs[a].path, ws[b].path);
    }
  }

  lemma PartedCome(n: Node, i: nat, j: nat, p: seq<Key>, q: seq<Key>)
    requires i < j < |n.children| && p != [] && q != [] && KeyOf(n.children[i]) == p[0] && KeyOf(n.children[j]) == q[0]
    ensures Comes(n, p, q)
  {
    assert Part(n, i, j, p, q);
  }

  /** The visits are under the first k children. */
  ghost predicate UnderChildren(n: Node, k: nat, vs: seq<Visit>)
    requires k <= |n.children|
  {
    forall a :: 0 <= a < |vs| ==> UnderOne(n, k, vs[a])
  }

  ghost predicate UnderOne(n: Node, k: nat, v: Visit)
    requires k <= |n.children|
  {
    v.path != [] && exists i :: 0 <= i < k && v.path[0] == KeyOf(n.children[i])
  }

  lemma UnderGrows(n: Node, k: nat, vs: seq<Visit>, ws: seq<Visit>)
    requires k < |n.children| && UnderChildren(n, k, vs)
    requires forall b :: 0 <= b < |ws| ==> ws[b].path != [] && ws[b].path[0] == KeyOf(n.children[k])
    ensures UnderChildren(n, k + 1, vs + ws)
  {
    forall a | 0 <= a < |vs + ws|
      ensures UnderOne(n, k + 1, (vs + ws)[a])
    {
      if a >= |vs| {
        assert (vs + ws)[a] == ws[a - |vs|];
      } else {
        assert UnderOne(n, k, vs[a]);
      }
    }
  }

  /** A node is visited before all that is below it, and children one after the other; what is met through references
      comes after the node that refers and before the next child. */
  lemma {:induction false} VisitsInOrder(n: Node)
    requires IsGraph(n)
    ensures InOrder(n, Visits(n, true))
    decreases n, 2
  {
    OrderOfChildren(n, |n.children|);
    VisitsOf(n);
    var own, rest := [Visit([], n.model, false)], ChildVisits(n, |n.children|, true);
    hide Visits, ChildVisits, IsGraph;
    forall b | 0 <= b < |rest| ensures Comes(n, [], rest[b].path) { }
    InOrderConcat(n, own, rest);
  }
}
