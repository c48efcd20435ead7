/** The model graph of an entity, and the order in which it is visited. */
module EntityGraph {

  import opened Common
  import Words

  type Bytes = seq<Words.Byte>

  /** The kinds of nodes, in the order in which the children of a node are visited. */
  datatype Kind =
    | Entity | Configuration | AudioUnit | StreamInput | StreamOutput
    | RedundantStreamInput | RedundantStreamOutput | JackInput | JackOutput
    | AvbInterface | ClockSource | MemoryObject | Locale | Strings
    | StreamPortInput | StreamPortOutput | AudioCluster | AudioMap | Control
    | ClockDomain | Timing | PtpInstance | PtpPort
  {
    /** Redundant streams are no descriptors of the entity. */
    predicate IsVirtual() {
      RedundantStreamInput? || RedundantStreamOutput?
    }

    predicate HasDynamic() {
      !Locale? && !Strings? && !AudioMap? && !IsVirtual()
    }
  }

  /** A static model as the checksum reads it: fields and flags and trailer are runs of serialized fields (flags and
      trailer of AVB interfaces and clock domains alone), counts the descriptor counts of a configuration, and
      references the streams, clock sources or PTP instances it lists. */
  datatype StaticModel = StaticModel(fields: Bytes, flags: Bytes, trailer: Bytes, counts: map<Index, Index>,
                                     references: seq<Index>)

  /** A dynamic model: whether a configuration is the active one, what version 2 of the checksum read of an AVB
      interface, and the rest. */
  datatype DynamicModel = DynamicModel(active: bool, macAddress: Bytes, clock: Bytes, rest: Bytes)

  datatype Model = Model(kind: Kind, index: nat, staticModel: StaticModel, dynamicModel: DynamicModel)

  /** A node with its children in the order of their kinds and, within a kind, of their indexes. */
  datatype Node = Node(model: Model, children: seq<Node>)

  datatype Key = Key(kind: Kind, index: nat)

  function KeyOf(n: Node): Key {
    Key(n.model.kind, n.model.index)
  }

  // ---------------------------------------------------------------- Which graphs there are

  function ChildKinds(kind: Kind): seq<Kind> {
    match kind
    case Entity => [Configuration]
    case Configuration =>
      [AudioUnit, StreamInput, StreamOutput, RedundantStreamInput, RedundantStreamOutput, JackInput, JackOutput,
       AvbInterface, ClockSource, MemoryObject, Locale, Control, ClockDomain, Timing, PtpInstance]
    case AudioUnit => [StreamPortInput, StreamPortOutput, Control]
    case StreamPortInput => [AudioCluster, AudioMap, Control]
    case StreamPortOutput => [AudioCluster, AudioMap, Control]
    case JackInput => [Control]
    case JackOutput => [Control]
    case Locale => [Strings]
    case PtpInstance => [Control, PtpPort]
    case _ => []
  }

  /** The position of a kind among the kinds of children. */
  function Rank(kinds: seq<Kind>, kind: Kind): (r: nat)
    ensures r < |kinds| ==> kinds[r] == kind
  {
    if kinds == [] || kinds[0] == kind then 0 else 1 + Rank(kinds[1..], kind)
  }

  predicate Before(parent: Kind, a: Key, b: Key) {
    var kinds := ChildKinds(parent);
    Rank(kinds, a.kind) < Rank(kinds, b.kind) || (a.kind == b.kind && a.index < b.index)
  }

  predicate ChildrenInOrder(n: Node) {
    && (forall k :: 0 <= k < |n.children| ==> n.children[k].model.kind in ChildKinds(n.model.kind))
    && (forall j, k :: 0 <= j < k < |n.children| ==> Before(n.model.kind, KeyOf(n.children[j]), KeyOf(n.children[k])))
  }

  predicate IsGraph(n: Node) {
    ChildrenInOrder(n) && forall k :: 0 <= k < |n.children| ==> IsGraph(n.children[k])
  }

  predicate IsEntity(n: Node) {
    n.model.kind == Entity && IsGraph(n)
  }

  /** Same nodes and same static models; dynamic models may differ. */
  predicate SameStatic(a: Node, b: Node) {
    && a.model.(dynamicModel := b.model.dynamicModel) == b.model
    && |a.children| == |b.children|
    && (forall k :: 0 <= k < |a.children| ==> SameStatic(a.children[k], b.children[k]))
  }

  /** Same active configurations. */
  predicate SameActive(a: Node, b: Node) {
    && a.model.dynamicModel.active == b.model.dynamicModel.active
    && |a.children| == |b.children|
    && (forall k :: 0 <= k < |a.children| ==> SameActive(a.children[k], b.children[k]))
  }

  /** The keys of a node's children are distinct. */
  lemma KeysAreDistinct(n: Node, j: nat, k: nat)
    requires IsGraph(n) && j < |n.children| && k < |n.children| && j != k
    ensures KeyOf(n.children[j]) != KeyOf(n.children[k])
  {
    assert Before(n.model.kind, KeyOf(n.children[if j < k then j else k]), KeyOf(n.children[if j < k then k else j]));
  }

  // ---------------------------------------------------------------- Visits

  /** A call of a visitor: the keys below the entity that lead to the node, and whether the node is met through a
      reference instead of its real parent. */
  datatype Visit = Visit(path: seq<Key>, model: Model, isVirtual: bool)

  function Prefixed(key: Key, visits: seq<Visit>): (r: seq<Visit>)
    ensures |r| == |visits|
  {
    seq(|visits|, i requires 0 <= i < |visits| => visits[i].(path := [key] + visits[i].path))
  }

  /** The visits of a node and of all below it, by paths from it. A configuration that is not active is entered only
      on demand. */
  function Visits(n: Node, all: bool): seq<Visit>
    decreases n, |n.children| + 1
  {
    [Visit([], n.model, false)]
    + if n.model.kind == Configuration && !all && !n.model.dynamicModel.active then []
      else ChildVisits(n, |n.children|, all)
  }

  /** The visits of the first k children, each followed by the visits through its references. */
  function ChildVisits(n: Node, k: nat, all: bool): seq<Visit>
    requires k <= |n.children|
    decreases n, k
  {
    if k == 0 then []
    else ChildVisits(n, k - 1, all) + VisitsOfChild(n, k - 1, all)
  }

  function VisitsOfChild(n: Node, i: nat, all: bool): seq<Visit>
    requires i < |n.children|
    decreases n, 0
  {
    var c := n.children[i];
    Prefixed(KeyOf(c), Visits(c, all)) + Prefixed(KeyOf(c), References(n, c))
  }

  /** The kind of nodes that a node refers to. */
  function Referred(kind: Kind): Option<Kind> {
    match kind
    case RedundantStreamInput => Some(StreamInput)
    case RedundantStreamOutput => Some(StreamOutput)
    case ClockDomain => Some(ClockSource)
    case Timing => Some(PtpInstance)
    case _ => None
  }

  /** The visits through the references of a node c to its siblings. */
  function References(parent: Node, c: Node): seq<Visit> {
    match Referred(c.model.kind)
    case None => []
    case Some(kind) => ReferenceVisits(parent, kind, c.model.staticModel.references, |c.model.staticModel.references|)
  }

  function ReferenceVisits(parent: Node, kind: Kind, references: seq<Index>, k: nat): seq<Visit>
    requires k <= |references|
  {
    if k == 0 then []
    else ReferenceVisits(parent, kind, references, k - 1) + ReferenceVisit(parent, Key(kind, references[k - 1]))
  }

  /** A reference to a node that does not exist is skipped. A PTP instance is visited with its children. */
  function ReferenceVisit(parent: Node, key: Key): seq<Visit> {
    var k := Find(parent.children, key);
    if k == |parent.children| then []
    else
      var target := parent.children[k];
      [Visit([key], target.model, true)] + if key.kind == PtpInstance then VisitsBelow(key, target) else []
  }

  function VisitsBelow(key: Key, target: Node): seq<Visit> {
    seq(|target.children|, i requires 0 <= i < |target.children| =>
      Visit([key, KeyOf(target.children[i])], target.children[i].model, true))
  }

  function Find(nodes: seq<Node>, key: Key): (k: nat)
    ensures k <= |nodes|
    ensures k < |nodes| ==> KeyOf(nodes[k]) == key
  {
    if nodes == [] || KeyOf(nodes[0]) == key then 0 else 1 + Find(nodes[1..], key)
  }

  // ---------------------------------------------------------------- The traversal

  /** The order of visits as the nested loops produce it. */
  method Accept(n: Node, all: bool) returns (visits: seq<Visit>)
    ensures visits == Visits(n, all)
    ensures IsEntity(n) && !all ==> visits == Entered(n, Visits(n, true))
    decreases n, 2
  {
    if IsEntity(n) && !all {
      ActiveVisits(n);
    }
    visits := [Visit([], n.model, false)];
    if n.model.kind != Configuration || all || n.model.dynamicModel.active {
      var below := AcceptChildren(n, all);
      visits := visits + below;
    }
  }

  method AcceptChildren(n: Node, all: bool) returns (visits: seq<Visit>)
    ensures visits == ChildVisits(n, |n.children|, all)
    decreases n, 1
  {
    visits := [];
    for i := 0 to |n.children|
      invariant visits == ChildVisits(n, i, all)
    {
      var child := AcceptChild(n, i, all);
      visits := visits + child;
    }
  }

  method AcceptChild(n: Node, i: nat, all: bool) returns (visits: seq<Visit>)
    requires i < |n.children|
    ensures visits == VisitsOfChild(n, i, all)
    decreases n, 0
  {
    var c := n.children[i];
    var inner := Accept(c, all);
    var met := AcceptReferences(n, c);
    visits := Prefixed(KeyOf(c), inner) + Prefixed(KeyOf(c), met);
  }

  method AcceptReferences(parent: Node, c: Node) returns (visits: seq<Visit>)
    ensures visits == References(parent, c)
  {
    visits := [];
    var referred := Referred(c.model.kind);
    if referred.Some? {
      var references := c.model.staticModel.references;
      for j := 0 to |references|
        invariant visits == ReferenceVisits(parent, referred.value, references, j)
      {
        visits := visits + ReferenceVisit(parent, Key(referred.value, references[j]));
      }
    }
  }

  // ---------------------------------------------------------------- Graphs that differ in dynamic models alone

  predicate Alike(v: Visit, w: Visit) {
    v.path == w.path && v.isVirtual == w.isVirtual && v.model.(dynamicModel := w.model.dynamicModel) == w.model
  }

  ghost predicate AllAlike(vs: seq<Visit>, ws: seq<Visit>) {
    |vs| == |ws| && forall i :: 0 <= i < |vs| ==> Alike(vs[i], ws[i])
  }

  /** Their visits come in the same order, to nodes with the same static models. */
  lemma {:induction false} VisitsAgree(a: Node, b: Node, all: bool)
    requires SameStatic(a, b) && (all || SameActive(a, b))
    ensures AllAlike(Visits(a, all), Visits(b, all))
    decreases a, |a.children| + 1
  {
    ChildVisitsAgree(a, b, |a.children|, all);
    hide ChildVisits, AllAlike;
    ConcatAgrees([Visit([], a.model, false)], [Visit([], b.model, false)],
                 ChildVisits(a, |a.children|, all), ChildVisits(b, |b.children|, all));
  }

  lemma {:induction false} ChildVisitsAgree(a: Node, b: Node, k: nat, all: bool)
    requires SameStatic(a, b) && (all || SameActive(a, b)) && k <= |a.children| == |b.children|
    ensures AllAlike(ChildVisits(a, k, all), ChildVisits(b, k, all))
    decreases a, k
  {
    hide *;
    if k == 0 {
      NoChildVisits(a, b, all);
    } else {
      ChildVisitsAgree(a, b, k - 1, all);
      VisitsOfChildAgree(a, b, k - 1, all);
      ChildVisitsAgreeStep(a, b, k - 1, all);
    }
  }

  lemma NoChildVisits(a: Node, b: Node, all: bool)
    ensures AllAlike(ChildVisits(a, 0, all), ChildVisits(b, 0, all))
  {
  }

  lemma ChildVisitsAgreeStep(a: Node, b: Node, k: nat, all: bool)
    requires k < |a.children| && k < |b.children|
    requires AllAlike(ChildVisits(a, k, all), ChildVisits(b, k, all))
    requires AllAlike(VisitsOfChild(a, k, all), VisitsOfChild(b, k, all))
    ensures AllAlike(ChildVisits(a, k + 1, all), ChildVisits(b, k + 1, all))
  {
    ChildVisitsStep(a, k, all);
    ChildVisitsStep(b, k, all);
    hide *;
    ConcatAgrees(ChildVisits(a, k, all), ChildVisits(b, k, all), VisitsOfChild(a, k, all), VisitsOfChild(b, k, all));
  }

  lemma ChildVisitsStep(n: Node, k: nat, all: bool)
    requires k < |n.children|
    ensures ChildVisits(n, k + 1, all) == ChildVisits(n, k, all) + VisitsOfChild(n, k, all)
  {
    hide VisitsOfChild;
  }

  lemma {:induction false} VisitsOfChildAgree(a: Node, b: Node, i: nat, all: bool)
    requires SameStatic(a, b) && (all || SameActive(a, b)) && i < |a.children|
    ensures i < |b.children| && AllAlike(VisitsOfChild(a, i, all), VisitsOfChild(b, i, all))
    decreases a, 0
  {
    var c, d := a.children[i], b.children[i];
    assert SameStatic(c, d) && (all || SameActive(c, d)) && KeyOf(c) == KeyOf(d);
    hide SameStatic, SameActive, AllAlike;
    VisitsAgree(c, d, all);
    ReferencesAgree(a, b, c, d);
    hide Visits, References, Prefixed, KeyOf;
    PrefixedAgree(KeyOf(c), Visits(c, all), Visits(d, all));
    PrefixedAgree(KeyOf(c), References(a, c), References(b, d));
    ConcatAgrees(Prefixed(KeyOf(c), Visits(c, all)), Prefixed(KeyOf(d), Visits(d, all)),
                 Prefixed(KeyOf(c), References(a, c)), Prefixed(KeyOf(d), References(b, d)));
  }

  lemma ConcatAgrees(vs: seq<Visit>, ws: seq<Visit>, xs: seq<Visit>, ys: seq<Visit>)
    requires AllAlike(vs, ws) && AllAlike(xs, ys)
    ensures AllAlike(vs + xs, ws + ys)
  {
  }

  lemma PrefixedAgree(key: Key, vs: seq<Visit>, ws: seq<Visit>)
    requires AllAlike(vs, ws)
    ensures AllAlike(Prefixed(key, vs), Prefixed(key, ws))
  {
  }

  lemma ReferencesAre(n: Node, c: Node)
    ensures var referred, references := Referred(c.model.kind), c.model.staticModel.references;
            References(n, c) ==
            if referred.Some? then ReferenceVisits(n, referred.value, references, |references|) else []
  {
    hide ReferenceVisits;
  }

  lemma ReferencesAgree(a: Node, b: Node, c: Node, d: Node)
    requires SameStatic(a, b) && SameStatic(c, d)
    ensures AllAlike(References(a, c), References(b, d))
  {
    var referred := Referred(c.model.kind);
    if referred.Some? {
      ReferenceVisitsAgree(a, b, referred.value, c.model.staticModel.references, |c.model.staticModel.references|);
    }
  }

  lemma {:induction false} ReferenceVisitsAgree(a: Node, b: Node, kind: Kind, references: seq<Index>, k: nat)
    requires SameStatic(a, b) && k <= |references|
    ensures AllAlike(ReferenceVisits(a, kind, references, k), ReferenceVisits(b, kind, references, k))
  {
    hide *;
    if k == 0 {
      NoReferenceVisits(a, b, kind, references);
    } else {
      var key := Key(kind, references[k - 1]);
      ReferenceVisitsAgree(a, b, kind, references, k - 1);
      ReferenceVisitAgrees(a, b, key);
      ReferenceVisitsStep(a, kind, references, k - 1);
      ReferenceVisitsStep(b, kind, references, k - 1);
      ConcatAgrees(ReferenceVisits(a, kind, references, k - 1), ReferenceVisits(b, kind, references, k - 1),
                   ReferenceVisit(a, key), ReferenceVisit(b, key));
    }
  }

  lemma NoReferenceVisits(a: Node, b: Node, kind: Kind, references: seq<Index>)
    ensures AllAlike(ReferenceVisits(a, kind, references, 0), ReferenceVisits(b, kind, references, 0))
  {
  }

  lemma ReferenceVisitsStep(n: Node, kind: Kind, references: seq<Index>, k: nat)
    requires k < |references|
    ensures ReferenceVisits(n, kind, references, k + 1)
         == ReferenceVisits(n, kind, references, k) + ReferenceVisit(n, Key(kind, references[k]))
  {
    hide ReferenceVisit;
  }

  lemma ReferenceVisitAgrees(a: Node, b: Node, key: Key)
    requires SameStatic(a, b)
    ensures AllAlike(ReferenceVisit(a, key), ReferenceVisit(b, key))
  {
    FindAgrees(a.children, b.children, key);
    var k := Find(a.children, key);
    if k < |a.children| {
      var s, t := a.children[k], b.children[k];
      assert SameStatic(s, t);
      VisitsBelowAgree(key, s, t);
      assert AllAlike([Visit([key], s.model, true)], [Visit([key], t.model, true)]);
      hide AllAlike, SameStatic, VisitsBelow;
      ConcatAgrees([Visit([key], s.model, true)], [Visit([key], t.model, true)],
                   VisitsBelow(key, s), VisitsBelow(key, t));
    }
  }

  lemma VisitsBelowAgree(key: Key, s: Node, t: Node)
    requires SameStatic(s, t)
    ensures AllAlike(VisitsBelow(key, s), VisitsBelow(key, t))
  {
    forall i | 0 <= i < |s.children| ensures Alike(VisitsBelow(key, s)[i], VisitsBelow(key, t)[i]) {
      assert SameStatic(s.children[i], t.children[i]);
    }
  }

  lemma {:induction false} FindAgrees(ns: seq<Node>, ms: seq<Node>, key: Key)
    requires |ns| == |ms| && forall k :: 0 <= k < |ns| ==> SameStatic(ns[k], ms[k])
    ensures Find(ns, key) == Find(ms, key)
  {
    if ns != [] {
      assert SameStatic(ns[0], ms[0]);
      FindAgrees(ns[1..], ms[1..], key);
    }
  }
  lemma ChildIsGraph(n: Node, k: nat)
    requires IsGraph(n) && k < |n.children|
    ensures IsGraph(n.children[k])
  {
  }

  lemma ChildKindAllowed(n: Node, k: nat)
    requires IsGraph(n) && k < |n.children|
    ensures n.children[k].model.kind in ChildKinds(n.model.kind)
  {
  }

  lemma VisitsOf(c: Node)
    ensures Visits(c, true) == [Visit([], c.model, false)] + ChildVisits(c, |c.children|, true)
  {
    hide ChildVisits;
  }

  // ---------------------------------------------------------------- Active configurations

  /** A visit to the entity, to a configuration, or to what is within an active one. */
  predicate IsEntered(n: Node, v: Visit) {
    |v.path| <= 1 || exists i :: 0 <= i < |n.children| && IsActive(n.children[i], v.path[0])
  }

  predicate IsActive(c: Node, key: Key) {
    KeyOf(c) == key && c.model.dynamicModel.active
  }

  /** Those of the visits, in their order. */
  function Entered(n: Node, vs: seq<Visit>): seq<Visit> {
    if vs == [] then []
    else Entered(n, vs[..|vs| - 1]) + if IsEntered(n, vs[|vs| - 1]) then [vs[|vs| - 1]] else []
  }

  lemma {:induction false} EnteredHas(n: Node, vs: seq<Visit>, v: Visit)
    ensures v in Entered(n, vs) <==> v in vs && IsEntered(n, v)
  {
    if vs != [] {
      EnteredHas(n, vs[..|vs| - 1], v);
      assert vs == vs[..|vs| - 1] + [vs[|vs| - 1]];
      hide IsEntered;
    }
  }

  lemma {:induction false} EnteredConcat(n: Node, vs: seq<Visit>, ws: seq<Visit>)
    ensures Entered(n, vs + ws) == Entered(n, vs) + Entered(n, ws)
  {
    if ws == [] {
      assert vs + ws == vs;
    } else {
      var k := |ws| - 1;
      EnteredConcat(n, vs, ws[..k]);
      assert (vs + ws)[..|vs| + k] == vs + ws[..k];
      hide IsEntered;
    }
  }

  lemma {:induction false} AllEntered(n: Node, vs: seq<Visit>)
    requires forall i :: 0 <= i < |vs| ==> IsEntered(n, vs[i])
    ensures Entered(n, vs) == vs
  {
    if vs != [] {
      AllEntered(n, vs[..|vs| - 1]);
      assert vs == vs[..|vs| - 1] + [vs[|vs| - 1]];
      hide IsEntered;
    }
  }

  lemma {:induction false} NoneEntered(n: Node, vs: seq<Visit>)
    requires forall i :: 0 <= i < |vs| ==> !IsEntered(n, vs[i])
    ensures Entered(n, vs) == []
  {
    if vs != [] {
      NoneEntered(n, vs[..|vs| - 1]);
      hide IsEntered;
    }
  }

  /** Neither an entity nor a configuration, so that all of it is visited whatever the caller asks for. */
  predicate IsInner(kind: Kind) {
    kind != Entity && kind != Configuration
  }

  lemma InnerChild(n: Node, k: nat)
    requires IsGraph(n) && k < |n.children| && n.model.kind != Entity
    ensures IsGraph(n.children[k]) && IsInner(n.children[k].model.kind)
  {
    ChildKindAllowed(n, k);
    ChildIsGraph(n, k);
    hide IsGraph;
  }

  lemma {:induction false} InnerVisits(n: Node)
    requires IsGraph(n) && IsInner(n.model.kind)
    ensures Visits(n, false) == Visits(n, true)
    decreases n, |n.children| + 1
  {
    InnerChildVisits(n, |n.children|);
    hide ChildVisits;
  }

  lemma {:induction false} InnerChildVisits(n: Node, k: nat)
    requires IsGraph(n) && n.model.kind != Entity && k <= |n.children|
    ensures ChildVisits(n, k, false) == ChildVisits(n, k, true)
    decreases n, k
  {
    hide *;
    if k == 0 {
      NoneYet(n);
    } else {
      InnerChildVisits(n, k - 1);
      InnerVisitsOfChild(n, k - 1);
      ChildVisitsStep(n, k - 1, false);
      ChildVisitsStep(n, k - 1, true);
    }
  }

  lemma {:induction false} InnerVisitsOfChild(n: Node, k: nat)
    requires IsGraph(n) && n.model.kind != Entity && k < |n.children|
    ensures VisitsOfChild(n, k, false) == VisitsOfChild(n, k, true)
    decreases n, 0
  {
    InnerChild(n, k);
    InnerVisits(n.children[k]);
    hide IsGraph, Visits, References, Prefixed, KeyOf;
  }

  /** What is below a node has a path. */
  lemma {:induction false} PathsBelow(n: Node, k: nat, all: bool)
    requires k <= |n.children|
    ensures forall i :: 0 <= i < |ChildVisits(n, k, all)| ==> |ChildVisits(n, k, all)[i].path| >= 1
    decreases k
  {
    if k > 0 {
      PathsBelow(n, k - 1, all);
      PathsOfChild(n, k - 1, all);
      ChildVisitsStep(n, k - 1, all);
      hide ChildVisits, VisitsOfChild;
    }
  }

  lemma PathsOfChild(n: Node, k: nat, all: bool)
    requires k < |n.children|
    ensures forall i :: 0 <= i < |VisitsOfChild(n, k, all)| ==>
              |VisitsOfChild(n, k, all)[i].path| >= 1 && VisitsOfChild(n, k, all)[i].path[0] == KeyOf(n.children[k])
  {
    hide Visits, References, KeyOf;
  }

  /** What is visited of a configuration, by the two ways of asking. */
  lemma ConfigurationVisits(c: Node)
    requires IsGraph(c) && c.model.kind == Configuration
    ensures c.model.dynamicModel.active ==> Visits(c, false) == Visits(c, true)
    ensures !c.model.dynamicModel.active ==> Visits(c, false) == [Visit([], c.model, false)]
  {
    InnerChildVisits(c, |c.children|);
    hide ChildVisits;
  }

  lemma ConfigurationSplit(n: Node, k: nat)
    requires IsGraph(n) && n.model.kind == Entity && k < |n.children|
    ensures var c, key := n.children[k], KeyOf(n.children[k]);
            && IsGraph(c) && c.model.kind == Configuration
            && VisitsOfChild(n, k, false) == Prefixed(key, Visits(c, false))
            && VisitsOfChild(n, k, true)
               == Prefixed(key, [Visit([], c.model, false)]) + Prefixed(key, ChildVisits(c, |c.children|, true))
  {
    hide *;
    var c, key := n.children[k], KeyOf(n.children[k]);
    ConfigurationChild(n, k);
    VisitsOf(c);
    PrefixedSplit(key, [Visit([], c.model, false)], ChildVisits(c, |c.children|, true));
  }

  lemma ConfigurationChild(n: Node, k: nat)
    requires IsGraph(n) && n.model.kind == Entity && k < |n.children|
    ensures var c := n.children[k];
            && IsGraph(c) && c.model.kind == Configuration
            && forall all :: VisitsOfChild(n, k, all) == Prefixed(KeyOf(c), Visits(c, all))
  {
    var c := n.children[k];
    ChildKindAllowed(n, k);
    assert c.model.kind == Configuration && References(n, c) == [];
    hide Visits, References, KeyOf;
  }

  /** A child of the entity is entered, below its own visit, exactly when it is active. */
  lemma EnteredWithin(n: Node, k: nat, v: Visit)
    requires IsGraph(n) && k < |n.children| && |v.path| >= 2 && v.path[0] == KeyOf(n.children[k])
    ensures IsEntered(n, v) <==> n.children[k].model.dynamicModel.active
  {
    if n.children[k].model.dynamicModel.active {
      assert IsActive(n.children[k], v.path[0]);
    }
    forall i | 0 <= i < |n.children| && i != k ensures KeyOf(n.children[i]) != v.path[0] {
      KeysAreDistinct(n, i, k);
    }
    hide IsGraph, KeyOf;
  }

  lemma EnteredChild(n: Node, k: nat)
    requires IsGraph(n) && n.model.kind == Entity && k < |n.children|
    ensures VisitsOfChild(n, k, false) == Entered(n, VisitsOfChild(n, k, true))
  {
    var c, key := n.children[k], KeyOf(n.children[k]);
    var own, rest := Prefixed(key, [Visit([], c.model, false)]), Prefixed(key, ChildVisits(c, |c.children|, true));
    ConfigurationSplit(n, k);
    ConfigurationVisits(c);
    VisitsOf(c);
    EnteredConcat(n, own, rest);
    AllEntered(n, own);
    PathsBelow(c, |c.children|, true);
    forall i | 0 <= i < |rest| ensures IsEntered(n, rest[i]) <==> c.model.dynamicModel.active {
      hide IsEntered, ChildVisits;
      EnteredWithin(n, k, rest[i]);
    }
    PrefixedSplit(key, [Visit([], c.model, false)], ChildVisits(c, |c.children|, true));
    hide *;
    if c.model.dynamicModel.active {
      AllEntered(n, rest);
    } else {
      NoneEntered(n, rest);
    }
  }

  lemma PrefixedSplit(key: Key, vs: seq<Visit>, ws: seq<Visit>)
    ensures Prefixed(key, vs + ws) == Prefixed(key, vs) + Prefixed(key, ws)
  {
  }

  lemma {:induction false} EnteredChildren(n: Node, k: nat)
    requires IsGraph(n) && n.model.kind == Entity && k <= |n.children|
    ensures ChildVisits(n, k, false) == Entered(n, ChildVisits(n, k, true))
  {
    hide *;
    if k == 0 {
      NoneYet(n);
    } else {
      EnteredChildren(n, k - 1);
      EnteredChild(n, k - 1);
      ChildVisitsStep(n, k - 1, false);
      ChildVisitsStep(n, k - 1, true);
      EnteredConcat(n, ChildVisits(n, k - 1, true), VisitsOfChild(n, k - 1, true));
    }
  }

  lemma NoneYet(n: Node)
    ensures ChildVisits(n, 0, false) == [] && ChildVisits(n, 0, true) == [] && Entered(n, []) == []
  {
  }

  /** Unless all configurations are asked for, what is visited is what would be, but for all that is within an inactive
      configuration, and in the same order. */
  lemma ActiveVisits(n: Node)
    requires IsEntity(n)
    ensures Visits(n, false) == Entered(n, Visits(n, true))
    ensures forall v :: v in Visits(n, false) <==> v in Visits(n, true) && IsEntered(n, v)
  {
    var own := [Visit([], n.model, false)];
    EnteredChildren(n, |n.children|);
    VisitsOf(n);
    assert Visits(n, false) == own + ChildVisits(n, |n.children|, false);
    hide Visits, ChildVisits, IsGraph;
    EnteredConcat(n, own, ChildVisits(n, |n.children|, true));
    AllEntered(n, own);
    forall v ensures v in Visits(n, false) <==> v in Visits(n, true) && IsEntered(n, v) {
      EnteredHas(n, Visits(n, true), v);
    }
  }
}
