/** What the checksum tells of a model: everything that is serialized, and where it is. */
module ChecksumContent {

  import opened Common
  import opened Words
  import opened EntityGraph
  import opened ChecksumVisitor

  // ---------------------------------------------------------------- What is serialized of a visit

  /** The header of a node and of what leads to it. */
  function HeaderBytes(v: Visit): Bytes {
    AncestorBytes(v.path) + NodeBytes(v.model)
  }

  function FullBytes(version: nat, v: Visit): Bytes {
    HeaderBytes(v) + [ByteOf(StartStaticModel)] + StaticBytes(version, v.model)
  }

  /** A node met through its real parent is serialized with its static model: from version 1 on, and timings, PTP
      instances, PTP ports and the controls of PTP instances from version 2 on. */
  lemma RealNodesAreSerialized(version: nat, v: Visit)
    requires !v.isVirtual
    ensures var late := v.model.kind in {Timing, PtpInstance, PtpPort}
                        || (v.model.kind == Control
                            && exists i :: 0 <= i < |v.path| - 1 && v.path[i].kind == PtpInstance);
            VisitBytes(version, v) ==
            if version >= 2 || (version == 1 && !late) then FullBytes(version, v) else []
  {
    AncestorsHave(v.path, PtpInstance);
    VisitBytesAre(version, v);
    hide Ancestors, VisitBytes, StaticBytes, AncestorBytes, NodeBytes, ByteOf;
  }

  /** The types of the ancestors, in their order: of the entity for a configuration, and below that from the
      configuration on. */
  lemma AncestorTypes(path: seq<Key>, i: nat)
    requires i < |path| - 1
    ensures |AncestorBytes(path)| == 2 * (|path| - 1)
    ensures AncestorBytes(path)[2 * i..2 * i + 2] == Le16(DescriptorType(path[i].kind))
  {
    KindsAre(path, |path| - 1);
    TypesAre(Ancestors(path), |path| - 1, i);
    hide Kinds, KindBytes;
  }

  lemma {:induction false} KindsAre(path: seq<Key>, k: nat)
    requires k <= |path|
    ensures |Kinds(path, k)| == k && forall i :: 0 <= i < k ==> Kinds(path, k)[i] == path[i].kind
  {
    if k > 0 {
      KindsAre(path, k - 1);
    }
  }

  lemma {:induction false} TypesAre(kinds: seq<Kind>, k: nat, i: nat)
    requires i < k <= |kinds|
    ensures |KindBytes(kinds, k)| == 2 * k && KindBytes(kinds, k)[2 * i..2 * i + 2] == Le16(DescriptorType(kinds[i]))
  {
    KindBytesStep(kinds, k - 1);
    LengthOfLe16(DescriptorType(kinds[k - 1]));
    hide Le16, DescriptorType;
    if i < k - 1 {
      TypesAre(kinds, k - 1, i);
    } else if k > 1 {
      TypesAre(kinds, k - 1, 0);
    }
  }

  lemma AncestorsHave(path: seq<Key>, kind: Kind)
    requires kind != Entity
    ensures kind in Ancestors(path) <==> exists i :: 0 <= i < |path| - 1 && path[i].kind == kind
  {
    if path != [] {
      KindsHave(path, |path| - 1, kind);
    }
  }

  lemma {:induction false} KindsHave(path: seq<Key>, k: nat, kind: Kind)
    requires k <= |path|
    ensures kind in Kinds(path, k) <==> exists i :: 0 <= i < k && path[i].kind == kind
  {
    if k > 0 {
      KindsHave(path, k - 1, kind);
    }
  }

  /** A node met through a reference: a stream of a redundant pair by its header, from version 1 on; a clock source of a
      clock domain in version 1 alone, then with its static model; nothing of a timing's PTP instance. */
  lemma ReferencesAreSerialized(version: nat, v: Visit)
    requires v.isVirtual && |v.path| >= 2
    ensures var referrer := v.path[|v.path| - 2].kind;
            VisitBytes(version, v) ==
            if referrer == RedundantStreamInput || referrer == RedundantStreamOutput then
              (if version >= 1 then HeaderBytes(v) else [])
            else if referrer == ClockDomain && version == 1 then FullBytes(version, v)
            else []
  {
    hide *;
    VisitBytesAre(version, v);
    PartOfMet(version, v);
    HeaderBytesAre(v);
    FullBytesAre(version, v);
  }

  lemma HeaderBytesAre(v: Visit)
    ensures HeaderBytes(v) == AncestorBytes(v.path) + NodeBytes(v.model)
  {
    hide AncestorBytes, NodeBytes;
  }

  lemma PartOfMet(version: nat, v: Visit)
    requires v.isVirtual && |v.path| >= 2
    ensures var referrer := v.path[|v.path| - 2].kind;
            PartOf(version, v) ==
            if referrer == RedundantStreamInput || referrer == RedundantStreamOutput then
              (if version >= 1 then NodeOnly else Nothing)
            else if referrer == ClockDomain && version == 1 then NodeAndStatic
            else Nothing
  {
    var ancestors := v.path[..|v.path| - 1];
    assert ancestors[|ancestors| - 1] == v.path[|v.path| - 2];
  }

  // ---------------------------------------------------------------- Models of one size

  /** Same nodes, whatever their models. */
  predicate SameKeys(a: Node, b: Node) {
    && a.model.kind == b.model.kind && a.model.index == b.model.index && |a.children| == |b.children|
    && forall k :: 0 <= k < |a.children| ==> SameKeys(a.children[k], b.children[k])
  }

  /** The runs that are serialized have the same lengths. */
  predicate SameLengths(m: Model, n: Model) {
    var s, t, d, e := m.staticModel, n.staticModel, m.dynamicModel, n.dynamicModel;
    && |s.fields| == |t.fields| && |s.flags| == |t.flags| && |s.trailer| == |t.trailer|
    && |s.references| == |t.references| && |s.counts| == |t.counts|
    && |d.macAddress| == |e.macAddress| && |d.clock| == |e.clock|
  }

  predicate AllSameLengths(a: Node, b: Node) {
    && SameLengths(a.model, b.model) && |a.children| == |b.children|
    && forall k :: 0 <= k < |a.children| ==> AllSameLengths(a.children[k], b.children[k])
  }

  /** What the checksum reads of two models agrees: fields, and counts or references; of an AVB interface flags and
      trailer, and before version 3 two runs of dynamic fields; of a clock domain the trailer, from version 4 on. */
  predicate ReadAlike(version: nat, m: Model, n: Model) {
    var s, t, d, e := m.staticModel, n.staticModel, m.dynamicModel, n.dynamicModel;
    && s.fields == t.fields
    && match m.kind
       case Configuration => s.counts == t.counts
       case AvbInterface =>
         && s.flags == t.flags && s.trailer == t.trailer
         && (version < 3 ==> d.macAddress == e.macAddress && d.clock == e.clock)
       case ClockDomain => s.references == t.references && (version >= 4 ==> s.trailer == t.trailer)
       case _ => s.references == t.references
  }

  predicate AllReadAlike(version: nat, a: Node, b: Node) {
    && ReadAlike(version, a.model, b.model) && |a.children| == |b.children|
    && forall k :: 0 <= k < |a.children| ==> AllReadAlike(version, a.children[k], b.children[k])
  }

  // ---------------------------------------------------------------- One static model

  lemma {:induction false} LengthOfReferences(a: seq<Index>, k: nat)
    requires k <= |a|
    ensures |ReferenceBytes(a, k)| == 2 * k
  {
    if k > 0 {
      LengthOfReferences(a, k - 1);
      ReferenceBytesStep(a, k - 1);
      LengthOfLe16(a[k - 1]);
      hide ReferenceBytes, Le16;
    }
  }

  lemma {:induction false} ReferenceBytesTell(a: seq<Index>, b: seq<Index>, k: nat)
    requires k <= |a| && k <= |b|
    ensures ReferenceBytes(a, k) == ReferenceBytes(b, k) <==> a[..k] == b[..k]
  {
    if k > 0 {
      var n := k - 1;
      hide ReferenceBytes, Le16;
      ReferenceBytesTell(a, b, n);
      LengthOfReferences(a, n);
      LengthOfReferences(b, n);
      ReferenceBytesStep(a, n);
      ReferenceBytesStep(b, n);
      Le16Injective(a[n], b[n]);
      assert a[..k] == a[..n] + [a[n]] && b[..k] == b[..n] + [b[n]];
      ConcatEqualIff(ReferenceBytes(a, n), Le16(a[n]), ReferenceBytes(b, n), Le16(b[n]));
    }
  }

  lemma {:induction false} LengthOfCounts(counts: map<Index, Index>, k: nat)
    requires k <= 0x1_0000
    ensures |CountBytes(counts, k)| == 4 * |set i: Index | i in counts && i < k|
  {
    var below := set i: Index | i in counts && i < k;
    if k == 0 {
      assert below == {};
    } else {
      var n: Index := k - 1;
      var fewer := set i: Index | i in counts && i < n;
      LengthOfCounts(counts, n);
      CountBytesStep(counts, n);
      assert below == if n in counts then fewer + {n} else fewer;
      if n in counts {
        LengthOfLe16(n);
        LengthOfLe16(counts[n]);
      }
      hide CountBytes, Le16;
    }
  }

  lemma CountsTell(a: map<Index, Index>, b: map<Index, Index>)
    requires |a| == |b|
    ensures |CountBytes(a, 0x1_0000)| == |CountBytes(b, 0x1_0000)|
    ensures CountBytes(a, 0x1_0000) == CountBytes(b, 0x1_0000) <==> a == b
  {
    LengthOfCounts(a, 0x1_0000);
    LengthOfCounts(b, 0x1_0000);
    assert (set i: Index | i in a && i < 0x1_0000) == a.Keys && (set i: Index | i in b && i < 0x1_0000) == b.Keys;
    CountBytesDistinguish(a, b, 0x1_0000);
    hide CountBytes;
    assert SameBelow(a, b, 0x1_0000) <==> a == b;
  }

  lemma AllReferencesTell(a: seq<Index>, b: seq<Index>)
    requires |a| == |b|
    ensures |ReferenceBytes(a, |a|)| == |ReferenceBytes(b, |b|)|
    ensures ReferenceBytes(a, |a|) == ReferenceBytes(b, |b|) <==> a == b
  {
    ReferenceBytesTell(a, b, |a|);
    LengthOfReferences(a, |a|);
    LengthOfReferences(b, |b|);
    assert a[..|a|] == a && b[..|a|] == b;
  }

  lemma StaticBytesTell(version: nat, m: Model, n: Model)
    requires m.kind == n.kind && SameLengths(m, n)
    ensures |StaticBytes(version, m)| == |StaticBytes(version, n)|
    ensures StaticBytes(version, m) == StaticBytes(version, n) <==> ReadAlike(version, m, n)
  {
    StaticBytesAre(version, m);
    StaticBytesAre(version, n);
    var s, t, d, e := m.staticModel, n.staticModel, m.dynamicModel, n.dynamicModel;
    AllReferencesTell(s.references, t.references);
    CountsTell(s.counts, t.counts);
    hide StaticBytes, ReferenceBytes, CountBytes;
    var refs, others := ReferenceBytes(s.references, |s.references|), ReferenceBytes(t.references, |t.references|);
    ConcatEqualIff(s.fields, refs, t.fields, others);
    ConcatEqualIff(s.fields + refs, s.trailer, t.fields + others, t.trailer);
    ConcatEqualIff(s.fields, CountBytes(s.counts, 0x1_0000), t.fields, CountBytes(t.counts, 0x1_0000));
    if m.kind == AvbInterface {
      ConcatEqualIff(s.fields, s.flags, t.fields, t.flags);
      ConcatEqualIff(s.fields + s.flags, s.trailer, t.fields + t.flags, t.trailer);
      ConcatEqualIff(s.fields, d.macAddress, t.fields, e.macAddress);
      ConcatEqualIff(s.fields + d.macAddress, s.flags, t.fields + e.macAddress, t.flags);
      ConcatEqualIff(s.fields + d.macAddress + s.flags, d.clock, t.fields + e.macAddress + t.flags, e.clock);
      ConcatEqualIff(s.fields + d.macAddress + s.flags + d.clock, s.trailer,
                     t.fields + e.macAddress + t.flags + e.clock, t.trailer);
    }
  }

  /** The real visits to two nodes of one key by one path. */
  lemma OwnBytesTell(version: nat, path: seq<Key>, m: Model, n: Model)
    requires version >= 2 && m.kind == n.kind && m.index == n.index && SameLengths(m, n)
    ensures var v, w := Visit(path, m, false), Visit(path, n, false);
            && |VisitBytes(version, v)| == |VisitBytes(version, w)|
            && (VisitBytes(version, v) == VisitBytes(version, w) <==> ReadAlike(version, m, n))
  {
    var v, w := Visit(path, m, false), Visit(path, n, false);
    RealNodesAreSerialized(version, v);
    RealNodesAreSerialized(version, w);
    StaticBytesTell(version, m, n);
    SameHeader(v, w);
    hide *;
    ConcatEqualIff(HeaderBytes(v) + [ByteOf(StartStaticModel)], StaticBytes(version, m),
                   HeaderBytes(w) + [ByteOf(StartStaticModel)], StaticBytes(version, n));
    FullBytesAre(version, v);
    FullBytesAre(version, w);
  }

  lemma FullBytesAre(version: nat, v: Visit)
    ensures FullBytes(version, v) == HeaderBytes(v) + [ByteOf(StartStaticModel)] + StaticBytes(version, v.model)
  {
    hide HeaderBytes, StaticBytes, ByteOf;
  }

  predicate SameKey(v: Visit, w: Visit) {
    && v.path == w.path && v.isVirtual == w.isVirtual
    && v.model.kind == w.model.kind && v.model.index == w.model.index
  }

  lemma SameHeader(v: Visit, w: Visit)
    requires SameKey(v, w)
    ensures HeaderBytes(v) == HeaderBytes(w)
  {
    hide AncestorBytes, Le16, Le32, ByteOf, DescriptorType;
  }

  // ---------------------------------------------------------------- Visits below a path

  function Lifted(path: seq<Key>, vs: seq<Visit>): (r: seq<Visit>)
    ensures |r| == |vs|
  {
    seq(|vs|, i requires 0 <= i < |vs| => vs[i].(path := path + vs[i].path))
  }

  lemma LiftedParts(path: seq<Key>, key: Key, vs: seq<Visit>, ws: seq<Visit>)
    ensures Lifted(path, vs + ws) == Lifted(path, vs) + Lifted(path, ws)
    ensures Lifted(path, Prefixed(key, vs)) == Lifted(path + [key], vs)
  {
    forall i | 0 <= i < |vs| ensures path + ([key] + vs[i].path) == path + [key] + vs[i].path { }
  }

  lemma {:induction false} AllBytesConcat(version: nat, vs: seq<Visit>, ws: seq<Visit>)
    ensures AllBytes(version, vs + ws) == AllBytes(version, vs) + AllBytes(version, ws)
  {
    hide *;
    if ws == [] {
      NoVisit(version);
      assert vs + ws == vs && AllBytes(version, vs) + [] == AllBytes(version, vs);
    } else {
      var n := |ws| - 1;
      AllBytesConcat(version, vs, ws[..n]);
      assert (vs + ws)[..|vs| + n] == vs + ws[..n];
      AllBytesLast(version, vs + ws);
      AllBytesLast(version, ws);
      Associative(AllBytes(version, vs), AllBytes(version, ws[..n]), VisitBytes(version, ws[n]));
    }
  }

  lemma NoVisit(version: nat)
    ensures AllBytes(version, []) == []
  {
  }

  /** The bytes of a node and of all below it. */
  function NodeStream(version: nat, path: seq<Key>, n: Node): Bytes {
    AllBytes(version, Lifted(path, Visits(n, true)))
  }

  function ChildStreams(version: nat, path: seq<Key>, n: Node, k: nat): Bytes
    requires k <= |n.children|
  {
    AllBytes(version, Lifted(path, ChildVisits(n, k, true)))
  }

  function ReferenceStream(version: nat, path: seq<Key>, n: Node, c: Node): Bytes {
    AllBytes(version, Lifted(path, References(n, c)))
  }

  lemma NodeStreamIs(version: nat, path: seq<Key>, n: Node)
    ensures NodeStream(version, path, n)
         == VisitBytes(version, Visit(path, n.model, false)) + ChildStreams(version, path, n, |n.children|)
  {
    var own, rest := [Visit([], n.model, false)], ChildVisits(n, |n.children|, true);
    VisitsOf(n);
    LiftedParts(path, KeyOf(n), own, rest);
    assert path + [] == path;
    assert Lifted(path, own) == [Visit(path, n.model, false)];
    OneVisit(version, Visit(path, n.model, false));
    hide VisitBytes, AllBytes, Visits, ChildVisits;
    AllBytesConcat(version, Lifted(path, own), Lifted(path, rest));
  }

  lemma OneVisit(version: nat, v: Visit)
    ensures AllBytes(version, [v]) == VisitBytes(version, v) && AllBytes(version, []) == []
  {
    AllBytesLast(version, [v]);
    assert [v][..0] == [];
    hide VisitBytes;
  }

  lemma ChildStreamsStep(version: nat, path: seq<Key>, n: Node, k: nat)
    requires k < |n.children|
    ensures var below := path + [KeyOf(n.children[k])];
            ChildStreams(version, path, n, k + 1) ==
            ChildStreams(version, path, n, k)
            + (NodeStream(version, below, n.children[k]) + ReferenceStream(version, below, n, n.children[k]))
  {
    var c := n.children[k];
    var below := path + [KeyOf(c)];
    ChildVisitsStep(n, k, true);
    VisitsOfChildAre(n, k);
    hide AllBytes, Visits, ChildVisits, VisitsOfChild, References, KeyOf, Prefixed, Lifted;
    var own, met := Prefixed(KeyOf(c), Visits(c, true)), Prefixed(KeyOf(c), References(n, c));
    LiftedParts(path, KeyOf(c), ChildVisits(n, k, true), VisitsOfChild(n, k, true));
    LiftedParts(path, KeyOf(c), own, met);
    LiftedParts(path, KeyOf(c), Visits(c, true), []);
    LiftedParts(path, KeyOf(c), References(n, c), []);
    AllBytesConcat(version, Lifted(path, ChildVisits(n, k, true)), Lifted(path, VisitsOfChild(n, k, true)));
    AllBytesConcat(version, Lifted(path, own), Lifted(path, met));
  }

  lemma VisitsOfChildAre(n: Node, k: nat)
    requires k < |n.children|
    ensures var c := n.children[k];
            VisitsOfChild(n, k, true) == Prefixed(KeyOf(c), Visits(c, true)) + Prefixed(KeyOf(c), References(n, c))
  {
    hide Visits, References, KeyOf, Prefixed;
  }

  lemma NoChildStreams(version: nat, path: seq<Key>, n: Node)
    ensures ChildStreams(version, path, n, 0) == []
  {
    assert ChildVisits(n, 0, true) == [];
    assert Lifted(path, []) == [];
  }

  // ---------------------------------------------------------------- What is met through references

  ghost predicate AllSameKey(vs: seq<Visit>, ws: seq<Visit>) {
    |vs| == |ws| && forall i :: 0 <= i < |vs| ==> vs[i].isVirtual && vs[i].path != [] && SameKey(vs[i], ws[i])
  }

  lemma {:induction false} FindSame(ns: seq<Node>, ms: seq<Node>, key: Key)
    requires |ns| == |ms| && forall k :: 0 <= k < |ns| ==> KeyOf(ns[k]) == KeyOf(ms[k])
    ensures Find(ns, key) == Find(ms, key)
  {
    if ns != [] {
      FindSame(ns[1..], ms[1..], key);
    }
  }

  lemma ReferenceVisitSame(a: Node, b: Node, key: Key)
    requires SameKeys(a, b)
    ensures AllSameKey(ReferenceVisit(a, key), ReferenceVisit(b, key))
  {
    ChildrenSame(a, b);
    FindSame(a.children, b.children, key);
    var k := Find(a.children, key);
    hide SameKeys, AllSameKey;
    if k == |a.children| {
      NothingMet();
    } else {
      var s, t := a.children[k], b.children[k];
      BelowSame(key, s, t);
      OneSame(key, s, t);
      hide VisitsBelow;
      SameKeyConcat([Visit([key], s.model, true)], [Visit([key], t.model, true)],
                    VisitsBelow(key, s), VisitsBelow(key, t));
    }
  }

  lemma ChildrenSame(a: Node, b: Node)
    requires SameKeys(a, b)
    ensures |a.children| == |b.children|
    ensures forall k :: 0 <= k < |a.children| ==>
              SameKeys(a.children[k], b.children[k]) && KeyOf(a.children[k]) == KeyOf(b.children[k])
  {
  }

  lemma NothingMet()
    ensures AllSameKey([], [])
  {
  }

  lemma OneSame(key: Key, s: Node, t: Node)
    requires SameKeys(s, t)
    ensures AllSameKey([Visit([key], s.model, true)], [Visit([key], t.model, true)])
  {
  }

  lemma BelowSame(key: Key, s: Node, t: Node)
    requires SameKeys(s, t)
    ensures AllSameKey(VisitsBelow(key, s), VisitsBelow(key, t))
  {
    forall i | 0 <= i < |s.children| ensures SameKey(VisitsBelow(key, s)[i], VisitsBelow(key, t)[i]) {
      assert SameKeys(s.children[i], t.children[i]);
    }
  }

  lemma {:induction false} ReferenceVisitsSame(a: Node, b: Node, kind: Kind, references: seq<Index>, k: nat)
    requires SameKeys(a, b) && k <= |references|
    ensures AllSameKey(ReferenceVisits(a, kind, references, k), ReferenceVisits(b, kind, references, k))
  {
    hide *;
    if k == 0 {
      NoneMet(a, b, kind, references);
    } else {
      var key := Key(kind, references[k - 1]);
      ReferenceVisitsSame(a, b, kind, references, k - 1);
      ReferenceVisitSame(a, b, key);
      ReferenceVisitsStep(a, kind, references, k - 1);
      ReferenceVisitsStep(b, kind, references, k - 1);
      SameKeyConcat(ReferenceVisits(a, kind, references, k - 1), ReferenceVisits(b, kind, references, k - 1),
                    ReferenceVisit(a, key), ReferenceVisit(b, key));
    }
  }

  lemma NoneMet(a: Node, b: Node, kind: Kind, references: seq<Index>)
    ensures AllSameKey(ReferenceVisits(a, kind, references, 0), ReferenceVisits(b, kind, references, 0))
  {
  }

  lemma SameKeyConcat(vs: seq<Visit>, ws: seq<Visit>, xs: seq<Visit>, ys: seq<Visit>)
    requires AllSameKey(vs, ws) && AllSameKey(xs, ys)
    ensures AllSameKey(vs + xs, ws + ys)
  {
  }

  lemma {:induction false} MetBytesSame(version: nat, path: seq<Key>, vs: seq<Visit>, ws: seq<Visit>)
    requires version >= 2 && path != [] && AllSameKey(vs, ws)
    ensures AllBytes(version, Lifted(path, vs)) == AllBytes(version, Lifted(path, ws))
  {
    hide *;
    if vs == [] {
      assert ws == [] by {
        SameKeyLengths(vs, ws);
      }
    } else {
      var n := |vs| - 1;
      SameKeyLengths(vs, ws);
      LastSame(path, vs, ws);
      LiftedLast(path, vs);
      LiftedLast(path, ws);
      MetBytesSame(version, path, vs[..n], ws[..n]);
      MetBytes(version, Lifted(path, vs)[n], Lifted(path, ws)[n]);
      AllBytesLast(version, Lifted(path, vs));
      AllBytesLast(version, Lifted(path, ws));
    }
  }

  lemma SameKeyLengths(vs: seq<Visit>, ws: seq<Visit>)
    requires AllSameKey(vs, ws)
    ensures |vs| == |ws|
  {
  }

  lemma LiftedLast(path: seq<Key>, vs: seq<Visit>)
    requires vs != []
    ensures Lifted(path, vs)[..|vs| - 1] == Lifted(path, vs[..|vs| - 1])
  {
  }

  lemma LastSame(path: seq<Key>, vs: seq<Visit>, ws: seq<Visit>)
    requires vs != [] && path != [] && AllSameKey(vs, ws)
    ensures var n := |vs| - 1;
            && |ws| == |vs| && AllSameKey(vs[..n], ws[..n])
            && SameKey(Lifted(path, vs)[n], Lifted(path, ws)[n])
            && Lifted(path, vs)[n].isVirtual && |Lifted(path, vs)[n].path| >= 2
  {
    assert SameKey(vs[|vs| - 1], ws[|vs| - 1]);
  }

  lemma MetBytes(version: nat, v: Visit, w: Visit)
    requires version >= 2 && SameKey(v, w) && v.isVirtual && |v.path| >= 2
    ensures VisitBytes(version, v) == VisitBytes(version, w)
  {
    hide *;
    SameKeyMeans(v, w);
    ReferencesAreSerialized(version, v);
    ReferencesAreSerialized(version, w);
    SameHeader(v, w);
  }

  lemma SameKeyMeans(v: Visit, w: Visit)
    requires SameKey(v, w)
    ensures v.path == w.path && v.isVirtual == w.isVirtual
  {
  }

  /** Nodes that agree in what is read agree in what they refer to, and that is serialized alike. */
  lemma ReferenceStreamsSame(version: nat, path: seq<Key>, a: Node, b: Node, k: nat)
    requires version >= 2 && path != [] && SameKeys(a, b) && k < |a.children|
    requires ReadAlike(version, a.children[k].model, b.children[k].model)
    ensures ReferenceStream(version, path, a, a.children[k]) == ReferenceStream(version, path, b, b.children[k])
  {
    hide *;
    SameKeysBelow(a, b, k);
    var c, d := a.children[k], b.children[k];
    ReferencesRead(version, c.model, d.model);
    var referred := Referred(c.model.kind);
    ReferencesAre(a, c);
    ReferencesAre(b, d);
    ReferenceStreamIs(version, path, a, c);
    ReferenceStreamIs(version, path, b, d);
    if referred.Some? {
      var references := c.model.staticModel.references;
      ReferenceVisitsSame(a, b, referred.value, references, |references|);
      MetBytesSame(version, path, References(a, c), References(b, d));
    }
  }

  lemma ReferenceStreamIs(version: nat, path: seq<Key>, n: Node, c: Node)
    ensures ReferenceStream(version, path, n, c) == AllBytes(version, Lifted(path, References(n, c)))
  {
    hide AllBytes, Lifted, References;
  }

  lemma ReferencesRead(version: nat, m: Model, n: Model)
    requires m.kind == n.kind && ReadAlike(version, m, n)
    ensures Referred(m.kind).Some? ==> m.staticModel.references == n.staticModel.references
  {
  }

  lemma SameKeysBelow(a: Node, b: Node, k: nat)
    requires SameKeys(a, b) && k < |a.children|
    ensures |a.children| == |b.children| && a.children[k].model.kind == b.children[k].model.kind
  {
    assert SameKeys(a.children[k], b.children[k]);
  }

  // ---------------------------------------------------------------- Two models

  /** Where the streams of two nodes agree, and what comes after them, the nodes agree; and the other way round. */
  lemma {:induction false} NodesTell(version: nat, path: seq<Key>, a: Node, b: Node, r: Bytes, s: Bytes)
    requires version >= 2 && SameKeys(a, b) && AllSameLengths(a, b)
    ensures NodeStream(version, path, a) + r == NodeStream(version, path, b) + s
            <==> AllReadAlike(version, a, b) && r == s
    decreases a, |a.children| + 1
  {
    var v, w := Visit(path, a.model, false), Visit(path, b.model, false);
    OwnBytesTell(version, path, a.model, b.model);
    ChildrenTell(version, path, a, b, |a.children|, r, s);
    AllReadAlikeIs(version, a, b);
    hide *;
    NodeStreamIs(version, path, a);
    NodeStreamIs(version, path, b);
    var rest, others := ChildStreams(version, path, a, |a.children|), ChildStreams(version, path, b, |b.children|);
    Associative(VisitBytes(version, v), rest, r);
    Associative(VisitBytes(version, w), others, s);
    ConcatEqualIff(VisitBytes(version, v), rest + r, VisitBytes(version, w), others + s);
  }

  ghost predicate FirstReadAlike(version: nat, a: Node, b: Node, k: nat)
    requires k <= |a.children| == |b.children|
  {
    forall i :: 0 <= i < k ==> AllReadAlike(version, a.children[i], b.children[i])
  }

  lemma AllReadAlikeIs(version: nat, a: Node, b: Node)
    requires |a.children| == |b.children|
    ensures AllReadAlike(version, a, b) <==>
            ReadAlike(version, a.model, b.model) && FirstReadAlike(version, a, b, |a.children|)
  {
    hide ReadAlike;
  }

  lemma FirstReadAlikeStep(version: nat, a: Node, b: Node, k: nat)
    requires k < |a.children| == |b.children|
    ensures FirstReadAlike(version, a, b, 0)
    ensures FirstReadAlike(version, a, b, k + 1) <==>
            FirstReadAlike(version, a, b, k) && AllReadAlike(version, a.children[k], b.children[k])
  {
    hide AllReadAlike;
  }

  lemma {:induction false} ChildrenTell(version: nat, path: seq<Key>, a: Node, b: Node, k: nat, r: Bytes, s: Bytes)
    requires version >= 2 && SameKeys(a, b) && AllSameLengths(a, b) && k <= |a.children| == |b.children|
    ensures ChildStreams(version, path, a, k) + r == ChildStreams(version, path, b, k) + s
            <==> FirstReadAlike(version, a, b, k) && r == s
    decreases a, k
  {
    if k == 0 {
      NoChildStreams(version, path, a);
      NoChildStreams(version, path, b);
      hide ChildStreams;
      assert [] + r == r && [] + s == s;
    } else {
      var c, d := a.children[k - 1], b.children[k - 1];
      var below := path + [KeyOf(c)];
      var met, others := ReferenceStream(version, below, a, c), ReferenceStream(version, below, b, d);
      var x, y := NodeStream(version, below, c) + (met + r), NodeStream(version, below, d) + (others + s);
      SameChild(a, b, k - 1);
      ChildrenTell(version, path, a, b, k - 1, x, y);
      NodesTell(version, below, c, d, met + r, others + s);
      FirstReadAlikeStep(version, a, b, k - 1);
      if AllReadAlike(version, c, d) {
        AllReadAlikeIs(version, c, d);
        ReferenceStreamsSame(version, below, a, b, k - 1);
        ConcatEqualIff(met, r, others, s);
      }
      hide *;
      ChildStreamsStep(version, path, a, k - 1);
      ChildStreamsStep(version, path, b, k - 1);
      Regroup(ChildStreams(version, path, a, k - 1), NodeStream(version, below, c), met, r);
      Regroup(ChildStreams(version, path, b, k - 1), NodeStream(version, below, d), others, s);
    }
  }

  lemma Regroup(a: Bytes, b: Bytes, c: Bytes, d: Bytes)
    ensures a + (b + c) + d == a + (b + (c + d))
  {
  }

  lemma SameChild(a: Node, b: Node, k: nat)
    requires SameKeys(a, b) && AllSameLengths(a, b) && k < |a.children|
    ensures |a.children| == |b.children| && SameKeys(a.children[k], b.children[k])
    ensures AllSameLengths(a.children[k], b.children[k]) && KeyOf(a.children[k]) == KeyOf(b.children[k])
    ensures |a.children[k].children| == |b.children[k].children|
  {
  }

  /** From version 2 on two models with the same nodes and runs of the same lengths give the same stream exactly when
      they agree in all that the checksum reads, node by node. */
  lemma StreamTellsModels(version: nat, milan: Option<MilanInfo>, a: Node, b: Node)
    requires version >= 2 && SameKeys(a, b) && AllSameLengths(a, b)
    ensures Stream(version, milan, a, true) == Stream(version, milan, b, true) <==> AllReadAlike(version, a, b)
  {
    StreamOf(version, milan, a);
    StreamOf(version, milan, b);
    NodesTell(version, [], a, b, [], []);
    hide *;
    ConcatEqualIff(MilanBytes(version, milan), NodeStream(version, [], a),
                   MilanBytes(version, milan), NodeStream(version, [], b));
    assert NodeStream(version, [], a) + [] == NodeStream(version, [], a);
    assert NodeStream(version, [], b) + [] == NodeStream(version, [], b);
  }

  lemma StreamOf(version: nat, milan: Option<MilanInfo>, n: Node)
    ensures Stream(version, milan, n, true) == MilanBytes(version, milan) + NodeStream(version, [], n)
  {
    var vs := Visits(n, true);
    forall i | 0 <= i < |vs| ensures [] + vs[i].path == vs[i].path { }
    assert Lifted([], vs) == vs;
    hide Visits, AllBytes, MilanBytes, Lifted;
  }
}
