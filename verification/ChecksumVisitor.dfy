/** The checksum of an entity model: what the visitor serializes of each visit, by version of the checksum. */
module ChecksumVisitor {

  import opened Common
  import opened Bits
  import opened Words
  import opened EntityGraph
  import Fips180
  import Blocks
  import Serializer = Sha256Serializer

  // ---------------------------------------------------------------- Bytes of numbers

  function ByteOf(v: nat): Byte {
    ToBits(v, 8)
  }

  /** Numbers are serialized in little endian. */
  function Le16(v: Index): Bytes {
    [ByteOf(v % 0x100), ByteOf(v / 0x100)]
  }

  function Le32(v: nat): Bytes {
    [ByteOf(v % 0x100), ByteOf(v / 0x100 % 0x100), ByteOf(v / 0x1_0000 % 0x100), ByteOf(v / 0x100_0000 % 0x100)]
  }

  const StartMilanInfo: nat := 0x26
  const StartNode: nat := 0x24
  const StartVirtualNode: nat := 0x2A
  const StartStaticModel: nat := 0x7C

  // ---------------------------------------------------------------- Milan info

  datatype MilanInfo = MilanInfo(protocolVersion: nat, featuresFlags: nat, certificationVersion: nat,
                                 specificationVersion: nat)

  function MilanBytes(version: nat, milan: Option<MilanInfo>): Bytes {
    if version < 4 || milan.None? then []
    else
      var m := milan.value;
      [ByteOf(StartMilanInfo)] + Le32(m.protocolVersion) + Le32(m.featuresFlags) + Le32(m.certificationVersion)
      + if version >= 5 then Le32(m.specificationVersion) else []
  }

  // ---------------------------------------------------------------- One visit

  /** Redundant streams are of the type of the streams they group. */
  function DescriptorType(kind: Kind): Index {
    match kind
    case Entity => 0x00
    case Configuration => 0x01
    case AudioUnit => 0x02
    case StreamInput => 0x05
    case StreamOutput => 0x06
    case RedundantStreamInput => 0x05
    case RedundantStreamOutput => 0x06
    case JackInput => 0x07
    case JackOutput => 0x08
    case AvbInterface => 0x09
    case ClockSource => 0x0A
    case MemoryObject => 0x0B
    case Locale => 0x0C
    case Strings => 0x0D
    case StreamPortInput => 0x0E
    case StreamPortOutput => 0x0F
    case AudioCluster => 0x14
    case AudioMap => 0x17
    case Control => 0x1A
    case ClockDomain => 0x24
    case Timing => 0x26
    case PtpInstance => 0x27
    case PtpPort => 0x28
  }

  /** The kinds of the ancestors that a visit is handed; the entity counts for its configurations alone. */
  function Ancestors(path: seq<Key>): seq<Kind> {
    if |path| == 1 then [Entity] else Kinds(path, if path == [] then 0 else |path| - 1)
  }

  function Kinds(path: seq<Key>, k: nat): seq<Kind>
    requires k <= |path|
  {
    if k == 0 then [] else Kinds(path, k - 1) + [path[k - 1].kind]
  }

  function KindBytes(kinds: seq<Kind>, k: nat): Bytes
    requires k <= |kinds|
  {
    if k == 0 then [] else KindBytes(kinds, k - 1) + Le16(DescriptorType(kinds[k - 1]))
  }

  /** Only the types of ancestors are serialized; the missing parent of the entity is a node mark and a zero. */
  function AncestorBytes(path: seq<Key>): Bytes {
    if path == [] then [ByteOf(StartNode)] + Le32(0) else KindBytes(Ancestors(path), |Ancestors(path)|)
  }

  function NodeBytes(m: Model): Bytes {
    [ByteOf(if m.kind.IsVirtual() then StartVirtualNode else StartNode)] + Le16(DescriptorType(m.kind))
    + IndexBytes(m.kind, m.index)
  }

  function IndexBytes(kind: Kind, index: nat): Bytes {
    if kind.IsVirtual() then Le32(index) else Le16(index % 0x1_0000)
  }

  function ReferenceBytes(references: seq<Index>, k: nat): Bytes
    requires k <= |references|
  {
    if k == 0 then [] else ReferenceBytes(references, k - 1) + Le16(references[k - 1])
  }

  /** The counts by descriptor type, in increasing order. */
  function CountBytes(counts: map<Index, Index>, below: nat): Bytes
    requires below <= 0x1_0000
  {
    if below == 0 then []
    else
      var before := CountBytes(counts, below - 1);
      if below - 1 in counts then before + Le16(below - 1) + Le16(counts[below - 1]) else before
  }

  /** Versions 1 and 2 read dynamic fields of AVB interfaces by mistake. */
  function StaticBytes(version: nat, m: Model): Bytes {
    var s := m.staticModel;
    match m.kind
    case Configuration => s.fields + CountBytes(s.counts, 0x1_0000)
    case AvbInterface =>
      if version >= 3 then s.fields + s.flags + s.trailer
      else s.fields + m.dynamicModel.macAddress + s.flags + m.dynamicModel.clock + s.trailer
    case ClockDomain =>
      s.fields + ReferenceBytes(s.references, |s.references|) + if version >= 4 then s.trailer else []
    case _ => s.fields + ReferenceBytes(s.references, |s.references|)
  }

  /** The first version of the checksum to serialize a node. */
  function SinceVersion(path: seq<Key>, kind: Kind): nat {
    if kind == Timing || kind == PtpInstance || kind == PtpPort || (kind == Control && PtpInstance in Ancestors(path))
    then 2 else 1
  }

  /** How much of a visit is serialized. */
  datatype Part = Nothing | NodeOnly | NodeAndStatic

  /** A node met through a reference: a stream of a redundant pair leaves its header, a clock source was serialized in
      version 1 alone, and a PTP instance never. */
  function PartOf(version: nat, v: Visit): Part {
    if v.isVirtual then
      match v.path[..|v.path| - if v.path == [] then 0 else 1]
      case ancestors =>
        if ancestors != [] && ancestors[|ancestors| - 1].kind.IsVirtual() then
          (if version >= 1 then NodeOnly else Nothing)
        else if ancestors != [] && ancestors[|ancestors| - 1].kind == ClockDomain then
          (if version == 1 then NodeAndStatic else Nothing)
        else Nothing
    else if version >= SinceVersion(v.path, v.model.kind) then NodeAndStatic
    else Nothing
  }

  function VisitBytes(version: nat, v: Visit): Bytes {
    match PartOf(version, v)
    case Nothing => []
    case NodeOnly => AncestorBytes(v.path) + NodeBytes(v.model)
    case NodeAndStatic =>
      AncestorBytes(v.path) + NodeBytes(v.model) + [ByteOf(StartStaticModel)] + StaticBytes(version, v.model)
  }

  function AllBytes(version: nat, vs: seq<Visit>): Bytes {
    if vs == [] then [] else AllBytes(version, vs[..|vs| - 1]) + VisitBytes(version, vs[|vs| - 1])
  }

  /** Everything the visitor serializes of an entity. */
  function Stream(version: nat, milan: Option<MilanInfo>, entity: Node, all: bool): Bytes {
    MilanBytes(version, milan) + AllBytes(version, Visits(entity, all))
  }

  // ---------------------------------------------------------------- The visitor

  ghost predicate Appended(before: Bytes, bytes: Bytes, after: Bytes) {
    after == before + bytes
  }

  lemma AppendedTwice(before: Bytes, a: Bytes, middle: Bytes, b: Bytes, after: Bytes)
    requires Appended(before, a, middle) && Appended(middle, b, after)
    ensures Appended(before, a + b, after)
  {
    assert before + (a + b) == before + a + b;
  }

  lemma NothingAppended(before: Bytes)
    ensures Appended(before, [], before)
  {
  }

  class ChecksumEntityModelVisitor {
    const version: nat
    const serializer: Serializer.Sha256Serializer

    ghost predicate Valid()
      reads serializer, serializer.hash, serializer.block
    {
      serializer.Valid()
    }

    /** What was serialized so far. */
    ghost function Absorbed(): Bytes
      reads serializer
    {
      serializer.absorbed
    }

    constructor (version: nat, milan: Option<MilanInfo>)
      ensures Valid() && fresh(serializer) && fresh(serializer.hash) && fresh(serializer.block)
      ensures this.version == version && Appended([], MilanBytes(version, milan), Absorbed())
    {
      hide Serializer.Sha256Serializer.Valid;
      this.version := version;
      serializer := new Serializer.Sha256Serializer();
      new;
      NothingAppended([]);
      assert Valid() && Absorbed() == [];
      hide *;
      SerializeMilanInfo(milan);
    }

    method SerializeMilanInfo(milan: Option<MilanInfo>)
      requires Valid() && Appended([], [], Absorbed())
      modifies serializer, serializer.hash, serializer.block
      ensures Valid() && Appended([], MilanBytes(version, milan), Absorbed())
    {
      hide *;
      MilanBytesAre(version, milan);
      if version >= 4 && milan.Some? {
        var m := milan.value;
        ghost var soFar: Bytes := [] + [ByteOf(StartMilanInfo)];
        Extend([], [], [ByteOf(StartMilanInfo)]);
        Extend([], soFar, Le32(m.protocolVersion));
        soFar := soFar + Le32(m.protocolVersion);
        Extend([], soFar, Le32(m.featuresFlags));
        soFar := soFar + Le32(m.featuresFlags);
        Extend([], soFar, Le32(m.certificationVersion));
        soFar := soFar + Le32(m.certificationVersion);
        if version >= 5 {
          Extend([], soFar, Le32(m.specificationVersion));
        }
      }
    }

    method Append(bytes: Bytes)
      requires Valid()
      modifies serializer, serializer.hash, serializer.block
      ensures Valid() && Appended(old(Absorbed()), bytes, Absorbed())
    {
      hide Serializer.Sha256Serializer.Valid;
      serializer.AppendBuffer(bytes);
    }

    /** Appends to what was appended since a start. */
    method Extend(ghost start: Bytes, ghost soFar: Bytes, bytes: Bytes)
      requires Valid() && Appended(start, soFar, Absorbed())
      modifies serializer, serializer.hash, serializer.block
      ensures Valid() && Appended(start, soFar + bytes, Absorbed())
    {
      hide *;
      ghost var before := Absorbed();
      Append(bytes);
      AppendedTwice(start, soFar, before, bytes, Absorbed());
    }

    /** Appends the descriptor counts, sorted whatever the order in which the hash map yields them. */
    method SerializeCounts(counts: map<Index, Index>)
      requires Valid()
      modifies serializer, serializer.hash, serializer.block
      ensures Valid() && Appended(old(Absorbed()), CountBytes(counts, 0x1_0000), Absorbed())
    {
      hide *;
      var sorted := SortCounts(counts);
      CountBytesStep(counts, 0);
      NothingAppended(Absorbed());
      for k := 0 to 0x1_0000
        invariant Valid() && Appended(old(Absorbed()), CountBytes(counts, k), Absorbed())
      {
        CountBytesStep(counts, k);
        if k in sorted {
          Extend(old(Absorbed()), CountBytes(counts, k), Le16(k));
          Extend(old(Absorbed()), CountBytes(counts, k) + Le16(k), Le16(sorted[k]));
        }
      }
    }

    method SerializeAncestors(path: seq<Key>)
      requires Valid()
      modifies serializer, serializer.hash, serializer.block
      ensures Valid() && Appended(old(Absorbed()), AncestorBytes(path), Absorbed())
    {
      hide *;
      AncestorBytesAre(path);
      if path == [] {
        Append([ByteOf(StartNode)]);
        Extend(old(Absorbed()), [ByteOf(StartNode)], Le32(0));
      } else {
        var kinds := Ancestors(path);
        KindBytesStep(kinds, 0);
        NothingAppended(Absorbed());
        for i := 0 to |kinds|
          invariant Valid() && Appended(old(Absorbed()), KindBytes(kinds, i), Absorbed())
        {
          KindBytesStep(kinds, i);
          Extend(old(Absorbed()), KindBytes(kinds, i), Le16(DescriptorType(kinds[i])));
        }
      }
    }

    method SerializeNode(m: Model)
      requires Valid()
      modifies serializer, serializer.hash, serializer.block
      ensures Valid() && Appended(old(Absorbed()), NodeBytes(m), Absorbed())
    {
      hide *;
      NodeBytesAre(m);
      var mark := [ByteOf(if m.kind.IsVirtual() then StartVirtualNode else StartNode)];
      var kind := Le16(DescriptorType(m.kind));
      Append(mark);
      Extend(old(Absorbed()), mark, kind);
      Extend(old(Absorbed()), mark + kind, IndexBytes(m.kind, m.index));
    }

    method SerializeReferences(references: seq<Index>)
      requires Valid()
      modifies serializer, serializer.hash, serializer.block
      ensures Valid() && Appended(old(Absorbed()), ReferenceBytes(references, |references|), Absorbed())
    {
      hide *;
      ReferenceBytesStep(references, 0);
      NothingAppended(Absorbed());
      for i := 0 to |references|
        invariant Valid() && Appended(old(Absorbed()), ReferenceBytes(references, i), Absorbed())
      {
        ReferenceBytesStep(references, i);
        Extend(old(Absorbed()), ReferenceBytes(references, i), Le16(references[i]));
      }
    }

    method SerializeStatic(m: Model)
      requires Valid()
      modifies serializer, serializer.hash, serializer.block
      ensures Valid() && Appended(old(Absorbed()), StaticBytes(version, m), Absorbed())
    {
      hide *;
      StaticBytesAre(version, m);
      var s, d := m.staticModel, m.dynamicModel;
      ghost var start := Absorbed();
      Append(s.fields);
      ghost var before := Absorbed();
      match m.kind
      case Configuration =>
        SerializeCounts(s.counts);
        AppendedTwice(start, s.fields, before, CountBytes(s.counts, 0x1_0000), Absorbed());
      case AvbInterface =>
        if version >= 3 {
          Extend(start, s.fields, s.flags);
          Extend(start, s.fields + s.flags, s.trailer);
        } else {
          Extend(start, s.fields, d.macAddress);
          Extend(start, s.fields + d.macAddress, s.flags);
          Extend(start, s.fields + d.macAddress + s.flags, d.clock);
          Extend(start, s.fields + d.macAddress + s.flags + d.clock, s.trailer);
        }
      case ClockDomain =>
        SerializeReferences(s.references);
        AppendedTwice(start, s.fields, before, ReferenceBytes(s.references, |s.references|), Absorbed());
        if version >= 4 {
          Extend(start, s.fields + ReferenceBytes(s.references, |s.references|), s.trailer);
        }
      case _ =>
        SerializeReferences(s.references);
        AppendedTwice(start, s.fields, before, ReferenceBytes(s.references, |s.references|), Absorbed());
    }

    method Visit(v: Visit)
      requires Valid()
      modifies serializer, serializer.hash, serializer.block
      ensures Valid() && Appended(old(Absorbed()), VisitBytes(version, v), Absorbed())
    {
      hide *;
      VisitBytesAre(version, v);
      var part := PartOf(version, v);
      ghost var start := Absorbed();
      NothingAppended(start);
      if part != Nothing {
        SerializeAncestors(v.path);
        ghost var middle := Absorbed();
        SerializeNode(v.model);
        AppendedTwice(start, AncestorBytes(v.path), middle, NodeBytes(v.model), Absorbed());
        if part == NodeAndStatic {
          var header := AncestorBytes(v.path) + NodeBytes(v.model);
          Extend(start, header, [ByteOf(StartStaticModel)]);
          middle := Absorbed();
          SerializeStatic(v.model);
          AppendedTwice(start, header + [ByteOf(StartStaticModel)], middle, StaticBytes(version, v.model), Absorbed());
        }
      }
    }

    method GetHash(ghost bytes: Bytes) returns (hash: string)
      requires Valid() && Appended([], bytes, Absorbed())
      modifies serializer, serializer.hash, serializer.block
      ensures Valid() && hash == Digest(bytes)
    {
      assert [] + bytes == bytes;
      hide Serializer.Sha256Serializer.Valid, Serializer.HexDigest, Serializer.Hash;
      hash := serializer.GetHash();
    }
  }

  /** A sorted map filled from a hash map, in whatever order that yields its entries. */
  method SortCounts(counts: map<Index, Index>) returns (sorted: map<Index, Index>)
    ensures sorted == counts
  {
    sorted := map[];
    var left := counts.Keys;
    while left != {}
      invariant left <= counts.Keys
      invariant sorted == map k | k in counts && k !in left :: counts[k]
    {
      var k :| k in left;
      sorted, left := sorted[k := counts[k]], left - {k};
    }
  }

  /** The checksum is the digest of the stream; a model that is not valid for caching has none. */
  method ComputeEntityModelChecksum(version: nat, milan: Option<MilanInfo>, entity: Node, isValidForCaching: bool)
    returns (checksum: Option<string>)
    ensures checksum == if isValidForCaching then Some(Checksum(version, milan, entity)) else None
  {
    hide *;
    if !isValidForCaching {
      return None;
    }
    var visitor := new ChecksumEntityModelVisitor(version, milan);
    var visits := Accept(entity, true);
    StreamStep(version, milan, visits, 0);
    for i := 0 to |visits|
      invariant visitor.Valid() && fresh(visitor.serializer) && fresh(visitor.serializer.hash)
      invariant fresh(visitor.serializer.block)
      invariant Appended([], MilanBytes(version, milan) + AllBytes(version, visits[..i]), visitor.Absorbed())
    {
      StreamStep(version, milan, visits, i);
      ghost var before := visitor.Absorbed();
      visitor.Visit(visits[i]);
      AppendedTwice([], MilanBytes(version, milan) + AllBytes(version, visits[..i]), before,
                    VisitBytes(version, visits[i]), visitor.Absorbed());
    }
    assert visits[..|visits|] == visits;
    StreamIs(version, milan, entity);
    var hash := visitor.GetHash(Stream(version, milan, entity, true));
    checksum := Some(hash);
  }

  ghost function Digest(bytes: Bytes): string {
    Serializer.HexDigest(Serializer.Hash(Blocks.ZeroPad(bytes, Serializer.Zero)))
  }

  ghost function Checksum(version: nat, milan: Option<MilanInfo>, entity: Node): string {
    Digest(Stream(version, milan, entity, true))
  }

  // ---------------------------------------------------------------- What the checksum depends on

  /** Versions 1 and 2 read two runs of dynamic fields wherever they serialize an AVB interface. */
  predicate ReadsDynamic(version: nat, v: Visit) {
    version < 3 && v.model.kind == AvbInterface && PartOf(version, v) == NodeAndStatic
  }

  predicate SameInterface(version: nat, v: Visit, w: Visit) {
    ReadsDynamic(version, v) ==>
      v.model.dynamicModel.macAddress == w.model.dynamicModel.macAddress
      && v.model.dynamicModel.clock == w.model.dynamicModel.clock
  }

  ghost predicate SameInterfaces(version: nat, vs: seq<Visit>, ws: seq<Visit>)
    requires |vs| == |ws|
  {
    forall i :: 0 <= i < |vs| ==> SameInterface(version, vs[i], ws[i])
  }

  /** A MAC address has 6 bytes, and the clock fields from the identity to the announce intervals have 18. */
  predicate Sized(v: Visit) {
    |v.model.dynamicModel.macAddress| == 6 && |v.model.dynamicModel.clock| == 18
  }

  ghost predicate AllSized(vs: seq<Visit>) {
    forall i :: 0 <= i < |vs| && vs[i].model.kind == AvbInterface ==> Sized(vs[i])
  }

  lemma ConcatEqualIff(a: Bytes, b: Bytes, c: Bytes, d: Bytes)
    requires |a| == |c|
    ensures a + b == c + d <==> a == c && b == d
  {
    if a + b == c + d {
      assert a == (a + b)[..|a|] && b == (a + b)[|a|..];
      assert c == (c + d)[..|c|] && d == (c + d)[|c|..];
    }
  }

  lemma StaticBytesEqualIff(version: nat, m: Model, n: Model)
    requires m.(dynamicModel := n.dynamicModel) == n
    requires m.kind == AvbInterface ==>
               |m.dynamicModel.macAddress| == |n.dynamicModel.macAddress|
               && |m.dynamicModel.clock| == |n.dynamicModel.clock|
    ensures |StaticBytes(version, m)| == |StaticBytes(version, n)|
    ensures StaticBytes(version, m) == StaticBytes(version, n) <==>
            m.kind != AvbInterface || version >= 3 ||
            (m.dynamicModel.macAddress == n.dynamicModel.macAddress && m.dynamicModel.clock == n.dynamicModel.clock)
  {
    StaticBytesAre(version, m);
    StaticBytesAre(version, n);
    hide *;
    if m.kind == AvbInterface && version < 3 {
      var s, d, e := m.staticModel, m.dynamicModel, n.dynamicModel;
      ConcatEqualIff(s.fields, d.macAddress, s.fields, e.macAddress);
      ConcatEqualIff(s.fields + d.macAddress, s.flags, s.fields + e.macAddress, s.flags);
      ConcatEqualIff(s.fields + d.macAddress + s.flags, d.clock, s.fields + e.macAddress + s.flags, e.clock);
      ConcatEqualIff(s.fields + d.macAddress + s.flags + d.clock, s.trailer,
                     s.fields + e.macAddress + s.flags + e.clock, s.trailer);
    }
  }

  lemma VisitBytesEqualIff(version: nat, v: Visit, w: Visit)
    requires Alike(v, w) && (v.model.kind == AvbInterface ==> Sized(v) && Sized(w))
    ensures |VisitBytes(version, v)| == |VisitBytes(version, w)|
    ensures VisitBytes(version, v) == VisitBytes(version, w) <==> SameInterface(version, v, w)
  {
    hide *;
    AlikeMeans(version, v, w);
    SizedMeans(v, w);
    VisitBytesAre(version, v);
    VisitBytesAre(version, w);
    SameInterfaceMeans(version, v, w);
    if PartOf(version, v) == NodeAndStatic {
      StaticBytesEqualIff(version, v.model, w.model);
      var header := AncestorBytes(v.path) + NodeBytes(v.model) + [ByteOf(StartStaticModel)];
      ConcatEqualIff(header, StaticBytes(version, v.model), header, StaticBytes(version, w.model));
    }
  }

  lemma AlikeMeans(version: nat, v: Visit, w: Visit)
    requires Alike(v, w)
    ensures v.path == w.path && v.model.kind == w.model.kind
    ensures v.model.(dynamicModel := w.model.dynamicModel) == w.model
    ensures PartOf(version, v) == PartOf(version, w) && NodeBytes(v.model) == NodeBytes(w.model)
  {
    hide Ancestors, Le16, Le32, ByteOf, DescriptorType;
  }

  lemma SizedMeans(v: Visit, w: Visit)
    requires v.model.kind == AvbInterface ==> Sized(v) && Sized(w)
    ensures v.model.kind == AvbInterface ==>
              |v.model.dynamicModel.macAddress| == |w.model.dynamicModel.macAddress|
              && |v.model.dynamicModel.clock| == |w.model.dynamicModel.clock|
  {
  }

  lemma SameInterfaceMeans(version: nat, v: Visit, w: Visit)
    ensures SameInterface(version, v, w) <==>
            (version < 3 && v.model.kind == AvbInterface && PartOf(version, v) == NodeAndStatic ==>
               v.model.dynamicModel.macAddress == w.model.dynamicModel.macAddress
               && v.model.dynamicModel.clock == w.model.dynamicModel.clock)
  {
    hide PartOf;
  }

  lemma {:induction false} AllBytesEqualIff(version: nat, vs: seq<Visit>, ws: seq<Visit>)
    requires AllAlike(vs, ws) && AllSized(vs) && AllSized(ws)
    ensures |AllBytes(version, vs)| == |AllBytes(version, ws)|
    ensures AllBytes(version, vs) == AllBytes(version, ws) <==> SameInterfaces(version, vs, ws)
  {
    if vs != [] {
      var n := |vs| - 1;
      AllBytesEqualIff(version, vs[..n], ws[..n]);
      LastAlike(vs, ws);
      LastInterface(version, vs, ws);
      VisitBytesEqualIff(version, vs[n], ws[n]);
      AllBytesLast(version, vs);
      AllBytesLast(version, ws);
      hide *;
      ConcatEqualIff(AllBytes(version, vs[..n]), VisitBytes(version, vs[n]),
                     AllBytes(version, ws[..n]), VisitBytes(version, ws[n]));
    }
  }

  lemma LastAlike(vs: seq<Visit>, ws: seq<Visit>)
    requires vs != [] && AllAlike(vs, ws) && AllSized(vs) && AllSized(ws)
    ensures var n := |vs| - 1;
            && Alike(vs[n], ws[n]) && AllAlike(vs[..n], ws[..n]) && AllSized(vs[..n]) && AllSized(ws[..n])
            && (vs[n].model.kind == AvbInterface ==> Sized(vs[n]) && Sized(ws[n]))
  {
    assert Alike(vs[|vs| - 1], ws[|vs| - 1]);
    hide Sized;
  }

  lemma LastInterface(version: nat, vs: seq<Visit>, ws: seq<Visit>)
    requires vs != [] && |vs| == |ws|
    ensures var n := |vs| - 1;
            SameInterfaces(version, vs, ws) <==>
            SameInterfaces(version, vs[..n], ws[..n]) && SameInterface(version, vs[n], ws[n])
  {
    hide SameInterface;
  }

  lemma AllBytesLast(version: nat, vs: seq<Visit>)
    requires vs != []
    ensures AllBytes(version, vs) == AllBytes(version, vs[..|vs| - 1]) + VisitBytes(version, vs[|vs| - 1])
  {
    hide VisitBytes;
  }

  /** Two entities with the same nodes and static models give the same stream exactly when they agree in what versions
      1 and 2 read of the dynamic models of AVB interfaces. */
  lemma StreamIsStaticIff(version: nat, milan: Option<MilanInfo>, a: Node, b: Node, all: bool)
    requires SameStatic(a, b) && (all || SameActive(a, b))
    requires AllSized(Visits(a, all)) && AllSized(Visits(b, all))
    ensures |Visits(a, all)| == |Visits(b, all)|
    ensures Stream(version, milan, a, all) == Stream(version, milan, b, all)
            <==> SameInterfaces(version, Visits(a, all), Visits(b, all))
  {
    VisitsAgree(a, b, all);
    hide MilanBytes, AllBytes, Visits, SameStatic, SameInterfaces;
    AllBytesEqualIff(version, Visits(a, all), Visits(b, all));
    ConcatEqualIff(MilanBytes(version, milan), AllBytes(version, Visits(a, all)),
                   MilanBytes(version, milan), AllBytes(version, Visits(b, all)));
  }

  /** From version 3 on the checksum depends on nodes, static models and Milan info alone. */
  lemma ChecksumIsStatic(version: nat, milan: Option<MilanInfo>, a: Node, b: Node)
    requires version >= 3 && SameStatic(a, b)
    ensures Stream(version, milan, a, true) == Stream(version, milan, b, true)
    ensures Checksum(version, milan, a) == Checksum(version, milan, b)
  {
    VisitsAgree(a, b, true);
    AllBytesAgree(version, Visits(a, true), Visits(b, true));
    hide MilanBytes, AllBytes, Visits, Digest;
  }

  lemma VisitBytesAgree(version: nat, v: Visit, w: Visit)
    requires version >= 3 && Alike(v, w)
    ensures VisitBytes(version, v) == VisitBytes(version, w)
  {
    hide KindBytes, CountBytes, ReferenceBytes, Ancestors, Le16, Le32, ByteOf;
  }

  lemma {:induction false} AllBytesAgree(version: nat, vs: seq<Visit>, ws: seq<Visit>)
    requires version >= 3 && AllAlike(vs, ws)
    ensures AllBytes(version, vs) == AllBytes(version, ws)
  {
    if vs != [] {
      var n := |vs| - 1;
      assert Alike(vs[n], ws[n]);
      VisitBytesAgree(version, vs[n], ws[n]);
      AllBytesAgree(version, vs[..n], ws[..n]);
      hide VisitBytes;
    }
  }

  // ---------------------------------------------------------------- What the bytes tell apart

  lemma ByteOfInjective(v: nat, w: nat)
    requires v < 0x100 && w < 0x100
    ensures ByteOf(v) == ByteOf(w) <==> v == w
  {
    assert Pow2(8) == 0x100;
    FromToBits(v, 8);
    FromToBits(w, 8);
  }

  lemma Le16Injective(v: Index, w: Index)
    ensures Le16(v) == Le16(w) <==> v == w
  {
    ByteOfInjective(v % 0x100, w % 0x100);
    ByteOfInjective(v / 0x100, w / 0x100);
    hide ByteOf;
    assert Le16(v)[0] == ByteOf(v % 0x100) && Le16(v)[1] == ByteOf(v / 0x100);
    assert Le16(w)[0] == ByteOf(w % 0x100) && Le16(w)[1] == ByteOf(w / 0x100);
  }

  /** A number of 32 bits from its low to its high byte. */
  lemma FourDigits(v: nat)
    requires v < 0x1_0000_0000
    ensures v == v % 0x100 + 0x100 * (v / 0x100 % 0x100)
                 + 0x1_0000 * (v / 0x1_0000 % 0x100) + 0x100_0000 * (v / 0x100_0000 % 0x100)
  {
    assert v / 0x100 / 0x100 == v / 0x1_0000 && v / 0x1_0000 / 0x100 == v / 0x100_0000;
  }

  lemma Le32Injective(v: nat, w: nat)
    requires v < 0x1_0000_0000 && w < 0x1_0000_0000
    ensures Le32(v) == Le32(w) <==> v == w
  {
    FourDigits(v);
    FourDigits(w);
    ByteOfInjective(v % 0x100, w % 0x100);
    ByteOfInjective(v / 0x100 % 0x100, w / 0x100 % 0x100);
    ByteOfInjective(v / 0x1_0000 % 0x100, w / 0x1_0000 % 0x100);
    ByteOfInjective(v / 0x100_0000 % 0x100, w / 0x100_0000 % 0x100);
    hide ByteOf;
    if Le32(v) == Le32(w) {
      assert Le32(v)[0] == Le32(w)[0] && Le32(v)[1] == Le32(w)[1];
      assert Le32(v)[2] == Le32(w)[2] && Le32(v)[3] == Le32(w)[3];
    }
  }

  lemma LengthOfLe16(v: Index)
    ensures |Le16(v)| == 2
  {
    hide ByteOf;
  }

  lemma MarksDiffer()
    ensures ByteOf(StartNode) != ByteOf(StartVirtualNode)
  {
    ByteOfInjective(StartNode, StartVirtualNode);
  }

  /** The width of an index: 32 bits for redundant streams, 16 bits for descriptors. */
  predicate IsIndexOf(kind: Kind, index: nat) {
    index < if kind.IsVirtual() then 0x1_0000_0000 else 0x1_0000
  }

  /** The header of a node tells its kind and its index, redundant or not. */
  lemma NodeBytesDistinguish(m: Model, n: Model)
    requires IsIndexOf(m.kind, m.index) && IsIndexOf(n.kind, n.index)
    ensures NodeBytes(m) == NodeBytes(n) <==> m.kind == n.kind && m.index == n.index
  {
    IndexesTold(m.kind, m.index, n.kind, n.index);
    hide *;
    NodeBytesAre(m);
    NodeBytesAre(n);
    MarksDiffer();
    var kind, other := DescriptorType(m.kind), DescriptorType(n.kind);
    Le16Injective(kind, other);
    if m.kind.IsVirtual() == n.kind.IsVirtual() {
      KindsDiffer(m.kind, n.kind);
    }
    LengthOfLe16(kind);
    LengthOfLe16(other);
    var mark, otherMark := [ByteOf(if m.kind.IsVirtual() then StartVirtualNode else StartNode)],
                           [ByteOf(if n.kind.IsVirtual() then StartVirtualNode else StartNode)];
    var index, otherIndex := IndexBytes(m.kind, m.index), IndexBytes(n.kind, n.index);
    ConcatEqualIff(mark + Le16(kind), index, otherMark + Le16(other), otherIndex);
    ConcatEqualIff(mark, Le16(kind), otherMark, Le16(other));
    assert mark == otherMark ==> mark[0] == otherMark[0];
  }

  lemma IndexesTold(k: Kind, i: nat, l: Kind, j: nat)
    requires IsIndexOf(k, i) && IsIndexOf(l, j)
    ensures k.IsVirtual() == l.IsVirtual() ==> (IndexBytes(k, i) == IndexBytes(l, j) <==> i == j)
  {
    hide Le16, Le32;
    if k.IsVirtual() && l.IsVirtual() {
      Le32Injective(i, j);
    } else if !k.IsVirtual() && !l.IsVirtual() {
      Le16Injective(i, j);
    }
  }

  lemma KindsDiffer(k: Kind, l: Kind)
    requires k.IsVirtual() == l.IsVirtual()
    ensures DescriptorType(k) == DescriptorType(l) <==> k == l
  {
  }

  ghost predicate SameBelow(a: map<Index, Index>, b: map<Index, Index>, k: nat) {
    forall i: Index :: i < k ==> (i in a <==> i in b) && (i in a ==> a[i] == b[i])
  }

  lemma {:induction false} LastCount(counts: map<Index, Index>, k: nat) returns (init: Bytes, j: Index)
    requires k <= 0x1_0000 && CountBytes(counts, k) != []
    ensures j < k && j in counts && CountBytes(counts, k) == init + Le16(j) + Le16(counts[j])
  {
    CountBytesStep(counts, k - 1);
    if k - 1 in counts {
      init, j := CountBytes(counts, k - 1), k - 1;
    } else {
      init, j := LastCount(counts, k - 1);
    }
  }

  lemma LastEntries(a: Bytes, v: Index, w: Index, b: Bytes, x: Index, y: Index)
    requires a + Le16(v) + Le16(w) == b + Le16(x) + Le16(y)
    ensures a == b && v == x && w == y
  {
    Le16Injective(v, x);
    Le16Injective(w, y);
    assert |Le16(v)| == 2 && |Le16(w)| == 2 && |Le16(x)| == 2 && |Le16(y)| == 2;
    hide Le16;
    assert |a| == |b|;
    ConcatEqualIff(a + Le16(v), Le16(w), b + Le16(x), Le16(y));
    ConcatEqualIff(a, Le16(v), b, Le16(x));
  }

  /** The serialized counts tell the counts. */
  lemma {:induction false} CountBytesDistinguish(a: map<Index, Index>, b: map<Index, Index>, k: nat)
    requires k <= 0x1_0000
    ensures CountBytes(a, k) == CountBytes(b, k) <==> SameBelow(a, b, k)
  {
    if k > 0 {
      var n: Index := k - 1;
      CountBytesDistinguish(a, b, n);
      CountBytesStep(a, n);
      CountBytesStep(b, n);
      assert SameBelow(a, b, k) <==> SameBelow(a, b, n) && (n in a <==> n in b) && (n in a ==> a[n] == b[n]);
      hide CountBytes, Le16, SameBelow;
      if CountBytes(a, k) == CountBytes(b, k) {
        if n in a && n in b {
          LastEntries(CountBytes(a, n), n, a[n], CountBytes(b, n), n, b[n]);
        } else if n in a {
          LastIsBelow(CountBytes(a, n), n, a[n], b, n);
        } else if n in b {
          LastIsBelow(CountBytes(b, n), n, b[n], a, n);
        }
      }
    }
  }

  lemma LastIsBelow(init: Bytes, n: Index, v: Index, counts: map<Index, Index>, k: nat)
    requires k <= n
    ensures init + Le16(n) + Le16(v) != CountBytes(counts, k)
  {
    hide CountBytes;
    assert |Le16(v)| == 2;
    hide Le16;
    if init + Le16(n) + Le16(v) == CountBytes(counts, k) {
      assert |init + Le16(n) + Le16(v)| >= 2;
      var rest, j := LastCount(counts, k);
      LastEntries(init, n, v, rest, j, counts[j]);
      assert false;
    }
  }

  // ---------------------------------------------------------------- The definitions, one step at a time

  lemma MilanBytesAre(version: nat, milan: Option<MilanInfo>)
    ensures version < 4 || milan.None? ==> MilanBytes(version, milan) == []
    ensures version >= 4 && milan.Some? ==>
              var m := milan.value;
              var first := [] + [ByteOf(StartMilanInfo)] + Le32(m.protocolVersion) + Le32(m.featuresFlags)
                           + Le32(m.certificationVersion);
              MilanBytes(version, milan) == if version >= 5 then first + Le32(m.specificationVersion) else first
  {
    hide Le32, ByteOf;
  }

  lemma AncestorBytesAre(path: seq<Key>)
    ensures AncestorBytes(path) ==
            if path == [] then [ByteOf(StartNode)] + Le32(0) else KindBytes(Ancestors(path), |Ancestors(path)|)
  {
    hide Le32, ByteOf, KindBytes, Ancestors;
  }

  lemma KindBytesStep(kinds: seq<Kind>, k: nat)
    requires k <= |kinds|
    ensures KindBytes(kinds, 0) == []
    ensures k < |kinds| ==> KindBytes(kinds, k + 1) == KindBytes(kinds, k) + Le16(DescriptorType(kinds[k]))
  {
    hide Le16, DescriptorType;
  }

  lemma NodeBytesAre(m: Model)
    ensures NodeBytes(m) ==
            [ByteOf(if m.kind.IsVirtual() then StartVirtualNode else StartNode)] + Le16(DescriptorType(m.kind))
            + IndexBytes(m.kind, m.index)
  {
    hide Le16, IndexBytes, ByteOf, DescriptorType;
  }

  lemma ReferenceBytesStep(references: seq<Index>, k: nat)
    requires k <= |references|
    ensures ReferenceBytes(references, 0) == []
    ensures k < |references| ==>
              ReferenceBytes(references, k + 1) == ReferenceBytes(references, k) + Le16(references[k])
  {
    hide Le16;
  }

  lemma CountBytesStep(counts: map<Index, Index>, k: nat)
    requires k <= 0x1_0000
    ensures CountBytes(counts, 0) == []
    ensures k < 0x1_0000 ==>
              CountBytes(counts, k + 1) ==
              if k in counts then CountBytes(counts, k) + Le16(k) + Le16(counts[k]) else CountBytes(counts, k)
  {
    hide Le16;
  }

  lemma StaticBytesAre(version: nat, m: Model)
    ensures var s := m.staticModel;
            StaticBytes(version, m) ==
            match m.kind
            case Configuration => s.fields + CountBytes(s.counts, 0x1_0000)
            case AvbInterface =>
              if version >= 3 then s.fields + s.flags + s.trailer
              else s.fields + m.dynamicModel.macAddress + s.flags + m.dynamicModel.clock + s.trailer
            case ClockDomain =>
              if version >= 4 then s.fields + ReferenceBytes(s.references, |s.references|) + s.trailer
              else s.fields + ReferenceBytes(s.references, |s.references|)
            case _ => s.fields + ReferenceBytes(s.references, |s.references|)
  {
    hide CountBytes, ReferenceBytes;
  }

  lemma VisitBytesAre(version: nat, v: Visit)
    ensures PartOf(version, v) == Nothing ==> VisitBytes(version, v) == []
    ensures PartOf(version, v) == NodeOnly ==> VisitBytes(version, v) == AncestorBytes(v.path) + NodeBytes(v.model)
    ensures PartOf(version, v) == NodeAndStatic ==>
              VisitBytes(version, v) ==
              AncestorBytes(v.path) + NodeBytes(v.model) + [ByteOf(StartStaticModel)] + StaticBytes(version, v.model)
  {
    hide AncestorBytes, NodeBytes, StaticBytes, ByteOf, PartOf;
  }

  lemma AllBytesStep(version: nat, vs: seq<Visit>, k: nat)
    requires k < |vs|
    ensures AllBytes(version, vs[..k + 1]) == AllBytes(version, vs[..k]) + VisitBytes(version, vs[k])
  {
    assert vs[..k + 1][..k] == vs[..k];
    hide VisitBytes;
  }

  lemma StreamStep(version: nat, milan: Option<MilanInfo>, vs: seq<Visit>, k: nat)
    requires k <= |vs|
    ensures MilanBytes(version, milan) + AllBytes(version, vs[..0]) == MilanBytes(version, milan)
    ensures k < |vs| ==>
              MilanBytes(version, milan) + AllBytes(version, vs[..k + 1]) ==
              MilanBytes(version, milan) + AllBytes(version, vs[..k]) + VisitBytes(version, vs[k])
  {
    assert vs[..0] == [] && AllBytes(version, []) == [];
    if k < |vs| {
      AllBytesStep(version, vs, k);
      hide *;
      Associative(MilanBytes(version, milan), AllBytes(version, vs[..k]), VisitBytes(version, vs[k]));
    }
    hide *;
  }

  lemma Associative(a: Bytes, b: Bytes, c: Bytes)
    ensures a + (b + c) == a + b + c
  {
  }

  lemma StreamIs(version: nat, milan: Option<MilanInfo>, entity: Node)
    ensures Stream(version, milan, entity, true)
         == MilanBytes(version, milan) + AllBytes(version, Visits(entity, true))
    ensures Checksum(version, milan, entity) == Digest(Stream(version, milan, entity, true))
  {
    hide MilanBytes, AllBytes, Visits, Digest;
  }
}
