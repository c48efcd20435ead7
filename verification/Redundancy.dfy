/** Redundant stream pairs: the nodes built over a configuration, and the two caches that lead from one stream
    of a pair to the other. The strict 2018 rules of the default build apply. */
module Redundancy {

  import opened Common

  /** A stream as the association loop sees it. */
  datatype Stream = Stream(avbInterface: Index, redundantStreams: set<Index>)

  /** A virtual node over the streams of one association. */
  datatype Node = Node(redundantStreams: set<Index>, primary: Index)

  // ---------------------------------------------------------------- What a redundant pair is

  /** a is associated with b alone, b refers back to a, and the two sit on the AVB interfaces 0 and 1. */
  predicate Associated(streams: map<Index, Stream>, a: Index, b: Index) {
    && a in streams && b in streams && a != b
    && streams[a].redundantStreams == {b}
    && a in streams[b].redundantStreams
    && {streams[a].avbInterface, streams[b].avbInterface} == {0, 1}
  }

  /** p and s are the primary and the secondary stream of a redundant pair. */
  predicate Paired(streams: map<Index, Stream>, p: Index, s: Index) {
    && (Associated(streams, p, s) || Associated(streams, s, p))
    && streams[p].avbInterface == 0
  }

  /** No stream is claimed by two others. */
  ghost predicate Unambiguous(streams: map<Index, Stream>) {
    forall a, c, b :: Associated(streams, a, b) && Associated(streams, c, b) ==> a == c
  }

  // ---------------------------------------------------------------- The caches

  /** The insert of a C++ map: a key that is there keeps its value. */
  function Insert(m: map<Index, Index>, key: Index, value: Index): map<Index, Index> {
    if key in m then m else m[key := value]
  }

  function Swapped(pairs: seq<(Index, Index)>): seq<(Index, Index)> {
    seq(|pairs|, k requires 0 <= k < |pairs| => (pairs[k].1, pairs[k].0))
  }

  /** The pairs inserted one after the other. */
  function CacheOf(pairs: seq<(Index, Index)>): map<Index, Index> {
    if pairs == [] then map[]
    else Insert(CacheOf(pairs[..|pairs| - 1]), pairs[|pairs| - 1].0, pairs[|pairs| - 1].1)
  }

  /** The other stream of the pair of a stream: first in the primary cache, then in the secondary one. */
  function PartnerIn(primaries: map<Index, Index>, secondaries: map<Index, Index>, index: Index): Option<Index> {
    if index in primaries then Some(primaries[index])
    else if index in secondaries then Some(secondaries[index])
    else None
  }

  lemma CacheGrows(pairs: seq<(Index, Index)>, p: Index, s: Index)
    ensures CacheOf(pairs + [(p, s)]) == Insert(CacheOf(pairs), p, s)
    ensures CacheOf(Swapped(pairs + [(p, s)])) == Insert(CacheOf(Swapped(pairs)), s, p)
  {
    assert (pairs + [(p, s)])[..|pairs|] == pairs;
    assert Swapped(pairs + [(p, s)])[..|pairs|] == Swapped(pairs);
  }

  /** The streams in the nodes: those flagged as redundant. */
  ghost function Claimed(streams: map<Index, Stream>, nodes: seq<Node>): set<Index> {
    set x: Index | x in streams && exists k :: 0 <= k < |nodes| && x in nodes[k].redundantStreams
  }

  lemma ClaimedGrows(streams: map<Index, Stream>, nodes: seq<Node>, p: Index, s: Index)
    requires p in streams && s in streams
    ensures Claimed(streams, nodes + [Node({p, s}, p)]) == Claimed(streams, nodes) + {p, s}
  {
    var grown := nodes + [Node({p, s}, p)];
    assert grown[|nodes|].redundantStreams == {p, s};
    forall x: Index | x in Claimed(streams, nodes) ensures x in Claimed(streams, grown) {
      var k :| 0 <= k < |nodes| && x in nodes[k].redundantStreams;
      assert x in grown[k].redundantStreams;
    }
  }

  ghost predicate NodesOf(pairs: seq<(Index, Index)>, nodes: seq<Node>) {
    |nodes| == |pairs| && forall k :: 0 <= k < |pairs| ==> nodes[k] == Node({pairs[k].0, pairs[k].1}, pairs[k].0)
  }

  ghost predicate AllPaired(streams: map<Index, Stream>, pairs: seq<(Index, Index)>) {
    forall k :: 0 <= k < |pairs| ==> Paired(streams, pairs[k].0, pairs[k].1)
  }

  ghost predicate AllDistinct(pairs: seq<(Index, Index)>) {
    forall j, k :: 0 <= j < k < |pairs| ==> pairs[j] != pairs[k]
  }

  lemma PairsGrow(streams: map<Index, Stream>, nodes: seq<Node>, pairs: seq<(Index, Index)>, p: Index, s: Index)
    requires NodesOf(pairs, nodes) && AllPaired(streams, pairs) && AllDistinct(pairs)
    requires Paired(streams, p, s) && (p, s) !in pairs
    ensures NodesOf(pairs + [(p, s)], nodes + [Node({p, s}, p)])
    ensures AllPaired(streams, pairs + [(p, s)]) && AllDistinct(pairs + [(p, s)])
  {
    hide Paired;
  }

  // ---------------------------------------------------------------- The builder

  class RedundantStreams {
    const streams: map<Index, Stream>
    var isRedundant: set<Index>
    /** The node with virtual index k is nodes[k]. */
    var nodes: seq<Node>
    var primaryStreams: map<Index, Index>
    var secondaryStreams: map<Index, Index>
    /** The primary and the secondary stream of every node. */
    ghost var pairs: seq<(Index, Index)>

    ghost predicate Valid()
      reads this
    {
      && NodesOf(pairs, nodes) && AllPaired(streams, pairs) && AllDistinct(pairs)
      && isRedundant == Claimed(streams, nodes)
      && primaryStreams == CacheOf(pairs) && secondaryStreams == CacheOf(Swapped(pairs))
    }

    constructor (streams: map<Index, Stream>)
      ensures this.streams == streams && nodes == [] && Valid()
    {
      this.streams := streams;
      isRedundant, nodes, pairs := {}, [], [];
      primaryStreams, secondaryStreams := map[], map[];
    }

    /** The checks on the association of a stream: the streams of a valid one by their AVB interfaces. */
    method CheckAssociation(index: Index) returns (interfaces: Option<map<Index, Index>>)
      requires index in streams
      ensures interfaces.None? ==> forall b :: !Associated(streams, index, b)
      ensures interfaces.Some? ==>
                var m := interfaces.value;
                m.Keys == {0, 1} && index in {m[0], m[1]} && Paired(streams, m[0], m[1]) &&
                Associated(streams, index, if m[0] == index then m[1] else m[0])
    {
      var model := streams[index];
      if |model.redundantStreams| != 1 {
        return None;
      }
      var other :| other in model.redundantStreams;
      assert model.redundantStreams == {other} by {
        assert |model.redundantStreams - {other}| == 0;
      }
      var nodesByInterface := map[model.avbInterface := index];
      if other == index || other !in streams || index !in streams[other].redundantStreams {
        return None;
      }
      if streams[other].avbInterface in nodesByInterface {
        return None;
      }
      nodesByInterface := nodesByInterface[streams[other].avbInterface := other];
      if 0 !in nodesByInterface || 1 !in nodesByInterface {
        return None;
      }
      return Some(nodesByInterface);
    }

    /** Whether a stream is in a node already; None when it is in two of them. */
    method FindNode(index: Index) returns (created: Option<bool>)
      ensures created == Some(false) <==> forall n :: n in nodes ==> index !in n.redundantStreams
      ensures created == None <==>
              exists j, k :: 0 <= j < k < |nodes| && index in nodes[j].redundantStreams
                             && index in nodes[k].redundantStreams
    {
      var found := false;
      ghost var first := 0;
      for k := 0 to |nodes|
        invariant found ==> first < k && index in nodes[first].redundantStreams
        invariant found ==> forall i :: 0 <= i < k && i != first ==> index !in nodes[i].redundantStreams
        invariant !found ==> forall i :: 0 <= i < k ==> index !in nodes[i].redundantStreams
      {
        if index in nodes[k].redundantStreams {
          if found {
            return None;
          }
          found, first := true, k;
        }
      }
      return Some(found);
    }

    /** Adds the node of a pair. */
    method AddNode(prim: Index, sec: Index)
      requires Valid() && Paired(streams, prim, sec) && (prim, sec) !in pairs
      modifies this
      ensures Valid() && pairs == old(pairs) + [(prim, sec)]
    {
      nodes := nodes + [Node({prim, sec}, prim)];
      isRedundant := isRedundant + {prim, sec};
      primaryStreams := Insert(primaryStreams, prim, sec);
      secondaryStreams := Insert(secondaryStreams, sec, prim);
      pairs := pairs + [(prim, sec)];
      hide CacheOf, Swapped, Insert, Claimed, NodesOf, AllPaired, AllDistinct;
      CacheGrows(old(pairs), prim, sec);
      ClaimedGrows(streams, old(nodes), prim, sec);
      PairsGrow(streams, old(nodes), old(pairs), prim, sec);
    }

    /** The other stream of the pair of a stream. */
    method GetRedundantStreamIndex(index: Index) returns (other: Option<Index>)
      requires Valid()
      ensures other == Partner(pairs, index)
    {
      if index in primaryStreams {
        return Some(primaryStreams[index]);
      }
      if index in secondaryStreams {
        return Some(secondaryStreams[index]);
      }
      return None;
    }

    /** The nodes built are exactly the redundant pairs, each once. */
    method Build()
      requires Valid() && nodes == []
      modifies this
      ensures Valid() && AllPairs(streams, pairs)
    {
      for index := 0 to 0x1_0000
        invariant Valid()
        invariant forall a: Index, b: Index :: a < index && Associated(streams, a, b) ==>
                    (a, b) in pairs || (b, a) in pairs
      {
        if index !in streams {
          continue;
        }
        var interfaces := CheckAssociation(index);
        if interfaces.None? {
          continue;
        }
        var prim, sec := interfaces.value[0], interfaces.value[1];
        var created := FindNode(index);
        if created == Some(false) {
          AddNode(prim, sec);
        }
      }
    }
  }

  // ---------------------------------------------------------------- Pairs that do not touch

  /** What Build leaves behind: the redundant pairs, each once. */
  ghost predicate AllPairs(streams: map<Index, Stream>, pairs: seq<(Index, Index)>) {
    && (forall p: Index, s: Index :: (p, s) in pairs <==> Paired(streams, p, s))
    && (forall j, k :: 0 <= j < k < |pairs| ==> pairs[j] != pairs[k])
  }

  function Members(pair: (Index, Index)): set<Index> {
    {pair.0, pair.1}
  }

  ghost predicate Disjoint(pairs: seq<(Index, Index)>) {
    forall j, k :: 0 <= j < k < |pairs| ==> Members(pairs[j]) !! Members(pairs[k])
  }

  function Partner(pairs: seq<(Index, Index)>, index: Index): Option<Index> {
    PartnerIn(CacheOf(pairs), CacheOf(Swapped(pairs)), index)
  }

  /** Asking twice leads back, and never to the stream itself on the way. */
  ghost predicate Involutive(pairs: seq<(Index, Index)>) {
    forall x: Index :: Partner(pairs, x).Some? ==>
      var y := Partner(pairs, x).value;
      y != x && Partner(pairs, y) == Some(x)
  }

  /** The cache leads from every key to the value of its first pair. */
  lemma {:induction false} CacheFinds(pairs: seq<(Index, Index)>, key: Index)
    ensures key in CacheOf(pairs) <==> exists k :: 0 <= k < |pairs| && pairs[k].0 == key
    ensures key in CacheOf(pairs) ==> (key, CacheOf(pairs)[key]) in pairs
  {
    if pairs != [] {
      var n := |pairs| - 1;
      CacheFinds(pairs[..n], key);
      if key == pairs[n].0 {
      } else if k :| 0 <= k < |pairs| && pairs[k].0 == key {
        assert pairs[..n][k].0 == key;
      }
    }
  }

  lemma SwappedHas(pairs: seq<(Index, Index)>, p: Index, s: Index)
    ensures (s, p) in Swapped(pairs) <==> (p, s) in pairs
  {
    if (p, s) in pairs {
      var k :| 0 <= k < |pairs| && pairs[k] == (p, s);
      assert Swapped(pairs)[k] == (s, p);
    }
  }

  /** Streams have a partner exactly when they are in a pair, and it is one they are paired with. */
  lemma PartnerFinds(streams: map<Index, Stream>, pairs: seq<(Index, Index)>, x: Index)
    requires AllPairs(streams, pairs)
    ensures Partner(pairs, x).None? <==> forall y: Index :: !Paired(streams, x, y) && !Paired(streams, y, x)
    ensures Partner(pairs, x).Some? ==>
              Paired(streams, x, Partner(pairs, x).value) || Paired(streams, Partner(pairs, x).value, x)
  {
    CacheFinds(pairs, x);
    CacheFinds(Swapped(pairs), x);
    forall y: Index
      ensures (y, x) in Swapped(pairs) <==> (x, y) in pairs
      ensures (x, y) in Swapped(pairs) <==> (y, x) in pairs
    {
      SwappedHas(pairs, x, y);
      SwappedHas(pairs, y, x);
    }
  }

  /** A stream that claims another is in one pair only. */
  lemma ClaimantPairedOnce(streams: map<Index, Stream>, a: Index, b: Index, y: Index)
    requires Associated(streams, a, b)
    requires Paired(streams, a, y) || Paired(streams, y, a)
    ensures y == b
  {
  }

  lemma PairedOnce(streams: map<Index, Stream>, x: Index, y: Index, z: Index)
    requires Unambiguous(streams)
    requires Paired(streams, x, y) || Paired(streams, y, x)
    requires Paired(streams, x, z) || Paired(streams, z, x)
    ensures y == z
  {
  }

  /** Two claims on one stream spoil both properties. */
  lemma TwoClaimsCollide(streams: map<Index, Stream>, pairs: seq<(Index, Index)>, a: Index, c: Index, b: Index)
    requires AllPairs(streams, pairs)
    requires Associated(streams, a, b) && Associated(streams, c, b) && a != c
    ensures !Disjoint(pairs) && !Involutive(pairs)
  {
    PartnerFinds(streams, pairs, a);
    PartnerFinds(streams, pairs, c);
    assert Paired(streams, a, b) || Paired(streams, b, a);
    assert Paired(streams, c, b) || Paired(streams, b, c);
    ClaimantPairedOnce(streams, a, b, Partner(pairs, a).value);
    ClaimantPairedOnce(streams, c, b, Partner(pairs, c).value);
    var first := if streams[b].avbInterface == 1 then (a, b) else (b, a);
    var second := if streams[b].avbInterface == 1 then (c, b) else (b, c);
    assert first in pairs && second in pairs;
    var j :| 0 <= j < |pairs| && pairs[j] == first;
    var k :| 0 <= k < |pairs| && pairs[k] == second;
    assert b in Members(pairs[j]) && b in Members(pairs[k]);
    if j < k {
      assert !(Members(pairs[j]) !! Members(pairs[k]));
    } else {
      assert !(Members(pairs[k]) !! Members(pairs[j]));
    }
  }

  lemma NoClaimsCollide(streams: map<Index, Stream>, pairs: seq<(Index, Index)>)
    requires AllPairs(streams, pairs) && Unambiguous(streams)
    ensures Disjoint(pairs) && Involutive(pairs)
  {
    forall j, k | 0 <= j < k < |pairs|
      ensures Members(pairs[j]) !! Members(pairs[k])
    {
      assert pairs[j] in pairs && pairs[k] in pairs;
      if x :| x in Members(pairs[j]) && x in Members(pairs[k]) {
        var y := if x == pairs[j].0 then pairs[j].1 else pairs[j].0;
        var z := if x == pairs[k].0 then pairs[k].1 else pairs[k].0;
        PairedOnce(streams, x, y, z);
      }
    }
    forall x: Index | Partner(pairs, x).Some?
      ensures var y := Partner(pairs, x).value; y != x && Partner(pairs, y) == Some(x)
    {
      var y := Partner(pairs, x).value;
      PartnerFinds(streams, pairs, x);
      PartnerFinds(streams, pairs, y);
      PairedOnce(streams, y, x, Partner(pairs, y).value);
    }
  }

  /** The nodes are disjoint, and the way from a stream to its partner leads back, exactly when no stream is
      claimed by two others. */
  lemma PairsAreSoundIffUnambiguous(streams: map<Index, Stream>, pairs: seq<(Index, Index)>)
    requires AllPairs(streams, pairs)
    ensures Disjoint(pairs) <==> Unambiguous(streams)
    ensures Involutive(pairs) <==> Unambiguous(streams)
  {
    if Unambiguous(streams) {
      NoClaimsCollide(streams, pairs);
    } else {
      var a, c, b :| Associated(streams, a, b) && Associated(streams, c, b) && a != c;
      TwoClaimsCollide(streams, pairs, a, c, b);
    }
  }

  ghost predicate Maps(m: map<Index, Index>, key: Index, value: Index) {
    key in m && m[key] == value
  }

  /** Then the two caches are each other's inverse and hold the pairs. */
  lemma CachesAreInverse(streams: map<Index, Stream>, pairs: seq<(Index, Index)>, p: Index, s: Index)
    requires AllPairs(streams, pairs) && Unambiguous(streams)
    ensures Maps(CacheOf(pairs), p, s) <==> Paired(streams, p, s)
    ensures Maps(CacheOf(Swapped(pairs)), s, p) <==> Paired(streams, p, s)
  {
    CacheFinds(pairs, p);
    CacheFinds(Swapped(pairs), s);
    if Paired(streams, p, s) {
      SwappedHas(pairs, p, s);
      assert (p, s) in pairs && (s, p) in Swapped(pairs);
      PairedOnce(streams, p, s, CacheOf(pairs)[p]);
      SwappedHas(pairs, CacheOf(Swapped(pairs))[s], s);
      PairedOnce(streams, s, p, CacheOf(Swapped(pairs))[s]);
    }
    if Maps(CacheOf(Swapped(pairs)), s, p) {
      SwappedHas(pairs, p, s);
    }
  }

  lemma AtMostOne(indexes: set<Index>, a: Index, c: Index)
    requires |indexes| <= 1 && a in indexes && c in indexes
    ensures a == c
  {
    assert |indexes - {a}| == 0;
  }

  /** Association sets of at most one element are never ambiguous. */
  lemma SinglesAreUnambiguous(streams: map<Index, Stream>)
    requires forall i :: i in streams ==> |streams[i].redundantStreams| <= 1
    ensures Unambiguous(streams)
  {
    forall a, c, b | Associated(streams, a, b) && Associated(streams, c, b)
      ensures a == c
    {
      AtMostOne(streams[b].redundantStreams, a, c);
    }
  }
}
