/** The mappings of the input ports that a new stream format leaves without a stream channel. */
module InvalidMappings {

  import opened Common
  import opened AudioMappings
  import StreamFormats

  /** An input port: its clusters by index, with their channel counts, and its list of mappings. */
  datatype Port = Port(hasDynamicMap: bool, baseCluster: Index, clusters: map<Index, nat>, dynamicMap: Mappings)

  function ChannelsOf(format: StreamFormats.StreamFormat): nat {
    StreamFormats.Parse(format).channels
  }

  /** The cluster of a mapping: a sum of 16-bit indexes, wrapped. */
  function ClusterOf(port: Port, m: AudioMapping): Index {
    (port.baseCluster + m.cluster) % 0x1_0000
  }

  /** The static bounds of a mapping: its stream, its cluster and the channel of that cluster exist. */
  predicate InBounds(port: Port, maxStreams: nat, m: AudioMapping) {
    && m.stream < maxStreams && m.cluster < |port.clusters|
    && ClusterOf(port, m) in port.clusters && m.clusterChannel < port.clusters[ClusterOf(port, m)]
  }

  predicate IsInvalid(port: Port, maxStreams: nat, stream: Index, channels: nat, m: AudioMapping) {
    m.stream == stream && InBounds(port, maxStreams, m) && m.streamChannel >= channels
  }

  /** The invalid mappings of a list, and the others, in their order. */
  function Invalid(port: Port, maxStreams: nat, stream: Index, channels: nat, list: Mappings): Mappings {
    if list == [] then []
    else (if IsInvalid(port, maxStreams, stream, channels, list[0]) then [list[0]] else [])
         + Invalid(port, maxStreams, stream, channels, list[1..])
  }

  function Others(port: Port, maxStreams: nat, stream: Index, channels: nat, list: Mappings): Mappings {
    if list == [] then []
    else (if IsInvalid(port, maxStreams, stream, channels, list[0]) then [] else [list[0]])
         + Others(port, maxStreams, stream, channels, list[1..])
  }

  method InvalidOfPort(port: Port, maxStreams: nat, stream: Index, channels: nat) returns (invalid: Mappings)
    ensures invalid == Invalid(port, maxStreams, stream, channels, port.dynamicMap)
  {
    invalid := [];
    var list := port.dynamicMap;
    for i := 0 to |list|
      invariant invalid + Invalid(port, maxStreams, stream, channels, list[i..])
             == Invalid(port, maxStreams, stream, channels, list)
    {
      assert list[i..][1..] == list[i + 1..];
      var m := list[i];
      if m.stream == stream {
        if m.stream < maxStreams && m.cluster < |port.clusters| {
          var cluster := ClusterOf(port, m);
          if cluster in port.clusters && m.clusterChannel < port.clusters[cluster] && m.streamChannel >= channels {
            invalid := invalid + [m];
          }
        }
      }
    }
    assert invalid + Invalid(port, maxStreams, stream, channels, list[|list|..]) == invalid;
  }

  /** The invalid mappings by port; a port with none, or without dynamic mappings, has no entry. */
  method GetInvalidMappings(ports: seq<(Index, Port)>, maxStreams: nat, stream: Index,
                            format: StreamFormats.StreamFormat)
    returns (invalid: map<Index, Mappings>)
    requires forall j, k :: 0 <= j < k < |ports| ==> ports[j].0 != ports[k].0
    ensures forall k {:trigger ports[k]} :: 0 <= k < |ports| ==>
              var wrong := Invalid(ports[k].1, maxStreams, stream, ChannelsOf(format), ports[k].1.dynamicMap);
              && (ports[k].0 in invalid <==> ports[k].1.hasDynamicMap && wrong != [])
              && (ports[k].0 in invalid ==> invalid[ports[k].0] == wrong)
    ensures forall index :: index in invalid ==> exists k :: 0 <= k < |ports| && ports[k].0 == index
  {
    var channels := ChannelsOf(format);
    invalid := map[];
    for i := 0 to |ports|
      invariant forall k {:trigger ports[k]} :: 0 <= k < i ==>
                  var wrong := Invalid(ports[k].1, maxStreams, stream, channels, ports[k].1.dynamicMap);
                  && (ports[k].0 in invalid <==> ports[k].1.hasDynamicMap && wrong != [])
                  && (ports[k].0 in invalid ==> invalid[ports[k].0] == wrong)
      invariant forall index :: index in invalid ==> exists k :: 0 <= k < i && ports[k].0 == index
    {
      hide Invalid;
      var (index, port) := ports[i];
      if port.hasDynamicMap {
        var wrong := InvalidOfPort(port, maxStreams, stream, channels);
        if wrong != [] {
          invalid := invalid[index := wrong];
        }
      }
    }
  }

  // ---------------------------------------------------------------- Removing what was reported

  lemma RemoveHead(list: Mappings, removed: Mappings)
    requires list != [] && removed != [] && list[0] == removed[0]
    ensures RemoveAll(list, removed) == RemoveAll(list[1..], removed[1..])
  {
    RemoveAllConcat(list, removed[..1], removed[1..]);
    assert removed[..1] + removed[1..] == removed;
    assert removed[..1][..0] == [];
    assert RemoveAll(list, removed[..1]) == RemoveOne(RemoveAll(list, []), removed[0]);
  }

  lemma {:induction false} RemoveAllConcat(list: Mappings, a: Mappings, b: Mappings)
    ensures RemoveAll(list, a + b) == RemoveAll(RemoveAll(list, a), b)
  {
    if b == [] {
      assert a + b == a;
    } else {
      var n := |b| - 1;
      RemoveAllConcat(list, a, b[..n]);
      assert (a + b)[..|a| + n] == a + b[..n];
    }
  }

  lemma {:induction false} KeepHead(list: Mappings, removed: Mappings)
    requires list != [] && list[0] !in removed
    ensures RemoveAll(list, removed) == [list[0]] + RemoveAll(list[1..], removed)
  {
    if removed != [] {
      KeepHead(list, removed[..|removed| - 1]);
    }
  }

  lemma {:induction false} InvalidOnly(port: Port, maxStreams: nat, stream: Index, channels: nat, list: Mappings)
    ensures forall m :: m in Invalid(port, maxStreams, stream, channels, list)
                        <==> m in list && IsInvalid(port, maxStreams, stream, channels, m)
    ensures forall m :: m in Others(port, maxStreams, stream, channels, list)
                        <==> m in list && !IsInvalid(port, maxStreams, stream, channels, m)
  {
    if list != [] {
      InvalidOnly(port, maxStreams, stream, channels, list[1..]);
      assert list == [list[0]] + list[1..];
    }
  }

  /** Removing the mappings reported as invalid leaves the others, each as often as it was there and in the same
      order, even when the list holds duplicates. */
  lemma {:induction false} RemovingInvalidLeavesOthers(port: Port, maxStreams: nat, stream: Index, channels: nat,
                                                      list: Mappings)
    ensures RemoveAll(list, Invalid(port, maxStreams, stream, channels, list))
         == Others(port, maxStreams, stream, channels, list)
  {
    if list != [] {
      var rest := list[1..];
      RemovingInvalidLeavesOthers(port, maxStreams, stream, channels, rest);
      var wrong := Invalid(port, maxStreams, stream, channels, list);
      if IsInvalid(port, maxStreams, stream, channels, list[0]) {
        assert wrong[1..] == Invalid(port, maxStreams, stream, channels, rest);
        RemoveHead(list, wrong);
      } else {
        InvalidOnly(port, maxStreams, stream, channels, list);
        assert wrong == Invalid(port, maxStreams, stream, channels, rest);
        KeepHead(list, wrong);
      }
    }
  }

  /** After that no mapping of the stream within the static bounds is beyond the channels of the format, and the
      removed and the remaining mappings make up the list. */
  lemma NoneExceeds(port: Port, maxStreams: nat, stream: Index, format: StreamFormats.StreamFormat, m: AudioMapping)
    ensures var channels := ChannelsOf(format);
            var wrong := Invalid(port, maxStreams, stream, channels, port.dynamicMap);
            var left := RemoveAll(port.dynamicMap, wrong);
            && (m in left <==>
                m in port.dynamicMap
                && !(m.stream == stream && InBounds(port, maxStreams, m) && m.streamChannel >= channels))
            && multiset(left) + multiset(wrong) == multiset(port.dynamicMap)
  {
    var channels := ChannelsOf(format);
    var list := port.dynamicMap;
    RemovingInvalidLeavesOthers(port, maxStreams, stream, channels, list);
    InvalidOnly(port, maxStreams, stream, channels, list);
    InvalidWithin(port, maxStreams, stream, channels, list);
    RemoveAllTakesCommon(list, Invalid(port, maxStreams, stream, channels, list));
  }

  lemma {:induction false} InvalidWithin(port: Port, maxStreams: nat, stream: Index, channels: nat, list: Mappings)
    ensures multiset(Invalid(port, maxStreams, stream, channels, list)) <= multiset(list)
  {
    if list != [] {
      var rest := list[1..];
      InvalidWithin(port, maxStreams, stream, channels, rest);
      assert list == [list[0]] + rest;
      MultisetOfCons(list[0], rest);
      MultisetOfCons(list[0], Invalid(port, maxStreams, stream, channels, rest));
    }
  }
}
