/** The dynamic audio mappings of output ports: a finite map kept as a list. */
module OutputMappings {

  import opened Common
  import opened AudioMappings

  type Channel = (Index, Index)

  /** The stream channel a mapping feeds. */
  function Fed(m: AudioMapping): Channel {
    (m.stream, m.streamChannel)
  }

  // ---------------------------------------------------------------- The list

  function FindFed(list: Mappings, channel: Channel): (k: nat)
    ensures k <= |list|
    ensures k < |list| ==> Fed(list[k]) == channel
    ensures forall j :: 0 <= j < k ==> Fed(list[j]) != channel
  {
    if list == [] || Fed(list[0]) == channel then 0 else 1 + FindFed(list[1..], channel)
  }

  function Put(list: Mappings, m: AudioMapping): Mappings {
    var k := FindFed(list, Fed(m));
    if k == |list| then list + [m] else list[k := m]
  }

  function PutAll(list: Mappings, added: Mappings): Mappings {
    if added == [] then list else Put(PutAll(list, added[..|added| - 1]), added[|added| - 1])
  }

  class StreamPortOutput {
    var dynamicMap: Mappings

    method Clear()
      modifies this
      ensures dynamicMap == []
    {
      dynamicMap := [];
    }

    /** A mapping to a stream channel that is fed already replaces what fed it, unless it is the same. */
    method Add(mappings: Mappings)
      modifies this
      ensures dynamicMap == PutAll(old(dynamicMap), mappings)
    {
      for i := 0 to |mappings|
        invariant dynamicMap == PutAll(old(dynamicMap), mappings[..i])
      {
        var k := 0;
        while k < |dynamicMap| && Fed(dynamicMap[k]) != Fed(mappings[i])
          invariant k <= |dynamicMap| && FindFed(dynamicMap, Fed(mappings[i])) >= k
        {
          k := k + 1;
        }
        assert mappings[..i + 1][..i] == mappings[..i];
        if k == |dynamicMap| {
          dynamicMap := dynamicMap + [mappings[i]];
        } else if dynamicMap[k] != mappings[i] {
          dynamicMap := dynamicMap[k := mappings[i]];
        }
      }
      assert mappings[..|mappings|] == mappings;
    }

    method Remove(mappings: Mappings)
      modifies this
      ensures dynamicMap == RemoveAll(old(dynamicMap), mappings)
    {
      dynamicMap := EraseMappings(dynamicMap, mappings);
    }
  }

  // ---------------------------------------------------------------- The map it stands for

  /** No stream channel is fed twice. */
  ghost predicate FedOnce(list: Mappings) {
    forall j, k :: 0 <= j < k < |list| ==> Fed(list[j]) != Fed(list[k])
  }

  ghost function AsMap(list: Mappings): (result: map<Channel, AudioMapping>)
    requires FedOnce(list)
  {
    map m | m in list :: Fed(m) := m
  }

  function Updated(m: map<Channel, AudioMapping>, added: Mappings): map<Channel, AudioMapping> {
    if added == [] then m
    else Updated(m, added[..|added| - 1])[Fed(added[|added| - 1]) := added[|added| - 1]]
  }

  /** A remove deletes the entry that is exactly equal, and no other. */
  function Deleted(m: map<Channel, AudioMapping>, removed: Mappings): map<Channel, AudioMapping> {
    map channel | channel in m && m[channel] !in removed :: m[channel]
  }

  lemma PutHas(list: Mappings, m: AudioMapping, n: AudioMapping)
    requires FedOnce(list)
    ensures n in Put(list, m) <==> n == m || (n in list && Fed(n) != Fed(m))
  {
    var k := FindFed(list, Fed(m));
    var put := Put(list, m);
    assert put[k] == m;
    if n in list && Fed(n) != Fed(m) {
      var i :| 0 <= i < |list| && list[i] == n;
      assert put[i] == n;
    }
    if n in put && n != m {
      var i :| 0 <= i < |put| && put[i] == n;
      assert list[i] == n;
    }
  }

  lemma PutIsUpdate(list: Mappings, m: AudioMapping)
    requires FedOnce(list)
    ensures FedOnce(Put(list, m)) && AsMap(Put(list, m)) == AsMap(list)[Fed(m) := m]
  {
    forall n ensures n in Put(list, m) <==> n == m || (n in list && Fed(n) != Fed(m)) {
      PutHas(list, m, n);
    }
  }

  lemma {:induction false} PutAllIsUpdate(list: Mappings, added: Mappings)
    requires FedOnce(list)
    ensures FedOnce(PutAll(list, added)) && AsMap(PutAll(list, added)) == Updated(AsMap(list), added)
  {
    if added != [] {
      var n := |added| - 1;
      PutAllIsUpdate(list, added[..n]);
      PutIsUpdate(PutAll(list, added[..n]), added[n]);
    }
  }

  lemma {:induction false} RemoveOneHas(list: Mappings, m: AudioMapping)
    requires FedOnce(list)
    ensures FedOnce(RemoveOne(list, m))
    ensures forall n :: n in RemoveOne(list, m) <==> n in list && n != m
  {
    if list != [] {
      var rest := list[1..];
      RemoveOneHas(rest, m);
      assert list == [list[0]] + rest;
      forall n | n in rest ensures Fed(n) != Fed(list[0]) {
        var i :| 0 <= i < |rest| && rest[i] == n;
        assert list[i + 1] == n;
      }
      if list[0] != m {
        var removed := RemoveOne(rest, m);
        assert RemoveOne(list, m) == [list[0]] + removed;
        forall j | 0 <= j < |removed| ensures Fed(removed[j]) != Fed(list[0]) {
          assert removed[j] in rest;
        }
      }
    }
  }

  lemma {:induction false} RemoveAllIsDelete(list: Mappings, removed: Mappings)
    requires FedOnce(list)
    ensures FedOnce(RemoveAll(list, removed))
    ensures forall n :: n in RemoveAll(list, removed) <==> n in list && n !in removed
    ensures AsMap(RemoveAll(list, removed)) == Deleted(AsMap(list), removed)
  {
    if removed != [] {
      var n := |removed| - 1;
      RemoveAllIsDelete(list, removed[..n]);
      RemoveOneHas(RemoveAll(list, removed[..n]), removed[n]);
      assert removed == removed[..n] + [removed[n]];
    }
  }

  // ---------------------------------------------------------------- Runs

  datatype OutputOp = AddMappings(added: Mappings) | RemoveMappings(removed: Mappings) | ClearMappings

  function Run(ops: seq<OutputOp>): Mappings {
    if ops == [] then []
    else
      var before := Run(ops[..|ops| - 1]);
      match ops[|ops| - 1]
      case AddMappings(ms) => PutAll(before, ms)
      case RemoveMappings(ms) => RemoveAll(before, ms)
      case ClearMappings => []
  }

  function RunMap(ops: seq<OutputOp>): map<Channel, AudioMapping> {
    if ops == [] then map[]
    else
      var before := RunMap(ops[..|ops| - 1]);
      match ops[|ops| - 1]
      case AddMappings(ms) => Updated(before, ms)
      case RemoveMappings(ms) => Deleted(before, ms)
      case ClearMappings => map[]
  }

  /** Over every run from the empty list no stream channel is fed twice and the list is the finite map that the
      run makes. */
  lemma {:induction false} RunsRefineMaps(ops: seq<OutputOp>)
    ensures FedOnce(Run(ops)) && AsMap(Run(ops)) == RunMap(ops)
  {
    if ops != [] {
      var n := |ops| - 1;
      RunsRefineMaps(ops[..n]);
      match ops[n]
      case AddMappings(ms) => PutAllIsUpdate(Run(ops[..n]), ms);
      case RemoveMappings(ms) => RemoveAllIsDelete(Run(ops[..n]), ms);
      case ClearMappings =>
    }
  }

  /** The mapping fed last to a channel by a batch. */
  ghost predicate LastIn(added: Mappings, m: AudioMapping) {
    exists k :: 0 <= k < |added| && added[k] == m && forall j :: k < j < |added| ==> Fed(added[j]) != Fed(m)
  }

  ghost predicate Touches(added: Mappings, channel: Channel) {
    exists m :: m in added && Fed(m) == channel
  }

  /** The run sets m at step k: its batch of adds ends, for that channel, with m. */
  ghost predicate SetAt(ops: seq<OutputOp>, k: nat, m: AudioMapping) {
    k < |ops| && ops[k].AddMappings? && LastIn(ops[k].added, m)
  }

  /** Step k takes m away, by a clear, by a remove of m or by feeding its channel otherwise. */
  ghost predicate UnsetAt(ops: seq<OutputOp>, k: nat, m: AudioMapping) {
    && k < |ops|
    && match ops[k]
       case AddMappings(ms) => Touches(ms, Fed(m)) && !LastIn(ms, m)
       case RemoveMappings(ms) => m in ms
       case ClearMappings => true
  }

  ghost predicate SurvivesFrom(ops: seq<OutputOp>, k: nat, m: AudioMapping) {
    SetAt(ops, k, m) && forall j :: k < j < |ops| ==> !UnsetAt(ops, j, m)
  }

  lemma {:induction false} UpdatedHas(before: map<Channel, AudioMapping>, added: Mappings, m: AudioMapping)
    ensures Has(Updated(before, added), m) <==> LastIn(added, m) || (Has(before, m) && !Touches(added, Fed(m)))
  {
    if added != [] {
      var n := |added| - 1;
      var init, last := added[..n], added[n];
      UpdatedHas(before, init, m);
      assert Has(Updated(before, added), m) <==>
             if Fed(last) == Fed(m) then last == m else Has(Updated(before, init), m);
      assert added == init + [last];
      assert Touches(added, Fed(m)) <==> Fed(last) == Fed(m) || Touches(init, Fed(m));
      LastInStep(init, last, m);
    }
  }

  lemma LastInStep(init: Mappings, last: AudioMapping, m: AudioMapping)
    ensures LastIn(init + [last], m) <==> if Fed(last) == Fed(m) then last == m else LastIn(init, m)
  {
    var added := init + [last];
    if Fed(last) == Fed(m) {
      assert added[|init|] == last;
    } else if LastIn(init, m) {
      var k :| 0 <= k < |init| && init[k] == m && forall j :: k < j < |init| ==> Fed(init[j]) != Fed(m);
      assert added[k] == m;
    } else if LastIn(added, m) {
      var k :| 0 <= k < |added| && added[k] == m && forall j :: k < j < |added| ==> Fed(added[j]) != Fed(m);
      assert init[k] == m;
      forall j | k < j < |init| ensures Fed(init[j]) != Fed(m) {
        assert added[j] == init[j];
      }
    }
  }

  ghost predicate Has(mappings: map<Channel, AudioMapping>, m: AudioMapping) {
    Fed(m) in mappings && mappings[Fed(m)] == m
  }

  /** A mapping is in the list after a run exactly when some step set it and no later step took it away. */
  lemma {:induction false} PresentIffSetAndNotUnset(ops: seq<OutputOp>, m: AudioMapping)
    ensures m in Run(ops) <==> exists k :: SurvivesFrom(ops, k, m)
  {
    RunsRefineMaps(ops);
    assert m in Run(ops) <==> Has(AsMap(Run(ops)), m);
    if ops != [] {
      var n := |ops| - 1;
      PresentIffSetAndNotUnset(ops[..n], m);
      RunsRefineMaps(ops[..n]);
      assert m in Run(ops[..n]) <==> Has(AsMap(Run(ops[..n])), m);
      StepHas(ops, m);
      SurvivalStep(ops, m);
    }
  }

  lemma LastTouches(added: Mappings, m: AudioMapping)
    ensures LastIn(added, m) ==> Touches(added, Fed(m))
  {
  }

  lemma StepHas(ops: seq<OutputOp>, m: AudioMapping)
    requires ops != []
    ensures var n := |ops| - 1;
            Has(RunMap(ops), m) <==> SetAt(ops, n, m) || (Has(RunMap(ops[..n]), m) && !UnsetAt(ops, n, m))
  {
    var n := |ops| - 1;
    if ops[n].AddMappings? {
      UpdatedHas(RunMap(ops[..n]), ops[n].added, m);
      LastTouches(ops[n].added, m);
    }
  }

  lemma SurvivalStep(ops: seq<OutputOp>, m: AudioMapping)
    requires ops != []
    ensures var n := |ops| - 1;
            (exists k :: SurvivesFrom(ops, k, m))
            <==> SetAt(ops, n, m) || ((exists k :: SurvivesFrom(ops[..n], k, m)) && !UnsetAt(ops, n, m))
  {
    var n := |ops| - 1;
    var before := ops[..n];
    if SetAt(ops, n, m) {
      assert SurvivesFrom(ops, n, m);
    }
    if k: nat :| SurvivesFrom(before, k, m) && !UnsetAt(ops, n, m) {
      forall j: nat | k < j < |ops| ensures !UnsetAt(ops, j, m) {
        if j < n {
          assert !UnsetAt(before, j, m);
        }
      }
      assert SurvivesFrom(ops, k, m);
    }
    if k: nat :| SurvivesFrom(ops, k, m) && k < n {
      forall j: nat | k < j < n ensures !UnsetAt(before, j, m) {
        assert !UnsetAt(ops, j, m);
      }
      assert SurvivesFrom(before, k, m);
    }
  }
}
