/** The dynamic audio mappings of stream ports: the lists of the input ports, repaired for redundancy, and
    those of the output ports. */
module AudioMappings {

  import opened Common
  import Redundancy

  datatype AudioMapping = AudioMapping(stream: Index, streamChannel: Index, cluster: Index, clusterChannel: Index)

  type Mappings = seq<AudioMapping>

  /** The redundancy caches: the other stream of each redundant pair, by its primary and by its secondary. */
  datatype Caches = Caches(primaries: map<Index, Index>, secondaries: map<Index, Index>) {
    function Partner(stream: Index): Option<Index> {
      Redundancy.PartnerIn(primaries, secondaries, stream)
    }

    /** The two caches are each other's inverse. */
    ghost predicate Valid() {
      && primaries.Keys !! secondaries.Keys
      && (forall p :: p in primaries ==> primaries[p] in secondaries && secondaries[primaries[p]] == p)
      && (forall s :: s in secondaries ==> secondaries[s] in primaries && primaries[secondaries[s]] == s)
    }
  }

  /** The caches left by the builder of the redundant pairs are valid unless a stream is claimed twice. */
  lemma BuiltCachesAreValid(streams: map<Index, Redundancy.Stream>, pairs: seq<(Index, Index)>)
    requires Redundancy.AllPairs(streams, pairs) && Redundancy.Unambiguous(streams)
    ensures Caches(Redundancy.CacheOf(pairs), Redundancy.CacheOf(Redundancy.Swapped(pairs))).Valid()
  {
    forall p: Index, s: Index
      ensures Redundancy.Maps(Redundancy.CacheOf(pairs), p, s) <==> Redundancy.Paired(streams, p, s)
      ensures Redundancy.Maps(Redundancy.CacheOf(Redundancy.Swapped(pairs)), s, p) <==> Redundancy.Paired(streams, p, s)
    {
      Redundancy.CachesAreInverse(streams, pairs, p, s);
    }
    var c := Caches(Redundancy.CacheOf(pairs), Redundancy.CacheOf(Redundancy.Swapped(pairs)));
    forall p | p in c.primaries
      ensures p !in c.secondaries && c.primaries[p] in c.secondaries && c.secondaries[c.primaries[p]] == p
    {
      assert Redundancy.Maps(c.primaries, p, c.primaries[p]);
      assert Redundancy.Maps(c.secondaries, c.primaries[p], p);
      if p in c.secondaries {
        assert Redundancy.Maps(c.secondaries, p, c.secondaries[p]);
      }
    }
    forall s | s in c.secondaries
      ensures c.secondaries[s] in c.primaries && c.primaries[c.secondaries[s]] == s
    {
      assert Redundancy.Maps(c.secondaries, s, c.secondaries[s]);
      assert Redundancy.Maps(c.primaries, c.secondaries[s], s);
    }
  }

  predicate SameDestination(m: AudioMapping, n: AudioMapping) {
    m.cluster == n.cluster && m.clusterChannel == n.clusterChannel
  }

  /** n completes a redundant pair with m: the other stream, the same stream channel. */
  predicate Completes(c: Caches, m: AudioMapping, n: AudioMapping) {
    c.Partner(n.stream) == Some(m.stream) && m.streamChannel == n.streamChannel
  }

  /** The position of the first mapping to the destination of m, or the length of the list. */
  function Find(list: Mappings, m: AudioMapping): (k: nat)
    ensures k <= |list|
    ensures k < |list| ==> SameDestination(list[k], m)
    ensures forall j :: 0 <= j < k ==> !SameDestination(list[j], m)
  {
    if list == [] || SameDestination(list[0], m) then 0 else 1 + Find(list[1..], m)
  }

  /** A checked add: a new destination, the completion of a redundant pair, or the replacement of what is there. */
  function AddOrFix(c: Caches, list: Mappings, m: AudioMapping): Mappings {
    var k := Find(list, m);
    if k == |list| || Completes(c, list[k], m) then list + [m] else list[k := m]
  }

  function AddAll(c: Caches, list: Mappings, added: Mappings): Mappings {
    if added == [] then list else AddOrFix(c, AddAll(c, list, added[..|added| - 1]), added[|added| - 1])
  }

  /** The pass made when the entity is about to be advertised. */
  function FixPass(c: Caches, list: Mappings): Mappings {
    AddAll(c, [], list)
  }

  /** Removing erases the first equal mapping, if there is one. */
  function RemoveOne(list: Mappings, m: AudioMapping): Mappings {
    if list == [] then [] else if list[0] == m then list[1..] else [list[0]] + RemoveOne(list[1..], m)
  }

  function RemoveAll(list: Mappings, removed: Mappings): Mappings {
    if removed == [] then list else RemoveOne(RemoveAll(list, removed[..|removed| - 1]), removed[|removed| - 1])
  }

  method EraseMapping(list: Mappings, m: AudioMapping) returns (rest: Mappings)
    ensures rest == RemoveOne(list, m)
  {
    var k := 0;
    while k < |list| && list[k] != m
      invariant k <= |list| && m !in list[..k]
    {
      k := k + 1;
    }
    RemoveAbsent(list, m);
    if k < |list| {
      RemoveAt(list, m, k);
      rest := list[..k] + list[k + 1..];
    } else {
      assert list[..k] == list;
      rest := list;
    }
  }

  lemma {:induction false} RemoveAt(list: Mappings, m: AudioMapping, k: nat)
    requires k < |list| && list[k] == m && m !in list[..k]
    ensures RemoveOne(list, m) == list[..k] + list[k + 1..]
  {
    if k > 0 {
      var rest := list[1..];
      assert list[0] == list[..k][0] && rest[..k - 1] == list[..k][1..];
      RemoveAt(rest, m, k - 1);
      assert RemoveOne(list, m) == [list[0]] + RemoveOne(rest, m);
      hide RemoveOne;
      assert list[..k] == [list[0]] + rest[..k - 1] && list[k + 1..] == rest[k..];
      assert [list[0]] + (rest[..k - 1] + rest[k..]) == [list[0]] + rest[..k - 1] + rest[k..];
    }
  }

  lemma {:induction false} RemoveAbsent(list: Mappings, m: AudioMapping)
    ensures m !in list ==> RemoveOne(list, m) == list
    ensures m in list ==> |RemoveOne(list, m)| == |list| - 1
  {
    if list != [] {
      RemoveAbsent(list[1..], m);
      assert list == [list[0]] + list[1..];
    }
  }

  method EraseMappings(list: Mappings, mappings: Mappings) returns (rest: Mappings)
    ensures rest == RemoveAll(list, mappings)
  {
    rest := list;
    for i := 0 to |mappings|
      invariant rest == RemoveAll(list, mappings[..i])
    {
      rest := EraseMapping(rest, mappings[i]);
      assert mappings[..i + 1][..i] == mappings[..i];
    }
    assert mappings[..|mappings|] == mappings;
  }

  lemma {:induction false} RemoveOneTakesOne(list: Mappings, m: AudioMapping)
    ensures multiset(RemoveOne(list, m)) == multiset(list) - multiset{m}
  {
    if list != [] {
      var first, rest := list[0], list[1..];
      RemoveOneTakesOne(rest, m);
      assert list == [first] + rest;
      MultisetOfCons(first, rest);
      MultisetOfCons(first, RemoveOne(rest, m));
      if first == m {
        TakeFromSum(multiset{m}, multiset(rest), m);
      } else {
        assert RemoveOne(list, m) == [first] + RemoveOne(rest, m);
        hide RemoveOne;
        TakeFromSum(multiset{first}, multiset(rest), m);
      }
    }
  }

  lemma MultisetOfCons(m: AudioMapping, rest: Mappings)
    ensures multiset([m] + rest) == multiset{m} + multiset(rest)
  {
  }

  lemma TakeFromSum(a: multiset<AudioMapping>, b: multiset<AudioMapping>, m: AudioMapping)
    ensures m !in a ==> (a + b) - multiset{m} == a + (b - multiset{m})
    ensures a == multiset{m} ==> (a + b) - multiset{m} == b
  {
  }

  /** A batch of removes takes from the list, as a multiset, exactly the mappings it has in common with it. */
  lemma {:induction false} RemoveAllTakesCommon(list: Mappings, removed: Mappings)
    ensures multiset(RemoveAll(list, removed)) == multiset(list) - multiset(removed)
  {
    if removed != [] {
      var n := |removed| - 1;
      RemoveAllTakesCommon(list, removed[..n]);
      var before := RemoveAll(list, removed[..n]);
      RemoveOneTakesOne(before, removed[n]);
      assert RemoveAll(list, removed) == RemoveOne(before, removed[n]);
      hide *;
      MultisetOfSnoc(removed[..n], removed[n]);
      assert removed == removed[..n] + [removed[n]];
      TakeSum(multiset(list), multiset(removed[..n]), multiset{removed[n]});
    }
  }

  lemma MultisetOfSnoc(list: Mappings, m: AudioMapping)
    ensures multiset(list + [m]) == multiset(list) + multiset{m}
  {
  }

  lemma TakeSum(a: multiset<AudioMapping>, b: multiset<AudioMapping>, c: multiset<AudioMapping>)
    ensures a - b - c == a - (b + c)
  {
  }

  // ---------------------------------------------------------------- Input ports

  /** The destination of m, as far as list serves it. */
  function At(list: Mappings, m: AudioMapping): Mappings {
    if list == [] then []
    else (if SameDestination(list[0], m) then [list[0]] else []) + At(list[1..], m)
  }

  /** Nothing, one mapping, or one redundant pair on the same stream channel. */
  predicate Proper(c: Caches, served: Mappings) {
    |served| <= 1 || (|served| == 2 && Completes(c, served[0], served[1]))
  }

  /** Every cluster channel is served properly. */
  ghost predicate WellFormed(c: Caches, list: Mappings) {
    forall m :: Proper(c, At(list, m))
  }

  class StreamPortInput {
    var dynamicMap: Mappings

    method Clear()
      modifies this
      ensures dynamicMap == []
    {
      dynamicMap := [];
    }

    static method AddOrFixMapping(c: Caches, list: Mappings, m: AudioMapping) returns (fixed: Mappings)
      ensures fixed == AddOrFix(c, list, m)
    {
      var k := 0;
      while k < |list| && !SameDestination(list[k], m)
        invariant k <= |list| && Find(list, m) >= k
      {
        k := k + 1;
      }
      if k == |list| {
        return list + [m];
      }
      var partner := c.Partner(m.stream);
      if partner.Some? && partner.value == list[k].stream && list[k].streamChannel == m.streamChannel {
        return list + [m];
      }
      return list[k := m];
    }

    /** Before the entity is advertised mappings are collected unchecked. */
    method Add(c: Caches, advertised: bool, mappings: Mappings)
      modifies this
      ensures dynamicMap == if advertised then AddAll(c, old(dynamicMap), mappings) else old(dynamicMap) + mappings
    {
      if !advertised {
        dynamicMap := dynamicMap + mappings;
      } else {
        for i := 0 to |mappings|
          invariant dynamicMap == AddAll(c, old(dynamicMap), mappings[..i])
        {
          dynamicMap := AddOrFixMapping(c, dynamicMap, mappings[i]);
          assert mappings[..i + 1][..i] == mappings[..i];
        }
        assert mappings[..|mappings|] == mappings;
      }
    }

    method Remove(mappings: Mappings)
      modifies this
      ensures dynamicMap == RemoveAll(old(dynamicMap), mappings)
    {
      dynamicMap := EraseMappings(dynamicMap, mappings);
    }

    /** The rebuild of the list; it is left alone in an entity without redundant streams. */
    method Fix(c: Caches)
      modifies this
      ensures dynamicMap == Loaded(c, old(dynamicMap))
    {
      if c.primaries != map[] {
        var rebuilt := [];
        for i := 0 to |dynamicMap|
          modifies {}
          invariant rebuilt == FixPass(c, dynamicMap[..i])
        {
          rebuilt := AddOrFixMapping(c, rebuilt, dynamicMap[i]);
          assert dynamicMap[..i + 1][..i] == dynamicMap[..i];
        }
        assert dynamicMap[..|dynamicMap|] == dynamicMap;
        dynamicMap := rebuilt;
      }
    }
  }

  function Loaded(c: Caches, list: Mappings): Mappings {
    if c.primaries != map[] then FixPass(c, list) else list
  }

  // ---------------------------------------------------------------- When the fix pass changes nothing

  /** The k-th mapping is the first to its destination or completes a pair with the first one. */
  predicate Undisturbed(c: Caches, list: Mappings, k: nat)
    requires k < |list|
  {
    var first := Find(list[..k], list[k]);
    first == k || Completes(c, list[first], list[k])
  }

  lemma AddGrowsByOne(c: Caches, list: Mappings, m: AudioMapping)
    ensures |list| <= |AddOrFix(c, list, m)| <= |list| + 1
    ensures |AddOrFix(c, list, m)| == |list| + 1 ==> AddOrFix(c, list, m) == list + [m]
  {
  }

  lemma {:induction false} FixNeverGrows(c: Caches, list: Mappings)
    ensures |FixPass(c, list)| <= |list|
  {
    if list != [] {
      FixNeverGrows(c, list[..|list| - 1]);
      AddGrowsByOne(c, FixPass(c, list[..|list| - 1]), list[|list| - 1]);
    }
  }

  /** The fix pass leaves a list as it is exactly when every mapping is the first to its destination or completes a
      redundant pair with the first one. */
  lemma {:induction false} FixIsIdentityIff(c: Caches, list: Mappings)
    ensures FixPass(c, list) == list <==> forall k :: 0 <= k < |list| ==> Undisturbed(c, list, k)
  {
    if list != [] {
      var n := |list| - 1;
      var before, last := list[..n], list[n];
      FixIsIdentityIff(c, before);
      FixNeverGrows(c, before);
      AddGrowsByOne(c, FixPass(c, before), last);
      assert list == before + [last];
      forall k | 0 <= k < n
        ensures Undisturbed(c, before, k) == Undisturbed(c, list, k)
      {
        assert before[..k] == list[..k];
      }
      if FixPass(c, list) == list {
        assert FixPass(c, before) + [last] == before + [last];
        assert FixPass(c, before) == (FixPass(c, before) + [last])[..n];
        assert AddOrFix(c, before, last) == before + [last];
      }
      if forall k :: 0 <= k < |list| ==> Undisturbed(c, list, k) {
        assert Undisturbed(c, list, n);
      }
    }
  }

  // ---------------------------------------------------------------- Destinations and redundant pairs

  lemma {:induction false} AtConcat(a: Mappings, b: Mappings, m: AudioMapping)
    ensures At(a + b, m) == At(a, m) + At(b, m)
  {
    if a == [] {
      assert a + b == b;
    } else {
      AtConcat(a[1..], b, m);
      assert (a + b)[1..] == a[1..] + b;
    }
  }

  lemma {:induction false} FindMeetsAt(list: Mappings, m: AudioMapping)
    ensures Find(list, m) == |list| <==> At(list, m) == []
    ensures Find(list, m) < |list| ==> At(list, m) != [] && At(list, m)[0] == list[Find(list, m)]
  {
    if list != [] {
      FindMeetsAt(list[1..], m);
    }
  }

  /** What a checked add makes of the mappings to its destination. */
  function ServedAfter(c: Caches, served: Mappings, m: AudioMapping): Mappings {
    if served == [] || Completes(c, served[0], m) then served + [m] else served[0 := m]
  }

  /** A checked add touches its own destination alone. */
  lemma CheckedAddAt(c: Caches, list: Mappings, m: AudioMapping, n: AudioMapping)
    ensures At(AddOrFix(c, list, m), n) ==
            if SameDestination(m, n) then ServedAfter(c, At(list, n), m) else At(list, n)
  {
    FindMeetsAt(list, m);
    if SameDestination(m, n) {
      SameAt(list, m, n);
    }
    var k := Find(list, m);
    if AddOrFix(c, list, m) == list + [m] {
      AtConcat(list, [m], n);
    } else {
      ReplaceAt(list, m, n);
    }
  }

  lemma {:induction false} SameAt(list: Mappings, m: AudioMapping, n: AudioMapping)
    requires SameDestination(m, n)
    ensures At(list, m) == At(list, n)
  {
    if list != [] {
      SameAt(list[1..], m, n);
    }
  }

  lemma {:induction false} ReplaceAt(list: Mappings, m: AudioMapping, n: AudioMapping)
    requires Find(list, m) < |list|
    ensures SameDestination(m, n) ==> At(list, n) != []
    ensures At(list[Find(list, m) := m], n) == if SameDestination(m, n) then At(list, n)[0 := m] else At(list, n)
  {
    var k := Find(list, m);
    var replaced := list[k := m];
    if k == 0 {
      assert replaced == [m] + list[1..];
    } else {
      ReplaceAt(list[1..], m, n);
      assert replaced == [list[0]] + list[1..][k - 1 := m];
    }
  }

  /** A checked add leaves its mapping in the list and loses no destination. */
  lemma CheckedAddKeepsDestinations(c: Caches, list: Mappings, m: AudioMapping, n: AudioMapping)
    ensures m in AddOrFix(c, list, m)
    ensures At(list, n) != [] ==> At(AddOrFix(c, list, m), n) != []
  {
    CheckedAddAt(c, list, m, n);
    var k := Find(list, m);
    var added := AddOrFix(c, list, m);
    assert added[if |added| > |list| then |list| else k] == m;
  }

  /** Every other mapping keeps its place; the added one takes the first place of its destination, or the end. */
  lemma CheckedAddKeepsPlaces(c: Caches, list: Mappings, m: AudioMapping)
    ensures var added := AddOrFix(c, list, m);
            added == list + [m] || exists k: nat :: ReplacedAt(list, added, k, m)
  {
    var k := Find(list, m);
    if AddOrFix(c, list, m) != list + [m] {
      assert ReplacedAt(list, AddOrFix(c, list, m), k, m);
    }
  }

  ghost predicate ReplacedAt(list: Mappings, added: Mappings, k: nat, m: AudioMapping) {
    && k < |list| == |added| && added[k] == m && SameDestination(list[k], m)
    && (forall j :: 0 <= j < k ==> !SameDestination(list[j], m))
    && (forall j :: 0 <= j < |list| && j != k ==> added[j] == list[j])
  }

  /** A checked add keeps a well-formed list well-formed exactly when its destination holds at most one mapping or
      the mapping is the first one there already. */
  lemma CheckedAddKeepsWellFormedIff(c: Caches, list: Mappings, m: AudioMapping)
    requires c.Valid() && WellFormed(c, list)
    ensures WellFormed(c, AddOrFix(c, list, m)) <==> |At(list, m)| <= 1 || At(list, m)[0] == m
  {
    var served := At(list, m);
    CheckedAddAt(c, list, m, m);
    AtIsDestination(list, m);
    assert Proper(c, served);
    if |served| <= 1 || served[0] == m {
      forall n
        ensures Proper(c, At(AddOrFix(c, list, m), n))
      {
        CheckedAddAt(c, list, m, n);
        if SameDestination(m, n) {
          SameAt(list, m, n);
          PartnerIsAnother(c, m.stream);
        } else {
          assert Proper(c, At(list, n));
        }
      }
    } else {
      PartnerIsUnique(c, served[0].stream, m.stream, served[1].stream);
      assert !Proper(c, At(AddOrFix(c, list, m), m));
    }
  }

  lemma {:induction false} AtIsDestination(list: Mappings, m: AudioMapping)
    ensures forall k :: 0 <= k < |At(list, m)| ==> SameDestination(At(list, m)[k], m)
  {
    if list != [] {
      AtIsDestination(list[1..], m);
    }
  }

  lemma PartnerIsAnother(c: Caches, stream: Index)
    requires c.Valid()
    ensures c.Partner(stream) != Some(stream)
  {
  }

  lemma PartnerIsUnique(c: Caches, a: Index, b: Index, s: Index)
    requires c.Valid() && c.Partner(s) == Some(a)
    ensures c.Partner(s) == Some(b) ==> a == b
  {
  }

  lemma {:induction false} WellFormedUndisturbed(c: Caches, list: Mappings, k: nat)
    requires WellFormed(c, list) && k < |list|
    ensures Undisturbed(c, list, k)
  {
    var m := list[k];
    assert list == list[..k] + ([m] + list[k + 1..]);
    AtConcat(list[..k], [m] + list[k + 1..], m);
    FindMeetsAt(list[..k], m);
    assert At(list, m) == At(list[..k], m) + ([m] + At(list[k + 1..], m));
    assert Proper(c, At(list, m));
  }

  /** The fix pass leaves a well-formed list as it is. */
  lemma FixKeepsWellFormed(c: Caches, list: Mappings)
    requires WellFormed(c, list)
    ensures FixPass(c, list) == list
  {
    forall k | 0 <= k < |list|
      ensures Undisturbed(c, list, k)
    {
      WellFormedUndisturbed(c, list, k);
    }
    FixIsIdentityIff(c, list);
  }

  /** A pair met by a further mapping to its destination: the fix pass breaks it, and a second pass breaks it more. */
  lemma FixIsNotIdempotent(c: Caches, p: AudioMapping, s: AudioMapping, x: AudioMapping)
    requires c.Valid() && SameDestination(p, s) && SameDestination(s, x)
    requires Completes(c, p, s) && x.stream != p.stream && c.Partner(x.stream) != Some(p.stream)
    ensures FixPass(c, [p, s, x]) == [x, s] && FixPass(c, [x, s]) == [s]
  {
    FixOfOne(c, p);
    FixStep(c, [p], s);
    FixStep(c, [p, s], x);
    FixOfOne(c, x);
    FixStep(c, [x], s);
    hide FixPass, AddAll;
    assert [p] + [s] == [p, s] && [p, s] + [x] == [p, s, x] && [x] + [s] == [x, s];
    assert AddOrFix(c, [p], s) == [p, s];
    assert [p, s][0 := x] == [x, s];
    assert AddOrFix(c, [p, s], x) == [x, s];
    assert AddOrFix(c, [x], s) == [s];
  }

  lemma FixOfOne(c: Caches, m: AudioMapping)
    ensures FixPass(c, [m]) == [m]
  {
    assert [m][..0] == [];
    assert FixPass(c, [m]) == AddOrFix(c, AddAll(c, [], []), m);
    assert [] + [m] == [m];
  }

  lemma FixStep(c: Caches, list: Mappings, m: AudioMapping)
    ensures FixPass(c, list + [m]) == AddOrFix(c, FixPass(c, list), m)
  {
    assert (list + [m])[..|list|] == list;
  }

  // ---------------------------------------------------------------- The view without redundancy

  function NonRedundant(c: Caches, list: Mappings): Mappings {
    if list == [] then []
    else (if list[0].stream in c.secondaries then [] else [list[0]]) + NonRedundant(c, list[1..])
  }

  /** The view holds the mappings of the list at some positions, in order: those that are not of secondary streams. */
  ghost predicate IsView(c: Caches, list: Mappings, view: Mappings, positions: seq<nat>) {
    && |positions| == |view|
    && (forall k :: 0 <= k < |view| ==> positions[k] < |list| && view[k] == list[positions[k]])
    && (forall j, k :: 0 <= j < k < |view| ==> positions[j] < positions[k])
    && (forall i :: 0 <= i < |list| ==> (i in positions <==> list[i].stream !in c.secondaries))
  }

  method GetNonRedundant(c: Caches, list: Mappings) returns (view: Mappings, ghost positions: seq<nat>)
    ensures view == NonRedundant(c, list)
    ensures IsView(c, list, view, positions)
    ensures forall m :: multiset(view)[m] == if m.stream in c.secondaries then 0 else multiset(list)[m]
  {
    view, positions := [], [];
    for i := 0 to |list|
      invariant view == NonRedundant(c, list[..i])
      invariant IsView(c, list[..i], view, positions)
    {
      NonRedundantConcat(c, list[..i], [list[i]]);
      assert list[..i + 1] == list[..i] + [list[i]];
      ViewGrows(c, list[..i], list[i], view, positions);
      hide IsView;
      if list[i].stream !in c.secondaries {
        view, positions := view + [list[i]], positions + [i];
      }
    }
    assert list[..|list|] == list;
    forall m ensures multiset(view)[m] == if m.stream in c.secondaries then 0 else multiset(list)[m] {
      ViewCounts(c, list, m);
    }
  }

  lemma ViewGrows(c: Caches, list: Mappings, m: AudioMapping, view: Mappings, positions: seq<nat>)
    requires IsView(c, list, view, positions)
    ensures m.stream in c.secondaries ==> IsView(c, list + [m], view, positions)
    ensures m.stream !in c.secondaries ==> IsView(c, list + [m], view + [m], positions + [|list|])
  {
  }

  lemma {:induction false} ViewCounts(c: Caches, list: Mappings, m: AudioMapping)
    ensures multiset(NonRedundant(c, list))[m] == if m.stream in c.secondaries then 0 else multiset(list)[m]
  {
    if list != [] {
      var first, rest := list[0], list[1..];
      ViewCounts(c, rest, m);
      assert list == [first] + rest;
      MultisetOfCons(first, rest);
      MultisetOfCons(first, NonRedundant(c, rest));
      assert [] + NonRedundant(c, rest) == NonRedundant(c, rest);
      assert NonRedundant(c, list)
          == if first.stream in c.secondaries then NonRedundant(c, rest) else [first] + NonRedundant(c, rest);
      hide NonRedundant;
    }
  }

  lemma {:induction false} NonRedundantConcat(c: Caches, a: Mappings, b: Mappings)
    ensures NonRedundant(c, a + b) == NonRedundant(c, a) + NonRedundant(c, b)
  {
    if a == [] {
      assert a + b == b;
    } else {
      var first := if a[0].stream in c.secondaries then [] else [a[0]];
      NonRedundantConcat(c, a[1..], b);
      assert (a + b)[1..] == a[1..] + b && (a + b)[0] == a[0];
      NonRedundantFirst(c, a);
      NonRedundantFirst(c, a + b);
      hide *;
      Associative(first, NonRedundant(c, a[1..]), NonRedundant(c, b));
    }
  }

  lemma NonRedundantFirst(c: Caches, list: Mappings)
    requires list != []
    ensures NonRedundant(c, list)
         == (if list[0].stream in c.secondaries then [] else [list[0]]) + NonRedundant(c, list[1..])
  {
  }

  lemma Associative(a: Mappings, b: Mappings, c: Mappings)
    ensures a + (b + c) == a + b + c
  {
  }

  lemma {:induction false} NonRedundantAt(c: Caches, list: Mappings, m: AudioMapping)
    ensures At(NonRedundant(c, list), m) == NonRedundant(c, At(list, m))
  {
    if list != [] {
      var head, rest := [list[0]], list[1..];
      NonRedundantAt(c, rest, m);
      NonRedundantConcat(c, At(head, m), At(rest, m));
      AtConcat(NonRedundant(c, head), NonRedundant(c, rest), m);
      assert list == head + rest;
      AtConcat(head, rest, m);
      NonRedundantConcat(c, head, rest);
      NonRedundantAtOne(c, list[0], m);
    }
  }

  lemma NonRedundantAtOne(c: Caches, n: AudioMapping, m: AudioMapping)
    ensures At(NonRedundant(c, [n]), m) == NonRedundant(c, At([n], m))
  {
    assert [n][1..] == [];
    assert NonRedundant(c, [n]) == if n.stream in c.secondaries then [] else [n];
  }

  /** In the view of a well-formed list a cluster channel has one mapping, unless it is fed by nothing or by a
      secondary stream alone; that of a redundant pair is the one of the primary stream. */
  lemma ViewHasOneMapping(c: Caches, list: Mappings, m: AudioMapping)
    requires c.Valid() && WellFormed(c, list)
    ensures var served, seen := At(list, m), At(NonRedundant(c, list), m);
            && |seen| <= 1
            && (|seen| == 1 <==> served != [] && !(|served| == 1 && served[0].stream in c.secondaries))
            && (|seen| == 1 ==> seen[0] in served)
            && (|served| == 2 ==> seen[0].stream in c.primaries)
  {
    NonRedundantAt(c, list, m);
    var served := At(list, m);
    assert Proper(c, served);
    if |served| == 2 {
      assert served == [served[0], served[1]] && served[1..] == [served[1]] && served[1..][1..] == [];
      assert NonRedundant(c, served[1..]) == if served[1].stream in c.secondaries then [] else [served[1]];
      assert (served[0].stream in c.secondaries) != (served[1].stream in c.secondaries);
    } else if |served| == 1 {
      assert served[1..] == [];
    }
  }
}
