/** Repairing the mappings of an input port once, when the entity is advertised, against checking every add. */
module MappingRepair {

  import opened Common
  import opened AudioMappings

  // ---------------------------------------------------------------- The fix pass, destination by destination

  /** What the fix pass makes of the mappings to one destination. */
  function FixServed(c: Caches, served: Mappings): Mappings {
    if served == [] then [] else ServedAfter(c, FixServed(c, served[..|served| - 1]), served[|served| - 1])
  }

  lemma {:induction false} FixAt(c: Caches, list: Mappings, n: AudioMapping)
    ensures At(FixPass(c, list), n) == FixServed(c, At(list, n))
  {
    if list != [] {
      var before, last := list[..|list| - 1], list[|list| - 1];
      assert list == before + [last];
      FixAt(c, before, n);
      FixStep(c, before, last);
      CheckedAddAt(c, FixPass(c, before), last, n);
      AtConcat(before, [last], n);
      AtOfOne(last, n);
      FixServedStep(c, At(before, n), last);
      hide FixPass, At, AddOrFix, FixServed, ServedAfter;
      assert At(before, n) + [] == At(before, n);
    }
  }

  lemma FixServedStep(c: Caches, served: Mappings, m: AudioMapping)
    ensures FixServed(c, served + [m]) == ServedAfter(c, FixServed(c, served), m)
  {
    assert (served + [m])[..|served|] == served;
  }

  lemma AtOfOne(m: AudioMapping, n: AudioMapping)
    ensures At([m], n) == if SameDestination(m, n) then [m] else []
  {
    assert [m][1..] == [];
  }

  /** The last of some mappings to a destination that did not complete a pair with the one before it. */
  function Head(c: Caches, served: Mappings): AudioMapping
    requires served != []
  {
    var last := served[|served| - 1];
    if |served| == 1 then last
    else
      var head := Head(c, served[..|served| - 1]);
      if Completes(c, head, last) then head else last
  }

  /** Those that completed a pair when they came. */
  function Completers(c: Caches, served: Mappings): Mappings {
    if |served| <= 1 then []
    else
      var before, last := served[..|served| - 1], served[|served| - 1];
      Completers(c, before) + if Completes(c, Head(c, before), last) then [last] else []
  }

  lemma {:induction false} FixServedIs(c: Caches, served: Mappings)
    requires served != []
    ensures FixServed(c, served) == [Head(c, served)] + Completers(c, served)
  {
    var before, last := served[..|served| - 1], served[|served| - 1];
    if before != [] {
      FixServedIs(c, before);
      assert FixServed(c, served) == ServedAfter(c, FixServed(c, before), last);
      hide FixServed;
    }
  }

  lemma {:induction false} CompletersHave(c: Caches, served: Mappings, m: AudioMapping)
    ensures m in Completers(c, served)
            <==> exists j :: 0 < j < |served| && served[j] == m && Completes(c, Head(c, served[..j]), served[j])
  {
    if |served| > 1 {
      var n := |served| - 1;
      var before := served[..n];
      CompletersHave(c, before, m);
      forall j | 0 < j < n ensures before[..j] == served[..j] { }
      assert Completers(c, served)
          == Completers(c, before) + if Completes(c, Head(c, before), served[n]) then [served[n]] else [];
      hide Completers, Head, Completes;
      if m in Completers(c, before) {
        var j :| 0 < j < n && before[j] == m && Completes(c, Head(c, before[..j]), before[j]);
        assert served[j] == m && Completes(c, Head(c, served[..j]), served[j]);
      }
      if j :| 0 < j < n && served[j] == m && Completes(c, Head(c, served[..j]), served[j]) {
        assert before[j] == m && Completes(c, Head(c, before[..j]), before[j]);
      }
      assert Completes(c, Head(c, served[..n]), served[n]) ==> m == served[n] ==> m in Completers(c, served);
    }
  }

  /** All complete a pair with the first. */
  ghost predicate Stable(c: Caches, served: Mappings) {
    forall j :: 0 < j < |served| ==> Completes(c, served[0], served[j])
  }

  lemma StableStep(c: Caches, served: Mappings, m: AudioMapping)
    ensures Stable(c, served + [m]) <==> Stable(c, served) && (served == [] || Completes(c, served[0], m))
  {
    var longer := served + [m];
    hide Completes;
    if Stable(c, longer) {
      forall j | 0 < j < |served| ensures Completes(c, served[0], served[j]) {
        assert longer[j] == served[j] && longer[0] == served[0];
      }
      if served != [] {
        assert longer[|served|] == m && longer[0] == served[0];
      }
    }
  }

  ghost predicate AllStable(c: Caches, list: Mappings) {
    forall n :: Stable(c, At(list, n))
  }

  predicate Joins(c: Caches, list: Mappings, m: AudioMapping) {
    At(list, m) == [] || Completes(c, At(list, m)[0], m)
  }

  lemma StableAtStep(c: Caches, list: Mappings, m: AudioMapping, n: AudioMapping)
    ensures Stable(c, At(list + [m], n)) <==> Stable(c, At(list, n)) && (SameDestination(m, n) ==> Joins(c, list, m))
  {
    AtConcat(list, [m], n);
    AtOfOne(m, n);
    StableStep(c, At(list, n), m);
    if SameDestination(m, n) {
      SameAt(list, m, n);
    }
    hide At, Stable, Completes;
    assert At(list, n) + [] == At(list, n);
  }

  lemma AllStableStep(c: Caches, list: Mappings, m: AudioMapping)
    ensures AllStable(c, list + [m]) <==> AllStable(c, list) && Joins(c, list, m)
  {
    hide At, Stable, Joins;
    forall n
      ensures Stable(c, At(list + [m], n)) <==> Stable(c, At(list, n)) && (SameDestination(m, n) ==> Joins(c, list, m))
    {
      StableAtStep(c, list, m, n);
    }
    if AllStable(c, list + [m]) {
      assert Stable(c, At(list + [m], m));
      forall n ensures Stable(c, At(list, n)) {
        assert Stable(c, At(list + [m], n));
      }
    }
  }

  lemma JoinsIffUndisturbed(c: Caches, list: Mappings, k: nat)
    requires k < |list|
    ensures Undisturbed(c, list, k) <==> Joins(c, list[..k], list[k])
  {
    FindMeetsAt(list[..k], list[k]);
    hide At;
  }

  lemma {:induction false} UndisturbedIffStable(c: Caches, list: Mappings)
    ensures (forall k :: 0 <= k < |list| ==> Undisturbed(c, list, k)) <==> AllStable(c, list)
  {
    if list != [] {
      var n := |list| - 1;
      var before, last := list[..n], list[n];
      assert list == before + [last];
      UndisturbedIffStable(c, before);
      AllStableStep(c, before, last);
      JoinsIffUndisturbed(c, list, n);
      forall i | 0 <= i < n ensures Undisturbed(c, before, i) == Undisturbed(c, list, i) {
        assert before[..i] == list[..i];
      }
      hide Undisturbed, Joins, AllStable;
      if forall k :: 0 <= k < |list| ==> Undisturbed(c, list, k) {
        assert Undisturbed(c, list, n);
        forall i | 0 <= i < n ensures Undisturbed(c, before, i) {
          assert Undisturbed(c, list, i);
        }
      }
      if AllStable(c, list) {
        forall i | 0 <= i < |list| ensures Undisturbed(c, list, i) {
          if i < n {
            assert Undisturbed(c, before, i);
          }
        }
      }
    }
  }

  lemma IdentityIffStable(c: Caches, list: Mappings)
    ensures FixPass(c, list) == list <==> AllStable(c, list)
  {
    FixIsIdentityIff(c, list);
    UndisturbedIffStable(c, list);
    hide FixPass, Undisturbed, AllStable;
  }

  /** Exactly when a second pass changes nothing: when, at every destination, what completed a pair when it came still
      completes one with the mapping that is the head in the end. */
  lemma FixIsIdempotentIff(c: Caches, list: Mappings)
    ensures FixPass(c, FixPass(c, list)) == FixPass(c, list) <==> forall n :: StillComplete(c, At(list, n))
  {
    var fixed := FixPass(c, list);
    IdentityIffStable(c, fixed);
    forall n
      ensures Stable(c, At(fixed, n)) <==> StillComplete(c, At(list, n))
    {
      FixAt(c, list, n);
      FixedIsStableIff(c, At(list, n));
    }
    AllStableIff(c, fixed, list);
    hide *;
  }

  lemma AllStableIff(c: Caches, fixed: Mappings, list: Mappings)
    requires forall n :: Stable(c, At(fixed, n)) <==> StillComplete(c, At(list, n))
    ensures AllStable(c, fixed) <==> forall n :: StillComplete(c, At(list, n))
  {
    hide Stable, StillComplete;
    if AllStable(c, fixed) {
      forall n ensures StillComplete(c, At(list, n)) {
        assert Stable(c, At(fixed, n));
      }
    } else {
      var n :| !Stable(c, At(fixed, n));
      assert !StillComplete(c, At(list, n));
    }
  }

  /** What completed a pair with the head of its time completes one with the last head. */
  ghost predicate StillComplete(c: Caches, served: Mappings) {
    forall j :: 0 < j < |served| && Completes(c, Head(c, served[..j]), served[j]) ==>
      Completes(c, Head(c, served), served[j])
  }

  lemma FixedIsStableIff(c: Caches, served: Mappings)
    ensures Stable(c, FixServed(c, served)) <==> StillComplete(c, served)
  {
    if served != [] {
      FixServedIs(c, served);
      var head, rest := Head(c, served), Completers(c, served);
      forall m ensures m in rest
            <==> exists j :: 0 < j < |served| && served[j] == m && Completes(c, Head(c, served[..j]), served[j]) {
        CompletersHave(c, served, m);
      }
      hide Head, Completers, FixServed, Completes;
      assert Stable(c, [head] + rest) <==> forall m :: m in rest ==> Completes(c, head, m) by {
        if Stable(c, [head] + rest) {
          forall m | m in rest ensures Completes(c, head, m) {
            var i :| 0 <= i < |rest| && rest[i] == m;
            assert ([head] + rest)[i + 1] == m;
          }
        }
      }
    }
  }

  // ---------------------------------------------------------------- Runs

  datatype InputOp = AddMappings(mappings: Mappings) | RemoveMappings(mappings: Mappings) | ClearMappings

  /** The list after a run before the entity is advertised, and after it. */
  function RunRaw(ops: seq<InputOp>): Mappings {
    if ops == [] then []
    else
      var before := RunRaw(ops[..|ops| - 1]);
      match ops[|ops| - 1]
      case AddMappings(ms) => before + ms
      case RemoveMappings(ms) => RemoveAll(before, ms)
      case ClearMappings => []
  }

  function RunChecked(c: Caches, ops: seq<InputOp>): Mappings {
    if ops == [] then []
    else
      var before := RunChecked(c, ops[..|ops| - 1]);
      match ops[|ops| - 1]
      case AddMappings(ms) => AddAll(c, before, ms)
      case RemoveMappings(ms) => RemoveAll(before, ms)
      case ClearMappings => []
  }

  /** Whenever a remove comes the raw list is well-formed. Runs of adds and clears meet it whatever they add. */
  ghost predicate RemovesMeetWellFormed(c: Caches, ops: seq<InputOp>) {
    forall k :: 0 <= k < |ops| && ops[k].RemoveMappings? ==> WellFormed(c, RunRaw(ops[..k]))
  }

  lemma {:induction false} AddAllConcat(c: Caches, list: Mappings, a: Mappings, b: Mappings)
    ensures AddAll(c, list, a + b) == AddAll(c, AddAll(c, list, a), b)
  {
    if b == [] {
      assert a + b == a;
    } else {
      var n := |b| - 1;
      AddAllConcat(c, list, a, b[..n]);
      assert (a + b)[..|a| + n] == a + b[..n];
    }
  }

  predicate Defers(c: Caches, ops: seq<InputOp>) {
    FixPass(c, RunRaw(ops)) == RunChecked(c, ops)
  }

  lemma {:induction false} FixOfRawIsChecked(c: Caches, ops: seq<InputOp>)
    requires RemovesMeetWellFormed(c, ops)
    ensures Defers(c, ops)
  {
    if ops != [] {
      var n := |ops| - 1;
      RemovesOfPrefix(c, ops, n);
      FixOfRawIsChecked(c, ops[..n]);
      match ops[n]
      case AddMappings(ms) => AddAllConcat(c, [], RunRaw(ops[..n]), ms);
      case RemoveMappings(ms) => RemoveDefers(c, RunRaw(ops[..n]), ms);
      case ClearMappings =>
    }
  }

  lemma RemovesOfPrefix(c: Caches, ops: seq<InputOp>, n: nat)
    requires RemovesMeetWellFormed(c, ops) && n <= |ops|
    ensures RemovesMeetWellFormed(c, ops[..n])
  {
    forall k | 0 <= k < n ensures ops[..n][..k] == ops[..k] { }
    hide WellFormed, RunRaw;
  }

  /** No two mappings of the list have the same destination. */
  predicate DistinctDestinations(list: Mappings) {
    forall j, k :: 0 <= j < k < |list| ==> !SameDestination(list[j], list[k])
  }

  /** Repairing at the time of advertising gives what checked adds would have given from the start, exactly when
      the entity has redundant streams or nothing was there to repair. */
  lemma DeferredRepairIsImmediate(c: Caches, ops: seq<InputOp>)
    requires c.Valid() && RemovesMeetWellFormed(c, ops)
    ensures Loaded(c, RunRaw(ops)) == RunChecked(c, ops)
            <==> c.primaries != map[] || DistinctDestinations(RunRaw(ops))
  {
    FixOfRawIsChecked(c, ops);
    if c.primaries == map[] {
      assert c.secondaries == map[] by {
        if s :| s in c.secondaries {
          assert c.secondaries[s] in c.primaries;
        }
      }
      FixWithoutRedundancy(c, RunRaw(ops));
    }
  }

  lemma {:induction false} FixWithoutRedundancy(c: Caches, list: Mappings)
    requires c.primaries == map[] && c.secondaries == map[]
    ensures FixPass(c, list) == list <==> DistinctDestinations(list)
  {
    FixIsIdentityIff(c, list);
    if DistinctDestinations(list) {
      forall k | 0 <= k < |list|
        ensures Undisturbed(c, list, k)
      {
        FindOfNone(list[..k], list[k]);
      }
    } else {
      var j, k :| 0 <= j < k < |list| && SameDestination(list[j], list[k]);
      assert SameDestination(list[..k][j], list[k]);
      assert !Undisturbed(c, list, k);
    }
  }

  lemma {:induction false} FindOfNone(list: Mappings, m: AudioMapping)
    requires forall j :: 0 <= j < |list| ==> !SameDestination(list[j], m)
    ensures Find(list, m) == |list|
  {
  }

  // ---------------------------------------------------------------- Removes

  lemma {:induction false} RemoveOneAt(list: Mappings, m: AudioMapping, n: AudioMapping)
    ensures At(RemoveOne(list, m), n) == RemoveOne(At(list, n), m)
  {
    if list != [] {
      var first, rest := list[0], list[1..];
      RemoveOneAt(rest, m, n);
      RemoveAbsent(At(rest, n), m);
      AtIsDestination(rest, n);
      assert list == [first] + rest;
      AtConcat([first], rest, n);
      AtOfOne(first, n);
      RemoveFirst(first, At(rest, n), m);
      if first == m {
        assert RemoveOne(list, m) == rest;
        assert !SameDestination(m, n) ==> m !in At(rest, n) && [] + At(rest, n) == At(rest, n);
      } else {
        assert RemoveOne(list, m) == [first] + RemoveOne(rest, m);
        AtConcat([first], RemoveOne(rest, m), n);
      }
      hide At, RemoveOne;
      assert [] + At(rest, n) == At(rest, n) && [] + RemoveOne(At(rest, n), m) == RemoveOne(At(rest, n), m);
    }
  }

  lemma RemoveFirst(first: AudioMapping, rest: Mappings, m: AudioMapping)
    ensures RemoveOne([first] + rest, m) == if first == m then rest else [first] + RemoveOne(rest, m)
  {
    assert ([first] + rest)[1..] == rest;
  }

  lemma {:induction false} RemoveAllAt(list: Mappings, removed: Mappings, n: AudioMapping)
    ensures At(RemoveAll(list, removed), n) == RemoveAll(At(list, n), removed)
  {
    if removed != [] {
      var k := |removed| - 1;
      RemoveAllAt(list, removed[..k], n);
      RemoveOneAt(RemoveAll(list, removed[..k]), removed[k], n);
    }
  }

  lemma {:induction false} RemoveKeepsProper(c: Caches, served: Mappings, removed: Mappings)
    requires Proper(c, served)
    ensures Proper(c, RemoveAll(served, removed))
  {
    if removed != [] {
      var k := |removed| - 1;
      RemoveKeepsProper(c, served, removed[..k]);
      RemoveAbsent(RemoveAll(served, removed[..k]), removed[k]);
    }
  }

  lemma RemoveKeepsWellFormed(c: Caches, list: Mappings, removed: Mappings)
    requires WellFormed(c, list)
    ensures WellFormed(c, RemoveAll(list, removed))
  {
    forall n ensures Proper(c, At(RemoveAll(list, removed), n)) {
      RemoveAllAt(list, removed, n);
      assert Proper(c, At(list, n));
      RemoveKeepsProper(c, At(list, n), removed);
    }
  }

  /** A batch of removes has the same effect before the pass and after it. */
  predicate Commutes(c: Caches, list: Mappings, removed: Mappings) {
    FixPass(c, RemoveAll(list, removed)) == RemoveAll(FixPass(c, list), removed)
  }

  lemma RemoveDefers(c: Caches, list: Mappings, removed: Mappings)
    requires WellFormed(c, list)
    ensures Commutes(c, list, removed)
  {
    RemoveKeepsWellFormed(c, list, removed);
    FixKeepsWellFormed(c, list);
    FixKeepsWellFormed(c, RemoveAll(list, removed));
  }

  /** A fix pass that drops nothing found everything completing the first. */
  lemma {:induction false} FullMeansStable(c: Caches, served: Mappings)
    ensures served != [] ==> 0 < |FixServed(c, served)| <= |served|
    ensures |FixServed(c, served)| == |served| ==> FixServed(c, served) == served && Stable(c, served)
  {
    if served != [] {
      var before, last := served[..|served| - 1], served[|served| - 1];
      FullMeansStable(c, before);
      assert served == before + [last];
      StableStep(c, before, last);
      assert FixServed(c, served) == ServedAfter(c, FixServed(c, before), last);
      hide FixServed, Stable, Completes;
    }
  }

  /** Mappings to a destination beyond a pair: some batch of removes is not the same before and after the pass. */
  lemma UnsafeRemoves(c: Caches, served: Mappings) returns (removed: Mappings)
    requires c.Valid() && !Proper(c, served)
    ensures FixServed(c, RemoveAll(served, removed)) != RemoveAll(FixServed(c, served), removed)
  {
    FullMeansStable(c, served);
    if |FixServed(c, served)| < |served| {
      removed := FixServed(c, served);
      RemoveAllTakesCommon(served, removed);
      RemoveAllTakesCommon(removed, removed);
      LengthOf(RemoveAll(served, removed));
      LengthOf(RemoveAll(removed, removed));
      LengthOf(served);
      LengthOf(removed);
      FullMeansStable(c, RemoveAll(served, removed));
      hide FixServed, RemoveAll;
    } else {
      assert Completes(c, served[0], served[1]) && Completes(c, served[0], served[2]);
      removed := [served[0]];
      assert removed[..0] == [] && RemoveAll(served, removed) == RemoveOne(served, served[0]) == served[1..];
      FullMeansStable(c, served[1..]);
      PartnerIsAnother(c, served[1].stream);
      assert !Completes(c, served[1..][0], served[1..][1]);
      hide FixServed, RemoveAll;
    }
  }

  lemma LengthOf(list: Mappings)
    ensures |multiset(list)| == |list|
  {
  }

  /** Exactly when any removes may come before the repair as well as after it: when the list is well-formed. */
  lemma RemovesDeferIff(c: Caches, list: Mappings)
    requires c.Valid()
    ensures (forall removed: Mappings :: Commutes(c, list, removed)) <==> WellFormed(c, list)
  {
    if WellFormed(c, list) {
      forall removed: Mappings ensures Commutes(c, list, removed) {
        RemoveDefers(c, list, removed);
      }
    } else {
      var n :| !Proper(c, At(list, n));
      var removed := UnsafeRemoves(c, At(list, n));
      FixAt(c, RemoveAll(list, removed), n);
      RemoveAllAt(list, removed, n);
      FixAt(c, list, n);
      RemoveAllAt(FixPass(c, list), removed, n);
      assert !Commutes(c, list, removed);
    }
  }

  /** As long as removes met well-formed lists the run can be followed by any remove, and repair still be deferred,
      exactly when the list is well-formed now. */
  lemma NextRemoveDefersIff(c: Caches, ops: seq<InputOp>)
    requires c.Valid() && RemovesMeetWellFormed(c, ops)
    ensures (forall ms: Mappings :: Defers(c, ops + [RemoveMappings(ms)])) <==> WellFormed(c, RunRaw(ops))
  {
    FixOfRawIsChecked(c, ops);
    RemovesDeferIff(c, RunRaw(ops));
    forall ms: Mappings
      ensures Defers(c, ops + [RemoveMappings(ms)]) <==> Commutes(c, RunRaw(ops), ms)
    {
      assert (ops + [RemoveMappings(ms)])[..|ops|] == ops;
    }
    hide Defers, Commutes, WellFormed;
    if forall ms: Mappings :: Defers(c, ops + [RemoveMappings(ms)]) {
      forall ms: Mappings ensures Commutes(c, RunRaw(ops), ms) {
        assert Defers(c, ops + [RemoveMappings(ms)]);
      }
    }
  }

  /** The shortest such run: a checked add has overwritten what a raw list still holds. */
  lemma RemovesDoNotDefer(c: Caches, a: AudioMapping, b: AudioMapping)
    requires SameDestination(a, b) && a != b && !Completes(c, a, b)
    ensures var ops := [AddMappings([a, b]), RemoveMappings([b])];
            FixPass(c, RunRaw(ops)) == [a] && RunChecked(c, ops) == []
  {
    var ops := [AddMappings([a, b]), RemoveMappings([b])];
    RunOfTwo(c, ops);
    assert [b][..0] == [] && [a, b][1..] == [b] && [b][1..] == [];
    assert RemoveOne([b], b) == [];
    assert RemoveAll([a, b], [b]) == RemoveOne([a, b], b) == [a];
    FixOfOne(c, a);
    FixStep(c, [a], b);
    assert [a] + [b] == [a, b];
    assert AddAll(c, [], [a, b]) == [b];
    assert RemoveAll([b], [b]) == RemoveOne([b], b);
  }

  lemma RunOfTwo(c: Caches, ops: seq<InputOp>)
    requires |ops| == 2 && ops[0].AddMappings? && ops[1].RemoveMappings?
    ensures RunRaw(ops) == RemoveAll(ops[0].mappings, ops[1].mappings)
    ensures RunChecked(c, ops) == RemoveAll(AddAll(c, [], ops[0].mappings), ops[1].mappings)
  {
    assert ops[..1] == [ops[0]] && ops[..1][..0] == [];
    assert [] + ops[0].mappings == ops[0].mappings;
    assert RunRaw(ops[..1]) == ops[0].mappings;
    assert RunChecked(c, ops[..1]) == AddAll(c, [], ops[0].mappings);
  }
}
