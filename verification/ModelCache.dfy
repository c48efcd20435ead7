/** The cache of entity models, in which an incomplete model is replaced once, by a complete one. */
module ModelCache {

  import opened Common

  type UniqueIdentifier = v: nat | v < 0x1_0000_0000_0000_0000 witness 0

  predicate IsValid(id: UniqueIdentifier) {
    id != 0 && id != 0xFFFF_FFFF_FFFF_FFFF
  }

  /** A model, and whether it is complete. */
  datatype Entry<M> = Entry(isFull: bool, model: M)

  type Models<M> = map<UniqueIdentifier, Entry<M>>

  function Cached<M>(models: Models<M>, id: UniqueIdentifier, entry: Entry<M>): Models<M> {
    if id in models && (models[id].isFull || !entry.isFull) then models else models[id := entry]
  }

  class EntityModelCache<M(0)> {
    var isEnabled: bool
    var modelCache: Models<M>

    constructor ()
      ensures !isEnabled && modelCache == map[]
    {
      isEnabled, modelCache := false, map[];
    }

    method EnableCache()
      modifies this`isEnabled
      ensures isEnabled
    {
      isEnabled := true;
    }

    method DisableCache()
      modifies this`isEnabled
      ensures !isEnabled
    {
      isEnabled := false;
    }

    method GetCachedEntityModel(id: UniqueIdentifier) returns (model: Option<M>)
      ensures model == if isEnabled && IsValid(id) && id in modelCache then Some(modelCache[id].model) else None
    {
      if isEnabled && IsValid(id) {
        if id in modelCache {
          return Some(modelCache[id].model);
        }
      }
      return None;
    }

    method CacheEntityModel(id: UniqueIdentifier, entry: Entry<M>)
      modifies this`modelCache
      ensures modelCache == if isEnabled && IsValid(id) then Cached(old(modelCache), id, entry) else old(modelCache)
    {
      if isEnabled && IsValid(id) {
        if id in modelCache {
          if !modelCache[id].isFull && entry.isFull {
            modelCache := modelCache[id := entry];
          }
          return;
        }
        modelCache := modelCache[id := entry];
      }
    }
  }

  // ---------------------------------------------------------------- Runs

  datatype Event<M> = Enable | Disable | Put(id: UniqueIdentifier, entry: Entry<M>)

  function Enabled<M>(run: seq<Event<M>>): bool {
    if run == [] then false
    else match run[|run| - 1]
      case Enable => true
      case Disable => false
      case Put(_, _) => Enabled(run[..|run| - 1])
  }

  function After<M>(run: seq<Event<M>>): Models<M> {
    if run == [] then map[]
    else
      var n := |run| - 1;
      if Accepts(run, n) then Cached(After(run[..n]), run[n].id, run[n].entry) else After(run[..n])
  }

  predicate Accepts<M>(run: seq<Event<M>>, k: nat) {
    k < |run| && run[k].Put? && IsValid(run[k].id) && Enabled(run[..k])
  }

  ghost predicate Offers<M>(run: seq<Event<M>>, k: nat, id: UniqueIdentifier, isFull: bool) {
    Accepts(run, k) && run[k].id == id && run[k].entry.isFull == isFull
  }

  /** The entry that counts: the first complete one or, as long as there is none, the first one. */
  ghost predicate Counts<M>(run: seq<Event<M>>, k: nat, id: UniqueIdentifier) {
    || (Offers(run, k, id, true) && forall j: nat :: j < k ==> !Offers(run, j, id, true))
    || (Offers(run, k, id, false) && (forall j: nat :: !Offers(run, j, id, true))
        && (forall j: nat :: j < k ==> !Offers(run, j, id, false)))
  }

  lemma OffersOfPrefix<M>(run: seq<Event<M>>, n: nat, k: nat, id: UniqueIdentifier, isFull: bool)
    requires k < n <= |run|
    ensures Offers(run[..n], k, id, isFull) == Offers(run, k, id, isFull)
  {
    assert run[..n][..k] == run[..k];
  }

  lemma OffersWithin<M>(run: seq<Event<M>>, id: UniqueIdentifier)
    ensures forall k: nat, isFull: bool :: Offers(run, k, id, isFull) ==> k < |run|
    ensures forall k: nat, isFull: bool :: Offers(run, k, id, isFull) ==> run[k].Put? && run[k].entry.isFull == isFull
  {
  }

  lemma AfterStep<M>(run: seq<Event<M>>, id: UniqueIdentifier)
    requires run != []
    ensures var n := |run| - 1;
            var before := After(run[..n]);
            && (!Offers(run, n, id, true) && !Offers(run, n, id, false) ==>
                (id in After(run) <==> id in before) && (id in before ==> After(run)[id] == before[id]))
            && (Offers(run, n, id, true) || Offers(run, n, id, false) ==>
                id in After(run) && After(run)[id] ==
                if id in before && (before[id].isFull || !run[n].entry.isFull) then before[id] else run[n].entry)
  {
    hide Enabled;
  }

  lemma {:induction false} EntryCounts<M>(run: seq<Event<M>>, id: UniqueIdentifier)
    ensures id in After(run) ==> exists k: nat :: Counts(run, k, id) && run[k].entry == After(run)[id]
    ensures id !in After(run) ==> forall k: nat, isFull: bool :: !Offers(run, k, id, isFull)
  {
    if run != [] {
      var n := |run| - 1;
      var before := run[..n];
      EntryCounts(before, id);
      forall k: nat, isFull: bool | k < n ensures Offers(before, k, id, isFull) == Offers(run, k, id, isFull) {
        OffersOfPrefix(run, n, k, id, isFull);
      }
      AfterStep(run, id);
      OffersWithin(run, id);
      OffersWithin(before, id);
      hide Offers, After, Accepts;
      if id in After(before) {
        var k: nat :| Counts(before, k, id) && before[k].entry == After(before)[id];
        assert k < n && run[k] == before[k];
        if Offers(run, n, id, true) && !run[k].entry.isFull {
          assert forall j: nat :: j < n ==> !Offers(before, j, id, true);
          assert Counts(run, n, id);
        } else {
          assert Counts(run, k, id);
        }
      } else if Offers(run, n, id, true) || Offers(run, n, id, false) {
        assert Counts(run, n, id);
      }
    }
  }

  lemma OneCounts<M>(run: seq<Event<M>>, j: nat, k: nat, id: UniqueIdentifier)
    requires Counts(run, j, id) && Counts(run, k, id)
    ensures j == k
  {
  }

  /** Over every run the cache holds for an identifier the first complete model it was given while enabled, or else
      the first one. */
  lemma CacheHoldsFirst<M>(run: seq<Event<M>>, id: UniqueIdentifier, entry: Entry<M>)
    ensures id in After(run) && After(run)[id] == entry
            <==> exists k: nat :: Counts(run, k, id) && run[k].entry == entry
  {
    EntryCounts(run, id);
    if k: nat :| Counts(run, k, id) && run[k].entry == entry {
      if id in After(run) {
        var j: nat :| Counts(run, j, id) && run[j].entry == After(run)[id];
        OneCounts(run, j, k, id);
      }
    }
  }
}
