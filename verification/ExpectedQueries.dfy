/** The queries an enumeration waits for: packed keys in one table per kind of query. */
module ExpectedQueries {

  import opened Common

  datatype Kind = Descriptors | DynamicInfos | DescriptorDynamicInfos

  datatype Query =
    | Descriptor(descriptorType: Index, index: Index)
    | DynamicInfo(infoType: Index, index: Index, subIndex: Index)
    | DescriptorDynamicInfo(infoType: Index, index: Index)
  {
    function Kind(): Kind {
      match this
      case Descriptor(_, _) => Descriptors
      case DynamicInfo(_, _, _) => DynamicInfos
      case DescriptorDynamicInfo(_, _) => DescriptorDynamicInfos
    }
  }

  // ---------------------------------------------------------------- The packed keys

  const Two16 := 0x1_0000
  const Two32 := 0x1_0000_0000
  const Two64 := 0x1_0000_0000_0000_0000

  /** A 16-bit value is promoted to a signed 32-bit integer before it is shifted. */
  function ShiftedInt(i: Index): int {
    var wide := i * Two16;
    if wide < Two32 / 2 then wide else wide - Two32
  }

  function Key(q: Query): nat {
    match q
    case Descriptor(t, i) => (ShiftedInt(t) + i) % Two32
    case DynamicInfo(t, i, s) => ((t * Two32) % Two64 + ShiftedInt(i) % Two64 + s) % Two64
    case DescriptorDynamicInfo(t, i) => ((t * Two16) % Two64 + i) % Two64
  }

  lemma DescriptorKeyIsPlain(t: Index, i: Index)
    ensures Key(Descriptor(t, i)) == t * Two16 + i
  {
  }

  lemma DescriptorDynamicInfoKeyIsPlain(t: Index, i: Index)
    ensures Key(DescriptorDynamicInfo(t, i)) == t * Two16 + i
  {
  }

  lemma Halves(high: nat, low: nat)
    requires low < Two32
    ensures (high * Two32 + low) % Two32 == low && (high * Two32 + low) / Two32 == high
  {
  }

  lemma LowIndexKey(t: Index, i: Index, s: Index)
    requires i < 0x8000
    ensures Key(DynamicInfo(t, i, s)) == t * Two32 + (i * Two16 + s)
  {
  }

  lemma HighIndexKey(t: Index, i: Index, s: Index)
    requires i >= 0x8000
    ensures Key(DynamicInfo(t, i, s)) == (if t == 0 then Two32 - 1 else t - 1) * Two32 + (i * Two16 + s)
  {
    assert ShiftedInt(i) % Two64 == i * Two16 - Two32 + Two64;
  }

  /** The sign extension of a high index takes one from the upper half, and wraps there. */
  lemma DynamicInfoKeyHalves(t: Index, i: Index, s: Index)
    ensures Key(DynamicInfo(t, i, s)) % Two32 == i * Two16 + s
    ensures Key(DynamicInfo(t, i, s)) / Two32 == if i < 0x8000 then t else if t == 0 then Two32 - 1 else t - 1
  {
    hide Key;
    if i < 0x8000 {
      LowIndexKey(t, i, s);
      Halves(t, i * Two16 + s);
    } else {
      HighIndexKey(t, i, s);
      Halves(if t == 0 then Two32 - 1 else t - 1, i * Two16 + s);
    }
  }

  lemma SplitIsUnique(a: nat, b: nat, c: nat, d: nat)
    requires b < Two16 && d < Two16 && a * Two16 + b == c * Two16 + d
    ensures a == c && b == d
  {
  }

  /** The key of a query tells it from every other query of its kind. */
  lemma KeyIsInjective(q: Query, r: Query)
    requires q.Kind() == r.Kind()
    ensures Key(q) == Key(r) <==> q == r
  {
    if Key(q) == Key(r) {
      match q
      case Descriptor(t, i) =>
        DescriptorKeyIsPlain(t, i);
        DescriptorKeyIsPlain(r.descriptorType, r.index);
        SplitIsUnique(t, i, r.descriptorType, r.index);
      case DynamicInfo(t, i, s) =>
        DynamicInfoKeyHalves(t, i, s);
        DynamicInfoKeyHalves(r.infoType, r.index, r.subIndex);
        SplitIsUnique(i, s, r.index, r.subIndex);
      case DescriptorDynamicInfo(t, i) =>
        DescriptorDynamicInfoKeyIsPlain(t, i);
        DescriptorDynamicInfoKeyIsPlain(r.infoType, r.index);
        SplitIsUnique(t, i, r.infoType, r.index);
    }
  }

  // ---------------------------------------------------------------- What happens to outstanding queries

  type Queries = set<(Index, Query)>

  datatype Event =
    | Expect(configuration: Index, query: Query)
    | Answer(configuration: Index, query: Query)
    | Clear(kind: Kind)
    | Fatal

  /** After a fatal error answers are ignored. */
  ghost function Effect(outstanding: Queries, failed: bool, e: Event): Queries {
    match e
    case Expect(c, q) => outstanding + {(c, q)}
    case Answer(c, q) => if failed then outstanding else outstanding - {(c, q)}
    case Clear(kind) => set x | x in outstanding && x.1.Kind() != kind
    case Fatal => outstanding
  }

  // ---------------------------------------------------------------- The tables

  type Table = map<Index, set<nat>>

  predicate InTable(table: Table, configuration: Index, key: nat) {
    configuration in table && key in table[configuration]
  }

  ghost predicate IsKey(kind: Kind, key: nat) {
    exists q: Query :: q.Kind() == kind && Key(q) == key
  }

  /** The table holds the keys of the outstanding queries of its kind, and no others. */
  ghost predicate Represents(outstanding: Queries, kind: Kind, table: Table) {
    && (forall c: Index, q: Query :: q.Kind() == kind ==> ((c, q) in outstanding <==> InTable(table, c, Key(q))))
    && (forall c: Index, k: nat :: InTable(table, c, k) ==> IsKey(kind, k))
  }

  lemma RepresentsAsked(outstanding: Queries, table: Table, c: Index, q: Query)
    requires Represents(outstanding, q.Kind(), table)
    ensures var keys := if c in table then table[c] else {};
            Represents(outstanding + {(c, q)}, q.Kind(), table[c := keys + {Key(q)}])
  {
    forall r: Query | r.Kind() == q.Kind() ensures Key(r) == Key(q) <==> r == q { KeyIsInjective(r, q); }
    assert IsKey(q.Kind(), Key(q));
    var keys := if c in table then table[c] else {};
    var grown := table[c := keys + {Key(q)}];
    hide Key, IsKey;
    forall d: Index, k: nat | InTable(grown, d, k) ensures InTable(table, d, k) || k == Key(q) { }
  }

  lemma RepresentsAnswered(outstanding: Queries, table: Table, c: Index, q: Query)
    requires Represents(outstanding, q.Kind(), table) && c in table
    ensures Represents(outstanding - {(c, q)}, q.Kind(), table[c := table[c] - {Key(q)}])
  {
    forall r: Query | r.Kind() == q.Kind() ensures Key(r) == Key(q) <==> r == q { KeyIsInjective(r, q); }
    var left := table[c := table[c] - {Key(q)}];
    hide Key, IsKey;
    forall d: Index, k: nat | InTable(left, d, k) ensures InTable(table, d, k) { }
  }

  class Enumeration {
    var expectedDescriptors: Table
    var expectedDynamicInfos: Table
    var expectedDescriptorDynamicInfos: Table
    var gotFatalError: bool
    /** The queries asked and neither answered nor dropped, with their configurations. */
    ghost var outstanding: Queries

    function TableOf(kind: Kind): Table
      reads this
    {
      match kind
      case Descriptors => expectedDescriptors
      case DynamicInfos => expectedDynamicInfos
      case DescriptorDynamicInfos => expectedDescriptorDynamicInfos
    }

    ghost predicate Valid()
      reads this
    {
      && Represents(outstanding, Descriptors, expectedDescriptors)
      && Represents(outstanding, DynamicInfos, expectedDynamicInfos)
      && Represents(outstanding, DescriptorDynamicInfos, expectedDescriptorDynamicInfos)
    }

    constructor ()
      ensures Valid() && outstanding == {} && !gotFatalError
    {
      expectedDescriptors, expectedDynamicInfos, expectedDescriptorDynamicInfos := map[], map[], map[];
      gotFatalError, outstanding := false, {};
    }

    method SetTable(kind: Kind, table: Table)
      modifies this`expectedDescriptors, this`expectedDynamicInfos, this`expectedDescriptorDynamicInfos
      ensures TableOf(kind) == table && forall other :: other != kind ==> TableOf(other) == old(TableOf(other))
    {
      match kind
      case Descriptors => expectedDescriptors := table;
      case DynamicInfos => expectedDynamicInfos := table;
      case DescriptorDynamicInfos => expectedDescriptorDynamicInfos := table;
    }

    twostate lemma StillValid(kind: Kind)
      requires old(Valid())
      requires forall other :: other != kind ==> TableOf(other) == old(TableOf(other))
      requires forall c: Index, q: Query :: q.Kind() != kind ==> ((c, q) in outstanding <==> (c, q) in old(outstanding))
      requires Represents(outstanding, kind, TableOf(kind))
      ensures Valid()
    {
      forall other: Kind | other != kind
        ensures Represents(outstanding, other, TableOf(other))
      {
        assert Represents(old(outstanding), other, TableOf(other));
        hide Key, IsKey, InTable;
      }
      assert Represents(outstanding, Descriptors, TableOf(Descriptors));
      assert Represents(outstanding, DynamicInfos, TableOf(DynamicInfos));
      assert Represents(outstanding, DescriptorDynamicInfos, TableOf(DescriptorDynamicInfos));
      hide Represents;
    }

    method SetExpected(configuration: Index, q: Query)
      requires Valid()
      modifies this
      ensures Valid() && gotFatalError == old(gotFatalError)
      ensures outstanding == Effect(old(outstanding), gotFatalError, Expect(configuration, q))
    {
      var table := TableOf(q.Kind());
      var keys := if configuration in table then table[configuration] else {};
      SetTable(q.Kind(), table[configuration := keys + {Key(q)}]);
      outstanding := outstanding + {(configuration, q)};
      RepresentsAsked(old(outstanding), table, configuration, q);
      hide Represents;
      StillValid(q.Kind());
    }

    /** An answer is accepted exactly when its query is outstanding and the enumeration has not failed. */
    method CheckAndClear(configuration: Index, q: Query) returns (accepted: bool)
      requires Valid()
      modifies this
      ensures accepted <==> !gotFatalError && (configuration, q) in old(outstanding)
      ensures Valid() && gotFatalError == old(gotFatalError)
      ensures outstanding == Effect(old(outstanding), gotFatalError, Answer(configuration, q))
    {
      hide Key;
      if gotFatalError {
        return false;
      }
      var table := TableOf(q.Kind());
      assert Represents(outstanding, q.Kind(), table);
      if configuration !in table {
        assert outstanding - {(configuration, q)} == outstanding;
        return false;
      }
      accepted := Key(q) in table[configuration];
      SetTable(q.Kind(), table[configuration := table[configuration] - {Key(q)}]);
      outstanding := outstanding - {(configuration, q)};
      RepresentsAnswered(old(outstanding), table, configuration, q);
      hide Represents;
      StillValid(q.Kind());
    }

    /** The expected descriptors are never dropped as a whole. */
    method ClearAll(kind: Kind)
      requires Valid() && kind != Descriptors
      modifies this
      ensures Valid() && gotFatalError == old(gotFatalError)
      ensures outstanding == Effect(old(outstanding), gotFatalError, Clear(kind))
    {
      SetTable(kind, map[]);
      outstanding := set x | x in outstanding && x.1.Kind() != kind;
      hide Key;
      StillValid(kind);
    }

    method GotAll(kind: Kind) returns (all: bool)
      requires Valid()
      ensures all <==> forall x :: x in outstanding ==> x.1.Kind() != kind
    {
      hide Key;
      var table := TableOf(kind);
      forall x | x in outstanding && x.1.Kind() == kind ensures InTable(table, x.0, Key(x.1)) {
        assert x == (x.0, x.1) && Represents(outstanding, kind, table);
      }
      var rest := table.Keys;
      while rest != {}
        invariant rest <= table.Keys
        invariant forall c: Index :: c in table && c !in rest ==> table[c] == {}
      {
        var c :| c in rest;
        if table[c] != {} {
          var k :| k in table[c];
          assert InTable(table, c, k);
          var q: Query :| q.Kind() == kind && Key(q) == k;
          assert (c, q) in outstanding;
          return false;
        }
        rest := rest - {c};
      }
      return true;
    }

    method SetFatalError()
      requires Valid()
      modifies this`gotFatalError
      ensures Valid() && gotFatalError && outstanding == Effect(old(outstanding), old(gotFatalError), Fatal)
    {
      gotFatalError := true;
      hide Key;
    }
  }

  // ---------------------------------------------------------------- Runs

  ghost predicate Failed(run: seq<Event>) {
    Fatal in run
  }

  /** The queries outstanding after a run. */
  ghost function Outstanding(run: seq<Event>): Queries {
    if run == [] then {}
    else Effect(Outstanding(run[..|run| - 1]), Failed(run[..|run| - 1]), run[|run| - 1])
  }

  ghost predicate Accepted(run: seq<Event>, n: nat) {
    && n < |run| && run[n].Answer? && !Failed(run[..n])
    && (run[n].configuration, run[n].query) in Outstanding(run[..n])
  }

  /** The event ends the wait for a query: an answer before any failure, or a clear of its kind. */
  ghost predicate Ends(run: seq<Event>, n: nat, c: Index, q: Query) {
    && n < |run|
    && ((run[n] == Answer(c, q) && !Failed(run[..n])) || run[n] == Clear(q.Kind()))
  }

  ghost predicate AskedAt(run: seq<Event>, k: nat, c: Index, q: Query) {
    && k < |run| && run[k] == Expect(c, q)
    && forall j: nat :: k < j < |run| ==> !Ends(run, j, c, q)
  }

  /** A query is outstanding exactly when it was asked and nothing has ended the wait since. */
  lemma {:induction false} OutstandingIffAsked(run: seq<Event>, c: Index, q: Query)
    ensures (c, q) in Outstanding(run) <==> exists k :: AskedAt(run, k, c, q)
  {
    if run != [] {
      OutstandingIffAsked(run[..|run| - 1], c, q);
      AskedStep(run, c, q);
    }
  }

  lemma AskedStep(run: seq<Event>, c: Index, q: Query)
    requires run != []
    ensures var n := |run| - 1;
            (exists k :: AskedAt(run, k, c, q))
            <==> run[n] == Expect(c, q) || ((exists k :: AskedAt(run[..n], k, c, q)) && !Ends(run, n, c, q))
  {
    var n := |run| - 1;
    var before := run[..n];
    forall j: nat | j < n ensures Ends(run, j, c, q) == Ends(before, j, c, q) {
      assert run[..j] == before[..j];
    }
    hide Failed;
    if run[n] == Expect(c, q) {
      assert AskedAt(run, n, c, q);
    }
    if k: nat :| AskedAt(before, k, c, q) && !Ends(run, n, c, q) {
      assert AskedAt(run, k, c, q);
    }
    if k: nat :| AskedAt(run, k, c, q) && k < n {
      assert AskedAt(before, k, c, q);
    }
  }

  /** An answer is accepted exactly when its query was asked, no clear or other answer came in between, and the
      enumeration has not failed. */
  lemma AcceptedIffAsked(run: seq<Event>, n: nat)
    requires n < |run| && run[n].Answer?
    ensures Accepted(run, n) <==>
            !Failed(run[..n]) && exists k :: AskedAt(run[..n], k, run[n].configuration, run[n].query)
  {
    OutstandingIffAsked(run[..n], run[n].configuration, run[n].query);
  }

  /** Between two accepted answers to a query it was asked again: an expected answer is accepted once. */
  lemma AcceptedOnce(run: seq<Event>, m: nat, n: nat)
    requires m < n && Accepted(run, m) && Accepted(run, n) && run[m] == run[n]
    ensures exists k :: m < k < n && run[k] == Expect(run[n].configuration, run[n].query)
  {
    AcceptedIffAsked(run, n);
    var c, q := run[n].configuration, run[n].query;
    var k: nat :| AskedAt(run[..n], k, c, q);
    if k <= m {
      assert run[..n][..m] == run[..m];
      assert Ends(run[..n], m, c, q);
    }
  }
}
