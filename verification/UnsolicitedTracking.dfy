/** Loss detection over the sequence IDs of unsolicited notifications. */
module UnsolicitedTracking {

  import opened Common

  datatype Protocol = Aem | Mvu

  /** The part of an entity that loss detection works on. milan is the protocol version in its Milan info. */
  datatype State = State(
    subscribed: bool,
    milan: Option<nat>,
    expectedAem: Option<Index>,
    expectedMvu: Option<Index>,
    receivedAem: nat,
    receivedMvu: nat,
    lostAem: nat,
    lostMvu: nat)
  {
    function Expected(p: Protocol): Option<Index> {
      if p == Aem then expectedAem else expectedMvu
    }

    function Received(p: Protocol): nat {
      if p == Aem then receivedAem else receivedMvu
    }

    function Lost(p: Protocol): nat {
      if p == Aem then lostAem else lostMvu
    }

    /** An ID is expected only while subscribed. */
    predicate Consistent() {
      subscribed || (expectedAem.None? && expectedMvu.None?)
    }

    predicate Tracks() {
      subscribed && milan.Some? && milan.value >= 1
    }
  }

  const Initial := State(false, None, None, None, 0, 0, 0, 0)

  datatype Event =
    | Subscription(subscribed: bool)
    | MilanInfo(info: Option<nat>)
    | Notification(protocol: Protocol, sequenceId: Index)

  function Successor(id: Index): Index {
    (id + 1) % 0x1_0000
  }

  // ---------------------------------------------------------------- One event

  function Subscribing(s: State, on: bool): State {
    if on then s.(subscribed := true) else s.(subscribed := false, expectedAem := None, expectedMvu := None)
  }

  predicate IsLoss(s: State, p: Protocol, id: Index) {
    s.Tracks() && s.Expected(p).Some? && s.Expected(p).value != id
  }

  function Counted(s: State, p: Protocol): State {
    if p == Aem then s.(receivedAem := s.receivedAem + 1) else s.(receivedMvu := s.receivedMvu + 1)
  }

  /** A tracked notification announces the next one. */
  function Expecting(s: State, p: Protocol, id: Index): State {
    if !s.Tracks() then s
    else if p == Aem then s.(expectedAem := Some(Successor(id))) else s.(expectedMvu := Some(Successor(id)))
  }

  function Next(s: State, e: Event): State {
    match e
    case Subscription(on) => Subscribing(s, on)
    case MilanInfo(info) => s.(milan := info)
    case Notification(p, id) =>
      if IsLoss(s, p, id) then
        Counted(Subscribing(if p == Aem then s.(lostAem := s.lostAem + 1) else s.(lostMvu := s.lostMvu + 1), false), p)
      else Counted(Expecting(s, p, id), p)
  }

  class ControlledEntity {
    var isSubscribed: bool
    var milanInfo: Option<nat>
    var expectedAemSequenceId: Option<Index>
    var expectedMvuSequenceId: Option<Index>
    var aemUnsolicitedCounter: nat
    var mvuUnsolicitedCounter: nat
    var aemUnsolicitedLossCounter: nat
    var mvuUnsolicitedLossCounter: nat

    ghost function Now(): State
      reads this
    {
      State(isSubscribed, milanInfo, expectedAemSequenceId, expectedMvuSequenceId, aemUnsolicitedCounter,
            mvuUnsolicitedCounter, aemUnsolicitedLossCounter, mvuUnsolicitedLossCounter)
    }

    constructor ()
      ensures Now() == Initial
    {
      isSubscribed, milanInfo, expectedAemSequenceId, expectedMvuSequenceId := false, None, None, None;
      aemUnsolicitedCounter, mvuUnsolicitedCounter := 0, 0;
      aemUnsolicitedLossCounter, mvuUnsolicitedLossCounter := 0, 0;
    }

    method SetMilanInfo(info: Option<nat>)
      modifies this`milanInfo
      ensures Now() == Next(old(Now()), MilanInfo(info))
    {
      milanInfo := info;
    }

    method SetSubscribed(on: bool)
      modifies this`isSubscribed, this`expectedAemSequenceId, this`expectedMvuSequenceId
      ensures Now() == Next(old(Now()), Subscription(on))
    {
      isSubscribed := on;
      if !on {
        expectedAemSequenceId := None;
        expectedMvuSequenceId := None;
      }
    }

    /** Sets the subscription when it changes, which observers are told about. */
    method UpdateSubscription(on: bool) returns (changed: bool)
      requires Now().Consistent()
      modifies this`isSubscribed, this`expectedAemSequenceId, this`expectedMvuSequenceId
      ensures Now() == Next(old(Now()), Subscription(on)) && (changed <==> old(isSubscribed) != on)
    {
      changed := isSubscribed != on;
      if changed {
        SetSubscribed(on);
      }
    }

    method HasLost(p: Protocol, id: Index) returns (unmatched: bool)
      modifies this`expectedAemSequenceId, this`expectedMvuSequenceId
      ensures unmatched <==> IsLoss(old(Now()), p, id)
      ensures Now() == Expecting(old(Now()), p, id)
    {
      unmatched := false;
      if isSubscribed && milanInfo.Some? && milanInfo.value >= 1 {
        var expected := if p == Aem then expectedAemSequenceId else expectedMvuSequenceId;
        if expected.Some? {
          unmatched := expected.value != id;
        }
        match p
        case Aem => expectedAemSequenceId := Some(Successor(id));
        case Mvu => expectedMvuSequenceId := Some(Successor(id));
      }
    }

    /** A loss ends the subscription and is counted before the notification is. */
    method HandleUnsolicited(p: Protocol, id: Index)
      modifies this
      ensures Now() == Next(old(Now()), Notification(p, id))
    {
      var lost := HasLost(p, id);
      if lost {
        match p {
          case Aem => aemUnsolicitedLossCounter := aemUnsolicitedLossCounter + 1;
          case Mvu => mvuUnsolicitedLossCounter := mvuUnsolicitedLossCounter + 1;
        }
        var _ := UpdateSubscription(false);
      }
      match p
      case Aem => aemUnsolicitedCounter := aemUnsolicitedCounter + 1;
      case Mvu => mvuUnsolicitedCounter := mvuUnsolicitedCounter + 1;
    }
  }

  // ---------------------------------------------------------------- Runs

  function After(run: seq<Event>): State {
    if run == [] then Initial else Next(After(run[..|run| - 1]), run[|run| - 1])
  }

  lemma {:induction false} ExpectsOnlyWhileSubscribed(run: seq<Event>)
    ensures After(run).Consistent()
  {
    if run != [] {
      ExpectsOnlyWhileSubscribed(run[..|run| - 1]);
    }
  }

  ghost predicate TrackedAt(run: seq<Event>, n: nat, p: Protocol) {
    n < |run| && run[n].Notification? && run[n].protocol == p && After(run[..n]).Tracks()
  }

  /** Notification k is the last tracked one before n, and the subscription has lasted since. */
  ghost predicate Precedes(run: seq<Event>, k: nat, n: nat, p: Protocol) {
    && k < n <= |run| && TrackedAt(run, k, p)
    && (forall j: nat :: k < j < n ==> !TrackedAt(run, j, p))
    && (forall j: nat :: k < j <= n ==> SubscribedAfter(run, j))
  }

  ghost predicate SubscribedAfter(run: seq<Event>, n: nat) {
    n <= |run| && After(run[..n]).subscribed
  }

  lemma PrecedesOfPrefix(run: seq<Event>, k: nat, n: nat, m: nat, p: Protocol)
    requires n <= m <= |run|
    ensures Precedes(run, k, n, p) <==> Precedes(run[..m], k, n, p)
  {
    forall j: nat | j <= n ensures run[..m][..j] == run[..j] { }
    forall j: nat | j < n ensures TrackedAt(run[..m], j, p) == TrackedAt(run, j, p) { }
    forall j: nat | j <= n ensures SubscribedAfter(run[..m], j) == SubscribedAfter(run, j) { }
    hide After, TrackedAt, SubscribedAfter;
  }

  lemma PrecedesStep(run: seq<Event>, k: nat, p: Protocol)
    requires run != []
    ensures var n := |run| - 1;
            Precedes(run, k, |run|, p) <==>
            After(run).subscribed && if TrackedAt(run, n, p) then k == n else Precedes(run, k, n, p)
  {
    assert run[..|run|] == run;
    assert SubscribedAfter(run, |run|) <==> After(run).subscribed;
    hide TrackedAt, SubscribedAfter;
  }

  /** The expected ID is the successor of the last tracked one, as long as the subscription lasts. */
  lemma {:induction false} ExpectedIffPreceded(run: seq<Event>, p: Protocol, id: Index)
    ensures After(run).Expected(p) == Some(id)
            <==> exists k: nat :: Precedes(run, k, |run|, p) && id == Successor(run[k].sequenceId)
  {
    if run != [] {
      var n := |run| - 1;
      ExpectedIffPreceded(run[..n], p, id);
      ExpectsOnlyWhileSubscribed(run[..n]);
      ExpectedStep(run, p, id);
      forall k: nat ensures Precedes(run[..n], k, n, p) <==> Precedes(run, k, n, p) {
        PrecedesOfPrefix(run, k, n, n, p);
      }
      forall k: nat
        ensures Precedes(run, k, |run|, p) <==>
                After(run).subscribed && if TrackedAt(run, n, p) then k == n else Precedes(run, k, n, p)
      {
        PrecedesStep(run, k, p);
      }
      hide After, Precedes, TrackedAt;
      if TrackedAt(run, n, p) && After(run).subscribed {
        assert Precedes(run, n, |run|, p);
      }
      if k: nat :| Precedes(run[..n], k, n, p) && id == Successor(run[..n][k].sequenceId) {
        BoundedPrecedes(run[..n], k, n, p);
        assert run[..n][k] == run[k];
        assert !TrackedAt(run, n, p) && After(run).subscribed ==> Precedes(run, k, |run|, p);
      }
      if k: nat :| Precedes(run, k, |run|, p) && id == Successor(run[k].sequenceId) {
        if !TrackedAt(run, n, p) {
          assert Precedes(run[..n], k, n, p);
          BoundedPrecedes(run[..n], k, n, p);
          assert run[..n][k] == run[k];
        }
      }
    }
  }

  lemma BoundedPrecedes(run: seq<Event>, k: nat, n: nat, p: Protocol)
    requires Precedes(run, k, n, p)
    ensures k < n
  {
  }

  lemma ExpectedStep(run: seq<Event>, p: Protocol, id: Index)
    requires run != []
    requires After(run[..|run| - 1]).Consistent()
    ensures var n := |run| - 1;
            After(run).Expected(p) == Some(id) <==>
            After(run).subscribed &&
            if TrackedAt(run, n, p) then id == Successor(run[n].sequenceId)
            else After(run[..n]).Expected(p) == Some(id)
  {
  }

  ghost predicate LostAt(run: seq<Event>, n: nat) {
    && n < |run| && run[n].Notification?
    && After(run[..n + 1]).Lost(run[n].protocol) > After(run[..n]).Lost(run[n].protocol)
  }

  /** A loss is reported exactly when the notification is tracked and does not follow its tracked predecessor. */
  lemma LossIffGap(run: seq<Event>, n: nat)
    requires n < |run| && run[n].Notification?
    ensures var p := run[n].protocol;
            LostAt(run, n) <==>
            TrackedAt(run, n, p)
            && exists k: nat :: Precedes(run, k, n, p) && Successor(run[k].sequenceId) != run[n].sequenceId
  {
    var p, id := run[n].protocol, run[n].sequenceId;
    var before := run[..n];
    assert run[..n + 1][..n] == before;
    assert LostAt(run, n) <==> IsLoss(After(before), p, id);
    forall k: nat ensures Precedes(before, k, n, p) <==> Precedes(run, k, n, p) {
      PrecedesOfPrefix(run, k, n, n, p);
    }
    hide After, Precedes;
    if IsLoss(After(before), p, id) {
      var expected := After(before).Expected(p).value;
      ExpectedIffPreceded(before, p, expected);
      var k: nat :| Precedes(before, k, n, p) && expected == Successor(before[k].sequenceId);
      BoundedPrecedes(before, k, n, p);
      assert before[k] == run[k];
      assert Precedes(run, k, n, p);
    }
    if TrackedAt(run, n, p) {
      if k: nat :| Precedes(run, k, n, p) && Successor(run[k].sequenceId) != id {
        BoundedPrecedes(run, k, n, p);
        assert before[k] == run[k];
        assert Precedes(before, k, n, p);
        ExpectedIffPreceded(before, p, Successor(run[k].sequenceId));
      }
    }
  }

  function NotificationsOf(run: seq<Event>, p: Protocol): nat {
    if run == [] then 0
    else
      var last := run[|run| - 1];
      NotificationsOf(run[..|run| - 1], p) + if last.Notification? && last.protocol == p then 1 else 0
  }

  /** Every notification is counted once, lost predecessors or not. */
  lemma {:induction false} ReceivedAreCounted(run: seq<Event>, p: Protocol)
    ensures After(run).Received(p) == NotificationsOf(run, p)
  {
    if run != [] {
      ReceivedAreCounted(run[..|run| - 1], p);
    }
  }

  /** Every loss is counted once, for its own protocol, and ends the subscription. */
  lemma LossIsCounted(run: seq<Event>, n: nat, p: Protocol)
    requires n < |run|
    ensures After(run[..n + 1]).Lost(p) ==
            After(run[..n]).Lost(p) + if LostAt(run, n) && run[n].protocol == p then 1 else 0
    ensures LostAt(run, n) ==> !After(run[..n + 1]).subscribed
  {
    assert run[..n + 1][..n] == run[..n];
  }

  function Subscriptions(run: seq<Event>): nat {
    if run == [] then 0
    else Subscriptions(run[..|run| - 1]) + if run[|run| - 1] == Subscription(true) then 1 else 0
  }

  /** Each loss uses up a subscription. */
  lemma {:induction false} LossesAreBounded(run: seq<Event>)
    ensures After(run).lostAem + After(run).lostMvu + (if After(run).subscribed then 1 else 0) <= Subscriptions(run)
  {
    if run != [] {
      LossesAreBounded(run[..|run| - 1]);
    }
  }
}
