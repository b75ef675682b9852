/**
 * The orchestrator: group the taps by traveller, sort each group by time,
 * flatten and group a second time, pad each group with the two sentinels, scan
 * it pairwise with the rule engine (previous tap, current tap), and concatenate
 * the groups' trips.
 *
 * The scan is written over any `Step` (what one pair appends) so that its
 * structure is proved once; `EngineStep` is the rule engine's step.
 * `ScanTrips` is what the per-group loop appends; `OnTrips` is an independent
 * reading of a group, one trip per ON tap closed by the tap after it, and
 * `GroupTripsAreOnTrips` connects the two.
 */
module TapProcessing {
  import opened Wrappers
  import opened TapModels
  import opened TripModels
  import opened FareStore
  import opened Lists
  import opened RuleEngine
  import opened TapGrouping

  /** What one (previous tap, current tap) pair appends to the trip list. */
  type Step = (Tap, Tap) -> seq<TripModel>

  /** The rule engine of a fare table, as a step. */
  function EngineStep(priceRules: map<Route, Price>): Step {
    (previous: Tap, current: Tap) => Transition(priceRules, previous, current)
  }

  function TripKey(trip: TripModel): GroupKey {
    GroupKey(trip.companyId, trip.busId, trip.pan)
  }

  /** The step appends nothing unless the previous tap is ON. */
  ghost predicate OpensOnOnly(step: Step) {
    forall previous: Tap, current: Tap | previous.tapType != On :: step(previous, current) == []
  }

  /** Every trip the step appends belongs to the traveller of the previous tap. */
  ghost predicate KeepsTraveller(step: Step) {
    forall previous: Tap, current: Tap, trip | trip in step(previous, current) :: TripKey(trip) == KeyOf(previous)
  }

  /** The engine opens trips on ON taps only, and a trip belongs to the traveller who opened it. */
  lemma EngineStepOpensOnOnlyAndKeepsTraveller(priceRules: map<Route, Price>)
    ensures OpensOnOnly(EngineStep(priceRules))
    ensures KeepsTraveller(EngineStep(priceRules))
  {
    forall previous: Tap, current: Tap, trip | trip in EngineStep(priceRules)(previous, current)
      ensures TripKey(trip) == KeyOf(previous)
    {
      TransitionTable(priceRules, previous, current);
    }
  }

  /** The trips the scan appends when `first` is taken as the tap before `taps[0]`. */
  function ScanTrips(step: Step, first: Tap, taps: seq<Tap>): seq<TripModel>
    decreases |taps|
  {
    if taps == [] then []
    else
      var n := |taps| - 1;
      ScanTrips(step, first, taps[..n]) + step(if n == 0 then first else taps[n - 1], taps[n])
  }

  /**
   * The trips of one sorted group. The loop starts with the head as previous
   * tap and also visits the head as current tap, so the first pair is (head, head).
   */
  function GroupTrips(step: Step, group: seq<Tap>): seq<TripModel> {
    ScanTrips(step, GroupHeadTap, Padded(group))
  }

  /** The tap that closes an ON tap followed by `rest`: the next tap, or the end of the batch. */
  function FirstOrTail(rest: seq<Tap>): (next: Tap)
    ensures next == GroupTailTap || next in rest
  {
    if rest == [] then GroupTailTap else rest[0]
  }

  /** One trip for each ON tap of the group, closed by its follower. */
  function OnTrips(step: Step, group: seq<Tap>): seq<TripModel> {
    if group == [] then []
    else
      (if group[0].tapType == On then step(group[0], FirstOrTail(group[1..])) else []) +
      OnTrips(step, group[1..])
  }

  /** The ON taps of `taps`, in order. */
  function OnTaps(taps: seq<Tap>): (ons: seq<Tap>)
    ensures forall t | t in ons :: t in taps && t.tapType == On
  {
    if taps == [] then []
    else (if taps[0].tapType == On then [taps[0]] else []) + OnTaps(taps[1..])
  }

  /** Unfolding the scan at the front instead of the back. */
  lemma {:induction false} ScanCons(step: Step, first: Tap, x: Tap, rest: seq<Tap>)
    ensures ScanTrips(step, first, [x] + rest) == step(first, x) + ScanTrips(step, x, rest)
    decreases |rest|
  {
    var xs := [x] + rest;
    if rest == [] {
      assert xs[..0] == [];
    } else {
      var n := |rest| - 1;
      assert xs[..|xs| - 1] == [x] + rest[..n];
      ScanCons(step, first, x, rest[..n]);
    }
  }

  /** Scanning a group followed by the tail gives the first pair's trips, then one trip per ON tap. */
  lemma {:induction false} ScanClosesOnTrips(step: Step, previous: Tap, group: seq<Tap>)
    requires OpensOnOnly(step)
    ensures ScanTrips(step, previous, group + [GroupTailTap]) ==
            step(previous, FirstOrTail(group)) + OnTrips(step, group)
    decreases |group|
  {
    if group == [] {
      assert group + [GroupTailTap] == [GroupTailTap] + [];
      ScanCons(step, previous, GroupTailTap, []);
    } else {
      var x := group[0];
      var rest := group[1..];
      assert group + [GroupTailTap] == [x] + (rest + [GroupTailTap]);
      ScanCons(step, previous, x, rest + [GroupTailTap]);
      ScanClosesOnTrips(step, x, rest);
    }
  }

  /** What the padded one-step-lookback scan appends is one trip per ON tap, closed by its follower. */
  lemma GroupTripsAreOnTrips(step: Step, group: seq<Tap>)
    requires OpensOnOnly(step)
    ensures GroupTrips(step, group) == OnTrips(step, group)
  {
    assert Padded(group) == [GroupHeadTap] + (group + [GroupTailTap]);
    ScanCons(step, GroupHeadTap, GroupHeadTap, group + [GroupTailTap]);
    ScanClosesOnTrips(step, GroupHeadTap, group);
  }

  /** The k-th trip was opened by the k-th tap, for every k. */
  predicate OpenedInOrder(trips: seq<TripModel>, ons: seq<Tap>) {
    |trips| == |ons| && forall k | 0 <= k < |trips| :: OpenedBy(trips[k], ons[k])
  }

  lemma OpenedInOrderConcat(a: seq<TripModel>, b: seq<TripModel>, c: seq<Tap>, d: seq<Tap>)
    requires OpenedInOrder(a, c) && OpenedInOrder(b, d)
    ensures OpenedInOrder(a + b, c + d)
  {
    forall k | 0 <= k < |a + b| ensures OpenedBy((a + b)[k], (c + d)[k]) {
      if k >= |a| {
        assert (a + b)[k] == b[k - |a|] && (c + d)[k] == d[k - |a|];
      }
    }
  }

  lemma OnTapOpensOneTrip(priceRules: map<Route, Price>, x: Tap, next: Tap)
    requires next.tapType != GroupHead
    ensures var trips := if x.tapType == On then EngineStep(priceRules)(x, next) else [];
      OpenedInOrder(trips, if x.tapType == On then [x] else [])
  {
    if x.tapType == On {
      var trips := Transition(priceRules, x, next);
      TransitionTable(priceRules, x, next);
      assert trips[0] in trips;
    }
  }

  /** The k-th trip comes from the k-th ON tap: its start time, origin and traveller key. */
  lemma {:induction false} OnTripsFollowOnTaps(priceRules: map<Route, Price>, group: seq<Tap>)
    requires forall t | t in group :: t.tapType != GroupHead
    ensures OpenedInOrder(OnTrips(EngineStep(priceRules), group), OnTaps(group))
    decreases |group|
  {
    if group != [] {
      var step := EngineStep(priceRules);
      var rest := group[1..];
      OnTripsFollowOnTaps(priceRules, rest);
      assert group[0] in group;
      OnTapOpensOneTrip(priceRules, group[0], FirstOrTail(rest));
      OpenedInOrderConcat(
        if group[0].tapType == On then step(group[0], FirstOrTail(rest)) else [],
        OnTrips(step, rest),
        if group[0].tapType == On then [group[0]] else [],
        OnTaps(rest));
    }
  }

  /** A group's trips are as many as its ON taps, and the k-th was opened by the k-th ON tap. */
  lemma GroupTripsFollowOnTaps(priceRules: map<Route, Price>, group: seq<Tap>)
    requires AllRealTaps(group)
    ensures |GroupTrips(EngineStep(priceRules), group)| == |OnTaps(group)|
    ensures forall k | 0 <= k < |OnTaps(group)| ::
      && GroupTrips(EngineStep(priceRules), group)[k].started == OnTaps(group)[k].dateTimeUtc
      && GroupTrips(EngineStep(priceRules), group)[k].fromStopId == OnTaps(group)[k].stopId
      && TripKey(GroupTrips(EngineStep(priceRules), group)[k]) == KeyOf(OnTaps(group)[k])
  {
    EngineStepOpensOnOnlyAndKeepsTraveller(priceRules);
    GroupTripsAreOnTrips(EngineStep(priceRules), group);
    OnTripsFollowOnTaps(priceRules, group);
  }

  /** When the last tap of a group is ON, what it opens against the tail ends the group's trips. */
  lemma {:induction false} OnTripsEndWithLastOn(step: Step, group: seq<Tap>)
    requires group != [] && group[|group| - 1].tapType == On
    ensures var trips := OnTrips(step, group);
      var closing := step(group[|group| - 1], GroupTailTap);
      |closing| <= |trips| && trips[|trips| - |closing|..] == closing
    decreases |group|
  {
    var rest := group[1..];
    var closing := step(group[|group| - 1], GroupTailTap);
    if rest == [] {
      assert OnTrips(step, group) == closing + [];
    } else {
      assert rest[|rest| - 1] == group[|group| - 1];
      OnTripsEndWithLastOn(step, rest);
      var first := if group[0].tapType == On then step(group[0], FirstOrTail(rest)) else [];
      var later := OnTrips(step, rest);
      assert OnTrips(step, group) == first + later;
      assert (first + later)[|first + later| - |closing|..] == later[|later| - |closing|..];
    }
  }

  /** A group whose last tap is ON ends with an INCOMPLETE trip to UNKNOWN with no finish time. */
  lemma LastOnTapEndsIncomplete(priceRules: map<Route, Price>, group: seq<Tap>)
    requires group != [] && group[|group| - 1].tapType == On
    ensures GroupTrips(EngineStep(priceRules), group) != []
    ensures var trips := GroupTrips(EngineStep(priceRules), group);
      var last := trips[|trips| - 1];
      && last.status == Incomplete
      && last.toStopId == Unknown
      && last.finished == None
      && last.durationSecs == 0
      && last.started == group[|group| - 1].dateTimeUtc
      && last.chargeAmount == Lookup(priceRules, group[|group| - 1].stopId, Unknown)
  {
    var step := EngineStep(priceRules);
    EngineStepOpensOnOnlyAndKeepsTraveller(priceRules);
    GroupTripsAreOnTrips(step, group);
    OnTripsEndWithLastOn(step, group);
    var closing := Transition(priceRules, group[|group| - 1], GroupTailTap);
    TransitionTable(priceRules, group[|group| - 1], GroupTailTap);
    assert closing[0] in closing;
  }

  /** A leading OFF tap contributes no trip. */
  lemma LeadingOffAddsNoTrip(step: Step, off: Tap, group: seq<Tap>)
    requires OpensOnOnly(step)
    requires off.tapType == Off
    ensures GroupTrips(step, [off] + group) == GroupTrips(step, group)
  {
    GroupTripsAreOnTrips(step, [off] + group);
    GroupTripsAreOnTrips(step, group);
    assert ([off] + group)[1..] == group;
  }

  lemma {:induction false} OffAfterOffOnTrips(step: Step, before: seq<Tap>, x: Tap, y: Tap, after: seq<Tap>)
    requires x.tapType == Off && y.tapType == Off
    ensures OnTrips(step, before + [x, y] + after) == OnTrips(step, before + [x] + after)
    decreases |before|
  {
    var s1 := before + [x, y] + after;
    var s2 := before + [x] + after;
    if before == [] {
      assert s1[1..] == [y] + after;
      assert ([y] + after)[1..] == after;
      assert s2[1..] == after;
    } else {
      assert s1[1..] == before[1..] + [x, y] + after;
      assert s2[1..] == before[1..] + [x] + after;
      OffAfterOffOnTrips(step, before[1..], x, y, after);
      assert s1[0] == s2[0];
      assert FirstOrTail(s1[1..]) == FirstOrTail(s2[1..]);
    }
  }

  /** An OFF tap right after an OFF tap contributes no trip. */
  lemma OffAfterOffAddsNoTrip(step: Step, before: seq<Tap>, x: Tap, y: Tap, after: seq<Tap>)
    requires OpensOnOnly(step)
    requires x.tapType == Off && y.tapType == Off
    ensures GroupTrips(step, before + [x, y] + after) == GroupTrips(step, before + [x] + after)
  {
    GroupTripsAreOnTrips(step, before + [x, y] + after);
    GroupTripsAreOnTrips(step, before + [x] + after);
    OffAfterOffOnTrips(step, before, x, y, after);
  }

  /** Every trip of a group carries the group's traveller key. */
  lemma {:induction false} OnTripsCarryKey(step: Step, group: seq<Tap>, key: GroupKey)
    requires KeepsTraveller(step)
    requires forall t | t in group :: KeyOf(t) == key
    ensures forall trip | trip in OnTrips(step, group) :: TripKey(trip) == key
    decreases |group|
  {
    if group != [] {
      OnTripsCarryKey(step, group[1..], key);
      assert group[0] in group;
    }
  }

  /** In a group sorted by time, no trip has a negative duration. */
  lemma {:induction false} OnTripsDurationsNonNegative(priceRules: map<Route, Price>, group: seq<Tap>)
    requires AllRealTaps(group) && AllTimed(group) && SortedByTime(group)
    ensures forall trip | trip in OnTrips(EngineStep(priceRules), group) :: trip.durationSecs >= 0
    decreases |group|
  {
    if group != [] {
      var rest := group[1..];
      assert AllTimed(rest) && SortedByTime(rest) by {
        forall i, j | 0 <= i < j < |rest| ensures TimeOf(rest[i]) <= TimeOf(rest[j]) {
          assert rest[i] == group[i + 1] && rest[j] == group[j + 1];
        }
      }
      OnTripsDurationsNonNegative(priceRules, rest);
      var next := FirstOrTail(rest);
      TransitionTable(priceRules, group[0], next);
      if group[0].tapType == On && next.tapType == Off {
        assert next == group[1];
        assert TimeOf(group[0]) <= TimeOf(group[1]);
      }
    }
  }

  predicate Distinct<T(==)>(s: seq<T>) {
    forall i, j | 0 <= i < j < |s| :: s[i] != s[j]
  }

  /** The traveller keys of `taps`, each once, in the order a grouping map yields them. */
  ghost predicate IsKeyOrder(keyOrder: seq<GroupKey>, taps: seq<Tap>) {
    && Distinct(keyOrder)
    && (forall t | t in taps :: KeyOf(t) in keyOrder)
    && (forall key | key in keyOrder :: exists t | t in taps :: KeyOf(t) == key)
  }

  /** One traveller's taps in input order, then sorted by time. */
  function SortedGroup(taps: seq<Tap>, key: GroupKey): (group: seq<Tap>)
    requires AllRealTaps(taps)
    ensures AllRealTaps(group) && AllTimed(group) && SortedByTime(group)
    ensures forall t :: t in group <==> t in taps && KeyOf(t) == key
  {
    SortKeepsMembers(GroupOf(taps, key));
    SortByTime(GroupOf(taps, key))
  }

  /**
   * The tie-break of the sort: a traveller's taps with one timestamp keep the
   * order they have in the batch.
   */
  lemma SortedGroupKeepsBatchOrder(taps: seq<Tap>, key: GroupKey, time: int)
    requires AllRealTaps(taps)
    ensures AtTime(SortedGroup(taps, key), time) == GroupOf(AtTime(taps, time), key)
  {
    SortIsStable(GroupOf(taps, key), time);
    GroupOfAtTime(taps, key, time);
  }

  /** The stream the first grouping yields: each traveller's sorted group, travellers in `keyOrder`. */
  function SortedStream(taps: seq<Tap>, keyOrder: seq<GroupKey>): (stream: seq<Tap>)
    requires AllRealTaps(taps)
    ensures forall t | t in stream :: t in taps && KeyOf(t) in keyOrder
    ensures forall t | t in taps && KeyOf(t) in keyOrder :: t in stream
  {
    if keyOrder == [] then []
    else SortedStream(taps, keyOrder[..|keyOrder| - 1]) + SortedGroup(taps, keyOrder[|keyOrder| - 1])
  }

  lemma {:induction false} GroupOfOneTraveller(s: seq<Tap>, owner: GroupKey, key: GroupKey)
    requires forall t | t in s :: KeyOf(t) == owner
    ensures GroupOf(s, key) == if owner == key then s else []
    decreases |s|
  {
    if s != [] {
      var n := |s| - 1;
      var init := s[..n];
      var last := s[n];
      assert s == init + [last];
      assert KeyOf(last) == owner;
      GroupOfOneTraveller(init, owner, key);
    }
  }

  /**
   * Grouping the sorted stream a second time gives back each traveller's sorted
   * group, and nothing for a traveller that is not listed.
   */
  lemma {:induction false} RegroupGivesSortedGroup(taps: seq<Tap>, keyOrder: seq<GroupKey>, key: GroupKey)
    requires AllRealTaps(taps) && Distinct(keyOrder)
    ensures GroupOf(SortedStream(taps, keyOrder), key) == if key in keyOrder then SortedGroup(taps, key) else []
    decreases |keyOrder|
  {
    if keyOrder != [] {
      var n := |keyOrder| - 1;
      var init := keyOrder[..n];
      var last := keyOrder[n];
      assert keyOrder == init + [last];
      assert Distinct(init);
      RegroupGivesSortedGroup(taps, init, key);
      GroupOfAppend(SortedStream(taps, init), SortedGroup(taps, last), key);
      GroupOfOneTraveller(SortedGroup(taps, last), last, key);
      if key == last {
        assert key !in init;
      }
    }
  }

  /** The trips of one traveller: their sorted group, padded and scanned. */
  function TravellerTrips(step: Step, taps: seq<Tap>, key: GroupKey): seq<TripModel>
    requires AllRealTaps(taps)
  {
    GroupTrips(step, SortedGroup(taps, key))
  }

  /** What the scan of each traveller's group yields, as a function of the traveller. */
  function PerTraveller(step: Step, taps: seq<Tap>): GroupKey -> seq<TripModel>
    requires AllRealTaps(taps)
  {
    key => TravellerTrips(step, taps, key)
  }

  /** The trips of each traveller in `keys`, concatenated in that order. */
  function Concat(trips: GroupKey -> seq<TripModel>, keys: seq<GroupKey>): seq<TripModel> {
    if keys == [] then []
    else Concat(trips, keys[..|keys| - 1]) + trips(keys[|keys| - 1])
  }

  /** The whole batch: each traveller's trips, travellers in `keyOrder`. */
  function Reconstruct(step: Step, taps: seq<Tap>, keyOrder: seq<GroupKey>): seq<TripModel>
    requires AllRealTaps(taps)
  {
    Concat(PerTraveller(step, taps), keyOrder)
  }

  lemma ReconstructNext(step: Step, taps: seq<Tap>, keyOrder: seq<GroupKey>, k: nat)
    requires AllRealTaps(taps) && k < |keyOrder|
    ensures Reconstruct(step, taps, keyOrder[..k + 1]) ==
            Reconstruct(step, taps, keyOrder[..k]) + TravellerTrips(step, taps, keyOrder[k])
  {
    assert keyOrder[..k + 1][..k] == keyOrder[..k];
  }

  lemma {:induction false} ConcatAppend(trips: GroupKey -> seq<TripModel>, a: seq<GroupKey>, b: seq<GroupKey>)
    ensures Concat(trips, a + b) == Concat(trips, a) + Concat(trips, b)
    decreases |b|
  {
    if b == [] {
      assert a + b == a;
    } else {
      var n := |b| - 1;
      assert (a + b)[..|a + b| - 1] == a + b[..n];
      ConcatAppend(trips, a, b[..n]);
    }
  }

  /** Every trip of the concatenation comes from one of the listed travellers. */
  lemma {:induction false} ConcatMembers(trips: GroupKey -> seq<TripModel>, keys: seq<GroupKey>)
    ensures forall trip | trip in Concat(trips, keys) :: exists key | key in keys :: trip in trips(key)
    decreases |keys|
  {
    if keys != [] {
      var n := |keys| - 1;
      ConcatMembers(trips, keys[..n]);
      assert keys[n] in keys;
      assert forall key | key in keys[..n] :: key in keys;
    }
  }

  /** The trips of one traveller within a list of trips, in order. */
  function TripsOf(trips: seq<TripModel>, key: GroupKey): seq<TripModel> {
    if trips == [] then []
    else (if TripKey(trips[0]) == key then [trips[0]] else []) + TripsOf(trips[1..], key)
  }

  lemma {:induction false} TripsOfConcat(a: seq<TripModel>, b: seq<TripModel>, key: GroupKey)
    ensures TripsOf(a + b, key) == TripsOf(a, key) + TripsOf(b, key)
    decreases |a|
  {
    if a == [] {
      assert a + b == b;
    } else {
      assert (a + b)[1..] == a[1..] + b;
      TripsOfConcat(a[1..], b, key);
    }
  }

  lemma {:induction false} TripsOfOneOwner(trips: seq<TripModel>, owner: GroupKey, key: GroupKey)
    requires forall trip | trip in trips :: TripKey(trip) == owner
    ensures TripsOf(trips, key) == if owner == key then trips else []
    decreases |trips|
  {
    if trips != [] {
      assert trips[0] in trips;
      assert forall trip | trip in trips[1..] :: trip in trips;
      TripsOfOneOwner(trips[1..], owner, key);
      assert trips == [trips[0]] + trips[1..];
    }
  }

  /** Each traveller's trips carry that traveller's key. */
  ghost predicate Keyed(trips: GroupKey -> seq<TripModel>) {
    forall key, trip | trip in trips(key) :: TripKey(trip) == key
  }

  lemma {:induction false} ConcatIsolates(trips: GroupKey -> seq<TripModel>, keys: seq<GroupKey>, key: GroupKey)
    requires Keyed(trips) && Distinct(keys)
    ensures TripsOf(Concat(trips, keys), key) == if key in keys then trips(key) else []
    decreases |keys|
  {
    if keys != [] {
      var n := |keys| - 1;
      var init := keys[..n];
      var last := keys[n];
      assert keys == init + [last];
      assert Distinct(init);
      ConcatIsolates(trips, init, key);
      TripsOfConcat(Concat(trips, init), trips(last), key);
      TripsOfOneOwner(trips(last), last, key);
      if key == last {
        assert key !in init;
      }
    }
  }

  lemma TravellerTripsCarryKey(step: Step, taps: seq<Tap>, key: GroupKey)
    requires OpensOnOnly(step) && KeepsTraveller(step)
    requires AllRealTaps(taps)
    ensures forall trip | trip in TravellerTrips(step, taps, key) :: TripKey(trip) == key
  {
    var sorted := SortedGroup(taps, key);
    GroupTripsAreOnTrips(step, sorted);
    OnTripsCarryKey(step, sorted, key);
  }

  /**
   * Travellers are isolated: the trips of `key` in the batch are exactly the
   * trips built from that traveller's own taps, and none when the key is not listed.
   */
  lemma TravellersAreIsolated(step: Step, taps: seq<Tap>, keyOrder: seq<GroupKey>, key: GroupKey)
    requires OpensOnOnly(step) && KeepsTraveller(step)
    requires AllRealTaps(taps) && Distinct(keyOrder)
    ensures TripsOf(Reconstruct(step, taps, keyOrder), key) ==
            if key in keyOrder then TravellerTrips(step, taps, key) else []
  {
    forall k, trip | trip in PerTraveller(step, taps)(k) ensures TripKey(trip) == k {
      TravellerTripsCarryKey(step, taps, k);
    }
    ConcatIsolates(PerTraveller(step, taps), keyOrder, key);
  }

  lemma TravellerTripsNonNegative(priceRules: map<Route, Price>, taps: seq<Tap>, key: GroupKey)
    requires AllRealTaps(taps)
    ensures forall trip | trip in TravellerTrips(EngineStep(priceRules), taps, key) :: trip.durationSecs >= 0
  {
    var sorted := SortedGroup(taps, key);
    EngineStepOpensOnOnlyAndKeepsTraveller(priceRules);
    GroupTripsAreOnTrips(EngineStep(priceRules), sorted);
    OnTripsDurationsNonNegative(priceRules, sorted);
  }

  /** With times sorted within each traveller, no trip of the batch has a negative duration. */
  lemma ReconstructDurationsNonNegative(priceRules: map<Route, Price>, taps: seq<Tap>, keyOrder: seq<GroupKey>)
    requires AllRealTaps(taps)
    ensures forall trip | trip in Reconstruct(EngineStep(priceRules), taps, keyOrder) :: trip.durationSecs >= 0
  {
    var perTraveller := PerTraveller(EngineStep(priceRules), taps);
    ConcatMembers(perTraveller, keyOrder);
    forall trip | trip in Concat(perTraveller, keyOrder) ensures trip.durationSecs >= 0 {
      var key :| key in keyOrder && trip in perTraveller(key);
      TravellerTripsNonNegative(priceRules, taps, key);
    }
  }

  lemma TravellerTripsOpenedByOnTaps(priceRules: map<Route, Price>, taps: seq<Tap>, key: GroupKey)
    requires AllRealTaps(taps)
    ensures forall trip | trip in TravellerTrips(EngineStep(priceRules), taps, key) ::
      exists t | t in taps :: t.tapType == On && OpenedBy(trip, t)
  {
    var sorted := SortedGroup(taps, key);
    EngineStepOpensOnOnlyAndKeepsTraveller(priceRules);
    GroupTripsAreOnTrips(EngineStep(priceRules), sorted);
    OnTripsFollowOnTaps(priceRules, sorted);
    var trips := OnTrips(EngineStep(priceRules), sorted);
    var ons := OnTaps(sorted);
    forall trip | trip in trips ensures exists t | t in taps :: t.tapType == On && OpenedBy(trip, t) {
      var k :| 0 <= k < |trips| && trips[k] == trip;
      assert ons[k] in ons;
      assert ons[k] in sorted;
    }
  }

  /** Every trip of the batch was opened by an ON tap of the batch: its time, stop and traveller. */
  lemma EveryTripOpenedByOnTap(priceRules: map<Route, Price>, taps: seq<Tap>, keyOrder: seq<GroupKey>)
    requires AllRealTaps(taps)
    ensures forall trip | trip in Reconstruct(EngineStep(priceRules), taps, keyOrder) ::
      exists t | t in taps :: t.tapType == On && OpenedBy(trip, t)
  {
    var perTraveller := PerTraveller(EngineStep(priceRules), taps);
    ConcatMembers(perTraveller, keyOrder);
    forall trip | trip in Concat(perTraveller, keyOrder)
      ensures exists t | t in taps :: t.tapType == On && OpenedBy(trip, t)
    {
      var key :| key in keyOrder && trip in perTraveller(key);
      TravellerTripsOpenedByOnTaps(priceRules, taps, key);
    }
  }

  lemma DistinctWithout<T>(s: seq<T>, i: nat)
    requires Distinct(s) && i < |s|
    ensures Distinct(s[..i] + s[i + 1..])
    ensures forall x :: x in s[..i] + s[i + 1..] <==> x in s && x != s[i]
  {
    var r := s[..i] + s[i + 1..];
    assert forall k | 0 <= k < |r| :: r[k] == if k < i then s[k] else s[k + 1];
    forall x ensures x in r <==> x in s && x != s[i] {
      if x in s && x != s[i] {
        var k :| 0 <= k < |s| && s[k] == x;
        assert x == if k < i then r[k] else r[k - 1];
      }
    }
  }

  lemma ConcatWithout(trips: GroupKey -> seq<TripModel>, keys: seq<GroupKey>, i: nat)
    requires i < |keys|
    ensures multiset(Concat(trips, keys)) ==
            multiset(Concat(trips, keys[..i] + keys[i + 1..])) + multiset(trips(keys[i]))
  {
    assert keys == keys[..i] + ([keys[i]] + keys[i + 1..]);
    ConcatAppend(trips, keys[..i], [keys[i]] + keys[i + 1..]);
    ConcatAppend(trips, [keys[i]], keys[i + 1..]);
    ConcatAppend(trips, keys[..i], keys[i + 1..]);
    assert [keys[i]][..0] == [];
  }

  /** The two orders list the same travellers. */
  ghost predicate SameKeys(keys1: seq<GroupKey>, keys2: seq<GroupKey>) {
    forall key :: key in keys1 <==> key in keys2
  }

  /** Dropping the same traveller from two orders of one key set leaves two orders of one key set. */
  lemma DropSameKey(keys1: seq<GroupKey>, keys2: seq<GroupKey>, i: nat)
    requires Distinct(keys1) && Distinct(keys2)
    requires forall key :: key in keys1 <==> key in keys2
    requires keys1 != [] && i < |keys2| && keys2[i] == keys1[|keys1| - 1]
    ensures Distinct(keys1[..|keys1| - 1]) && Distinct(keys2[..i] + keys2[i + 1..])
    ensures SameKeys(keys1[..|keys1| - 1], keys2[..i] + keys2[i + 1..])
  {
    var n := |keys1| - 1;
    var rest2 := keys2[..i] + keys2[i + 1..];
    DistinctWithout(keys1, n);
    assert keys1[..n] + keys1[n + 1..] == keys1[..n];
    DistinctWithout(keys2, i);
    forall key ensures key in keys1[..n] <==> key in rest2 {
      assert key in keys1 <==> key in keys2;
    }
  }

  lemma {:induction false} SameKeysSameTrips(trips: GroupKey -> seq<TripModel>, keys1: seq<GroupKey>, keys2: seq<GroupKey>)
    requires Distinct(keys1) && Distinct(keys2)
    requires forall key :: key in keys1 <==> key in keys2
    ensures multiset(Concat(trips, keys1)) == multiset(Concat(trips, keys2))
    decreases |keys1|
  {
    assert keys2 != [] ==> keys2[0] in keys1;
    if keys1 == [] {
      if keys2 != [] {
        assert false;
      }
    } else {
      var n := |keys1| - 1;
      assert keys1[n] in keys2;
      var i :| 0 <= i < |keys2| && keys2[i] == keys1[n];
      DropSameKey(keys1, keys2, i);
      SameKeysSameTrips(trips, keys1[..n], keys2[..i] + keys2[i + 1..]);
      ConcatWithout(trips, keys2, i);
    }
  }

  /**
   * The order in which the grouping map yields travellers changes only the
   * order of the trips, never which trips are produced.
   */
  lemma KeyOrderIrrelevant(step: Step, taps: seq<Tap>, keys1: seq<GroupKey>, keys2: seq<GroupKey>)
    requires AllRealTaps(taps) && IsKeyOrder(keys1, taps) && IsKeyOrder(keys2, taps)
    ensures multiset(Reconstruct(step, taps, keys1)) == multiset(Reconstruct(step, taps, keys2))
  {
    forall key ensures key in keys1 <==> key in keys2 {
      if key in keys1 {
        var t :| t in taps && KeyOf(t) == key;
      }
      if key in keys2 {
        var t :| t in taps && KeyOf(t) == key;
      }
    }
    SameKeysSameTrips(PerTraveller(step, taps), keys1, keys2);
  }

  /** A traveller of the second grouping is one of the first, and finds its sorted group in the stream. */
  lemma StreamGroupIsSortedGroup(taps: seq<Tap>, firstOrder: seq<GroupKey>, keyOrder: seq<GroupKey>, k: nat)
    requires AllRealTaps(taps) && IsKeyOrder(firstOrder, taps) && IsKeyOrder(keyOrder, taps)
    requires k < |keyOrder|
    ensures GroupOf(SortedStream(taps, firstOrder), keyOrder[k]) == SortedGroup(taps, keyOrder[k])
    ensures AllTimedIfReal(SortedGroup(taps, keyOrder[k]))
  {
    var key := keyOrder[k];
    assert key in keyOrder;
    var t :| t in taps && KeyOf(t) == key;
    assert key in firstOrder;
    RegroupGivesSortedGroup(taps, firstOrder, key);
  }

  /** Reconstructs the trips of a batch of taps with the engine it was built with. */
  class TapProcessor {
    const ruleEngine: BackToBackTapRuleEngine

    constructor (tripFareManager: TripFareManager, handlerOrder: seq<Rule>)
      requires IsHandlerOrder(handlerOrder)
      ensures ruleEngine.tripFareManager == tripFareManager
      ensures ruleEngine.variant == RuleEngineVariant
      ensures ruleEngine.Valid()
    {
      ruleEngine := new BackToBackTapRuleEngine(tripFareManager, RuleEngineVariant, handlerOrder);
    }

    /**
     * Groups the taps by traveller and sorts each group by time, flattens the
     * sorted groups and groups them again, then scans each group. `firstOrder`
     * and `keyOrder` are the orders in which the two grouping maps yield their
     * travellers.
     */
    method TripMaker(taps: seq<Tap>, firstOrder: seq<GroupKey>, keyOrder: seq<GroupKey>) returns (trips: seq<TripModel>)
      requires ruleEngine.Valid()
      requires AllRealTaps(taps)
      requires IsKeyOrder(firstOrder, taps) && IsKeyOrder(keyOrder, taps)
      ensures trips == Reconstruct(EngineStep(ruleEngine.tripFareManager.priceRules), taps, keyOrder)
    {
      ghost var step := EngineStep(ruleEngine.tripFareManager.priceRules);
      var stream := SortedStream(taps, firstOrder);
      trips := [];
      for k := 0 to |keyOrder|
        invariant trips == Reconstruct(step, taps, keyOrder[..k])
      {
        var key := keyOrder[k];
        StreamGroupIsSortedGroup(taps, firstOrder, keyOrder, k);
        var group := new ArrayList<Tap>.FromSeq(GroupOf(stream, key));
        var groupTrips := ProcessGroup(group);
        assert groupTrips == TravellerTrips(step, taps, key);
        ReconstructNext(step, taps, keyOrder, k);
        trips := trips + groupTrips;
      }
      assert keyOrder[..|keyOrder|] == keyOrder;
    }

    /** Pads one sorted group and feeds every (previous, current) pair to the engine. */
    method ProcessGroup(group: ArrayList<Tap>) returns (trips: seq<TripModel>)
      requires ruleEngine.Valid()
      requires AllTimedIfReal(group.items)
      modifies group
      ensures group.items == Padded(old(group.items))
      ensures trips == GroupTrips(EngineStep(ruleEngine.tripFareManager.priceRules), old(group.items))
    {
      ghost var rules := ruleEngine.tripFareManager.priceRules;
      ghost var step := EngineStep(rules);
      var tripList := new ArrayList<TripModel>();
      var previousTap := AddHeadAndTail(group);
      ghost var padded := group.items;
      assert AllTimedIfReal(padded);
      for i := 0 to |group.items|
        invariant group.items == padded
        invariant ruleEngine.tripFareManager.priceRules == rules
        invariant TimedIfReal(previousTap)
        invariant previousTap == if i == 0 then GroupHeadTap else padded[i - 1]
        invariant tripList.items == ScanTrips(step, GroupHeadTap, padded[..i])
      {
        var currentTap := group.items[i];
        assert TimedIfReal(currentTap) by {
          assert currentTap in padded;
        }
        ruleEngine.ProcessBackToBackTaps(previousTap, currentTap, tripList);
        assert step(previousTap, currentTap) == Transition(rules, previousTap, currentTap);
        previousTap := currentTap;
        assert padded[..i + 1][..i] == padded[..i];
      }
      assert padded[..|padded|] == padded;
      trips := tripList.items;
    }
  }
}
