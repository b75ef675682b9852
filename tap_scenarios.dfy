/**
 * The scenarios the processor's test suite pins down, stated on the whole
 * batch: the taps go through grouping, sorting, padding and the scan, priced
 * with the seed fare table. Times are seconds; 3661 is 01:01:01 of the test day.
 */
module TapScenarios {
  import opened Wrappers
  import opened TapModels
  import opened TripModels
  import opened FareStore
  import opened FareLoader
  import opened RuleEngine
  import opened TapGrouping
  import opened TapProcessing

  function Passenger(pan: string, id: int, time: int, tapType: TapType, stop: string): Tap {
    Tap(id, Some(time), tapType, stop, "Company1", "Bus1", pan)
  }

  const Key1: GroupKey := GroupKey("Company1", "Bus1", "PAN1")
  const Key2: GroupKey := GroupKey("Company1", "Bus1", "PAN2")

  /** The trips the processor makes of a batch, travellers in `keyOrder`, priced from the seed table. */
  function BatchTrips(taps: seq<Tap>, keyOrder: seq<GroupKey>): seq<TripModel>
    requires AllRealTaps(taps)
  {
    Reconstruct(EngineStep(DefaultFares()), taps, keyOrder)
  }

  /** ON then OFF at one stop a second later: one CANCELLED trip of one second at fare zero. */
  lemma CancelledAtSameStop()
    ensures var taps := [Passenger("PAN1", 1, 3661, On, Stop1), Passenger("PAN1", 2, 3662, Off, Stop1)];
      AllRealTaps(taps) &&
      BatchTrips(taps, [Key1]) ==
        [TripModel(Some(3661), Some(3662), 1, Stop1, Stop1, Some(0), "Company1", "Bus1", "PAN1", Cancelled)]
  {
    var on, off := Passenger("PAN1", 1, 3661, On, Stop1), Passenger("PAN1", 2, 3662, Off, Stop1);
    OneTravellerInOrder(on, off);
    assert Lookup(DefaultFares(), Stop1, Stop1) == Some(0);
    assert Transition(DefaultFares(), on, off) ==
      [TripModel(Some(3661), Some(3662), 1, Stop1, Stop1, Some(0), "Company1", "Bus1", "PAN1", Cancelled)];
  }

  /** A lone ON closed by the end of the batch: INCOMPLETE to UNKNOWN, no finish time, the maximum fare. */
  lemma DanglingOnIsIncomplete()
    ensures var taps := [Passenger("PAN1", 1, 3661, On, Stop1)];
      AllRealTaps(taps) &&
      BatchTrips(taps, [Key1]) ==
        [TripModel(Some(3661), None, 0, Stop1, Unknown, Some(730), "Company1", "Bus1", "PAN1", Incomplete)]
  {
    var on := Passenger("PAN1", 1, 3661, On, Stop1);
    LoneTap(on);
    IncompleteFrom(1, 3661, Stop1, 730);
  }

  /** ON at Stop1, then ON at Stop2 two hours later: two INCOMPLETE trips, each at its origin's maximum fare. */
  lemma OnAfterOnClosesFirstTrip()
    ensures var taps := [Passenger("PAN1", 1, 3661, On, Stop1), Passenger("PAN1", 2, 10861, On, Stop2)];
      AllRealTaps(taps) &&
      BatchTrips(taps, [Key1]) ==
        [TripModel(Some(3661), None, 0, Stop1, Unknown, Some(730), "Company1", "Bus1", "PAN1", Incomplete),
         TripModel(Some(10861), None, 0, Stop2, Unknown, Some(550), "Company1", "Bus1", "PAN1", Incomplete)]
  {
    var first, second := Passenger("PAN1", 1, 3661, On, Stop1), Passenger("PAN1", 2, 10861, On, Stop2);
    OneTravellerInOrder(first, second);
    assert Lookup(DefaultFares(), Stop1, Unknown) == Some(730);
    assert Transition(DefaultFares(), first, second) ==
      [TripModel(Some(3661), None, 0, Stop1, Unknown, Some(730), "Company1", "Bus1", "PAN1", Incomplete)];
    IncompleteFrom(2, 10861, Stop2, 550);
  }

  /** ON at Stop1, OFF at Stop2 a second later: one COMPLETED trip at the Stop1-to-Stop2 fare. */
  lemma CompletedBetweenStops()
    ensures var taps := [Passenger("PAN1", 1, 3661, On, Stop1), Passenger("PAN1", 2, 3662, Off, Stop2)];
      AllRealTaps(taps) &&
      BatchTrips(taps, [Key1]) ==
        [TripModel(Some(3661), Some(3662), 1, Stop1, Stop2, Some(325), "Company1", "Bus1", "PAN1", Completed)]
  {
    OneTravellerInOrder(Passenger("PAN1", 1, 3661, On, Stop1), Passenger("PAN1", 2, 3662, Off, Stop2));
    CompletedPair("PAN1", 1, 2);
  }

  /** The batch's own order does not matter: the OFF listed before its ON gives the same COMPLETED trip. */
  lemma CompletedFromUnsortedBatch()
    ensures var taps := [Passenger("PAN1", 2, 3662, Off, Stop2), Passenger("PAN1", 1, 3661, On, Stop1)];
      AllRealTaps(taps) &&
      BatchTrips(taps, [Key1]) ==
        [TripModel(Some(3661), Some(3662), 1, Stop1, Stop2, Some(325), "Company1", "Bus1", "PAN1", Completed)]
  {
    OneTravellerOutOfOrder(Passenger("PAN1", 1, 3661, On, Stop1), Passenger("PAN1", 2, 3662, Off, Stop2));
    CompletedPair("PAN1", 1, 2);
  }

  /** With no fare for the route the trip is still made, its charge absent. */
  lemma MissingFareStillMakesTrip()
    ensures var taps := [Passenger("PAN1", 1, 3661, On, Stop1), Passenger("PAN1", 2, 3662, Off, "StopX")];
      AllRealTaps(taps) &&
      BatchTrips(taps, [Key1]) ==
        [TripModel(Some(3661), Some(3662), 1, Stop1, "StopX", None, "Company1", "Bus1", "PAN1", Completed)]
  {
    var on, off := Passenger("PAN1", 1, 3661, On, Stop1), Passenger("PAN1", 2, 3662, Off, "StopX");
    OneTravellerInOrder(on, off);
    assert Lookup(DefaultFares(), Stop1, "StopX") == None;
    assert Transition(DefaultFares(), on, off) ==
      [TripModel(Some(3661), Some(3662), 1, Stop1, "StopX", None, "Company1", "Bus1", "PAN1", Completed)];
  }

  /** A traveller's ON with nothing after it: the INCOMPLETE trip from its stop at the given fare. */
  lemma IncompleteFrom(id: int, time: int, stop: string, fare: Price)
    requires Lookup(DefaultFares(), stop, Unknown) == Some(fare)
    ensures Transition(DefaultFares(), Passenger("PAN1", id, time, On, stop), GroupTailTap) ==
      [TripModel(Some(time), None, 0, stop, Unknown, Some(fare), "Company1", "Bus1", "PAN1", Incomplete)]
  {
  }

  /** A batch of one tap: what that tap opens against the end of the group. */
  lemma LoneTap(tap: Tap)
    requires IsRealTap(tap)
    ensures AllRealTaps([tap])
    ensures Reconstruct(EngineStep(DefaultFares()), [tap], [KeyOf(tap)]) ==
      if tap.tapType == On then Transition(DefaultFares(), tap, GroupTailTap) else []
  {
    var taps := [tap];
    var step := EngineStep(DefaultFares());
    BatchOfOneKey(taps, KeyOf(tap));
    GroupOfOneTraveller(taps, KeyOf(tap), KeyOf(tap));
    assert SortByTime(taps) == taps by {
      assert taps[1..] == [];
    }
    EngineStepOpensOnOnlyAndKeepsTraveller(DefaultFares());
    GroupTripsAreOnTrips(step, taps);
    assert taps[1..] == [];
    assert OnTrips(step, taps) == step(tap, GroupTailTap) + OnTrips(step, []);
  }

  /** One traveller's two taps, listed in time order: what the first opens against the second, then the second against the end. */
  lemma OneTravellerInOrder(first: Tap, second: Tap)
    requires IsRealTap(first) && IsRealTap(second) && KeyOf(first) == KeyOf(second)
    requires TimeOf(first) <= TimeOf(second)
    ensures AllRealTaps([first, second])
    ensures Reconstruct(EngineStep(DefaultFares()), [first, second], [KeyOf(first)]) ==
      (if first.tapType == On then Transition(DefaultFares(), first, second) else []) +
      (if second.tapType == On then Transition(DefaultFares(), second, GroupTailTap) else [])
  {
    OneTravellerTwoTaps([first, second], KeyOf(first));
  }

  /** One traveller's two taps, the later listed first: the same trips as in time order. */
  lemma OneTravellerOutOfOrder(first: Tap, second: Tap)
    requires IsRealTap(first) && IsRealTap(second) && KeyOf(first) == KeyOf(second)
    requires TimeOf(first) < TimeOf(second)
    ensures AllRealTaps([second, first])
    ensures Reconstruct(EngineStep(DefaultFares()), [second, first], [KeyOf(first)]) ==
      (if first.tapType == On then Transition(DefaultFares(), first, second) else []) +
      (if second.tapType == On then Transition(DefaultFares(), second, GroupTailTap) else [])
  {
    OneTravellerTwoTaps([second, first], KeyOf(first));
  }

  function CompletedTrip(pan: string): TripModel {
    TripModel(Some(3661), Some(3662), 1, Stop1, Stop2, Some(325), "Company1", "Bus1", pan, Completed)
  }

  /** The taps of the two-passenger test: both ON at stop 1, then both OFF at stop 2 a second later. */
  function TwoPassengers(): seq<Tap> {
    [Passenger("PAN1", 1, 3661, On, Stop1), Passenger("PAN2", 2, 3661, On, Stop1),
     Passenger("PAN1", 3, 3662, Off, Stop2), Passenger("PAN2", 4, 3662, Off, Stop2)]
  }

  /**
   * The two-passenger test: each traveller makes one COMPLETED trip, never
   * linked to the other's taps. With the grouping map yielding PAN2 first,
   * the list is PAN2's trip then PAN1's.
   */
  lemma TwoTravellersCompleteSeparately()
    ensures AllRealTaps(TwoPassengers())
    ensures BatchTrips(TwoPassengers(), [Key2, Key1]) == [CompletedTrip("PAN2"), CompletedTrip("PAN1")]
  {
    var on1, on2 := Passenger("PAN1", 1, 3661, On, Stop1), Passenger("PAN2", 2, 3661, On, Stop1);
    var off1, off2 := Passenger("PAN1", 3, 3662, Off, Stop2), Passenger("PAN2", 4, 3662, Off, Stop2);
    CompletedPair("PAN1", 1, 3);
    CompletedPair("PAN2", 2, 4);
    InterleavedTravellers(on1, on2, off1, off2);
  }

  /** The two-passenger test in whatever order the grouping map yields the travellers: the same two trips. */
  lemma TwoTravellersInAnyMapOrder(keyOrder: seq<GroupKey>)
    requires AllRealTaps(TwoPassengers()) && IsKeyOrder(keyOrder, TwoPassengers())
    ensures multiset(BatchTrips(TwoPassengers(), keyOrder)) == multiset{CompletedTrip("PAN1"), CompletedTrip("PAN2")}
  {
    var on1, on2 := Passenger("PAN1", 1, 3661, On, Stop1), Passenger("PAN2", 2, 3661, On, Stop1);
    var off1, off2 := Passenger("PAN1", 3, 3662, Off, Stop2), Passenger("PAN2", 4, 3662, Off, Stop2);
    CompletedPair("PAN1", 1, 3);
    CompletedPair("PAN2", 2, 4);
    InterleavedInAnyOrder(on1, on2, off1, off2, keyOrder);
  }

  /** A traveller's ON at stop 1 and OFF at stop 2 a second later: the COMPLETED trip at 3.25. */
  lemma CompletedPair(pan: string, onId: int, offId: int)
    ensures Transition(DefaultFares(), Passenger(pan, onId, 3661, On, Stop1), Passenger(pan, offId, 3662, Off, Stop2)) ==
      [CompletedTrip(pan)]
  {
    assert Lookup(DefaultFares(), Stop1, Stop2) == Some(325);
  }

  /**
   * Two travellers, each with one ON then one later OFF, interleaved as
   * ON, ON, OFF, OFF: each traveller's trips are what its own pair yields,
   * and the batch lists the travellers in the order of the grouping map.
   */
  lemma InterleavedTravellers(on1: Tap, on2: Tap, off1: Tap, off2: Tap)
    requires IsRealTap(on1) && IsRealTap(on2) && IsRealTap(off1) && IsRealTap(off2)
    requires on1.tapType == On && on2.tapType == On && off1.tapType == Off && off2.tapType == Off
    requires KeyOf(on1) == KeyOf(off1) && KeyOf(on2) == KeyOf(off2) && KeyOf(on1) != KeyOf(on2)
    requires TimeOf(on1) <= TimeOf(off1) && TimeOf(on2) <= TimeOf(off2)
    ensures AllRealTaps([on1, on2, off1, off2])
    ensures Reconstruct(EngineStep(DefaultFares()), [on1, on2, off1, off2], [KeyOf(on2), KeyOf(on1)]) ==
      Transition(DefaultFares(), on2, off2) + Transition(DefaultFares(), on1, off1)
  {
    InterleavedPerTraveller(on1, on2, off1, off2);
    TwoKeyBatch([on1, on2, off1, off2], KeyOf(on2), KeyOf(on1),
      Transition(DefaultFares(), on2, off2), Transition(DefaultFares(), on1, off1));
  }

  /** Whatever order the grouping map yields the two travellers in, the batch makes the same trips. */
  lemma InterleavedInAnyOrder(on1: Tap, on2: Tap, off1: Tap, off2: Tap, keyOrder: seq<GroupKey>)
    requires IsRealTap(on1) && IsRealTap(on2) && IsRealTap(off1) && IsRealTap(off2)
    requires on1.tapType == On && on2.tapType == On && off1.tapType == Off && off2.tapType == Off
    requires KeyOf(on1) == KeyOf(off1) && KeyOf(on2) == KeyOf(off2) && KeyOf(on1) != KeyOf(on2)
    requires TimeOf(on1) <= TimeOf(off1) && TimeOf(on2) <= TimeOf(off2)
    requires AllRealTaps([on1, on2, off1, off2]) && IsKeyOrder(keyOrder, [on1, on2, off1, off2])
    ensures multiset(Reconstruct(EngineStep(DefaultFares()), [on1, on2, off1, off2], keyOrder)) ==
      multiset(Transition(DefaultFares(), on1, off1) + Transition(DefaultFares(), on2, off2))
  {
    InterleavedTravellers(on1, on2, off1, off2);
    TwoTravellersInAnyOrder([on1, on2, off1, off2], on1, on2, keyOrder);
  }

  /** A batch of exactly two travellers yields the same trips whichever of them the grouping map lists first. */
  lemma TwoTravellersInAnyOrder(taps: seq<Tap>, a: Tap, b: Tap, keyOrder: seq<GroupKey>)
    requires AllRealTaps(taps) && a in taps && b in taps && KeyOf(a) != KeyOf(b)
    requires forall t | t in taps :: KeyOf(t) == KeyOf(a) || KeyOf(t) == KeyOf(b)
    requires IsKeyOrder(keyOrder, taps)
    ensures multiset(Reconstruct(EngineStep(DefaultFares()), taps, keyOrder)) ==
      multiset(Reconstruct(EngineStep(DefaultFares()), taps, [KeyOf(b), KeyOf(a)]))
  {
    assert IsKeyOrder([KeyOf(b), KeyOf(a)], taps);
    KeyOrderIrrelevant(EngineStep(DefaultFares()), taps, [KeyOf(b), KeyOf(a)], keyOrder);
  }

  /** In the interleaved batch each traveller's trips are those of its own ON and OFF. */
  lemma InterleavedPerTraveller(on1: Tap, on2: Tap, off1: Tap, off2: Tap)
    requires IsRealTap(on1) && IsRealTap(on2) && IsRealTap(off1) && IsRealTap(off2)
    requires on1.tapType == On && on2.tapType == On && off1.tapType == Off && off2.tapType == Off
    requires KeyOf(on1) == KeyOf(off1) && KeyOf(on2) == KeyOf(off2) && KeyOf(on1) != KeyOf(on2)
    requires TimeOf(on1) <= TimeOf(off1) && TimeOf(on2) <= TimeOf(off2)
    ensures AllRealTaps([on1, on2, off1, off2])
    ensures TravellerTrips(EngineStep(DefaultFares()), [on1, on2, off1, off2], KeyOf(on1)) ==
      Transition(DefaultFares(), on1, off1)
    ensures TravellerTrips(EngineStep(DefaultFares()), [on1, on2, off1, off2], KeyOf(on2)) ==
      Transition(DefaultFares(), on2, off2)
  {
    var taps := [on1, on2, off1, off2];
    assert AllRealTaps(taps) by {
      assert forall t | t in taps :: t == on1 || t == on2 || t == off1 || t == off2;
    }
    GroupOfFour(on1, on2, off1, off2, KeyOf(on1));
    assert GroupOf(taps, KeyOf(on1)) == [on1, off1];
    GroupOfFour(on1, on2, off1, off2, KeyOf(on2));
    assert GroupOf(taps, KeyOf(on2)) == [on2, off2];
    PairTrips(taps, on1, off1, KeyOf(on1));
    PairTrips(taps, on2, off2, KeyOf(on2));
  }

  /** A batch listing two travellers yields the first's trips, then the second's. */
  lemma TwoKeyBatch(taps: seq<Tap>, first: GroupKey, second: GroupKey, trips1: seq<TripModel>, trips2: seq<TripModel>)
    requires AllRealTaps(taps)
    requires TravellerTrips(EngineStep(DefaultFares()), taps, first) == trips1
    requires TravellerTrips(EngineStep(DefaultFares()), taps, second) == trips2
    ensures Reconstruct(EngineStep(DefaultFares()), taps, [first, second]) == trips1 + trips2
  {
    var perTraveller := PerTraveller(EngineStep(DefaultFares()), taps);
    assert [first, second][..1] == [first];
    assert [first][..0] == [];
    assert Concat(perTraveller, [first, second]) == Concat(perTraveller, [first]) + perTraveller(second);
    assert Concat(perTraveller, [first]) == perTraveller(first);
  }

  /** Grouping four taps keeps the traveller's, in batch order. */
  lemma GroupOfFour(a: Tap, b: Tap, c: Tap, d: Tap, key: GroupKey)
    ensures GroupOf([a, b, c, d], key) ==
      (if KeyOf(a) == key then [a] else []) + (if KeyOf(b) == key then [b] else []) +
      (if KeyOf(c) == key then [c] else []) + (if KeyOf(d) == key then [d] else [])
  {
    assert [a, b, c, d][..3] == [a, b, c];
    assert [a, b, c][..2] == [a, b];
    assert [a, b][..1] == [a];
    assert [a][..0] == [];
    assert GroupOf([a], key) == if KeyOf(a) == key then [a] else [];
    assert GroupOf([a, b], key) == GroupOf([a], key) + (if KeyOf(b) == key then [b] else []);
    assert GroupOf([a, b, c], key) == GroupOf([a, b], key) + (if KeyOf(c) == key then [c] else []);
  }

  /** A traveller whose taps are an ON and a later OFF makes what the engine makes of that pair. */
  lemma PairTrips(taps: seq<Tap>, on: Tap, off: Tap, key: GroupKey)
    requires AllRealTaps(taps) && GroupOf(taps, key) == [on, off]
    requires IsRealTap(on) && IsRealTap(off)
    requires on.tapType == On && off.tapType == Off && TimeOf(on) <= TimeOf(off)
    ensures TravellerTrips(EngineStep(DefaultFares()), taps, key) == Transition(DefaultFares(), on, off)
  {
    GroupOfTwoTaps(taps, key);
  }

  /** The trips of a one-traveller batch are that traveller's trips. */
  lemma BatchOfOneKey(taps: seq<Tap>, key: GroupKey)
    requires AllRealTaps(taps)
    ensures Reconstruct(EngineStep(DefaultFares()), taps, [key]) == TravellerTrips(EngineStep(DefaultFares()), taps, key)
  {
    var perTraveller := PerTraveller(EngineStep(DefaultFares()), taps);
    assert [key][..0] == [] && [key][0] == key;
    assert Concat(perTraveller, [key]) == Concat(perTraveller, []) + perTraveller(key);
  }

  /** A batch of two taps of one traveller: what its sorted group yields. */
  lemma OneTravellerTwoTaps(taps: seq<Tap>, key: GroupKey)
    requires |taps| == 2 && AllRealTaps(taps)
    requires KeyOf(taps[0]) == key && KeyOf(taps[1]) == key
    ensures var sorted := SortByTime(taps);
      Reconstruct(EngineStep(DefaultFares()), taps, [key]) ==
        (if sorted[0].tapType == On then Transition(DefaultFares(), sorted[0], sorted[1]) else []) +
        (if sorted[1].tapType == On then Transition(DefaultFares(), sorted[1], GroupTailTap) else [])
    ensures SortByTime(taps) == if TimeOf(taps[0]) <= TimeOf(taps[1]) then taps else [taps[1], taps[0]]
  {
    assert taps == [taps[0], taps[1]];
    BatchOfOneKey(taps, key);
    GroupOfOneTraveller(taps, key, key);
    GroupOfTwoTaps(taps, key);
  }

  /** A traveller with two taps in the batch: its trips are what its sorted pair yields. */
  lemma GroupOfTwoTaps(taps: seq<Tap>, key: GroupKey)
    requires AllRealTaps(taps) && |GroupOf(taps, key)| == 2
    ensures var group := GroupOf(taps, key);
      group[0].dateTimeUtc.Some? && group[1].dateTimeUtc.Some?
    ensures var group := GroupOf(taps, key);
      var sorted := SortByTime(group);
      && sorted == (if TimeOf(group[0]) <= TimeOf(group[1]) then group else [group[1], group[0]])
      && TravellerTrips(EngineStep(DefaultFares()), taps, key) ==
        (if sorted[0].tapType == On then Transition(DefaultFares(), sorted[0], sorted[1]) else []) +
        (if sorted[1].tapType == On then Transition(DefaultFares(), sorted[1], GroupTailTap) else [])
  {
    var group := GroupOf(taps, key);
    assert group[0] in group && group[1] in group;
    assert group == [group[0], group[1]];
    SortTwo(group[0], group[1]);
    var sorted := SortByTime(group);
    EngineStepOpensOnOnlyAndKeepsTraveller(DefaultFares());
    GroupTripsAreOnTrips(EngineStep(DefaultFares()), sorted);
    TwoTapTrips(sorted);
  }

  /** Sorting two timed taps puts the earlier first, and keeps their order on a tie. */
  lemma SortTwo(a: Tap, b: Tap)
    requires a.dateTimeUtc.Some? && b.dateTimeUtc.Some?
    ensures AllTimed([a, b])
    ensures SortByTime([a, b]) == if TimeOf(a) <= TimeOf(b) then [a, b] else [b, a]
  {
    assert [a, b][1..] == [b];
    assert [b][1..] == [];
    assert SortByTime([b]) == [b];
  }

  /** A two-tap group yields what its first tap opens against the second, then what the second opens against the tail. */
  lemma TwoTapTrips(group: seq<Tap>)
    requires |group| == 2
    ensures OnTrips(EngineStep(DefaultFares()), group) ==
      (if group[0].tapType == On then Transition(DefaultFares(), group[0], group[1]) else []) +
      (if group[1].tapType == On then Transition(DefaultFares(), group[1], GroupTailTap) else [])
  {
    var step := EngineStep(DefaultFares());
    assert group[1..] == [group[1]];
    assert group[1..][1..] == [];
    assert OnTrips(step, [group[1]]) ==
      (if group[1].tapType == On then step(group[1], GroupTailTap) else []) + OnTrips(step, []);
  }
}
