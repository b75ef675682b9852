# trip-matcher: trip reconstruction, modelled in Dafny

trip-matcher turns a flat batch of validator taps into priced trips. This
project models the core of that pipeline:

- **Fare table** (`FareStore`, `trip_fare_manager.dfy`). `TripFareManager` is a
  directed map from an ordered `Route(source, destination)` to a price. It is a
  class whose `priceRules` map `AddPriceRule` reassigns. `GetPrice` returns
  `None` for a route that was never added, which is the source's `null`.
- **Seed data** (`FareLoader`, `default_trip_fare_loader.dfy`). `LoadDatastore`
  makes the twelve `AddPriceRule` calls of the default loader, in the same order.
  Lemmas prove the three facts the fare tests rely on: both directions cost the
  same, a self-loop is free, and the fare to UNKNOWN is the largest fare out of
  that stop.
- **Back-to-back tap rule engine** (`RuleEngine`, `rule_engine.dfy`). One
  (previous tap, current tap) pair appends zero or one trip.
  - The source keeps its rules in a hash map from predicate to handler, and it
    runs every handler whose predicate holds. Here the rules form the `Rule`
    enumeration, `Matches` holds the predicates and `HandlerOutput` holds the
    handlers' effects.
  - `ProcessBackToBackTaps` loops over the handlers in the map's order, which
    the source leaves unspecified. A constructor parameter fixes that order.
  - `Transition` is the same engine written as one explicit match on (previous
    kind, current kind, same stop). `FireInAnyOrder` proves that every handler
    order appends exactly `Transition`.
  - The two copies of the engine differ only in the immediate-double-tap
    predicate. They are the `RuleEngineVariant` and `ProcessorVariant` values of
    `Variant`. `VariantsAgree` proves that they append the same trips.
- **Grouping and padding** (`TapGrouping`, `tap_grouping.dfy`). Taps are grouped
  by `GroupKey(companyId, busId, pan)`, which has structural equality. Each group
  is then sorted by timestamp with a stable insertion sort, proved sorted,
  a permutation and stable. `AddHeadAndTail` puts a GROUP_HEAD at index 0 and a
  GROUP_TAIL with a null timestamp at the end.
- **Orchestrator** (`TapProcessing`, `tap_processor.dfy`). `TapProcessor.TripMaker`
  does the following, in order:
  1. groups the taps and sorts each group;
  2. flattens the sorted groups and groups them again;
  3. pads each group and scans it with the engine;
  4. concatenates the trips of all groups.

  The scan reproduces the source's first pair, (head, head). Lemmas prove the
  following:
  - a group yields one trip per ON tap, in order;
  - a trailing ON ends with an INCOMPLETE trip whose finish time is null;
  - leading OFF taps and repeated OFF taps add nothing;
  - travellers never mix;
  - durations are never negative;
  - the order in which the grouping map yields travellers changes only the order
    of the trips.
- **Scenarios** (`TapScenarios`, `tap_scenarios.dfy`). The cases of the
  processor's tests, stated on the whole batch (grouping, sorting, padding and
  the scan) and priced from the seed fare table.

Representation choices:

- Timestamps are whole seconds, held in an `Option<int>`. `None` is the null
  timestamp of the sentinel taps.
- Prices are integer cents. `chargeAmount` is an `Option<Price>`. `None` is an
  absent fare, which the source still turns into a trip and writes as the text
  "null".
- The `ArrayList` class of `Lists` stands for the Java lists that the processor
  and the engine change in place.

## Model

| member | source | states |
|---|---|---|
| FareStore.TripFareManager.constructor | src/main/java/dev/amir/trip_matcher/datastore/TripFareManager.java:11 | a new fare table holds no route |
| FareStore.TripFareManager.AddPriceRule | src/main/java/dev/amir/trip_matcher/datastore/TripFareManager.java:13-16 | the table afterwards is the old table with exactly the ordered route (source, destination) set to the price |
| FareStore.TripFareManager.GetPrice | src/main/java/dev/amir/trip_matcher/datastore/TripFareManager.java:18-21 | returns the stored price exactly when that ordered route is present and None otherwise; it changes nothing |
| FareStore.PriceAfterAdd | src/main/java/dev/amir/trip_matcher/datastore/TripFareManager.java:13-21 | after adding (a, b) at p, getPrice(a, b) is p, and every other ordered route, (b, a) included, keeps its old price or absence |
| FareStore.LastPriceWins | src/main/java/dev/amir/trip_matcher/datastore/TripFareManager.java:15 | adding one route twice leaves the table as if only the second price had been added |
| FareStore.MissingRouteIsAbsent | src/main/java/dev/amir/trip_matcher/datastore/TripFareManager.java:18-21 | a route never added is looked up as absent, not as an error or a zero fare |
| FareLoader.LoadDatastore | src/main/java/dev/amir/trip_matcher/datastore/DefaultTripFareLoader.java:11-30 | the manager's table becomes its old table overridden by the twelve seed routes |
| FareLoader.DefaultFaresRoutes | src/main/java/dev/amir/trip_matcher/datastore/DefaultTripFareLoader.java:15-29 | the seed holds a route exactly when it starts at Stop1..Stop3 and ends at Stop1..Stop3 or UNKNOWN |
| FareLoader.LoadedFaresSymmetric | src/main/java/dev/amir/trip_matcher/datastore/DefaultTripFareLoader.java:15-21 | after loading, the fare from a to b equals the fare from b to a for all seeded stops |
| FareLoader.LoadedSelfLoopsFree | src/main/java/dev/amir/trip_matcher/datastore/DefaultTripFareLoader.java:23-25 | after loading, the fare from a seeded stop to itself is zero |
| FareLoader.LoadedUnknownIsMaxFare | src/main/java/dev/amir/trip_matcher/datastore/DefaultTripFareLoader.java:15-29 | after loading, the fare from a seeded stop to UNKNOWN is present, no other seeded stop costs more from it, and one of them costs exactly that |
| FareLoader.FreshLoadMissesOtherRoutes | src/main/java/dev/amir/trip_matcher/datastore/DefaultTripFareLoader.java:11-30 | on a fresh manager every route outside the seed, (Stop1, StopX) among them, stays absent after loading |
| RuleEngine.Matches | src/main/java/dev/amir/trip_matcher/ruleengine/service/BackToBackTapRuleEngine.java:58-70 | a rule matches only a pair of the tap kinds it names; every predicate but the two ON-to-OFF ones and the immediate-double-tap one is exactly that kind test, and of the two ON-to-OFF rules the same-stop one matches exactly when the stops are equal and the other exactly when they differ |
| RuleEngine.HandlerOutput | src/main/java/dev/amir/trip_matcher/ruleengine/service/BackToBackTapRuleEngine.java:84-150 | a handler appends at most one trip, appends one exactly for ON-to-OFF (same or other stop), ON-to-tail and ON-to-ON, and that trip starts at the previous tap's time and stop, carries its company, bus and pan, and is priced by the lookup of its route |
| RuleEngine.Fire | src/main/java/dev/amir/trip_matcher/ruleengine/service/BackToBackTapRuleEngine.java:44-46 | running the matching handlers of an order appends at most one trip per rule, each opened from the previous tap and priced by lookup, and nothing when no rule matches |
| RuleEngine.Transition | src/main/java/dev/amir/trip_matcher/ruleengine/service/BackToBackTapRuleEngine.java:57-70 | a pair appends at most one trip, and appends one exactly when the previous tap is ON and the current tap is not a group head |
| RuleEngine.TransitionTable | src/main/java/dev/amir/trip_matcher/ruleengine/service/BackToBackTapRuleEngine.java:81-151 | every emitted trip starts at the previous tap's time and stop and carries its company, bus and pan; it ends at the OFF stop or UNKNOWN, is priced by a lookup of that route (absent stays absent), has a null finish after ON-to-ON and otherwise the current tap's timestamp (null for the tail), is CANCELLED or COMPLETED exactly for ON-to-OFF at the same or another stop and INCOMPLETE otherwise; its duration is the OFF tap's timestamp minus the ON tap's for ON-to-OFF and 0 otherwise |
| RuleEngine.EmitterIsUnique | src/main/java/dev/amir/trip_matcher/ruleengine/service/BackToBackTapRuleEngine.java:58-70 | at most one rule both matches and appends, and what it appends is the explicit match's trip |
| RuleEngine.TransitionHasEmitter | src/main/java/dev/amir/trip_matcher/ruleengine/service/BackToBackTapRuleEngine.java:59-64 | when the explicit match emits a trip, some matching rule's handler emits it |
| RuleEngine.FireInAnyOrder | src/main/java/dev/amir/trip_matcher/ruleengine/service/BackToBackTapRuleEngine.java:44-46 | running every matching handler, in any order that lists each rule once, appends exactly what the explicit match appends |
| RuleEngine.BackToBackTapRuleEngine.ProcessBackToBackTaps | src/main/java/dev/amir/trip_matcher/ruleengine/service/BackToBackTapRuleEngine.java:41-47 | the trip list afterwards is the old list with the explicit match's trips (zero or one) appended; earlier entries are untouched |
| RuleEngine.BackToBackTapRuleEngine.Handle | src/main/java/dev/amir/trip_matcher/ruleengine/service/BackToBackTapRuleEngine.java:76-165 | each handler appends its one trip (ON-to-OFF same stop, ON-to-OFF other stop, ON-to-tail, ON-to-ON) or leaves the list as it was (head, immediate double tap, OFF-to-ON, OFF-to-OFF) |
| RuleEngine.BackToBackTapRuleEngine.constructor | src/main/java/dev/amir/trip_matcher/ruleengine/service/BackToBackTapRuleEngine.java:35-38 | the engine keeps the fare manager and a handler order holding every rule once |
| RuleEngine.VariantsAgree | src/main/java/dev/amir/trip_matcher/procesor/service/BackToBackTapRuleEngine.java:57-59 | for every pair and every handler order, the unused copy of the engine appends the same trips as the copy the processor uses |
| RuleEngine.VariantsDifferOnlyInImmediateTaps | src/main/java/dev/amir/trip_matcher/procesor/service/BackToBackTapRuleEngine.java:50-62 | every predicate except the immediate-double-tap one is the same in both copies; that one needs the same stop in one copy and different stops in the other, and its handler appends nothing |
| RuleEngine.ImmediateTapsPredicatesDiffer | src/main/java/dev/amir/trip_matcher/ruleengine/service/BackToBackTapRuleEngine.java:65-67 | some pair matches the immediate-double-tap predicate of the used copy and not that of the other |
| RuleEngine.ImmediateDoubleTapAppendsOneTrip | src/main/java/dev/amir/trip_matcher/ruleengine/service/BackToBackTapRuleEngine.java:64-67 | a quick ON-ON at one stop matches two rules and still appends exactly one INCOMPLETE trip with a null finish |
| TapGrouping.SameGroupIffSameFields | src/main/java/dev/amir/trip_matcher/procesor/service/TapProcessor.java:79-87 | two taps share a group key exactly when companyId, busId and pan are all equal |
| TapGrouping.GroupOf | src/main/java/dev/amir/trip_matcher/procesor/service/TapProcessor.java:31-33 | a traveller's group holds exactly the input taps with that key |
| TapGrouping.GroupOfCounts | src/main/java/dev/amir/trip_matcher/procesor/service/TapProcessor.java:31-33 | a traveller's group holds each of that traveller's taps as many times as the batch does, and no tap of another traveller |
| TapGrouping.GroupOfAtTime | src/main/java/dev/amir/trip_matcher/procesor/service/TapProcessor.java:31-33 | the grouping keeps encounter order: a traveller's taps stamped with one time appear in its group in their batch order |
| TapGrouping.SortByTime | src/main/java/dev/amir/trip_matcher/procesor/service/TapProcessor.java:37 | the sorted group is in ascending timestamp order and is a permutation of the group |
| TapGrouping.SortIsStable | src/main/java/dev/amir/trip_matcher/procesor/service/TapProcessor.java:37 | taps with the same timestamp keep their input order |
| TapGrouping.AddHeadAndTail | src/main/java/dev/amir/trip_matcher/procesor/service/TapProcessor.java:55-64 | the group grows by two: GROUP_HEAD at index 0, GROUP_TAIL with a null timestamp last, the real taps in their order between; the head is returned |
| TapProcessing.SortedGroupKeepsBatchOrder | src/main/java/dev/amir/trip_matcher/procesor/service/TapProcessor.java:31-37 | in a traveller's sorted group, the taps with equal timestamps are in the order they have in the input batch |
| TapProcessing.SortedStream | src/main/java/dev/amir/trip_matcher/procesor/service/TapProcessor.java:29-37 | the flattened stream of sorted groups holds exactly the batch's taps whose traveller the map lists, and nothing else |
| TapProcessing.EngineStepOpensOnOnlyAndKeepsTraveller | src/main/java/dev/amir/trip_matcher/ruleengine/service/BackToBackTapRuleEngine.java:91-148 | the engine emits nothing unless the previous tap is ON, and an emitted trip carries the previous tap's key |
| TapProcessing.GroupTripsAreOnTrips | src/main/java/dev/amir/trip_matcher/procesor/service/TapProcessor.java:42-50 | the padded scan, starting with the pair (head, head), appends for each ON tap, in order, what that tap opens against the next tap or the tail |
| TapProcessing.GroupTripsFollowOnTaps | src/main/java/dev/amir/trip_matcher/procesor/service/TapProcessor.java:44-49 | a group yields as many trips as it has ON taps, and the k-th trip starts at the k-th ON tap's time and stop with its key |
| TapProcessing.LastOnTapEndsIncomplete | src/main/java/dev/amir/trip_matcher/procesor/service/TapProcessor.java:57 | a group whose last tap is ON ends with an INCOMPLETE trip to UNKNOWN with a null finish, duration 0, started at that tap and priced at its fare to UNKNOWN |
| TapProcessing.LeadingOffAddsNoTrip | src/main/java/dev/amir/trip_matcher/procesor/service/TapProcessor.java:44-48 | an OFF tap at the head of a group changes nothing in the group's trips |
| TapProcessing.OffAfterOffAddsNoTrip | src/main/java/dev/amir/trip_matcher/procesor/service/TapProcessor.java:44-48 | an OFF tap right after an OFF tap changes nothing in the group's trips |
| TapProcessing.OnTripsDurationsNonNegative | src/main/java/dev/amir/trip_matcher/procesor/service/TapProcessor.java:37 | in a group sorted by time no trip has a negative duration |
| TapProcessing.RegroupGivesSortedGroup | src/main/java/dev/amir/trip_matcher/procesor/service/TapProcessor.java:37-40 | grouping the flattened sorted groups again gives back each traveller's sorted group |
| TapProcessing.TravellersAreIsolated | src/main/java/dev/amir/trip_matcher/procesor/service/TapProcessor.java:31-50 | the trips of a traveller in the batch are exactly those built from that traveller's own taps |
| TapProcessing.ReconstructDurationsNonNegative | src/main/java/dev/amir/trip_matcher/procesor/service/TapProcessor.java:37-49 | no trip of the batch has a negative duration |
| TapProcessing.EveryTripOpenedByOnTap | src/main/java/dev/amir/trip_matcher/procesor/service/TapProcessor.java:42-50 | every trip of the batch starts at the time and stop of an ON tap of the batch and carries its key |
| TapProcessing.KeyOrderIrrelevant | src/main/java/dev/amir/trip_matcher/procesor/service/TapProcessor.java:40-50 | any two orders of the grouping map's travellers give the same multiset of trips |
| TapProcessing.TapProcessor.constructor | src/main/java/dev/amir/trip_matcher/procesor/service/TapProcessor.java:23-25 | the processor owns an engine of the used copy over the given fare manager |
| TapProcessing.TapProcessor.TripMaker | src/main/java/dev/amir/trip_matcher/procesor/service/TapProcessor.java:27-52 | the result is each traveller's sorted, padded and scanned group, concatenated in the grouping map's order |
| TapProcessing.TapProcessor.ProcessGroup | src/main/java/dev/amir/trip_matcher/procesor/service/TapProcessor.java:42-50 | the group is padded in place, and the trips are the pairwise scan of the padded group from (head, head) on |
| TapScenarios.CancelledAtSameStop | src/test/java/dev/amir/trip_matcher/procesor/service/TapProcessorTest.java:31-63 | the whole batch (grouped, sorted, padded, scanned, priced from the seed table): ON then OFF at Stop1 one second later gives one CANCELLED trip of 1 second at fare 0 |
| TapScenarios.DanglingOnIsIncomplete | src/test/java/dev/amir/trip_matcher/procesor/service/TapProcessorTest.java:66-96 | the whole batch: a lone ON at Stop1 gives one INCOMPLETE trip to UNKNOWN with a null finish at 7.30 |
| TapScenarios.OnAfterOnClosesFirstTrip | src/test/java/dev/amir/trip_matcher/procesor/service/TapProcessorTest.java:99-146 | the whole batch: ON at Stop1 then ON at Stop2 gives two INCOMPLETE trips at 7.30 and 5.50 |
| TapScenarios.CompletedBetweenStops | src/test/java/dev/amir/trip_matcher/procesor/service/TapProcessorTest.java:148-180 | the whole batch: ON at Stop1 then OFF at Stop2 gives one COMPLETED trip of 1 second at 3.25 |
| TapScenarios.CompletedFromUnsortedBatch | src/main/java/dev/amir/trip_matcher/procesor/service/TapProcessor.java:37 | the whole batch: the OFF listed before its earlier ON is sorted back and gives the same COMPLETED trip at 3.25 |
| TapScenarios.TwoTravellersCompleteSeparately | src/test/java/dev/amir/trip_matcher/procesor/service/TapProcessorTest.java:183-232 | the whole batch: two travellers tapping ON, ON, OFF, OFF each get one COMPLETED trip at 3.25, PAN2's first when the map lists PAN2 first |
| TapScenarios.TwoTravellersInAnyMapOrder | src/main/java/dev/amir/trip_matcher/procesor/service/TapProcessor.java:40-50 | the same two-traveller batch gives the same two trips whatever order the grouping map lists the travellers in |
| TapScenarios.MissingFareStillMakesTrip | src/main/java/dev/amir/trip_matcher/ruleengine/service/BackToBackTapRuleEngine.java:108 | the whole batch: a route missing from the fare table still yields its COMPLETED trip, with an absent charge |

## Left out

- Reading and writing CSV files, the application bootstrap and all logging are left out. They are I/O, as are the parsing helpers for date-times and whitespace.
- `BigDecimal` scale and rendering are not modelled. Prices are integer cents. An absent price stays `None`; the source writes it as the text "null".
- The parallel streams are modelled sequentially.
- The traveller order of the two grouping maps, and the entry order of the engine's handler map, are hash-map iteration orders. They enter as parameters: `firstOrder` and `keyOrder` of `TripMaker`, and the handler order of the engine constructor. Properties across travellers are stated per traveller or over multisets.
- RuleEngine.WithinImmediateWindow: the source tests `compareTo` of two date-times against 10. That yields an ordering value, not a number of seconds. The model reads the test as "fewer than ten seconds apart", because it only decides whether a log-only handler runs.
- RuleEngine.BackToBackTapRuleEngine.ProcessBackToBackTaps: it requires both timestamps wherever the source dereferences them, and the source throws a NullPointerException without them. Two sites do this. The first is `Duration.between` for an ON-to-OFF pair. The second is the `compareTo` of the immediate-double-tap predicate for an ON-to-ON pair that passes that copy's stop test (src/main/java/dev/amir/trip_matcher/ruleengine/service/BackToBackTapRuleEngine.java:67, src/main/java/dev/amir/trip_matcher/procesor/service/BackToBackTapRuleEngine.java:59).
- TapProcessing.TapProcessor.TripMaker: it requires every input tap to be ON or OFF with a timestamp. That is the input the application expects. The CSV reader parses every timestamp with the fixed pattern `dd-MM-yyyy HH:mm:ss` and fails on an empty or malformed one (src/main/java/dev/amir/trip_matcher/reader/converter/LocalDateTimeConverter.java:10-14). It only trims the tap type, so it does not check the type. A direct caller that passes a tap without a timestamp is not covered. If that traveller has two or more taps, the source's sort comparator throws. If the traveller has a single ON tap, the source gives a trip whose start is null.
- Tap types other than ON, OFF, GROUP_HEAD and GROUP_TAIL cannot be written down in the model, since `TapType` is an enumeration and not free text. In the source, such a tap matches no rule as the previous tap. As the current tap it matches only the group-head rule, which logs. So an ON tap directly before it opens no trip at all, and that trip is silently dropped.
- The tap `id` field is carried but never read.
