/**
 * The back-to-back tap rule engine: it looks at one (previous tap, current tap)
 * pair and appends zero or one trip to a list the caller owns.
 *
 * The source keeps its rules in a hash map from predicate to handler and runs
 * every handler whose predicate holds, in whatever order the map yields them.
 * Here the rules are an enumeration (`Rule`), the predicates are `Matches`, the
 * handlers' effect is `HandlerOutput`, and running them in a given order is
 * `Fire`. `Transition` is the same engine written as one explicit match; the
 * lemma `FireInAnyOrder` shows the two agree for every order of the handlers.
 *
 * Two copies of the engine exist in the source. They differ only in the
 * predicate of the immediate-double-tap rule, which requires the same stop in
 * one (`RuleEngineVariant`, the copy the tap processor uses) and different stops
 * in the other (`ProcessorVariant`).
 */
module RuleEngine {
  import opened Wrappers
  import opened TapModels
  import opened TripModels
  import opened FareStore
  import opened Lists

  const ImmediateTapOnDurationInSec: int := 10

  datatype Variant = RuleEngineVariant | ProcessorVariant

  /** The entries of the handler map, named after their handlers. */
  datatype Rule =
    | GroupHeadRule
    | OnToGroupTail
    | OnToOffSameStop
    | OnToOffDifferentStop
    | OnToOn
    | ImmediateTaps
    | OffToOn
    | OffToOff

  /** The handlers in the order the source registers them. */
  const AllRules: seq<Rule> :=
    [GroupHeadRule, OnToGroupTail, OnToOffSameStop, OnToOffDifferentStop, OnToOn, ImmediateTaps, OffToOn, OffToOff]

  /** An order in which a map holding every rule once may yield its entries. */
  ghost predicate IsHandlerOrder(order: seq<Rule>) {
    && (forall rule: Rule :: rule in order)
    && (forall i, j | 0 <= i < j < |order| :: order[i] != order[j])
  }

  predicate SameStop(previous: Tap, current: Tap) {
    current.stopId == previous.stopId
  }

  /**
   * The time test of the immediate-double-tap rule, read as "fewer than ten
   * seconds apart". The source compares ordering values of the two date-times;
   * the test only decides whether a log-only handler runs. A missing timestamp
   * reads as false here; the engine's callers must rule it out (`PairTimed`).
   */
  predicate WithinImmediateWindow(previous: Tap, current: Tap) {
    match (previous.dateTimeUtc, current.dateTimeUtc)
    case (Some(p), Some(c)) => c - p < ImmediateTapOnDurationInSec
    case _ => false
  }

  /** The kind of previous tap each rule is named for. */
  function PreviousKind(rule: Rule): TapType {
    match rule
    case GroupHeadRule => GroupHead
    case OffToOn => Off
    case OffToOff => Off
    case _ => On
  }

  /** The kind of current tap each rule is named for; the head rule takes any. */
  function CurrentKind(rule: Rule): Option<TapType> {
    match rule
    case GroupHeadRule => None
    case OnToGroupTail => Some(GroupTail)
    case OnToOffSameStop => Some(Off)
    case OnToOffDifferentStop => Some(Off)
    case OffToOff => Some(Off)
    case _ => Some(On)
  }

  /** The pair of tap kinds is the one the rule is named for. */
  predicate KindsFit(rule: Rule, previous: Tap, current: Tap) {
    previous.tapType == PreviousKind(rule) && (CurrentKind(rule).None? || current.tapType == CurrentKind(rule).value)
  }

  /**
   * The predicate registered for each rule. A rule matches only the pair of kinds
   * it is named for; the kind test is the whole predicate except for the two
   * ON-to-OFF rules, which split on the stop, and the immediate-double-tap rule.
   */
  function Matches(variant: Variant, rule: Rule, previous: Tap, current: Tap): (matches: bool)
    ensures matches ==> KindsFit(rule, previous, current)
    ensures rule !in {OnToOffSameStop, OnToOffDifferentStop, ImmediateTaps} ==>
      (matches <==> KindsFit(rule, previous, current))
    ensures rule in {OnToOffSameStop, OnToOffDifferentStop} ==>
      (matches <==> KindsFit(rule, previous, current) && (SameStop(previous, current) <==> rule == OnToOffSameStop))
  {
    match rule
    case GroupHeadRule => previous.tapType == GroupHead
    case OnToGroupTail => previous.tapType == On && current.tapType == GroupTail
    case OnToOffSameStop => previous.tapType == On && current.tapType == Off && SameStop(previous, current)
    case OnToOffDifferentStop => previous.tapType == On && current.tapType == Off && !SameStop(previous, current)
    case OnToOn => current.tapType == On && previous.tapType == On
    case ImmediateTaps => ComparesTimes(variant, previous, current) && WithinImmediateWindow(previous, current)
    case OffToOn => previous.tapType == Off && current.tapType == On
    case OffToOff => current.tapType == Off && previous.tapType == Off
  }

  /**
   * The immediate-double-tap predicate gets as far as comparing the two
   * timestamps: an ON-ON pair that passes the copy's stop test (the same stop
   * in one copy, different stops in the other).
   */
  predicate ComparesTimes(variant: Variant, previous: Tap, current: Tap) {
    && current.tapType == On && previous.tapType == On
    && (if variant == RuleEngineVariant then SameStop(previous, current) else !SameStop(previous, current))
  }

  /**
   * Both timestamps are present wherever the engine dereferences them: the
   * ON-to-OFF handlers measure a duration, and the immediate-double-tap
   * predicate compares the two date-times once its type and stop tests pass.
   */
  predicate PairTimed(variant: Variant, previous: Tap, current: Tap) {
    ((previous.tapType == On && current.tapType == Off) || ComparesTimes(variant, previous, current)) ==>
      previous.dateTimeUtc.Some? && current.dateTimeUtc.Some?
  }

  predicate HandlerTimed(rule: Rule, previous: Tap, current: Tap) {
    (rule == OnToOffSameStop || rule == OnToOffDifferentStop) ==>
      previous.dateTimeUtc.Some? && current.dateTimeUtc.Some?
  }

  /**
   * Whole seconds from `start` to `end`. Only the ON-to-OFF handlers measure a
   * duration; they require both timestamps, so the value for a missing one is
   * never used.
   */
  function Elapsed(start: Option<int>, end: Option<int>): int
  {
    if start.Some? && end.Some? then end.value - start.value else 0
  }

  /**
   * What each handler appends to the trip list: one trip for the four trip
   * builders, nothing for the log-only handlers. A trip starts at the previous
   * tap, belongs to its traveller and is priced by a lookup of its own route.
   */
  function HandlerOutput(rule: Rule, priceRules: map<Route, Price>, previous: Tap, current: Tap): (trips: seq<TripModel>)
    ensures |trips| <= 1
    ensures trips != [] <==> rule in {OnToOffSameStop, OnToOffDifferentStop, OnToGroupTail, OnToOn}
    ensures forall trip | trip in trips :: OpenedFrom(trip, priceRules, previous)
  {
    match rule
    case OnToOffSameStop =>
      [TripModel(previous.dateTimeUtc, current.dateTimeUtc, Elapsed(previous.dateTimeUtc, current.dateTimeUtc),
                 previous.stopId, current.stopId, Lookup(priceRules, previous.stopId, current.stopId),
                 previous.companyId, previous.busId, previous.pan, Cancelled)]
    case OnToOffDifferentStop =>
      [TripModel(previous.dateTimeUtc, current.dateTimeUtc, Elapsed(previous.dateTimeUtc, current.dateTimeUtc),
                 previous.stopId, current.stopId, Lookup(priceRules, previous.stopId, current.stopId),
                 previous.companyId, previous.busId, previous.pan, Completed)]
    case OnToGroupTail =>
      [TripModel(previous.dateTimeUtc, current.dateTimeUtc, 0,
                 previous.stopId, Unknown, Lookup(priceRules, previous.stopId, Unknown),
                 previous.companyId, previous.busId, previous.pan, Incomplete)]
    case OnToOn =>
      [TripModel(previous.dateTimeUtc, None, 0,
                 previous.stopId, Unknown, Lookup(priceRules, previous.stopId, Unknown),
                 previous.companyId, previous.busId, previous.pan, Incomplete)]
    case _ => []
  }

  /** The trip starts at `previous`, carries its traveller fields and the fare of its own route. */
  predicate OpenedFrom(trip: TripModel, priceRules: map<Route, Price>, previous: Tap) {
    && OpenedBy(trip, previous)
    && trip.chargeAmount == Lookup(priceRules, previous.stopId, trip.toStopId)
  }

  /** The trip starts at `tap`'s time and stop and carries its company, bus and pan. */
  predicate OpenedBy(trip: TripModel, tap: Tap) {
    && trip.started == tap.dateTimeUtc
    && trip.fromStopId == tap.stopId
    && trip.companyId == tap.companyId && trip.busId == tap.busId && trip.pan == tap.pan
  }

  /**
   * Everything the matching handlers append, running the rules in `order`: at
   * most one trip per handler, each opened from the previous tap, and nothing
   * when no rule matches.
   */
  function Fire(variant: Variant, order: seq<Rule>, priceRules: map<Route, Price>, previous: Tap, current: Tap): (trips: seq<TripModel>)
    ensures |trips| <= |order|
    ensures forall trip | trip in trips :: OpenedFrom(trip, priceRules, previous)
    ensures (forall i | 0 <= i < |order| :: !Matches(variant, order[i], previous, current)) ==> trips == []
  {
    if order == [] then []
    else
      var rule := order[|order| - 1];
      Fire(variant, order[..|order| - 1], priceRules, previous, current) +
      (if Matches(variant, rule, previous, current) then HandlerOutput(rule, priceRules, previous, current) else [])
  }

  /**
   * The engine as one explicit match on (previous type, current type, same stop).
   * It emits at most one trip, and one exactly when the previous tap is ON and
   * the current tap is not a group head.
   */
  function Transition(priceRules: map<Route, Price>, previous: Tap, current: Tap): (trips: seq<TripModel>)
    ensures |trips| <= 1
    ensures trips != [] <==> previous.tapType == On && current.tapType != GroupHead
  {
    match (previous.tapType, current.tapType)
    case (On, GroupTail) => HandlerOutput(OnToGroupTail, priceRules, previous, current)
    case (On, Off) =>
      if SameStop(previous, current) then HandlerOutput(OnToOffSameStop, priceRules, previous, current)
      else HandlerOutput(OnToOffDifferentStop, priceRules, previous, current)
    case (On, On) => HandlerOutput(OnToOn, priceRules, previous, current)
    case _ => []
  }

  /**
   * The table of transitions: the fields of the trip a pair emits follow the
   * kind of the current tap.
   */
  lemma TransitionTable(priceRules: map<Route, Price>, previous: Tap, current: Tap)
    ensures var trips := Transition(priceRules, previous, current);
      && (previous.tapType == On && current.tapType == Off && previous.dateTimeUtc.Some? && current.dateTimeUtc.Some? ==>
            |trips| == 1 && trips[0].durationSecs == current.dateTimeUtc.value - previous.dateTimeUtc.value)
      && forall trip | trip in trips ::
        && trip.started == previous.dateTimeUtc
        && trip.fromStopId == previous.stopId
        && trip.companyId == previous.companyId && trip.busId == previous.busId && trip.pan == previous.pan
        && trip.toStopId == (if current.tapType == Off then current.stopId else Unknown)
        && trip.chargeAmount == Lookup(priceRules, previous.stopId, trip.toStopId)
        && trip.finished == (if current.tapType == On then None else current.dateTimeUtc)
        && (trip.status == Cancelled <==> current.tapType == Off && SameStop(previous, current))
        && (trip.status == Completed <==> current.tapType == Off && !SameStop(previous, current))
        && (trip.status == Incomplete <==> current.tapType != Off)
        && (current.tapType != Off ==> trip.durationSecs == 0)
  {
  }

  /** A rule that matches and whose handler appends something. */
  predicate Emits(variant: Variant, rule: Rule, priceRules: map<Route, Price>, previous: Tap, current: Tap)
  {
    Matches(variant, rule, previous, current) && HandlerOutput(rule, priceRules, previous, current) != []
  }

  /** The trip-emitting predicates are mutually exclusive, and the one that holds gives `Transition`. */
  lemma EmitterIsUnique(variant: Variant, r1: Rule, r2: Rule, priceRules: map<Route, Price>, previous: Tap, current: Tap)
    requires Emits(variant, r1, priceRules, previous, current)
    ensures HandlerOutput(r1, priceRules, previous, current) == Transition(priceRules, previous, current)
    ensures Emits(variant, r2, priceRules, previous, current) ==> r1 == r2
  {
  }

  /** The rule that emits `Transition`'s trip, when there is one. */
  function Emitter(previous: Tap, current: Tap): Rule {
    match current.tapType
    case GroupTail => OnToGroupTail
    case Off => if SameStop(previous, current) then OnToOffSameStop else OnToOffDifferentStop
    case _ => OnToOn
  }

  lemma TransitionHasEmitter(variant: Variant, priceRules: map<Route, Price>, previous: Tap, current: Tap)
    requires Transition(priceRules, previous, current) != []
    ensures Emits(variant, Emitter(previous, current), priceRules, previous, current)
  {
  }

  /** Rules that do not emit contribute nothing, in any order. */
  lemma {:induction false} FireQuiet(variant: Variant, order: seq<Rule>, priceRules: map<Route, Price>, previous: Tap, current: Tap)
    requires forall i | 0 <= i < |order| :: !Emits(variant, order[i], priceRules, previous, current)
    ensures Fire(variant, order, priceRules, previous, current) == []
  {
    if order != [] {
      FireQuiet(variant, order[..|order| - 1], priceRules, previous, current);
    }
  }

  /** When only position `j` may emit, firing the whole order gives that handler's output. */
  lemma {:induction false} FireSingle(variant: Variant, order: seq<Rule>, j: nat, priceRules: map<Route, Price>, previous: Tap, current: Tap)
    requires j < |order|
    requires forall i | 0 <= i < |order| && i != j :: !Emits(variant, order[i], priceRules, previous, current)
    ensures Fire(variant, order, priceRules, previous, current) ==
      if Matches(variant, order[j], previous, current) then HandlerOutput(order[j], priceRules, previous, current) else []
  {
    var n := |order| - 1;
    var prefix := order[..n];
    if j == n {
      FireQuiet(variant, prefix, priceRules, previous, current);
    } else {
      FireSingle(variant, prefix, j, priceRules, previous, current);
      assert !Emits(variant, order[n], priceRules, previous, current);
    }
  }

  /**
   * Running every matching handler, in any order the handler map may yield,
   * appends exactly what the explicit match says.
   */
  lemma FireInAnyOrder(variant: Variant, order: seq<Rule>, priceRules: map<Route, Price>, previous: Tap, current: Tap)
    requires IsHandlerOrder(order)
    ensures Fire(variant, order, priceRules, previous, current) == Transition(priceRules, previous, current)
  {
    if j :| 0 <= j < |order| && Emits(variant, order[j], priceRules, previous, current) {
      forall i | 0 <= i < |order| && i != j
        ensures !Emits(variant, order[i], priceRules, previous, current)
      {
        EmitterIsUnique(variant, order[j], order[i], priceRules, previous, current);
      }
      FireSingle(variant, order, j, priceRules, previous, current);
      EmitterIsUnique(variant, order[j], order[j], priceRules, previous, current);
    } else {
      FireQuiet(variant, order, priceRules, previous, current);
      if Transition(priceRules, previous, current) != [] {
        var e := Emitter(previous, current);
        assert e in order;
        var k :| 0 <= k < |order| && order[k] == e;
        TransitionHasEmitter(variant, priceRules, previous, current);
        assert false;
      }
    }
  }

  /** Both copies of the engine append the same trips, whatever the order of their handlers. */
  lemma {:induction false} VariantsAgree(order: seq<Rule>, priceRules: map<Route, Price>, previous: Tap, current: Tap)
    ensures Fire(RuleEngineVariant, order, priceRules, previous, current) ==
            Fire(ProcessorVariant, order, priceRules, previous, current)
  {
    if order != [] {
      VariantsAgree(order[..|order| - 1], priceRules, previous, current);
    }
  }

  /**
   * The two copies differ only in the immediate-double-tap predicate (same stop
   * against different stops), and that rule's handler appends nothing.
   */
  lemma VariantsDifferOnlyInImmediateTaps(rule: Rule, priceRules: map<Route, Price>, previous: Tap, current: Tap)
    ensures rule != ImmediateTaps ==>
      (Matches(RuleEngineVariant, rule, previous, current) <==> Matches(ProcessorVariant, rule, previous, current))
    ensures Matches(RuleEngineVariant, ImmediateTaps, previous, current) ==> SameStop(previous, current)
    ensures Matches(ProcessorVariant, ImmediateTaps, previous, current) ==> !SameStop(previous, current)
    ensures HandlerOutput(ImmediateTaps, priceRules, previous, current) == []
  {
  }

  /** The two immediate-double-tap predicates are not the same predicate. */
  lemma ImmediateTapsPredicatesDiffer()
    ensures exists previous: Tap, current: Tap ::
      Matches(RuleEngineVariant, ImmediateTaps, previous, current) &&
      !Matches(ProcessorVariant, ImmediateTaps, previous, current)
  {
    var previous := Tap(1, Some(0), On, "Stop1", "Company1", "Bus1", "PAN1");
    var current := Tap(2, Some(1), On, "Stop1", "Company1", "Bus1", "PAN1");
    assert Matches(RuleEngineVariant, ImmediateTaps, previous, current);
  }

  /**
   * An immediate double tap at one stop makes two rules fire, ON-to-ON and the
   * immediate-double-tap rule, and still appends a single INCOMPLETE trip.
   */
  lemma ImmediateDoubleTapAppendsOneTrip(order: seq<Rule>, priceRules: map<Route, Price>, previous: Tap, current: Tap)
    requires IsHandlerOrder(order)
    requires previous.tapType == On && current.tapType == On
    requires SameStop(previous, current) && WithinImmediateWindow(previous, current)
    ensures Matches(RuleEngineVariant, OnToOn, previous, current)
    ensures Matches(RuleEngineVariant, ImmediateTaps, previous, current)
    ensures |Fire(RuleEngineVariant, order, priceRules, previous, current)| == 1
    ensures Fire(RuleEngineVariant, order, priceRules, previous, current)[0].status == Incomplete
    ensures Fire(RuleEngineVariant, order, priceRules, previous, current)[0].finished == None
  {
    FireInAnyOrder(RuleEngineVariant, order, priceRules, previous, current);
  }

  lemma AllRulesIsHandlerOrder()
    ensures IsHandlerOrder(AllRules)
  {
    forall rule: Rule ensures rule in AllRules {
      match rule
      case GroupHeadRule => assert AllRules[0] == rule;
      case OnToGroupTail => assert AllRules[1] == rule;
      case OnToOffSameStop => assert AllRules[2] == rule;
      case OnToOffDifferentStop => assert AllRules[3] == rule;
      case OnToOn => assert AllRules[4] == rule;
      case ImmediateTaps => assert AllRules[5] == rule;
      case OffToOn => assert AllRules[6] == rule;
      case OffToOff => assert AllRules[7] == rule;
    }
  }

  class BackToBackTapRuleEngine {
    const tripFareManager: TripFareManager
    const variant: Variant
    /** The order in which the handler map yields its entries; the source does not fix it. */
    const handlers: seq<Rule>

    ghost predicate Valid() {
      IsHandlerOrder(handlers)
    }

    constructor (tripFareManager: TripFareManager, variant: Variant, handlers: seq<Rule>)
      requires IsHandlerOrder(handlers)
      ensures this.tripFareManager == tripFareManager && this.variant == variant && this.handlers == handlers
      ensures Valid()
    {
      this.tripFareManager := tripFareManager;
      this.variant := variant;
      this.handlers := handlers;
    }

    /** Runs every handler whose predicate holds, in the map's order, appending to `trips`. */
    method ProcessBackToBackTaps(previousTap: Tap, currentTap: Tap, trips: ArrayList<TripModel>)
      requires Valid()
      requires PairTimed(variant, previousTap, currentTap)
      modifies trips
      ensures trips.items == old(trips.items) + Transition(tripFareManager.priceRules, previousTap, currentTap)
    {
      ghost var before := trips.items;
      for i := 0 to |handlers|
        invariant trips.items == before + Fire(variant, handlers[..i], tripFareManager.priceRules, previousTap, currentTap)
      {
        var rule := handlers[i];
        if Matches(variant, rule, previousTap, currentTap) {
          Handle(rule, previousTap, currentTap, trips);
        }
        assert handlers[..i + 1][..i] == handlers[..i];
      }
      assert handlers[..|handlers|] == handlers;
      FireInAnyOrder(variant, handlers, tripFareManager.priceRules, previousTap, currentTap);
    }

    /** The handler bodies; the log-only ones leave the list as it was. */
    method Handle(rule: Rule, previousTap: Tap, currentTap: Tap, trips: ArrayList<TripModel>)
      requires HandlerTimed(rule, previousTap, currentTap)
      modifies trips
      ensures trips.items == old(trips.items) + HandlerOutput(rule, tripFareManager.priceRules, previousTap, currentTap)
    {
      match rule
      case OnToOffSameStop =>
        var price := tripFareManager.GetPrice(previousTap.stopId, currentTap.stopId);
        trips.Add(TripModel(previousTap.dateTimeUtc, currentTap.dateTimeUtc,
                            currentTap.dateTimeUtc.value - previousTap.dateTimeUtc.value,
                            previousTap.stopId, currentTap.stopId, price,
                            previousTap.companyId, previousTap.busId, previousTap.pan, Cancelled));
      case OnToOffDifferentStop =>
        var price := tripFareManager.GetPrice(previousTap.stopId, currentTap.stopId);
        trips.Add(TripModel(previousTap.dateTimeUtc, currentTap.dateTimeUtc,
                            currentTap.dateTimeUtc.value - previousTap.dateTimeUtc.value,
                            previousTap.stopId, currentTap.stopId, price,
                            previousTap.companyId, previousTap.busId, previousTap.pan, Completed));
      case OnToGroupTail =>
        var price := tripFareManager.GetPrice(previousTap.stopId, Unknown);
        trips.Add(TripModel(previousTap.dateTimeUtc, currentTap.dateTimeUtc, 0,
                            previousTap.stopId, Unknown, price,
                            previousTap.companyId, previousTap.busId, previousTap.pan, Incomplete));
      case OnToOn =>
        var price := tripFareManager.GetPrice(previousTap.stopId, Unknown);
        trips.Add(TripModel(previousTap.dateTimeUtc, None, 0,
                            previousTap.stopId, Unknown, price,
                            previousTap.companyId, previousTap.busId, previousTap.pan, Incomplete));
      case _ =>
    }
  }
}
