/** The fixed seed data the application loads into the fare table before any run. */
module FareLoader {
  import opened Wrappers
  import opened FareStore
  import opened TapModels

  const Stop1: string := "Stop1"
  const Stop2: string := "Stop2"
  const Stop3: string := "Stop3"

  /** The stops the seed table prices. */
  const SeededStops: seq<string> := [Stop1, Stop2, Stop3]

  /** The twelve seeded routes: forward, backward, self-loops at zero, and to UNKNOWN. */
  function DefaultFares(): map<Route, Price>
  {
    map[
      Route(Stop1, Stop2) := 325, Route(Stop2, Stop3) := 550, Route(Stop1, Stop3) := 730,
      Route(Stop2, Stop1) := 325, Route(Stop3, Stop2) := 550, Route(Stop3, Stop1) := 730,
      Route(Stop1, Stop1) := 0, Route(Stop2, Stop2) := 0, Route(Stop3, Stop3) := 0,
      Route(Stop1, Unknown) := 730, Route(Stop2, Unknown) := 550, Route(Stop3, Unknown) := 730]
  }

  /** Seeds the given manager, one `AddPriceRule` per route, in the source's order. */
  method LoadDatastore(tripFareManager: TripFareManager)
    modifies tripFareManager
    ensures tripFareManager.priceRules == old(tripFareManager.priceRules) + DefaultFares()
  {
    ghost var before := tripFareManager.priceRules;
    ghost var seeded: map<Route, Price> := map[];
    // Forward trips
    tripFareManager.AddPriceRule(Stop1, Stop2, 325);
    UnionThenUpdate(before, seeded, Route(Stop1, Stop2), 325);
    seeded := seeded[Route(Stop1, Stop2) := 325];
    assert tripFareManager.priceRules == before + seeded;
    tripFareManager.AddPriceRule(Stop2, Stop3, 550);
    UnionThenUpdate(before, seeded, Route(Stop2, Stop3), 550);
    seeded := seeded[Route(Stop2, Stop3) := 550];
    assert tripFareManager.priceRules == before + seeded;
    tripFareManager.AddPriceRule(Stop1, Stop3, 730);
    UnionThenUpdate(before, seeded, Route(Stop1, Stop3), 730);
    seeded := seeded[Route(Stop1, Stop3) := 730];
    assert tripFareManager.priceRules == before + seeded;
    // Backward trips
    tripFareManager.AddPriceRule(Stop2, Stop1, 325);
    UnionThenUpdate(before, seeded, Route(Stop2, Stop1), 325);
    seeded := seeded[Route(Stop2, Stop1) := 325];
    assert tripFareManager.priceRules == before + seeded;
    tripFareManager.AddPriceRule(Stop3, Stop2, 550);
    UnionThenUpdate(before, seeded, Route(Stop3, Stop2), 550);
    seeded := seeded[Route(Stop3, Stop2) := 550];
    assert tripFareManager.priceRules == before + seeded;
    tripFareManager.AddPriceRule(Stop3, Stop1, 730);
    UnionThenUpdate(before, seeded, Route(Stop3, Stop1), 730);
    seeded := seeded[Route(Stop3, Stop1) := 730];
    assert tripFareManager.priceRules == before + seeded;
    // Cancelled trips (self-loops)
    tripFareManager.AddPriceRule(Stop1, Stop1, 0);
    UnionThenUpdate(before, seeded, Route(Stop1, Stop1), 0);
    seeded := seeded[Route(Stop1, Stop1) := 0];
    assert tripFareManager.priceRules == before + seeded;
    tripFareManager.AddPriceRule(Stop2, Stop2, 0);
    UnionThenUpdate(before, seeded, Route(Stop2, Stop2), 0);
    seeded := seeded[Route(Stop2, Stop2) := 0];
    assert tripFareManager.priceRules == before + seeded;
    tripFareManager.AddPriceRule(Stop3, Stop3, 0);
    UnionThenUpdate(before, seeded, Route(Stop3, Stop3), 0);
    seeded := seeded[Route(Stop3, Stop3) := 0];
    assert tripFareManager.priceRules == before + seeded;
    // Incomplete trips
    tripFareManager.AddPriceRule(Stop1, Unknown, 730);
    UnionThenUpdate(before, seeded, Route(Stop1, Unknown), 730);
    seeded := seeded[Route(Stop1, Unknown) := 730];
    assert tripFareManager.priceRules == before + seeded;
    tripFareManager.AddPriceRule(Stop2, Unknown, 550);
    UnionThenUpdate(before, seeded, Route(Stop2, Unknown), 550);
    seeded := seeded[Route(Stop2, Unknown) := 550];
    assert tripFareManager.priceRules == before + seeded;
    tripFareManager.AddPriceRule(Stop3, Unknown, 730);
    UnionThenUpdate(before, seeded, Route(Stop3, Unknown), 730);
    seeded := seeded[Route(Stop3, Unknown) := 730];
    assert tripFareManager.priceRules == before + seeded;
    assert seeded == DefaultFares();
  }

  /** Updating a union updates its right-hand side. */
  lemma UnionThenUpdate(m: map<Route, Price>, d: map<Route, Price>, k: Route, v: Price)
    ensures (m + d)[k := v] == m + d[k := v]
  {
  }

  /** After loading, the fare between two seeded stops is the same in both directions. */
  lemma LoadedFaresSymmetric(base: map<Route, Price>)
    ensures forall a, b | a in SeededStops && b in SeededStops ::
      Lookup(base + DefaultFares(), a, b) == Lookup(base + DefaultFares(), b, a)
  {
  }

  /** After loading, a trip that starts and ends at the same seeded stop costs nothing. */
  lemma LoadedSelfLoopsFree(base: map<Route, Price>)
    ensures forall s | s in SeededStops :: Lookup(base + DefaultFares(), s, s) == Some(0)
  {
  }

  /** `fare` is the largest fare from `s` to another seeded stop, and some other stop attains it. */
  ghost predicate IsMaxFareFrom(priceRules: map<Route, Price>, s: string, fare: Price)
  {
    && (forall t | t in SeededStops && t != s ::
          Lookup(priceRules, s, t).Some? && Lookup(priceRules, s, t).value <= fare)
    && (exists t | t in SeededStops && t != s :: Lookup(priceRules, s, t) == Some(fare))
  }

  /** After loading, the fare from a seeded stop to UNKNOWN is the maximum fare out of that stop. */
  lemma LoadedUnknownIsMaxFare(base: map<Route, Price>)
    ensures forall s | s in SeededStops ::
      Lookup(base + DefaultFares(), s, Unknown).Some? &&
      IsMaxFareFrom(base + DefaultFares(), s, Lookup(base + DefaultFares(), s, Unknown).value)
  {
    var t := base + DefaultFares();
    forall s | s in SeededStops
      ensures Lookup(t, s, Unknown).Some? && IsMaxFareFrom(t, s, Lookup(t, s, Unknown).value)
    {
      if s == Stop1 {
        assert Lookup(t, Stop1, Stop3) == Some(730);
      } else if s == Stop2 {
        assert Lookup(t, Stop2, Stop3) == Some(550);
      } else {
        assert Lookup(t, Stop3, Stop1) == Some(730);
      }
    }
  }

  /** The loader adds exactly the twelve routes: every (seeded, seeded) pair and every (seeded, UNKNOWN) pair. */
  lemma DefaultFaresRoutes(r: Route)
    ensures r in DefaultFares() <==>
      r.sourceStop in SeededStops && (r.destinationStop in SeededStops || r.destinationStop == Unknown)
  {
  }

  /** On a fresh manager, a route outside the seed, such as (Stop1, StopX), stays absent. */
  lemma FreshLoadMissesOtherRoutes(s: string, d: string)
    requires Route(s, d) !in DefaultFares()
    ensures Lookup(map[] + DefaultFares(), s, d) == None
    ensures Lookup(map[] + DefaultFares(), Stop1, "StopX") == None
  {
  }
}
