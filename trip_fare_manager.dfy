/** The directed fare table: (source stop, destination stop) to a price. */
module FareStore {
  import opened Wrappers

  /** A fare in cents. The decimal scale the source keeps is not modelled. */
  type Price = int

  /** An ordered pair of stops; equality is structural, so (a, b) and (b, a) differ. */
  datatype Route = Route(sourceStop: string, destinationStop: string)

  /** The price stored for exactly this ordered pair, or None when it was never added. */
  function Lookup(priceRules: map<Route, Price>, sourceStop: string, destinationStop: string): Option<Price>
  {
    var route := Route(sourceStop, destinationStop);
    if route in priceRules then Some(priceRules[route]) else None
  }

  class TripFareManager {
    var priceRules: map<Route, Price>

    constructor ()
      ensures priceRules == map[]
    {
      priceRules := map[];
    }

    /** Inserts or overwrites the price of one ordered route. */
    method AddPriceRule(sourceStop: string, destinationStop: string, price: Price)
      modifies this
      ensures priceRules == old(priceRules)[Route(sourceStop, destinationStop) := price]
    {
      var route := Route(sourceStop, destinationStop);
      priceRules := priceRules[route := price];
    }

    /** Reads the price of one ordered route; a missing route is None, not an error. */
    method GetPrice(sourceStop: string, destinationStop: string) returns (price: Option<Price>)
      ensures price.Some? <==> Route(sourceStop, destinationStop) in priceRules
      ensures price.Some? ==> price.value == priceRules[Route(sourceStop, destinationStop)]
      ensures price == Lookup(priceRules, sourceStop, destinationStop)
    {
      var route := Route(sourceStop, destinationStop);
      if route in priceRules {
        price := Some(priceRules[route]);
      } else {
        price := None;
      }
    }
  }

  /** After adding (s, d) at p, that route costs p and every other ordered route, (d, s) included, is as before. */
  lemma PriceAfterAdd(priceRules: map<Route, Price>, s: string, d: string, p: Price, s': string, d': string)
    ensures Lookup(priceRules[Route(s, d) := p], s', d') ==
            if s' == s && d' == d then Some(p) else Lookup(priceRules, s', d')
  {
  }

  /** Adding the same route twice keeps the last price. */
  lemma LastPriceWins(priceRules: map<Route, Price>, s: string, d: string, p: Price, q: Price)
    ensures priceRules[Route(s, d) := p][Route(s, d) := q] == priceRules[Route(s, d) := q]
    ensures Lookup(priceRules[Route(s, d) := p][Route(s, d) := q], s, d) == Some(q)
  {
  }

  /** A route never added is absent. */
  lemma MissingRouteIsAbsent(priceRules: map<Route, Price>, s: string, d: string)
    requires Route(s, d) !in priceRules
    ensures Lookup(priceRules, s, d) == None
  {
  }
}
