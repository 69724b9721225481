/** Bounds of the composed error rate 1 - sum_i(w_i * prod_j(1 - e_j)), and its relation to AND_MIN. */
module CompositionFormula {
  import opened Arithmetic
  import opened RuleGenerator
  import opened CompositionMeaning
  import opened CompositionGroups

  /** Every rate is a fraction. */
  ghost predicate Fractions(rates: map<SloInfo, real>) {
    forall s | s in rates :: 0.0 <= rates[s] <= 1.0
  }

  ghost predicate NonNegativeWeights(legs: seq<Leg>) {
    forall i | 0 <= i < |legs| :: legs[i].weight >= 0.0
  }

  function TotalWeight(legs: seq<Leg>): real {
    if |legs| == 0 then 0.0 else TotalWeight(legs[..|legs| - 1]) + legs[|legs| - 1].weight
  }

  /** Sum of the error rates along a chain. */
  function ChainSum(chain: seq<SloInfo>, rates: map<SloInfo, real>): real
    requires forall s | s in chain :: s in rates
  {
    if |chain| == 0 then 0.0 else ChainSum(chain[..|chain| - 1], rates) + rates[chain[|chain| - 1]]
  }

  function WeightedChainSum(legs: seq<Leg>, rates: map<SloInfo, real>): real
    requires forall i | 0 <= i < |legs| :: forall s | s in legs[i].chain :: s in rates
  {
    if |legs| == 0 then 0.0 else
      var n := |legs| - 1;
      WeightedChainSum(legs[..n], rates) + legs[n].weight * ChainSum(legs[n].chain, rates)
  }

  function ComposedError(legs: seq<Leg>, rates: map<SloInfo, real>): real
    requires forall i | 0 <= i < |legs| :: forall s | s in legs[i].chain :: s in rates
  {
    1.0 - Availability(legs, rates)
  }

  // ----- products of fractions -----

  lemma Scale(w: real, a: real, b: real)
    requires w >= 0.0 && a <= b
    ensures w * a <= w * b
  {
  }

  lemma ProductMonotone(a: real, f: real, b: real, g: real)
    requires 0.0 <= a <= b && 0.0 <= f <= g
    ensures 0.0 <= a * f <= b * g
  {
    Scale(a, f, g);
    Scale(g, a, b);
  }

  lemma AtMost(a: real, f: real)
    requires 0.0 <= a <= 1.0 && 0.0 <= f
    ensures 0.0 <= a * f <= f
  {
  }

  /** A fraction of a fraction. */
  lemma Part(a: real, f: real) returns (product: real)
    requires 0.0 <= a <= 1.0 && 0.0 <= f <= 1.0
    ensures product == a * f && 0.0 <= product <= a && product <= f
  {
    AtMost(f, a);
    AtMost(a, f);
    product := a * f;
  }

  /** One more component of success 1 - e, after a chain of success a >= 1 - sum. */
  lemma OneMore(a: real, e: real, sum: real) returns (product: real)
    requires 0.0 <= a <= 1.0 && 0.0 <= e <= 1.0 && 1.0 - sum <= a
    ensures product == a * (1.0 - e)
    ensures 0.0 <= product <= a && product <= 1.0 - e && 1.0 - (sum + e) <= product
  {
    var f := 1.0 - e;
    var lost := Part(a, e);
    product := Part(a, f);
    Complement(a, e);
    assert product == a - lost;
  }

  lemma {:induction false} SuccessBounds(chain: seq<SloInfo>, rates: map<SloInfo, real>)
    requires Fractions(rates) && forall s | s in chain :: s in rates
    ensures 0.0 <= Success(chain, rates) <= 1.0
    ensures forall s | s in chain :: Success(chain, rates) <= 1.0 - rates[s]
    ensures 1.0 - ChainSum(chain, rates) <= Success(chain, rates)
  {
    var n := |chain| - 1;
    if n < 0 {
    } else {
      SuccessBounds(chain[..n], rates);
      assert chain[n] in chain;
      var a, e := Success(chain[..n], rates), rates[chain[n]];
      var product := OneMore(a, e, ChainSum(chain[..n], rates));
      assert Success(chain, rates) == product;
      forall s | s in chain ensures Success(chain, rates) <= 1.0 - rates[s] {
        assert s == chain[n] || s in chain[..n];
      }
    }
  }

  lemma {:induction false} SuccessAntitone(chain: seq<SloInfo>, low: map<SloInfo, real>, high: map<SloInfo, real>)
    requires Fractions(low) && Fractions(high)
    requires forall s | s in chain :: s in low && s in high && low[s] <= high[s]
    ensures Success(chain, high) <= Success(chain, low)
  {
    var n := |chain| - 1;
    if n < 0 {
    } else {
      SuccessAntitone(chain[..n], low, high);
      SuccessBounds(chain[..n], high);
      assert chain[n] in chain;
      ProductMonotone(Success(chain[..n], high), 1.0 - high[chain[n]], Success(chain[..n], low), 1.0 - low[chain[n]]);
    }
  }

  lemma {:induction false} AvailabilityBounds(legs: seq<Leg>, rates: map<SloInfo, real>)
    requires Fractions(rates) && NonNegativeWeights(legs) && Covers(rates, legs)
    ensures 0.0 <= Availability(legs, rates) <= TotalWeight(legs)
  {
    var n := |legs| - 1;
    if n < 0 {
    } else {
      AvailabilityBounds(legs[..n], rates);
      SuccessBounds(legs[n].chain, rates);
      ProductMonotone(legs[n].weight, Success(legs[n].chain, rates), legs[n].weight, 1.0);
    }
  }

  /** One route of weight w loses at most w times the sum of its rates. */
  lemma RouteLoss(w: real, a: real, sum: real) returns (wa: real, ws: real)
    requires w >= 0.0 && 1.0 - sum <= a
    ensures wa == w * a && ws == w * sum && w - ws <= wa
  {
    wa, ws := w * a, w * sum;
    Scale(w, 1.0 - sum, a);
    Complement(w, sum);
  }

  lemma {:induction false} AvailabilityLoss(legs: seq<Leg>, rates: map<SloInfo, real>)
    requires Fractions(rates) && NonNegativeWeights(legs) && Covers(rates, legs)
    ensures TotalWeight(legs) - WeightedChainSum(legs, rates) <= Availability(legs, rates)
  {
    hide Success, ChainSum;
    var n := |legs| - 1;
    if n < 0 {
    } else {
      AvailabilityLoss(legs[..n], rates);
      SuccessBounds(legs[n].chain, rates);
      var wa, ws := RouteLoss(legs[n].weight, Success(legs[n].chain, rates), ChainSum(legs[n].chain, rates));
      assert Availability(legs, rates) == Availability(legs[..n], rates) + wa;
      assert WeightedChainSum(legs, rates) == WeightedChainSum(legs[..n], rates) + ws;
    }
  }

  /** One route of weight w whose success is at most c, after routes of total weight t capped by t * c. */
  lemma RouteCap(w: real, a: real, c: real, t: real) returns (wa: real, tc: real, both: real)
    requires w >= 0.0 && a <= c
    ensures wa == w * a && tc == t * c && both == (t + w) * c && tc + wa <= both
  {
    wa, tc, both := w * a, t * c, (t + w) * c;
    Scale(w, a, c);
    assert both == tc + w * c;
  }

  /** An SLO on every route caps the availability. */
  lemma {:induction false} AvailabilityCapped(legs: seq<Leg>, rates: map<SloInfo, real>, s: SloInfo)
    requires Fractions(rates) && NonNegativeWeights(legs) && Covers(rates, legs) && s in rates
    requires forall i | 0 <= i < |legs| :: s in legs[i].chain
    ensures Availability(legs, rates) <= TotalWeight(legs) * (1.0 - rates[s])
  {
    hide Success;
    var n := |legs| - 1;
    if n < 0 {
    } else {
      AvailabilityCapped(legs[..n], rates, s);
      SuccessBounds(legs[n].chain, rates);
      var wa, tc, both := RouteCap(legs[n].weight, Success(legs[n].chain, rates), 1.0 - rates[s], TotalWeight(legs[..n]));
      assert Availability(legs, rates) == Availability(legs[..n], rates) + wa;
    }
  }

  lemma RouteAdds(w: real, a: real, b: real, before: real, after: real)
    requires w >= 0.0 && a <= b && before <= after
    ensures before + w * a <= after + w * b
  {
    assert w * (b - a) >= 0.0;
  }

  lemma {:induction false} AvailabilityAntitone(legs: seq<Leg>, low: map<SloInfo, real>, high: map<SloInfo, real>)
    requires Fractions(low) && Fractions(high) && NonNegativeWeights(legs) && Covers(low, legs) && Covers(high, legs)
    requires forall s | s in low && s in high :: low[s] <= high[s]
    ensures Availability(legs, high) <= Availability(legs, low)
  {
    hide Success;
    var n := |legs| - 1;
    if n < 0 {
    } else {
      AvailabilityAntitone(legs[..n], low, high);
      SuccessAntitone(legs[n].chain, low, high);
      RouteAdds(legs[n].weight, Success(legs[n].chain, high), Success(legs[n].chain, low),
                Availability(legs[..n], high), Availability(legs[..n], low));
    }
  }

  /** With the weight sums the resource definition admits, the composed error lies in [-0.001, 1]. */
  lemma ComposedErrorRange(legs: seq<Leg>, rates: map<SloInfo, real>)
    requires Fractions(rates) && NonNegativeWeights(legs) && Covers(rates, legs)
    requires 0.999 <= TotalWeight(legs) <= 1.001
    ensures -0.001 <= ComposedError(legs, rates) <= 1.0
  {
    AvailabilityBounds(legs, rates);
  }

  /** A higher error rate of any component never lowers the composed error. */
  lemma ComposedErrorMonotone(legs: seq<Leg>, low: map<SloInfo, real>, high: map<SloInfo, real>)
    requires Fractions(low) && Fractions(high) && NonNegativeWeights(legs) && Covers(low, legs) && Covers(high, legs)
    requires forall s | s in low && s in high :: low[s] <= high[s]
    ensures ComposedError(legs, low) <= ComposedError(legs, high)
  {
    AvailabilityAntitone(legs, low, high);
  }

  /**
   With weights that sum to one the composed error is a fraction, at most the weighted sum of
   the rates along the chains, and at least the rate of any SLO that every route uses.
   */
  lemma ComposedErrorBounds(legs: seq<Leg>, rates: map<SloInfo, real>)
    requires Fractions(rates) && NonNegativeWeights(legs) && Covers(rates, legs) && TotalWeight(legs) == 1.0
    ensures 0.0 <= ComposedError(legs, rates) <= 1.0
    ensures ComposedError(legs, rates) <= WeightedChainSum(legs, rates)
    ensures forall s | s in rates && (forall i | 0 <= i < |legs| :: s in legs[i].chain) ::
              rates[s] <= ComposedError(legs, rates)
  {
    AvailabilityBounds(legs, rates);
    AvailabilityLoss(legs, rates);
    forall s | s in rates && (forall i | 0 <= i < |legs| :: s in legs[i].chain)
      ensures rates[s] <= ComposedError(legs, rates)
    {
      AvailabilityCapped(legs, rates, s);
    }
  }

  /**
   A single route of weight one through all objectives is never below AND_MIN over them and
   never above the sum of their rates.
   */
  lemma SerialAgainstAndMin(slos: seq<SloInfo>, rates: map<SloInfo, real>)
    requires |slos| > 0 && Fractions(rates) && forall s | s in slos :: s in rates
    ensures var legs := [Leg(1.0, slos)];
            Covers(rates, legs) && MaxRate(slos, rates) <= ComposedError(legs, rates) <= ChainSum(slos, rates)
  {
    var legs := [Leg(1.0, slos)];
    assert legs[..0] == [] && Availability([], rates) == 0.0;
    assert Availability(legs, rates) == 1.0 * Success(slos, rates);
    SuccessBounds(slos, rates);
    MaxRateMeaning(slos, rates);
  }
}
