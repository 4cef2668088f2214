/** Quantity-tiered synthetic fill plans (tier_fill_plan of src/core/exchange/mod.rs). */
module TierPlans {
  const MAX_TIER_FILLS: nat := 256
  const TIER_CHUNK: real := 100.0
  const MAX_REMAINING: real := 25600.0

  datatype PlanResult = Plan(chunks: seq<real>) | InvalidQuantity | TooManyTierFills

  /** Lots of 100 with a smaller tail. */
  function Lots(rest: real): seq<real>
    decreases rest
  {
    if rest > TIER_CHUNK then [TIER_CHUNK] + Lots(rest - TIER_CHUNK)
    else if rest == 0.0 then [] else [rest]
  }

  /** No fill up to 100, one full fill up to 1000, one half fill up to 2000, lots above. */
  function TierPlan(remaining: real): PlanResult {
    if remaining < 0.0 then InvalidQuantity
    else if remaining <= TIER_CHUNK then Plan([])
    else if remaining <= 1000.0 then Plan([remaining])
    else if remaining <= 2000.0 then Plan([remaining / 2.0])
    else if remaining > MAX_REMAINING then TooManyTierFills
    else Plan(Lots(remaining))
  }

  method TierFillPlan(remaining: real) returns (r: PlanResult)
    ensures r == TierPlan(remaining)
  {
    if remaining < 0.0 {
      return InvalidQuantity;
    }
    if remaining <= TIER_CHUNK {
      return Plan([]);
    }
    if remaining <= 1000.0 {
      return Plan([remaining]);
    }
    if remaining <= 2000.0 {
      return Plan([remaining / 2.0]);
    }
    if remaining > MAX_REMAINING {
      return TooManyTierFills;
    }
    var rest, plan := remaining, [];
    while rest > TIER_CHUNK
      invariant 0.0 < rest && plan + Lots(rest) == Lots(remaining)
      decreases rest
    {
      assert plan + ([TIER_CHUNK] + Lots(rest - TIER_CHUNK)) == plan + [TIER_CHUNK] + Lots(rest - TIER_CHUNK);
      plan := plan + [TIER_CHUNK];
      rest := rest - TIER_CHUNK;
    }
    if rest != 0.0 {
      plan := plan + [rest];
    }
    r := Plan(plan);
  }

  // ---------------------------------------------------------------- what a plan promises

  function Sum(chunks: seq<real>): real {
    if chunks == [] then 0.0 else Sum(chunks[..|chunks| - 1]) + chunks[|chunks| - 1]
  }

  lemma {:induction false} SumAppend(a: seq<real>, b: seq<real>)
    ensures Sum(a + b) == Sum(a) + Sum(b)
  {
    if b == [] {
      assert a + b == a;
    } else {
      assert (a + b)[..|a + b| - 1] == a + b[..|b| - 1];
      SumAppend(a, b[..|b| - 1]);
    }
  }

  lemma {:induction false} LotsShape(rest: real, bound: nat)
    requires 0.0 < rest <= bound as real * TIER_CHUNK
    ensures 0 < |Lots(rest)| <= bound && Sum(Lots(rest)) == rest
    ensures forall k :: 0 <= k < |Lots(rest)| ==> 0.0 < Lots(rest)[k] <= TIER_CHUNK
    ensures forall k :: 0 <= k < |Lots(rest)| - 1 ==> Lots(rest)[k] == TIER_CHUNK
    decreases bound
  {
    if rest > TIER_CHUNK {
      LotsShape(rest - TIER_CHUNK, bound - 1);
      SumAppend([TIER_CHUNK], Lots(rest - TIER_CHUNK));
    }
  }

  /** At most 256 fills of positive size that never exceed what remains. */
  ghost predicate Fits(chunks: seq<real>, remaining: real) {
    && |chunks| <= MAX_TIER_FILLS
    && (forall k :: 0 <= k < |chunks| ==> chunks[k] > 0.0)
    && Sum(chunks) <= remaining
  }

  /** Every accepted quantity gets a plan that fits; the lot tiers fill it exactly, in lots of at
      most 100; only negative or too large quantities are refused. */
  lemma PlanPromises(remaining: real)
    ensures TierPlan(remaining).Plan? <==> 0.0 <= remaining <= MAX_REMAINING
    ensures TierPlan(remaining).Plan? ==> Fits(TierPlan(remaining).chunks, remaining)
    ensures 100.0 < remaining <= 1000.0 || 2000.0 < remaining <= MAX_REMAINING ==>
              Sum(TierPlan(remaining).chunks) == remaining
    ensures 0.0 <= remaining <= 100.0 ==> Sum(TierPlan(remaining).chunks) == 0.0
    ensures 1000.0 < remaining <= 2000.0 ==>
              |TierPlan(remaining).chunks| == 1 && 2.0 * Sum(TierPlan(remaining).chunks) == remaining
    ensures 2000.0 < remaining <= MAX_REMAINING ==>
              forall k :: 0 <= k < |TierPlan(remaining).chunks| ==> TierPlan(remaining).chunks[k] <= TIER_CHUNK
  {
    if 2000.0 < remaining <= MAX_REMAINING {
      LotsShape(remaining, MAX_TIER_FILLS);
    }
  }

  /** What the first k fills leave is enough for the next. */
  lemma {:induction false} FitsStep(chunks: seq<real>, remaining: real, k: nat)
    requires Fits(chunks, remaining) && k < |chunks|
    ensures 0.0 < chunks[k] && Sum(chunks[..k + 1]) == Sum(chunks[..k]) + chunks[k] <= remaining
    decreases |chunks| - k
  {
    assert chunks[..k + 1][..k] == chunks[..k];
    if k + 1 < |chunks| {
      FitsStep(chunks, remaining, k + 1);
    } else {
      assert chunks[..k + 1] == chunks;
    }
  }
}
