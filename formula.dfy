/**
 * The swap-sizing formula (payoutForInput and the Math.floor around it):
 * how much of the other asset a deposit into the pool pays out.
 */
module Formula {

  /**
   * floor(swapOutPool * swapInAmount / (swapInPool + swapInAmount)), in exact
   * integer arithmetic.
   */
  function PayoutForInput(swapOutPool: int, swapInPool: int, swapInAmount: int): int
    requires swapInPool + swapInAmount > 0
  {
    (swapOutPool * swapInAmount) / (swapInPool + swapInAmount)
  }

  /**
   * The payout is the floor of the exact quotient: the largest whole amount
   * whose price at the new pool ratio does not exceed the deposit's worth.
   */
  lemma PayoutIsFloor(swapOutPool: int, swapInPool: int, swapInAmount: int)
    requires swapInPool + swapInAmount > 0
    ensures var payout := PayoutForInput(swapOutPool, swapInPool, swapInAmount);
      && payout * (swapInPool + swapInAmount) <= swapOutPool * swapInAmount
      && swapOutPool * swapInAmount < (payout + 1) * (swapInPool + swapInAmount)
  {
    var d, q := swapInPool + swapInAmount, swapOutPool * swapInAmount;
    assert q == (q / d) * d + q % d;
  }

  /** What integer division leaves over: the rounding gain of the pool. */
  function SwapRemainder(swapOutPool: int, swapInPool: int, swapInAmount: int): (rem: int)
    requires swapInPool + swapInAmount > 0
    ensures 0 <= rem < swapInPool + swapInAmount
  {
    (swapOutPool * swapInAmount) % (swapInPool + swapInAmount)
  }

  /** The payout is positive exactly when the deposit buys at least one unit. */
  lemma PayoutPositiveIff(swapOutPool: int, swapInPool: int, swapInAmount: int)
    requires swapInPool + swapInAmount > 0
    ensures PayoutForInput(swapOutPool, swapInPool, swapInAmount) > 0
            <==> swapOutPool * swapInAmount >= swapInPool + swapInAmount
  {
    var d := swapInPool + swapInAmount;
    var p := PayoutForInput(swapOutPool, swapInPool, swapInAmount);
    PayoutIsFloor(swapOutPool, swapInPool, swapInAmount);
    if p > 0 {
      MulMonotone(d, 1, p);
    } else {
      MulMonotone(d, p + 1, 1);
    }
  }

  /** For a positive pool the payout is never negative and always below the pool. */
  lemma PayoutBelowReserve(swapOutPool: int, swapInPool: int, swapInAmount: int)
    requires swapOutPool > 0 && swapInPool > 0 && swapInAmount >= 0
    ensures 0 <= PayoutForInput(swapOutPool, swapInPool, swapInAmount) < swapOutPool
  {
    var d := swapInPool + swapInAmount;
    var p := PayoutForInput(swapOutPool, swapInPool, swapInAmount);
    PayoutIsFloor(swapOutPool, swapInPool, swapInAmount);
    assert swapOutPool * swapInAmount < swapOutPool * d;
    assert p * d < swapOutPool * d;
  }

  /** A larger deposit never pays out less. */
  lemma PayoutMonotone(swapOutPool: int, swapInPool: int, smaller: int, larger: int)
    requires swapOutPool >= 0 && swapInPool > 0 && 0 <= smaller <= larger
    ensures PayoutForInput(swapOutPool, swapInPool, smaller) <= PayoutForInput(swapOutPool, swapInPool, larger)
  {
    var d1, d2 := swapInPool + smaller, swapInPool + larger;
    var q1, q2 := swapOutPool * smaller, swapOutPool * larger;
    var p1 := PayoutForInput(swapOutPool, swapInPool, smaller);
    var p2 := PayoutForInput(swapOutPool, swapInPool, larger);
    PayoutIsFloor(swapOutPool, swapInPool, smaller);
    PayoutIsFloor(swapOutPool, swapInPool, larger);
    // q1 / d1 <= q2 / d2, cross-multiplied
    CrossRatio(swapOutPool, swapInPool, smaller, larger);
    assert q1 * d2 <= q2 * d1;
    // p1 <= q1 / d1, so p1 * d2 <= q2 as well
    MulMonotone(d2, p1 * d1, q1);
    MulAssoc(p1, d1, d2);
    assert (p1 * d2) * d1 <= q2 * d1;
    CancelPositive(d1, p1 * d2, q2);
    // q2 < (p2 + 1) * d2, so p1 cannot exceed p2
    if p1 > p2 {
      MulMonotone(d2, p2 + 1, p1);
      assert false;
    }
  }

  /** smaller / (pool + smaller) <= larger / (pool + larger), cross-multiplied and scaled. */
  lemma CrossRatio(scale: int, pool: int, smaller: int, larger: int)
    requires scale >= 0 && pool > 0 && 0 <= smaller <= larger
    ensures (scale * smaller) * (pool + larger) <= (scale * larger) * (pool + smaller)
  {
    assert smaller * (pool + larger) == smaller * pool + smaller * larger;
    assert larger * (pool + smaller) == larger * pool + larger * smaller;
    assert smaller * pool <= larger * pool;
    MulMonotone(scale, smaller * (pool + larger), larger * (pool + smaller));
    MulAssoc(scale, smaller, pool + larger);
    MulAssoc(scale, larger, pool + smaller);
  }

  lemma MulAssoc(x: int, y: int, z: int)
    ensures (x * y) * z == x * (y * z) == (x * z) * y
  {
  }

  lemma MulMonotone(k: int, x: int, y: int)
    requires k >= 0 && x <= y
    ensures k * x <= k * y && x * k <= y * k
  {
  }

  lemma CancelPositive(k: int, x: int, y: int)
    requires k > 0 && x * k <= y * k
    ensures x <= y
  {
    if x > y {
      MulMonotone(k, y + 1, x);
    }
  }

  /**
   * After a formula-sized swap the reserve product is the old product plus the
   * remainder of the division; so it never decreases.
   */
  lemma ProductAfterSwap(swapInPool: int, swapOutPool: int, swapInAmount: int)
    requires swapInPool + swapInAmount > 0
    ensures var payout := PayoutForInput(swapOutPool, swapInPool, swapInAmount);
      (swapInPool + swapInAmount) * (swapOutPool - payout)
      == swapInPool * swapOutPool + SwapRemainder(swapOutPool, swapInPool, swapInAmount)
  {
    var d := swapInPool + swapInAmount;
    var q := swapOutPool * swapInAmount;
    var payout := PayoutForInput(swapOutPool, swapInPool, swapInAmount);
    assert q == payout * d + q % d;
    calc {
      d * (swapOutPool - payout);
      d * swapOutPool - payout * d;
      d * swapOutPool - (q - q % d);
      swapInPool * swapOutPool + swapInAmount * swapOutPool - q + q % d;
      swapInPool * swapOutPool + q % d;
    }
  }

  /** The product after a swap is at least the product before it. */
  lemma ProductNeverDecreases(swapInPool: int, swapOutPool: int, swapInAmount: int)
    requires swapInPool + swapInAmount > 0
    ensures (swapInPool + swapInAmount) * (swapOutPool - PayoutForInput(swapOutPool, swapInPool, swapInAmount))
            >= swapInPool * swapOutPool
  {
    ProductAfterSwap(swapInPool, swapOutPool, swapInAmount);
  }

  /**
   * When the deposit is at most the other pool, the rounding gain stays below
   * the sum of the two pools (what the covenant's drift check tolerates).
   */
  lemma RemainderWithinPoolSum(swapInPool: int, swapOutPool: int, swapInAmount: int)
    requires swapInPool > 0 && swapInAmount >= 0 && swapInAmount <= swapOutPool
    ensures SwapRemainder(swapOutPool, swapInPool, swapInAmount) < swapInPool + swapOutPool
  {
  }

  /**
   * A deposit larger than the other pool can leave a rounding gain the drift
   * check does not tolerate: pools (1, 2) and a deposit of 100 pay out 1 and
   * leave 99, more than the pool sum 3.
   */
  lemma RemainderCanExceedPoolSum()
    ensures PayoutForInput(2, 1, 100) == 1
    ensures SwapRemainder(2, 1, 100) == 99 >= 1 + 2
  {
  }

  /** 6 of asset A against pools of 100000000 and 200000000 pays out 11. */
  lemma PayoutSixAgainstIssuedPools()
    ensures PayoutForInput(200_000_000, 100_000_000, 6) == 11
  {
  }
}
