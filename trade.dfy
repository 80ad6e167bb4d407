/**
 * One trading step against the pool (makeNewTrade) and the loop that threads
 * the pool state from step to step. The broadcast txid, the funding UTXO and
 * the amount the user types are parameters; signing and broadcasting are not
 * modelled.
 */
module Trade {
  import opened Results
  import opened Bytes
  import opened Transactions
  import opened PoolScript
  import opened Covenant
  import opened Formula

  /** The LBTC amount funded for each trade's fee and change. */
  const LbtcFee := 10_000

  /**
   * What a trade needs besides the pool state: the covenant's parameters, the
   * LBTC asset id, the network fee, and the two scriptPubKeys (the covenant
   * address and the user's key address), which are opaque here.
   */
  datatype Config = Config(
    pool: PoolParams,
    lbtc: seq<byte>,
    txFee: int,
    covenantSpk: seq<byte>,
    keypairSpk: seq<byte>)

  /** The txid of the last pool transaction, the two reserves and the user's asset A. */
  datatype PoolState = PoolState(txid: seq<byte>, poolA: int, poolB: int, userA: int)

  datatype TradeError =
    | NoPayout              // the deposit buys no whole unit of asset B
    | PoolANotPositive      // pool A would not stay positive
    | PoolBNotPositive      // pool B would not stay positive
    | RemainingNotPositive  // the user would keep no asset A

  /** A swap: the transaction laid out and the pool state it leads to. */
  datatype Swap = Swap(tx: Transaction, next: PoolState)

  /** A trade request of the loop: the amount typed, the LBTC funding UTXO, and the broadcast txid. */
  datatype Request = Request(amountIn: nat, funding: TxIn, newTxid: seq<byte>)

  function Product(s: PoolState): int {
    s.poolA * s.poolB
  }

  predicate Positive(s: PoolState) {
    s.poolA > 0 && s.poolB > 0 && s.userA > 0
  }

  /** The reserve product and the input sum fit the covenant's 64-bit arithmetic. */
  predicate FitsInt64(s: PoolState) {
    s.poolA >= 0 && s.poolB >= 0 && s.poolA * s.poolB + (s.poolA + s.poolB) <= MaxInt64
  }

  /**
   * The pool state after depositing `amountIn` of asset A: the payout check
   * first, then the three balance checks, in the order makeNewTrade makes them.
   */
  function ApplyTrade(s: PoolState, amountIn: nat, newTxid: seq<byte>): (r: Result<PoolState, TradeError>)
    requires s.poolA > 0
    ensures r.Ok? ==> Positive(r.value)
  {
    var payout := PayoutForInput(s.poolB, s.poolA, amountIn);
    if payout <= 0 then Err(NoPayout)
    else if s.poolA + amountIn <= 0 then Err(PoolANotPositive)
    else if s.poolB - payout <= 0 then Err(PoolBNotPositive)
    else if s.userA - amountIn <= 0 then Err(RemainingNotPositive)
    else Ok(PoolState(newTxid, s.poolA + amountIn, s.poolB - payout, s.userA - amountIn))
  }

  /**
   * A trade succeeds exactly when it pays out something and the user keeps some
   * asset A; the two pool checks never fail on a positive pool. On success
   * pool A grows by the deposit, pool B shrinks by the formula's payout, and
   * the user's asset A shrinks by the deposit.
   */
  lemma {:induction false} TradeOutcome(s: PoolState, amountIn: nat, newTxid: seq<byte>)
    requires s.poolA > 0 && s.poolB > 0
    ensures var payout := PayoutForInput(s.poolB, s.poolA, amountIn);
      && (ApplyTrade(s, amountIn, newTxid).Ok? <==> payout > 0 && s.userA > amountIn)
      && ApplyTrade(s, amountIn, newTxid) != Err(PoolANotPositive)
      && ApplyTrade(s, amountIn, newTxid) != Err(PoolBNotPositive)
      && (payout > 0 && s.userA > amountIn ==>
            ApplyTrade(s, amountIn, newTxid)
            == Ok(PoolState(newTxid, s.poolA + amountIn, s.poolB - payout, s.userA - amountIn)))
  {
    PayoutBelowReserve(s.poolB, s.poolA, amountIn);
  }

  /** A successful trade never lowers the reserve product. */
  lemma {:induction false} TradeKeepsProduct(s: PoolState, amountIn: nat, newTxid: seq<byte>)
    requires s.poolA > 0
    requires ApplyTrade(s, amountIn, newTxid).Ok?
    ensures Product(ApplyTrade(s, amountIn, newTxid).value) >= Product(s)
  {
    ProductNeverDecreases(s.poolA, s.poolB, amountIn);
  }

  /** Inputs 0, 1 and 3 spend the pool's outputs 0, 1 and 5 as recorded in `s`. */
  predicate SpendsPool(cfg: Config, tx: Transaction, s: PoolState) {
    && |tx.inputs| == 4
    && tx.inputs[0] == TxIn(Reverse(s.txid), 0, Reverse(cfg.pool.assetA), s.poolA, cfg.covenantSpk)
    && tx.inputs[1] == TxIn(Reverse(s.txid), 1, Reverse(cfg.pool.assetB), s.poolB, cfg.covenantSpk)
    && tx.inputs[3] == TxIn(Reverse(s.txid), 5, Reverse(cfg.pool.assetA), s.userA, cfg.keypairSpk)
  }

  /** Outputs 0 and 1 hold the pool at the covenant; output 5 holds the user's asset A. */
  predicate PaysPool(cfg: Config, tx: Transaction, next: PoolState) {
    && |tx.outputs| == 6
    && tx.outputs[0] == TxOut(Reverse(cfg.pool.assetA), next.poolA, cfg.covenantSpk)
    && tx.outputs[1] == TxOut(Reverse(cfg.pool.assetB), next.poolB, cfg.covenantSpk)
    && tx.outputs[5] == TxOut(Reverse(cfg.pool.assetA), next.userA, cfg.keypairSpk)
  }

  /**
   * Output 2 pays the user what left pool B; outputs 3 and 4 are the network
   * fee and the LBTC change.
   */
  predicate PaysUserAndFee(cfg: Config, tx: Transaction, s: PoolState, next: PoolState) {
    && |tx.outputs| == 6
    && tx.outputs[2] == TxOut(Reverse(cfg.pool.assetB), s.poolB - next.poolB, cfg.keypairSpk)
    && tx.outputs[3] == TxOut(Reverse(cfg.lbtc), cfg.txFee, [])
    && tx.outputs[4] == TxOut(Reverse(cfg.lbtc), LbtcFee - cfg.txFee, cfg.keypairSpk)
  }

  /**
   * The positional conventions line up: what one swap pays to the pool and to
   * the user at outputs 0, 1 and 5 is exactly what the next swap spends at
   * inputs 0, 1 and 3, once the first swap is broadcast as `next.txid`.
   */
  lemma ChainLinks(cfg: Config, tx: Transaction, next: PoolState, nextTx: Transaction)
    requires PaysPool(cfg, tx, next) && SpendsPool(cfg, nextTx, next)
    ensures Spends(nextTx.inputs[0], next.txid, 0, tx.outputs[0])
    ensures Spends(nextTx.inputs[1], next.txid, 1, tx.outputs[1])
    ensures Spends(nextTx.inputs[3], next.txid, 5, tx.outputs[5])
  {
  }

  /**
   * makeNewTrade: size the payout, lay out the four inputs and six outputs of
   * the swap, and return the next pool state.
   */
  method MakeNewTrade(cfg: Config, s: PoolState, amountIn: nat, funding: TxIn, newTxid: seq<byte>)
    returns (r: Result<Swap, TradeError>)
    requires s.poolA > 0
    ensures r.Err? ==> ApplyTrade(s, amountIn, newTxid) == Err(r.error)
    ensures r.Ok? ==> ApplyTrade(s, amountIn, newTxid) == Ok(r.value.next)
    ensures r.Ok? ==> SwapLaidOut(cfg, r.value.tx, s, r.value.next, Request(amountIn, funding, newTxid))
  {
    var payout := PayoutForInput(s.poolB, s.poolA, amountIn);
    if payout <= 0 {
      return Err(NoPayout);
    }

    var inputs: seq<TxIn> := [];
    inputs := inputs + [TxIn(Reverse(s.txid), 0, Reverse(cfg.pool.assetA), s.poolA, cfg.covenantSpk)];
    inputs := inputs + [TxIn(Reverse(s.txid), 1, Reverse(cfg.pool.assetB), s.poolB, cfg.covenantSpk)];
    inputs := inputs + [funding];
    inputs := inputs + [TxIn(Reverse(s.txid), 5, Reverse(cfg.pool.assetA), s.userA, cfg.keypairSpk)];

    var remaining := s.userA - amountIn;
    var newPoolA := s.poolA + amountIn;
    var newPoolB := s.poolB - payout;

    if newPoolA <= 0 {
      return Err(PoolANotPositive);
    }
    if newPoolB <= 0 {
      return Err(PoolBNotPositive);
    }
    if remaining <= 0 {
      return Err(RemainingNotPositive);
    }

    var outputs := [
      TxOut(Reverse(cfg.pool.assetA), newPoolA, cfg.covenantSpk),
      TxOut(Reverse(cfg.pool.assetB), newPoolB, cfg.covenantSpk),
      TxOut(Reverse(cfg.pool.assetB), payout, cfg.keypairSpk),
      TxOut(Reverse(cfg.lbtc), cfg.txFee, []),
      TxOut(Reverse(cfg.lbtc), LbtcFee - cfg.txFee, cfg.keypairSpk),
      TxOut(Reverse(cfg.pool.assetA), remaining, cfg.keypairSpk)
    ];
    var tx := Transaction(inputs, outputs);
    var next := PoolState(newTxid, newPoolA, newPoolB, remaining);

    r := Ok(Swap(tx, next));
  }

  /**
   * A swap laid out for a successful trade from a state on or above the
   * genesis floor, whose 64-bit arithmetic fits, satisfies the covenant
   * exactly when the division's remainder stays below the pool sum; a deposit
   * no larger than pool B always does.
   */
  lemma SwapCovenant(cfg: Config, tx: Transaction, before: PoolState, after: PoolState, req: Request)
    requires before.poolA > 0 && ApplyTrade(before, req.amountIn, after.txid) == Ok(after)
    requires SwapLaidOut(cfg, tx, before, after, req)
    requires Product(before) >= cfg.pool.genesis && FitsInt64(before)
    ensures Accepts(cfg.pool, tx) <==> SwapRemainder(before.poolB, before.poolA, req.amountIn) < before.poolA + before.poolB
    ensures req.amountIn <= before.poolB ==> Accepts(cfg.pool, tx)
  {
    var s, amountIn := before, req.amountIn;
    var rem := SwapRemainder(s.poolB, s.poolA, amountIn);
    var inputProduct, inputSum := s.poolA * s.poolB, s.poolA + s.poolB;
    var outputProduct := tx.outputs[0].value * tx.outputs[1].value;
    ProductAfterSwap(s.poolA, s.poolB, amountIn);
    assert outputProduct == after.poolA * after.poolB == inputProduct + rem;
    assert tx.inputs[0].value * tx.inputs[1].value == inputProduct;
    assert 0 <= inputProduct by { MulMonotone(s.poolA, 0, s.poolB); }
    assert HasLegs(tx) && AssetLegs(cfg.pool, tx) && SameOrigin(tx) && ScriptKept(tx);
    if rem < inputSum {
      assert GenesisFloor(cfg.pool, tx);
      assert BoundedDrift(tx);
    } else {
      assert !BoundedDrift(tx);
    }
    if amountIn <= s.poolB {
      RemainderWithinPoolSum(s.poolA, s.poolB, amountIn);
    }
  }

  /** The pool state a step starts from: `start` before the first, the previous result after. */
  function StateBefore(start: PoolState, states: seq<PoolState>, i: nat): PoolState
    requires i <= |states|
  {
    if i == 0 then start else states[i - 1]
  }

  /**
   * The states the `while (true)` loop goes through for a finite run of
   * requests; the first failed trade aborts the run.
   */
  function Trace(s: PoolState, reqs: seq<Request>): (t: seq<PoolState>)
    requires s.poolA > 0
    ensures |t| <= |reqs|
    ensures forall i :: 0 <= i < |t| ==> Positive(t[i])
    decreases |reqs|
  {
    if reqs == [] then []
    else match ApplyTrade(s, reqs[0].amountIn, reqs[0].newTxid)
      case Err(_) => []
      case Ok(next) => [next] + Trace(next, reqs[1..])
  }

  /**
   * Each state of a run is the successful trade of the request at its
   * position, made from the state before it.
   */
  lemma {:induction false} TraceSteps(s: PoolState, reqs: seq<Request>, i: nat)
    requires s.poolA > 0
    requires i < |Trace(s, reqs)|
    ensures StateBefore(s, Trace(s, reqs), i).poolA > 0
    ensures ApplyTrade(StateBefore(s, Trace(s, reqs), i), reqs[i].amountIn, reqs[i].newTxid) == Ok(Trace(s, reqs)[i])
    decreases |reqs|
  {
    var next := ApplyTrade(s, reqs[0].amountIn, reqs[0].newTxid).value;
    var rest := Trace(next, reqs[1..]);
    assert Trace(s, reqs) == [next] + rest;
    if i > 0 {
      TraceSteps(next, reqs[1..], i - 1);
      assert reqs[i] == reqs[1..][i - 1];
    }
  }

  /** A run that ends before its last request ends at a trade that failed. */
  lemma {:induction false} TraceStopsAtFailure(s: PoolState, reqs: seq<Request>)
    requires s.poolA > 0
    requires |Trace(s, reqs)| < |reqs|
    ensures StateBefore(s, Trace(s, reqs), |Trace(s, reqs)|).poolA > 0
    ensures var k := |Trace(s, reqs)|;
      ApplyTrade(StateBefore(s, Trace(s, reqs), k), reqs[k].amountIn, reqs[k].newTxid).Err?
    decreases |reqs|
  {
    var r := ApplyTrade(s, reqs[0].amountIn, reqs[0].newTxid);
    if r.Ok? {
      var next := r.value;
      var rest := Trace(next, reqs[1..]);
      assert Trace(s, reqs) == [next] + rest;
      TraceStopsAtFailure(next, reqs[1..]);
      assert reqs[|rest| + 1] == reqs[1..][|rest|];
    }
  }

  /**
   * The genesis floor holds along a whole run: a state whose reserve product
   * reaches `genesis` only leads to states whose product does too.
   */
  lemma {:induction false} TraceKeepsGenesisFloor(s: PoolState, reqs: seq<Request>, genesis: int)
    requires s.poolA > 0 && Product(s) >= genesis
    ensures forall i :: 0 <= i < |Trace(s, reqs)| ==> Product(Trace(s, reqs)[i]) >= genesis
    decreases |reqs|
  {
    if reqs != [] {
      var r := ApplyTrade(s, reqs[0].amountIn, reqs[0].newTxid);
      if r.Ok? {
        TradeKeepsProduct(s, reqs[0].amountIn, reqs[0].newTxid);
        TraceKeepsGenesisFloor(r.value, reqs[1..], genesis);
        assert Trace(s, reqs) == [r.value] + Trace(r.value, reqs[1..]);
      }
    }
  }

  /**
   * The positions makeNewTrade gives a swap: inputs 0, 1 and 3 spend the pool
   * and the user's asset A as recorded in `before`, input 2 is the request's
   * LBTC funding, outputs 0, 1 and 5 hold `after`, output 2 pays the user what
   * left pool B, outputs 3 and 4 are the fee and the LBTC change.
   */
  predicate SwapLaidOut(cfg: Config, tx: Transaction, before: PoolState, after: PoolState, req: Request) {
    && SpendsPool(cfg, tx, before)
    && tx.inputs[2] == req.funding
    && PaysPool(cfg, tx, after)
    && PaysUserAndFee(cfg, tx, before, after)
  }

  /**
   * A swap laid out for a successful trade conserves every asset, provided its
   * funding input brings exactly LbtcFee of LBTC.
   */
  lemma SwapConservesAssets(cfg: Config, tx: Transaction, before: PoolState, after: PoolState, req: Request)
    requires before.poolA > 0 && ApplyTrade(before, req.amountIn, after.txid) == Ok(after)
    requires SwapLaidOut(cfg, tx, before, after, req)
    requires req.funding.asset == Reverse(cfg.lbtc) && req.funding.value == LbtcFee
    ensures Balanced(tx)
  {
    TradeOutcome(before, req.amountIn, after.txid);
    LegsConserve(tx);
  }

  /**
   * The leg pairing of a four-input, six-output swap: outputs 0 and 5 carry
   * the asset of inputs 0 and 3 and their total, outputs 1 and 2 that of
   * input 1, outputs 3 and 4 that of input 2.
   */
  predicate SwapLegsMatch(tx: Transaction) {
    && |tx.inputs| == 4 && |tx.outputs| == 6
    && tx.outputs[0].asset == tx.outputs[5].asset == tx.inputs[0].asset == tx.inputs[3].asset
    && tx.outputs[0].value + tx.outputs[5].value == tx.inputs[0].value + tx.inputs[3].value
    && tx.outputs[1].asset == tx.outputs[2].asset == tx.inputs[1].asset
    && tx.outputs[1].value + tx.outputs[2].value == tx.inputs[1].value
    && tx.outputs[3].asset == tx.outputs[4].asset == tx.inputs[2].asset
    && tx.outputs[3].value + tx.outputs[4].value == tx.inputs[2].value
  }

  /** Matching legs conserve every asset. */
  lemma LegsConserve(tx: Transaction)
    requires SwapLegsMatch(tx)
    ensures Balanced(tx)
  {
    forall asset ensures InValue(tx.inputs, asset) == OutValue(tx.outputs, asset) {
      InValueOfFour(tx.inputs, asset);
      OutValueOfSix(tx.outputs, asset);
    }
  }

  /** Every step of a run so far, folded from the last one back. */
  ghost predicate AllLaidOut(cfg: Config, start: PoolState, states: seq<PoolState>, swaps: seq<Transaction>, reqs: seq<Request>)
    requires |swaps| == |states| <= |reqs|
    decreases |states|
  {
    |states| == 0 ||
    var n := |states| - 1;
    && AllLaidOut(cfg, start, states[..n], swaps[..n], reqs)
    && SwapLaidOut(cfg, swaps[n], StateBefore(start, states, n), states[n], reqs[n])
  }

  lemma {:induction false} AllLaidOutAt(cfg: Config, start: PoolState, states: seq<PoolState>, swaps: seq<Transaction>, reqs: seq<Request>, k: nat)
    requires |swaps| == |states| <= |reqs| && k < |states|
    requires AllLaidOut(cfg, start, states, swaps, reqs)
    ensures SwapLaidOut(cfg, swaps[k], StateBefore(start, states, k), states[k], reqs[k])
    decreases |states|
  {
    var n := |states| - 1;
    if k < n {
      AllLaidOutAt(cfg, start, states[..n], swaps[..n], reqs, k);
      assert StateBefore(start, states[..n], k) == StateBefore(start, states, k);
    }
  }

  lemma EverySwapLaidOut(cfg: Config, start: PoolState, states: seq<PoolState>, swaps: seq<Transaction>, reqs: seq<Request>)
    requires |swaps| == |states| <= |reqs|
    requires AllLaidOut(cfg, start, states, swaps, reqs)
    ensures forall k :: 0 <= k < |swaps| ==>
      SwapLaidOut(cfg, swaps[k], StateBefore(start, states, k), states[k], reqs[k])
  {
    forall k | 0 <= k < |swaps|
      ensures SwapLaidOut(cfg, swaps[k], StateBefore(start, states, k), states[k], reqs[k])
    {
      AllLaidOutAt(cfg, start, states, swaps, reqs, k);
    }
  }

  /**
   * Any swap of a run from a state on or above the genesis floor conserves
   * every asset when funded with LbtcFee of LBTC, and passes the covenant when
   * its 64-bit arithmetic fits and its deposit is at most pool B.
   */
  lemma RunSwapValid(cfg: Config, start: PoolState, reqs: seq<Request>, swaps: seq<Transaction>, k: nat)
    requires start.poolA > 0 && Product(start) >= cfg.pool.genesis
    requires |swaps| == |Trace(start, reqs)| && k < |swaps|
    requires SwapLaidOut(cfg, swaps[k], StateBefore(start, Trace(start, reqs), k), Trace(start, reqs)[k], reqs[k])
    requires reqs[k].funding.asset == Reverse(cfg.lbtc) && reqs[k].funding.value == LbtcFee
    requires FitsInt64(StateBefore(start, Trace(start, reqs), k))
    requires reqs[k].amountIn <= StateBefore(start, Trace(start, reqs), k).poolB
    ensures Balanced(swaps[k]) && Accepts(cfg.pool, swaps[k])
  {
    var states := Trace(start, reqs);
    var before := StateBefore(start, states, k);
    TraceSteps(start, reqs, k);
    if k > 0 {
      TraceKeepsGenesisFloor(start, reqs, cfg.pool.genesis);
    }
    assert Product(before) >= cfg.pool.genesis;
    SwapConservesAssets(cfg, swaps[k], before, states[k], reqs[k]);
    SwapCovenant(cfg, swaps[k], before, states[k], reqs[k]);
  }

  /**
   * The trade loop of `main`, over a finite sequence of requests: each
   * iteration makes one trade from the current state and continues from the
   * state it returns; the first error ends the loop.
   */
  method TradeLoop(cfg: Config, start: PoolState, reqs: seq<Request>)
    returns (states: seq<PoolState>, swaps: seq<Transaction>, failure: Option<TradeError>)
    requires start.poolA > 0
    ensures states == Trace(start, reqs)
    ensures |swaps| == |states| <= |reqs|
    ensures failure.None? <==> |states| == |reqs|
    ensures failure.Some? ==>
      var k := |states|;
      ApplyTrade(StateBefore(start, states, k), reqs[k].amountIn, reqs[k].newTxid) == Err(failure.value)
    ensures forall k :: 0 <= k < |swaps| ==>
      SwapLaidOut(cfg, swaps[k], StateBefore(start, states, k), states[k], reqs[k])
  {
    states, swaps, failure := [], [], None;
    var cur := start;
    var i := 0;
    while i < |reqs|
      invariant 0 <= i <= |reqs| && |states| == |swaps| == i
      invariant cur.poolA > 0
      invariant cur == StateBefore(start, states, i)
      invariant states + Trace(cur, reqs[i..]) == Trace(start, reqs)
      invariant AllLaidOut(cfg, start, states, swaps, reqs)
    {
      var req := reqs[i];
      var r := MakeNewTrade(cfg, cur, req.amountIn, req.funding, req.newTxid);
      if r.Err? {
        TraceStopsAt(start, states, cur, reqs, i);
        failure := Some(r.error);
        break;
      }
      TraceAdvances(start, states, cur, reqs, i, r.value.next);
      AllLaidOutSnoc(cfg, start, states, swaps, reqs, r.value.tx, r.value.next);
      states := states + [r.value.next];
      swaps := swaps + [r.value.tx];
      cur := r.value.next;
      i := i + 1;
    }
    if failure.None? {
      TraceStopsAt(start, states, cur, reqs, i);
    }
    EverySwapLaidOut(cfg, start, states, swaps, reqs);
  }

  /** A successful step from `cur` extends the run by the state it returns. */
  lemma TraceAdvances(start: PoolState, states: seq<PoolState>, cur: PoolState, reqs: seq<Request>, i: nat, next: PoolState)
    requires start.poolA > 0 && cur.poolA > 0 && i < |reqs|
    requires states + Trace(cur, reqs[i..]) == Trace(start, reqs)
    requires ApplyTrade(cur, reqs[i].amountIn, reqs[i].newTxid) == Ok(next)
    ensures next.poolA > 0
    ensures (states + [next]) + Trace(next, reqs[i + 1..]) == Trace(start, reqs)
  {
    assert reqs[i..][1..] == reqs[i + 1..];
  }

  /** A failed step, or the end of the requests, ends the run where it stands. */
  lemma TraceStopsAt(start: PoolState, states: seq<PoolState>, cur: PoolState, reqs: seq<Request>, i: nat)
    requires start.poolA > 0 && cur.poolA > 0 && i <= |reqs|
    requires states + Trace(cur, reqs[i..]) == Trace(start, reqs)
    requires i < |reqs| ==> ApplyTrade(cur, reqs[i].amountIn, reqs[i].newTxid).Err?
    ensures states == Trace(start, reqs)
  {
    if i == |reqs| {
      assert reqs[i..] == [];
    }
  }

  lemma AllLaidOutSnoc(cfg: Config, start: PoolState, states: seq<PoolState>, swaps: seq<Transaction>, reqs: seq<Request>,
                       tx: Transaction, next: PoolState)
    requires |swaps| == |states| < |reqs|
    requires AllLaidOut(cfg, start, states, swaps, reqs)
    requires SwapLaidOut(cfg, tx, StateBefore(start, states, |states|), next, reqs[|states|])
    ensures AllLaidOut(cfg, start, states + [next], swaps + [tx], reqs)
  {
    var n := |states|;
    assert (states + [next])[..n] == states && (swaps + [tx])[..n] == swaps;
    assert StateBefore(start, states + [next], n) == StateBefore(start, states, n);
  }
}
