/**
 * The opening of `main`: the pool is created by one transaction that pays
 * the two issued assets to the covenant, and opened by a first swap with
 * fixed amounts whose result is the state the trade loop starts from.
 */
module Setup {
  import opened Results
  import opened Bytes
  import opened Transactions
  import opened PoolScript
  import opened Covenant
  import opened Trade

  /** LBTC sent to the user's address to pay the fees. */
  const LbtcIssuance := 100_000
  /** Asset A issued on top of the pool's share and sent to the user afterwards. */
  const AdditionalAssetA := 100_000
  /** The first swap's fixed deposit of asset A and its fixed payout of asset B. */
  const FirstSwapIn := 6
  const FirstSwapOut := 10

  /**
   * What `main` obtains from outside: the issuance amount and the LBTC id
   * and fee (repository constants), the user's output script if the key has
   * an address, the covenant's output script (derived from the script by
   * the taproot library), the UTXOs the node's sends and issuances returned,
   * and the txids the node gave the two broadcast transactions.
   */
  datatype Environment = Environment(
    issuance: nat,
    assetA: seq<byte>,
    assetB: seq<byte>,
    lbtc: seq<byte>,
    txFee: int,
    keypairSpk: Option<seq<byte>>,
    covenantSpk: seq<byte>,
    funding: TxIn,
    spendA: TxIn,
    spendB: TxIn,
    spendA2: TxIn,
    poolTxid: seq<byte>,
    firstSwapTxid: seq<byte>)

  datatype SetupError =
    | NoKeypairAddress          // `main` returns before doing anything
    | BadScript(ScriptError)    // writeBigInt64LE throws

  /** Everything the opening produces. */
  datatype Launch = Launch(
    script: seq<Token>,
    cfg: Config,
    create: Transaction,
    firstSwap: Transaction,
    start: PoolState)

  /** Pool B receives twice the issuance of pool A. */
  function IssuanceB(env: Environment): nat {
    2 * env.issuance
  }

  /** The genesis reserve product written into the script. */
  function Genesis(env: Environment): int {
    env.issuance * IssuanceB(env)
  }

  /** The LBTC left to the user after the creation transaction's fee. */
  function Change(env: Environment): int {
    LbtcIssuance - env.txFee
  }

  /** The UTXOs the node handed back hold what was asked of it. */
  predicate FundsAsSent(env: Environment) {
    && env.funding.asset == Reverse(env.lbtc) && env.funding.value == LbtcIssuance
    && env.spendA.asset == Reverse(env.assetA) && env.spendA.value == env.issuance
    && env.spendB.asset == Reverse(env.assetB) && env.spendB.value == IssuanceB(env)
    && env.spendA2.asset == Reverse(env.assetA) && env.spendA2.value == AdditionalAssetA
  }

  /**
   * The creation transaction: spends the A, B and LBTC UTXOs, pays both
   * issuances to the covenant at outputs 0 and 1, the fee at output 2 and the
   * LBTC change back to the user at output 3.
   */
  predicate CreationLaidOut(env: Environment, keypairSpk: seq<byte>, tx: Transaction) {
    && tx.inputs == [env.spendA, env.spendB, env.funding]
    && tx.outputs == [
         TxOut(Reverse(env.assetA), env.issuance, env.covenantSpk),
         TxOut(Reverse(env.assetB), IssuanceB(env), env.covenantSpk),
         TxOut(Reverse(env.lbtc), env.txFee, []),
         TxOut(Reverse(env.lbtc), Change(env), keypairSpk)]
  }

  /**
   * The first swap: spends the covenant's outputs 0 and 1 and the LBTC change
   * at output 3 of the creation transaction, plus the extra asset A; the pool
   * gains FirstSwapIn of A and loses FirstSwapOut of B to the user.
   */
  predicate FirstSwapLaidOut(env: Environment, keypairSpk: seq<byte>, tx: Transaction) {
    && tx.inputs == [
         TxIn(Reverse(env.poolTxid), 0, Reverse(env.assetA), env.issuance, env.covenantSpk),
         TxIn(Reverse(env.poolTxid), 1, Reverse(env.assetB), IssuanceB(env), env.covenantSpk),
         TxIn(Reverse(env.poolTxid), 3, Reverse(env.lbtc), Change(env), keypairSpk),
         env.spendA2]
    && tx.outputs == [
         TxOut(Reverse(env.assetA), env.issuance + FirstSwapIn, env.covenantSpk),
         TxOut(Reverse(env.assetB), IssuanceB(env) - FirstSwapOut, env.covenantSpk),
         TxOut(Reverse(env.assetB), FirstSwapOut, keypairSpk),
         TxOut(Reverse(env.lbtc), env.txFee, []),
         TxOut(Reverse(env.lbtc), Change(env) - env.txFee, keypairSpk),
         TxOut(Reverse(env.assetA), AdditionalAssetA - FirstSwapIn, keypairSpk)]
  }

  /** What a successful opening consists of. */
  predicate LaunchLaidOut(env: Environment, l: Launch)
    requires env.keypairSpk.Some?
  {
    var keypairSpk := env.keypairSpk.value;
    && GetLiquidityPoolScript(env.assetA, env.assetB, Genesis(env)) == Ok(l.script)
    && l.cfg == Config(PoolParams(env.assetA, env.assetB, Genesis(env)), env.lbtc, env.txFee, env.covenantSpk, keypairSpk)
    && CreationLaidOut(env, keypairSpk, l.create)
    && FirstSwapLaidOut(env, keypairSpk, l.firstSwap)
    && l.start == PoolState(env.firstSwapTxid, env.issuance + FirstSwapIn,
                            IssuanceB(env) - FirstSwapOut, AdditionalAssetA - FirstSwapIn)
  }

  /**
   * The opening of `main`, up to the trade loop: it gives up without an
   * address for the key, fails when the genesis product does not fit the
   * script's signed 64-bit constant, and otherwise builds the script, the
   * two transactions, and the state the loop starts from.
   */
  method LaunchPool(env: Environment) returns (r: Result<Launch, SetupError>)
    ensures env.keypairSpk.None? ==> r == Err(NoKeypairAddress)
    ensures env.keypairSpk.Some? && !IsInt64(Genesis(env)) ==> r == Err(BadScript(ProductOutOfRange))
    ensures r.Ok? <==> env.keypairSpk.Some? && IsInt64(Genesis(env))
    ensures r.Ok? ==> LaunchLaidOut(env, r.value)
  {
    if env.keypairSpk.None? {
      return Err(NoKeypairAddress);
    }
    var keypairSpk := env.keypairSpk.value;

    var issuanceA := env.issuance;
    var issuanceB := 2 * env.issuance;
    var reserveProduct := issuanceA * issuanceB;
    var built := GetLiquidityPoolScript(env.assetA, env.assetB, reserveProduct);
    if built.Err? {
      return Err(BadScript(built.error));
    }
    var script := built.value;

    // spend to the pool covenant
    var inputs: seq<TxIn> := [];
    inputs := inputs + [env.spendA];
    inputs := inputs + [env.spendB];
    inputs := inputs + [env.funding];
    var changeAmount := LbtcIssuance - env.txFee;
    var outputs := [
      TxOut(Reverse(env.assetA), issuanceA, env.covenantSpk),
      TxOut(Reverse(env.assetB), issuanceB, env.covenantSpk),
      TxOut(Reverse(env.lbtc), env.txFee, []),
      TxOut(Reverse(env.lbtc), changeAmount, keypairSpk)
    ];
    var create := Transaction(inputs, outputs);
    var txid := env.poolTxid;

    // spend from the pool covenant
    inputs := [];
    inputs := inputs + [TxIn(Reverse(txid), 0, Reverse(env.assetA), issuanceA, env.covenantSpk)];
    inputs := inputs + [TxIn(Reverse(txid), 1, Reverse(env.assetB), issuanceB, env.covenantSpk)];
    inputs := inputs + [TxIn(Reverse(txid), 3, Reverse(env.lbtc), changeAmount, keypairSpk)];
    inputs := inputs + [env.spendA2];

    var assetASwapInAmount := FirstSwapIn;
    var assetABalance := AdditionalAssetA - assetASwapInAmount;
    var assetBSwapOutAmount := FirstSwapOut;
    outputs := [
      TxOut(Reverse(env.assetA), issuanceA + assetASwapInAmount, env.covenantSpk),
      TxOut(Reverse(env.assetB), issuanceB - assetBSwapOutAmount, env.covenantSpk),
      TxOut(Reverse(env.assetB), assetBSwapOutAmount, keypairSpk),
      TxOut(Reverse(env.lbtc), env.txFee, []),
      TxOut(Reverse(env.lbtc), changeAmount - env.txFee, keypairSpk),
      TxOut(Reverse(env.assetA), assetABalance, keypairSpk)
    ];
    var firstSwap := Transaction(inputs, outputs);

    var start := PoolState(env.firstSwapTxid, issuanceA + assetASwapInAmount,
                           issuanceB - assetBSwapOutAmount, assetABalance);
    var cfg := Config(PoolParams(env.assetA, env.assetB, reserveProduct), env.lbtc, env.txFee,
                      env.covenantSpk, keypairSpk);
    r := Ok(Launch(script, cfg, create, firstSwap, start));
  }

  /** The script of an opening reads back as the pool's assets and genesis product. */
  lemma LaunchScriptRoundTrip(env: Environment, l: Launch)
    requires env.keypairSpk.Some? && LaunchLaidOut(env, l)
    ensures ParseScript(l.script) == Some(l.cfg.pool)
    ensures l.cfg.pool == PoolParams(env.assetA, env.assetB, Genesis(env))
  {
    ParseBuildRoundTrip(env.assetA, env.assetB, Genesis(env));
  }

  /** The creation transaction conserves every asset when the node sent what was asked. */
  lemma CreationConserves(env: Environment, l: Launch)
    requires env.keypairSpk.Some? && LaunchLaidOut(env, l) && FundsAsSent(env)
    ensures Balanced(l.create)
  {
    var ins, outs := l.create.inputs, l.create.outputs;
    forall asset ensures InValue(ins, asset) == OutValue(outs, asset) {
      assert ins == [ins[0]] + [ins[1]] + [ins[2]];
      assert outs == [outs[0]] + [outs[1]] + [outs[2]] + [outs[3]];
      InValueSnoc([ins[0]] + [ins[1]], ins[2], asset);
      InValueSnoc([ins[0]], ins[1], asset);
      OutValueSnoc([outs[0]] + [outs[1]] + [outs[2]], outs[3], asset);
      OutValueSnoc([outs[0]] + [outs[1]], outs[2], asset);
      OutValueSnoc([outs[0]], outs[1], asset);
    }
  }

  /** The first swap conserves every asset when the node sent what was asked. */
  lemma FirstSwapConserves(env: Environment, l: Launch)
    requires env.keypairSpk.Some? && LaunchLaidOut(env, l) && FundsAsSent(env)
    ensures Balanced(l.firstSwap)
  {
    assert SwapLegsMatch(l.firstSwap);
    LegsConserve(l.firstSwap);
  }

  /**
   * The first swap spends the creation transaction's covenant outputs 0 and 1
   * and its change output 3, once that is broadcast as `poolTxid`.
   */
  lemma FirstSwapSpendsCreation(env: Environment, l: Launch)
    requires env.keypairSpk.Some? && LaunchLaidOut(env, l)
    ensures Spends(l.firstSwap.inputs[0], env.poolTxid, 0, l.create.outputs[0])
    ensures Spends(l.firstSwap.inputs[1], env.poolTxid, 1, l.create.outputs[1])
    ensures Spends(l.firstSwap.inputs[2], env.poolTxid, 3, l.create.outputs[3])
  {
  }

  /**
   * The first swap's fixed amounts pass the covenant exactly when the issuance
   * is at least 30: below that, taking 10 of B for 6 of A lowers the reserve
   * product under the genesis product.
   */
  lemma FirstSwapCovenant(env: Environment, l: Launch)
    requires env.keypairSpk.Some? && LaunchLaidOut(env, l)
    requires Genesis(env) + 3 * env.issuance <= MaxInt64
    ensures Accepts(l.cfg.pool, l.firstSwap) <==> env.issuance >= 30
  {
    var i: int := env.issuance;
    var tx := l.firstSwap;
    FirstSwapProducts(i);
    assert tx.inputs[0].value * tx.inputs[1].value == Genesis(env) == 2 * (i * i);
    assert tx.outputs[0].value * tx.outputs[1].value == 2 * (i * i) + 2 * i - 60;
    assert HasLegs(tx) && AssetLegs(l.cfg.pool, tx) && SameOrigin(tx) && ScriptKept(tx);
    assert BoundedDrift(tx);
    assert GenesisFloor(l.cfg.pool, tx) <==> i >= 30;
  }

  /** The reserve products before and after the first swap, expanded. */
  lemma FirstSwapProducts(i: int)
    ensures i * (2 * i) == 2 * (i * i)
    ensures (i + FirstSwapIn) * (2 * i - FirstSwapOut) == 2 * (i * i) + 2 * i - 60
  {
  }

  /**
   * The first swap pays the pool and the user's asset A exactly where the
   * trade loop's first step spends them, and the state it leaves is a valid
   * loop start: positive, and on the genesis floor exactly when the issuance
   * is at least 30.
   */
  lemma LaunchHandsOver(env: Environment, l: Launch, nextTx: Transaction)
    requires env.keypairSpk.Some? && LaunchLaidOut(env, l)
    requires SpendsPool(l.cfg, nextTx, l.start)
    ensures PaysPool(l.cfg, l.firstSwap, l.start)
    ensures Spends(nextTx.inputs[0], l.start.txid, 0, l.firstSwap.outputs[0])
    ensures Spends(nextTx.inputs[1], l.start.txid, 1, l.firstSwap.outputs[1])
    ensures Spends(nextTx.inputs[3], l.start.txid, 5, l.firstSwap.outputs[5])
    ensures l.start.poolA > 0
    ensures Product(l.start) >= l.cfg.pool.genesis <==> env.issuance >= 30
  {
    ChainLinks(l.cfg, l.firstSwap, l.start, nextTx);
    var i: int := env.issuance;
    FirstSwapProducts(i);
    assert Product(l.start) == 2 * (i * i) + 2 * i - 60;
  }

  /**
   * From an opening with an issuance of at least 30, every state the trade
   * loop reaches keeps the reserve product at or above the genesis product.
   */
  lemma RunKeepsGenesisFloor(env: Environment, l: Launch, reqs: seq<Request>)
    requires env.keypairSpk.Some? && LaunchLaidOut(env, l) && env.issuance >= 30
    ensures forall k :: 0 <= k < |Trace(l.start, reqs)| ==> Product(Trace(l.start, reqs)[k]) >= l.cfg.pool.genesis
  {
    var i: int := env.issuance;
    FirstSwapProducts(i);
    assert Product(l.start) == 2 * (i * i) + 2 * i - 60;
    TraceKeepsGenesisFloor(l.start, reqs, l.cfg.pool.genesis);
  }
}
