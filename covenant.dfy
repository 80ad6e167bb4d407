/**
 * What the pool covenant script accepts, stated over an abstract transaction
 * rather than by executing the opcodes. Each predicate is one segment of the
 * template in PoolScript; a 64-bit arithmetic opcode followed by OP_VERIFY
 * fails on overflow, so each product and sum must fit in signed 64 bits.
 */
module Covenant {
  import opened Bytes
  import opened Transactions
  import opened PoolScript

  /** The script can inspect inputs 0 and 1 and outputs 0 and 1. */
  predicate HasLegs(tx: Transaction) {
    |tx.inputs| >= 2 && |tx.outputs| >= 2
  }

  /** Input 0 and output 0 carry asset A; input 1 and output 1 carry asset B. */
  predicate AssetLegs(p: PoolParams, tx: Transaction)
    requires HasLegs(tx)
  {
    && tx.inputs[0].asset == Reverse(p.assetA)
    && tx.outputs[0].asset == Reverse(p.assetA)
    && tx.inputs[1].asset == Reverse(p.assetB)
    && tx.outputs[1].asset == Reverse(p.assetB)
  }

  /** Inputs 0 and 1 spend outputs of the same prior transaction. */
  predicate SameOrigin(tx: Transaction)
    requires HasLegs(tx)
  {
    tx.inputs[0].prevTxid == tx.inputs[1].prevTxid
  }

  /** The output reserve product fits in 64 bits and is at least the genesis product. */
  predicate GenesisFloor(p: PoolParams, tx: Transaction)
    requires HasLegs(tx)
  {
    var outputProduct := tx.outputs[0].value * tx.outputs[1].value;
    IsInt64(outputProduct) && outputProduct >= p.genesis
  }

  /**
   * The output product stays strictly below the input product plus the input
   * sum. The alt stack returns the input sum first, so it is added to the
   * input product, and the output product is the right-hand operand of
   * OP_GREATERTHAN64.
   */
  predicate BoundedDrift(tx: Transaction)
    requires HasLegs(tx)
  {
    var in0, in1 := tx.inputs[0].value, tx.inputs[1].value;
    var outputProduct := tx.outputs[0].value * tx.outputs[1].value;
    && IsInt64(in0 + in1)
    && IsInt64(in0 * in1)
    && IsInt64(in0 * in1 + (in0 + in1))
    && in0 * in1 + (in0 + in1) > outputProduct
  }

  /**
   * Outputs 0 and 1 keep the scriptPubKeys of inputs 0 and 1. The script
   * itself compares only the witness programs and requires each witness
   * version to be non-zero; comparing whole scriptPubKeys is stricter.
   */
  predicate ScriptKept(tx: Transaction)
    requires HasLegs(tx)
  {
    && tx.outputs[0].scriptPubKey == tx.inputs[0].scriptPubKey
    && tx.outputs[1].scriptPubKey == tx.inputs[1].scriptPubKey
  }

  /** The covenant of the pool `p` lets `tx` spend the pool. */
  predicate Accepts(p: PoolParams, tx: Transaction) {
    && HasLegs(tx)
    && AssetLegs(p, tx)
    && SameOrigin(tx)
    && GenesisFloor(p, tx)
    && BoundedDrift(tx)
    && ScriptKept(tx)
  }

  /** The covenant a script commits to, when the script is a pool script. */
  predicate ScriptAccepts(script: seq<Token>, tx: Transaction) {
    ParseScript(script).Some? && Accepts(ParseScript(script).value, tx)
  }

  /**
   * The script rendered for (assetA, assetB, product) enforces exactly the
   * covenant of those parameters.
   */
  lemma BuiltScriptEnforces(assetA: seq<byte>, assetB: seq<byte>, reserveProduct: int, tx: Transaction)
    requires IsInt64(reserveProduct)
    ensures ScriptAccepts(GetLiquidityPoolScript(assetA, assetB, reserveProduct).value, tx)
            <==> Accepts(PoolParams(assetA, assetB, reserveProduct), tx)
  {
    ParseBuildRoundTrip(assetA, assetB, reserveProduct);
  }
}
