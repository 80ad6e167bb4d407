# Liquid liquidity pool, modelled in Dafny

This project models a constant-product liquidity pool on the Liquid
sidechain. The pool holds two issued assets, A and B, at a taproot covenant
address. The covenant is a tapscript built by `getLiquidityPoolScript`. It lets
anyone spend the pool only into a transaction that:

- keeps asset A on leg 0 and asset B on leg 1;
- spends both legs from the same transaction;
- keeps the covenant's witness program on both legs;
- keeps the reserve product at or above the genesis product written into the script;
- bounds the product's growth by the input sum.

`makeNewTrade` sizes a swap with the constant-product formula, floored to
whole units. It lays out a four-input, six-output transaction and returns
the pool state the next trade spends. `main` creates the pool, makes a first
swap with fixed amounts, and then threads the pool state through an endless
trade loop. The wrapper module contributes two helpers: a first-match search
over a decoded transaction's outputs, and the x-only form of a key.

The modules, one file each:

- `Results` (`results.dfy`): `Option` and `Result`.
- `Bytes` (`bytes.dfy`): bytes, byte reversal (hex ids are shown in reverse
  wire order), and the signed 64-bit little-endian encoding of
  `writeBigInt64LE`.
- `Transactions` (`transactions.dfy`): an abstract transaction (inputs with
  the UTXO they spend, outputs), spending, and per-asset conservation.
- `PoolScript` (`pool_script.dfy`): the covenant script as a token sequence,
  its builder, and a parser that inverts it.
- `Covenant` (`covenant.dfy`): what the script enforces, as a predicate over a
  transaction. No opcode interpreter is included.
- `Formula` (`formula.dfy`): the payout formula in exact integers, and the
  reserve-product arithmetic.
- `Trade` (`trade.dfy`): one trade as a function and as the imperative
  `MakeNewTrade`, the transaction layout, and the trade loop over a finite
  sequence of requests.
- `Setup` (`setup.dfy`): pool creation and the first swap in `main`.
- `LiquidHelper` (`helper.dfy`): `getOutputForAssetId` and `toXOnly`.

## Model

| member | source | states |
|---|---|---|
| Bytes.WriteInt64LE | main.ts:26-27 | The 8-byte buffer exists exactly when the value is a signed 64-bit integer; otherwise the write throws. |
| Bytes.Int64RoundTrip | main.ts:26-27 | Reading back the 8 little-endian bytes of any signed 64-bit value gives the value. |
| Bytes.Int64RoundTripBytes | main.ts:26-27 | Every 8-byte buffer is the encoding of the value it decodes to, so the encoding is onto. |
| Bytes.Reverse | main.ts:29-30 | The reversed buffer has the same length, and its byte i is byte n-1-i of the original. |
| Bytes.ReverseInvolutive | main.ts:29-30 | Reversing an id's bytes twice gives the id back. |
| Bytes.ReverseInjective | main.ts:29-30 | Distinct ids have distinct byte-reversed forms. |
| PoolScript.GetLiquidityPoolScript | main.ts:21-75 | The script is built exactly when the reserve product fits a signed 64-bit integer. |
| PoolScript.TemplateShape | main.ts:31-74 | The template has 75 tokens, with the asset pushes at the positions the covenant inspects and the genesis push before the product comparison. |
| PoolScript.ScriptEmbedsParameters | main.ts:26-47 | The built script pushes each asset id byte-reversed on both its input check and its output check, and pushes the product's 8-byte little-endian encoding. |
| PoolScript.ParseBuildRoundTrip | main.ts:21-75 | Parsing a built script returns the asset ids and the reserve product it was built from. |
| PoolScript.BuildParseRoundTrip | main.ts:21-75 | Every script the parser accepts is exactly the script built from the parameters it returns. |
| PoolScript.ScriptInjective | main.ts:21-75 | Different pool parameters give different scripts, so the covenant address commits to the assets and the genesis product. |
| Covenant.Accepts | main.ts:31-73 | The covenant's conditions on a transaction: at least two inputs and two outputs; asset A on input and output 0 and asset B on input and output 1 (byte-reversed); inputs 0 and 1 from the same prior txid; out0·out1 fits 64 bits and reaches the genesis product; in0+in1, in0·in1 and their sum fit 64 bits and exceed out0·out1; outputs 0 and 1 keep their inputs' scriptPubKeys. Its consequences are proved in `Trade.SwapCovenant` and `Setup.FirstSwapCovenant`. |
| Covenant.BuiltScriptEnforces | main.ts:31-75 | Under the model's reading of a script (`ScriptAccepts`: parse it, then apply `Accepts` to the parameters found), a built script accepts exactly the transactions that satisfy `Accepts` for the parameters it was built from. This is a consequence of the parse/build round trip, not of executing the opcodes. |
| Formula.PayoutForInput | main.ts:345-358 | The payout is (poolB·amountIn) div (poolA + amountIn) in exact integers, the floored formula. Its bounds are proved in `Formula.PayoutIsFloor`, `Formula.PayoutBelowReserve` and `Formula.PayoutMonotone`. |
| Formula.PayoutIsFloor | main.ts:345-358 | The payout is the floor of poolB·amountIn / (poolA + amountIn): it is at most that quotient and one more unit would exceed it. |
| Formula.PayoutPositiveIff | main.ts:356-364 | The payout is positive exactly when poolB·amountIn reaches poolA + amountIn; otherwise the trade is rejected. |
| Formula.PayoutBelowReserve | main.ts:345-358 | For positive pools and a non-negative deposit the payout is non-negative and strictly below pool B. |
| Formula.PayoutMonotone | main.ts:345-358 | A larger deposit never pays out less. |
| Formula.ProductAfterSwap | main.ts:411-414 | After a formula-sized swap the reserve product is the old product plus the division's remainder. |
| Formula.ProductNeverDecreases | main.ts:411-414 | The reserve product after a formula-sized swap is at least the product before it. |
| Formula.RemainderWithinPoolSum | main.ts:49-63 | If the deposit is at most pool B, the rounding gain stays below the pool sum, which is the growth the drift check tolerates. |
| Formula.RemainderCanExceedPoolSum | main.ts:49-63 | Pools (1, 2) with a deposit of 100 pay out 1 and leave a remainder of 99, beyond the pool sum of 3. |
| Formula.PayoutSixAgainstIssuedPools | main.ts:356-358 | Depositing 6 of A into pools of 100000000 and 200000000 pays out 11 of B. |
| Trade.ApplyTrade | main.ts:356-426 | A successful trade leaves both pools and the user's asset A positive. |
| Trade.TradeOutcome | main.ts:356-426 | For a positive pool, the trade succeeds exactly when the payout is positive and the user keeps some asset A; the two pool checks never fail. On success, pool A grows by the deposit, pool B shrinks by the payout, the user's A shrinks by the deposit, and the state carries the new txid. |
| Trade.TradeKeepsProduct | main.ts:411-426 | A successful trade never lowers the reserve product. |
| Trade.ChainLinks | main.ts:366-409 | Outputs 0, 1 and 5 of one swap are exactly what the next swap spends as inputs 0, 1 and 3, under the txid the swap was broadcast as. |
| Trade.MakeNewTrade | main.ts:327-504 | The method fails with the error the trade function gives, or returns that function's next state together with a transaction that has the swap layout: the pool and the user's A spent at inputs 0, 1 and 3, the funding at input 2, the new pool at outputs 0 and 1, the payout at 2, fee and change at 3 and 4, and the user's remaining A at 5. |
| Trade.SwapCovenant | main.ts:41-63 | For a swap from a state at or above the genesis floor whose 64-bit arithmetic fits, the covenant accepts exactly when the rounding remainder is below the pool sum. It always accepts when the deposit is at most pool B. |
| Trade.SwapConservesAssets | main.ts:366-459 | Funded with the LBTC fee amount, a laid-out swap conserves every asset: pool A plus the user's A, pool B plus the payout, and the fee plus the change. |
| Trade.Trace | main.ts:311-324 | The run of the trade loop over finite requests has at most one state per request, and every state in it is positive. |
| Trade.TraceSteps | main.ts:311-324 | Each state of a run is the successful trade of its request from the state before it. |
| Trade.TraceStopsAtFailure | main.ts:311-324 | A run shorter than its requests ends at a trade that failed. |
| Trade.TraceKeepsGenesisFloor | main.ts:311-324 | If the starting reserve product is at least the genesis product, then so is the product of every state of the run. |
| Trade.RunSwapValid | main.ts:311-324 | Every swap of a run from a state on the genesis floor conserves all assets, and it passes the covenant when its arithmetic fits and its deposit is at most pool B. |
| Trade.TradeLoop | main.ts:311-324 | The loop produces exactly the run of the requests, and every swap it makes has the swap layout. It stops at the first failed trade and reports that trade's error; it reports no failure only when every request went through. |
| Setup.LaunchPool | main.ts:77-309 | `main` gives up without a key address. It fails when the genesis product leaves the signed 64-bit range. Otherwise it builds the script, the creation transaction, the first swap and the loop's starting state. |
| Setup.LaunchScriptRoundTrip | main.ts:131-137 | The pool's script reads back as asset A, asset B and the product issuance × 2·issuance. |
| Setup.CreationConserves | main.ts:149-187 | The creation transaction conserves every asset when the node sent the amounts asked of it. |
| Setup.FirstSwapConserves | main.ts:197-281 | The first swap conserves every asset when the node sent the amounts asked of it. |
| Setup.FirstSwapSpendsCreation | main.ts:209-243 | The first swap spends the creation transaction's covenant outputs 0 and 1 and its change output 3. |
| Setup.FirstSwapCovenant | main.ts:245-281 | When the 64-bit arithmetic fits, the first swap's fixed amounts (6 of A in, 10 of B out) pass the covenant exactly when the issuance is at least 30. |
| Setup.LaunchHandsOver | main.ts:301-324 | The first swap pays the pool and the user's A where the loop's first trade spends them. The starting state has a positive pool A, and it is on the genesis floor exactly when the issuance is at least 30. |
| Setup.RunKeepsGenesisFloor | main.ts:301-324 | With an issuance of at least 30, every state the trade loop reaches keeps the reserve product at or above the genesis product. |
| LiquidHelper.GetOutputForAssetId | liquidjs-helper.ts:61-71 | The result is in [-1, number of outputs). A non-negative result is the first output that names the asset and has a non-empty script. The result is -1 exactly when no output qualifies. |
| LiquidHelper.ToXOnly | liquidjs-helper.ts:100-102 | The result is the key without its first byte: one byte shorter, and result[j] = key[j+1]. An empty key gives an empty result. |
| LiquidHelper.XOnlyRestoresKey | liquidjs-helper.ts:100-102 | Putting the first byte back in front of the x-only form gives the key. |
| LiquidHelper.XOnlyDeterminesKey | liquidjs-helper.ts:100-102 | Two keys with the same first byte and the same x-only form are equal. |

## Left out

- RPC and network I/O (`spendToAddress`, `issueAsset`, `sendRawTransaction`, `getRawTransaction`, the node client) are not modelled. The UTXOs they return and the txids of broadcast transactions are parameters (`Setup.Environment`, `Trade.Request`).
- Transaction construction, signing, finalizing and serializing by the liquidjs library are not modelled. A transaction is abstracted to assets, values, outpoints and scriptPubKeys.
- `getCovenantAddress` (a BIP 341 taproot output script) is not modelled. The covenant's and the user's scriptPubKeys are opaque byte strings.
- The opcodes of the Elements tapscript are not executed. The script is a token sequence, and its meaning is the `Covenant.Accepts` predicate. That predicate includes the overflow failures of the 64-bit arithmetic opcodes.
- Covenant.ScriptKept: the script compares only the witness programs of input n and output n, and of each witness version it only requires that it is non-zero. The model compares whole scriptPubKeys, so it rejects some spends the script accepts (an output keeping the program under another non-zero version). Every transaction the model builds keeps the exact scriptPubKey, so no proved property depends on the difference.
- The explicit/confidential prefix bytes of assets and values are not modelled. Assets are 32-byte-style ids and values are integers.
- Formula.PayoutForInput: uses exact integer division, while the source floors a JavaScript double. The two can differ once the operands pass 2^53.
- PoolScript.GetLiquidityPoolScript: takes the exact product, while the source passes a double to `BigInt`. Products above 2^53 are rounded in the source before the range check.
- Trade.MakeNewTrade: the deposit is a natural number. Prompt input that parses to NaN, a fraction or a negative number is not modelled.
- Trade.TradeLoop: the endless loop runs over a finite sequence of requests. A failed trade, which throws in the source and ends the program, ends the run.
- Trade.TradeLoop: every broadcast is assumed accepted by the node. The run therefore continues past a swap that the covenant rejects, where the source's `sendRawTransaction` would throw and end the program. `Trade.SwapCovenant` states exactly when a swap is rejected (a rounding remainder at or above the pool sum), and `Trade.RunSwapValid` states when every swap of a run is accepted.
- Setup.LaunchPool: both broadcasts are assumed accepted, so it returns a launch even when the covenant rejects the first swap (an issuance below 30, see `Setup.FirstSwapCovenant`), where the source would throw at the second broadcast.
- The exchange-rate and product printout in `makeNewTrade` and all console logging are not modelled, because they have no effect on state.
- `utils.ts` (`createInput`, `createInput2`) is not part of this model. Inputs are built directly as `TxIn` values that carry the UTXO they spend.
- `constants.ts` is not part of this model. The issuance amount, the LBTC asset id and the network fee are parameters.
- Hex parsing and printing of ids is not modelled. Ids are byte sequences, and the byte-reversed wire form is explicit.
- `convertToBitcoinUnits`, `fixRounding` and other floating-point code are not modelled.
- The first swap's fixed payout of 10 is not the formula's result for its pools (with an issuance of 100000000 the formula gives 11; see `Formula.PayoutSixAgainstIssuedPools`). It is modelled as written, and only its layout, conservation and covenant acceptance are proved.
