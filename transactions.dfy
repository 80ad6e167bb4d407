/**
 * The abstract confidential-asset transaction the assembler lays out and the
 * covenant inspects. Asset ids and txids are stored in wire byte order, as the
 * assembler writes them (the displayed id's bytes reversed); values are plain
 * satoshi counts; scriptPubKeys are opaque byte strings.
 */
module Transactions {
  import opened Bytes

  /** An input together with the witness UTXO it claims to spend. */
  datatype TxIn = TxIn(prevTxid: seq<byte>, vout: nat, asset: seq<byte>, value: int, scriptPubKey: seq<byte>)

  datatype TxOut = TxOut(asset: seq<byte>, value: int, scriptPubKey: seq<byte>)

  datatype Transaction = Transaction(inputs: seq<TxIn>, outputs: seq<TxOut>)

  /** The input at `i` spends output `vout` of the transaction `txid`, which is `o`. */
  predicate Spends(i: TxIn, txid: seq<byte>, vout: nat, o: TxOut) {
    && i.prevTxid == Reverse(txid)
    && i.vout == vout
    && i.asset == o.asset
    && i.value == o.value
    && i.scriptPubKey == o.scriptPubKey
  }

  /** Total value of `asset` carried by the inputs. */
  function InValue(ins: seq<TxIn>, asset: seq<byte>): int {
    if ins == [] then 0
    else (if ins[0].asset == asset then ins[0].value else 0) + InValue(ins[1..], asset)
  }

  /** Total value of `asset` carried by the outputs. */
  function OutValue(outs: seq<TxOut>, asset: seq<byte>): int {
    if outs == [] then 0
    else (if outs[0].asset == asset then outs[0].value else 0) + OutValue(outs[1..], asset)
  }

  /** Every asset leaves the transaction in the amount it came in. */
  ghost predicate Balanced(tx: Transaction) {
    forall asset :: InValue(tx.inputs, asset) == OutValue(tx.outputs, asset)
  }

  lemma {:induction false} InValueAppend(s: seq<TxIn>, t: seq<TxIn>, asset: seq<byte>)
    ensures InValue(s + t, asset) == InValue(s, asset) + InValue(t, asset)
  {
    if s != [] {
      assert (s + t)[1..] == s[1..] + t;
      InValueAppend(s[1..], t, asset);
    } else {
      assert s + t == t;
    }
  }

  lemma {:induction false} OutValueAppend(s: seq<TxOut>, t: seq<TxOut>, asset: seq<byte>)
    ensures OutValue(s + t, asset) == OutValue(s, asset) + OutValue(t, asset)
  {
    if s != [] {
      assert (s + t)[1..] == s[1..] + t;
      OutValueAppend(s[1..], t, asset);
    } else {
      assert s + t == t;
    }
  }

  /** What one input contributes to the total of `asset`. */
  function InShare(i: TxIn, asset: seq<byte>): int {
    if i.asset == asset then i.value else 0
  }

  function OutShare(o: TxOut, asset: seq<byte>): int {
    if o.asset == asset then o.value else 0
  }

  lemma InValueSnoc(s: seq<TxIn>, i: TxIn, asset: seq<byte>)
    ensures InValue(s + [i], asset) == InValue(s, asset) + InShare(i, asset)
  {
    InValueAppend(s, [i], asset);
  }

  lemma OutValueSnoc(s: seq<TxOut>, o: TxOut, asset: seq<byte>)
    ensures OutValue(s + [o], asset) == OutValue(s, asset) + OutShare(o, asset)
  {
    OutValueAppend(s, [o], asset);
  }

  /** The per-asset sum of four inputs, spelled out share by share. */
  lemma InValueOfFour(ins: seq<TxIn>, asset: seq<byte>)
    requires |ins| == 4
    ensures InValue(ins, asset)
         == InShare(ins[0], asset) + InShare(ins[1], asset) + InShare(ins[2], asset) + InShare(ins[3], asset)
  {
    assert ins == [ins[0]] + [ins[1]] + [ins[2]] + [ins[3]];
    InValueSnoc([ins[0]] + [ins[1]] + [ins[2]], ins[3], asset);
    InValueSnoc([ins[0]] + [ins[1]], ins[2], asset);
    InValueSnoc([ins[0]], ins[1], asset);
  }

  /** The per-asset sum of six outputs, spelled out share by share. */
  lemma OutValueOfSix(outs: seq<TxOut>, asset: seq<byte>)
    requires |outs| == 6
    ensures OutValue(outs, asset)
         == OutShare(outs[0], asset) + OutShare(outs[1], asset) + OutShare(outs[2], asset)
          + OutShare(outs[3], asset) + OutShare(outs[4], asset) + OutShare(outs[5], asset)
  {
    assert outs == [outs[0]] + [outs[1]] + [outs[2]] + [outs[3]] + [outs[4]] + [outs[5]];
    OutValueSnoc([outs[0]] + [outs[1]] + [outs[2]] + [outs[3]] + [outs[4]], outs[5], asset);
    OutValueSnoc([outs[0]] + [outs[1]] + [outs[2]] + [outs[3]], outs[4], asset);
    OutValueSnoc([outs[0]] + [outs[1]] + [outs[2]], outs[3], asset);
    OutValueSnoc([outs[0]] + [outs[1]], outs[2], asset);
    OutValueSnoc([outs[0]], outs[1], asset);
  }
}
