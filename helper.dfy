/**
 * Two small helpers of the liquidjs wrapper: finding the output of a node's
 * decoded transaction that holds a given asset, and the x-only form of a
 * public key.
 */
module LiquidHelper {
  import opened Results
  import opened Bytes

  /** The parts of a decoded output (as the node's getrawtransaction renders it) the search reads. */
  datatype ScriptPubKey = ScriptPubKey(asm: Option<string>)
  datatype RawOutput = RawOutput(asset: Option<string>, scriptPubKey: ScriptPubKey)
  datatype RawTransaction = RawTransaction(vout: seq<RawOutput>)

  /**
   * An output qualifies when it names the asset in the clear and has a
   * non-empty script: a missing or empty `asm` is falsy, and a confidential
   * output carries no asset to compare.
   */
  predicate Holds(o: RawOutput, assetId: string) {
    o.asset == Some(assetId) && o.scriptPubKey.asm.Some? && o.scriptPubKey.asm.value != ""
  }

  /**
   * The index of the first output that holds `assetId`, or -1 when none does.
   */
  method GetOutputForAssetId(tx: RawTransaction, assetId: string) returns (index: int)
    ensures -1 <= index < |tx.vout|
    ensures index >= 0 ==> Holds(tx.vout[index], assetId)
    ensures index >= 0 ==> forall j :: 0 <= j < index ==> !Holds(tx.vout[j], assetId)
    ensures index == -1 <==> forall j :: 0 <= j < |tx.vout| ==> !Holds(tx.vout[j], assetId)
  {
    var vout := tx.vout;
    for i := 0 to |vout|
      invariant forall j :: 0 <= j < i ==> !Holds(vout[j], assetId)
    {
      if Holds(vout[i], assetId) {
        return i;
      }
    }
    return -1;
  }

  /**
   * The x-only form of a key: the key without its first byte (the parity
   * prefix of a compressed key); an empty key stays empty.
   */
  function ToXOnly(key: seq<byte>): (xOnly: seq<byte>)
    ensures |key| == 0 ==> xOnly == []
    ensures |key| > 0 ==> |xOnly| == |key| - 1
    ensures forall j :: 0 <= j < |xOnly| ==> xOnly[j] == key[j + 1]
  {
    if |key| == 0 then [] else key[1..]
  }

  /** Putting the prefix byte back in front of the x-only form gives the key again. */
  lemma XOnlyRestoresKey(key: seq<byte>)
    requires |key| > 0
    ensures [key[0]] + ToXOnly(key) == key
  {
    var x := ToXOnly(key);
    assert forall j :: 0 <= j < |key| ==> ([key[0]] + x)[j] == key[j];
  }

  /** Two keys with the same prefix byte and the same x-only form are the same key. */
  lemma XOnlyDeterminesKey(a: seq<byte>, b: seq<byte>)
    requires |a| > 0 && |b| > 0 && a[0] == b[0]
    requires ToXOnly(a) == ToXOnly(b)
    ensures a == b
  {
    XOnlyRestoresKey(a);
    XOnlyRestoresKey(b);
  }
}
