/**
 * The covenant script of a liquidity pool (getLiquidityPoolScript), held as
 * the token sequence of its ASM text: opcodes and pushed byte constants.
 * The script is parameterised by the two pool assets and the genesis reserve
 * product; ParseScript reads those parameters back.
 */
module PoolScript {
  import opened Results
  import opened Bytes

  /** The Elements opcodes the template uses. */
  datatype Opcode =
    | Op0 | Op1
    | InspectInputAsset | InspectOutputAsset | InspectInputOutpoint
    | InspectInputValue | InspectOutputValue
    | InspectInputScriptPubKey | InspectOutputScriptPubKey
    | Drop | Dup | TwoDup | EqualVerify | Verify
    | Mul64 | Add64 | GreaterThanOrEqual64 | GreaterThan64
    | ToAltStack | FromAltStack

  datatype Token = Op(code: Opcode) | Push(data: seq<byte>)

  /** What a pool covenant is built from: the asset ids (display byte order) and the genesis product. */
  datatype PoolParams = PoolParams(assetA: seq<byte>, assetB: seq<byte>, genesis: int)

  datatype ScriptError = ProductOutOfRange

  const ScriptLength := 75
  const AssetAAt := 3
  const AssetAOutAt := 8
  const AssetBAt := 13
  const AssetBOutAt := 18
  const GenesisAt := 39

  /** `n OP_INSPECT...ASSET OP_DROP <asset> OP_EQUALVERIFY`: leg `n` carries `asset`. */
  function AssetCheck(leg: Opcode, inspect: Opcode, wireAsset: seq<byte>): seq<Token> {
    [Op(leg), Op(inspect), Op(Drop), Push(wireAsset), Op(EqualVerify)]
  }

  /** Inputs 0 and 1 spend outputs of one transaction (the outpoint txids agree). */
  function SameOriginCheck(): seq<Token> {
    [ Op(Op0), Op(InspectInputOutpoint), Op(Drop), Op(Drop),
      Op(Op1), Op(InspectInputOutpoint), Op(Drop), Op(Drop),
      Op(EqualVerify) ]
  }

  /** out0 * out1, kept on the alt stack, must reach the genesis product. */
  function GenesisCheck(genesisLE: seq<byte>): seq<Token> {
    [ Op(Op0), Op(InspectOutputValue), Op(Drop),
      Op(Op1), Op(InspectOutputValue), Op(Drop), Op(Mul64), Op(Verify),
      Op(Dup), Op(ToAltStack),
      Push(genesisLE), Op(GreaterThanOrEqual64), Op(Verify) ]
  }

  /** in0 * in1 + (in0 + in1) must exceed the output product left on the alt stack. */
  function DriftCheck(): seq<Token> {
    [ Op(Op0), Op(InspectInputValue), Op(Drop),
      Op(Op1), Op(InspectInputValue), Op(Drop),
      Op(TwoDup),
      Op(Add64), Op(Verify), Op(ToAltStack),
      Op(Mul64), Op(Verify),
      Op(FromAltStack), Op(Add64), Op(Verify), Op(FromAltStack), Op(GreaterThan64), Op(Verify) ]
  }

  /** Output `n` keeps the scriptPubKey of input `n`. */
  function ScriptKeptCheck(leg: Opcode): seq<Token> {
    [ Op(leg), Op(InspectInputScriptPubKey), Op(Verify),
      Op(leg), Op(InspectOutputScriptPubKey), Op(Verify),
      Op(EqualVerify) ]
  }

  /** The template with its three constants filled in. */
  function Template(wireA: seq<byte>, wireB: seq<byte>, genesisLE: seq<byte>): seq<Token> {
    AssetCheck(Op0, InspectInputAsset, wireA)
    + AssetCheck(Op0, InspectOutputAsset, wireA)
    + AssetCheck(Op1, InspectInputAsset, wireB)
    + AssetCheck(Op1, InspectOutputAsset, wireB)
    + SameOriginCheck()
    + GenesisCheck(genesisLE)
    + DriftCheck()
    + ScriptKeptCheck(Op0)
    + ScriptKeptCheck(Op1)
    + [Op(Op1)]
  }

  lemma TemplateShape(wireA: seq<byte>, wireB: seq<byte>, genesisLE: seq<byte>)
    ensures var s := Template(wireA, wireB, genesisLE);
      && |s| == ScriptLength
      && s[AssetAAt] == Push(wireA) && s[AssetAOutAt] == Push(wireA)
      && s[AssetBAt] == Push(wireB) && s[AssetBOutAt] == Push(wireB)
      && s[GenesisAt] == Push(genesisLE) && s[GenesisAt + 1] == Op(GreaterThanOrEqual64)
  {
  }

  /**
   * getLiquidityPoolScript: both asset ids byte-reversed, the reserve product
   * as eight little-endian bytes; a product outside signed 64 bits is the
   * RangeError of writeBigInt64LE.
   */
  function GetLiquidityPoolScript(assetA: seq<byte>, assetB: seq<byte>, reserveProduct: int): (r: Result<seq<Token>, ScriptError>)
    ensures r.Ok? <==> IsInt64(reserveProduct)
  {
    match WriteInt64LE(reserveProduct)
    case None => Err(ProductOutOfRange)
    case Some(productLE) => Ok(Template(Reverse(assetA), Reverse(assetB), productLE))
  }

  /** Reads the pool parameters back out of a script, if it is an instance of the template. */
  function ParseScript(s: seq<Token>): (r: Option<PoolParams>)
  {
    if && |s| == ScriptLength
       && s[AssetAAt].Push? && s[AssetBAt].Push? && s[GenesisAt].Push?
       && |s[GenesisAt].data| == 8
       && s == Template(s[AssetAAt].data, s[AssetBAt].data, s[GenesisAt].data)
    then Some(PoolParams(Reverse(s[AssetAAt].data), Reverse(s[AssetBAt].data), ReadInt64LE(s[GenesisAt].data)))
    else None
  }

  /**
   * The script embeds asset A and asset B byte-reversed, at both of their
   * legs, and the reserve product as an eight-byte constant that decodes
   * back to the product.
   */
  lemma {:induction false} ScriptEmbedsParameters(assetA: seq<byte>, assetB: seq<byte>, reserveProduct: int)
    requires IsInt64(reserveProduct)
    ensures var s := GetLiquidityPoolScript(assetA, assetB, reserveProduct).value;
      && |s| == ScriptLength
      && s[AssetAAt] == s[AssetAOutAt] == Push(Reverse(assetA))
      && s[AssetBAt] == s[AssetBOutAt] == Push(Reverse(assetB))
      && s[GenesisAt].Push? && |s[GenesisAt].data| == 8
      && ReadInt64LE(s[GenesisAt].data) == reserveProduct
  {
    Int64RoundTrip(reserveProduct);
    TemplateShape(Reverse(assetA), Reverse(assetB), WriteInt64LE(reserveProduct).value);
  }

  /** Parsing a built script gives back exactly what it was built from. */
  lemma {:induction false} ParseBuildRoundTrip(assetA: seq<byte>, assetB: seq<byte>, reserveProduct: int)
    requires IsInt64(reserveProduct)
    ensures ParseScript(GetLiquidityPoolScript(assetA, assetB, reserveProduct).value)
            == Some(PoolParams(assetA, assetB, reserveProduct))
  {
    ScriptEmbedsParameters(assetA, assetB, reserveProduct);
    ReverseInvolutive(assetA);
    ReverseInvolutive(assetB);
  }

  /** Every script that parses is the one the builder renders from the parsed parameters. */
  lemma {:induction false} BuildParseRoundTrip(s: seq<Token>)
    requires ParseScript(s).Some?
    ensures var p := ParseScript(s).value;
      IsInt64(p.genesis) && GetLiquidityPoolScript(p.assetA, p.assetB, p.genesis) == Ok(s)
  {
    ReverseInvolutive(s[AssetAAt].data);
    ReverseInvolutive(s[AssetBAt].data);
    Int64RoundTripBytes(s[GenesisAt].data);
  }

  /** Different parameters give different scripts (and equal ones equal scripts, trivially). */
  lemma ScriptInjective(a: PoolParams, b: PoolParams)
    requires IsInt64(a.genesis) && IsInt64(b.genesis)
    requires GetLiquidityPoolScript(a.assetA, a.assetB, a.genesis) == GetLiquidityPoolScript(b.assetA, b.assetB, b.genesis)
    ensures a == b
  {
    ParseBuildRoundTrip(a.assetA, a.assetB, a.genesis);
    ParseBuildRoundTrip(b.assetA, b.assetB, b.genesis);
  }
}
