/**
 * The JSON payloads the two web services return, as typed records.
 * A field that is missing from the JSON object (or is JSON null) is `None`.
 */
module Payloads {
  import opened Wrappers

  /**
   * A DexScreener trading-pair record. The nested `baseToken`, `liquidity`
   * and `volume` objects are flattened into their fields.
   */
  datatype Pair = Pair(
    chainId: Option<string>,
    pairAddress: Option<string>,
    dexId: Option<string>,
    baseAddress: Option<string>,   // baseToken.address: the token's mint
    baseSymbol: Option<string>,    // baseToken.symbol
    baseName: Option<string>,      // baseToken.name
    priceUsd: Option<real>,
    marketCap: Option<real>,
    fdv: Option<real>,
    liquidityUsd: Option<real>,    // liquidity.usd
    volume24h: Option<real>,       // volume.h24
    pairCreatedAt: Option<int>)

  /** A DexScreener response object; `pairs` is its only field the client reads. */
  datatype PairsResponse = PairsResponse(pairs: Option<seq<Pair>>)

  /** One Helius token-account record. */
  datatype HolderRecord = HolderRecord(
    owner: Option<string>,         // the wallet that owns the token account
    address: Option<string>,       // the token account itself
    amount: Option<nat>)           // raw amount, before decimals

  /** The `result` object of a Helius getTokenAccounts call. */
  datatype AccountsResult = AccountsResult(tokenAccounts: Option<seq<HolderRecord>>)

  /** The `value` object of a getTokenSupply call; `{}` is all `None`. */
  datatype SupplyValue = SupplyValue(amount: Option<nat>, decimals: Option<nat>, uiAmount: Option<real>)

  /** The `result` object of a getTokenSupply call. */
  datatype SupplyResult = SupplyResult(value: Option<SupplyValue>)

  /** Python's `float(x or 0)` on an optional number: absent, null and 0 all give 0. */
  function OrZero(x: Option<real>): real {
    x.GetOr(0.0)
  }

  /** Python's `d.get(k, "")` on an optional string. */
  function OrEmpty(x: Option<string>): string {
    x.GetOr("")
  }

  /** `float(pair.get("liquidity", {}).get("usd", 0) or 0)`. */
  function Liquidity(p: Pair): real {
    OrZero(p.liquidityUsd)
  }
}
