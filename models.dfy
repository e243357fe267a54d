/**
 * The data records of the wallet tracker: token information, holder entries,
 * holding queries, wallet matches and the two result records.
 */
module Models {
  import opened Wrappers
  import opened Payloads

  /** `10 ** d` for the token's decimal places. */
  function Pow10(d: nat): (r: nat)
    ensures r >= 1
  {
    if d == 0 then 1 else 10 * Pow10(d - 1)
  }

  /** A raw amount in whole tokens: `raw / 10 ** decimals`. */
  function UiAmount(raw: nat, decimals: nat): (r: real)
    ensures r * (Pow10(decimals) as real) == raw as real
    ensures r >= 0.0
  {
    raw as real / Pow10(decimals) as real
  }

  /** The decimals a token has when the supply record does not say. */
  const DefaultDecimals: nat := 9

  /**
   * A token as DexScreener describes it. Only `supply` and `decimals` are ever
   * reassigned after construction, so the other fields are constants.
   */
  class TokenInfo {
    const mintAddress: string
    const symbol: string
    const name: string
    const priceUsd: real
    const marketCap: real
    const fdv: real
    const liquidityUsd: real
    const volume24h: real
    var supply: real
    var decimals: nat
    const pairAddress: Option<string>
    const dexId: Option<string>

    /** This token was built from pair `p`: absent strings read as "" and absent numbers as 0. */
    predicate Describes(p: Pair) {
      && mintAddress == OrEmpty(p.baseAddress)
      && symbol == OrEmpty(p.baseSymbol)
      && name == OrEmpty(p.baseName)
      && priceUsd == OrZero(p.priceUsd)
      && marketCap == OrZero(p.marketCap)
      && fdv == OrZero(p.fdv)
      && liquidityUsd == Liquidity(p)
      && volume24h == OrZero(p.volume24h)
      && pairAddress == p.pairAddress
      && dexId == p.dexId
    }

    /** `TokenInfo.from_dexscreener`: supply and decimals keep their defaults 0.0 and 9. */
    constructor FromDexscreener(p: Pair)
      ensures Describes(p)
      ensures supply == 0.0 && decimals == DefaultDecimals
    {
      mintAddress := OrEmpty(p.baseAddress);
      symbol := OrEmpty(p.baseSymbol);
      name := OrEmpty(p.baseName);
      priceUsd := OrZero(p.priceUsd);
      marketCap := OrZero(p.marketCap);
      fdv := OrZero(p.fdv);
      liquidityUsd := Liquidity(p);
      volume24h := OrZero(p.volume24h);
      supply := 0.0;
      decimals := DefaultDecimals;
      pairAddress := p.pairAddress;
      dexId := p.dexId;
    }
  }

  /** One token account of a holder, with its amount also in whole tokens. */
  datatype HolderEntry = HolderEntry(owner: string, tokenAccount: string, amount: nat, uiAmount: real)

  /** `HolderEntry.from_helius`: a missing amount counts as 0, missing strings as "". */
  function FromHelius(data: HolderRecord, decimals: nat := DefaultDecimals): (r: HolderEntry)
    ensures r.uiAmount == UiAmount(r.amount, decimals)
    ensures data.amount == None ==> r.amount == 0 && r.uiAmount == 0.0
    ensures data.amount.Some? ==> r.amount == data.amount.value
    ensures r.owner == OrEmpty(data.owner) && r.tokenAccount == OrEmpty(data.address)
  {
    var raw := data.amount.GetOr(0);
    HolderEntry(OrEmpty(data.owner), OrEmpty(data.address), raw, UiAmount(raw, decimals))
  }

  /** What the user is looking for: a ticker and the exact amount held. */
  class HoldingQuery {
    var ticker: string
    const tokenAmount: real
    var mintAddress: Option<string>
    var decimals: nat

    constructor (ticker: string, tokenAmount: real)
      ensures this.ticker == ticker && this.tokenAmount == tokenAmount
      ensures mintAddress == None && decimals == DefaultDecimals
    {
      this.ticker := ticker;
      this.tokenAmount := tokenAmount;
      mintAddress := None;
      decimals := DefaultDecimals;
    }
  }

  /** A wallet found to hold a searched amount, with its holdings per mint. */
  class WalletMatch {
    const address: string
    var holdings: map<string, real>

    constructor (address: string)
      ensures this.address == address && holdings == map[]
    {
      this.address := address;
      holdings := map[];
    }

    /** `add_holding`: records `amount` under `mint`, replacing an earlier value; other mints keep theirs. */
    method AddHolding(mint: string, amount: real)
      modifies this
      ensures mint in holdings && holdings[mint] == amount
      ensures holdings.Keys == old(holdings).Keys + {mint}
      ensures forall m :: m in old(holdings) && m != mint ==> holdings[m] == old(holdings)[m]
    {
      holdings := holdings[mint := amount];
    }
  }

  /** The outcome of one search. The elapsed time the source also reports is not modelled. */
  datatype SearchResult = SearchResult(
    query: HoldingQuery,
    tokenInfo: Option<TokenInfo>,
    candidates: seq<WalletMatch>,
    totalHoldersScanned: nat)
  {
    /** `found`: some wallet matched. */
    predicate Found(): (b: bool)
      ensures b <==> candidates != []
    {
      |candidates| > 0
    }

    /** `unique_match`: exactly one wallet matched. */
    predicate UniqueMatch(): (b: bool)
      ensures b ==> Found() && candidates == [candidates[0]]
      ensures Found() && !b ==> |candidates| >= 2
    {
      |candidates| == 1
    }
  }

  /** The outcome of a search with two holdings. */
  datatype VerificationResult = VerificationResult(
    primaryQuery: HoldingQuery,
    verificationQuery: HoldingQuery,
    confirmedWallets: seq<string>,
    primaryCandidates: seq<WalletMatch>,
    verificationCandidates: seq<WalletMatch>)
  {
    /** `verified`: the two searches confirm exactly one wallet. */
    predicate Verified(): (b: bool)
      ensures b <==> exists x :: confirmedWallets == [x]
    {
      if |confirmedWallets| == 1 then
        assert confirmedWallets == [confirmedWallets[0]];
        true
      else false
    }

    /** The one confirmed wallet, when there is exactly one. */
    function Wallet(): (w: Option<string>)
      ensures w.Some? <==> Verified()
    {
      if Verified() then Some(confirmedWallets[0]) else None
    }
  }

  /** `wallet` names `w` exactly when `w` is the single confirmed wallet. */
  lemma {:induction false} WalletIsSoleConfirmed(v: VerificationResult, w: string)
    ensures v.Wallet() == Some(w) <==> v.confirmedWallets == [w]
  {
    if |v.confirmedWallets| == 1 {
      assert v.confirmedWallets == [v.confirmedWallets[0]];
    }
  }
}
