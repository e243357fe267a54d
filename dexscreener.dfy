/**
 * The DexScreener client: pair search, the Solana chain filter, the
 * most-liquid pair of a token and the flattening of a pair into token fields.
 * Each HTTP endpoint is a function from the query (or the path argument) to
 * the decoded response.
 */
module Dexscreener {
  import opened Wrappers
  import opened Payloads
  import opened StableSort
  import opened Models

  /** One DexScreener endpoint: search query, mint or pair address to response. */
  type Endpoint = string -> PairsResponse

  /** `response.get("pairs", [])`. */
  function PairsOf(resp: PairsResponse): (r: seq<Pair>)
    ensures resp.pairs.None? ==> r == []
    ensures resp.pairs.Some? ==> r == resp.pairs.value
  {
    resp.pairs.GetOr([])
  }

  /** `search_tokens`: the pairs the search endpoint returns for `query`. */
  function SearchTokens(search: Endpoint, query: string): (r: seq<Pair>)
    ensures search(query).pairs.Some? ==> r == search(query).pairs.value
    ensures search(query).pairs.None? ==> r == []
  {
    PairsOf(search(query))
  }

  predicate OnSolana(p: Pair) {
    p.chainId == Some("solana")
  }

  /** The Solana pairs of `pairs`, in their original order. */
  function SolanaOnly(pairs: seq<Pair>): (r: seq<Pair>)
    ensures |r| <= |pairs|
    ensures forall i :: 0 <= i < |r| ==> OnSolana(r[i]) && r[i] in pairs
    ensures forall i :: 0 <= i < |pairs| && OnSolana(pairs[i]) ==> pairs[i] in r
  {
    if pairs == [] then []
    else (if OnSolana(pairs[0]) then [pairs[0]] else []) + SolanaOnly(pairs[1..])
  }

  /** The filter distributes over concatenation, so it keeps the input order. */
  lemma {:induction false} SolanaOnlyAppend(a: seq<Pair>, b: seq<Pair>)
    ensures SolanaOnly(a + b) == SolanaOnly(a) + SolanaOnly(b)
  {
    if a == [] {
      assert a + b == b;
    } else {
      assert (a + b)[0] == a[0] && (a + b)[1..] == a[1..] + b;
      SolanaOnlyAppend(a[1..], b);
    }
  }

  /** A list of Solana pairs passes the filter unchanged; a list without any is emptied. */
  lemma {:induction false} SolanaOnlyExact(pairs: seq<Pair>)
    ensures (forall i :: 0 <= i < |pairs| ==> OnSolana(pairs[i])) ==> SolanaOnly(pairs) == pairs
    ensures (forall i :: 0 <= i < |pairs| ==> !OnSolana(pairs[i])) ==> SolanaOnly(pairs) == []
  {
    if pairs != [] {
      SolanaOnlyExact(pairs[1..]);
      assert pairs == [pairs[0]] + pairs[1..];
    }
  }

  /** `search_solana_tokens`: the search results on the Solana chain. */
  function SearchSolanaTokens(search: Endpoint, ticker: string): (r: seq<Pair>)
    ensures forall i :: 0 <= i < |r| ==> OnSolana(r[i]) && r[i] in SearchTokens(search, ticker)
    ensures forall p :: p in SearchTokens(search, ticker) && OnSolana(p) ==> p in r
  {
    SolanaOnly(SearchTokens(search, ticker))
  }

  /** `get_token_pairs`: the pairs the token endpoint returns for a mint. */
  function GetTokenPairs(tokens: Endpoint, mintAddress: string): (r: seq<Pair>)
    ensures tokens(mintAddress).pairs.Some? ==> r == tokens(mintAddress).pairs.value
    ensures tokens(mintAddress).pairs.None? ==> r == []
  {
    PairsOf(tokens(mintAddress))
  }

  /** `get_pair_info`: the first pair the pair endpoint returns, if any. */
  function GetPairInfo(pairsEndpoint: Endpoint, pairAddress: string): (r: Option<Pair>)
    ensures r.None? <==> PairsOf(pairsEndpoint(pairAddress)) == []
    ensures r.Some? ==> r.value in PairsOf(pairsEndpoint(pairAddress))
    ensures r.Some? ==> r.value == PairsOf(pairsEndpoint(pairAddress))[0]
  {
    var pairs := PairsOf(pairsEndpoint(pairAddress));
    if pairs == [] then None else Some(pairs[0])
  }

  /** `sorted(pairs, key=liquidity, reverse=True)[0]`: the first pair of greatest liquidity. */
  function MostLiquid(pairs: seq<Pair>): (r: Option<Pair>)
    ensures r.None? <==> pairs == []
    ensures r.Some? ==> exists k :: IsFirstMax(pairs, Liquidity, k) && r.value == pairs[k]
  {
    if pairs == [] then None
    else
      SortDescHead(pairs, Liquidity);
      Some(SortDesc(pairs, Liquidity)[0])
  }

  /** `get_token_by_address`: the most liquid of the token's pairs, `None` when it has none. */
  function GetTokenByAddress(tokens: Endpoint, mintAddress: string): (r: Option<Pair>)
    ensures r.None? <==> GetTokenPairs(tokens, mintAddress) == []
    ensures r.Some? ==>
      exists k :: IsFirstMax(GetTokenPairs(tokens, mintAddress), Liquidity, k) && r.value == GetTokenPairs(tokens, mintAddress)[k]
  {
    MostLiquid(GetTokenPairs(tokens, mintAddress))
  }

  /** The flat record `extract_token_info` builds. */
  datatype TokenSummary = TokenSummary(
    mintAddress: Option<string>,
    symbol: Option<string>,
    name: Option<string>,
    priceUsd: real,
    marketCap: real,
    fdv: real,
    liquidityUsd: real,
    volume24h: real,
    pairAddress: Option<string>,
    dexId: Option<string>,
    pairCreatedAt: Option<int>)

  /** `extract_token_info`: numbers missing from the pair read as 0; strings stay optional. */
  function ExtractTokenInfo(p: Pair): (r: TokenSummary)
    ensures p.priceUsd.None? ==> r.priceUsd == 0.0
    ensures p.marketCap.None? ==> r.marketCap == 0.0
    ensures p.fdv.None? ==> r.fdv == 0.0
    ensures p.liquidityUsd.None? ==> r.liquidityUsd == 0.0
    ensures p.volume24h.None? ==> r.volume24h == 0.0
    ensures r.mintAddress == p.baseAddress && r.pairCreatedAt == p.pairCreatedAt
  {
    TokenSummary(p.baseAddress, p.baseSymbol, p.baseName,
                 OrZero(p.priceUsd), OrZero(p.marketCap), OrZero(p.fdv), Liquidity(p), OrZero(p.volume24h),
                 p.pairAddress, p.dexId, p.pairCreatedAt)
  }

  /** The flat record and a `TokenInfo` built from the same pair agree on every shared field. */
  lemma SummaryAgreesWithTokenInfo(p: Pair, t: TokenInfo)
    requires t.Describes(p)
    ensures var s := ExtractTokenInfo(p);
      && t.mintAddress == s.mintAddress.GetOr("") && t.symbol == s.symbol.GetOr("") && t.name == s.name.GetOr("")
      && t.priceUsd == s.priceUsd && t.marketCap == s.marketCap && t.fdv == s.fdv
      && t.liquidityUsd == s.liquidityUsd && t.volume24h == s.volume24h
      && t.pairAddress == s.pairAddress && t.dexId == s.dexId
  {
  }
}
