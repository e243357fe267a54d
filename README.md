# Solana wallet tracker: the matching engine in Dafny

The wallet tracker finds the Solana wallets that hold an exact amount of a
token. Given a ticker or a mint address and an amount, it does five things:

- resolves the token through DexScreener;
- reads the token's decimals and pages through all of its holders through Helius;
- sums each owner's token accounts;
- keeps the owners whose total is within a relative tolerance of the amount;
- with a second holding, intersects two such searches to confirm one wallet.

This project models that engine and proves what it computes:

- `Models`: the result records.
- `Dexscreener` and `Helius`: the two API clients, with the network replaced by functions from request to decoded response.
- `TokenResolver`: ticker resolution, with grouping by mint, ranking by liquidity and market-cap disambiguation.
- `Matcher`: the candidate search and the two-holding verification.
- `Cli`: how the command line tells a mint address from a ticker and builds the query.

Helper modules:

- `Wrappers`: an `Option` type.
- `Payloads`: the JSON records the APIs return, with absent fields as `None`.
- `Text`: ASCII `str.upper`, `str.strip` and Python's string order.
- `StableSort`: Python's stable `sort(key=..., reverse=True)` as an insertion sort, with its sortedness, permutation and stability proved.

The code that works by mutation is imperative Dafny.

- Classes:
  - `TokenInfo`, whose `supply` and `decimals` are reassigned.
  - `HoldingQuery`, whose `ticker`, `mintAddress` and `decimals` are reassigned.
  - `WalletMatch`, whose `holdings` map is updated.
- Methods with loops:
  - The grouping loop of `search_by_ticker`.
  - The disambiguation loop.
  - The pagination loop.
  - The per-owner aggregation and the candidate loop of `find_candidates`.

Each method is proved equal to a specification function (`Chosen`, `Ranked`,
`Choice`, `Collected`, `OwnerOrder`, `OwnerTotal`, `InBandOwners`,
`ExpectedAddresses`). The source's promises are proved as lemmas about those
functions.

Amounts are exact `real` numbers. A raw amount is a `nat`, and `raw / 10^decimals` is exact division.

## Model

| member | source | states |
|---|---|---|
| Models.UiAmount | wallet_tracker/models.py:56 | the amount in whole tokens times 10^decimals is the raw amount, and it is never negative |
| Models.TokenInfo.FromDexscreener | wallet_tracker/models.py:23-38 | the token describes the pair: absent strings become "" and absent numbers 0.0; supply starts at 0.0 and decimals at 9 |
| Models.FromHelius | wallet_tracker/models.py:49-57 | ui amount is amount / 10^decimals; a missing amount is 0 with ui amount 0.0; a present amount is kept; missing owner and address become "" |
| Models.HoldingQuery.constructor | wallet_tracker/models.py:60-68 | a new query has the given ticker and amount, no mint, and 9 decimals |
| Models.WalletMatch.constructor | wallet_tracker/models.py:71-75 | a new match has the given address and no holdings |
| Models.WalletMatch.AddHolding | wallet_tracker/models.py:77-78 | afterwards the mint maps to the amount, an earlier value is overwritten, the key set grows by the mint alone and every other mint keeps its amount |
| Models.SearchResult.Found | wallet_tracker/models.py:90-92 | found holds exactly when some wallet matched |
| Models.SearchResult.UniqueMatch | wallet_tracker/models.py:94-96 | a unique match is found and is a single-wallet list; a found but not unique match has at least two wallets |
| Models.VerificationResult.Verified | wallet_tracker/models.py:108-110 | verified holds exactly when the confirmed list is a single wallet |
| Models.VerificationResult.Wallet | wallet_tracker/models.py:112-114 | wallet is present exactly when the result is verified |
| Models.WalletIsSoleConfirmed | wallet_tracker/models.py:108-114 | wallet is w iff the confirmed list is exactly [w] |
| Dexscreener.PairsOf | wallet_tracker/api/dexscreener.py:26-27 | the pairs field when present, the empty list when absent |
| Dexscreener.SearchTokens | wallet_tracker/api/dexscreener.py:16-27 | the pairs the search response holds, or none when it has no pairs field |
| Dexscreener.SolanaOnly | wallet_tracker/api/dexscreener.py:41-45 | every kept pair is on chain "solana" and comes from the input, and every Solana pair of the input is kept |
| Dexscreener.SolanaOnlyAppend | wallet_tracker/api/dexscreener.py:41-45 | the filter distributes over concatenation, so kept pairs stay in input order |
| Dexscreener.SolanaOnlyExact | wallet_tracker/api/dexscreener.py:41-45 | all-Solana input passes unchanged; input with no Solana pair gives nothing |
| Dexscreener.SearchSolanaTokens | wallet_tracker/api/dexscreener.py:29-45 | every returned pair is on Solana and was found by the search, and every Solana pair the search found is returned |
| Dexscreener.GetTokenPairs | wallet_tracker/api/dexscreener.py:47-58 | the pairs the token endpoint returns for the mint, or none when it has no pairs field |
| Dexscreener.GetPairInfo | wallet_tracker/api/dexscreener.py:70-72 | None exactly when the endpoint gives no pairs, otherwise its first pair |
| Dexscreener.MostLiquid | wallet_tracker/api/dexscreener.py:84-94 | None exactly for no pairs; otherwise the earliest pair of maximal liquidity, with missing liquidity read as 0 |
| Dexscreener.GetTokenByAddress | wallet_tracker/api/dexscreener.py:74-94 | None exactly when the mint has no pairs, otherwise its earliest pair of greatest liquidity |
| Dexscreener.ExtractTokenInfo | wallet_tracker/api/dexscreener.py:106-119 | every missing number becomes 0.0; the mint and creation time are copied |
| Dexscreener.SummaryAgreesWithTokenInfo | wallet_tracker/api/dexscreener.py:106-119 | the flat record and a TokenInfo built from the same pair agree on every shared field |
| Helius.ClampLimit | wallet_tracker/api/helius.py:76 | the limit sent is at most 1000, and is the requested limit when that is at most 1000 |
| Helius.GetTokenAccounts | wallet_tracker/api/helius.py:72-84 | the token_accounts of the result for the clamped limit when the result has them, and no records when the result is empty or lacks them |
| Helius.GetAllHolders | wallet_tracker/api/helius.py:86-113 | the loop returns the records Collected specifies, and the pages it requests are those Requested specifies |
| Helius.RequestedConsecutive | wallet_tracker/api/helius.py:101-111 | pages are requested as 1, 2, 3, ... consecutively; a positive budget gives between one request and max_pages requests; a budget below 1 gives none |
| Helius.RequestedStops | wallet_tracker/api/helius.py:104-111 | every requested page but the last is full; the last is short (or empty) unless the page budget ran out |
| Helius.CollectedIsRequestedPages | wallet_tracker/api/helius.py:102-113 | the result is the concatenation of the requested pages, in order, without deduplication |
| Helius.NoBudgetNoRequests | wallet_tracker/api/helius.py:104 | with max_pages of 0 or less no request is made and the result is empty |
| Helius.ThreePagesExample | wallet_tracker/api/helius.py:102-113 | pages of 1000, 1000 and 400 records give three requests and 2400 records |
| Helius.GetTokenSupply | wallet_tracker/api/helius.py:115-121 | the result's value when present, decimals included, and the empty record when the result is empty or has no value |
| TokenResolver.Group | wallet_tracker/token_resolver.py:35-58 | the grouping's mint order and its kept pairs have the same mints, and no mint is listed twice |
| TokenResolver.GroupKeeps | wallet_tracker/token_resolver.py:38-58 | every matching pair's mint is grouped, and each mint keeps its first pair of greatest liquidity (a later pair replaces it only when strictly more liquid) |
| TokenResolver.GroupMembers | wallet_tracker/token_resolver.py:38-52 | a mint is grouped exactly when some pair with that mint matches the ticker |
| TokenResolver.GroupOrder | wallet_tracker/token_resolver.py:50-52 | mints are listed in the order of their first matching pair, the dict's insertion order |
| TokenResolver.ChosenFacts | wallet_tracker/token_resolver.py:38-61 | the grouped tokens match the ticker, are each their mint's kept pair, have distinct mints in first-seen order, and cover every matching mint |
| TokenResolver.Ranked | wallet_tracker/token_resolver.py:61-62 | one token per grouped mint, sorted most liquid first, a permutation of the grouped tokens |
| TokenResolver.TickerCandidates | wallet_tracker/token_resolver.py:20-64 | search_by_ticker returns one token per mint grouped from the Solana search results, most liquid first |
| TokenResolver.RankedAreKept | wallet_tracker/token_resolver.py:38-62 | each returned token has a mint, has the ticker as its symbol up to case, and is the first most liquid pair of its mint |
| TokenResolver.RankedDistinctMints | wallet_tracker/token_resolver.py:50-58 | no mint is returned twice |
| TokenResolver.RankedCoversMints | wallet_tracker/token_resolver.py:38-62 | every mint with a matching pair is returned |
| TokenResolver.RankedSorted | wallet_tracker/token_resolver.py:61-62 | the result is sorted by liquidity, most liquid first, and tokens of equal liquidity keep their first-seen order |
| TokenResolver.RankedHeadDominates | wallet_tracker/token_resolver.py:55-62 | the first returned token is at least as liquid as every matching pair |
| TokenResolver.RankedHead | wallet_tracker/token_resolver.py:38-62 | no token is returned iff no pair matches; otherwise the first token matches and is at least as liquid as every matching pair |
| TokenResolver.NoPairsNoTokens | wallet_tracker/token_resolver.py:30-33 | no Solana pairs from the search give no tokens |
| TokenResolver.GroupByMint | wallet_tracker/token_resolver.py:35-61 | the loop yields fresh tokens, built position by position from the kept pairs in first-seen order, with default supply and decimals |
| TokenResolver.GroupPair | wallet_tracker/token_resolver.py:38-58 | one pass of the loop: pairs without a mint or with another symbol are skipped, a new mint adds a fresh token, and a known mint's token is replaced only by a strictly more liquid pair |
| TokenResolver.SearchByTicker | wallet_tracker/token_resolver.py:20-64 | the returned tokens are fresh, distinct objects built position by position from the ranked pairs, with default supply and decimals |
| TokenResolver.FirstIndexOf | wallet_tracker/token_resolver.py:50-52 | the index of the first matching pair of a mint, or the length when there is none |
| TokenResolver.Closest | wallet_tracker/token_resolver.py:114-127 | none exactly when no market cap is positive; otherwise a position holding a positive market cap |
| TokenResolver.ClosestIsClosest | wallet_tracker/token_resolver.py:114-127 | the position Closest names is the first positive market cap of least relative deviation from the target: strictly better than every earlier one, no worse than every later one |
| TokenResolver.Choice | wallet_tracker/token_resolver.py:108-134 | none for no candidates and the only one for one; with several, the closest is taken when some candidate is within tolerance, else the first |
| TokenResolver.ClosestCandidate | wallet_tracker/token_resolver.py:114-127 | the loop ends holding the candidate Closest names and its deviation, or nothing (an infinite best deviation) when no market cap is positive |
| TokenResolver.DisambiguateByMarketCap | wallet_tracker/token_resolver.py:91-134 | the loop returns the candidate Choice names, comparing market_cap or else fdv and skipping values of 0 or less |
| TokenResolver.ResolvedIndex | wallet_tracker/token_resolver.py:151-162 | none for no candidates and the only one for one; with several, Choice's index for a set, non-zero hint and the first (most liquid) candidate otherwise |
| TokenResolver.HintExample | wallet_tracker/token_resolver.py:151-162 | of two BONK tokens worth 50 000 000 and 1 000 000, a hint of 1 000 000 picks the second; a hint no candidate is within half of, or no hint, picks the first |
| TokenResolver.ResolveWithoutHint | wallet_tracker/token_resolver.py:151-162 | with no hint (or a zero hint) resolve finds nothing iff no pair matches, and otherwise a matching pair at least as liquid as every matching pair |
| TokenResolver.ResolvedIsCandidate | wallet_tracker/token_resolver.py:136-172 | whatever the hint, the resolved pair is one of the ranked candidates and matches the ticker; nothing is resolved iff there are no candidates |
| TokenResolver.Resolve | wallet_tracker/token_resolver.py:136-172 | the token is built from the resolved pair, the supply lookup sets its supply or leaves it at 0.0 when it fails, and the choice does not depend on that lookup |
| TokenResolver.GetByMintAddress | wallet_tracker/token_resolver.py:66-89 | the token is built from the mint's most liquid pair, with the supply of the given mint when the lookup succeeds |
| Matcher.OwnerOrder | wallet_tracker/matcher.py:83-89 | the owners are distinct and non-empty, and every non-empty owner of a record is among them |
| Matcher.OwnerTotal | wallet_tracker/matcher.py:84-89 | an owner's total in whole tokens is never negative |
| Matcher.InBand | wallet_tracker/matcher.py:97 | nothing is in the band unless the target is positive and the tolerance is not negative |
| Matcher.InBandOwners | wallet_tracker/matcher.py:96-100 | at most as many owners as listed, each a listed owner whose total is in the band |
| Matcher.ExpectedAddresses | wallet_tracker/matcher.py:44-110 | no token or a target of 0 or less gives no addresses; every address is non-empty |
| Matcher.MintAfterSearch | wallet_tracker/matcher.py:58-71 | a search leaves the found token's mint in the query, or the old mint when nothing is found |
| Matcher.DecimalsAfterSearch | wallet_tracker/matcher.py:73-76 | a search leaves the found token's decimals (default 9) in the query, or the old decimals when nothing is found |
| Matcher.FindCandidates | wallet_tracker/matcher.py:44-110 | with no token: empty result, zero holders, query untouched. Otherwise: the token's mint in the query, decimals (default 9) in query and token, holders scanned = distinct owners, one fresh candidate per in-band owner holding its total |
| Matcher.AggregateByOwner | wallet_tracker/matcher.py:83-89 | the dict's keys are the non-empty owners in first-appearance order, and each owner's value is the sum of raw / 10^decimals over its records |
| Matcher.SelectCandidates | wallet_tracker/matcher.py:91-100 | the candidates are the in-band owners in order, each a fresh match holding exactly the owner's total of the mint |
| Matcher.OwnerTotalAbsent | wallet_tracker/matcher.py:83-89 | an owner with no record has a total of 0 |
| Matcher.InBandWithoutDivision | wallet_tracker/matcher.py:97 | an owner is in the band iff the target is positive and the distance is at most tolerance times the target |
| Matcher.InBandOwnersMembers | wallet_tracker/matcher.py:96-100 | an owner is kept iff it is listed and its total is in the band |
| Matcher.InBandOwnersDistinct | wallet_tracker/matcher.py:96-100 | keeping some owners keeps them distinct |
| Matcher.OwnerOrderHasRecord | wallet_tracker/matcher.py:83-89 | every listed owner owns some record |
| Matcher.MatchingOwnersExactly | wallet_tracker/matcher.py:83-100 | an address is a candidate iff it is non-empty, owns a record and its total is in the band; candidate addresses are distinct |
| Matcher.NonPositiveTargetMatchesNobody | wallet_tracker/matcher.py:97 | a target of 0 or less gives no candidates |
| Matcher.OwnerTotalAppend | wallet_tracker/matcher.py:84-89 | an owner's total over two runs of records is the sum of its totals over each |
| Matcher.EmptyOwnerIgnored | wallet_tracker/matcher.py:88 | a record without an owner changes neither the owners, any total, nor the candidates |
| Matcher.InBandOwnersCongruent | wallet_tracker/matcher.py:96-97 | owners whose totals agree are kept alike |
| Matcher.DistinctCard | wallet_tracker/matcher.py:108 | distinct owners are counted once each |
| Matcher.HoldersScannedCount | wallet_tracker/matcher.py:108 | total_holders_scanned equals the number of distinct non-empty owners |
| Matcher.SumOfTotalsSnoc | wallet_tracker/matcher.py:84-89 | one more record adds its amount to the sum of the totals exactly when its owner is listed |
| Matcher.TotalsConserveAmount | wallet_tracker/matcher.py:83-89 | the owners' totals add up to the amount of all owned records: nothing lost, nothing counted twice |
| Matcher.ExampleOwners | wallet_tracker/matcher.py:83-89 | records owned by A, nobody, B, A list the owners A, B |
| Matcher.ExampleTotals | wallet_tracker/matcher.py:83-89 | raw 150 + 50 for A and 50 for B at two decimals give totals 2.0 and 0.5 |
| Matcher.ExampleMatch | wallet_tracker/matcher.py:96-100 | of those owners only A is within 0.1% of a 2.0 target |
| Matcher.Addresses | wallet_tracker/matcher.py:132-133 | the address list has one entry per candidate, that candidate's address |
| Matcher.Intersect | wallet_tracker/matcher.py:135 | an address is in the intersection iff it is in both lists |
| Matcher.ConfirmedWallets | wallet_tracker/matcher.py:132-135 | the confirmed list is strictly increasing in Python's string order (sorted, no duplicates) and holds exactly the addresses both searches found |
| Matcher.ConfirmedSymmetric | wallet_tracker/matcher.py:132-135 | swapping primary and verification confirms the same wallets |
| Matcher.ConfirmedIsTheListing | wallet_tracker/matcher.py:135 | any sorted, duplicate-free listing of the common addresses is the confirmed list |
| Matcher.VerifiedIffOneCommon | wallet_tracker/matcher.py:129-143 | wallet is w iff w is the one address both searches found |
| Matcher.ConfirmedExample | wallet_tracker/matcher.py:132-135 | addresses b, a, c and c, a confirm a, c in that order |
| Matcher.VerifyWithSecondHolding | wallet_tracker/matcher.py:112-143 | both queries are passed through with their tickers kept, the confirmed list is the sorted intersection, each search's addresses, holdings, mint and decimals are those its query specifies, and when both queries are one object the second search starts from the mint and decimals the first stored |
| Text.Upper | wallet_tracker/token_resolver.py:46-47 | upper-casing keeps the length and maps each character through ASCII upper case |
| Text.UpperIdempotent | wallet_tracker/token_resolver.py:30 | upper-casing an upper-cased ticker changes nothing |
| Text.Strip | wallet_tracker/cli.py:121 | the result is the slice of the input between a run of white space at the front and one at the back, and neither starts nor ends with white space |
| Text.StripIdempotent | wallet_tracker/cli.py:121 | stripping twice is stripping once |
| Text.LexIrreflexive | wallet_tracker/matcher.py:135 | no string sorts before itself |
| Text.LexAsymmetric | wallet_tracker/matcher.py:135 | two strings never each sort before the other |
| Text.LexTransitive | wallet_tracker/matcher.py:135 | string order is transitive |
| Text.LexTotal | wallet_tracker/matcher.py:135 | any two different strings are ordered one way or the other |
| Text.SortedSet | wallet_tracker/matcher.py:135 | sorted(set(xs)) is strictly increasing and has exactly the members of xs |
| Text.SortedListingUnique | wallet_tracker/matcher.py:135 | a set of strings has exactly one sorted, duplicate-free listing |
| StableSort.SortDescFacts | wallet_tracker/token_resolver.py:62 | sort(reverse=True) yields non-increasing keys, a permutation of the input, and keeps equal-key elements in input order |
| StableSort.SortDescHead | wallet_tracker/api/dexscreener.py:89-94 | the first element of the descending sort is the earliest element of maximal key |
| StableSort.SortCorresponds | wallet_tracker/token_resolver.py:61-62 | sorting tokens and the pairs they were built from, by equal keys, keeps them position by position |
| Cli.Base58Alphabet | wallet_tracker/cli.py:45 | the base58 class is the ASCII letters and digits without 0, O, I and l |
| Cli.IsMintAddress | wallet_tracker/cli.py:42-45 | every 32 to 44 character base58 string is accepted, and nothing shorter than 32 or longer than 45 characters is |
| Cli.MintAddressShape | wallet_tracker/cli.py:42-45 | an accepted string has 32 to 45 characters, all base58 except a possible final newline, and contains none of 0, O, I, l |
| Cli.StrippedMintAddress | wallet_tracker/cli.py:121-127 | on stripped input the validator accepts exactly 32 to 44 base58 characters |
| Cli.TrailingNewlineAccepted | wallet_tracker/cli.py:45 | as written, an address followed by a newline passes the pattern |
| Cli.ChoiceIndex | wallet_tracker/cli.py:96-100 | a choice from 1 to n selects position choice - 1, any other choice position 0, and a single candidate position 0 |
| Cli.SelectToken | wallet_tracker/cli.py:60-65 | none exactly for no candidates, the sole candidate for one, else the chosen one with the first as fallback; the result is always a candidate |
| Cli.DefaultChoiceTakesFirst | wallet_tracker/cli.py:91-94 | the prompt's default answer 1 takes the first, most liquid candidate |
| Cli.SelectedMatchesTicker | wallet_tracker/cli.py:58-65 | the selected token has the ticker as its symbol up to case and is its mint's most liquid pair |
| Cli.GetHoldingInput | wallet_tracker/cli.py:121-137 | the input is stripped. A mint address is used as is, with its first 8 characters plus "..." as ticker. Otherwise the selected token's mint and symbol are used, or, when none is found, the upper-cased input and no mint |

## Left out

- HTTP transport (retries, back-off, status codes, JSON decoding) in wallet_tracker/api/base.py is not part of this model. Each endpoint is a function from request to decoded response, and a failed request is not modelled.
- The Solana RPC client (wallet_tracker/api/solana_rpc.py) is not part of this model. Only its token-supply-in-whole-tokens answer appears, as a function whose `None` stands for the exception that `resolve` and `get_by_mint_address` swallow.
- Configuration loading (wallet_tracker/config.py): the tolerance (default 0.001) is a parameter. `get_all_holders` is called with its own default of 50 pages, as the matcher does.
- `search_time_ms` and the clock: timing has no bearing on the result.
- Floating point: amounts and deviations use exact reals, so rounding drift in the per-owner sums and `float("inf")` are not modelled. The initial infinite best deviation is `None`.
- Matcher.FindCandidates: the comparison with the target uses exact reals, so borderline candidates that float rounding would drop or admit are not captured.
- `str.upper` and `str.strip` are modelled for ASCII only. Non-ASCII case mappings and Unicode white space are not.
- The thin wrappers `find_wallet` and `verify_wallet`, the `close()` methods, the resolver and client caches, and the re-export files add no logic and are not modelled.
- bot.py (Discord presentation) is not part of this model. Its address pattern is the same as the CLI's.
- CLI presentation (console output, tables, banners, argument handling) is not modelled. The prompt answers are parameters: the typed token, the amount, and the selection number.
- Cli.GetHoldingInput: the token's text arrives as a parameter; the floating-point parsing of the amount prompt is not modelled.
- TokenResolver.DisambiguateByMarketCap: the source divides by the target and raises on a zero target when a candidate has a positive market cap. The model requires a non-zero target in that case instead of modelling the exception. `resolve` never passes a zero hint.
- TokenResolver.GetByMintAddress: a pair that decodes to an empty JSON object is falsy in the source and gives no token. The model treats every pair as present.
- A JSON `null` is read like a missing field, as `None`, and given the default the source gives a missing key. Where the source would raise on a `null` instead, the model does not raise. Those fields are:
  - the objects `value`, `baseToken`, `liquidity` and `volume`;
  - `pairs` of a search response (iterating `None` in `search_solana_tokens`; the model gives no pairs);
  - a holder record's `amount` (`int(None)`; the model gives 0);
  - `baseToken.symbol` (`None.upper()` in `search_by_ticker`; the model gives "");
  - the supply's `decimals` (`10 ** None`; the model gives 9).
- Fields of the source's dataclasses that are never reassigned are modelled as constants. The source could mutate them, but no code in the core does.
- The DexScreener tokens endpoint can return pairs in which the mint is the quote token. Like the source, the model takes the base token of the most liquid pair.
