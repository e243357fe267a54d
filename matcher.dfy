/**
 * The wallet-matching engine: resolve the token, read its decimals, collect
 * all holder records, sum them per owner and keep the owners whose total is
 * within a relative tolerance of the searched amount; and intersect two such
 * searches.
 */
module Matcher {
  import opened Wrappers
  import opened Payloads
  import opened Text
  import opened Models
  import opened Dexscreener
  import opened Helius
  import opened TokenResolver

  /** The services the matcher calls, each as the function its responses define. */
  datatype Providers = Providers(
    search: Endpoint,                  // DexScreener search
    tokenPairs: Endpoint,              // DexScreener pairs of a mint
    supplyUi: string -> Option<real>,  // Solana RPC supply in whole tokens; `None` when the call raises
    accounts: AccountsRpc,             // Helius getTokenAccounts
    supply: SupplyRpc)                 // Helius getTokenSupply

  /** The default of `tolerances.token_amount` in the configuration. */
  const DefaultTolerance: real := 0.001

  /** `acct.get("owner", "")`. */
  function OwnerOf(r: HolderRecord): string {
    OrEmpty(r.owner)
  }

  /** `int(acct.get("amount", 0))`. */
  function RawAmount(r: HolderRecord): nat {
    r.amount.GetOr(0)
  }

  /** The owners with a non-empty address, each once, in the order they first appear. */
  function OwnerOrder(rs: seq<HolderRecord>): (owners: seq<string>)
    ensures forall i, j :: 0 <= i < j < |owners| ==> owners[i] != owners[j]
    ensures forall i :: 0 <= i < |owners| ==> owners[i] != ""
    ensures forall k :: 0 <= k < |rs| && OwnerOf(rs[k]) != "" ==> OwnerOf(rs[k]) in owners
  {
    if rs == [] then []
    else
      var prev, o := OwnerOrder(rs[..|rs| - 1]), OwnerOf(rs[|rs| - 1]);
      if o == "" || o in prev then prev else prev + [o]
  }

  /** The sum, over the records of owner `o`, of their amounts in whole tokens. */
  function OwnerTotal(rs: seq<HolderRecord>, o: string, decimals: nat): (r: real)
    ensures r >= 0.0
  {
    if rs == [] then 0.0
    else
      var last := rs[|rs| - 1];
      OwnerTotal(rs[..|rs| - 1], o, decimals) + (if OwnerOf(last) == o then UiAmount(RawAmount(last), decimals) else 0.0)
  }

  /** `target > 0 and abs(held - target) / target <= tolerance`. */
  predicate InBand(held: real, target: real, tolerance: real): (b: bool)
    ensures b ==> target > 0.0 && tolerance >= 0.0
  {
    target > 0.0 && Abs(held - target) / target <= tolerance
  }

  /** The owners among `owners` whose total is in the band, in order. */
  function InBandOwners(owners: seq<string>, rs: seq<HolderRecord>, decimals: nat, target: real, tolerance: real): (r: seq<string>)
    ensures |r| <= |owners|
    ensures forall i :: 0 <= i < |r| ==> r[i] in owners && InBand(OwnerTotal(rs, r[i], decimals), target, tolerance)
  {
    if owners == [] then []
    else
      var last := owners[|owners| - 1];
      InBandOwners(owners[..|owners| - 1], rs, decimals, target, tolerance)
        + (if InBand(OwnerTotal(rs, last, decimals), target, tolerance) then [last] else [])
  }

  /** The addresses the candidate list holds, in order. */
  function MatchingOwners(rs: seq<HolderRecord>, decimals: nat, target: real, tolerance: real): seq<string> {
    InBandOwners(OwnerOrder(rs), rs, decimals, target, tolerance)
  }

  /** `if query.mint_address`: a mint is set and non-empty. */
  predicate MintGiven(mintAddress: Option<string>) {
    mintAddress.Some? && mintAddress.value != ""
  }

  /** The pair the matcher's token is built from: by mint when one is set, else by ticker without a hint. */
  function TokenPair(prov: Providers, ticker: string, mintAddress: Option<string>): Option<Pair> {
    if MintGiven(mintAddress) then GetTokenByAddress(prov.tokenPairs, mintAddress.value)
    else ResolvedPair(prov.search, ticker, None)
  }

  /** `supply_info.get("decimals", 9)`. */
  function DecimalsFor(prov: Providers, mint: string): nat {
    GetTokenSupply(prov.supply, mint).decimals.GetOr(DefaultDecimals)
  }

  /** All holder records, fetched with the default page budget. */
  function HoldersFor(prov: Providers, mint: string): seq<HolderRecord> {
    Collected(PageFetcher(prov.accounts, mint), 1, DefaultMaxPages)
  }

  /** The candidate addresses one search yields. */
  function ExpectedAddresses(prov: Providers, ticker: string, mintAddress: Option<string>, target: real, tolerance: real): (r: seq<string>)
    ensures TokenPair(prov, ticker, mintAddress).None? ==> r == []
    ensures target <= 0.0 ==> r == []
    ensures forall i :: 0 <= i < |r| ==> r[i] != ""
  {
    match TokenPair(prov, ticker, mintAddress)
    case None => []
    case Some(p) =>
      var rs, decimals := HoldersFor(prov, Mint(p)), DecimalsFor(prov, Mint(p));
      var r := MatchingOwners(rs, decimals, target, tolerance);
      assert r != [] ==> InBand(OwnerTotal(rs, r[0], decimals), target, tolerance);
      r
  }

  /** The addresses of a candidate list. */
  function Addresses(c: seq<WalletMatch>): (r: seq<string>)
    ensures |r| == |c| && forall i :: 0 <= i < |c| ==> r[i] == c[i].address
  {
    seq(|c|, i requires 0 <= i < |c| => c[i].address)
  }

  /** An owner that never appears contributes nothing to any total. */
  lemma {:induction false} OwnerTotalAbsent(rs: seq<HolderRecord>, o: string, decimals: nat)
    requires forall k :: 0 <= k < |rs| ==> OwnerOf(rs[k]) != o
    ensures OwnerTotal(rs, o, decimals) == 0.0
  {
    if rs != [] {
      OwnerTotalAbsent(rs[..|rs| - 1], o, decimals);
    }
  }

  /** The mint a search leaves in its query: the token's mint, or the old value when none is found. */
  function MintAfterSearch(prov: Providers, ticker: string, mintBefore: Option<string>): (r: Option<string>)
    ensures TokenPair(prov, ticker, mintBefore).Some? ==> r.Some? && r.value == Mint(TokenPair(prov, ticker, mintBefore).value)
    ensures TokenPair(prov, ticker, mintBefore).None? ==> r == mintBefore
  {
    match TokenPair(prov, ticker, mintBefore)
    case None => mintBefore
    case Some(p) => Some(Mint(p))
  }

  /** The decimals a search leaves in its query: the token's, or the old value when none is found. */
  function DecimalsAfterSearch(prov: Providers, ticker: string, mintBefore: Option<string>, decimalsBefore: nat): (r: nat)
    ensures TokenPair(prov, ticker, mintBefore).Some? ==> r == DecimalsFor(prov, Mint(TokenPair(prov, ticker, mintBefore).value))
    ensures TokenPair(prov, ticker, mintBefore).None? ==> r == decimalsBefore
  {
    match TokenPair(prov, ticker, mintBefore)
    case None => decimalsBefore
    case Some(p) => DecimalsFor(prov, Mint(p))
  }

  /** Each candidate of a search holds exactly its total of the token found. */
  predicate CandidatesHoldTotals(prov: Providers, ticker: string, mintBefore: Option<string>, candidates: seq<WalletMatch>)
    reads candidates
  {
    match TokenPair(prov, ticker, mintBefore)
    case None => candidates == []
    case Some(p) => forall c :: 0 <= c < |candidates| ==>
      candidates[c].holdings == map[Mint(p) := OwnerTotal(HoldersFor(prov, Mint(p)), candidates[c].address, DecimalsFor(prov, Mint(p)))]
  }

  /**
   * `find_candidates`. A token is looked up by the query's mint when set, by
   * its ticker otherwise; with no token the result is empty. Otherwise the
   * query takes the token's mint and decimals, the holders are summed per
   * owner, and each owner within tolerance of the target becomes a fresh
   * candidate holding exactly its total of that mint.
   */
  method FindCandidates(prov: Providers, query: HoldingQuery, tolerance: real := DefaultTolerance)
    returns (result: SearchResult)
    modifies query
    ensures result.query == query && query.ticker == old(query.ticker)
    ensures query.mintAddress == MintAfterSearch(prov, old(query.ticker), old(query.mintAddress))
    ensures query.decimals == DecimalsAfterSearch(prov, old(query.ticker), old(query.mintAddress), old(query.decimals))
    ensures CandidatesHoldTotals(prov, old(query.ticker), old(query.mintAddress), result.candidates)
    ensures forall c :: 0 <= c < |result.candidates| ==> fresh(result.candidates[c])
    ensures Addresses(result.candidates) ==
      ExpectedAddresses(prov, old(query.ticker), old(query.mintAddress), query.tokenAmount, tolerance)
    ensures var pair := TokenPair(prov, old(query.ticker), old(query.mintAddress));
      && (pair.None? ==> result.tokenInfo.None? && result.totalHoldersScanned == 0)
      && (pair.Some? ==>
            && result.tokenInfo.Some?
            && result.tokenInfo.value.Describes(pair.value)
            && fresh(result.tokenInfo.value)
            && result.tokenInfo.value.decimals == query.decimals
            && result.tokenInfo.value.supply ==
                 prov.supplyUi(if MintGiven(old(query.mintAddress)) then old(query.mintAddress).value else Mint(pair.value)).GetOr(0.0)
            && result.totalHoldersScanned == |OwnerOrder(HoldersFor(prov, Mint(pair.value)))|)
  {
    // Step 1: resolve the token.
    var token: Option<TokenInfo>;
    if query.mintAddress.Some? && query.mintAddress.value != "" {
      token := GetByMintAddress(prov.tokenPairs, prov.supplyUi, query.mintAddress.value);
    } else {
      token := Resolve(prov.search, prov.supplyUi, query.ticker);
    }
    if token.None? {
      return SearchResult(query, None, [], 0);
    }
    var t := token.value;
    ghost var pair := TokenPair(prov, old(query.ticker), old(query.mintAddress));
    query.mintAddress := Some(t.mintAddress);

    // Step 2: decimals.
    var supplyInfo := GetTokenSupply(prov.supply, t.mintAddress);
    var decimals := supplyInfo.decimals.GetOr(DefaultDecimals);
    query.decimals := decimals;
    t.decimals := decimals;

    // Step 3: all holder records.
    var rawAccounts, _ := GetAllHolders(prov.accounts, t.mintAddress);
    assert rawAccounts == HoldersFor(prov, Mint(pair.value));

    // Step 4: sum per owner.
    var owners, ownerTotals := AggregateByOwner(rawAccounts, decimals);

    // Step 5: keep the owners within tolerance of the target.
    var candidates := SelectCandidates(owners, ownerTotals, rawAccounts, decimals, t.mintAddress, query.tokenAmount, tolerance);
    result := SearchResult(query, Some(t), candidates, |owners|);
  }

  /**
   * The per-owner sums of `find_candidates`: every non-empty owner once, in
   * the dict's insertion order, with the sum of its records in whole tokens.
   */
  method AggregateByOwner(rawAccounts: seq<HolderRecord>, decimals: nat)
    returns (owners: seq<string>, ownerTotals: map<string, real>)
    ensures owners == OwnerOrder(rawAccounts)
    ensures forall o :: o in ownerTotals <==> o in owners
    ensures forall o :: o in ownerTotals ==> ownerTotals[o] == OwnerTotal(rawAccounts, o, decimals)
  {
    ownerTotals, owners := map[], [];
    for i := 0 to |rawAccounts|
      invariant owners == OwnerOrder(rawAccounts[..i])
      invariant forall o :: o in ownerTotals <==> o in owners
      invariant forall o :: o in ownerTotals ==> ownerTotals[o] == OwnerTotal(rawAccounts[..i], o, decimals)
    {
      var acct := rawAccounts[i];
      assert rawAccounts[..i + 1][..i] == rawAccounts[..i];
      var owner := OrEmpty(acct.owner);
      var rawAmount := acct.amount.GetOr(0);
      var uiAmount := rawAmount as real / Pow10(decimals) as real;
      if owner != "" {
        if owner in ownerTotals {
          ownerTotals := ownerTotals[owner := ownerTotals[owner] + uiAmount];
        } else {
          OwnerTotalAbsent(rawAccounts[..i], owner, decimals);
          ownerTotals := ownerTotals[owner := 0.0 + uiAmount];
          owners := owners + [owner];
        }
      }
    }
    assert rawAccounts[..|rawAccounts|] == rawAccounts;
  }

  /** The candidate loop of `find_candidates`: a fresh match per owner in the band, holding its total. */
  method SelectCandidates(owners: seq<string>, ownerTotals: map<string, real>, rawAccounts: seq<HolderRecord>,
                          decimals: nat, mint: string, target: real, tolerance: real)
    returns (candidates: seq<WalletMatch>)
    requires forall o :: o in owners ==> o in ownerTotals && ownerTotals[o] == OwnerTotal(rawAccounts, o, decimals)
    ensures Addresses(candidates) == InBandOwners(owners, rawAccounts, decimals, target, tolerance)
    ensures forall c :: 0 <= c < |candidates| ==>
      fresh(candidates[c]) && candidates[c].holdings == map[mint := OwnerTotal(rawAccounts, candidates[c].address, decimals)]
  {
    candidates := [];
    for k := 0 to |owners|
      invariant Addresses(candidates) == InBandOwners(owners[..k], rawAccounts, decimals, target, tolerance)
      invariant forall c :: 0 <= c < |candidates| ==>
        fresh(candidates[c]) && candidates[c].holdings == map[mint := OwnerTotal(rawAccounts, candidates[c].address, decimals)]
    {
      assert owners[..k + 1][..k] == owners[..k];
      var owner := owners[k];
      var held := ownerTotals[owner];
      if target > 0.0 && Abs(held - target) / target <= tolerance {
        var m := new WalletMatch(owner);
        m.AddHolding(mint, held);
        candidates := candidates + [m];
      }
    }
    assert owners[..|owners|] == owners;
  }

  /** The band test without the division: the distance is at most `tolerance` times the target. */
  lemma InBandWithoutDivision(held: real, target: real, tolerance: real)
    ensures InBand(held, target, tolerance) <==> target > 0.0 && Abs(held - target) <= tolerance * target
  {
    if target > 0.0 {
      var q := Abs(held - target) / target;
      assert q * target == Abs(held - target);
      if q <= tolerance {
        assert q * target <= tolerance * target;
      }
      if Abs(held - target) <= tolerance * target {
        assert q * target <= tolerance * target;
      }
    }
  }

  /** The owners kept are those of `owners` in the band, in their order. */
  lemma {:induction false} InBandOwnersMembers(owners: seq<string>, rs: seq<HolderRecord>, decimals: nat, target: real, tolerance: real)
    ensures forall o :: o in InBandOwners(owners, rs, decimals, target, tolerance) <==>
      o in owners && InBand(OwnerTotal(rs, o, decimals), target, tolerance)
  {
    if owners != [] {
      var n := |owners| - 1;
      InBandOwnersMembers(owners[..n], rs, decimals, target, tolerance);
      assert owners == owners[..n] + [owners[n]];
    }
  }

  /** Keeping only some owners keeps them distinct. */
  lemma {:induction false} InBandOwnersDistinct(owners: seq<string>, rs: seq<HolderRecord>, decimals: nat, target: real, tolerance: real)
    requires forall i, j :: 0 <= i < j < |owners| ==> owners[i] != owners[j]
    ensures forall i, j :: 0 <= i < j < |InBandOwners(owners, rs, decimals, target, tolerance)| ==>
      InBandOwners(owners, rs, decimals, target, tolerance)[i] != InBandOwners(owners, rs, decimals, target, tolerance)[j]
  {
    if owners != [] {
      var n := |owners| - 1;
      var init := owners[..n];
      assert forall i, j :: 0 <= i < j < |init| ==> init[i] != init[j];
      InBandOwnersDistinct(init, rs, decimals, target, tolerance);
      InBandOwnersMembers(init, rs, decimals, target, tolerance);
      var prev := InBandOwners(init, rs, decimals, target, tolerance);
      assert owners[n] !in init;
      var r := InBandOwners(owners, rs, decimals, target, tolerance);
      forall i, j | 0 <= i < j < |r| ensures r[i] != r[j] {
        if j < |prev| {
          assert r[i] == prev[i] && r[j] == prev[j];
        } else {
          assert r[j] == owners[n] && r[i] == prev[i] && prev[i] in prev;
        }
      }
    }
  }

  /** Every owner in the order has some record. */
  lemma {:induction false} OwnerOrderHasRecord(rs: seq<HolderRecord>)
    ensures forall o :: o in OwnerOrder(rs) ==> exists k :: 0 <= k < |rs| && OwnerOf(rs[k]) == o
  {
    if rs != [] {
      var n := |rs| - 1;
      OwnerOrderHasRecord(rs[..n]);
      forall o | o in OwnerOrder(rs) ensures exists k :: 0 <= k < |rs| && OwnerOf(rs[k]) == o {
        if o in OwnerOrder(rs[..n]) {
          var k :| 0 <= k < n && OwnerOf(rs[..n][k]) == o;
          assert rs[k] == rs[..n][k];
        } else {
          assert OwnerOf(rs[n]) == o;
        }
      }
    }
  }

  /**
   * An address is a candidate exactly when it owns some record, is not empty,
   * and its total is in the band; candidates are distinct.
   */
  lemma MatchingOwnersExactly(rs: seq<HolderRecord>, decimals: nat, target: real, tolerance: real)
    ensures forall o :: o in MatchingOwners(rs, decimals, target, tolerance) <==>
      && o != ""
      && (exists k :: 0 <= k < |rs| && OwnerOf(rs[k]) == o)
      && InBand(OwnerTotal(rs, o, decimals), target, tolerance)
    ensures forall i, j :: 0 <= i < j < |MatchingOwners(rs, decimals, target, tolerance)| ==>
      MatchingOwners(rs, decimals, target, tolerance)[i] != MatchingOwners(rs, decimals, target, tolerance)[j]
  {
    var owners := OwnerOrder(rs);
    InBandOwnersMembers(owners, rs, decimals, target, tolerance);
    InBandOwnersDistinct(owners, rs, decimals, target, tolerance);
    OwnerOrderHasRecord(rs);
  }

  /** A target that is not positive matches nobody. */
  lemma {:induction false} NonPositiveTargetMatchesNobody(owners: seq<string>, rs: seq<HolderRecord>, decimals: nat, target: real, tolerance: real)
    requires target <= 0.0
    ensures InBandOwners(owners, rs, decimals, target, tolerance) == []
  {
    if owners != [] {
      NonPositiveTargetMatchesNobody(owners[..|owners| - 1], rs, decimals, target, tolerance);
    }
  }

  /** Owner totals over consecutive pages add up. */
  lemma {:induction false} OwnerTotalAppend(a: seq<HolderRecord>, b: seq<HolderRecord>, o: string, decimals: nat)
    ensures OwnerTotal(a + b, o, decimals) == OwnerTotal(a, o, decimals) + OwnerTotal(b, o, decimals)
    decreases |b|
  {
    if b == [] {
      assert a + b == a;
    } else {
      var n := |b| - 1;
      assert (a + b)[..|a + b| - 1] == a + b[..n];
      OwnerTotalAppend(a, b[..n], o, decimals);
    }
  }

  /** A record without an owner changes neither the owners, nor any owner's total, nor the candidates. */
  lemma EmptyOwnerIgnored(rs: seq<HolderRecord>, r: HolderRecord, decimals: nat, target: real, tolerance: real)
    requires OwnerOf(r) == ""
    ensures OwnerOrder(rs + [r]) == OwnerOrder(rs)
    ensures forall o :: o != "" ==> OwnerTotal(rs + [r], o, decimals) == OwnerTotal(rs, o, decimals)
    ensures MatchingOwners(rs + [r], decimals, target, tolerance) == MatchingOwners(rs, decimals, target, tolerance)
  {
    assert (rs + [r])[..|rs|] == rs;
    var owners := OwnerOrder(rs);
    InBandOwnersCongruent(owners, rs + [r], rs, decimals, target, tolerance);
  }

  lemma {:induction false} InBandOwnersCongruent(owners: seq<string>, rs1: seq<HolderRecord>, rs2: seq<HolderRecord>,
                                                 decimals: nat, target: real, tolerance: real)
    requires forall i :: 0 <= i < |owners| ==> OwnerTotal(rs1, owners[i], decimals) == OwnerTotal(rs2, owners[i], decimals)
    ensures InBandOwners(owners, rs1, decimals, target, tolerance) == InBandOwners(owners, rs2, decimals, target, tolerance)
  {
    if owners != [] {
      InBandOwnersCongruent(owners[..|owners| - 1], rs1, rs2, decimals, target, tolerance);
    }
  }

  /** The distinct non-empty owners of the records: the keys of `owner_totals`. */
  function OwnerSet(rs: seq<HolderRecord>): set<string> {
    set k | 0 <= k < |rs| && OwnerOf(rs[k]) != "" :: OwnerOf(rs[k])
  }

  lemma {:induction false} DistinctCard(s: seq<string>)
    requires forall i, j :: 0 <= i < j < |s| ==> s[i] != s[j]
    ensures |set x | x in s| == |s|
  {
    if s != [] {
      var n := |s| - 1;
      DistinctCard(s[..n]);
      assert (set x | x in s) == (set x | x in s[..n]) + {s[n]};
      assert s[n] !in s[..n];
    }
  }

  /** `total_holders_scanned`: the number of distinct non-empty owners. */
  lemma HoldersScannedCount(rs: seq<HolderRecord>)
    ensures |OwnerOrder(rs)| == |OwnerSet(rs)|
  {
    var owners := OwnerOrder(rs);
    OwnerOrderHasRecord(rs);
    DistinctCard(owners);
    assert (set x | x in owners) == OwnerSet(rs) by {
      forall x | x in owners ensures x in OwnerSet(rs) {
        var k :| 0 <= k < |rs| && OwnerOf(rs[k]) == x;
      }
    }
  }

  /** The sum of the listed owners' totals. */
  function SumOfTotals(owners: seq<string>, rs: seq<HolderRecord>, decimals: nat): real {
    if owners == [] then 0.0
    else SumOfTotals(owners[..|owners| - 1], rs, decimals) + OwnerTotal(rs, owners[|owners| - 1], decimals)
  }

  /** The sum of all records that have an owner, in whole tokens. */
  function OwnedAmount(rs: seq<HolderRecord>, decimals: nat): real {
    if rs == [] then 0.0
    else
      var last := rs[|rs| - 1];
      OwnedAmount(rs[..|rs| - 1], decimals) + (if OwnerOf(last) != "" then UiAmount(RawAmount(last), decimals) else 0.0)
  }

  lemma {:induction false} SumOfTotalsSnoc(owners: seq<string>, init: seq<HolderRecord>, r: HolderRecord, decimals: nat)
    requires forall i, j :: 0 <= i < j < |owners| ==> owners[i] != owners[j]
    ensures SumOfTotals(owners, init + [r], decimals) ==
      SumOfTotals(owners, init, decimals) + (if OwnerOf(r) in owners then UiAmount(RawAmount(r), decimals) else 0.0)
  {
    assert (init + [r])[..|init|] == init;
    if owners != [] {
      var n := |owners| - 1;
      SumOfTotalsSnoc(owners[..n], init, r, decimals);
      assert owners == owners[..n] + [owners[n]];
      assert owners[n] !in owners[..n];
    }
  }

  /** Summing per owner loses and duplicates nothing: the owners' totals add up to every owned record. */
  lemma {:induction false} TotalsConserveAmount(rs: seq<HolderRecord>, decimals: nat)
    ensures SumOfTotals(OwnerOrder(rs), rs, decimals) == OwnedAmount(rs, decimals)
  {
    if rs != [] {
      var n := |rs| - 1;
      var init, r := rs[..n], rs[n];
      assert rs == init + [r];
      TotalsConserveAmount(init, decimals);
      var prev := OwnerOrder(init);
      SumOfTotalsSnoc(prev, init, r, decimals);
      var o := OwnerOf(r);
      if o != "" && o !in prev {
        SumOfTotalsSnoc(prev, init, r, decimals);
        OwnerTotalAbsent(init, o, decimals);
        assert OwnerOrder(rs) == prev + [o];
        assert (prev + [o])[..|prev|] == prev;
      }
    }
  }

  /** The elements of `a` that are also in `b`. */
  function Intersect(a: seq<string>, b: seq<string>): (r: seq<string>)
    ensures forall x :: x in r <==> x in a && x in b
  {
    if a == [] then [] else (if a[0] in b then [a[0]] else []) + Intersect(a[1..], b)
  }

  /** `sorted(wallets1 & wallets2)`: the common addresses, each once, in increasing order. */
  function ConfirmedWallets(c1: seq<WalletMatch>, c2: seq<WalletMatch>): (r: seq<string>)
    ensures StrictlyIncreasing(r)
    ensures forall w :: w in r <==> w in Addresses(c1) && w in Addresses(c2)
  {
    SortedSet(Intersect(Addresses(c1), Addresses(c2)))
  }

  /** Swapping the two searches confirms the same wallets. */
  lemma ConfirmedSymmetric(c1: seq<WalletMatch>, c2: seq<WalletMatch>)
    ensures ConfirmedWallets(c1, c2) == ConfirmedWallets(c2, c1)
  {
    SortedListingUnique(ConfirmedWallets(c1, c2), ConfirmedWallets(c2, c1));
  }

  /** Any sorted, duplicate-free listing of the common addresses is the confirmed list. */
  lemma ConfirmedIsTheListing(c1: seq<WalletMatch>, c2: seq<WalletMatch>, listing: seq<string>)
    requires StrictlyIncreasing(listing)
    requires forall w :: w in listing <==> w in Addresses(c1) && w in Addresses(c2)
    ensures ConfirmedWallets(c1, c2) == listing
  {
    SortedListingUnique(ConfirmedWallets(c1, c2), listing);
  }

  /** `verified` holds exactly when the two searches share one address, and `wallet` is that address. */
  lemma VerifiedIffOneCommon(v: VerificationResult, w: string)
    requires v.confirmedWallets == ConfirmedWallets(v.primaryCandidates, v.verificationCandidates)
    ensures v.Wallet() == Some(w) <==>
      forall x :: x in Addresses(v.primaryCandidates) && x in Addresses(v.verificationCandidates) <==> x == w
  {
    var r := v.confirmedWallets;
    if forall x :: x in Addresses(v.primaryCandidates) && x in Addresses(v.verificationCandidates) <==> x == w {
      assert w in r;
      SortedListingUnique(r, [w]);
    }
  }

  /**
   * `verify_with_second_holding`: two searches, their candidate lists passed
   * through, and their common addresses sorted. When both arguments are the
   * same query object, the second search sees the mint the first one stored.
   */
  method VerifyWithSecondHolding(prov: Providers, primary: HoldingQuery, verification: HoldingQuery,
                                 tolerance: real := DefaultTolerance)
    returns (v: VerificationResult)
    modifies primary, verification
    ensures v.primaryQuery == primary && v.verificationQuery == verification
    ensures v.confirmedWallets == ConfirmedWallets(v.primaryCandidates, v.verificationCandidates)
    ensures Addresses(v.primaryCandidates) ==
      ExpectedAddresses(prov, old(primary.ticker), old(primary.mintAddress), primary.tokenAmount, tolerance)
    ensures primary != verification ==>
      (Addresses(v.verificationCandidates) ==
       ExpectedAddresses(prov, old(verification.ticker), old(verification.mintAddress), verification.tokenAmount, tolerance))
    ensures primary.ticker == old(primary.ticker) && verification.ticker == old(verification.ticker)
    ensures CandidatesHoldTotals(prov, old(primary.ticker), old(primary.mintAddress), v.primaryCandidates)
    ensures primary != verification ==>
      && primary.mintAddress == MintAfterSearch(prov, old(primary.ticker), old(primary.mintAddress))
      && primary.decimals == DecimalsAfterSearch(prov, old(primary.ticker), old(primary.mintAddress), old(primary.decimals))
      && verification.mintAddress == MintAfterSearch(prov, old(verification.ticker), old(verification.mintAddress))
      && verification.decimals ==
           DecimalsAfterSearch(prov, old(verification.ticker), old(verification.mintAddress), old(verification.decimals))
      && CandidatesHoldTotals(prov, old(verification.ticker), old(verification.mintAddress), v.verificationCandidates)
    ensures primary == verification ==>
      && Addresses(v.verificationCandidates) ==
           ExpectedAddresses(prov, old(primary.ticker), MintAfterSearch(prov, old(primary.ticker), old(primary.mintAddress)),
                             primary.tokenAmount, tolerance)
      && CandidatesHoldTotals(prov, old(primary.ticker), MintAfterSearch(prov, old(primary.ticker), old(primary.mintAddress)),
                              v.verificationCandidates)
      && primary.mintAddress ==
           MintAfterSearch(prov, old(primary.ticker), MintAfterSearch(prov, old(primary.ticker), old(primary.mintAddress)))
      && primary.decimals ==
           DecimalsAfterSearch(prov, old(primary.ticker), MintAfterSearch(prov, old(primary.ticker), old(primary.mintAddress)),
                               DecimalsAfterSearch(prov, old(primary.ticker), old(primary.mintAddress), old(primary.decimals)))
    ensures forall c :: 0 <= c < |v.primaryCandidates| ==> fresh(v.primaryCandidates[c])
    ensures forall c :: 0 <= c < |v.verificationCandidates| ==> fresh(v.verificationCandidates[c])
  {
    var result1 := FindCandidates(prov, primary, tolerance);
    var result2 := FindCandidates(prov, verification, tolerance);
    var confirmed := ConfirmedWallets(result1.candidates, result2.candidates);
    v := VerificationResult(primary, verification, confirmed, result1.candidates, result2.candidates);
  }

  /** Owner A holds 150 and 50 raw units, B holds 50, and one record has no owner. */
  function ExampleHolders(): seq<HolderRecord> {
    [HolderRecord(Some("A"), Some("t1"), Some(150)), HolderRecord(None, Some("t2"), Some(999)),
     HolderRecord(Some("B"), Some("t3"), Some(50)), HolderRecord(Some("A"), Some("t4"), Some(50))]
  }

  lemma ExampleOwners()
    ensures OwnerOrder(ExampleHolders()) == ["A", "B"]
  {
    var rs := ExampleHolders();
    var a, b, c := rs[..1], rs[..2], rs[..3];
    assert a[..0] == [] && b[..1] == a && c[..2] == b && rs[..3] == c;
    assert OwnerOf(rs[0]) == "A" && OwnerOf(rs[1]) == "" && OwnerOf(rs[2]) == "B" && OwnerOf(rs[3]) == "A";
    assert OwnerOrder(a) == ["A"];
    assert OwnerOrder(b) == ["A"];
    assert OwnerOrder(c) == ["A", "B"];
  }

  /** With two decimals A holds 2.0 tokens and B 0.5. */
  lemma ExampleTotals()
    ensures OwnerTotal(ExampleHolders(), "A", 2) == 2.0 && OwnerTotal(ExampleHolders(), "B", 2) == 0.5
  {
    var rs := ExampleHolders();
    var a, b, c := rs[..1], rs[..2], rs[..3];
    assert a[..0] == [] && b[..1] == a && c[..2] == b && rs[..3] == c;
    assert OwnerOf(rs[0]) == "A" && OwnerOf(rs[1]) == "" && OwnerOf(rs[2]) == "B" && OwnerOf(rs[3]) == "A";
    assert Pow10(2) == 100;
    assert UiAmount(150, 2) == 1.5 && UiAmount(50, 2) == 0.5;
    assert OwnerTotal(a, "A", 2) == 1.5 && OwnerTotal(a, "B", 2) == 0.0;
    assert OwnerTotal(b, "A", 2) == 1.5 && OwnerTotal(b, "B", 2) == 0.0;
    assert OwnerTotal(c, "A", 2) == 1.5 && OwnerTotal(c, "B", 2) == 0.5;
  }

  /** A is the only owner within 0.1% of a 2.0 target. */
  lemma ExampleMatch()
    ensures MatchingOwners(ExampleHolders(), 2, 2.0, DefaultTolerance) == ["A"]
  {
    ExampleOwners();
    ExampleTotals();
    var rs := ExampleHolders();
    assert ["A", "B"][..1] == ["A"] && ["A"][..0] == [];
    assert !InBand(0.5, 2.0, DefaultTolerance) && InBand(2.0, 2.0, DefaultTolerance);
    assert InBandOwners(["A"], rs, 2, 2.0, DefaultTolerance) == ["A"];
  }

  /** Addresses `b, a, c` and `c, a` confirm `a` and `c`, in that order. */
  lemma ConfirmedExample(c1: seq<WalletMatch>, c2: seq<WalletMatch>)
    requires Addresses(c1) == ["b", "a", "c"] && Addresses(c2) == ["c", "a"]
    ensures ConfirmedWallets(c1, c2) == ["a", "c"]
  {
    assert LexLess("a", "c");
    ConfirmedIsTheListing(c1, c2, ["a", "c"]);
  }
}
