/**
 * The Helius client: one page of a mint's token accounts, the pagination over
 * all of them, and the token-supply lookup. Each JSON-RPC call is a function
 * from its parameters to the decoded `result` (`None` for a null result).
 */
module Helius {
  import opened Wrappers
  import opened Payloads

  /** getTokenAccounts: (mint, page, limit) to the `result` object. */
  type AccountsRpc = (string, int, int) -> Option<AccountsResult>

  /** getTokenSupply: mint to the `result` object. */
  type SupplyRpc = string -> Option<SupplyResult>

  /** The largest page the API serves, and the page size the pagination asks for. */
  const PageSize: int := 1000

  /** The `max_pages` default of `get_all_holders`. */
  const DefaultMaxPages: int := 50

  /** `min(limit, 1000)`. */
  function ClampLimit(limit: int): (r: int)
    ensures r <= PageSize
    ensures r == limit || r == PageSize
    ensures limit <= PageSize ==> r == limit
  {
    if limit < PageSize then limit else PageSize
  }

  /** `get_token_accounts`: the page's `token_accounts`, or `[]` when the result is empty or lacks them. */
  function GetTokenAccounts(rpc: AccountsRpc, mint: string, page: int, limit: int): (r: seq<HolderRecord>)
    ensures rpc(mint, page, ClampLimit(limit)).Some? && rpc(mint, page, ClampLimit(limit)).value.tokenAccounts.Some? ==>
      r == rpc(mint, page, ClampLimit(limit)).value.tokenAccounts.value
    ensures rpc(mint, page, ClampLimit(limit)).None? || rpc(mint, page, ClampLimit(limit)).value.tokenAccounts.None? ==>
      r == []
    ensures r != [] ==> rpc(mint, page, ClampLimit(limit)) == Some(AccountsResult(Some(r)))
  {
    match rpc(mint, page, ClampLimit(limit))
    case Some(AccountsResult(Some(accounts))) => accounts
    case _ => []
  }

  /** The page `get_all_holders` receives for each page number. */
  function PageFetcher(rpc: AccountsRpc, mint: string): int -> seq<HolderRecord> {
    page => GetTokenAccounts(rpc, mint, page, PageSize)
  }

  /**
   * The page numbers the pagination requests, from `page` on: it stops after
   * the first page with fewer than `PageSize` records (an empty one included)
   * and never goes past `maxPages`.
   */
  function Requested(fetch: int -> seq<HolderRecord>, page: int, maxPages: int): seq<int>
    decreases maxPages - page
  {
    if page > maxPages then []
    else if |fetch(page)| < PageSize then [page]
    else [page] + Requested(fetch, page + 1, maxPages)
  }

  /** The records the pagination gathers from `page` on. */
  function Collected(fetch: int -> seq<HolderRecord>, page: int, maxPages: int): seq<HolderRecord>
    decreases maxPages - page
  {
    if page > maxPages then []
    else if |fetch(page)| < PageSize then fetch(page)
    else fetch(page) + Collected(fetch, page + 1, maxPages)
  }

  /** The concatenation of the pages with the given numbers, in order. */
  function Concat(fetch: int -> seq<HolderRecord>, pages: seq<int>): seq<HolderRecord> {
    if pages == [] then [] else fetch(pages[0]) + Concat(fetch, pages[1..])
  }

  /** `get_all_holders`: pages 1, 2, ... concatenated until a short or empty page or `maxPages`. */
  method GetAllHolders(rpc: AccountsRpc, mint: string, maxPages: int := DefaultMaxPages)
    returns (all: seq<HolderRecord>, ghost requests: seq<int>)
    ensures all == Collected(PageFetcher(rpc, mint), 1, maxPages)
    ensures requests == Requested(PageFetcher(rpc, mint), 1, maxPages)
  {
    ghost var fetch := PageFetcher(rpc, mint);
    all, requests := [], [];
    var page := 1;
    while page <= maxPages
      invariant 1 <= page
      invariant all + Collected(fetch, page, maxPages) == Collected(fetch, 1, maxPages)
      invariant requests + Requested(fetch, page, maxPages) == Requested(fetch, 1, maxPages)
      decreases maxPages - page
    {
      var accounts := GetTokenAccounts(rpc, mint, page, PageSize);
      assert accounts == fetch(page);
      requests := requests + [page];
      if accounts == [] {
        assert Collected(fetch, page, maxPages) == [];
        assert Requested(fetch, page, maxPages) == [page];
        return;
      }
      all := all + accounts;
      if |accounts| < PageSize {
        assert Collected(fetch, page, maxPages) == accounts;
        assert Requested(fetch, page, maxPages) == [page];
        return;
      }
      assert all + Collected(fetch, page + 1, maxPages) == Collected(fetch, 1, maxPages);
      page := page + 1;
    }
  }

  /** The requested pages are `page, page + 1, ...`, and there are never more than the budget allows. */
  lemma {:induction false} RequestedConsecutive(fetch: int -> seq<HolderRecord>, page: int, maxPages: int)
    ensures var r := Requested(fetch, page, maxPages);
      && (forall i :: 0 <= i < |r| ==> r[i] == page + i)
      && (page > maxPages ==> r == [])
      && (page <= maxPages ==> 1 <= |r| <= maxPages - page + 1)
    decreases maxPages - page
  {
    if page <= maxPages && |fetch(page)| >= PageSize {
      RequestedConsecutive(fetch, page + 1, maxPages);
    }
  }

  /** Every requested page but the last is full; the last is short unless the budget ran out. */
  lemma {:induction false} RequestedStops(fetch: int -> seq<HolderRecord>, page: int, maxPages: int)
    ensures var r := Requested(fetch, page, maxPages);
      && (forall i :: 0 <= i < |r| - 1 ==> |fetch(r[i])| >= PageSize)
      && (r != [] && r[|r| - 1] < maxPages ==> |fetch(r[|r| - 1])| < PageSize)
    decreases maxPages - page
  {
    if page <= maxPages && |fetch(page)| >= PageSize {
      RequestedStops(fetch, page + 1, maxPages);
      RequestedConsecutive(fetch, page + 1, maxPages);
      var r, rest := Requested(fetch, page, maxPages), Requested(fetch, page + 1, maxPages);
      assert r == [page] + rest;
      forall i | 0 <= i < |r| - 1 ensures |fetch(r[i])| >= PageSize {
        if i > 0 {
          assert r[i] == rest[i - 1];
        }
      }
    }
  }

  /** The result is exactly the requested pages concatenated in order, with nothing dropped or merged. */
  lemma {:induction false} CollectedIsRequestedPages(fetch: int -> seq<HolderRecord>, page: int, maxPages: int)
    ensures Collected(fetch, page, maxPages) == Concat(fetch, Requested(fetch, page, maxPages))
    decreases maxPages - page
  {
    if page <= maxPages {
      if |fetch(page)| < PageSize {
        assert Concat(fetch, [page]) == fetch(page) + Concat(fetch, []);
      } else {
        CollectedIsRequestedPages(fetch, page + 1, maxPages);
        var rest := Requested(fetch, page + 1, maxPages);
        assert ([page] + rest)[1..] == rest;
      }
    }
  }

  /** With a budget of no pages, no request is made and the result is empty. */
  lemma NoBudgetNoRequests(rpc: AccountsRpc, mint: string, maxPages: int)
    requires maxPages <= 0
    ensures Requested(PageFetcher(rpc, mint), 1, maxPages) == []
    ensures Collected(PageFetcher(rpc, mint), 1, maxPages) == []
  {
  }

  /** Pages of 1000, 1000 and 400 records give 2400 records from three requests. */
  lemma {:induction false} ThreePagesExample(fetch: int -> seq<HolderRecord>)
    requires |fetch(1)| == 1000 && |fetch(2)| == 1000 && |fetch(3)| == 400
    ensures Requested(fetch, 1, DefaultMaxPages) == [1, 2, 3]
    ensures |Collected(fetch, 1, DefaultMaxPages)| == 2400
  {
    assert Requested(fetch, 3, DefaultMaxPages) == [3];
    assert Requested(fetch, 2, DefaultMaxPages) == [2, 3];
    assert Collected(fetch, 3, DefaultMaxPages) == fetch(3);
    assert Collected(fetch, 2, DefaultMaxPages) == fetch(2) + fetch(3);
  }

  /** `get_token_supply`: the result's `value`, or an empty record when the result is empty. */
  function GetTokenSupply(rpc: SupplyRpc, mint: string): (r: SupplyValue)
    ensures rpc(mint).Some? && rpc(mint).value.value.Some? ==> r == rpc(mint).value.value.value
    ensures rpc(mint).None? || rpc(mint).value.value.None? ==> r == SupplyValue(None, None, None)
    ensures r.decimals.Some? ==> rpc(mint).Some? && rpc(mint).value.value == Some(r)
  {
    match rpc(mint)
    case Some(SupplyResult(Some(v))) => v
    case _ => SupplyValue(None, None, None)
  }
}
