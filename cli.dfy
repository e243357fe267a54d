/**
 * The input side of the command-line tool: telling a mint address from a
 * ticker, the rule that picks one of several tokens, and building the
 * holding query from what the user typed.
 */
module Cli {
  import opened Wrappers
  import opened Payloads
  import opened Text
  import opened Models
  import opened Dexscreener
  import opened TokenResolver

  /** The base58 alphabet `[1-9A-HJ-NP-Za-km-z]`. */
  predicate IsBase58Char(c: char) {
    '1' <= c <= '9' || 'A' <= c <= 'H' || 'J' <= c <= 'N' || 'P' <= c <= 'Z' || 'a' <= c <= 'k' || 'm' <= c <= 'z'
  }

  predicate IsAsciiAlnum(c: char) {
    '0' <= c <= '9' || 'A' <= c <= 'Z' || 'a' <= c <= 'z'
  }

  /** Base58 is the ASCII letters and digits without the look-alikes `0`, `O`, `I` and `l`. */
  lemma Base58Alphabet(c: char)
    ensures IsBase58Char(c) <==> IsAsciiAlnum(c) && c != '0' && c != 'O' && c != 'I' && c != 'l'
  {
  }

  /** 32 to 44 base58 characters: the shape of a Solana address. */
  predicate IsBase58Address(s: string) {
    32 <= |s| <= 44 && forall i :: 0 <= i < |s| ==> IsBase58Char(s[i])
  }

  /**
   * `_is_mint_address`: `re.match` of the anchored pattern. Python's `$` also
   * matches just before a final newline, so one trailing `"\n"` is accepted.
   */
  predicate IsMintAddress(s: string): (b: bool)
    ensures b ==> 32 <= |s| <= 45
    ensures IsBase58Address(s) ==> b
  {
    IsBase58Address(s) || (|s| > 0 && s[|s| - 1] == '\n' && IsBase58Address(s[..|s| - 1]))
  }

  /** What is accepted is 32 to 44 base58 characters, with at most a newline after them. */
  lemma MintAddressShape(s: string)
    ensures IsMintAddress(s) ==> 32 <= |s| <= 45
    ensures IsMintAddress(s) ==> forall i :: 0 <= i < |s| ==> IsBase58Char(s[i]) || (i == |s| - 1 && s[i] == '\n')
    ensures IsMintAddress(s) ==> '0' !in s && 'O' !in s && 'I' !in s && 'l' !in s
  {
    if IsMintAddress(s) && !IsBase58Address(s) {
      var t := s[..|s| - 1];
      assert forall i :: 0 <= i < |s| - 1 ==> s[i] == t[i];
    }
  }

  /** Both callers strip the input first, and a stripped string has no trailing newline: there the test is exact. */
  lemma {:induction false} StrippedMintAddress(raw: string)
    ensures IsMintAddress(Strip(raw)) <==> IsBase58Address(Strip(raw))
  {
    var s := Strip(raw);
    if |s| > 0 {
      assert !IsSpace(s[|s| - 1]);
      assert s[|s| - 1] != '\n';
    }
  }

  /** An address followed by a newline passes the pattern as written. */
  lemma TrailingNewlineAccepted()
    ensures IsMintAddress("11111111111111111111111111111111\n")
    ensures !IsBase58Address("11111111111111111111111111111111\n")
  {
    var a := "11111111111111111111111111111111";
    var s := "11111111111111111111111111111111\n";
    assert |a| == 32 && forall i :: 0 <= i < |a| ==> a[i] == '1';
    assert IsBase58Address(a);
    assert |s| == 33 && s[32] == '\n' && s[..32] == a;
    assert !IsBase58Char(s[32]);
  }

  /** The position `_select_token` returns for `n > 0` candidates and the typed choice. */
  function ChoiceIndex(n: nat, choice: int): (i: nat)
    requires n > 0
    ensures i < n
    ensures n > 1 && 1 <= choice <= n ==> i == choice - 1
    ensures (n == 1 || choice < 1 || choice > n) ==> i == 0
  {
    if n == 1 then 0 else if 1 <= choice <= n then choice - 1 else 0
  }

  /**
   * `_select_token`'s rule: nothing for no candidates, the sole one without
   * asking, else the chosen one, with an invalid choice falling back to the first.
   */
  function SelectToken<T>(candidates: seq<T>, choice: int): (r: Option<T>)
    ensures r.None? <==> candidates == []
    ensures r.Some? ==> r.value in candidates
    ensures |candidates| == 1 ==> r == Some(candidates[0])
    ensures |candidates| > 1 && 1 <= choice <= |candidates| ==> r == Some(candidates[choice - 1])
    ensures |candidates| > 1 && !(1 <= choice <= |candidates|) ==> r == Some(candidates[0])
  {
    if candidates == [] then None else Some(candidates[ChoiceIndex(|candidates|, choice)])
  }

  /** The prompt's default answer, 1, takes the first (most liquid) candidate. */
  lemma DefaultChoiceTakesFirst<T>(candidates: seq<T>)
    requires candidates != []
    ensures SelectToken(candidates, 1) == Some(candidates[0])
  {
  }

  /** The token picked for a ticker has that ticker as its symbol, up to case, and the most liquid pair of its mint. */
  lemma SelectedMatchesTicker(search: Endpoint, ticker: string, choice: int)
    requires SelectToken(TickerCandidates(search, ticker), choice).Some?
    ensures Matches(SelectToken(TickerCandidates(search, ticker), choice).value, ticker)
    ensures IsKeptPair(SearchSolanaTokens(search, Upper(ticker)), ticker, SelectToken(TickerCandidates(search, ticker), choice).value)
  {
    var c := TickerCandidates(search, ticker);
    RankedAreKept(SearchSolanaTokens(search, Upper(ticker)), ticker);
    assert SelectToken(c, choice).value == c[ChoiceIndex(|c|, choice)];
  }

  /**
   * The query-building part of `get_holding_input`. The typed text is
   * stripped; a mint address is used as is, with its first eight characters
   * and `...` as the ticker; anything else is searched as a ticker, and the
   * token selected (by `choice`, the answer to the prompt) supplies the mint
   * and the symbol. When no token is found the query keeps the upper-cased
   * input and no mint.
   */
  method GetHoldingInput(search: Endpoint, rawInput: string, tokenAmount: real, choice: int)
    returns (query: HoldingQuery)
    ensures fresh(query)
    ensures query.tokenAmount == tokenAmount && query.decimals == DefaultDecimals
    ensures IsMintAddress(Strip(rawInput)) ==>
      && |Strip(rawInput)| >= 8
      && query.mintAddress == Some(Strip(rawInput))
      && query.ticker == Strip(rawInput)[..8] + "..."
    ensures !IsMintAddress(Strip(rawInput)) ==>
      match SelectToken(TickerCandidates(search, Upper(Strip(rawInput))), choice)
      case None => query.mintAddress == None && query.ticker == Upper(Strip(rawInput))
      case Some(p) => query.mintAddress == Some(Mint(p)) && query.ticker == OrEmpty(p.baseSymbol)
  {
    var tokenInput := Strip(rawInput);
    query := new HoldingQuery(Upper(tokenInput), tokenAmount);
    if IsMintAddress(tokenInput) {
      query.mintAddress := Some(tokenInput);
      query.ticker := tokenInput[..8] + "...";
    } else {
      var candidates := SearchByTicker(search, Upper(tokenInput));
      ghost var pairs := TickerCandidates(search, Upper(tokenInput));
      var token := SelectToken(candidates, choice);
      if token.Some? {
        assert token.value == candidates[ChoiceIndex(|candidates|, choice)];
        assert BuiltFrom(token.value, pairs[ChoiceIndex(|pairs|, choice)]);
        query.mintAddress := Some(token.value.mintAddress);
        query.ticker := token.value.symbol;
      }
    }
  }
}
