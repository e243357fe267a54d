/**
 * Ticker resolution: the Solana pairs whose base token has the ticker's
 * symbol are grouped by mint (the most liquid pair of each mint represents
 * it), the tokens are ranked by liquidity, and a market-cap hint can pick
 * among several tokens that share a ticker.
 */
module TokenResolver {
  import opened Wrappers
  import opened Payloads
  import opened Text
  import opened StableSort
  import opened Models
  import opened Dexscreener

  /** The mint of a pair's base token, `""` when absent. */
  function Mint(p: Pair): string {
    OrEmpty(p.baseAddress)
  }

  /** A pair `search_by_ticker` keeps: it names a mint, and its symbol is the ticker up to case. */
  predicate Matches(p: Pair, ticker: string) {
    Mint(p) != "" && Upper(OrEmpty(p.baseSymbol)) == Upper(ticker)
  }

  /** The grouping state: mints in first-seen order, and the pair kept for each. */
  datatype Grouping = Grouping(order: seq<string>, best: map<string, Pair>)

  /** One pass of the grouping loop. A later pair replaces the kept one only if strictly more liquid. */
  function Step(g: Grouping, p: Pair, ticker: string): Grouping {
    if !Matches(p, ticker) then g
    else if Mint(p) !in g.best then Grouping(g.order + [Mint(p)], g.best[Mint(p) := p])
    else if Liquidity(p) > Liquidity(g.best[Mint(p)]) then Grouping(g.order, g.best[Mint(p) := p])
    else g
  }

  /** The grouping after the loop has seen all of `pairs`. */
  function Group(pairs: seq<Pair>, ticker: string): (g: Grouping)
    ensures forall m :: m in g.order <==> m in g.best
    ensures forall i, j :: 0 <= i < j < |g.order| ==> g.order[i] != g.order[j]
  {
    if pairs == [] then Grouping([], map[])
    else Step(Group(pairs[..|pairs| - 1], ticker), pairs[|pairs| - 1], ticker)
  }

  /**
   * `pairs[k]` is the pair the grouping keeps for mint `m`: a matching pair of
   * that mint, at least as liquid as every other, and strictly more liquid
   * than each one before it.
   */
  predicate KeptAt(pairs: seq<Pair>, ticker: string, m: string, k: int) {
    && 0 <= k < |pairs| && Matches(pairs[k], ticker) && Mint(pairs[k]) == m
    && (forall j :: 0 <= j < |pairs| && Matches(pairs[j], ticker) && Mint(pairs[j]) == m ==>
          Liquidity(pairs[j]) <= Liquidity(pairs[k]))
    && (forall j :: 0 <= j < k && Matches(pairs[j], ticker) && Mint(pairs[j]) == m ==>
          Liquidity(pairs[j]) < Liquidity(pairs[k]))
  }

  /** The index of the first matching pair of mint `m`; `|pairs|` when there is none. */
  function FirstIndexOf(pairs: seq<Pair>, ticker: string, m: string): (r: nat)
    ensures r <= |pairs|
    ensures r < |pairs| ==> Matches(pairs[r], ticker) && Mint(pairs[r]) == m
    ensures forall j :: 0 <= j < r ==> !(Matches(pairs[j], ticker) && Mint(pairs[j]) == m)
  {
    if pairs == [] then 0
    else if Matches(pairs[0], ticker) && Mint(pairs[0]) == m then 0
    else 1 + FirstIndexOf(pairs[1..], ticker, m)
  }

  lemma {:induction false} FirstIndexAppend(init: seq<Pair>, p: Pair, ticker: string, m: string)
    ensures FirstIndexOf(init, ticker, m) < |init| ==>
      FirstIndexOf(init + [p], ticker, m) == FirstIndexOf(init, ticker, m)
    ensures FirstIndexOf(init, ticker, m) == |init| ==>
      FirstIndexOf(init + [p], ticker, m) == if Matches(p, ticker) && Mint(p) == m then |init| else |init| + 1
  {
    if init != [] {
      assert (init + [p])[0] == init[0] && (init + [p])[1..] == init[1..] + [p];
      FirstIndexAppend(init[1..], p, ticker, m);
    }
  }

  lemma KeptAtOther(init: seq<Pair>, p: Pair, ticker: string, m: string, k: int)
    requires KeptAt(init, ticker, m, k)
    requires !(Matches(p, ticker) && Mint(p) == m)
    ensures KeptAt(init + [p], ticker, m, k)
  {
    var s := init + [p];
    assert forall j :: 0 <= j < |init| ==> s[j] == init[j];
  }

  lemma KeptAtWeaker(init: seq<Pair>, p: Pair, ticker: string, m: string, k: int)
    requires KeptAt(init, ticker, m, k)
    requires Liquidity(p) <= Liquidity(init[k])
    ensures KeptAt(init + [p], ticker, m, k)
  {
    var s := init + [p];
    assert forall j :: 0 <= j < |init| ==> s[j] == init[j];
  }

  lemma KeptAtNew(init: seq<Pair>, p: Pair, ticker: string)
    requires Matches(p, ticker)
    requires forall j :: 0 <= j < |init| && Matches(init[j], ticker) && Mint(init[j]) == Mint(p) ==>
               Liquidity(init[j]) < Liquidity(p)
    ensures KeptAt(init + [p], ticker, Mint(p), |init|)
  {
    var s := init + [p];
    assert forall j :: 0 <= j < |init| ==> s[j] == init[j];
  }

  /** The pair kept for `m` is the first pair of greatest liquidity among the matching pairs of `m`. */
  ghost predicate KeptFirstMax(pairs: seq<Pair>, ticker: string, best: map<string, Pair>, m: string)
    requires m in best
  {
    exists k :: KeptAt(pairs, ticker, m, k) && best[m] == pairs[k]
  }

  /**
   * What the grouping keeps: exactly the mints of matching pairs, and for each
   * mint its first pair of greatest liquidity.
   */
  lemma {:induction false} GroupKeeps(pairs: seq<Pair>, ticker: string)
    ensures forall m :: m in Group(pairs, ticker).best ==> KeptFirstMax(pairs, ticker, Group(pairs, ticker).best, m)
    ensures forall k :: 0 <= k < |pairs| && Matches(pairs[k], ticker) ==> Mint(pairs[k]) in Group(pairs, ticker).best
  {
    if pairs != [] {
      var n := |pairs| - 1;
      var init, p := pairs[..n], pairs[n];
      assert pairs == init + [p];
      GroupKeeps(init, ticker);
      var g0, g := Group(init, ticker), Group(pairs, ticker);
      forall m | m in g.best
        ensures KeptFirstMax(pairs, ticker, g.best, m)
      {
        GroupKeepsStep(init, p, ticker, m);
      }
      forall k | 0 <= k < |pairs| && Matches(pairs[k], ticker)
        ensures Mint(pairs[k]) in g.best
      {
        if k < n {
          assert pairs[k] == init[k];
        }
      }
    }
  }

  /** One more pair keeps the kept pair of every mint its first most liquid matching pair. */
  lemma GroupKeepsStep(init: seq<Pair>, p: Pair, ticker: string, m: string)
    requires forall m :: m in Group(init, ticker).best ==> KeptFirstMax(init, ticker, Group(init, ticker).best, m)
    requires forall k :: 0 <= k < |init| && Matches(init[k], ticker) ==> Mint(init[k]) in Group(init, ticker).best
    requires m in Step(Group(init, ticker), p, ticker).best
    ensures KeptFirstMax(init + [p], ticker, Step(Group(init, ticker), p, ticker).best, m)
  {
    var g0, g := Group(init, ticker), Step(Group(init, ticker), p, ticker);
    if Matches(p, ticker) && Mint(p) == m {
      if m !in g0.best {
        KeptAtNew(init, p, ticker);
        assert g.best[m] == p;
      } else {
        assert KeptFirstMax(init, ticker, g0.best, m);
        var k :| KeptAt(init, ticker, m, k) && g0.best[m] == init[k];
        if Liquidity(p) > Liquidity(g0.best[m]) {
          KeptAtNew(init, p, ticker);
          assert g.best[m] == p;
        } else {
          KeptAtWeaker(init, p, ticker, m, k);
          assert g.best[m] == g0.best[m];
        }
      }
    } else {
      assert m in g0.best && g.best[m] == g0.best[m];
      assert KeptFirstMax(init, ticker, g0.best, m);
      var k :| KeptAt(init, ticker, m, k) && g0.best[m] == init[k];
      KeptAtOther(init, p, ticker, m, k);
    }
  }

  /** A mint is grouped exactly when some matching pair has it. */
  lemma {:induction false} GroupMembers(pairs: seq<Pair>, ticker: string)
    ensures forall m :: m in Group(pairs, ticker).best <==> FirstIndexOf(pairs, ticker, m) < |pairs|
  {
    if pairs != [] {
      var n := |pairs| - 1;
      var init, p := pairs[..n], pairs[n];
      assert pairs == init + [p];
      GroupMembers(init, ticker);
      forall m ensures m in Group(pairs, ticker).best <==> FirstIndexOf(pairs, ticker, m) < |pairs| {
        FirstIndexAppend(init, p, ticker, m);
      }
    }
  }

  /** Mints `order[i]` and `order[j]` first appear in that order. */
  predicate FirstSeenBefore(pairs: seq<Pair>, ticker: string, order: seq<string>, i: int, j: int)
    requires 0 <= i < j < |order|
  {
    FirstIndexOf(pairs, ticker, order[i]) < FirstIndexOf(pairs, ticker, order[j]) < |pairs|
  }

  lemma GroupOrderStep(init: seq<Pair>, p: Pair, ticker: string, i: int, j: int)
    requires forall i, j :: 0 <= i < j < |Group(init, ticker).order| ==>
               FirstSeenBefore(init, ticker, Group(init, ticker).order, i, j)
    requires forall m :: m in Group(init, ticker).best <==> FirstIndexOf(init, ticker, m) < |init|
    requires 0 <= i < j < |Step(Group(init, ticker), p, ticker).order|
    ensures FirstSeenBefore(init + [p], ticker, Step(Group(init, ticker), p, ticker).order, i, j)
  {
    var g0, g := Group(init, ticker), Step(Group(init, ticker), p, ticker);
    FirstIndexAppend(init, p, ticker, g.order[i]);
    FirstIndexAppend(init, p, ticker, g.order[j]);
    assert g.order[i] == g0.order[i];
    if j < |g0.order| {
      assert g.order[j] == g0.order[j];
      assert FirstSeenBefore(init, ticker, g0.order, i, j);
    } else {
      assert g.order[j] == Mint(p) && Mint(p) !in g0.best && Matches(p, ticker);
    }
  }

  /** The mints come out in the order of their first matching pair. */
  lemma {:induction false} GroupOrder(pairs: seq<Pair>, ticker: string)
    ensures forall i, j :: 0 <= i < j < |Group(pairs, ticker).order| ==>
      FirstSeenBefore(pairs, ticker, Group(pairs, ticker).order, i, j)
  {
    if pairs != [] {
      var n := |pairs| - 1;
      var init, p := pairs[..n], pairs[n];
      assert pairs == init + [p];
      GroupOrder(init, ticker);
      GroupMembers(init, ticker);
      var g := Group(pairs, ticker);
      assert g == Step(Group(init, ticker), p, ticker);
      forall i, j | 0 <= i < j < |g.order| ensures FirstSeenBefore(pairs, ticker, g.order, i, j) {
        GroupOrderStep(init, p, ticker, i, j);
      }
    }
  }

  /** The kept pair of each mint, in first-seen order of the mints (the dict's value order). */
  function Chosen(pairs: seq<Pair>, ticker: string): seq<Pair> {
    var g := Group(pairs, ticker);
    seq(|g.order|, i requires 0 <= i < |g.order| => g.best[g.order[i]])
  }

  /** The kept pairs, most liquid first; ties stay in first-seen order. */
  function Ranked(pairs: seq<Pair>, ticker: string): (r: seq<Pair>)
    ensures |r| == |Group(pairs, ticker).order|
    ensures NonIncreasing(r, Liquidity)
    ensures multiset(r) == multiset(Chosen(pairs, ticker))
  {
    SortDescFacts(Chosen(pairs, ticker), Liquidity);
    SortDesc(Chosen(pairs, ticker), Liquidity)
  }

  /** The pairs `search_by_ticker(ticker)` turns into tokens, in the order it returns them. */
  function TickerCandidates(search: Endpoint, ticker: string): (r: seq<Pair>)
    ensures |r| == |Group(SearchSolanaTokens(search, Upper(ticker)), ticker).order|
    ensures NonIncreasing(r, Liquidity)
  {
    Ranked(SearchSolanaTokens(search, Upper(ticker)), ticker)
  }

  /** `q` is, at some index, the first pair of greatest liquidity among the matching pairs of its mint. */
  ghost predicate IsKeptPair(pairs: seq<Pair>, ticker: string, q: Pair) {
    exists k :: KeptAt(pairs, ticker, Mint(q), k) && q == pairs[k]
  }

  /** Facts about the kept pairs before sorting. */
  lemma ChosenFacts(pairs: seq<Pair>, ticker: string)
    ensures var c := Chosen(pairs, ticker);
      && (forall i :: 0 <= i < |c| ==> Matches(c[i], ticker) && IsKeptPair(pairs, ticker, c[i]))
      && (forall i, j :: 0 <= i < j < |c| ==> Mint(c[i]) != Mint(c[j]))
      && (forall i, j :: 0 <= i < j < |c| ==>
            FirstIndexOf(pairs, ticker, Mint(c[i])) < FirstIndexOf(pairs, ticker, Mint(c[j])))
      && (forall k :: 0 <= k < |pairs| && Matches(pairs[k], ticker) ==> exists i :: 0 <= i < |c| && Mint(c[i]) == Mint(pairs[k]))
  {
    var g, c := Group(pairs, ticker), Chosen(pairs, ticker);
    GroupKeeps(pairs, ticker);
    GroupOrder(pairs, ticker);
    forall i | 0 <= i < |c| ensures Mint(c[i]) == g.order[i] && Matches(c[i], ticker) && IsKeptPair(pairs, ticker, c[i]) {
      assert KeptFirstMax(pairs, ticker, g.best, g.order[i]);
    }
    forall i, j | 0 <= i < j < |c|
      ensures FirstIndexOf(pairs, ticker, Mint(c[i])) < FirstIndexOf(pairs, ticker, Mint(c[j]))
    {
      assert FirstSeenBefore(pairs, ticker, g.order, i, j);
    }
    forall k | 0 <= k < |pairs| && Matches(pairs[k], ticker)
      ensures exists i :: 0 <= i < |c| && Mint(c[i]) == Mint(pairs[k])
    {
      var m := Mint(pairs[k]);
      assert m in g.order;
      var i :| 0 <= i < |g.order| && g.order[i] == m;
      assert Mint(c[i]) == m;
    }
  }

  /** Every entry of the ranking matches the ticker and is the first most liquid pair of its mint. */
  lemma RankedAreKept(pairs: seq<Pair>, ticker: string)
    ensures forall i :: 0 <= i < |Ranked(pairs, ticker)| ==>
      Matches(Ranked(pairs, ticker)[i], ticker) && IsKeptPair(pairs, ticker, Ranked(pairs, ticker)[i])
  {
    var c, r := Chosen(pairs, ticker), Ranked(pairs, ticker);
    ChosenFacts(pairs, ticker);
    SortDescFacts(c, Liquidity);
    forall i | 0 <= i < |r| ensures Matches(r[i], ticker) && IsKeptPair(pairs, ticker, r[i]) {
      assert r[i] in multiset(r);
      assert r[i] in c;
    }
  }

  /** No mint appears twice in the ranking. */
  lemma RankedDistinctMints(pairs: seq<Pair>, ticker: string)
    ensures forall i, j :: 0 <= i < j < |Ranked(pairs, ticker)| ==>
      Mint(Ranked(pairs, ticker)[i]) != Mint(Ranked(pairs, ticker)[j])
  {
    ChosenFacts(pairs, ticker);
    SortDescKeepsDistinct(Chosen(pairs, ticker), Liquidity, Mint);
  }

  /** Every mint with a matching pair is in the ranking. */
  lemma RankedCoversMints(pairs: seq<Pair>, ticker: string)
    ensures forall k :: 0 <= k < |pairs| && Matches(pairs[k], ticker) ==>
      exists i :: 0 <= i < |Ranked(pairs, ticker)| && Mint(Ranked(pairs, ticker)[i]) == Mint(pairs[k])
  {
    var c, r := Chosen(pairs, ticker), Ranked(pairs, ticker);
    ChosenFacts(pairs, ticker);
    SortDescFacts(c, Liquidity);
    forall k | 0 <= k < |pairs| && Matches(pairs[k], ticker)
      ensures exists i :: 0 <= i < |r| && Mint(r[i]) == Mint(pairs[k])
    {
      var i0 :| 0 <= i0 < |c| && Mint(c[i0]) == Mint(pairs[k]);
      assert c[i0] in multiset(c);
      assert c[i0] in r;
      var i :| 0 <= i < |r| && r[i] == c[i0];
    }
  }

  /**
   * The ranking is sorted by liquidity, most liquid first, and the entries of
   * each liquidity are those of the first-seen order.
   */
  lemma RankedSorted(pairs: seq<Pair>, ticker: string)
    ensures NonIncreasing(Ranked(pairs, ticker), Liquidity)
    ensures forall v :: WithKey(Ranked(pairs, ticker), Liquidity, v) == WithKey(Chosen(pairs, ticker), Liquidity, v)
  {
    SortDescFacts(Chosen(pairs, ticker), Liquidity);
  }

  /** No pairs from the search give no tokens. */
  lemma NoPairsNoTokens(search: Endpoint, ticker: string)
    requires SearchSolanaTokens(search, Upper(ticker)) == []
    ensures TickerCandidates(search, ticker) == []
  {
  }

  /** The market cap `disambiguate_by_market_cap` compares: `market_cap or fdv`. */
  function EffectiveMcap(t: TokenInfo): real {
    if t.marketCap != 0.0 then t.marketCap else t.fdv
  }

  /** The same choice, read off the pair a token was built from. */
  function PairMcap(p: Pair): real {
    if OrZero(p.marketCap) != 0.0 then OrZero(p.marketCap) else OrZero(p.fdv)
  }

  function McapsOf(c: seq<TokenInfo>): seq<real> {
    seq(|c|, i requires 0 <= i < |c| => EffectiveMcap(c[i]))
  }

  function PairMcaps(c: seq<Pair>): seq<real> {
    seq(|c|, i requires 0 <= i < |c| => PairMcap(c[i]))
  }

  function Abs(x: real): real {
    if x < 0.0 then -x else x
  }

  /** The relative distance `abs(mcap - target) / target`. */
  function Deviation(mcap: real, target: real): real
    requires target != 0.0
  {
    Abs(mcap - target) / target
  }

  /** No candidate has a positive market cap, so none is compared (and nothing divides by the target). */
  predicate NoneUsable(mcaps: seq<real>) {
    forall i :: 0 <= i < |mcaps| ==> mcaps[i] <= 0.0
  }

  /**
   * `k` is the first positive market cap of least deviation from `target`:
   * no positive one deviates less, and each positive one before it deviates more.
   */
  predicate IsClosest(mcaps: seq<real>, target: real, k: int) {
    && target != 0.0 && 0 <= k < |mcaps| && mcaps[k] > 0.0
    && (forall j :: 0 <= j < |mcaps| && mcaps[j] > 0.0 ==> Deviation(mcaps[k], target) <= Deviation(mcaps[j], target))
    && (forall j :: 0 <= j < k && mcaps[j] > 0.0 ==> Deviation(mcaps[k], target) < Deviation(mcaps[j], target))
  }

  /** The loop's `best_match` after seeing `mcaps`: a strictly smaller deviation replaces it. */
  function Closest(mcaps: seq<real>, target: real): (r: Option<nat>)
    requires target != 0.0 || NoneUsable(mcaps)
    ensures r.None? <==> NoneUsable(mcaps)
    ensures r.Some? ==> r.value < |mcaps| && mcaps[r.value] > 0.0
  {
    if mcaps == [] then None
    else
      var n := |mcaps| - 1;
      var prev := Closest(mcaps[..n], target);
      if mcaps[n] <= 0.0 then prev
      else if prev.None? || Deviation(mcaps[n], target) < Deviation(mcaps[prev.value], target) then Some(n)
      else prev
  }

  /** `Closest` names the first positive market cap of least deviation. */
  lemma {:induction false} ClosestIsClosest(mcaps: seq<real>, target: real)
    requires target != 0.0 || NoneUsable(mcaps)
    ensures Closest(mcaps, target).Some? ==> IsClosest(mcaps, target, Closest(mcaps, target).value)
  {
    if mcaps != [] {
      var n := |mcaps| - 1;
      var init := mcaps[..n];
      assert forall j :: 0 <= j < n ==> init[j] == mcaps[j];
      ClosestIsClosest(init, target);
      var prev := Closest(init, target);
      if mcaps[n] > 0.0 && (prev.None? || Deviation(mcaps[n], target) < Deviation(mcaps[prev.value], target)) {
        assert Closest(mcaps, target) == Some(n);
        assert IsClosest(mcaps, target, n) by {
          if prev.Some? {
            assert IsClosest(init, target, prev.value);
          }
        }
      } else if prev.Some? {
        assert Closest(mcaps, target) == prev;
        assert IsClosest(init, target, prev.value);
        assert IsClosest(mcaps, target, prev.value);
      }
    }
  }

  /** Candidate `j` has a positive market cap within `tolerance` of the target. */
  predicate WithinTolerance(mcaps: seq<real>, target: real, tolerance: real, j: int) {
    target != 0.0 && 0 <= j < |mcaps| && mcaps[j] > 0.0 && Deviation(mcaps[j], target) <= tolerance
  }

  /**
   * The index `disambiguate_by_market_cap` picks: none for no candidates, the
   * only one for one, else the closest market cap when some candidate is
   * within tolerance, and the first (most liquid) candidate when none is.
   */
  function Choice(mcaps: seq<real>, target: real, tolerance: real): (r: Option<nat>)
    requires |mcaps| <= 1 || target != 0.0 || NoneUsable(mcaps)
    ensures r.None? <==> mcaps == []
    ensures r.Some? ==> r.value < |mcaps|
    ensures |mcaps| == 1 ==> r == Some(0)
    ensures |mcaps| >= 2 && (exists j :: WithinTolerance(mcaps, target, tolerance, j)) ==>
      r.Some? && IsClosest(mcaps, target, r.value) && Deviation(mcaps[r.value], target) <= tolerance
    ensures |mcaps| >= 2 && (forall j :: !WithinTolerance(mcaps, target, tolerance, j)) ==> r == Some(0)
  {
    if |mcaps| == 0 then None
    else if |mcaps| == 1 then Some(0)
    else
      ClosestIsClosest(mcaps, target);
      match Closest(mcaps, target)
      case Some(k) =>
        assert !WithinTolerance(mcaps, target, tolerance, k) ==> Deviation(mcaps[k], target) > tolerance;
        if Deviation(mcaps[k], target) <= tolerance then Some(k) else Some(0)
      case None => Some(0)
  }

  /** The element at an optional index. */
  function At<T>(s: seq<T>, k: Option<nat>): (r: Option<T>)
    requires k.Some? ==> k.value < |s|
    ensures r.Some? <==> k.Some?
  {
    if k.None? then None else Some(s[k.value])
  }

  /** The tolerance `resolve` hands to the disambiguation. */
  const DisambiguationTolerance: real := 0.5

  /**
   * The index of the candidate `resolve` settles on: none, the only one, the
   * market-cap choice when the hint is set and non-zero, else the first.
   */
  function ResolvedIndex(candidates: seq<Pair>, marketCapHint: Option<real>): (r: Option<nat>)
    ensures r.None? <==> candidates == []
    ensures r.Some? ==> r.value < |candidates|
    ensures |candidates| == 1 ==> r == Some(0)
    ensures |candidates| >= 2 && marketCapHint.Some? && marketCapHint.value != 0.0 ==>
      r == Choice(PairMcaps(candidates), marketCapHint.value, DisambiguationTolerance)
    ensures |candidates| >= 2 && (marketCapHint.None? || marketCapHint.value == 0.0) ==> r == Some(0)
  {
    if candidates == [] then None
    else if |candidates| == 1 then Some(0)
    else if marketCapHint.Some? && marketCapHint.value != 0.0 then
      Choice(PairMcaps(candidates), marketCapHint.value, DisambiguationTolerance)
    else Some(0)
  }

  /** A pair of `ticker` with the given mint and market cap and nothing else. */
  function ExamplePair(mint: string, ticker: string, mcap: real): Pair {
    Pair(Some("solana"), None, None, Some(mint), Some(ticker), None, None, Some(mcap), None, None, None, None)
  }

  /**
   * Two BONK tokens, the more liquid one worth 50 000 000 and the other
   * 1 000 000: a hint of 1 000 000 resolves to the second, and a hint no
   * candidate is within half of falls back to the first.
   */
  lemma HintExample()
    ensures ResolvedIndex([ExamplePair("Y", "BONK", 50000000.0), ExamplePair("X", "BONK", 1000000.0)], Some(1000000.0)) == Some(1)
    ensures ResolvedIndex([ExamplePair("Y", "BONK", 50000000.0), ExamplePair("X", "BONK", 1000000.0)], Some(10.0)) == Some(0)
    ensures ResolvedIndex([ExamplePair("Y", "BONK", 50000000.0), ExamplePair("X", "BONK", 1000000.0)], None) == Some(0)
  {
    var c := [ExamplePair("Y", "BONK", 50000000.0), ExamplePair("X", "BONK", 1000000.0)];
    var mcaps := PairMcaps(c);
    assert mcaps == [50000000.0, 1000000.0];
    assert mcaps[..1] == [50000000.0] && mcaps[..1][..0] == [];
    assert Closest(mcaps[..1], 1000000.0) == Some(0);
    assert Closest(mcaps, 1000000.0) == Some(1);
    assert Closest(mcaps[..1], 10.0) == Some(0);
    assert Closest(mcaps, 10.0) == Some(1);
    assert Deviation(1000000.0, 10.0) > DisambiguationTolerance;
  }

  /** The pair the token `resolve` returns is built from. */
  function ResolvedPair(search: Endpoint, ticker: string, marketCapHint: Option<real>): Option<Pair> {
    var candidates := TickerCandidates(search, ticker);
    At(candidates, ResolvedIndex(candidates, marketCapHint))
  }

  /**
   * Without a usable hint (the way the matcher calls it) `resolve` picks the
   * most liquid candidate, which is at least as liquid as every pair found
   * for the ticker; it finds nothing only when no pair matches.
   */
  lemma ResolveWithoutHint(search: Endpoint, ticker: string, marketCapHint: Option<real>)
    requires marketCapHint.None? || marketCapHint.value == 0.0
    ensures var pairs := SearchSolanaTokens(search, Upper(ticker));
      && (ResolvedPair(search, ticker, marketCapHint).None? <==>
            forall k :: 0 <= k < |pairs| ==> !Matches(pairs[k], ticker))
      && (ResolvedPair(search, ticker, marketCapHint).Some? ==>
            && Matches(ResolvedPair(search, ticker, marketCapHint).value, ticker)
            && forall k :: 0 <= k < |pairs| && Matches(pairs[k], ticker) ==>
                 Liquidity(pairs[k]) <= Liquidity(ResolvedPair(search, ticker, marketCapHint).value))
  {
    var pairs := SearchSolanaTokens(search, Upper(ticker));
    var r := Ranked(pairs, ticker);
    RankedHead(pairs, ticker);
    assert ResolvedPair(search, ticker, marketCapHint) == if r == [] then None else Some(r[0]);
  }

  /**
   * The ranking is empty exactly when no pair matches; otherwise its head
   * matches and is at least as liquid as every matching pair.
   */
  lemma RankedHead(pairs: seq<Pair>, ticker: string)
    ensures Ranked(pairs, ticker) == [] <==> forall k :: 0 <= k < |pairs| ==> !Matches(pairs[k], ticker)
    ensures Ranked(pairs, ticker) != [] ==>
      && Matches(Ranked(pairs, ticker)[0], ticker)
      && forall k :: 0 <= k < |pairs| && Matches(pairs[k], ticker) ==> Liquidity(pairs[k]) <= Liquidity(Ranked(pairs, ticker)[0])
  {
    var r := Ranked(pairs, ticker);
    RankedAreKept(pairs, ticker);
    forall k | 0 <= k < |pairs| && Matches(pairs[k], ticker)
      ensures r != [] && Liquidity(pairs[k]) <= Liquidity(r[0])
    {
      RankedHeadDominates(pairs, ticker, k);
    }
    if r != [] {
      assert IsKeptPair(pairs, ticker, r[0]);
      var k0 :| KeptAt(pairs, ticker, Mint(r[0]), k0) && r[0] == pairs[k0];
    }
  }

  /** The head of the ranking is at least as liquid as every matching pair. */
  lemma RankedHeadDominates(pairs: seq<Pair>, ticker: string, k: int)
    requires 0 <= k < |pairs| && Matches(pairs[k], ticker)
    ensures Ranked(pairs, ticker) != [] && Liquidity(pairs[k]) <= Liquidity(Ranked(pairs, ticker)[0])
  {
    var r := Ranked(pairs, ticker);
    RankedAreKept(pairs, ticker);
    RankedCoversMints(pairs, ticker);
    RankedSorted(pairs, ticker);
    var i :| 0 <= i < |r| && Mint(r[i]) == Mint(pairs[k]);
    assert IsKeptPair(pairs, ticker, r[i]);
    var k0 :| KeptAt(pairs, ticker, Mint(r[i]), k0) && r[i] == pairs[k0];
    assert Liquidity(pairs[k]) <= Liquidity(r[i]);
  }

  /** Whatever the hint, a resolved token is one of the ranked candidates and matches the ticker. */
  lemma ResolvedIsCandidate(search: Endpoint, ticker: string, marketCapHint: Option<real>)
    ensures ResolvedPair(search, ticker, marketCapHint).None? <==> TickerCandidates(search, ticker) == []
    ensures ResolvedPair(search, ticker, marketCapHint).Some? ==>
      ResolvedPair(search, ticker, marketCapHint).value in TickerCandidates(search, ticker)
      && Matches(ResolvedPair(search, ticker, marketCapHint).value, ticker)
  {
    RankedAreKept(SearchSolanaTokens(search, Upper(ticker)), ticker);
  }

  /** The sort key of `search_by_ticker`. */
  function TokenLiquidity(t: TokenInfo): real {
    t.liquidityUsd
  }

  /** One more pair of the input is one more step of the grouping. */
  lemma GroupSnoc(pairs: seq<Pair>, i: int, ticker: string)
    requires 0 <= i < |pairs|
    ensures Group(pairs[..i + 1], ticker) == Step(Group(pairs[..i], ticker), pairs[i], ticker)
  {
    assert pairs[..i + 1][..i] == pairs[..i];
  }

  /** The correspondence between built tokens and the pairs they were built from. */
  predicate BuiltFrom(t: TokenInfo, p: Pair) {
    t.Describes(p)
  }

  /**
   * One pass of the grouping loop: a pair without a mint or with another
   * symbol is skipped; the first pair of a mint adds a token; a later one
   * replaces the token only when strictly more liquid.
   */
  method GroupPair(tokensByMint: map<string, TokenInfo>, order: seq<string>, ghost best: map<string, Pair>,
                   pair: Pair, ticker: string)
    returns (newTokens: map<string, TokenInfo>, newOrder: seq<string>, ghost newBest: map<string, Pair>)
    requires tokensByMint.Keys == best.Keys
    requires forall m :: m in tokensByMint ==> tokensByMint[m].Describes(best[m])
    ensures Grouping(newOrder, newBest) == Step(Grouping(order, best), pair, ticker)
    ensures newTokens.Keys == newBest.Keys
    ensures forall m :: m in newTokens ==> newTokens[m].Describes(newBest[m])
    ensures forall m :: m in newTokens ==>
      (m in tokensByMint && newTokens[m] == tokensByMint[m])
      || (fresh(newTokens[m]) && newTokens[m].supply == 0.0 && newTokens[m].decimals == DefaultDecimals)
  {
    newTokens, newOrder, newBest := tokensByMint, order, best;
    var mint := pair.baseAddress;
    if mint.None? || mint.value == "" {
      return;
    }
    if Upper(OrEmpty(pair.baseSymbol)) != Upper(ticker) {
      return;
    }
    if mint.value !in tokensByMint {
      var token := new TokenInfo.FromDexscreener(pair);
      newTokens := tokensByMint[mint.value := token];
      newOrder := order + [mint.value];
      newBest := best[mint.value := pair];
    } else {
      var existing := tokensByMint[mint.value];
      var newLiquidity := Liquidity(pair);
      if newLiquidity > existing.liquidityUsd {
        var token := new TokenInfo.FromDexscreener(pair);
        newTokens := tokensByMint[mint.value := token];
        newBest := best[mint.value := pair];
      }
    }
  }

  /**
   * The grouping loop of `search_by_ticker`: one fresh `TokenInfo` per matching
   * mint, built from the mint's kept pair, in first-seen order of the mints.
   */
  method GroupByMint(pairs: seq<Pair>, ticker: string) returns (values: seq<TokenInfo>)
    ensures Corresponds(values, Chosen(pairs, ticker), TokenLiquidity, Liquidity, BuiltFrom)
    ensures forall i :: 0 <= i < |values| ==>
      fresh(values[i]) && values[i].supply == 0.0 && values[i].decimals == DefaultDecimals
  {
    var tokensByMint: map<string, TokenInfo> := map[];
    var order: seq<string> := [];
    ghost var best: map<string, Pair> := map[];
    for i := 0 to |pairs|
      invariant Group(pairs[..i], ticker) == Grouping(order, best)
      invariant tokensByMint.Keys == best.Keys
      invariant forall m :: m in tokensByMint ==> tokensByMint[m].Describes(best[m])
      invariant forall m :: m in tokensByMint ==>
        fresh(tokensByMint[m]) && tokensByMint[m].supply == 0.0 && tokensByMint[m].decimals == DefaultDecimals
    {
      GroupSnoc(pairs, i, ticker);
      tokensByMint, order, best := GroupPair(tokensByMint, order, best, pairs[i], ticker);
    }
    assert pairs[..|pairs|] == pairs;
    values := seq(|order|, k requires 0 <= k < |order| && order[k] in tokensByMint => tokensByMint[order[k]]);
    GroupedValues(pairs, ticker, Grouping(order, best), tokensByMint, values);
  }

  /** Listing the built tokens in first-seen mint order lines them up with `Chosen`. */
  lemma GroupedValues(pairs: seq<Pair>, ticker: string, g: Grouping, tokensByMint: map<string, TokenInfo>, values: seq<TokenInfo>)
    requires g == Group(pairs, ticker)
    requires tokensByMint.Keys == g.best.Keys
    requires forall m :: m in tokensByMint ==> tokensByMint[m].Describes(g.best[m])
    requires |values| == |g.order|
    requires forall k :: 0 <= k < |values| ==> g.order[k] in tokensByMint && values[k] == tokensByMint[g.order[k]]
    ensures Corresponds(values, Chosen(pairs, ticker), TokenLiquidity, Liquidity, BuiltFrom)
  {
    var chosen := Chosen(pairs, ticker);
    forall k | 0 <= k < |values|
      ensures BuiltFrom(values[k], chosen[k]) && TokenLiquidity(values[k]) == Liquidity(chosen[k])
    {
      assert chosen[k] == g.best[g.order[k]];
    }
  }

  /**
   * `search_by_ticker`: one fresh `TokenInfo` per matching mint, built from
   * the mint's kept pair, most liquid first.
   */
  method SearchByTicker(search: Endpoint, ticker: string) returns (tokens: seq<TokenInfo>)
    ensures Corresponds(tokens, TickerCandidates(search, ticker), TokenLiquidity, Liquidity, BuiltFrom)
    ensures forall i :: 0 <= i < |tokens| ==>
      fresh(tokens[i]) && tokens[i].supply == 0.0 && tokens[i].decimals == DefaultDecimals
    ensures forall i, j :: 0 <= i < j < |tokens| ==> tokens[i] != tokens[j]
  {
    var pairs := SearchSolanaTokens(search, Upper(ticker));
    if pairs == [] {
      return [];
    }
    var values := GroupByMint(pairs, ticker);
    ghost var chosen := Chosen(pairs, ticker);
    SortCorresponds(values, chosen, TokenLiquidity, Liquidity, BuiltFrom);
    tokens := SortDesc(values, TokenLiquidity);
    SortDescMembers(values, TokenLiquidity);
    RankedDistinctMints(pairs, ticker);
    BuiltFromDistinct(tokens, Ranked(pairs, ticker));
  }

  /** Tokens built from pairs of distinct mints are distinct objects. */
  lemma BuiltFromDistinct(tokens: seq<TokenInfo>, pairs: seq<Pair>)
    requires Corresponds(tokens, pairs, TokenLiquidity, Liquidity, BuiltFrom)
    requires forall i, j :: 0 <= i < j < |pairs| ==> Mint(pairs[i]) != Mint(pairs[j])
    ensures forall i, j :: 0 <= i < j < |tokens| ==> tokens[i] != tokens[j]
  {
    forall i, j | 0 <= i < j < |tokens| ensures tokens[i] != tokens[j] {
      assert BuiltFrom(tokens[i], pairs[i]) && BuiltFrom(tokens[j], pairs[j]);
    }
  }

  /**
   * `disambiguate_by_market_cap`: the candidate whose market cap (or fdv) is
   * closest to the target when within tolerance, else the first candidate.
   * The source divides by the target, so a zero target is excluded whenever a
   * candidate has a positive market cap.
   */
  method DisambiguateByMarketCap(candidates: seq<TokenInfo>, target: real, tolerance: real := DisambiguationTolerance)
    returns (r: Option<TokenInfo>)
    requires |candidates| <= 1 || target != 0.0 || NoneUsable(McapsOf(candidates))
    ensures r == At(candidates, Choice(McapsOf(candidates), target, tolerance))
  {
    if candidates == [] {
      return None;
    }
    if |candidates| == 1 {
      return Some(candidates[0]);
    }
    var bestMatch, bestDiff := ClosestCandidate(candidates, target);
    if bestMatch.Some? && bestDiff.value <= tolerance {
      return bestMatch;
    }
    return Some(candidates[0]);
  }

  /**
   * The loop of `disambiguate_by_market_cap`: `bestMatch` is the candidate
   * `Closest` names and `bestDiff` its deviation, both absent (an infinite
   * best deviation) when no market cap is positive.
   */
  method ClosestCandidate(candidates: seq<TokenInfo>, target: real)
    returns (bestMatch: Option<TokenInfo>, bestDiff: Option<real>)
    requires target != 0.0 || NoneUsable(McapsOf(candidates))
    ensures bestMatch == At(candidates, Closest(McapsOf(candidates), target))
    ensures bestDiff.None? <==> bestMatch.None?
    ensures bestDiff.Some? ==>
      bestDiff.value == Deviation(McapsOf(candidates)[Closest(McapsOf(candidates), target).value], target)
  {
    ghost var mcaps := McapsOf(candidates);
    ghost var bestIndex: Option<nat> := None;
    bestMatch, bestDiff := None, None;  // `None` stands for `float("inf")`
    for i := 0 to |candidates|
      invariant target != 0.0 || NoneUsable(mcaps[..i])
      invariant bestIndex == Closest(mcaps[..i], target)
      invariant bestIndex.None? ==> bestMatch.None? && bestDiff.None?
      invariant bestIndex.Some? ==> bestIndex.value < i && bestMatch == Some(candidates[bestIndex.value])
                                    && bestDiff == Some(Deviation(mcaps[bestIndex.value], target))
    {
      assert mcaps[..i + 1][..i] == mcaps[..i];
      var token := candidates[i];
      var mcap := if token.marketCap != 0.0 then token.marketCap else token.fdv;
      assert mcap == mcaps[i];
      if mcap <= 0.0 {
        continue;
      }
      var diff := Abs(mcap - target) / target;
      if bestDiff.None? || diff < bestDiff.value {
        bestDiff := Some(diff);
        bestMatch := Some(token);
        bestIndex := Some(i);
      }
    }
    assert mcaps[..|candidates|] == mcaps;
  }

  /**
   * `resolve`: the chosen candidate, with its supply filled in from the RPC
   * lookup when that succeeds (`supplyUi` gives `None` where the source
   * catches an exception). The choice does not depend on the supply lookup.
   */
  method Resolve(search: Endpoint, supplyUi: string -> Option<real>, ticker: string, marketCapHint: Option<real> := None)
    returns (token: Option<TokenInfo>)
    ensures token.None? <==> ResolvedPair(search, ticker, marketCapHint).None?
    ensures token.Some? ==>
      && token.value.Describes(ResolvedPair(search, ticker, marketCapHint).value)
      && fresh(token.value)
      && token.value.supply == supplyUi(token.value.mintAddress).GetOr(0.0)
      && token.value.decimals == DefaultDecimals
  {
    var candidates := SearchByTicker(search, ticker);
    ghost var ranked := TickerCandidates(search, ticker);
    if candidates == [] {
      return None;
    }
    var chosen: TokenInfo;
    if |candidates| == 1 {
      chosen := candidates[0];
    } else if marketCapHint.Some? && marketCapHint.value != 0.0 {
      assert McapsOf(candidates) == PairMcaps(ranked);
      var picked := DisambiguateByMarketCap(candidates, marketCapHint.value);
      chosen := picked.value;
    } else {
      chosen := candidates[0];
    }
    var supply := supplyUi(chosen.mintAddress);
    if supply.Some? {
      chosen.supply := supply.value;
    }
    token := Some(chosen);
  }

  /**
   * `get_by_mint_address`: a fresh token from the mint's most liquid pair, with
   * the supply filled in when the RPC lookup for the given mint succeeds.
   */
  method GetByMintAddress(tokens: Endpoint, supplyUi: string -> Option<real>, mintAddress: string)
    returns (token: Option<TokenInfo>)
    ensures token.None? <==> GetTokenByAddress(tokens, mintAddress).None?
    ensures token.Some? ==>
      && token.value.Describes(GetTokenByAddress(tokens, mintAddress).value)
      && fresh(token.value)
      && token.value.supply == supplyUi(mintAddress).GetOr(0.0)
      && token.value.decimals == DefaultDecimals
  {
    var pairData := GetTokenByAddress(tokens, mintAddress);
    if pairData.None? {
      return None;
    }
    var t := new TokenInfo.FromDexscreener(pairData.value);
    var supply := supplyUi(mintAddress);
    if supply.Some? {
      t.supply := supply.value;
    }
    return Some(t);
  }
}
