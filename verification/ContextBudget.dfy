/**
 Token budgets (modules/agent_runtime/context/budget.py, provenance.py): rank the
 items that are not too large and pack them greedily.
 */
module ContextBudget {
  import opened Prelude
  import opened StableSorting

  datatype Provenance = Provenance(source: string, confidence: real, freshness: real)

  /** Token counts are not negative. */
  datatype Item = Item(id: string, content: string, provenance: Provenance, contentHash: string, tokens: nat,
                       marker: Option<string>)

  /** About four characters per token, and at least one for any text. */
  function EstimateTokens(text: string): (n: nat)
    ensures n == 0 <==> text == ""
    ensures |text| >= 4 ==> 4 * n <= |text| < 4 * (n + 1)
    ensures |text| < 4 ==> n <= 1
  {
    if text == "" then 0 else if |text| < 4 then 1 else |text| / 4
  }

  /** An item as its constructor completes it. */
  function NewItem(id: string, content: string, provenance: Provenance, hash: string, tokens: nat,
                   marker: Option<string>,
                   sha: string -> string): Item
  {
    Item(id, content, provenance, if content != "" && hash == "" then sha(content) else hash,
         if tokens == 0 then EstimateTokens(content) else tokens, marker)
  }

  function Cost(item: Item): nat {
    if item.tokens != 0 then item.tokens else EstimateTokens(item.content)
  }

  /**
   A made item declares what it costs: the count it was given, or else the estimate of its
   content; a missing hash is filled in for a content, and nothing else is changed.
   */
  lemma MadeItemDeclaresCost(id: string, content: string, provenance: Provenance, hash: string, tokens: nat,
                             marker: Option<string>, sha: string -> string)
    ensures var item := NewItem(id, content, provenance, hash, tokens, marker, sha);
            && item.tokens == Cost(item) && (tokens > 0 ==> Cost(item) == tokens)
            && (tokens == 0 ==> Cost(item) == EstimateTokens(content))
            && item.contentHash == (if hash != "" || content == "" then hash else sha(content))
            && item == Item(id, content, provenance, item.contentHash, item.tokens, marker)
  {
  }

  function Total(items: seq<Item>): nat {
    if items == [] then 0 else Total(items[..|items| - 1]) + Cost(items[|items| - 1])
  }

  lemma TotalAppend(items: seq<Item>, item: Item)
    ensures Total(items + [item]) == Total(items) + Cost(item)
  {
    assert (items + [item])[..|items|] == items;
  }

  /** int(x): towards zero. */
  function Truncated(x: real): (n: int)
    ensures x >= 0.0 ==> 0 <= n && n as real <= x < n as real + 1.0
    ensures x <= 0.0 ==> n <= 0 && n as real - 1.0 < x <= n as real
  {
    if x >= 0.0 then x.Floor else -((-x).Floor)
  }

  /** `max_tokens or self.retrieval_context_budget`. */
  function EffectiveMax(retrieval: int, maxTokens: Option<int>): int {
    if maxTokens.Some? && maxTokens.value != 0 then maxTokens.value else retrieval
  }

  /** The share of the budget one item may take, rounded towards zero. */
  function MaxPerItem(max: int, pct: real): (cap: int)
    ensures max as real * pct >= 0.0 ==> cap as real <= max as real * pct < cap as real + 1.0
    ensures max as real * pct <= 0.0 ==> cap as real - 1.0 < max as real * pct <= cap as real
  {
    Truncated(max as real * pct)
  }

  // ----- specification of the packing -----

  function Small(items: seq<Item>, cap: int): seq<Item> {
    if items == [] then []
    else
      var n := |items| - 1;
      Small(items[..n], cap) + if Cost(items[n]) > cap then [] else [items[n]]
  }

  function Weight(item: Item): real {
    item.provenance.confidence * item.provenance.freshness
  }

  predicate Ranks(a: Item, b: Item) {
    Weight(a) >= Weight(b)
  }

  lemma RanksIsPreorder()
    ensures Preorder(Ranks)
  {
    hide Weight;
  }

  datatype Packing = Packing(fitted: seq<Item>, excluded: seq<Item>, used: nat)

  function Pack(ranked: seq<Item>, max: int): Packing {
    if ranked == [] then Packing([], [], 0)
    else
      var (p, item) := (Pack(ranked[..|ranked| - 1], max), ranked[|ranked| - 1]);
      if p.used + Cost(item) <= max then Packing(p.fitted + [item], p.excluded, p.used + Cost(item))
      else p.(excluded := p.excluded + [item])
  }

  function Fit(items: seq<Item>, max: int, pct: real): Packing {
    Pack(SortBy(Small(items, MaxPerItem(max, pct)), Ranks), max)
  }

  // ----- what a packing is -----

  lemma {:induction false} PackTotal(ranked: seq<Item>, max: int)
    ensures Pack(ranked, max).used == Total(Pack(ranked, max).fitted)
    ensures Pack(ranked, max).fitted != [] ==> Pack(ranked, max).used <= max
  {
    hide Cost;
    if ranked != [] {
      PackTotal(ranked[..|ranked| - 1], max);
      TotalAppend(Pack(ranked[..|ranked| - 1], max).fitted, ranked[|ranked| - 1]);
    }
  }

  lemma {:induction false} PackSplits(ranked: seq<Item>, max: int)
    ensures multiset(Pack(ranked, max).fitted) + multiset(Pack(ranked, max).excluded) == multiset(ranked)
  {
    hide Cost;
    if ranked != [] {
      PackSplits(ranked[..|ranked| - 1], max);
      assert ranked == ranked[..|ranked| - 1] + [ranked[|ranked| - 1]];
    }
  }

  lemma {:induction false} PackSplitsTotal(ranked: seq<Item>, max: int)
    ensures Total(Pack(ranked, max).fitted) + Total(Pack(ranked, max).excluded) == Total(ranked)
  {
    hide Cost;
    if ranked != [] {
      var (p, item) := (Pack(ranked[..|ranked| - 1], max), ranked[|ranked| - 1]);
      PackSplitsTotal(ranked[..|ranked| - 1], max);
      TotalAppend(p.fitted, item);
      TotalAppend(p.excluded, item);
    }
  }

  lemma {:induction false} ExcludedOverflows(ranked: seq<Item>, max: int)
    ensures forall e :: e in Pack(ranked, max).excluded ==> Pack(ranked, max).used + Cost(e) > max
  {
    hide Cost;
    if ranked != [] {
      ExcludedOverflows(ranked[..|ranked| - 1], max);
    }
  }

  /** What ranks at least as high and was selected leaves no room for the item. */
  ghost predicate Crowded(fitted: seq<Item>, e: Item, max: int) {
    exists k: nat :: CrowdedBy(fitted, k, e, max)
  }

  ghost predicate CrowdedBy(fitted: seq<Item>, k: nat, e: Item, max: int) {
    && k <= |fitted| && Total(fitted[..k]) + Cost(e) > max
    && forall i :: 0 <= i < k ==> Ranks(fitted[i], e)
  }

  lemma CrowdedStays(fitted: seq<Item>, item: Item, e: Item, max: int)
    requires Crowded(fitted, e, max)
    ensures Crowded(fitted + [item], e, max)
  {
    hide Cost;
    var k: nat :| CrowdedBy(fitted, k, e, max);
    assert (fitted + [item])[..k] == fitted[..k];
    assert CrowdedBy(fitted + [item], k, e, max);
  }

  /** An item is excluded only when those of its rank and above that were selected leave no room for it. */
  lemma {:induction false} ExcludedIsCrowded(ranked: seq<Item>, max: int)
    requires Sorted(ranked, Ranks)
    ensures forall e :: e in Pack(ranked, max).excluded ==> Crowded(Pack(ranked, max).fitted, e, max)
  {
    hide Cost, Crowded;
    if ranked != [] {
      var (before, item) := (ranked[..|ranked| - 1], ranked[|ranked| - 1]);
      var p := Pack(before, max);
      ExcludedIsCrowded(before, max);
      forall e | e in p.excluded ensures Crowded(p.fitted + [item], e, max) {
        CrowdedStays(p.fitted, item, e, max);
      }
      if p.used + Cost(item) > max {
        PackTotal(before, max);
        PackKeepsRank(before, max);
        RejectedIsCrowded(ranked, p.fitted, max);
      }
    }
  }

  lemma RejectedIsCrowded(ranked: seq<Item>, fitted: seq<Item>, max: int)
    requires Sorted(ranked, Ranks) && ranked != [] && Total(fitted) + Cost(ranked[|ranked| - 1]) > max
    requires forall e :: e in fitted ==> e in ranked[..|ranked| - 1]
    ensures Crowded(fitted, ranked[|ranked| - 1], max)
  {
    hide Cost, Weight;
    var (n, item) := (|ranked| - 1, ranked[|ranked| - 1]);
    forall i | 0 <= i < |fitted| ensures Ranks(fitted[i], item) {
      assert fitted[i] in fitted;
      var j :| 0 <= j < n && ranked[..n][j] == fitted[i];
      assert Ranks(ranked[j], ranked[n]);
    }
    assert fitted[..|fitted|] == fitted;
    assert CrowdedBy(fitted, |fitted|, item, max);
  }

  lemma {:induction false} PackKeepsRank(ranked: seq<Item>, max: int)
    requires Sorted(ranked, Ranks)
    ensures Sorted(Pack(ranked, max).fitted, Ranks)
    ensures forall e :: e in Pack(ranked, max).fitted ==> e in ranked
  {
    hide Cost;
    if ranked != [] {
      var (before, item) := (ranked[..|ranked| - 1], ranked[|ranked| - 1]);
      PackKeepsRank(before, max);
      RanksIsPreorder();
      var fitted := Pack(before, max).fitted;
      if fitted != [] {
        assert fitted[|fitted| - 1] in fitted;
        var i :| 0 <= i < |before| && before[i] == fitted[|fitted| - 1];
        assert Ranks(ranked[i], ranked[|ranked| - 1]);
      }
      SortedAppend(fitted, item, Ranks);
    }
  }

  lemma {:induction false} SmallExact(items: seq<Item>, cap: int)
    ensures forall e :: multiset(Small(items, cap))[e] == if Cost(e) > cap then 0 else multiset(items)[e]
  {
    hide Cost;
    if items != [] {
      var n := |items| - 1;
      SmallExact(items[..n], cap);
      assert items == items[..n] + [items[n]];
    }
  }

  lemma {:induction false} TotalPermutes(a: seq<Item>, b: seq<Item>)
    requires multiset(a) == multiset(b)
    ensures Total(a) == Total(b)
  {
    hide Cost;
    if a == [] {
      assert |b| == |multiset(b)| == 0;
    } else {
      var (n, item) := (|a| - 1, a[|a| - 1]);
      assert item in multiset(b);
      var k :| 0 <= k < |b| && b[k] == item;
      var rest := b[..k] + b[k + 1..];
      assert b == b[..k] + [item] + b[k + 1..];
      assert a == a[..n] + [item];
      assert multiset(rest) == multiset(b) - multiset{item} == multiset(a) - multiset{item} == multiset(a[..n]);
      TotalPermutes(a[..n], rest);
      TotalWithout(b, k);
    }
  }

  lemma {:induction false} TotalWithout(b: seq<Item>, k: nat)
    requires k < |b|
    ensures Total(b) == Total(b[..k] + b[k + 1..]) + Cost(b[k])
  {
    hide Cost;
    var n := |b| - 1;
    if k == n {
      assert b[..k] + b[k + 1..] == b[..n];
    } else {
      TotalWithout(b[..n], k);
      assert b[..n][..k] + b[..n][k + 1..] == b[..k] + b[k + 1..n];
      assert b[..k] + b[k + 1..] == b[..k] + b[k + 1..n] + [b[n]];
      TotalAppend(b[..k] + b[k + 1..n], b[n]);
    }
  }

  // ----- main results -----

  /**
   The packing bound: the selection is within budget and in rank order, every item
   that is not too large is selected or would overflow the final selection, and the
   result is truncated exactly when those items do not all fit.  A negative budget
   excludes everything.
   */
  lemma FitBound(items: seq<Item>, max: int, pct: real)
    ensures var (p, cap) := (Fit(items, max, pct), MaxPerItem(max, pct));
            && (if max >= 0 then Total(p.fitted) <= max else p.fitted == [])
            && Sorted(p.fitted, Ranks)
            && multiset(p.fitted) + multiset(p.excluded) == multiset(Small(items, cap))
            && (forall e :: e in p.excluded ==> max - cap <= max - Cost(e) < Total(p.fitted))
            && (p.excluded != [] <==> if max >= 0 then Total(Small(items, cap)) > max else Small(items, cap) != [])
  {
    var cap := MaxPerItem(max, pct);
    var small := Small(items, cap);
    var ranked := SortBy(small, Ranks);
    var p := Pack(ranked, max);
    RanksIsPreorder();
    SortSorts(small, Ranks);
    PackTotal(ranked, max);
    PackSplits(ranked, max);
    PackSplitsTotal(ranked, max);
    PackKeepsRank(ranked, max);
    ExcludedOverflows(ranked, max);
    TotalPermutes(ranked, small);
    SmallExact(items, cap);
    forall e | e in p.excluded ensures Cost(e) <= cap && max - Cost(e) < Total(p.fitted) {
      assert e in multiset(p.excluded);
      assert multiset(small)[e] > 0;
    }
    assert p.fitted != [] ==> max >= 0;
    if small == [] {
      assert |multiset(p.excluded)| == 0;
    } else if p.excluded != [] {
      assert p.excluded[0] in p.excluded;
      TotalAtLeast(p.excluded, 0);
    }
  }

  lemma {:induction false} TotalAtLeast(items: seq<Item>, k: nat)
    requires k < |items|
    ensures Total(items) >= Cost(items[k])
  {
    hide Cost;
    if k < |items| - 1 {
      TotalAtLeast(items[..|items| - 1], k);
    }
  }

  /** The more relevant one first, relevance being confidence times freshness. */
  ghost predicate ByRelevance(items: seq<Item>) {
    forall i, j :: 0 <= i < j < |items| ==>
      items[i].provenance.confidence * items[i].provenance.freshness
      >= items[j].provenance.confidence * items[j].provenance.freshness
  }

  /** The items the selection could take and does not have in full. */
  ghost predicate LeftOut(items: seq<Item>, cap: int, fitted: seq<Item>, e: Item) {
    Cost(e) <= cap && multiset(fitted)[e] < multiset(items)[e]
  }

  /**
   A selection: within the budget, each item at most as often as it was given and within the
   cap; an item that could be taken and is left out is crowded out by those of its rank and
   above, and truncation says whether there is one.
   */
  ghost predicate Selection(items: seq<Item>, max: int, cap: int, fitted: seq<Item>, truncated: bool) {
    && (if max >= 0 then Total(fitted) <= max else fitted == [])
    && (forall e :: e in fitted ==> multiset(fitted)[e] <= multiset(items)[e] && Cost(e) <= cap)
    && (forall e :: LeftOut(items, cap, fitted, e) ==> truncated && Crowded(fitted, e, max))
    && (truncated ==> exists e :: LeftOut(items, cap, fitted, e))
  }

  lemma FitByRelevance(items: seq<Item>, max: int, pct: real)
    ensures ByRelevance(Fit(items, max, pct).fitted)
  {
    hide Cost, Total, Small, Pack;
    FitBound(items, max, pct);
    var fitted := Fit(items, max, pct).fitted;
    forall i, j | 0 <= i < j < |fitted| ensures Ranks(fitted[i], fitted[j]) {
    }
  }

  lemma FitCrowds(items: seq<Item>, max: int, pct: real)
    ensures forall e :: e in Fit(items, max, pct).excluded ==> Crowded(Fit(items, max, pct).fitted, e, max)
  {
    hide Pack, Small, Crowded;
    RanksIsPreorder();
    SortSorts(Small(items, MaxPerItem(max, pct)), Ranks);
    ExcludedIsCrowded(SortBy(Small(items, MaxPerItem(max, pct)), Ranks), max);
  }

  lemma FitSelects(items: seq<Item>, max: int, pct: real, fitted: seq<Item>, truncated: bool)
    requires fitted == Fit(items, max, pct).fitted && (truncated <==> Fit(items, max, pct).excluded != [])
    ensures ByRelevance(fitted) && Selection(items, max, MaxPerItem(max, pct), fitted, truncated)
  {
    hide Cost, Crowded, Fit, Small, Ranks, MaxPerItem, Sorted, ByRelevance;
    var (p, cap) := (Fit(items, max, pct), MaxPerItem(max, pct));
    FitByRelevance(items, max, pct);
    FitBound(items, max, pct);
    FitCrowds(items, max, pct);
    SmallExact(items, cap);
    Split(p, items, cap, max);
  }

  /** What a split of the small items into selected and excluded ones says of each of them. */
  lemma Split(p: Packing, items: seq<Item>, cap: int, max: int)
    requires if max >= 0 then Total(p.fitted) <= max else p.fitted == []
    requires multiset(p.fitted) + multiset(p.excluded) == multiset(Small(items, cap))
    requires forall e :: e in p.excluded ==> Crowded(p.fitted, e, max)
    requires forall e :: multiset(Small(items, cap))[e] == if Cost(e) > cap then 0 else multiset(items)[e]
    ensures Selection(items, max, cap, p.fitted, p.excluded != [])
  {
    hide Cost, Crowded, Small, Total;
    var small := multiset(Small(items, cap));
    forall e | e in p.fitted ensures multiset(p.fitted)[e] <= multiset(items)[e] && Cost(e) <= cap {
      assert multiset(p.fitted)[e] > 0 && small[e] >= multiset(p.fitted)[e];
    }
    forall e | LeftOut(items, cap, p.fitted, e) ensures p.excluded != [] && Crowded(p.fitted, e, max) {
      assert small[e] == multiset(p.fitted)[e] + multiset(p.excluded)[e];
      assert e in multiset(p.excluded);
    }
    if p.excluded != [] {
      var e := p.excluded[0];
      assert e in multiset(p.excluded);
      assert small[e] == multiset(p.fitted)[e] + multiset(p.excluded)[e] > 0;
      assert LeftOut(items, cap, p.fitted, e);
    }
  }

  /** With the default share of a quarter a truncated selection uses more than three quarters of the budget. */
  lemma TruncatedUsesThreeQuarters(items: seq<Item>, max: int)
    requires max >= 0 && Fit(items, max, 0.25).excluded != []
    ensures 4 * Total(Fit(items, max, 0.25).fitted) > 3 * max
  {
    FitBound(items, max, 0.25);
    var e := Fit(items, max, 0.25).excluded[0];
    assert e in Fit(items, max, 0.25).excluded;
    assert MaxPerItem(max, 0.25) as real <= max as real * 0.25;
  }

  // ----- the manager -----

  class TokenBudgetManager {
    const retrievalBudget: int
    const maxSingleItemPct: real

    constructor (retrievalBudget: int, maxSingleItemPct: real)
      ensures this.retrievalBudget == retrievalBudget && this.maxSingleItemPct == maxSingleItemPct
    {
      this.retrievalBudget, this.maxSingleItemPct := retrievalBudget, maxSingleItemPct;
    }

    /**
     `fit_items`: the most relevant items first, within the budget and the cap, and nothing left
     out that there was still room for; no maximum, or one of zero, means the retrieval budget.
     */
    method FitItems(items: seq<Item>, maxTokens: Option<int>) returns (fitted: seq<Item>, truncated: bool)
      ensures var p := Fit(items, EffectiveMax(retrievalBudget, maxTokens), maxSingleItemPct);
              fitted == p.fitted && (truncated <==> p.excluded != [])
      ensures ByRelevance(fitted)
      ensures var max := if maxTokens.None? || maxTokens.value == 0 then retrievalBudget else maxTokens.value;
              Selection(items, max, MaxPerItem(max, maxSingleItemPct), fitted, truncated)
    {
      hide Small, Pack, MaxPerItem, Weight, Cost, Total, ByRelevance, Selection;
      var max := EffectiveMax(retrievalBudget, maxTokens);
      var cap := MaxPerItem(max, maxSingleItemPct);
      var filtered := DropTooLarge(items, cap);
      var ranked := SortBy(filtered, Ranks);
      fitted, truncated := PackInOrder(ranked, max);
      assert filtered == Small(items, cap) && ranked == SortBy(Small(items, cap), Ranks);
      assert Fit(items, max, maxSingleItemPct) == Pack(ranked, max);
      FitSelects(items, max, maxSingleItemPct, fitted, truncated);
    }

    /** The first loop of `fit_items`. */
    method DropTooLarge(items: seq<Item>, cap: int) returns (filtered: seq<Item>)
      ensures filtered == Small(items, cap)
    {
      filtered := [];
      for i := 0 to |items|
        invariant filtered == Small(items[..i], cap)
      {
        assert items[..i + 1][..i] == items[..i];
        if Cost(items[i]) > cap {
          continue;
        }
        filtered := filtered + [items[i]];
      }
      assert items[..|items|] == items;
    }

    /** The second loop of `fit_items`. */
    method PackInOrder(ranked: seq<Item>, max: int) returns (fitted: seq<Item>, truncated: bool)
      ensures fitted == Pack(ranked, max).fitted && (truncated <==> Pack(ranked, max).excluded != [])
    {
      hide Cost;
      var accumulated := 0;
      fitted, truncated := [], false;
      for i := 0 to |ranked|
        invariant fitted == Pack(ranked[..i], max).fitted && accumulated == Pack(ranked[..i], max).used
        invariant truncated <==> Pack(ranked[..i], max).excluded != []
      {
        assert ranked[..i + 1][..i] == ranked[..i];
        if accumulated + Cost(ranked[i]) <= max {
          fitted := fitted + [ranked[i]];
          accumulated := accumulated + Cost(ranked[i]);
        } else {
          truncated := true;
        }
      }
      assert ranked[..|ranked|] == ranked;
    }
  }
}
