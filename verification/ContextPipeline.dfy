/**
 The context pipeline (modules/agent_runtime/context/pipeline.py): combine, fit,
 deduplicate, compact, and stay within the retrieval budget.
 */
module ContextPipelines {
  import opened Prelude
  import opened StableSorting
  import opened ContextBudget
  import opened ContextCompaction

  /** What is fixed for the process: the artifact base, `hash` and SHA-256. */
  datatype Environment = Environment(base: string, hash: string -> nat, sha: string -> string)

  datatype Config = Config(
    taskType: string, maxFileItems: int, maxToolOutputItems: int, maxSessionContextItems: int, maxMemoryItems: int,
    deduplicate: bool, compact: bool, manifest: bool)

  // ----- deduplication -----

  /** An item is kept if it has no hash or is the first with its hash. */
  function Deduplicated(items: seq<Item>): seq<Item> {
    if items == [] then []
    else
      var (n, kept) := (|items| - 1, Deduplicated(items[..|items| - 1]));
      if items[n].contentHash != "" && items[n].contentHash in Hashes(items[..n]) then kept else kept + [items[n]]
  }

  function Hashes(items: seq<Item>): set<string> {
    set item | item in items && item.contentHash != "" :: item.contentHash
  }

  lemma HashesAppend(items: seq<Item>, item: Item)
    ensures Hashes(items + [item]) == Hashes(items) + (if item.contentHash == "" then {} else {item.contentHash})
  {
    forall h | h in Hashes(items) + (if item.contentHash == "" then {} else {item.contentHash})
      ensures h in Hashes(items + [item])
    {
      if h in Hashes(items) {
        var x :| x in items && x.contentHash == h;
        assert x in items + [item];
      } else {
        assert item in items + [item];
      }
    }
  }

  /** No hash twice and no hash lost. */
  lemma {:induction false} OnePerHash(items: seq<Item>)
    ensures var d := Deduplicated(items);
            && Hashes(d) == Hashes(items)
            && (forall i, j :: 0 <= i < j < |d| && d[i].contentHash != "" ==> d[i].contentHash != d[j].contentHash)
  {
    hide Hashes;
    if items == [] {
      NoHashes();
    } else {
      var (before, item) := (items[..|items| - 1], items[|items| - 1]);
      assert items == before + [item];
      OnePerHash(before);
      HashesAppend(before, item);
      HashesAppend(Deduplicated(before), item);
      HashesOf(Deduplicated(before));
      assert {item.contentHash} <= Hashes(before) ==> Hashes(before) + {item.contentHash} == Hashes(before);
    }
  }

  /** Nothing is added, and what has no hash is never dropped. */
  lemma {:induction false} NothingAdded(items: seq<Item>)
    ensures var d := Deduplicated(items);
            && multiset(d) <= multiset(items) && Total(d) <= Total(items)
            && forall item: Item :: item.contentHash == "" ==> multiset(d)[item] == multiset(items)[item]
  {
    hide Cost, Hashes;
    if items != [] {
      var (before, item) := (items[..|items| - 1], items[|items| - 1]);
      assert items == before + [item];
      NothingAdded(before);
      TotalAppend(Deduplicated(before), item);
    }
  }

  lemma NoHashes()
    ensures Hashes([]) == {}
  {
  }

  lemma HashesOf(items: seq<Item>)
    ensures forall i :: 0 <= i < |items| && items[i].contentHash != "" ==> items[i].contentHash in Hashes(items)
  {
  }

  // ----- compaction -----

  /** The item after `_compact_items`; a compacted one is constructed anew. */
  function CompactedItem(env: Environment, item: Item): Item {
    if |item.content| > 1200 then
      var content := Compacted(env.base, item.content, env.hash(item.content));
      NewItem(item.id, content, item.provenance, "", EstimateTokens(content), item.marker, env.sha)
    else item
  }

  function CompactedItems(env: Environment, items: seq<Item>): (r: seq<Item>)
    ensures |r| == |items| && forall i :: 0 <= i < |items| ==> r[i] == CompactedItem(env, items[i])
  {
    if items == [] then []
    else CompactedItems(env, items[..|items| - 1]) + [CompactedItem(env, items[|items| - 1])]
  }

  /** The declared cost covers what compaction makes of the item. */
  predicate Covered(env: Environment, item: Item) {
    Cost(CompactedItem(env, item)) <= Cost(item)
  }

  lemma {:induction false} CompactionNeverCosts(env: Environment, items: seq<Item>)
    requires forall i :: 0 <= i < |items| ==> Covered(env, items[i])
    ensures Total(CompactedItems(env, items)) <= Total(items)
  {
    hide Cost;
    if items != [] {
      var n := |items| - 1;
      assert Covered(env, items[n]);
      CompactionNeverCosts(env, items[..n]);
      TotalAppend(CompactedItems(env, items[..n]), CompactedItem(env, items[n]));
    }
  }

  /** A token count that is at least the estimate of the content is covered, for every base up to 312 characters. */
  lemma HonestIsCovered(env: Environment, item: Item)
    requires |env.base| <= 312 && item.tokens >= EstimateTokens(item.content)
    ensures Covered(env, item)
  {
    if |item.content| > 1200 {
      LongTextsShrink(env.base, item.content, env.hash(item.content));
      CompactedLength(env.base, item.content, 800, env.hash(item.content));
    }
  }

  // ----- the run -----

  datatype Sources = Sources(repo: seq<Item>, files: seq<Item>, toolOutputs: seq<Item>, session: seq<Item>,
                             memory: seq<Item>)

  function Combined(c: Config, s: Sources): seq<Item> {
    s.repo + Upto(s.files, c.maxFileItems) + Upto(s.toolOutputs, c.maxToolOutputItems)
    + Upto(s.session, c.maxSessionContextItems) + Upto(s.memory, c.maxMemoryItems)
  }

  /** Under limits that are not negative each source gives its first items, up to its own limit. */
  lemma CombinedExact(c: Config, s: Sources)
    requires c.maxFileItems >= 0 && c.maxToolOutputItems >= 0 && c.maxSessionContextItems >= 0 && c.maxMemoryItems >= 0
    ensures Combined(c, s) == s.repo + s.files[..Least(|s.files|, c.maxFileItems)]
                              + s.toolOutputs[..Least(|s.toolOutputs|, c.maxToolOutputItems)]
                              + s.session[..Least(|s.session|, c.maxSessionContextItems)]
                              + s.memory[..Least(|s.memory|, c.maxMemoryItems)]
  {
  }

  function Least(a: nat, b: nat): (r: nat)
    ensures r <= a && r <= b && (r == a || r == b)
  {
    if a <= b then a else b
  }

  function Output(c: Config, env: Environment, fitted: seq<Item>): seq<Item> {
    var d := if c.deduplicate then Deduplicated(fitted) else fitted;
    if c.compact then CompactedItems(env, d) else d
  }

  /** What of the fitted items is left for compaction. */
  lemma Kept(c: Config, env: Environment, fitted: seq<Item>) returns (kept: seq<Item>)
    ensures var out := Output(c, env, fitted);
            && |kept| == |out| && (forall item :: item in kept ==> item in fitted)
            && forall i :: 0 <= i < |kept| ==> out[i] == if c.compact then CompactedItem(env, kept[i]) else kept[i]
    ensures c.deduplicate ==>
              forall i, j :: 0 <= i < j < |kept| && kept[i].contentHash != "" ==>
                kept[i].contentHash != kept[j].contentHash
  {
    hide CompactedItem, Hashes;
    kept := if c.deduplicate then Deduplicated(fitted) else fitted;
    OnePerHash(fitted);
    NothingAdded(fitted);
    forall item | item in kept ensures item in fitted {
      assert item in multiset(kept) && item in multiset(fitted);
    }
  }

  /** What `run` puts out for a retrieval budget and a share per item. */
  function Assembled(c: Config, env: Environment, budget: int, pct: real, s: Sources): seq<Item> {
    Output(c, env, Fit(Combined(c, s), budget, pct).fitted)
  }

  /** sum(item.token_count for item in items) */
  function DeclaredTokens(items: seq<Item>): nat {
    if items == [] then 0 else DeclaredTokens(items[..|items| - 1]) + items[|items| - 1].tokens
  }

  lemma {:induction false} DeclaredAtMostTotal(items: seq<Item>)
    ensures DeclaredTokens(items) <= Total(items)
  {
    if items != [] {
      DeclaredAtMostTotal(items[..|items| - 1]);
    }
  }

  lemma FittedAreInputs(items: seq<Item>, max: int, pct: real)
    ensures forall e :: e in Fit(items, max, pct).fitted ==> e in items
  {
    hide Cost;
    var cap := MaxPerItem(max, pct);
    RanksIsPreorder();
    SortSorts(Small(items, cap), Ranks);
    PackSplits(SortBy(Small(items, cap), Ranks), max);
    SmallExact(items, cap);
    forall e | e in Fit(items, max, pct).fitted ensures e in items {
      assert e in multiset(Fit(items, max, pct).fitted);
      assert multiset(Small(items, cap))[e] > 0;
      assert e in multiset(items);
    }
  }

  /**
   The whole pipeline stays within its budget, whatever is switched on, as long as
   every input item declares at least what it costs after compaction.
   */
  lemma PipelineWithinBudget(c: Config, env: Environment, budget: int, pct: real, s: Sources)
    requires budget >= 0
    requires forall i :: 0 <= i < |Combined(c, s)| ==> Covered(env, Combined(c, s)[i])
    ensures DeclaredTokens(Assembled(c, env, budget, pct, s)) <= Total(Assembled(c, env, budget, pct, s)) <= budget
  {
    var fitted := Fit(Combined(c, s), budget, pct).fitted;
    var d := if c.deduplicate then Deduplicated(fitted) else fitted;
    FitBound(Combined(c, s), budget, pct);
    FittedAreInputs(Combined(c, s), budget, pct);
    NothingAdded(fitted);
    forall i | 0 <= i < |d| ensures Covered(env, d[i]) {
      assert d[i] in multiset(d);
      assert d[i] in multiset(fitted);
      assert d[i] in Combined(c, s);
    }
    CompactionNeverCosts(env, d);
    DeclaredAtMostTotal(Assembled(c, env, budget, pct, s));
  }

  /** In particular when every token count is at least the estimate of its content. */
  lemma HonestPipelineWithinBudget(c: Config, env: Environment, budget: int, pct: real, s: Sources)
    requires budget >= 0 && |env.base| <= 312
    requires forall item :: item in Combined(c, s) ==> item.tokens >= EstimateTokens(item.content)
    ensures DeclaredTokens(Assembled(c, env, budget, pct, s)) <= budget
  {
    forall i | 0 <= i < |Combined(c, s)| ensures Covered(env, Combined(c, s)[i]) {
      HonestIsCovered(env, Combined(c, s)[i]);
    }
    PipelineWithinBudget(c, env, budget, pct, s);
  }

  // ----- the condition is exact -----

  function Copies(item: Item, n: nat): (items: seq<Item>)
    ensures |items| == n && forall i :: 0 <= i < n ==> items[i] == item
  {
    seq(n, i => item)
  }

  lemma {:induction false} CopiesTotal(items: seq<Item>, item: Item)
    requires forall i :: 0 <= i < |items| ==> items[i] == item
    ensures Total(items) == |items| * Cost(item) && DeclaredTokens(items) == |items| * item.tokens
  {
    hide Cost;
    if items != [] {
      CopiesTotal(items[..|items| - 1], item);
    }
  }

  const PLAIN := Config("default", 15, 10, 10, 10, false, true, false)

  function Repo(items: seq<Item>): Sources {
    Sources(items, [], [], [], [])
  }

  /** Nothing is excluded when everything is small and fits. */
  lemma AllFit(items: seq<Item>, max: int, pct: real)
    requires max >= 0 && Total(items) <= max && forall e :: e in items ==> Cost(e) <= MaxPerItem(max, pct)
    ensures multiset(Fit(items, max, pct).fitted) == multiset(items)
  {
    hide Cost;
    var small, p := Small(items, MaxPerItem(max, pct)), Fit(items, max, pct);
    SmallExact(items, MaxPerItem(max, pct));
    forall e ensures multiset(small)[e] == multiset(items)[e] {
      if e in multiset(items) { assert e in items; }
    }
    assert multiset(small) == multiset(items);
    TotalPermutes(small, items);
    FitBound(items, max, pct);
    assert p.excluded == [];
  }

  /** Four copies of an item that fill the budget all fit. */
  lemma FourFit(item: Item)
    ensures Fit(Copies(item, 4), 4 * Cost(item), 0.25).fitted == Copies(item, 4)
  {
    hide Cost, Fit;
    var (items, max) := (Copies(item, 4), 4 * Cost(item));
    CopiesTotal(items, item);
    assert max as real * 0.25 == Cost(item) as real;
    AllFit(items, max, 0.25);
    OnlyCopies(Fit(items, max, 0.25).fitted, items, item);
  }

  lemma OnlyCopies(a: seq<Item>, b: seq<Item>, item: Item)
    requires multiset(a) == multiset(b) && forall i :: 0 <= i < |b| ==> b[i] == item
    ensures a == b
  {
    assert |a| == |multiset(a)| == |multiset(b)| == |b|;
    forall i | 0 <= i < |a| ensures a[i] == item {
      assert a[i] in multiset(b);
    }
  }

  /**
   The condition cannot be weakened: with the default share per item, an item keeps
   every selection of its copies within every budget exactly when it is covered.
   */
  lemma CoverageIsExact(env: Environment, item: Item)
    ensures (forall n: nat, budget: nat :: Total(Assembled(PLAIN, env, budget, 0.25, Repo(Copies(item, n)))) <= budget)
            <==> Covered(env, item)
  {
    if Covered(env, item) {
      forall n: nat, budget: nat ensures Total(Assembled(PLAIN, env, budget, 0.25, Repo(Copies(item, n)))) <= budget {
        var s := Repo(Copies(item, n));
        assert Combined(PLAIN, s) == Copies(item, n);
        PipelineWithinBudget(PLAIN, env, budget, 0.25, s);
      }
    } else {
      var s := Repo(Copies(item, 4));
      assert Combined(PLAIN, s) == Copies(item, 4);
      FourFit(item);
      var out := Assembled(PLAIN, env, 4 * Cost(item), 0.25, s);
      assert out == CompactedItems(env, Copies(item, 4));
      CopiesTotal(out, CompactedItem(env, item));
      assert Total(out) > 4 * Cost(item);
    }
  }

  // ----- the pipeline -----

  /** The names `_record_step` appends. */
  datatype Stage = PipelineStart | RepositoryDiscovery | FileRetrieval | RecentToolOutputs | SessionContext
                 | ProjectMemory | TokenAllocation | Deduplication | Compaction | PipelineComplete | ProvenanceManifest

  datatype Result = Result(items: seq<Item>, truncated: bool, steps: seq<Stage>, inputCount: nat, outputCount: nat,
                           tokensInput: nat, tokensOutput: nat)

  class ContextPipeline {
    const config: Config
    const env: Environment
    const budgetManager: TokenBudgetManager
    var pipelineSteps: seq<Stage>

    constructor (config: Config, env: Environment, budgetManager: TokenBudgetManager)
      ensures this.config == config && this.env == env && this.budgetManager == budgetManager
    {
      this.config, this.env, this.budgetManager, pipelineSteps := config, env, budgetManager, [];
    }

    /** `_deduplicate_items`. */
    method DeduplicateItems(items: seq<Item>) returns (deduped: seq<Item>)
      ensures deduped == Deduplicated(items)
    {
      var seen := {};
      deduped := [];
      NoHashes();
      for i := 0 to |items|
        invariant seen == Hashes(items[..i]) && deduped == Deduplicated(items[..i])
      {
        assert items[..i + 1] == items[..i] + [items[i]] && items[..i + 1][..i] == items[..i];
        HashesAppend(items[..i], items[i]);
        var h := items[i].contentHash;
        if h != "" && h in seen {
          assert seen + {h} == seen;
          continue;
        }
        if h != "" {
          seen := seen + {h};
        }
        deduped := deduped + [items[i]];
      }
      assert items[..|items|] == items;
    }

    /** `_compact_items`. */
    method CompactItems(items: seq<Item>) returns (compacted: seq<Item>)
      ensures compacted == CompactedItems(env, items)
    {
      compacted := [];
      for i := 0 to |items|
        invariant compacted == CompactedItems(env, items[..i])
      {
        assert items[..i + 1][..i] == items[..i];
        if |items[i].content| > 1200 {
          var (content, _) := CompactToolResult(env.base, items[i].content, 800, env.hash(items[i].content));
          compacted := compacted
            + [NewItem(items[i].id, content, items[i].provenance, "", EstimateTokens(content), items[i].marker,
                       env.sha)];
        } else {
          compacted := compacted + [items[i]];
        }
      }
      assert items[..|items|] == items;
    }

    method RecordStep(step: Stage)
      modifies this
      ensures pipelineSteps == old(pipelineSteps) + [step]
    {
      pipelineSteps := pipelineSteps + [step];
    }

    /**
     `run`: the selection and its counters.  What is put out are items that came in, compacted
     if that is switched on, and no hash twice if deduplication is; with covered items the
     declared output tokens never exceed the retrieval budget.
     */
    method Run(s: Sources) returns (r: Result, ghost kept: seq<Item>)
      modifies this
      ensures |kept| == |r.items|
      ensures forall i :: 0 <= i < |kept| ==>
                r.items[i] == if config.compact then CompactedItem(env, kept[i]) else kept[i]
      ensures config.deduplicate ==>
                forall i, j :: 0 <= i < j < |kept| && kept[i].contentHash != "" ==>
                  kept[i].contentHash != kept[j].contentHash
      ensures forall item :: item in kept ==> item in Combined(config, s)
      ensures r.items == Assembled(config, env, budgetManager.retrievalBudget, budgetManager.maxSingleItemPct, s)
      ensures r.truncated <==>
                Fit(Combined(config, s), budgetManager.retrievalBudget, budgetManager.maxSingleItemPct).excluded != []
      ensures r.inputCount == |Combined(config, s)| && r.outputCount == |r.items|
      ensures r.tokensInput == DeclaredTokens(Combined(config, s)) && r.tokensOutput == DeclaredTokens(r.items)
      ensures budgetManager.retrievalBudget >= 0
              && (forall i :: 0 <= i < |Combined(config, s)| ==> Covered(env, Combined(config, s)[i]))
              ==> r.tokensOutput <= budgetManager.retrievalBudget
      ensures r.steps == [PipelineStart, RepositoryDiscovery, FileRetrieval, RecentToolOutputs,
                          SessionContext, ProjectMemory, TokenAllocation, Deduplication, Compaction,
                          PipelineComplete]
      ensures pipelineSteps == r.steps + if config.manifest then [ProvenanceManifest] else []
    {
      hide Fit, Covered, DeclaredTokens, Deduplicated, CompactedItems, Output;
      var combined := Collect(s);
      var items, truncated := Select(combined);
      ghost var fitted := Fit(combined, budgetManager.retrievalBudget, budgetManager.maxSingleItemPct).fitted;
      kept := Kept(config, env, fitted);
      FittedAreInputs(combined, budgetManager.retrievalBudget, budgetManager.maxSingleItemPct);
      RecordStep(PipelineComplete);
      r := Result(items, truncated, pipelineSteps, |combined|, |items|, DeclaredTokens(combined),
                  DeclaredTokens(items));
      if config.manifest {
        RecordStep(ProvenanceManifest);
      }
      if budgetManager.retrievalBudget >= 0 && forall i :: 0 <= i < |combined| ==> Covered(env, combined[i]) {
        PipelineWithinBudget(config, env, budgetManager.retrievalBudget, budgetManager.maxSingleItemPct, s);
      }
    }

    /** Stages 1 to 5. */
    method Collect(s: Sources) returns (combined: seq<Item>)
      modifies this
      ensures combined == Combined(config, s)
      ensures pipelineSteps == [PipelineStart, RepositoryDiscovery, FileRetrieval, RecentToolOutputs, SessionContext,
                                ProjectMemory]
    {
      hide Upto;
      pipelineSteps := [];
      RecordStep(PipelineStart);
      RecordStep(RepositoryDiscovery);
      RecordStep(FileRetrieval);
      RecordStep(RecentToolOutputs);
      RecordStep(SessionContext);
      RecordStep(ProjectMemory);
      combined := s.repo + Upto(s.files, config.maxFileItems);
      combined := combined + Upto(s.toolOutputs, config.maxToolOutputItems);
      combined := combined + Upto(s.session, config.maxSessionContextItems);
      combined := combined + Upto(s.memory, config.maxMemoryItems);
    }

    /** Stages 6 to 8. */
    method Select(combined: seq<Item>) returns (items: seq<Item>, truncated: bool)
      modifies this
      ensures var p := Fit(combined, budgetManager.retrievalBudget, budgetManager.maxSingleItemPct);
              items == Output(config, env, p.fitted) && (truncated <==> p.excluded != [])
      ensures pipelineSteps == old(pipelineSteps) + [TokenAllocation, Deduplication, Compaction]
    {
      hide Fit, Deduplicated, CompactedItems;
      RecordStep(TokenAllocation);
      items, truncated := budgetManager.FitItems(combined, Some(budgetManager.retrievalBudget));
      RecordStep(Deduplication);
      if config.deduplicate {
        items := DeduplicateItems(items);
      }
      RecordStep(Compaction);
      if config.compact {
        items := CompactItems(items);
      }
    }
  }
}
