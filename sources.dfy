/** The per-source blocks of `testAPIs` (api/debug.js:22-123): how each
    source's payload is filtered into a count of qualifying yield
    opportunities and what metadata it reports. */
module Sources {
  import opened Common
  import opened Retry

  /** One chain's entry in Pendle's `byChain`: a count, or `error: <message>`. */
  datatype ChainEntry = ChainCount(n: nat) | ChainError(text: string)

  /** One source's entry in `results`. Absent fields are `None`; Euler reports
      `totalPools` where Morpho reports `total`. */
  datatype SourceResult =
    | Success(count: nat, sample: Option<string>, total: Option<nat>,
              totalPools: Option<nat>, byChain: Option<map<string, ChainEntry>>)
    | Error(message: string)

  /** The outcome of the probe's body once its fetch has settled: a fetch that
      rejected becomes the source's error; a fetch that resolved to `undefined`
      makes the first property read on it throw. */
  function FetchFailure<B>(f: Fetched<B>, prop: string): string
    requires !f.Returned?
  {
    if f.Thrown? then f.error else UndefinedRead(prop)
  }

  // ---------------------------------------------------------------------
  // DefiLlama pools (api/debug.js:23-29) and Euler (api/debug.js:70-85)

  /** One record of `https://yields.llama.fi/pools`. */
  datatype LlamaPool = LlamaPool(
    project: Option<string>, symbol: Option<string>, stablecoin: Option<bool>,
    tvlUsd: Option<real>, apy: Option<real>)

  /** The pools payload; `data` is absent when the payload has no `data` array. */
  datatype LlamaBody = LlamaBody(data: Option<seq<LlamaPool>>)

  /** DefiLlama's filter: a stablecoin pool above $100K TVL with APY below 200. */
  predicate StablePool(p: LlamaPool) {
    p.stablecoin == Some(true) && Above(p.tvlUsd, 100000.0) && Below(p.apy, 200.0)
  }

  /** At most 50 qualifying pools are kept (`slice(0, 50)`). */
  const LlamaCap: nat := 50

  function DefiLlamaProbe(f: Fetched<LlamaBody>): SourceResult {
    if !f.Returned? then Error(FetchFailure(f, "data"))
    else if f.body.data.None? then Error(UndefinedRead("filter"))
    else
      var pools := f.body.data.value;
      var n := |Filter(pools, StablePool)|;
      Success(if n < LlamaCap then n else LlamaCap,
              if |pools| > 0 then pools[0].project else None,
              None, None, None)
  }

  /** The DefiLlama count is the number of qualifying pools capped at 50, and
      the sample is the project of the first raw pool, qualifying or not; a
      failed fetch or a payload without `data` makes the source an error. */
  lemma DefiLlamaCount(f: Fetched<LlamaBody>)
    ensures DefiLlamaProbe(f).Success? <==> f.Returned? && f.body.data.Some?
    ensures f.Thrown? ==> DefiLlamaProbe(f) == Error(f.error)
    ensures f.Returned? && f.body.data.Some? ==>
      var pools := f.body.data.value;
      var r := DefiLlamaProbe(f);
      r.count <= LlamaCap && r.count <= |Filter(pools, StablePool)| <= |pools| &&
      (r.count < LlamaCap ==> r.count == |Filter(pools, StablePool)|) &&
      (|pools| > 0 ==> r.sample == pools[0].project) &&
      (|pools| == 0 ==> r.sample.None?)
  {
  }

  /** The example payload of four pools, only the first of which qualifies. */
  lemma DefiLlamaExample()
    ensures
      var pools := [
        LlamaPool(None, None, Some(true), Some(200000.0), Some(5.0)),
        LlamaPool(None, None, Some(false), Some(200000.0), Some(5.0)),
        LlamaPool(None, None, Some(true), Some(50000.0), Some(5.0)),
        LlamaPool(None, None, Some(true), Some(200000.0), Some(250.0))];
      DefiLlamaProbe(Returned(LlamaBody(Some(pools)))).count == 1
  {
  }

  /** Euler's first filter: an Euler pool (either project name) above $100K
      TVL with APY below 200. */
  predicate EulerPool(p: LlamaPool) {
    (p.project == Some("euler-v2") || p.project == Some("euler")) &&
    Above(p.tvlUsd, 100000.0) && Below(p.apy, 200.0)
  }

  /** The upper-cased symbol contains one of the stablecoin tickers. */
  predicate StableTicker(symbol: string) {
    var s := Upper(symbol);
    Contains(s, "USDC") || Contains(s, "USDT") || Contains(s, "DAI") || Contains(s, "USDS") ||
    Contains(s, "PYUSD") || Contains(s, "FRAX") || Contains(s, "LUSD")
  }

  predicate StableSymbol(p: LlamaPool) {
    p.symbol.Some? && StableTicker(p.symbol.value)
  }

  /** The Euler pools that are counted. */
  function EulerCounted(pools: seq<LlamaPool>): seq<LlamaPool> {
    Filter(Filter(pools, EulerPool), StableSymbol)
  }

  /** Upper-casing reads `symbol`; on an Euler pool without one it throws. */
  function EulerProbe(f: Fetched<LlamaBody>): SourceResult {
    if !f.Returned? then Error(FetchFailure(f, "data"))
    else if f.body.data.None? then Error(UndefinedRead("filter"))
    else
      var eulerPools := Filter(f.body.data.value, EulerPool);
      if exists p :: p in eulerPools && p.symbol.None? then Error(UndefinedRead("toUpperCase"))
      else Success(|EulerCounted(f.body.data.value)|, None, None, Some(|eulerPools|), None)
  }

  /** Every counted Euler pool is an Euler pool of the payload above $100K TVL
      with APY below 200 whose symbol carries a stablecoin ticker; every such
      pool is counted; the count never exceeds `totalPools`. */
  lemma {:induction false} EulerCountedPools(pools: seq<LlamaPool>)
    ensures forall p :: p in EulerCounted(pools) <==>
      p in pools && (p.project == Some("euler-v2") || p.project == Some("euler")) &&
      Above(p.tvlUsd, 100000.0) && Below(p.apy, 200.0) &&
      p.symbol.Some? && StableTicker(p.symbol.value)
    ensures |EulerCounted(pools)| <= |Filter(pools, EulerPool)|
  {
    FilterMembers(pools, EulerPool);
    FilterMembers(Filter(pools, EulerPool), StableSymbol);
  }

  /** Euler succeeds exactly when the fetch resolves to a payload with `data`
      in which every Euler pool has a symbol; an Euler pool without one makes
      `toUpperCase` throw. A success reports the counted pools and, as
      `totalPools`, the Euler pools before the ticker filter. */
  lemma EulerResult(f: Fetched<LlamaBody>)
    ensures f.Thrown? ==> EulerProbe(f) == Error(f.error)
    ensures EulerProbe(f).Success? <==>
      f.Returned? && f.body.data.Some? &&
      forall p :: p in Filter(f.body.data.value, EulerPool) ==> p.symbol.Some?
    ensures (f.Returned? && f.body.data.Some? &&
             exists p :: p in Filter(f.body.data.value, EulerPool) && p.symbol.None?) ==>
      EulerProbe(f) == Error(UndefinedRead("toUpperCase"))
    ensures EulerProbe(f).Success? ==>
      f.Returned? && f.body.data.Some? &&
      EulerProbe(f).count == |EulerCounted(f.body.data.value)| &&
      EulerProbe(f).totalPools == Some(|Filter(f.body.data.value, EulerPool)|) &&
      EulerProbe(f).count <= EulerProbe(f).totalPools.value
  {
    if EulerProbe(f).Success? {
      EulerCountedPools(f.body.data.value);
    }
  }

  // ---------------------------------------------------------------------
  // Morpho vaults (api/debug.js:32-67)

  /** One vault of the GraphQL answer. */
  datatype Vault = Vault(name: Option<string>, totalAssetsUsd: Option<real>)

  /** The answer; `items` is absent when any of `data`, `vaultV2s` or `items` is. */
  datatype MorphoBody = MorphoBody(items: Option<seq<Vault>>)

  predicate LargeVault(v: Vault) {
    Above(v.totalAssetsUsd, 100000.0)
  }

  /** Morpho issues a single POST with no retry. */
  function MorphoProbe(a: Attempt<MorphoBody>): SourceResult {
    if !a.Ok? then Error(AttemptError(a))
    else if a.body.items.None? then Success(0, None, Some(0), None, None)
    else
      var vaults := a.body.items.value;
      Success(|Filter(vaults, LargeVault)|,
              if |vaults| > 0 then vaults[0].name else None,
              Some(|vaults|), None, None)
  }

  /** Morpho succeeds exactly when its single attempt yields a parsed body.
      The count is the number of vaults above $100K and never exceeds `total`,
      the number of vaults returned; the sample is the first vault's name; an
      absent item list gives 0 of 0 and no sample. */
  lemma MorphoCount(a: Attempt<MorphoBody>)
    ensures MorphoProbe(a).Success? <==> a.Ok?
    ensures a.Ok? ==> MorphoProbe(a).total.Some? && MorphoProbe(a).count <= MorphoProbe(a).total.value
    ensures a.Ok? && a.body.items.None? ==> MorphoProbe(a).count == 0 && MorphoProbe(a).total == Some(0)
    ensures a.Ok? && a.body.items.Some? ==>
      MorphoProbe(a).total == Some(|a.body.items.value|) &&
      (forall v :: v in Filter(a.body.items.value, LargeVault) <==> v in a.body.items.value && LargeVault(v)) &&
      MorphoProbe(a).count == |Filter(a.body.items.value, LargeVault)|
    ensures a.Ok? && a.body.items.Some? && |a.body.items.value| > 0 ==>
      MorphoProbe(a).sample == a.body.items.value[0].name
    ensures a.Ok? && (a.body.items.None? || |a.body.items.value| == 0) ==> MorphoProbe(a).sample.None?
  {
    if a.Ok? && a.body.items.Some? {
      FilterMembers(a.body.items.value, LargeVault);
    }
  }

  /** Morpho's unretried request fails exactly as `fetchWithRetry` with one
      attempt would: a response that is not ok gives `HTTP <status>`. */
  lemma MorphoSingleAttempt(a: Attempt<MorphoBody>)
    ensures a.HttpErr? ==> MorphoProbe(a) == Error("HTTP " + Decimal(a.status))
    ensures !a.Ok? ==> Retried((i: nat) => a, 1) == Run(Thrown(MorphoProbe(a).message), 1, 0)
  {
    if !a.Ok? {
      AllAttemptsFail((i: nat) => a, 1);
    }
  }

  // ---------------------------------------------------------------------
  // Pendle markets (api/debug.js:88-120)

  /** One market of `https://api-v2.pendle.finance/core/v1/<id>/markets`. */
  datatype Market = Market(
    underlyingSymbol: Option<string>, ptSymbol: Option<string>, totalActiveLiquidity: Option<real>)

  /** The markets payload; `results` is absent when the payload has none. */
  datatype PendleBody = PendleBody(results: Option<seq<Market>>)

  datatype Chain = Chain(id: nat, name: string)

  /** The chains Pendle is queried on, in order. */
  const Chains: seq<Chain> := [Chain(1, "Ethereum"), Chain(42161, "Arbitrum"), Chain(10, "Optimism")]

  /** `underlyingAsset.symbol || pt.symbol || ''`: an empty symbol falls through. */
  function MarketSymbol(m: Market): string {
    if m.underlyingSymbol.Some? && m.underlyingSymbol.value != "" then m.underlyingSymbol.value
    else if m.ptSymbol.Some? then m.ptSymbol.value
    else ""
  }

  predicate HasUsd(symbol: string) {
    var s := Upper(symbol);
    Contains(s, "USD") || Contains(s, "DAI") || Contains(s, "USDC") || Contains(s, "USDT")
  }

  /** A dollar-pegged market with more than $10K of active liquidity. */
  predicate PendleMarket(m: Market) {
    HasUsd(MarketSymbol(m)) && Above(m.totalActiveLiquidity, 10000.0)
  }

  /** The USDC and USDT tests are subsumed by the USD test. */
  lemma HasUsdSimplified(symbol: string)
    ensures HasUsd(symbol) <==> Contains(Upper(symbol), "USD") || Contains(Upper(symbol), "DAI")
  {
    var s := Upper(symbol);
    if Contains(s, "USDC") {
      ContainsPrefix(s, "USDC", "USD");
    }
    if Contains(s, "USDT") {
      ContainsPrefix(s, "USDT", "USD");
    }
  }

  /** The number of qualifying markets in one chain's payload. */
  function MarketCount(body: PendleBody): nat {
    if body.results.Some? then |Filter(body.results.value, PendleMarket)| else 0
  }

  /** One chain's entry once its fetch has settled. */
  function ChainOutcome(f: Fetched<PendleBody>): ChainEntry {
    if f.Returned? then ChainCount(MarketCount(f.body))
    else ChainError("error: " + FetchFailure(f, "results"))
  }

  /** What an entry adds to the total. */
  function Added(e: ChainEntry): nat {
    if e.ChainCount? then e.n else 0
  }

  /** The running total and the per-chain entries after the given chains. */
  datatype Tally = Tally(total: nat, byChain: map<string, ChainEntry>)

  function TallyOf(chains: seq<Chain>, net: nat -> Transport<PendleBody>): Tally
    decreases |chains|
  {
    if |chains| == 0 then Tally(0, map[])
    else
      var last := chains[|chains| - 1];
      var before := TallyOf(chains[..|chains| - 1], net);
      var e := ChainOutcome(Retried(net(last.id), DefaultRetries).result);
      Tally(before.total + Added(e), before.byChain[last.name := e])
  }

  /** The Pendle result for a network that answers chain `id`'s requests with `net(id)`. */
  function PendleResult(net: nat -> Transport<PendleBody>): SourceResult {
    var t := TallyOf(Chains, net);
    Success(t.total, None, None, None, Some(t.byChain))
  }

  /** The Pendle loop: each chain is fetched with retry in turn; a chain whose
      fetch fails gets an error entry and the loop goes on. */
  method ProbePendle(net: nat -> Transport<PendleBody>) returns (r: SourceResult)
    ensures r == PendleResult(net)
  {
    var totalCount: nat := 0;
    var chainResults: map<string, ChainEntry> := map[];
    for k := 0 to |Chains|
      invariant Tally(totalCount, chainResults) == TallyOf(Chains[..k], net)
    {
      var chain := Chains[k];
      var data: Fetched<PendleBody>;
      ghost var attempts: nat, sleeps: nat;
      data, attempts, sleeps := FetchWithRetry(net(chain.id), DefaultRetries);
      assert Chains[..k + 1][..k] == Chains[..k];
      if data.Returned? {
        var count := MarketCount(data.body);
        totalCount := totalCount + count;
        chainResults := chainResults[chain.name := ChainCount(count)];
      } else {
        chainResults := chainResults[chain.name := ChainError("error: " + FetchFailure(data, "results"))];
      }
    }
    assert Chains[..|Chains|] == Chains;
    r := Success(totalCount, None, None, None, Some(chainResults));
  }

  predicate DistinctNames(chains: seq<Chain>) {
    forall i, j :: 0 <= i < j < |chains| ==> chains[i].name != chains[j].name
  }

  /** The sum of the counts recorded for the given chains. */
  function EntrySum(chains: seq<Chain>, m: map<string, ChainEntry>): nat
    decreases |chains|
  {
    if |chains| == 0 then 0
    else
      var last := chains[|chains| - 1];
      EntrySum(chains[..|chains| - 1], m) + (if last.name in m then Added(m[last.name]) else 0)
  }

  lemma {:induction false} EntrySumFrame(chains: seq<Chain>, m: map<string, ChainEntry>, name: string, e: ChainEntry)
    requires forall c :: c in chains ==> c.name != name
    ensures EntrySum(chains, m[name := e]) == EntrySum(chains, m)
    decreases |chains|
  {
    if |chains| > 0 {
      var prefix := chains[..|chains| - 1];
      assert forall c :: c in prefix ==> c in chains;
      EntrySumFrame(prefix, m, name, e);
    }
  }

  /** Every chain gets an entry and nothing else does. */
  lemma {:induction false} TallyKeys(chains: seq<Chain>, net: nat -> Transport<PendleBody>)
    ensures TallyOf(chains, net).byChain.Keys == set c | c in chains :: c.name
    decreases |chains|
  {
    if |chains| > 0 {
      var prefix := chains[..|chains| - 1];
      TallyKeys(prefix, net);
      assert chains == prefix + [chains[|chains| - 1]];
    }
  }

  lemma NameBeforeLast(chains: seq<Chain>)
    requires |chains| > 0 && DistinctNames(chains)
    ensures DistinctNames(chains[..|chains| - 1])
    ensures forall c :: c in chains[..|chains| - 1] ==> c.name != chains[|chains| - 1].name
  {
    var prefix := chains[..|chains| - 1];
    forall c | c in prefix ensures c.name != chains[|chains| - 1].name {
      var i :| 0 <= i < |prefix| && prefix[i] == c;
      assert chains[i] == c;
    }
  }

  /** Each chain's entry is the outcome of its own fetch. */
  lemma {:induction false} TallyEntries(chains: seq<Chain>, net: nat -> Transport<PendleBody>)
    requires DistinctNames(chains)
    ensures forall c :: c in chains ==>
      c.name in TallyOf(chains, net).byChain &&
      TallyOf(chains, net).byChain[c.name] == ChainOutcome(Retried(net(c.id), DefaultRetries).result)
    decreases |chains|
  {
    if |chains| > 0 {
      var prefix := chains[..|chains| - 1];
      NameBeforeLast(chains);
      TallyEntries(prefix, net);
      assert chains == prefix + [chains[|chains| - 1]];
    }
  }

  /** The total is the sum of the counted entries. */
  lemma {:induction false} TallySum(chains: seq<Chain>, net: nat -> Transport<PendleBody>)
    requires DistinctNames(chains)
    ensures TallyOf(chains, net).total == EntrySum(chains, TallyOf(chains, net).byChain)
    decreases |chains|
  {
    if |chains| > 0 {
      var last := chains[|chains| - 1];
      var prefix := chains[..|chains| - 1];
      NameBeforeLast(chains);
      TallySum(prefix, net);
      EntrySumFrame(prefix, TallyOf(prefix, net).byChain, last.name, ChainOutcome(Retried(net(last.id), DefaultRetries).result));
    }
  }

  lemma ChainNames()
    ensures DistinctNames(Chains)
    ensures (set c | c in Chains :: c.name) == {"Ethereum", "Arbitrum", "Optimism"}
  {
    assert Chains[0] in Chains && Chains[1] in Chains && Chains[2] in Chains;
  }

  /** The Pendle source always succeeds. Each of Ethereum, Arbitrum and
      Optimism gets an entry: a chain whose fetch rejects with message `e`
      records `error: e` and adds nothing; the count is the sum of the
      counted entries. */
  lemma PendleReport(net: nat -> Transport<PendleBody>)
    ensures PendleResult(net).Success? && PendleResult(net).byChain.Some?
    ensures PendleResult(net).byChain.value.Keys == {"Ethereum", "Arbitrum", "Optimism"}
    ensures forall c :: c in Chains && Retried(net(c.id), DefaultRetries).result.Thrown? ==>
      PendleResult(net).byChain.value[c.name] == ChainError("error: " + Retried(net(c.id), DefaultRetries).result.error)
    ensures forall c :: c in Chains && Retried(net(c.id), DefaultRetries).result.Returned? ==>
      PendleResult(net).byChain.value[c.name] == ChainCount(MarketCount(Retried(net(c.id), DefaultRetries).result.body))
    ensures PendleResult(net).count == EntrySum(Chains, PendleResult(net).byChain.value)
  {
    ChainNames();
    TallyKeys(Chains, net);
    TallyEntries(Chains, net);
    TallySum(Chains, net);
  }
}
