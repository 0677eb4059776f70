/** `testAPIs` (api/debug.js:19-134): the five sources probed one after the
    other into an ordered `results` record, and the summary folded over it. */
module Report {
  import opened Common
  import opened Retry
  import opened Sources

  /** What the outside world answers: the pools endpoint as the DefiLlama
      block sees it, the single Morpho POST, the pools endpoint as the Euler
      block sees it (a second, independent request), and the Pendle endpoint
      of each chain id. */
  datatype Network = Network(
    llama: Transport<LlamaBody>, morpho: Attempt<MorphoBody>,
    euler: Transport<LlamaBody>, pendle: nat -> Transport<PendleBody>)

  /** The manually curated source: 14 yields, no request. */
  const ManualResult: SourceResult := Success(14, None, None, None, None)

  type Entry = (string, SourceResult)

  /** The `results` record, in the order its fields are filled. */
  function Results(net: Network): seq<Entry> {
    [("defiLlama", DefiLlamaProbe(Retried(net.llama, DefaultRetries).result)),
     ("morpho", MorphoProbe(net.morpho)),
     ("euler", EulerProbe(Retried(net.euler, DefaultRetries).result)),
     ("pendle", PendleResult(net.pendle)),
     ("manual", ManualResult)]
  }

  /** Every source fills its own field of `results`: no name occurs twice. */
  predicate DistinctKeys(rs: seq<Entry>) {
    forall i, j :: 0 <= i < j < |rs| ==> rs[i].0 != rs[j].0
  }

  datatype Summary = Summary(totalYields: nat, successfulSources: nat, failedSources: nat, sources: nat)

  /** `r.count || 0`: an error result has no count. */
  function CountOrZero(r: SourceResult): nat {
    if r.Success? then r.count else 0
  }

  /** `reduce((sum, r) => sum + (r.count || 0), 0)`. */
  function TotalYields(rs: seq<Entry>): nat {
    if |rs| == 0 then 0 else CountOrZero(rs[0].1) + TotalYields(rs[1..])
  }

  predicate Succeeded(e: Entry) {
    e.1.Success?
  }

  predicate Failed(e: Entry) {
    e.1.Error?
  }

  function Summarize(rs: seq<Entry>): Summary {
    Summary(TotalYields(rs), |Filter(rs, Succeeded)|, |Filter(rs, Failed)|, |rs|)
  }

  /** Every source is counted exactly once, as successful or as failed. */
  lemma {:induction false} SummaryPartition(rs: seq<Entry>)
    ensures Summarize(rs).successfulSources + Summarize(rs).failedSources == Summarize(rs).sources
  {
    if |rs| > 0 {
      SummaryPartition(rs[1..]);
    }
  }

  /** The total is the sum of the successful counts: failed sources add nothing. */
  lemma {:induction false} TotalOfSuccesses(rs: seq<Entry>)
    ensures TotalYields(rs) == TotalYields(Filter(rs, Succeeded))
  {
    if |rs| > 0 {
      TotalOfSuccesses(rs[1..]);
      if Succeeded(rs[0]) {
        var f := [rs[0]] + Filter(rs[1..], Succeeded);
        assert f[0] == rs[0] && f[1..] == Filter(rs[1..], Succeeded);
      } else {
        assert Filter(rs, Succeeded) == [] + Filter(rs[1..], Succeeded) == Filter(rs[1..], Succeeded);
      }
    }
  }

  /** `testAPIs`: each block runs after the previous one has settled and
      fills its own field of `results`. */
  method TestAPIs(net: Network) returns (results: seq<Entry>, summary: Summary)
    ensures results == Results(net)
    ensures summary == Summarize(results)
  {
    results := [];
    var llama: Fetched<LlamaBody>;
    ghost var attempts: nat, sleeps: nat;
    llama, attempts, sleeps := FetchWithRetry(net.llama, DefaultRetries);
    results := results + [("defiLlama", DefiLlamaProbe(llama))];
    results := results + [("morpho", MorphoProbe(net.morpho))];
    var euler: Fetched<LlamaBody>;
    euler, attempts, sleeps := FetchWithRetry(net.euler, DefaultRetries);
    results := results + [("euler", EulerProbe(euler))];
    var pendle := ProbePendle(net.pendle);
    results := results + [("pendle", pendle)];
    results := results + [("manual", ManualResult)];
    summary := Summarize(results);
  }

  /** Whatever the network does, the report has the five distinctly named
      sources in order,
      all of them accounted for as successful or failed; Pendle and the manual
      source always succeed, the latter with 14 yields; with the default two
      attempts neither retried fetch resolves to `undefined`. */
  lemma ReportShape(net: Network)
    ensures var rs := Results(net); var s := Summarize(rs);
      |rs| == 5 && s.sources == 5 && DistinctKeys(rs) &&
      s.successfulSources + s.failedSources == 5 &&
      s.successfulSources >= 2 && s.totalYields >= 14 &&
      rs[3].1.Success? && rs[4] == ("manual", Success(14, None, None, None, None)) &&
      !Retried(net.llama, DefaultRetries).result.Undefined? &&
      !Retried(net.euler, DefaultRetries).result.Undefined?
  {
    var rs := Results(net);
    SummaryPartition(rs);
    PendleReport(net.pendle);
    RetryBounds(net.llama, DefaultRetries);
    RetryBounds(net.euler, DefaultRetries);
    assert rs[3] in rs && rs[4] in rs;
    assert Filter(rs, Succeeded) == Filter(rs[..3], Succeeded) + [rs[3], rs[4]] by {
      FilterSplitAt(rs, 3);
    }
    assert TotalYields(rs) >= 14 by {
      TotalAtLeastLast(rs);
    }
  }

  lemma {:induction false} FilterSplitAt(rs: seq<Entry>, k: nat)
    requires k == |rs| - 2 && k >= 0
    requires Succeeded(rs[k]) && Succeeded(rs[k + 1])
    ensures Filter(rs, Succeeded) == Filter(rs[..k], Succeeded) + [rs[k], rs[k + 1]]
    decreases k
  {
    if k == 0 {
      assert rs[1..][1..] == [];
    } else {
      FilterSplitAt(rs[1..], k - 1);
      assert rs[1..][..k - 1] == rs[..k][1..];
    }
  }

  lemma {:induction false} TotalAtLeastLast(rs: seq<Entry>)
    requires |rs| > 0
    ensures TotalYields(rs) >= CountOrZero(rs[|rs| - 1].1)
  {
    if |rs| > 1 {
      TotalAtLeastLast(rs[1..]);
    }
  }
}
