/** The diagnostic page's reading of the report (api/diagnostic.js:92-98,
    162-217): each source's count against a table of expected ranges, and an
    ordered list of recommendations. */
module Classifier {
  import opened Common
  import opened Sources
  import opened Report

  datatype Bounds = Bounds(min: int, max: int)

  /** The table the page ships with. */
  const Expected: map<string, Bounds> := map[
    "defiLlama" := Bounds(40, 50),
    "morpho" := Bounds(25, 35),
    "euler" := Bounds(20, 30),
    "pendle" := Bounds(10, 30),
    "manual" := Bounds(24, 24)]

  /** Below this many yields in all the page recommends an overall check. */
  const OverallFloor: int := 150

  // ---------------------------------------------------------------------
  // Comparison against the expected ranges

  datatype Verdict = Good | TooLow | TooHigh

  /** `isGood ? ... : isTooLow ? ... : ...` */
  function Judge(actual: int, b: Bounds): (v: Verdict)
    ensures v == Good <==> b.min <= actual <= b.max
    ensures v == TooLow <==> actual < b.min
    ensures v == TooHigh <==> b.min <= actual && b.max < actual
  {
    var isGood := actual >= b.min && actual <= b.max;
    var isTooLow := actual < b.min;
    if isGood then Good else if isTooLow then TooLow else TooHigh
  }

  /** The entries the comparison panel shows: those whose name is in the table. */
  function HasExpectation(table: map<string, Bounds>): Entry -> bool {
    (e: Entry) => e.0 in table
  }

  /** One line of the comparison panel. */
  datatype Row = Row(name: string, bounds: Bounds, actual: int, verdict: Verdict)

  /** The comparison panel: a row for every source with an expectation, in
      results order, comparing `count || 0` with its range. */
  function Comparison(rs: seq<Entry>, table: map<string, Bounds>): (rows: seq<Row>)
    ensures |rows| == |Filter(rs, HasExpectation(table))|
    ensures forall row :: row in rows ==>
      row.name in table && row.bounds == table[row.name] && row.verdict == Judge(row.actual, row.bounds)
    ensures forall e :: e in rs && e.0 in table ==>
      Row(e.0, table[e.0], CountOrZero(e.1), Judge(CountOrZero(e.1), table[e.0])) in rows
  {
    if |rs| == 0 then []
    else
      var e := rs[0];
      (if e.0 in table then [Row(e.0, table[e.0], CountOrZero(e.1), Judge(CountOrZero(e.1), table[e.0]))] else [])
      + Comparison(rs[1..], table)
  }

  /** Row `k` compares the `k`-th listed entry. */
  predicate RowsFollow(rows: seq<Row>, listed: seq<Entry>, table: map<string, Bounds>) {
    |rows| == |listed| &&
    forall k :: 0 <= k < |listed| ==>
      rows[k].name == listed[k].0 && listed[k].0 in table && rows[k].bounds == table[listed[k].0] &&
      rows[k].actual == CountOrZero(listed[k].1)
  }

  /** The rows follow the results order: row `k` belongs to the `k`-th entry
      that has an expectation. */
  lemma {:induction false} ComparisonOrder(rs: seq<Entry>, table: map<string, Bounds>)
    ensures RowsFollow(Comparison(rs, table), Filter(rs, HasExpectation(table)), table)
  {
    if |rs| > 0 {
      ComparisonOrder(rs[1..], table);
      var f := Filter(rs, HasExpectation(table));
      var rest := Filter(rs[1..], HasExpectation(table));
      var rows := Comparison(rs, table);
      var tail := Comparison(rs[1..], table);
      if rs[0].0 in table {
        assert f == [rs[0]] + rest;
        assert rows == [Row(rs[0].0, table[rs[0].0], CountOrZero(rs[0].1), Judge(CountOrZero(rs[0].1), table[rs[0].0]))] + tail;
      } else {
        assert f == rest && rows == tail;
      }
    }
  }

  // ---------------------------------------------------------------------
  // Recommendations

  /** The page's recommendations, without their wording. */
  datatype Rec =
    | TimeoutRec(name: string)
    | ErrorRec(name: string, msg: string)
    | LowRec(name: string, count: nat, min: int, max: int)
    | OverallRec
    | AllGood

  /** The group a recommendation belongs to, in the order the groups are listed. */
  function Rank(rec: Rec): nat {
    match rec
    case TimeoutRec(_) => 0
    case ErrorRec(_, _) => 0
    case LowRec(_, _, _, _) => 1
    case OverallRec => 2
    case AllGood => 3
  }

  /** `msg.includes('timeout') || msg.includes('timed out')`, case-sensitively. */
  predicate LooksLikeTimeout(msg: string) {
    Contains(msg, "timeout") || Contains(msg, "timed out")
  }

  /** A failed source's recommendation: the timeout one exactly when the
      message mentions "timeout" or "timed out" (case-sensitively), otherwise
      the generic one carrying the message. */
  function FailureRec(name: string, msg: string): (rec: Rec)
    ensures rec.TimeoutRec? || rec.ErrorRec?
    ensures rec.name == name
    ensures rec.TimeoutRec? <==> LooksLikeTimeout(msg)
    ensures rec.ErrorRec? ==> rec.msg == msg
  {
    if LooksLikeTimeout(msg) then TimeoutRec(name) else ErrorRec(name, msg)
  }

  /** The recommendations for the failed sources, in results order. */
  function FailureRecs(rs: seq<Entry>): seq<Rec>
  {
    if |rs| == 0 then []
    else (if rs[0].1.Error? then [FailureRec(rs[0].0, rs[0].1.message)] else []) + FailureRecs(rs[1..])
  }

  /** `exp && result.count < exp.min`: an error result has no count and is never low. */
  predicate IsLow(e: Entry, table: map<string, Bounds>) {
    e.0 in table && e.1.Success? && e.1.count < table[e.0].min
  }

  function LowRecOf(e: Entry, table: map<string, Bounds>): Rec
    requires IsLow(e, table)
  {
    LowRec(e.0, e.1.count, table[e.0].min, table[e.0].max)
  }

  /** The low-count recommendations, in results order. */
  function LowRecs(rs: seq<Entry>, table: map<string, Bounds>): seq<Rec>
  {
    if |rs| == 0 then []
    else (if IsLow(rs[0], table) then [LowRecOf(rs[0], table)] else []) + LowRecs(rs[1..], table)
  }

  /** The list the page shows, never empty. */
  function Recommendations(rs: seq<Entry>, totalYields: int, table: map<string, Bounds>): (recs: seq<Rec>)
    ensures |recs| >= 1
  {
    var found := FailureRecs(rs) + LowRecs(rs, table) + (if totalYields < OverallFloor then [OverallRec] else []);
    if |found| == 0 then [AllGood] else found
  }

  /** The first block of the builder: each listed failure gets the timeout
      recommendation or the generic one. */
  method PushFailures(failures: seq<Entry>) returns (recs: seq<Rec>)
    ensures recs == FailureRecs(failures)
  {
    recs := [];
    if |failures| > 0 {
      for k := 0 to |failures|
        invariant recs + FailureRecs(failures[k..]) == FailureRecs(failures)
      {
        var name := failures[k].0;
        var result := failures[k].1;
        assert failures[k..][1..] == failures[k + 1..];
        ghost var rest := FailureRecs(failures[k + 1..]);
        if result.Error? {
          assert FailureRecs(failures[k..]) == [FailureRec(name, result.message)] + rest;
          if LooksLikeTimeout(result.message) {
            recs := recs + [TimeoutRec(name)];
          } else {
            recs := recs + [ErrorRec(name, result.message)];
          }
        } else {
          assert FailureRecs(failures[k..]) == rest;
        }
      }
      assert failures[|failures|..] == [];
    }
  }

  /** The second block: every entry with an expectation whose count is below
      the minimum gets a low-count recommendation, appended after `before`. */
  method PushLowCounts(before: seq<Rec>, rs: seq<Entry>, table: map<string, Bounds>) returns (recs: seq<Rec>)
    ensures recs == before + LowRecs(rs, table)
  {
    recs := before;
    for k := 0 to |rs|
      invariant recs + LowRecs(rs[k..], table) == before + LowRecs(rs, table)
    {
      var name := rs[k].0;
      var result := rs[k].1;
      assert rs[k..][1..] == rs[k + 1..];
      if name in table && result.Success? && result.count < table[name].min {
        recs := recs + [LowRec(name, result.count, table[name].min, table[name].max)];
      }
    }
    assert rs[|rs|..] == [];
  }

  /** The builder: failures first, then low counts, then the overall floor,
      and the affirmative line only when nothing was pushed. */
  method Recommend(rs: seq<Entry>, totalYields: int, table: map<string, Bounds>) returns (recs: seq<Rec>)
    ensures recs == Recommendations(rs, totalYields, table)
  {
    var failures := Filter(rs, Failed);
    recs := PushFailures(failures);
    FailureRecsOfFailures(rs);
    recs := PushLowCounts(recs, rs, table);
    if totalYields < OverallFloor {
      recs := recs + [OverallRec];
    }
    if |recs| == 0 {
      recs := [AllGood];
    }
  }

  /** Listing the failures first and then recommending for each of them is
      the same as recommending for every failed entry. */
  lemma {:induction false} FailureRecsOfFailures(rs: seq<Entry>)
    ensures FailureRecs(Filter(rs, Failed)) == FailureRecs(rs)
  {
    if |rs| > 0 {
      FailureRecsOfFailures(rs[1..]);
      var rest := Filter(rs[1..], Failed);
      if Failed(rs[0]) {
        var f := [rs[0]] + rest;
        assert f[0] == rs[0] && f[1..] == rest;
      } else {
        assert Filter(rs, Failed) == rest;
      }
    }
  }

  /** Each failed source gets a failure recommendation (the timeout one exactly
      when its message mentions "timeout" or "timed out"), and every failure
      recommendation belongs to a failed source. */
  lemma {:induction false} FailureRecsExact(rs: seq<Entry>)
    ensures forall e :: e in rs && e.1.Error? ==> FailureRec(e.0, e.1.message) in FailureRecs(rs)
    ensures forall rec :: rec in FailureRecs(rs) ==>
      exists e :: e in rs && e.1.Error? && rec == FailureRec(e.0, e.1.message)
  {
    if |rs| > 0 {
      FailureRecsExact(rs[1..]);
      assert forall e :: e in rs[1..] ==> e in rs;
      assert forall e :: e in rs ==> e == rs[0] || e in rs[1..];
    }
  }

  /** A source gets a low-count recommendation exactly when it has an
      expectation and succeeded with a count below the minimum. */
  lemma {:induction false} LowRecsExact(rs: seq<Entry>, table: map<string, Bounds>)
    ensures forall e :: e in rs && IsLow(e, table) ==> LowRecOf(e, table) in LowRecs(rs, table)
    ensures forall rec :: rec in LowRecs(rs, table) ==>
      exists e :: e in rs && IsLow(e, table) && rec == LowRecOf(e, table)
  {
    if |rs| > 0 {
      LowRecsExact(rs[1..], table);
      assert forall e :: e in rs[1..] ==> e in rs;
      assert forall e :: e in rs ==> e == rs[0] || e in rs[1..];
    }
  }

  /** Failure recommendations form the first group, low counts the second. */
  lemma {:induction false} RecGroups(rs: seq<Entry>, table: map<string, Bounds>)
    ensures forall rec :: rec in FailureRecs(rs) ==> Rank(rec) == 0
    ensures forall rec :: rec in LowRecs(rs, table) ==> Rank(rec) == 1
  {
    if |rs| > 0 {
      RecGroups(rs[1..], table);
    }
  }

  /** Failure recommendations come first, then low counts, then the overall
      one, and the affirmative line last. */
  lemma RecommendationOrder(rs: seq<Entry>, totalYields: int, table: map<string, Bounds>)
    ensures var recs := Recommendations(rs, totalYields, table);
      forall i, j :: 0 <= i < j < |recs| ==> Rank(recs[i]) <= Rank(recs[j])
  {
    var f := FailureRecs(rs);
    var l := LowRecs(rs, table);
    RecGroups(rs, table);
    var o := if totalYields < OverallFloor then [OverallRec] else [];
    var found := f + l + o;
    forall k | 0 <= k < |found|
      ensures Rank(found[k]) == if k < |f| then 0 else if k < |f| + |l| then 1 else 2
    {
      if k < |f| {
        assert found[k] == f[k];
      } else if k < |f| + |l| {
        assert found[k] == l[k - |f|];
      } else {
        assert found[k] == o[k - |f| - |l|];
      }
    }
  }

  /** The overall recommendation appears exactly when the total is below 150. */
  lemma OverallIff(rs: seq<Entry>, totalYields: int, table: map<string, Bounds>)
    ensures OverallRec in Recommendations(rs, totalYields, table) <==> totalYields < OverallFloor
  {
    var recs := Recommendations(rs, totalYields, table);
    if totalYields < OverallFloor {
      assert recs[|recs| - 1] == OverallRec;
    } else {
      RecGroups(rs, table);
      assert Rank(OverallRec) == 2;
    }
  }

  /** The affirmative line is shown exactly when no source failed, no source
      is low and the total reaches 150; it is then the only line. */
  lemma AllGoodIff(rs: seq<Entry>, totalYields: int, table: map<string, Bounds>)
    ensures var recs := Recommendations(rs, totalYields, table);
      (AllGood in recs <==>
        (forall e :: e in rs ==> !e.1.Error? && !IsLow(e, table)) && totalYields >= OverallFloor) &&
      (AllGood in recs ==> recs == [AllGood])
  {
    var f := FailureRecs(rs);
    var l := LowRecs(rs, table);
    var found := f + l + (if totalYields < OverallFloor then [OverallRec] else []);
    FailureRecsExact(rs);
    LowRecsExact(rs, table);
    assert AllGood !in found by {
      RecGroups(rs, table);
      assert Rank(AllGood) == 3;
    }
    if |found| == 0 {
      assert f == [] && l == [];
    } else {
      var x := found[0];
      assert x in f || x in l || x == OverallRec;
    }
  }

  /** A source that succeeded above its range gets no recommendation at all:
      the too-high verdict is shown in the comparison panel only. */
  lemma TooHighIsSilent(rs: seq<Entry>, totalYields: int, table: map<string, Bounds>, i: nat)
    requires DistinctKeys(rs)
    requires i < |rs| && rs[i].0 in table && rs[i].1.Success?
    requires Judge(CountOrZero(rs[i].1), table[rs[i].0]) == TooHigh
    ensures forall rec :: rec in Recommendations(rs, totalYields, table) ==>
      !((rec.TimeoutRec? || rec.ErrorRec? || rec.LowRec?) && rec.name == rs[i].0)
  {
    var recs := Recommendations(rs, totalYields, table);
    var f := FailureRecs(rs);
    var l := LowRecs(rs, table);
    FailureRecsExact(rs);
    LowRecsExact(rs, table);
    assert !IsLow(rs[i], table) && !rs[i].1.Error?;
    forall rec | rec in recs && (rec.TimeoutRec? || rec.ErrorRec? || rec.LowRec?)
      ensures rec.name != rs[i].0
    {
      assert rec in f + l;
      var e :| e in rs && ((e.1.Error? && rec == FailureRec(e.0, e.1.message)) || (IsLow(e, table) && rec == LowRecOf(e, table)));
      var j :| 0 <= j < |rs| && rs[j] == e;
      assert j != i;
      assert rec.name == e.0;
    }
  }

  /** The report as this endpoint produces it: whatever the network does, the
      manual source's constant 14 is below its expected 24, so it is always
      judged too low, always gets a low-count recommendation, and the
      affirmative line can never be shown. */
  lemma NeverAllGood(net: Network)
    ensures var rs := Results(net);
      var recs := Recommendations(rs, Summarize(rs).totalYields, Expected);
      Judge(CountOrZero(rs[4].1), Expected["manual"]) == TooLow &&
      LowRec("manual", 14, 24, 24) in recs &&
      AllGood !in recs
  {
    var rs := Results(net);
    var recs := Recommendations(rs, Summarize(rs).totalYields, Expected);
    ReportShape(net);
    assert rs[4] in rs && IsLow(rs[4], Expected);
    AllGoodIff(rs, Summarize(rs).totalYields, Expected);
    LowRecsExact(rs, Expected);
    assert LowRecOf(rs[4], Expected) in LowRecs(rs, Expected);
    assert recs == FailureRecs(rs) + LowRecs(rs, Expected) + (if Summarize(rs).totalYields < OverallFloor then [OverallRec] else []);
  }

  /** A source whose request timed out is told to look at execution limits,
      not at the error text, whenever the total reaches the floor. */
  lemma TimedOutExample(totalYields: int)
    requires totalYields >= OverallFloor
    ensures Recommendations([("morpho", Error("request timed out"))], totalYields, Expected) == [TimeoutRec("morpho")]
  {
    var s := "request timed out";
    assert s[8..8 + |"timed out"|] == "timed out";
    ContainsAt(s, "timed out", 8);
    assert FailureRecs([("morpho", Error(s))]) == [TimeoutRec("morpho")];
    assert LowRecs([("morpho", Error(s))], Expected) == [];
  }
}
