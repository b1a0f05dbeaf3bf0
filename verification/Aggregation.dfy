/** A benchmark's status and how a published job changes it: groups of repetitions, running means
    and best results (controllers/job_tracker.go, controllers/common.go). */
module Aggregation {
  import opened Wrappers
  import opened JobIdentity
  import opened JobDetail
  import opened Ranking

  /** The parser's answer to one run. Values are exact; the status texts with six decimals are not modelled. */
  datatype Response = Response(performanceKey: string, performanceValue: real, message: string)

  datatype ResultItem = ResultItem(
    repetition: string, performanceKey: string, performanceValue: real, result: string, jobName: string,
    podName: string)

  datatype BenchmarkResult = BenchmarkResult(
    buildID: string, iterationID: string, iterationMap: Label, configurationID: string, configurationMap: Label,
    items: seq<ResultItem>)

  datatype BestResult = BestResult(
    buildID: string, iterationID: string, configurationMap: Label, performanceKey: string, performanceValue: real)

  const AUTOTUNED: string := "auto-tuned"   // RESERVED_AUTOTUNED_PROFILE_NAME

  /** One published run: whose it is, its configuration with the tuned profile if there is one. */
  datatype Event = Event(detail: Detail, configurationMap: Label, item: ResultItem)

  // ---------------------------------------------------------------- groups

  function ResultKey(r: BenchmarkResult): GroupKey {
    GroupKey(r.buildID, r.iterationID, r.configurationID)
  }

  predicate InGroup(r: BenchmarkResult, d: Detail) {
    ResultKey(r) == KeyOf(d)
  }

  /** Position of the first result group of `d`, or their number if there is none. */
  function FindGroup(results: seq<BenchmarkResult>, d: Detail): (i: nat)
    ensures i <= |results| && (i < |results| ==> InGroup(results[i], d))
    ensures forall j :: 0 <= j < i ==> !InGroup(results[j], d)
  {
    if results == [] || InGroup(results[0], d) then 0 else 1 + FindGroup(results[1..], d)
  }

  function Sum(items: seq<ResultItem>): real {
    if items == [] then 0.0 else Sum(items[..|items| - 1]) + items[|items| - 1].performanceValue
  }

  function Mean(items: seq<ResultItem>): real
    requires items != []
  {
    Sum(items) / (|items| as real)
  }

  /** A group takes one more item; texts of tuned profiles are chained. */
  function AddItem(r: BenchmarkResult, e: Event): BenchmarkResult {
    var conf := if AUTOTUNED in r.configurationMap
                then r.configurationMap[
                  AUTOTUNED := r.configurationMap[AUTOTUNED] + "\n" + ValueOf(e.configurationMap, AUTOTUNED)]
                else r.configurationMap;
    r.(configurationMap := conf, items := r.items + [e.item])
  }

  function NewGroup(e: Event): BenchmarkResult {
    var d := e.detail;
    BenchmarkResult(d.buildID, d.iterationID, d.iterationMap, d.configurationID, e.configurationMap, [e.item])
  }

  function AddResult(results: seq<BenchmarkResult>, e: Event): seq<BenchmarkResult> {
    var i := FindGroup(results, e.detail);
    if i < |results| then results[i := AddItem(results[i], e)] else results + [NewGroup(e)]
  }

  /** The items of the event's group, the event included. */
  function GroupItems(results: seq<BenchmarkResult>, e: Event): (items: seq<ResultItem>)
    ensures items != []
  {
    var i := FindGroup(results, e.detail);
    (if i < |results| then results[i].items else []) + [e.item]
  }

  /** The item is the last one of a group of its detail. */
  ghost predicate HoldsLast(results: seq<BenchmarkResult>, d: Detail, item: ResultItem) {
    exists g :: 0 <= g < |results| && InGroup(results[g], d) && results[g].items != []
                && results[g].items[|results[g].items| - 1] == item
  }

  lemma ItemIsLast(results: seq<BenchmarkResult>, e: Event)
    ensures HoldsLast(AddResult(results, e), e.detail, e.item)
  {
    var results', g := AddResult(results, e), FindGroup(results, e.detail);
    assert InGroup(results'[g], e.detail) && results'[g].items[|results'[g].items| - 1] == e.item;
  }

  // ---------------------------------------------------------------- best results

  predicate BestFor(b: BestResult, d: Detail, performanceKey: string) {
    b.iterationID == d.iterationID && b.buildID == d.buildID && b.performanceKey == performanceKey
  }

  function FindBest(best: seq<BestResult>, d: Detail, performanceKey: string): (i: nat)
    ensures i <= |best| && (i < |best| ==> BestFor(best[i], d, performanceKey))
    ensures forall j :: 0 <= j < i ==> !BestFor(best[j], d, performanceKey)
  {
    if best == [] || BestFor(best[0], d, performanceKey) then 0 else 1 + FindBest(best[1..], d, performanceKey)
  }

  function Candidate(e: Event, mean: real): BestResult {
    BestResult(e.detail.buildID, e.detail.iterationID, e.configurationMap, e.item.performanceKey, mean)
  }

  function AddBest(best: seq<BestResult>, minimize: bool, e: Event, mean: real): seq<BestResult> {
    var i := FindBest(best, e.detail, e.item.performanceKey);
    if i == |best| then best + [Candidate(e, mean)]
    else if IsBetter(minimize, best[i].performanceValue, mean) then best[i := Candidate(e, mean)]
    else best
  }

  /** The completed half of GetJobCompletedStatus. */
  function Completed(results: seq<BenchmarkResult>): nat {
    if results == [] then 0 else Completed(results[..|results| - 1]) + |results[|results| - 1].items|
  }

  // ---------------------------------------------------------------- the status in place

  class Benchmark {
    const spec: Spec
    const minimize: bool
    var hash: seq<IterationHash>
    var results: seq<BenchmarkResult>
    var bestResults: seq<BestResult>
    var jobCompleted: (nat, nat)

    constructor (spec: Spec, minimize: bool)
      ensures this.spec == spec && this.minimize == minimize
      ensures hash == [] && results == [] && bestResults == [] && jobCompleted == (0, 0)
    {
      this.spec, this.minimize := spec, minimize;
      hash, results, bestResults, jobCompleted := [], [], [], (0, 0);
    }

    method GetJobCompletedStatus() returns (completed: nat, total: nat)
      ensures completed == Completed(results) && total == |hash|
    {
      completed := 0;
      for i := 0 to |results|
        invariant completed == Completed(results[..i])
      {
        assert results[..i + 1][..i] == results[..i];
        completed := completed + |results[i].items|;
      }
      assert results[..|results|] == results;
      total := |hash|;
    }

    method PatchBenchmarkStatus(item: IterationHash)
      modifies this
      ensures hash == RecordHash(old(hash), item)
      ensures results == old(results) && bestResults == old(bestResults)
      ensures jobCompleted == if hash == old(hash) then old(jobCompleted) else (Completed(results), |hash|)
    {
      var i := 0;
      while i < |hash|
        invariant 0 <= i <= |hash| && forall j :: 0 <= j < i ==> hash[j].hash != item.hash
        invariant hash == old(hash) && results == old(results) && bestResults == old(bestResults)
        invariant jobCompleted == old(jobCompleted)
      {
        if hash[i].hash == item.hash { return; }
        i := i + 1;
      }
      hash := hash + [item];
      var completed, total := GetJobCompletedStatus();
      jobCompleted := (completed, total);
    }

    /** The event updateBenchmarkStatus makes of a published run; `tunedData` is the text for the
        profile of an auto-tuned job. */
    ghost function EventOf(jobName: string, podName: string, response: Response, tunedData: Option<string>): (e: Event)
      reads this
      ensures e.detail == DetailOf(hash, spec, jobName) && e.item.jobName == jobName && e.item.podName == podName
      ensures e.item.performanceKey == response.performanceKey && e.item.performanceValue == response.performanceValue
      ensures e.item.result == response.message && e.item.repetition == e.detail.repetition
      ensures forall k :: k in e.detail.configurationMap && k != AUTOTUNED ==>
                k in e.configurationMap && e.configurationMap[k] == e.detail.configurationMap[k]
      ensures tunedData.Some? ==> AUTOTUNED in e.configurationMap && e.configurationMap[AUTOTUNED] == tunedData.value
      ensures tunedData.None? ==> e.configurationMap == e.detail.configurationMap
    {
      var d := DetailOf(hash, spec, jobName);
      Event(d, if tunedData.Some? then d.configurationMap[AUTOTUNED := tunedData.value] else d.configurationMap,
            ResultItem(d.repetition, response.performanceKey, response.performanceValue, response.message, jobName,
                       podName))
    }

    method UpdateBenchmarkStatus(jobName: string, podName: string, response: Response, tunedData: Option<string>)
      modifies this
      ensures var e := old(EventOf(jobName, podName, response, tunedData));
        && results == AddResult(old(results), e)
        && bestResults == AddBest(old(bestResults), minimize, e, Mean(GroupItems(old(results), e)))
      ensures hash == old(hash) && jobCompleted == (Completed(results), |hash|)
      ensures var e := old(EventOf(jobName, podName, response, tunedData)); HoldsLast(results, e.detail, e.item)
    {
      var detail := GetDetailFromJobName(hash, spec, jobName);
      var configurationMap := detail.configurationMap;
      if tunedData.Some? { configurationMap := configurationMap[AUTOTUNED := tunedData.value]; }
      var e := Event(detail, configurationMap,
                     ResultItem(detail.repetition, response.performanceKey, response.performanceValue,
                                response.message, jobName, podName));
      hide AddResult, AddBest, Mean, GroupItems, DetailOf, FindGroup, InGroup, Completed, HoldsLast;
      var avg := PutResult(e);
      PutBest(e, avg);
      var completed, total := GetJobCompletedStatus();
      jobCompleted := (completed, total);
    }

    /** The result groups of updateBenchmarkStatus, and the mean it goes on with. */
    method PutResult(e: Event) returns (avg: real)
      modifies this`results
      ensures results == AddResult(old(results), e) && avg == Mean(GroupItems(old(results), e))
      ensures HoldsLast(results, e.detail, e.item)
    {
      ItemIsLast(results, e);
      hide HoldsLast;
      var index := IndexOfGroup(e.detail);
      avg := e.item.performanceValue;
      if index < |results| {
        var group := results[index];
        MeanOfMore(group.items, e.item);
        hide Mean, Sum;
        avg := AddUp(group.items, avg);
        avg := avg / ((|group.items| + 1) as real);
        if AUTOTUNED in group.configurationMap {
          var chained := group.configurationMap[AUTOTUNED] + "\n" + ValueOf(e.configurationMap, AUTOTUNED);
          group := group.(configurationMap := group.configurationMap[AUTOTUNED := chained]);
        }
        results := results[index := group.(items := group.items + [e.item])];
      } else {
        MeanOfMore([], e.item);
        assert [] + [e.item] == [e.item];
        results := results + [BenchmarkResult(e.detail.buildID, e.detail.iterationID, e.detail.iterationMap,
                                              e.detail.configurationID, e.configurationMap, [e.item])];
      }
    }

    /** The best results of updateBenchmarkStatus. */
    method PutBest(e: Event, avg: real)
      modifies this`bestResults
      ensures bestResults == AddBest(old(bestResults), minimize, e, avg)
      ensures exists i :: 0 <= i < |bestResults| && BestFor(bestResults[i], e.detail, e.item.performanceKey)
                          && if minimize then bestResults[i].performanceValue <= avg
                             else avg <= bestResults[i].performanceValue
    {
      var candidate := BestResult(e.detail.buildID, e.detail.iterationID, e.configurationMap, e.item.performanceKey,
                                  avg);
      var matchIndex := IndexOfBest(e.detail, e.item.performanceKey);
      if matchIndex == |bestResults| {
        bestResults := bestResults + [candidate];
      } else if IsBetter(minimize, bestResults[matchIndex].performanceValue, avg) {
        bestResults := bestResults[matchIndex := candidate];
      }
      assert BestFor(bestResults[matchIndex], e.detail, e.item.performanceKey);
    }

    method IndexOfGroup(detail: Detail) returns (index: nat)
      ensures index == FindGroup(results, detail)
    {
      index := 0;
      while index < |results| && !InGroup(results[index], detail)
        invariant index <= |results| && forall j :: 0 <= j < index ==> !InGroup(results[j], detail)
      {
        index := index + 1;
      }
    }

    method IndexOfBest(detail: Detail, performanceKey: string) returns (index: nat)
      ensures index == FindBest(bestResults, detail, performanceKey)
    {
      index := 0;
      while index < |bestResults| && !BestFor(bestResults[index], detail, performanceKey)
        invariant index <= |bestResults|
        invariant forall j :: 0 <= j < index ==> !BestFor(bestResults[j], detail, performanceKey)
      {
        index := index + 1;
      }
    }
  }

  method AddUp(items: seq<ResultItem>, start: real) returns (sum: real)
    ensures sum == start + Sum(items)
  {
    sum := start;
    for i := 0 to |items|
      invariant sum == start + Sum(items[..i])
    {
      assert items[..i + 1][..i] == items[..i];
      sum := sum + items[i].performanceValue;
    }
    assert items[..|items|] == items;
  }

  lemma SumGrows(items: seq<ResultItem>, item: ResultItem)
    ensures Sum(items + [item]) == Sum(items) + item.performanceValue
  {
    assert (items + [item])[..|items|] == items;
  }

  lemma MeanOfMore(items: seq<ResultItem>, item: ResultItem)
    ensures Mean(items + [item]) == (item.performanceValue + Sum(items)) / ((|items| + 1) as real)
    ensures Mean([item]) == item.performanceValue
  {
    hide Sum;
    SumGrows(items, item);
    SumOfOne(item);
    assert |items + [item]| == |items| + 1;
    OverOne(item.performanceValue);
  }

  lemma SumOfOne(item: ResultItem)
    ensures Sum([item]) == item.performanceValue
  {
    SumGrows([], item);
    assert [] + [item] == [item];
  }

  lemma OverOne(x: real)
    ensures x / 1.0 == x
  {
  }
}
