/** What the status holds after any history of published runs (controllers/job_tracker.go). */
module ResultHistory {
  import opened Text
  import opened JobIdentity
  import opened JobDetail
  import opened Ranking
  import opened Aggregation

  datatype Status = Status(results: seq<BenchmarkResult>, best: seq<BestResult>)

  /** One updateBenchmarkStatus. */
  function Publish(s: Status, minimize: bool, e: Event): Status {
    Status(AddResult(s.results, e), AddBest(s.best, minimize, e, Mean(GroupItems(s.results, e))))
  }

  function Replay(events: seq<Event>, minimize: bool): Status {
    if events == [] then Status([], [])
    else Publish(Replay(events[..|events| - 1], minimize), minimize, events[|events| - 1])
  }

  // ---------------------------------------------------------------- groups

  /** The items of one group's events, in the order they arrived. */
  function ItemsOf(events: seq<Event>, key: GroupKey): seq<ResultItem> {
    if events == [] then []
    else
      var last, init := events[|events| - 1], ItemsOf(events[..|events| - 1], key);
      if KeyOf(last.detail) == key then init + [last.item] else init
  }

  /** The group keys in the order they first arrived. */
  function Firsts(events: seq<Event>): (keys: seq<GroupKey>)
    ensures forall i, j :: 0 <= i < j < |keys| ==> keys[i] != keys[j]
  {
    if events == [] then []
    else
      var key, init := KeyOf(events[|events| - 1].detail), Firsts(events[..|events| - 1]);
      if key in init then init else init + [key]
  }

  ghost predicate GroupsMatch(events: seq<Event>, results: seq<BenchmarkResult>) {
    && |results| == |Firsts(events)|
    && forall g :: 0 <= g < |results| ==>
         ResultKey(results[g]) == Firsts(events)[g] && results[g].items == ItemsOf(events, Firsts(events)[g])
  }

  lemma {:induction false} UnseenHasNoItems(events: seq<Event>, key: GroupKey)
    requires key !in Firsts(events)
    ensures ItemsOf(events, key) == []
  {
    if events != [] { UnseenHasNoItems(events[..|events| - 1], key); }
  }

  lemma PublishKeepsGroups(events: seq<Event>, e: Event, results: seq<BenchmarkResult>)
    requires GroupsMatch(events, results)
    ensures GroupsMatch(events + [e], AddResult(results, e))
    ensures GroupItems(results, e) == ItemsOf(events + [e], KeyOf(e.detail))
  {
    var more, key := events + [e], KeyOf(e.detail);
    assert more[..|events|] == events;
    var i := FindGroup(results, e.detail);
    if i < |results| {
      assert Firsts(events)[i] == key;
    } else {
      assert forall g :: 0 <= g < |results| ==> ResultKey(results[g]) != key;
      UnseenHasNoItems(events, key);
    }
  }

  /** Group keys are unique and stand in first-arrival order; each group holds exactly the items of
      its own events, in arrival order. */
  lemma {:induction false} GroupsAreRepetitions(events: seq<Event>, minimize: bool)
    ensures GroupsMatch(events, Replay(events, minimize).results)
  {
    if events != [] {
      var init := events[..|events| - 1];
      GroupsAreRepetitions(init, minimize);
      PublishKeepsGroups(init, events[|events| - 1], Replay(init, minimize).results);
      assert init + [events[|events| - 1]] == events;
    }
  }

  /** The events of one group, in the order they arrived. */
  function GroupEvents(events: seq<Event>, key: GroupKey): (own: seq<Event>)
    ensures forall e :: e in own ==> e in events && KeyOf(e.detail) == key
  {
    if events == [] then []
    else
      var last, init := events[|events| - 1], GroupEvents(events[..|events| - 1], key);
      assert forall e :: e in events[..|events| - 1] ==> e in events;
      if KeyOf(last.detail) == key then init + [last] else init
  }

  /** The texts that the events say for the tuned profile, one below the other. */
  function ChainedTexts(own: seq<Event>): string {
    Join(seq(|own|, i requires 0 <= i < |own| => ValueOf(own[i].configurationMap, AUTOTUNED)), '\n')
  }

  /** A group shows the maps of its first event; only the text for the tuned profile, if that one had any,
      collects the texts of all its events. */
  ghost predicate ShowsMaps(r: BenchmarkResult, own: seq<Event>) {
    && own != []
    && r.iterationMap == own[0].detail.iterationMap
    && r.configurationMap.Keys == own[0].configurationMap.Keys
    && (forall k :: k in r.configurationMap && k != AUTOTUNED ==> r.configurationMap[k] == own[0].configurationMap[k])
    && (AUTOTUNED in r.configurationMap ==> r.configurationMap[AUTOTUNED] == ChainedTexts(own))
  }

  lemma {:induction false} JoinMore(parts: seq<string>, p: string, sep: char)
    requires parts != []
    ensures Join(parts + [p], sep) == Join(parts, sep) + [sep] + p
  {
    if |parts| > 1 {
      JoinMore(parts[1..], p, sep);
      assert (parts + [p])[1..] == parts[1..] + [p];
      assert parts[0] + [sep] + (Join(parts[1..], sep) + [sep] + p) == Join(parts, sep) + [sep] + p;
    } else {
      assert (parts + [p])[1..] == [p];
    }
  }

  lemma ShowsMore(r: BenchmarkResult, own: seq<Event>, e: Event)
    requires ShowsMaps(r, own)
    ensures ShowsMaps(AddItem(r, e), own + [e])
  {
    var texts := seq(|own|, i requires 0 <= i < |own| => ValueOf(own[i].configurationMap, AUTOTUNED));
    var more := own + [e];
    assert seq(|more|, i requires 0 <= i < |more| => ValueOf(more[i].configurationMap, AUTOTUNED))
        == texts + [ValueOf(e.configurationMap, AUTOTUNED)];
    hide Join;
    JoinMore(texts, ValueOf(e.configurationMap, AUTOTUNED), '\n');
  }

  lemma ShowsFirst(e: Event)
    ensures ShowsMaps(NewGroup(e), [e])
  {
    assert seq(1, i requires 0 <= i < 1 => ValueOf([e][i].configurationMap, AUTOTUNED))
        == [ValueOf(e.configurationMap, AUTOTUNED)];
  }

  lemma {:induction false} UnseenHasNoEvents(events: seq<Event>, key: GroupKey)
    requires key !in Firsts(events)
    ensures GroupEvents(events, key) == []
  {
    if events != [] { UnseenHasNoEvents(events[..|events| - 1], key); }
  }

  /** After every history each group shows the scenario values and the configuration of its first run,
      and all its runs' texts for the tuned profile. */
  lemma {:induction false} GroupsShowMaps(events: seq<Event>, minimize: bool)
    ensures forall g :: 0 <= g < |Replay(events, minimize).results| ==>
      var r := Replay(events, minimize).results[g]; ShowsMaps(r, GroupEvents(events, ResultKey(r)))
  {
    if events != [] {
      var init, e := events[..|events| - 1], events[|events| - 1];
      GroupsShowMaps(init, minimize);
      GroupsAreRepetitions(init, minimize);
      var results := Replay(init, minimize).results;
      var i := FindGroup(results, e.detail);
      var results' := AddResult(results, e);
      assert Replay(events, minimize).results == results';
      hide ShowsMaps, Replay;
      forall g | 0 <= g < |results'| ensures ShowsMaps(results'[g], GroupEvents(events, ResultKey(results'[g]))) {
        if g == i < |results| {
          ShowsMore(results[i], GroupEvents(init, KeyOf(e.detail)), e);
        } else if g == i {
          assert forall g :: 0 <= g < |results| ==> ResultKey(results[g]) != KeyOf(e.detail);
          UnseenHasNoEvents(init, KeyOf(e.detail));
          ShowsFirst(e);
        } else if i < |results| {
          assert results[i] != results[g] by { assert Firsts(init)[i] != Firsts(init)[g]; }
        }
      }
    }
  }

  /** Every event adds exactly one item. */
  lemma {:induction false} CompletedCounts(events: seq<Event>, minimize: bool)
    ensures Completed(Replay(events, minimize).results) == |events|
  {
    if events != [] {
      var init, e := events[..|events| - 1], events[|events| - 1];
      CompletedCounts(init, minimize);
      var results := Replay(init, minimize).results;
      var i := FindGroup(results, e.detail);
      if i < |results| {
        CompletedAfter(results, i, AddItem(results[i], e));
      } else {
        assert (results + [NewGroup(e)])[..|results|] == results;
      }
    }
  }

  lemma {:induction false} CompletedAfter(results: seq<BenchmarkResult>, i: nat, r: BenchmarkResult)
    requires i < |results|
    ensures Completed(results[i := r]) == Completed(results) - |results[i].items| + |r.items|
  {
    var n := |results| - 1;
    if i < n {
      CompletedAfter(results[..n], i, r);
      assert results[i := r][..n] == results[..n][i := r];
    } else {
      assert results[i := r][..n] == results[..n];
    }
  }

  // ---------------------------------------------------------------- best results

  datatype BestKey = BestKey(buildID: string, iterationID: string, performanceKey: string)

  function BestKeyOf(e: Event): BestKey {
    BestKey(e.detail.buildID, e.detail.iterationID, e.item.performanceKey)
  }

  function EntryKey(b: BestResult): BestKey {
    BestKey(b.buildID, b.iterationID, b.performanceKey)
  }

  /** The running mean of the last event's group. */
  function RunningMean(events: seq<Event>): real
    requires events != []
  {
    Mean(ItemsOf(events, KeyOf(events[|events| - 1].detail)))
  }

  /** All running means one best-result entry was offered, in order, and the configurations they
      were reached with. */
  function Offers(events: seq<Event>, key: BestKey): seq<(real, Label)> {
    if events == [] then []
    else
      var last, init := events[|events| - 1], Offers(events[..|events| - 1], key);
      if BestKeyOf(last) == key then init + [(RunningMean(events), last.configurationMap)] else init
  }

  function Values(offers: seq<(real, Label)>): (r: seq<real>)
    ensures |r| == |offers| && forall i :: 0 <= i < |r| ==> r[i] == offers[i].0
  {
    seq(|offers|, i requires 0 <= i < |offers| => offers[i].0)
  }

  /** The entry is offer number r, and that is the earliest best of them. */
  ghost predicate IsOffer(minimize: bool, b: BestResult, offers: seq<(real, Label)>, r: nat) {
    && EarliestBest(minimize, Values(offers), r)
    && b.performanceValue == offers[r].0 && b.configurationMap == offers[r].1
  }

  /** The entry of one key: none if nothing was offered, else the earliest best of all offers. */
  ghost predicate EntryMatches(minimize: bool, best: seq<BestResult>, key: BestKey, offers: seq<(real, Label)>) {
    && (forall i, j :: 0 <= i < |best| && 0 <= j < |best| && EntryKey(best[i]) == EntryKey(best[j]) == key ==> i == j)
    && (offers == [] ==> forall i :: 0 <= i < |best| ==> EntryKey(best[i]) != key)
    && (offers != [] ==>
        exists i: nat, r: nat :: i < |best| && EntryKey(best[i]) == key && IsOffer(minimize, best[i], offers, r))
  }

  lemma OtherEntriesKept(minimize: bool, best: seq<BestResult>, e: Event, mean: real, key: BestKey,
                         offers: seq<(real, Label)>)
    requires EntryMatches(minimize, best, key, offers) && key != BestKeyOf(e)
    ensures EntryMatches(minimize, AddBest(best, minimize, e, mean), key, offers)
  {
    var best' := AddBest(best, minimize, e, mean);
    if offers != [] {
      var i: nat, r: nat :| i < |best| && EntryKey(best[i]) == key && IsOffer(minimize, best[i], offers, r);
      assert best'[i] == best[i];
    }
  }

  lemma OwnEntryOffered(minimize: bool, best: seq<BestResult>, e: Event, mean: real, offers: seq<(real, Label)>)
    requires EntryMatches(minimize, best, BestKeyOf(e), offers)
    ensures EntryMatches(minimize, AddBest(best, minimize, e, mean), BestKeyOf(e),
                         offers + [(mean, e.configurationMap)])
  {
    var key, best' := BestKeyOf(e), AddBest(best, minimize, e, mean);
    var more := offers + [(mean, e.configurationMap)];
    var n := FindBest(best, e.detail, e.item.performanceKey);
    if offers == [] {
      assert n < |best| ==> EntryKey(best[n]) == key;
      assert IsOffer(minimize, best'[n], more, 0);
      assert EntryKey(best'[n]) == key;
    } else {
      var i: nat, r: nat :| i < |best| && EntryKey(best[i]) == key && IsOffer(minimize, best[i], offers, r);
      assert BestFor(best[i], e.detail, e.item.performanceKey);
      assert n == i;
      var r' := BetterOffer(minimize, best[i], e, mean, offers, r);
      hide IsOffer, IsBetter;
      assert EntryKey(best'[i]) == key && IsOffer(minimize, best'[i], more, r');
    }
  }

  /** One more offer for an entry: it is taken if it is strictly better. */
  lemma BetterOffer(minimize: bool, b: BestResult, e: Event, mean: real, offers: seq<(real, Label)>, r: nat)
    returns (r': nat)
    requires IsOffer(minimize, b, offers, r)
    ensures IsOffer(minimize, if IsBetter(minimize, b.performanceValue, mean) then Candidate(e, mean) else b,
                    offers + [(mean, e.configurationMap)], r')
  {
    var more := offers + [(mean, e.configurationMap)];
    assert Values(more)[..|offers|] == Values(offers);
    BestExtends(minimize, Values(more), r);
    r' := if IsBetter(minimize, offers[r].0, mean) then |offers| else r;
    hide EarliestBest;
  }

  /** For every history and every build, scenario and performance key there is at most one best
      result; it holds the best of all running means ever offered for that key, with the
      configuration that reached it first. */
  lemma {:induction false} BestOverHistory(events: seq<Event>, minimize: bool, key: BestKey)
    ensures EntryMatches(minimize, Replay(events, minimize).best, key, Offers(events, key))
  {
    if events != [] {
      var init, e := events[..|events| - 1], events[|events| - 1];
      BestOverHistory(init, minimize, key);
      var s := Replay(init, minimize);
      GroupsAreRepetitions(init, minimize);
      PublishKeepsGroups(init, e, s.results);
      assert init + [e] == events;
      var mean := Mean(GroupItems(s.results, e));
      assert mean == RunningMean(events);
      hide EntryMatches, AddBest, Mean;
      if key == BestKeyOf(e) {
        OwnEntryOffered(minimize, s.best, e, mean, Offers(init, key));
      } else {
        OtherEntriesKept(minimize, s.best, e, mean, key, Offers(init, key));
      }
    }
  }

  // ---------------------------------------------------------------- best results against final means

  /** A group of the build and scenario of a best-result key. */
  predicate Concerns(r: BenchmarkResult, key: BestKey) {
    r.buildID == key.buildID && r.iterationID == key.iterationID && r.items != []
  }

  ghost predicate HasMean(results: seq<BenchmarkResult>, key: BestKey, value: real) {
    exists g :: 0 <= g < |results| && Concerns(results[g], key) && Mean(results[g].items) == value
  }

  /** No group's current mean beats the entry. */
  ghost predicate NoneBeats(minimize: bool, results: seq<BenchmarkResult>, key: BestKey, value: real) {
    forall g :: 0 <= g < |results| && Concerns(results[g], key) ==> AsGood(minimize, value, Mean(results[g].items))
  }

  /** What iteration/README.md promises: the entry is the best of the averages over all runs so far. */
  ghost predicate BestAverage(minimize: bool, results: seq<BenchmarkResult>, key: BestKey, value: real) {
    HasMean(results, key, value) && NoneBeats(minimize, results, key, value)
  }

  /** The value of the entry after an update. */
  function NextBest(minimize: bool, best: real, mean: real): real {
    if AsGood(minimize, best, mean) then best else mean
  }

  lemma NoneBeatsKept(minimize: bool, results: seq<BenchmarkResult>, e: Event, best: real)
    requires NoneBeats(minimize, results, BestKeyOf(e), best)
    ensures NoneBeats(minimize, AddResult(results, e), BestKeyOf(e),
                      NextBest(minimize, best, Mean(GroupItems(results, e))))
  {
    hide Mean;
    var results', own := AddResult(results, e), FindGroup(results, e.detail);
    var best' := NextBest(minimize, best, Mean(GroupItems(results, e)));
    forall g | 0 <= g < |results'| && Concerns(results'[g], BestKeyOf(e))
      ensures AsGood(minimize, best', Mean(results'[g].items))
    {
      if g == own {
        assert results'[g].items == GroupItems(results, e);
      } else {
        assert results'[g] == results[g];
      }
    }
  }

  /** Exactly when an update leaves the entry at the best average: the new mean is no worse than the
      entry, or another group still averages what the entry says. */
  lemma BestAverageExactly(minimize: bool, results: seq<BenchmarkResult>, e: Event, best: real)
    requires NoneBeats(minimize, results, BestKeyOf(e), best)
    ensures var mean, own := Mean(GroupItems(results, e)), FindGroup(results, e.detail);
      BestAverage(minimize, AddResult(results, e), BestKeyOf(e), NextBest(minimize, best, mean))
      <==> AsGood(minimize, mean, best)
           || exists g :: 0 <= g < |results| && g != own
                            && Concerns(results[g], BestKeyOf(e)) && Mean(results[g].items) == best
  {
    NoneBeatsKept(minimize, results, e, best);
    HasMeanAfter(results, e, NextBest(minimize, best, Mean(GroupItems(results, e))));
    hide Mean, AddResult, GroupItems, Concerns;
  }

  /** Which averages there are after an update: the new one, and those of the other groups. */
  lemma HasMeanAfter(results: seq<BenchmarkResult>, e: Event, value: real)
    ensures HasMean(AddResult(results, e), BestKeyOf(e), value)
      <==> Mean(GroupItems(results, e)) == value
           || exists g :: 0 <= g < |results| && g != FindGroup(results, e.detail)
                          && Concerns(results[g], BestKeyOf(e)) && Mean(results[g].items) == value
  {
    hide Mean;
    var results', key, own := AddResult(results, e), BestKeyOf(e), FindGroup(results, e.detail);
    assert Concerns(results'[own], key) && results'[own].items == GroupItems(results, e);
    forall g | 0 <= g < |results| && g != own ensures results'[g] == results[g] { }
    hide AddResult, GroupItems, Concerns;
    if g :| 0 <= g < |results'| && Concerns(results'[g], key) && Mean(results'[g].items) == value {
      assert g == own || results'[g] == results[g];
    }
    if g :| 0 <= g < |results| && g != own && Concerns(results[g], key) && Mean(results[g].items) == value {
      assert Concerns(results'[g], key) && Mean(results'[g].items) == value;
    }
  }

  /** The running mean of the event's group is no worse than that group's mean before. */
  ghost predicate NotWorse(minimize: bool, results: seq<BenchmarkResult>, e: Event) {
    var g := FindGroup(results, e.detail);
    g < |results| && results[g].items != [] ==>
      AsGood(minimize, Mean(GroupItems(results, e)), Mean(results[g].items))
  }

  /** All runs of the key's build and scenario report under one performance key. */
  predicate OneKey(events: seq<Event>, key: BestKey) {
    forall n :: 0 <= n < |events| && OfScenario(events[n], key) ==> events[n].item.performanceKey == key.performanceKey
  }

  predicate OfScenario(e: Event, key: BestKey) {
    e.detail.buildID == key.buildID && e.detail.iterationID == key.iterationID
  }

  ghost predicate Steady(events: seq<Event>, minimize: bool, key: BestKey) {
    && OneKey(events, key)
    && forall n :: 0 <= n < |events| ==> NotWorse(minimize, Replay(events[..n], minimize).results, events[n])
  }

  lemma SteadyInit(events: seq<Event>, minimize: bool, key: BestKey)
    requires events != [] && Steady(events, minimize, key)
    ensures Steady(events[..|events| - 1], minimize, key)
    ensures NotWorse(minimize, Replay(events[..|events| - 1], minimize).results, events[|events| - 1])
  {
    hide Replay, NotWorse;
    var init := events[..|events| - 1];
    forall n | 0 <= n < |init| ensures init[..n] == events[..n] && init[n] == events[n] { }
  }

  lemma OtherGroupsKept(minimize: bool, results: seq<BenchmarkResult>, e: Event, key: BestKey, value: real)
    requires BestAverage(minimize, results, key, value)
    requires !OfScenario(e, key)
    ensures BestAverage(minimize, AddResult(results, e), key, value)
  {
    hide Mean;
    var results' := AddResult(results, e);
    var g :| 0 <= g < |results| && Concerns(results[g], key) && Mean(results[g].items) == value;
    assert results'[g] == results[g];
  }

  lemma OwnGroupKept(minimize: bool, results: seq<BenchmarkResult>, e: Event, best: real)
    requires BestAverage(minimize, results, BestKeyOf(e), best) && NotWorse(minimize, results, e)
    ensures BestAverage(minimize, AddResult(results, e), BestKeyOf(e),
                        NextBest(minimize, best, Mean(GroupItems(results, e))))
  {
    hide Mean;
    BestAverageExactly(minimize, results, e, best);
    var g :| 0 <= g < |results| && Concerns(results[g], BestKeyOf(e)) && Mean(results[g].items) == best;
  }

  lemma FirstGroupIsBest(minimize: bool, results: seq<BenchmarkResult>, e: Event)
    requires forall g :: 0 <= g < |results| ==> !Concerns(results[g], BestKeyOf(e))
    ensures BestAverage(minimize, AddResult(results, e), BestKeyOf(e), Mean(GroupItems(results, e)))
  {
    hide Mean;
    var g := FindGroup(results, e.detail);
    assert AddResult(results, e)[g].items == GroupItems(results, e);
    assert Concerns(AddResult(results, e)[g], BestKeyOf(e));
  }

  lemma NoConcern(results: seq<BenchmarkResult>, e: Event, key: BestKey)
    requires forall g :: 0 <= g < |results| ==> !Concerns(results[g], key)
    requires !OfScenario(e, key)
    ensures forall g :: 0 <= g < |AddResult(results, e)| ==> !Concerns(AddResult(results, e)[g], key)
  {
  }

  // ---------------------------------------------------------------- best results over whole histories

  /** No group beats an entry of the key, and without an entry no group concerns the key. */
  ghost predicate Unbeaten(minimize: bool, s: Status, key: BestKey) {
    && (forall i :: 0 <= i < |s.best| && EntryKey(s.best[i]) == key ==>
          NoneBeats(minimize, s.results, key, s.best[i].performanceValue))
    && ((forall i :: 0 <= i < |s.best| ==> EntryKey(s.best[i]) != key) ==>
          forall g :: 0 <= g < |s.results| ==> !Concerns(s.results[g], key))
    && (forall i, j :: 0 <= i < |s.best| && 0 <= j < |s.best| && EntryKey(s.best[i]) == EntryKey(s.best[j]) == key ==>
          i == j)
  }

  lemma OtherNoneBeats(minimize: bool, results: seq<BenchmarkResult>, e: Event, key: BestKey, value: real)
    requires NoneBeats(minimize, results, key, value) && !OfScenario(e, key)
    ensures NoneBeats(minimize, AddResult(results, e), key, value)
  {
    hide Mean;
    var results' := AddResult(results, e);
    forall g | 0 <= g < |results'| && Concerns(results'[g], key)
      ensures AsGood(minimize, value, Mean(results'[g].items)) {
      assert g < |results| && results'[g] == results[g];
    }
  }

  lemma OtherPublishUnbeaten(minimize: bool, s: Status, e: Event, key: BestKey)
    requires Unbeaten(minimize, s, key) && !OfScenario(e, key)
    ensures Unbeaten(minimize, Publish(s, minimize, e), key)
  {
    hide NoneBeats, Mean, Concerns, AddResult;
    var s' := Publish(s, minimize, e);
    forall i | 0 <= i < |s'.best| && EntryKey(s'.best[i]) == key
      ensures i < |s.best| && s'.best[i] == s.best[i]
      ensures NoneBeats(minimize, s'.results, key, s'.best[i].performanceValue)
    {
      OtherNoneBeats(minimize, s.results, e, key, s.best[i].performanceValue);
    }
    if forall i :: 0 <= i < |s'.best| ==> EntryKey(s'.best[i]) != key {
      forall i | 0 <= i < |s.best| ensures EntryKey(s.best[i]) != key { assert EntryKey(s'.best[i]) != key; }
      NoConcern(s.results, e, key);
    }
  }

  lemma OwnPublishUnbeaten(minimize: bool, s: Status, e: Event)
    requires Unbeaten(minimize, s, BestKeyOf(e))
    ensures Unbeaten(minimize, Publish(s, minimize, e), BestKeyOf(e))
  {
    hide NoneBeats, Mean, Concerns, AddResult, GroupItems;
    var s', n, key := Publish(s, minimize, e), FindBest(s.best, e.detail, e.item.performanceKey), BestKeyOf(e);
    if n == |s.best| {
      assert forall i :: 0 <= i < |s.best| ==> EntryKey(s.best[i]) != key;
      FirstGroupIsBest(minimize, s.results, e);
    } else {
      assert EntryKey(s.best[n]) == key;
      NoneBeatsKept(minimize, s.results, e, s.best[n].performanceValue);
    }
    assert EntryKey(s'.best[n]) == key;
  }

  /** After every history with one performance key for its build and scenario, no average beats the entry. */
  lemma {:induction false} EntriesUnbeaten(events: seq<Event>, minimize: bool, key: BestKey)
    requires OneKey(events, key)
    ensures Unbeaten(minimize, Replay(events, minimize), key)
  {
    if events != [] {
      var init, e := events[..|events| - 1], events[|events| - 1];
      EntriesUnbeaten(init, minimize, key);
      hide Unbeaten, Publish;
      if OfScenario(e, key) {
        OwnPublishUnbeaten(minimize, Replay(init, minimize), e);
      } else {
        OtherPublishUnbeaten(minimize, Replay(init, minimize), e, key);
      }
    }
  }

  /** No running mean that was ever offered for the key beats `value`. */
  ghost predicate NoOfferBeats(minimize: bool, offers: seq<(real, Label)>, value: real) {
    forall n :: 0 <= n < |offers| ==> AsGood(minimize, value, offers[n].0)
  }

  /** The entry of a key is the earliest best of the running means offered for it: the least of them if
      minimizing, else the greatest, with the configuration that reached it first. */
  lemma EntryIsBestOffer(events: seq<Event>, minimize: bool, key: BestKey, i: nat) returns (r: nat)
    requires i < |Replay(events, minimize).best| && EntryKey(Replay(events, minimize).best[i]) == key
    ensures var b, offers := Replay(events, minimize).best[i], Offers(events, key);
      && r < |offers| && offers[r] == (b.performanceValue, b.configurationMap)
      && (forall n :: 0 <= n < |offers| ==>
            if minimize then b.performanceValue <= offers[n].0 else offers[n].0 <= b.performanceValue)
      && (forall n :: 0 <= n < r ==>
            if minimize then b.performanceValue < offers[n].0 else offers[n].0 < b.performanceValue)
  {
    BestOverHistory(events, minimize, key);
    hide Replay, Offers;
    var best, offers := Replay(events, minimize).best, Offers(events, key);
    assert offers != [];
    var k: nat, q: nat :| k < |best| && EntryKey(best[k]) == key && IsOffer(minimize, best[k], offers, q);
    assert k == i;
    r := q;
    var values := Values(offers);
    forall n | 0 <= n < |offers| ensures values[n] == offers[n].0 { }
  }

  /** Exactly when a best result is the best average, after any history with one performance key: some
      configuration ends up averaging no worse than every running mean there ever was. */
  lemma BestAverageOverHistory(events: seq<Event>, minimize: bool, key: BestKey, i: nat)
    requires OneKey(events, key)
    requires i < |Replay(events, minimize).best| && EntryKey(Replay(events, minimize).best[i]) == key
    ensures var s := Replay(events, minimize);
      BestAverage(minimize, s.results, key, s.best[i].performanceValue)
      <==> exists g :: 0 <= g < |s.results| && Concerns(s.results[g], key)
                       && NoOfferBeats(minimize, Offers(events, key), Mean(s.results[g].items))
  {
    EntriesUnbeaten(events, minimize, key);
    var r := EntryIsBestOffer(events, minimize, key, i);
    var s, offers := Replay(events, minimize), Offers(events, key);
    var value := s.best[i].performanceValue;
    assert NoneBeats(minimize, s.results, key, value);
    hide Replay, Offers, Mean, Concerns, Unbeaten;
    if g :| 0 <= g < |s.results| && Concerns(s.results[g], key)
            && NoOfferBeats(minimize, offers, Mean(s.results[g].items)) {
      assert AsGood(minimize, Mean(s.results[g].items), offers[r].0);
      assert AsGood(minimize, value, Mean(s.results[g].items));
      assert Mean(s.results[g].items) == value;
    }
  }

  /** The same for every history, also when a scenario reports under several performance keys: the
      configuration's average must have been offered for the key, and no other average may beat it. */
  lemma BestAverageInGeneral(events: seq<Event>, minimize: bool, key: BestKey, i: nat)
    requires i < |Replay(events, minimize).best| && EntryKey(Replay(events, minimize).best[i]) == key
    ensures var s, offers := Replay(events, minimize), Offers(events, key);
      BestAverage(minimize, s.results, key, s.best[i].performanceValue)
      <==> exists g, n :: 0 <= g < |s.results| && Concerns(s.results[g], key) && 0 <= n < |offers|
                          && offers[n].0 == Mean(s.results[g].items)
                          && NoOfferBeats(minimize, offers, offers[n].0)
                          && NoneBeats(minimize, s.results, key, offers[n].0)
  {
    var r := EntryIsBestOffer(events, minimize, key, i);
    var s, offers := Replay(events, minimize), Offers(events, key);
    var value := s.best[i].performanceValue;
    hide Replay, Offers, Mean, Concerns, NoneBeats;
    if g, n :| 0 <= g < |s.results| && Concerns(s.results[g], key) && 0 <= n < |offers|
               && offers[n].0 == Mean(s.results[g].items)
               && NoOfferBeats(minimize, offers, offers[n].0) && NoneBeats(minimize, s.results, key, offers[n].0) {
      assert AsGood(minimize, offers[n].0, offers[r].0) && AsGood(minimize, value, offers[n].0);
      assert value == offers[n].0;
    }
    if BestAverage(minimize, s.results, key, value) {
      var g :| 0 <= g < |s.results| && Concerns(s.results[g], key) && Mean(s.results[g].items) == value;
      assert offers[r].0 == Mean(s.results[g].items);
    }
  }

  /** In every status that such a history reaches, this is exactly when one more run leaves the entry at
      the best average: the new mean is no worse than the entry, or another group averages the entry. */
  lemma NextRunExactly(events: seq<Event>, e: Event, minimize: bool, i: nat)
    requires OneKey(events, BestKeyOf(e))
    requires i < |Replay(events, minimize).best| && EntryKey(Replay(events, minimize).best[i]) == BestKeyOf(e)
    ensures var s, s' := Replay(events, minimize), Replay(events + [e], minimize);
      var best, mean, own := s.best[i].performanceValue, Mean(GroupItems(s.results, e)), FindGroup(s.results, e.detail);
      && i < |s'.best| && EntryKey(s'.best[i]) == BestKeyOf(e)
      && s'.best[i].performanceValue == NextBest(minimize, best, mean)
      && (BestAverage(minimize, s'.results, BestKeyOf(e), s'.best[i].performanceValue)
          <==> AsGood(minimize, mean, best)
               || exists g :: 0 <= g < |s.results| && g != own && Concerns(s.results[g], BestKeyOf(e))
                              && Mean(s.results[g].items) == best)
  {
    EntriesUnbeaten(events, minimize, BestKeyOf(e));
    ReplayMore(events, e, minimize);
    var s := Replay(events, minimize);
    hide Replay, Mean, AddResult, GroupItems, Concerns, NoneBeats;
    var n := FindBest(s.best, e.detail, e.item.performanceKey);
    assert BestFor(s.best[i], e.detail, e.item.performanceKey);
    assert n < |s.best| && EntryKey(s.best[n]) == BestKeyOf(e) && n == i;
    BestAverageExactly(minimize, s.results, e, s.best[i].performanceValue);
    hide BestAverage, FindGroup;
  }

  // ---------------------------------------------------------------- means that never get worse

  ghost predicate AllBest(minimize: bool, s: Status, key: BestKey) {
    forall i :: 0 <= i < |s.best| && EntryKey(s.best[i]) == key ==>
      BestAverage(minimize, s.results, key, s.best[i].performanceValue)
  }

  lemma OtherPublishIsBest(minimize: bool, s: Status, e: Event, key: BestKey)
    requires AllBest(minimize, s, key) && !OfScenario(e, key)
    ensures AllBest(minimize, Publish(s, minimize, e), key)
  {
    hide BestAverage, Mean, Concerns, AddResult;
    var s' := Publish(s, minimize, e);
    forall i | 0 <= i < |s'.best| && EntryKey(s'.best[i]) == key
      ensures BestAverage(minimize, s'.results, key, s'.best[i].performanceValue)
    {
      assert i < |s.best| && s'.best[i] == s.best[i];
      OtherGroupsKept(minimize, s.results, e, key, s.best[i].performanceValue);
    }
  }

  lemma OwnPublishIsBest(minimize: bool, s: Status, e: Event)
    requires Unbeaten(minimize, s, BestKeyOf(e)) && AllBest(minimize, s, BestKeyOf(e))
      && NotWorse(minimize, s.results, e)
    ensures AllBest(minimize, Publish(s, minimize, e), BestKeyOf(e))
  {
    hide BestAverage, NoneBeats, Mean, Concerns, AddResult, NotWorse, GroupItems;
    var s', n, key := Publish(s, minimize, e), FindBest(s.best, e.detail, e.item.performanceKey), BestKeyOf(e);
    if n == |s.best| {
      assert forall i :: 0 <= i < |s.best| ==> EntryKey(s.best[i]) != key;
      FirstGroupIsBest(minimize, s.results, e);
    } else {
      assert EntryKey(s.best[n]) == key;
      OwnGroupKept(minimize, s.results, e, s.best[n].performanceValue);
    }
  }

  /** When running means never get worse, which includes groups of one item, every entry is the best
      average after every history with one performance key for its build and scenario. */
  lemma {:induction false} SteadyMeansBestAverage(events: seq<Event>, minimize: bool, key: BestKey)
    requires Steady(events, minimize, key)
    ensures AllBest(minimize, Replay(events, minimize), key)
  {
    if events != [] {
      var init, e := events[..|events| - 1], events[|events| - 1];
      SteadyInit(events, minimize, key);
      SteadyMeansBestAverage(init, minimize, key);
      EntriesUnbeaten(init, minimize, key);
      hide AllBest, Unbeaten, Publish, NotWorse;
      if OfScenario(e, key) {
        OwnPublishIsBest(minimize, Replay(init, minimize), e);
      } else {
        OtherPublishIsBest(minimize, Replay(init, minimize), e, key);
      }
    }
  }

  lemma ReplayMore(events: seq<Event>, e: Event, minimize: bool)
    ensures Replay(events + [e], minimize) == Publish(Replay(events, minimize), minimize, e)
  {
    assert (events + [e])[..|events|] == events;
  }

  /** Without that, the promise fails: a configuration that once ran at 10 and then at 0 stays the
      best result with 10, although it averages 5 and another configuration averages 6. */
  lemma BestNeedNotBeBestAverage(d: Detail, d': Detail, item: ResultItem)
    requires d.buildID == d'.buildID && d.iterationID == d'.iterationID && d.configurationID != d'.configurationID
    ensures var a, b, c :=
        Event(d, map[], item.(performanceValue := 10.0)),
        Event(d, map[], item.(performanceValue := 0.0)),
                           Event(d', map[], item.(performanceValue := 6.0));
      && var s := Replay([a, b, c], false);
      && s.best == [Candidate(a, 10.0)] && BestKeyOf(a) == BestKeyOf(b) == BestKeyOf(c)
      && !BestAverage(false, s.results, BestKeyOf(a), 10.0) && BestAverage(false, s.results, BestKeyOf(a), 6.0)
  {
    var a, b, c := Event(d, map[], item.(performanceValue := 10.0)), Event(d, map[], item.(performanceValue := 0.0)),
                   Event(d', map[], item.(performanceValue := 6.0));
    ThreeReplayed(a, b, c);
    ThreeMeans(a.item, b.item, c.item);
    hide Replay, Mean, Publish;
    ThreeEvents(a, b, c, NewGroup(a));
  }

  lemma ThreeReplayed(a: Event, b: Event, c: Event)
    ensures Replay([a, b, c], false) == Publish(Publish(Publish(Status([], []), false, a), false, b), false, c)
  {
    assert [] + [a] == [a] && [a] + [b] == [a, b] && [a, b] + [c] == [a, b, c];
    ReplayMore([], a, false);
    ReplayMore([a], b, false);
    ReplayMore([a, b], c, false);
    hide Publish;
  }

  lemma ThreeMeans(a: ResultItem, b: ResultItem, c: ResultItem)
    requires a.performanceValue == 10.0 && b.performanceValue == 0.0 && c.performanceValue == 6.0
    ensures Mean([a]) == 10.0 && Mean([a, b]) == 5.0 && Mean([c]) == 6.0
  {
    MeanOfMore([], a);
    MeanOfMore([a], b);
    MeanOfMore([], c);
    SumGrows([], a);
    assert [] + [a] == [a] && [a] + [b] == [a, b];
    hide Mean, Sum;
  }

  lemma ThreeEvents(a: Event, b: Event, c: Event, group: BenchmarkResult)
    requires a.detail == b.detail && BestKeyOf(a) == BestKeyOf(b) == BestKeyOf(c)
    requires a.detail.configurationID != c.detail.configurationID && group == NewGroup(a)
    requires a.configurationMap == map[]
    requires Mean([a.item]) == 10.0 && Mean([a.item, b.item]) == 5.0 && Mean([c.item]) == 6.0
    ensures var s := Publish(Publish(Publish(Status([], []), false, a), false, b), false, c);
      && s.best == [Candidate(a, 10.0)]
      && !BestAverage(false, s.results, BestKeyOf(a), 10.0) && BestAverage(false, s.results, BestKeyOf(a), 6.0)
  {
    hide Mean;
    var s1 := Publish(Status([], []), false, a);
    assert GroupItems([], a) == [a.item];
    assert s1 == Status([group], [Candidate(a, 10.0)]);
    var s2 := Publish(s1, false, b);
    assert GroupItems([group], b) == [a.item, b.item];
    var more := AddItem(group, b);
    assert s2 == Status([more], [Candidate(a, 10.0)]);
    var s3 := Publish(s2, false, c);
    assert FindGroup([more], c.detail) == 1;
    assert GroupItems([more], c) == [c.item];
    assert s3 == Status([more, NewGroup(c)], [Candidate(a, 10.0)]);
    assert more.items == [a.item, b.item] && s3.results[1].items == [c.item];
    assert Concerns(s3.results[1], BestKeyOf(a));
  }
}
