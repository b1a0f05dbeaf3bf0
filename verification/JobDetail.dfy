/** Finding a job's build, repetition and label split from its name: the recorded hashes and
    GetDetailFromJobName (controllers/common.go). */
module JobDetail {
  import opened Text
  import opened JobIdentity

  // ---------------------------------------------------------------- splitting at the delimiter

  /** strings.Split: leftmost occurrences first, without overlap. */
  function SplitOn(s: string, sep: string): (parts: seq<string>)
    requires sep != ""
    ensures |parts| > 0
    decreases |s|
  {
    if |s| < |sep| then [s]
    else if s[..|sep|] == sep then [""] + SplitOn(s[|sep|..], sep)
    else var rest := SplitOn(s[1..], sep); [[s[0]] + rest[0]] + rest[1..]
  }

  function LastPiece(s: string): string {
    var parts := SplitOn(s, HASH_DELIMIT);
    parts[|parts| - 1]
  }

  predicate Ends(name: string) {
    |name| >= 5 && name[|name| - 5..] == "-cpeh"
  }

  /** How many times the name ends in "-cpeh" over and over. */
  function Trail(name: string): nat {
    if Ends(name) then 1 + Trail(name[..|name| - 5]) else 0
  }

  function Repeats(t: nat): (s: string)
    ensures |s| == 5 * t
  {
    if t == 0 then "" else "-cpeh" + Repeats(t - 1)
  }

  lemma {:induction false} RepeatsEnd(t: nat)
    ensures Repeats(t) + "-cpeh" == Repeats(t + 1)
  {
    if t > 0 {
      RepeatsEnd(t - 1);
      assert "-cpeh" + Repeats(t - 1) + "-cpeh" == "-cpeh" + (Repeats(t - 1) + "-cpeh");
    }
  }

  /** The repetitions at the end of a name, and what stands before them does not end in one more. */
  lemma {:induction false} TrailFits(name: string) returns (pre: string)
    ensures name == pre + Repeats(Trail(name)) && !Ends(pre)
  {
    if Ends(name) {
      var most := name[..|name| - 5];
      pre := TrailFits(most);
      assert name == most + "-cpeh";
      hide Ends, Repeats;
      RepeatsEnd(Trail(most));
      assert pre + Repeats(Trail(most)) + "-cpeh" == pre + (Repeats(Trail(most)) + "-cpeh");
    } else {
      pre := name;
    }
  }

  /** Cutting characters off the front of a name. */
  lemma {:induction false} TrailDrop(name: string, d: nat)
    requires d <= |name|
    ensures Trail(name[d..]) == if 5 * Trail(name) <= |name| - d then Trail(name) else (|name| - d) / 5
    decreases |name|
  {
    var pre := TrailFits(name);
    hide Repeats;
    var cut := name[d..];
    if |cut| >= 5 {
      assert cut[|cut| - 5..] == name[|name| - 5..];
      if Ends(name) {
        assert cut[..|cut| - 5] == name[..|name| - 5][d..];
        TrailDrop(name[..|name| - 5], d);
      }
    }
  }

  lemma {:induction false} NoPieces(s: string)
    requires forall i :: 0 <= i && i + 6 <= |s| ==> !(s[i] == '-' && s[i + 5] == '-')
    ensures SplitOn(s, HASH_DELIMIT) == [s]
    decreases |s|
  {
    if |s| >= 6 {
      assert s[..6][0] == s[0] && s[..6][5] == s[5];
      NoPieces(s[1..]);
      assert [s[0]] + s[1..] == s;
    }
  }

  /** Where the delimiter can start in a job name whose scan begins inside the benchmark's name. */
  lemma DelimiterStarts(name: string, hash: string)
    requires name != "" && (name + HASH_DELIMIT + hash)[..6] == HASH_DELIMIT
    ensures |name| >= 5 && name[..5] == "-cpeh"
    ensures |name| >= 6 ==> name[..6] == HASH_DELIMIT
  {
    var s := name + HASH_DELIMIT + hash;
    assert s[0] == s[..6][0] && s[1] == s[..6][1] && s[2] == s[..6][2] && s[3] == s[..6][3] && s[4] == s[..6][4];
    assert s[|name|] == '-';
    if |name| >= 5 { assert name[..5] == s[..6][..5]; }
    if |name| >= 6 { assert name[..6] == s[..6]; }
  }

  lemma DelimiterInside(name: string, hash: string)
    requires name != ""
    ensures var s := name + HASH_DELIMIT + hash;
      && |s| >= 6
      && s[1..] == name[1..] + HASH_DELIMIT + hash
      && (|name| >= 6 ==> s[6..] == name[6..] + HASH_DELIMIT + hash)
      && (|name| == 5 ==> s[6..] == "cpeh-" + hash)
  {
  }

  /** The last piece of a job name is its hash exactly when the benchmark's name ends in "-cpeh"
      an even number of times: leftmost splitting eats the dash two delimiters share. */
  lemma {:induction false} HashReadsBack(name: string, hash: string)
    requires '-' !in hash
    ensures |SplitOn(JobName(name, hash), HASH_DELIMIT)| > 1
    ensures LastPiece(JobName(name, hash)) == hash <==> Trail(name) % 2 == 0
    ensures Trail(name) % 2 != 0 ==> LastPiece(JobName(name, hash)) == "cpeh-" + hash
    decreases |name|
  {
    var s := name + HASH_DELIMIT + hash;
    if name == "" {
      NoPieces(hash);
      assert s[..6] == HASH_DELIMIT && s[6..] == hash;
    } else {
      DelimiterInside(name, hash);
      if s[..6] == HASH_DELIMIT {
        DelimiterStarts(name, hash);
        if |name| == 5 {
          assert name == "-cpeh" && name[..0] == "";
          assert name[|name| - 5..] == "-cpeh";
          assert Trail(name) == 1;
          NoPieces("cpeh-" + hash);
        } else {
          HashReadsBack(name[6..], hash);
          TrailSkipsDelimiter(name);
        }
      } else {
        HashReadsBack(name[1..], hash);
        TrailSkipsOne(name, hash);
      }
    }
  }

  lemma TrailSkipsDelimiter(name: string)
    requires |name| >= 6 && name[..6] == HASH_DELIMIT
    ensures Trail(name[6..]) % 2 == Trail(name) % 2
  {
    var pre := TrailFits(name);
    TrailDrop(name, 6);
    var t := Trail(name);
    hide Trail, Repeats, Ends;
    if |pre| < 6 {
      ShortFront(pre, t);
      Parity(t);
    }
  }

  lemma Parity(t: nat)
    requires t >= 2
    ensures ((5 * t - 6) / 5) % 2 == t % 2
  {
    assert (5 * t - 6) / 5 == t - 2;
  }

  lemma ShortFront(pre: string, t: nat)
    requires |pre| < 6 && |pre + Repeats(t)| >= 6 && (pre + Repeats(t))[..6] == HASH_DELIMIT && !Ends(pre)
    ensures pre == "" && t >= 2
  {
    var name := pre + Repeats(t);
    assert t > 0;
    FirstAfter(pre, t);
    hide Repeats;
    var cut := name[..6];
    assert cut[|pre|] == name[|pre|] == '-';
    assert |pre| == 0 || |pre| == 5;
    assert forall j :: 0 <= j < |pre| ==> pre[j] == cut[j];
  }

  lemma FirstAfter(pre: string, t: nat)
    requires t > 0
    ensures (pre + Repeats(t))[|pre|] == '-'
  {
  }

  lemma TrailSkipsOne(name: string, hash: string)
    requires name != "" && (name + HASH_DELIMIT + hash)[..6] != HASH_DELIMIT
    ensures Trail(name[1..]) == Trail(name)
  {
    var pre := TrailFits(name);
    TrailDrop(name, 1);
    if pre == "" {
      assert name == Repeats(Trail(name));
      RepeatsStart(Trail(name), hash);
    }
  }

  lemma RepeatsStart(t: nat, hash: string)
    requires t > 0
    ensures (Repeats(t) + HASH_DELIMIT + hash)[..6] == HASH_DELIMIT
  {
    var rest := Repeats(t - 1) + HASH_DELIMIT + hash;
    assert rest[0] == '-';
    assert Repeats(t) + HASH_DELIMIT + hash == "-cpeh" + rest;
    assert ("-cpeh" + rest)[..6] == "-cpeh" + [rest[0]];
  }

  // ---------------------------------------------------------------- recorded hashes

  datatype IterationHash = IterationHash(hash: string, build: string, iteration: Label, repetition: string)

  /** checkHashExist, as the first position with that hash. */
  function FindHash(hashes: seq<IterationHash>, hash: string): (i: nat)
    ensures i <= |hashes| && (i < |hashes| ==> hashes[i].hash == hash)
    ensures forall j :: 0 <= j < i ==> hashes[j].hash != hash
  {
    if hashes == [] || hashes[0].hash == hash then 0 else 1 + FindHash(hashes[1..], hash)
  }

  /** patchBenchmarkStatus: a hash that is there already is not recorded again. */
  function RecordHash(hashes: seq<IterationHash>, item: IterationHash): seq<IterationHash> {
    if FindHash(hashes, item.hash) < |hashes| then hashes else hashes + [item]
  }

  ghost predicate DistinctHashes(hashes: seq<IterationHash>) {
    forall i, j :: 0 <= i < j < |hashes| ==> hashes[i].hash != hashes[j].hash
  }

  lemma RecordKeepsDistinct(hashes: seq<IterationHash>, item: IterationHash)
    requires DistinctHashes(hashes)
    ensures DistinctHashes(RecordHash(hashes, item)) && hashes <= RecordHash(hashes, item)
  {
  }

  /** A recorded job finds its own record exactly when no other job took its hash before; otherwise
      it is credited to that first one. */
  lemma RecordedIsOwn(hashes: seq<IterationHash>, item: IterationHash)
    ensures var all := RecordHash(hashes, item);
      var i := FindHash(all, item.hash);
      && i < |all| && all[i].hash == item.hash
      && (all[i] == item <==> FindHash(hashes, item.hash) == |hashes| || hashes[FindHash(hashes, item.hash)] == item)
  {
    if FindHash(hashes, item.hash) == |hashes| {
      var all := hashes + [item];
      assert all[|hashes|] == item;
      assert forall j :: 0 <= j < |hashes| ==> all[j] == hashes[j];
    }
  }

  /** Names of the scenario items and of the configuration items of a benchmark. */
  datatype Spec = Spec(iterations: set<string>, configurations: set<string>)

  datatype Detail = Detail(
    iterationMap: Label,
    configurationMap: Label,
    repetition: string,
    buildID: string,
    iterationID: string,
    configurationID: string)

  /** What decides the result group of a run. */
  datatype GroupKey = GroupKey(buildID: string, iterationID: string, configurationID: string)

  function KeyOf(d: Detail): GroupKey {
    GroupKey(d.buildID, d.iterationID, d.configurationID)
  }

  const UNKNOWN: Detail := Detail(map[], map[], "0", "", "", "")

  function Restrict(item: Label, keys: set<string>): (m: Label)
    ensures m.Keys == keys
    ensures forall k :: k in keys ==> m[k] == ValueOf(item, k)
  {
    map k | k in keys :: ValueOf(item, k)
  }

  /** The id made of the pairs of some keys, without the leading separator. */
  ghost function IdOf(keys: set<string>, item: Label): string {
    var pairs := Pairs(SortedKeys(keys), item);
    if pairs == "" then "" else pairs[1..]
  }

  ghost function DetailOfHash(item: IterationHash, keys: set<string>, spec: Spec): Detail {
    var scenario, configuration := keys * spec.iterations, keys * spec.configurations - spec.iterations;
    Detail(Restrict(item.iteration, scenario), Restrict(item.iteration, configuration), item.repetition, item.build,
           IdOf(scenario, item.iteration), IdOf(configuration, item.iteration))
  }

  ghost function DetailOf(hashes: seq<IterationHash>, spec: Spec, jobName: string): Detail {
    if |SplitOn(jobName, HASH_DELIMIT)| == 1 then UNKNOWN
    else
      var i := FindHash(hashes, LastPiece(jobName));
      if i == |hashes| then UNKNOWN else DetailOfHash(hashes[i], hashes[0].iteration.Keys, spec)
  }

  function Filter(keys: seq<string>, wanted: set<string>): (r: seq<string>)
    ensures forall k :: k in r <==> k in keys && k in wanted
  {
    if keys == [] then []
    else
      assert forall k :: k in keys <==> k in keys[..|keys| - 1] || k == keys[|keys| - 1];
      var init := Filter(keys[..|keys| - 1], wanted);
      if keys[|keys| - 1] in wanted then init + [keys[|keys| - 1]] else init
  }

  lemma {:induction false} FilterOrdered(keys: seq<string>, wanted: set<string>)
    requires Ordered(keys)
    ensures Ordered(Filter(keys, wanted))
  {
    if keys != [] {
      var init := keys[..|keys| - 1];
      FilterOrdered(init, wanted);
      var f := Filter(init, wanted);
      forall n | 0 <= n < |f| ensures Before(f[n], keys[|keys| - 1]) {
        assert f[n] in f;
        var i :| 0 <= i < |init| && init[i] == f[n];
      }
    }
  }

  lemma FilterIsSorted(keys: set<string>, wanted: set<string>)
    ensures Filter(SortedKeys(keys), wanted) == SortedKeys(keys * wanted)
  {
    FilterOrdered(SortedKeys(keys), wanted);
    OrderedUnique(Filter(SortedKeys(keys), wanted), SortedKeys(keys * wanted));
  }

  method GetDetailFromJobName(hashes: seq<IterationHash>, spec: Spec, jobName: string) returns (detail: Detail)
    ensures detail == DetailOf(hashes, spec, jobName)
  {
    var parts := SplitOn(jobName, HASH_DELIMIT);
    if |parts| == 1 { return UNKNOWN; }
    var targetHash := parts[|parts| - 1];
    var orderedKeys: seq<string> := [];
    if hashes != [] { orderedKeys := OrderedKeys(hashes[0].iteration); }
    var n := 0;
    while n < |hashes| && hashes[n].hash != targetHash
      invariant 0 <= n <= |hashes| && forall j :: 0 <= j < n ==> hashes[j].hash != targetHash
    {
      n := n + 1;
    }
    assert n == FindHash(hashes, targetHash);
    if n == |hashes| { return UNKNOWN; }
    detail := SplitLabel(hashes[n], hashes[0].iteration.Keys, orderedKeys, spec);
  }

  method SplitLabel(hashItem: IterationHash, ghost keys: set<string>, orderedKeys: seq<string>, spec: Spec)
      returns (detail: Detail)
    requires orderedKeys == SortedKeys(keys)
    ensures detail == DetailOfHash(hashItem, keys, spec)
  {
    var item := hashItem.iteration;
    var iterationMap: Label, configurationMap: Label := map[], map[];
    var iterationID, configurationID := "", "";
    ghost var others := spec.configurations - spec.iterations;
    PickedNone(orderedKeys, spec.iterations, item);
    PickedNone(orderedKeys, others, item);
    hide Picked, Pair, Pairs, Filter, ValueOf, SortedKeys;
    for i := 0 to |orderedKeys|
      invariant Picked(orderedKeys[..i], spec.iterations, item, iterationMap, iterationID)
      invariant Picked(orderedKeys[..i], others, item, configurationMap, configurationID)
    {
      var key := orderedKeys[i];
      var val := ValueOf(item, key);
      PickStep(orderedKeys[..i], key, spec.iterations, item, iterationMap, iterationID);
      PickStep(orderedKeys[..i], key, others, item, configurationMap, configurationID);
      assert orderedKeys[..i + 1] == orderedKeys[..i] + [key];
      if key in spec.iterations {
        iterationMap := iterationMap[key := val];
        iterationID := iterationID + Pair(key, val);
      } else if key in spec.configurations {
        configurationMap := configurationMap[key := val];
        configurationID := configurationID + Pair(key, val);
      }
    }
    assert orderedKeys[..|orderedKeys|] == orderedKeys;
    PickedAll(keys, spec.iterations, item, iterationMap, iterationID);
    PickedAll(keys, others, item, configurationMap, configurationID);
    assert keys * others == keys * spec.configurations - spec.iterations;
    if |iterationID| > 0 { iterationID := iterationID[1..]; }
    if |configurationID| > 0 { configurationID := configurationID[1..]; }
    return Detail(iterationMap, configurationMap, hashItem.repetition, hashItem.build, iterationID, configurationID);
  }

  /** The map and the id built from those keys that are wanted. */
  ghost predicate Picked(keys: seq<string>, wanted: set<string>, item: Label, m: Label, id: string) {
    m == Restrict(item, SetOf(Filter(keys, wanted))) && id == Pairs(Filter(keys, wanted), item)
  }

  lemma PickedNone(keys: seq<string>, wanted: set<string>, item: Label)
    ensures Picked(keys[..0], wanted, item, map[], "")
  {
  }

  lemma PickStep(keys: seq<string>, key: string, wanted: set<string>, item: Label, m: Label, id: string)
    requires Picked(keys, wanted, item, m, id)
    ensures var val := ValueOf(item, key);
      if key in wanted then Picked(keys + [key], wanted, item, m[key := val], id + Pair(key, val))
      else Picked(keys + [key], wanted, item, m, id)
  {
    hide Filter, Pairs, Restrict, SetOf;
    FilterStep(keys, key, wanted, item);
  }

  lemma PickedAll(keys: set<string>, wanted: set<string>, item: Label, m: Label, id: string)
    requires Picked(SortedKeys(keys), wanted, item, m, id)
    ensures m == Restrict(item, keys * wanted) && id == Pairs(SortedKeys(keys * wanted), item)
  {
    FilterIsSorted(keys, wanted);
    assert SetOf(SortedKeys(keys * wanted)) == keys * wanted;
  }

  function SetOf(keys: seq<string>): set<string> {
    set k | k in keys
  }

  lemma FilterStep(keys: seq<string>, key: string, wanted: set<string>, item: Label)
    ensures var f, f' := Filter(keys, wanted), Filter(keys + [key], wanted);
      && f' == (if key in wanted then f + [key] else f)
      && Pairs(f', item) == (if key in wanted then Pairs(f, item) + Pair(key, ValueOf(item, key)) else Pairs(f, item))
      && Restrict(item, SetOf(f'))
          == (if key in wanted then Restrict(item, SetOf(f))[key := ValueOf(item, key)] else Restrict(item, SetOf(f)))
  {
    var f := Filter(keys, wanted);
    FilterGrows(keys, key, wanted);
    PairsGrow(f, key, item);
    hide Filter, Pairs, ValueOf, Pair;
    if key in wanted {
      assert SetOf(f + [key]) == SetOf(f) + {key};
    }
  }

  lemma FilterGrows(keys: seq<string>, key: string, wanted: set<string>)
    ensures Filter(keys + [key], wanted) == if key in wanted then Filter(keys, wanted) + [key] else Filter(keys, wanted)
  {
    assert (keys + [key])[..|keys|] == keys;
  }

  lemma PairsGrow(keys: seq<string>, key: string, item: Label)
    ensures Pairs(keys + [key], item) == Pairs(keys, item) + Pair(key, ValueOf(item, key))
  {
    assert (keys + [key])[..|keys|] == keys;
  }

  // ---------------------------------------------------------------- round trip

  /** Once its hash is recorded, a job's name leads back to its own record, for every benchmark name
      that ends in "-cpeh" an even number of times; for any other name it leads nowhere. */
  lemma DetailRoundTrip(benchmark: string, hashes: seq<IterationHash>, spec: Spec, i: nat)
    requires i < |hashes| && DistinctHashes(hashes)
    requires forall j :: 0 <= j < |hashes| ==> '-' !in hashes[j].hash
    ensures DetailOf(hashes, spec, JobName(benchmark, hashes[i].hash)) ==
      if Trail(benchmark) % 2 == 0 then DetailOfHash(hashes[i], hashes[0].iteration.Keys, spec)
      else Detail(map[], map[], "0", "", "", "")
  {
    hide SplitOn, Trail, DetailOfHash;
    var hash := hashes[i].hash;
    HashReadsBack(benchmark, hash);
    if Trail(benchmark) % 2 == 0 {
      assert FindHash(hashes, hash) == i;
    } else {
      var n := FindHash(hashes, "cpeh-" + hash);
      assert ("cpeh-" + hash)[4] == '-';
      assert n == |hashes|;
    }
  }

  predicate Delimits(s: string, i: nat) {
    i + 6 <= |s| && s[i..i + 6] == HASH_DELIMIT
  }

  lemma {:induction false} NoDelimiterNoPieces(s: string)
    requires forall i: nat :: !Delimits(s, i)
    ensures SplitOn(s, HASH_DELIMIT) == [s]
    decreases |s|
  {
    if |s| >= 6 {
      assert !Delimits(s, 0) && s[0..6] == s[..6];
      forall i: nat | i + 6 <= |s[1..]| ensures !Delimits(s[1..], i) {
        assert !Delimits(s, i + 1) && s[1..][i..i + 6] == s[i + 1..i + 1 + 6];
      }
      NoDelimiterNoPieces(s[1..]);
      assert [s[0]] + s[1..] == s;
    }
  }

  /** A name without the delimiter, even if it is a recorded hash, and a name whose last piece was never
      recorded lead nowhere. */
  lemma ForeignNameLeadsNowhere(hashes: seq<IterationHash>, spec: Spec, name: string)
    requires (forall i: nat :: !Delimits(name, i))
      || (forall j :: 0 <= j < |hashes| ==> hashes[j].hash != LastPiece(name))
    ensures DetailOf(hashes, spec, name) == Detail(map[], map[], "0", "", "", "")
  {
    if forall i: nat :: !Delimits(name, i) { NoDelimiterNoPieces(name); }
  }

  /** The split of a recorded label: every scenario and configuration value under its own key. */
  lemma LabelSplitsExactly(item: IterationHash, spec: Spec)
    requires item.iteration.Keys <= spec.iterations + spec.configurations
    ensures var d := DetailOfHash(item, item.iteration.Keys, spec);
      && d.iterationMap + d.configurationMap == item.iteration
      && d.iterationMap.Keys !! d.configurationMap.Keys
      && d.iterationMap.Keys == item.iteration.Keys * spec.iterations
      && d.configurationMap.Keys == item.iteration.Keys * spec.configurations - spec.iterations
      && d.buildID == item.build && d.repetition == item.repetition
  {
  }

  // ---------------------------------------------------------------- what a group of results is

  lemma {:induction false} PairsNotEmpty(keys: seq<string>, item: Label)
    ensures keys == [] <==> Pairs(keys, item) == ""
    ensures keys != [] ==> Pairs(keys, item)[0] == ';'
  {
    if keys != [] { PairsNotEmpty(keys[..|keys| - 1], item); }
  }

  lemma IdDeterminesValues(keys: set<string>, a: Label, b: Label)
    requires Clean(a) && Clean(b) && keys <= a.Keys && keys <= b.Keys
    requires IdOf(keys, a) == IdOf(keys, b)
    ensures forall k :: k in keys ==> a[k] == b[k]
  {
    var sorted := SortedKeys(keys);
    PairsNotEmpty(sorted, a);
    PairsNotEmpty(sorted, b);
    var pa, pb := Pairs(sorted, a), Pairs(sorted, b);
    if sorted != [] { assert pa == [pa[0]] + pa[1..] && pb == [pb[0]] + pb[1..]; }
    PairsDecode(sorted, a);
    PairsDecode(sorted, b);
    forall k | k in keys ensures a[k] == b[k] {
      var i :| 0 <= i < |sorted| && sorted[i] == k;
      assert PairList(sorted, a)[i] == PairList(sorted, b)[i];
    }
  }

  lemma SortedEmpty(keys: set<string>)
    ensures SortedKeys(keys) == [] <==> keys == {}
  {
    if SortedKeys(keys) != [] { assert SortedKeys(keys)[0] in keys; }
  }

  lemma PairsToMap(keys: set<string>, item: Label)
    requires Clean(item) && keys <= item.Keys
    ensures DecodeLabel(Pairs(SortedKeys(keys), item)) == Restrict(item, keys)
  {
    hide Pairs, DecodePairs, MapOf, PairList;
    var sorted := SortedKeys(keys);
    PairsDecode(sorted, item);
    MapOfPairList(sorted, item);
  }

  lemma IdDecodes(keys: set<string>, item: Label)
    requires Clean(item) && keys <= item.Keys
    ensures if keys == {} then IdOf(keys, item) == ""
            else DecodeLabel(";" + IdOf(keys, item)) == Restrict(item, keys)
  {
    hide Pairs, DecodeLabel, SortedKeys, Restrict, Clean;
    SortedEmpty(keys);
    PairsNotEmpty(SortedKeys(keys), item);
    PairsToMap(keys, item);
    var pairs := Pairs(SortedKeys(keys), item);
    if keys != {} { assert pairs == [pairs[0]] + pairs[1..]; }
  }

  /** Both ids of a recorded job read back: the scenario id to the scenario values, the configuration
      id to the configuration values. */
  lemma IdsReadBack(item: IterationHash, spec: Spec)
    requires Clean(item.iteration)
    ensures var d := DetailOfHash(item, item.iteration.Keys, spec);
      && (if d.iterationMap == map[] then d.iterationID == ""
          else DecodeLabel(";" + d.iterationID) == d.iterationMap)
      && (if d.configurationMap == map[] then d.configurationID == ""
          else DecodeLabel(";" + d.configurationID) == d.configurationMap)
  {
    var keys := item.iteration.Keys;
    IdDecodes(keys * spec.iterations, item.iteration);
    IdDecodes(keys * spec.configurations - spec.iterations, item.iteration);
    hide IdOf, DecodeLabel;
  }

  /** Two recorded jobs have the same scenario id exactly when all scenario values agree, and the same
      configuration id exactly when all configuration values agree. */
  lemma IdsMeanValues(a: IterationHash, b: IterationHash, spec: Spec)
    requires a.iteration.Keys == b.iteration.Keys && Clean(a.iteration) && Clean(b.iteration)
    ensures var d, d' := DetailOfHash(a, a.iteration.Keys, spec), DetailOfHash(b, b.iteration.Keys, spec);
      && (d.iterationID == d'.iterationID <==>
          forall k :: k in a.iteration && k in spec.iterations ==> a.iteration[k] == b.iteration[k])
      && (d.configurationID == d'.configurationID <==>
          forall k :: k in a.iteration && k in spec.configurations && k !in spec.iterations ==>
            a.iteration[k] == b.iteration[k])
  {
    SameIdSameValues(a.iteration.Keys * spec.iterations, a.iteration, b.iteration);
    SameIdSameValues(a.iteration.Keys * spec.configurations - spec.iterations, a.iteration, b.iteration);
    hide IdOf;
  }

  lemma SameIdSameValues(keys: set<string>, a: Label, b: Label)
    requires Clean(a) && Clean(b) && keys <= a.Keys && keys <= b.Keys
    ensures IdOf(keys, a) == IdOf(keys, b) <==> forall k :: k in keys ==> a[k] == b[k]
  {
    if IdOf(keys, a) == IdOf(keys, b) {
      IdDeterminesValues(keys, a, b);
    } else if forall k :: k in keys ==> a[k] == b[k] {
      SamePairs(SortedKeys(keys), a, b);
    }
  }

  lemma {:induction false} SamePairs(keys: seq<string>, a: Label, b: Label)
    requires forall k :: k in keys ==> ValueOf(a, k) == ValueOf(b, k)
    ensures Pairs(keys, a) == Pairs(keys, b)
  {
    if keys != [] { SamePairs(keys[..|keys| - 1], a, b); }
  }

  /** Two recorded jobs fall into one result group exactly when they are repetitions of one another:
      the same build and the same whole label. */
  lemma GroupMeansRepetition(a: IterationHash, b: IterationHash, spec: Spec)
    requires a.iteration.Keys == b.iteration.Keys <= spec.iterations + spec.configurations
    requires Clean(a.iteration) && Clean(b.iteration)
    ensures var keys := a.iteration.Keys;
      KeyOf(DetailOfHash(a, keys, spec)) == KeyOf(DetailOfHash(b, keys, spec))
      <==> a.build == b.build && a.iteration == b.iteration
  {
    IdsMeanValues(a, b, spec);
    hide IdOf;
    if forall k :: k in a.iteration ==> a.iteration[k] == b.iteration[k] { assert a.iteration == b.iteration; }
  }
}
