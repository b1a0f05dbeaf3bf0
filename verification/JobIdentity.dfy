/** How a job gets its name from its label, build and repetition, and how the tracker gets them
    back (controllers/common.go). */
module JobIdentity {
  import opened Text
  import opened Fnv
  import Combination

  type Label = Combination.Label

  // ---------------------------------------------------------------- sorted keys

  /** The byte order of sort.Strings. */
  predicate Before(a: string, b: string) {
    if b == "" then false
    else if a == "" then true
    else a[0] < b[0] || (a[0] == b[0] && Before(a[1..], b[1..]))
  }

  lemma {:induction false} BeforeTotal(a: string, b: string)
    ensures Before(a, b) || Before(b, a) || a == b
    ensures !(Before(a, b) && Before(b, a)) && !Before(a, a)
  {
    if a != "" && b != "" {
      BeforeTotal(a[1..], b[1..]);
      assert a == [a[0]] + a[1..] && b == [b[0]] + b[1..];
    }
    if a != "" { BeforeTotal(a[1..], a[1..]); }
  }

  lemma {:induction false} BeforeTransitive(a: string, b: string, c: string)
    requires Before(a, b) && Before(b, c)
    ensures Before(a, c)
  {
    if a != "" && a[0] == b[0] == c[0] { BeforeTransitive(a[1..], b[1..], c[1..]); }
  }

  /** Where two texts first differ, the lesser byte comes first; a text comes before every longer one that
      starts with it. */
  lemma {:induction false} BeforeMeans(a: string, b: string)
    ensures Before(a, b) <==> exists i: nat :: FirstDifference(a, b, i) && (i == |a| || (i < |b| && a[i] < b[i]))
  {
    if a != "" && b != "" && a[0] == b[0] {
      BeforeMeans(a[1..], b[1..]);
      if i: nat :| FirstDifference(a[1..], b[1..], i) && (i == |a| - 1 || (i < |b| - 1 && a[1..][i] < b[1..][i])) {
        assert a[..i + 1] == [a[0]] + a[1..][..i] && b[..i + 1] == [b[0]] + b[1..][..i];
        assert FirstDifference(a, b, i + 1);
      }
      if i: nat :| FirstDifference(a, b, i) && (i == |a| || (i < |b| && a[i] < b[i])) {
        assert i > 0;
        assert a[1..][..i - 1] == a[..i][1..] && b[1..][..i - 1] == b[..i][1..];
        assert FirstDifference(a[1..], b[1..], i - 1);
      }
    } else {
      assert FirstDifference(a, b, 0) <==> a != "" || b != "";
      assert a[..0] == b[..0];
      forall i: nat | FirstDifference(a, b, i) ensures i == 0 { }
    }
  }

  ghost predicate FirstDifference(a: string, b: string, i: nat) {
    i <= |a| && i <= |b| && a[..i] == b[..i] && (i < |a| || i < |b|) && (i < |a| && i < |b| ==> a[i] != b[i])
  }

  ghost predicate Ordered(keys: seq<string>) {
    forall i, j :: 0 <= i < j < |keys| ==> Before(keys[i], keys[j])
  }

  /** Two ordered lists of the same keys are the same list. */
  lemma {:induction false} OrderedUnique(a: seq<string>, b: seq<string>)
    requires Ordered(a) && Ordered(b) && forall k :: k in a <==> k in b
    ensures a == b
    decreases |a|
  {
    assert b != [] ==> b[0] in b;
    if a != [] {
      assert a[0] in b && b[0] in a;
      BeforeTotal(a[0], b[0]);
      FirstIsLeast(a, b[0]);
      FirstIsLeast(b, a[0]);
      assert a[0] == b[0];
      forall k ensures k in a[1..] <==> k in b[1..] {
        RestHolds(a, k);
        RestHolds(b, k);
      }
      OrderedUnique(a[1..], b[1..]);
      assert a == [a[0]] + a[1..] && b == [b[0]] + b[1..];
    }
  }

  lemma RestHolds(keys: seq<string>, k: string)
    requires Ordered(keys) && keys != []
    ensures k in keys[1..] <==> k in keys && k != keys[0]
  {
    BeforeTotal(k, k);
    assert keys == [keys[0]] + keys[1..];
  }

  lemma FirstIsLeast(keys: seq<string>, k: string)
    requires Ordered(keys) && k in keys
    ensures k == keys[0] || Before(keys[0], k)
  {
  }

  /** Insertion into an ordered list: sort.Strings, one key at a time. */
  function Insert(keys: seq<string>, k: string): seq<string> {
    if keys == [] then [k]
    else if Before(keys[0], k) then [keys[0]] + Insert(keys[1..], k)
    else [k] + keys
  }

  lemma {:induction false} InsertOrdered(keys: seq<string>, k: string)
    requires Ordered(keys) && k !in keys
    ensures Ordered(Insert(keys, k))
    ensures forall x :: x in Insert(keys, k) <==> x == k || x in keys
  {
    if keys != [] {
      assert keys == [keys[0]] + keys[1..];
      BeforeTotal(keys[0], k);
      if Before(keys[0], k) {
        InsertOrdered(keys[1..], k);
        var rest := Insert(keys[1..], k);
        forall j | 0 <= j < |rest| ensures Before(keys[0], rest[j]) {
          assert rest[j] in rest;
          if rest[j] != k {
            assert rest[j] in keys[1..];
            var i :| 0 <= i < |keys| - 1 && keys[1..][i] == rest[j];
            assert keys[i + 1] == rest[j];
          }
        }
      } else {
        forall j | 0 < j < |keys| ensures Before(k, keys[j]) { BeforeTransitive(k, keys[0], keys[j]); }
      }
    }
  }

  lemma {:induction false} SortedExists(keys: set<string>)
    ensures exists s: seq<string> :: Ordered(s) && forall k :: k in s <==> k in keys
  {
    if keys == {} {
      assert Ordered([]);
    } else {
      var k :| k in keys;
      SortedExists(keys - {k});
      var s: seq<string> :| Ordered(s) && forall x :: x in s <==> x in keys - {k};
      InsertOrdered(s, k);
    }
  }

  /** The keys of a map in byte order. */
  ghost function SortedKeys(keys: set<string>): (s: seq<string>)
    ensures Ordered(s) && forall k :: k in s <==> k in keys
  {
    SortedExists(keys);
    var s: seq<string> :| Ordered(s) && forall k :: k in s <==> k in keys;
    s
  }

  /** getOrderedKey */
  method OrderedKeys(item: Label) returns (keys: seq<string>)
    ensures keys == SortedKeys(item.Keys)
  {
    keys := [];
    var todo := item.Keys;
    while todo != {}
      invariant todo <= item.Keys
      invariant Ordered(keys) && forall k :: k in keys <==> k in item.Keys - todo
      decreases todo
    {
      var k :| k in todo;
      InsertOrdered(keys, k);
      keys, todo := Insert(keys, k), todo - {k};
    }
    OrderedUnique(keys, SortedKeys(item.Keys));
  }

  // ---------------------------------------------------------------- the label suffix

  /** A Go map read: the empty string for a missing key. */
  function ValueOf(item: Label, key: string): string {
    if key in item then item[key] else ""
  }

  /** getIterationPairStr */
  function Pair(key: string, val: string): string {
    ";" + key + "=" + val
  }

  function Pairs(keys: seq<string>, item: Label): string {
    if keys == [] then ""
    else Pairs(keys[..|keys| - 1], item) + Pair(keys[|keys| - 1], ValueOf(item, keys[|keys| - 1]))
  }

  ghost function Suffix(item: Label): string {
    Pairs(SortedKeys(item.Keys), item)
  }

  method GetSubfixFromIterationLabel(item: Label) returns (subfix: string)
    ensures subfix == Suffix(item)
  {
    subfix := "";
    var keys := OrderedKeys(item);
    for i := 0 to |keys|
      invariant subfix == Pairs(keys[..i], item)
    {
      assert keys[..i + 1][..i] == keys[..i];
      subfix := subfix + Pair(keys[i], ValueOf(item, keys[i]));
    }
    assert keys[..|keys|] == keys;
  }

  /** Position of the last occurrence of `pat`, or -1. */
  function LastIndex(s: string, pat: string): (i: int)
    requires pat != ""
    ensures -1 <= i && (i >= 0 ==> i + |pat| <= |s| && s[i..i + |pat|] == pat)
  {
    if |s| < |pat| then -1
    else if s[|s| - |pat|..] == pat then |s| - |pat|
    else LastIndex(s[..|s| - 1], pat)
  }

  lemma LastIndexUnfolds(s: string, pat: string)
    requires pat != ""
    ensures LastIndex(s, pat) ==
      if |s| < |pat| then -1 else if s[|s| - |pat|..] == pat then |s| - |pat| else LastIndex(s[..|s| - 1], pat)
  {
  }

  /** A text in front moves the last occurrence by its length. */
  lemma {:induction false} LastIndexShifts(pre: string, s: string, pat: string)
    requires pat != "" && LastIndex(s, pat) >= 0
    ensures LastIndex(pre + s, pat) == |pre| + LastIndex(s, pat)
    decreases |s|
  {
    hide LastIndex;
    LastIndexUnfolds(s, pat);
    LastIndexUnfolds(pre + s, pat);
    SuffixOfJoin(pre, s, |pat|);
    if s[|s| - |pat|..] != pat {
      LastIndexShifts(pre, s[..|s| - 1], pat);
    }
  }

  /** Behind the last occurrence of one character there is no other. */
  lemma {:induction false} LastIndexIsLast(s: string, c: char)
    ensures var i := LastIndex(s, [c]); i >= 0 ==> c !in s[i + 1..]
    decreases |s|
  {
    if s != "" && s[|s| - 1] != c {
      assert s[|s| - 1..] == [s[|s| - 1]];
      LastIndexIsLast(s[..|s| - 1], c);
      var i := LastIndex(s[..|s| - 1], [c]);
      if i >= 0 { assert s[i + 1..] == s[..|s| - 1][i + 1..] + [s[|s| - 1]]; }
    }
  }

  lemma SuffixOfJoin(pre: string, s: string, n: nat)
    requires 0 < n <= |s|
    ensures (pre + s)[|pre + s| - n..] == s[|s| - n..]
    ensures (pre + s)[..|pre + s| - 1] == pre + s[..|s| - 1]
  {
  }

  /** Behind `pat` nothing can repeat it that lacks its last character. */
  lemma {:induction false} LastIndexBefore(pat: string, tail: string)
    requires pat != "" && pat[|pat| - 1] !in tail
    ensures LastIndex(pat + tail, pat) == 0
    decreases |tail|
  {
    var s := pat + tail;
    if tail == "" {
      assert s == pat && s[0..] == pat;
    } else {
      assert s[|s| - 1] == tail[|tail| - 1];
      assert s[|s| - |pat|..][|pat| - 1] == tail[|tail| - 1];
      assert s[..|s| - 1] == pat + tail[..|tail| - 1];
      LastIndexBefore(pat, tail[..|tail| - 1]);
    }
  }

  /** Reading a suffix back, from its last pair to its first. */
  function DecodePairs(s: string): seq<(string, string)>
    decreases |s|
  {
    var e := LastIndex(s, "=");
    if e < 0 then []
    else
      var d := LastIndex(s[..e], ";");
      if d < 0 then [] else DecodePairs(s[..d]) + [(s[d + 1..e], s[e + 1..])]
  }

  function MapOf(pairs: seq<(string, string)>): Label {
    if pairs == [] then map[]
    else MapOf(pairs[..|pairs| - 1])[pairs[|pairs| - 1].0 := pairs[|pairs| - 1].1]
  }

  function DecodeLabel(s: string): Label {
    MapOf(DecodePairs(s))
  }

  /** Keys without ';' and values without '='; anything else is allowed in both. */
  ghost predicate Clean(item: Label) {
    forall k :: k in item ==> ';' !in k && '=' !in item[k]
  }

  function PairList(keys: seq<string>, item: Label): seq<(string, string)> {
    seq(|keys|, i requires 0 <= i < |keys| => (keys[i], ValueOf(item, keys[i])))
  }

  lemma PairSplits(front: string, key: string, val: string)
    ensures var s, e := front + Pair(key, val), |front| + 1 + |key|;
      && s == (front + ";" + key) + ("=" + val)
      && s[..e] == front + (";" + key)
      && s[..e][..|front|] == front && s[..|front|] == front && s[|front| + 1..e] == key && s[e + 1..] == val
  {
  }

  lemma OnePairDecodes(front: string, key: string, val: string)
    requires ';' !in key && '=' !in val
    ensures DecodePairs(front + Pair(key, val)) == DecodePairs(front) + [(key, val)]
  {
    hide LastIndex;
    PairSplits(front, key, val);
    LastIndexBefore("=", val);
    LastIndexShifts(front + ";" + key, "=" + val, "=");
    LastIndexBefore(";", key);
    LastIndexShifts(front, ";" + key, ";");
    hide Pair;
  }

  lemma PairListGrows(keys: seq<string>, item: Label)
    requires keys != []
    ensures var n := |keys| - 1;
      PairList(keys, item) == PairList(keys[..n], item) + [(keys[n], ValueOf(item, keys[n]))]
  {
  }

  lemma {:induction false} PairsDecode(keys: seq<string>, item: Label)
    requires Clean(item) && forall k :: k in keys ==> ';' !in k
    ensures DecodePairs(Pairs(keys, item)) == PairList(keys, item)
  {
    if keys != [] {
      var init, key := keys[..|keys| - 1], keys[|keys| - 1];
      PairListGrows(keys, item);
      hide DecodePairs, Pair, PairList;
      PairsDecode(init, item);
      OnePairDecodes(Pairs(init, item), key, ValueOf(item, key));
    }
  }

  lemma {:induction false} MapOfPairList(keys: seq<string>, item: Label)
    ensures MapOf(PairList(keys, item)).Keys == set k | k in keys
    ensures forall k :: k in keys ==> MapOf(PairList(keys, item))[k] == ValueOf(item, k)
  {
    if keys != [] {
      var init, last := keys[..|keys| - 1], keys[|keys| - 1];
      MapOfPairList(init, item);
      PairListGrows(keys, item);
      assert MapOf(PairList(keys, item)) == MapOf(PairList(init, item))[last := ValueOf(item, last)];
      assert keys == init + [last];
      hide MapOf, PairList, ValueOf;
    }
  }

  lemma {:induction false} DecodedPairsClean(s: string)
    ensures forall i :: 0 <= i < |DecodePairs(s)| ==> ';' !in DecodePairs(s)[i].0 && '=' !in DecodePairs(s)[i].1
    decreases |s|
  {
    var e := LastIndex(s, "=");
    if e >= 0 {
      var d := LastIndex(s[..e], ";");
      LastIndexIsLast(s, '=');
      LastIndexIsLast(s[..e], ';');
      if d >= 0 {
        DecodedPairsClean(s[..d]);
        assert s[d + 1..e] == s[..e][d + 1..];
      }
    }
  }

  lemma {:induction false} MapOfClean(pairs: seq<(string, string)>)
    requires forall i :: 0 <= i < |pairs| ==> ';' !in pairs[i].0 && '=' !in pairs[i].1
    ensures Clean(MapOf(pairs))
  {
    if pairs != [] { MapOfClean(pairs[..|pairs| - 1]); }
  }

  lemma CleanDecodes(item: Label)
    requires Clean(item)
    ensures DecodeLabel(Suffix(item)) == item
  {
    var keys := SortedKeys(item.Keys);
    PairsDecode(keys, item);
    MapOfPairList(keys, item);
    hide MapOf, DecodePairs, PairList, Pairs;
  }

  /** The suffix is decoded to its label exactly when the label is Clean; so equal suffixes of Clean
      labels mean equal labels. */
  lemma LabelDecodes(item: Label)
    ensures DecodeLabel(Suffix(item)) == item <==> Clean(item)
  {
    hide MapOf, DecodePairs, Suffix;
    DecodedPairsClean(Suffix(item));
    MapOfClean(DecodePairs(Suffix(item)));
    hide Clean;
    if Clean(item) { CleanDecodes(item); }
  }

  /** A label that is not Clean can share its suffix with another one. */
  lemma SuffixCollides()
    ensures Suffix(map["a" := "1;b=2"]) == Suffix(map["a" := "1", "b" := "2"])
  {
    var one, two := map["a" := "1;b=2"], map["a" := "1", "b" := "2"];
    OrderedUnique(SortedKeys(one.Keys), ["a"]);
    OrderedUnique(SortedKeys(two.Keys), ["a", "b"]);
    assert Pairs(["a"], one) == ";a=1;b=2" by { assert ["a"][..0] == []; }
    assert ["a", "b"][..1] == ["a"];
    assert Pairs(["a"], two) == ";a=1" by { assert ["a"][..0] == []; }
  }

  // ---------------------------------------------------------------- the key that is hashed

  ghost function FullKey(item: Label, build: string, repetition: nat): string {
    Suffix(item) + "-bc-" + build + "-rp-" + ShowNat(repetition)
  }

  /** The text of a full key taken apart again: label, build and repetition. */
  function DecodeFullKey(s: string): (Label, string, string) {
    var r := LastIndex(s, "-rp-");
    if r < 0 then (map[], "", "")
    else
      var b := LastIndex(s[..r], "-bc-");
      if b < 0 then (map[], "", "") else (DecodeLabel(s[..b]), s[b + 4..r], s[r + 4..])
  }

  /** The last "-bc-" of "-bc-" + build is the one in front. */
  ghost predicate CleanBuild(build: string) {
    LastIndex("-bc-" + build, "-bc-") == 0
  }

  lemma DigitsHaveNoDash(n: nat)
    ensures '-' !in ShowNat(n)
  {
    ShowNatParses(n);
  }

  lemma KeySplits(suffix: string, build: string, rep: string)
    ensures var front := suffix + ("-bc-" + build);
      var s := suffix + "-bc-" + build + "-rp-" + rep;
      && s == front + ("-rp-" + rep) && s[..|front|] == front && s[|front| + 4..] == rep
      && s[..|suffix|] == suffix && s[|suffix| + 4..|front|] == build
  {
  }

  lemma BuildIsLast(build: string)
    ensures LastIndex("-bc-" + build, "-bc-") >= 0
  {
    LastIndexAtLeast("-bc-", build);
  }

  lemma {:induction false} LastIndexAtLeast(pat: string, tail: string)
    requires pat != ""
    ensures LastIndex(pat + tail, pat) >= 0
    decreases |tail|
  {
    var s := pat + tail;
    if tail == "" {
      assert s == pat && s[0..] == pat;
    } else {
      assert s[..|s| - 1] == pat + tail[..|tail| - 1];
      LastIndexAtLeast(pat, tail[..|tail| - 1]);
    }
  }

  /** The full key is taken apart correctly exactly when its label and its build are clean. */
  lemma FullKeyDecodes(item: Label, build: string, repetition: nat)
    ensures DecodeFullKey(FullKey(item, build, repetition)) == (item, build, ShowNat(repetition))
      <==> Clean(item) && CleanBuild(build)
  {
    var suffix, rep := Suffix(item), ShowNat(repetition);
    DigitsHaveNoDash(repetition);
    BuildIsLast(build);
    hide LastIndex, ShowNat, Suffix;
    KeySplits(suffix, build, rep);
    LastIndexBefore("-rp-", rep);
    LastIndexShifts(suffix + ("-bc-" + build), "-rp-" + rep, "-rp-");
    LastIndexShifts(suffix, "-bc-" + build, "-bc-");
    LabelDecodes(item);
  }

  /** Equal full keys come from the same label, build and repetition. */
  lemma FullKeyInjective(item: Label, build: string, rep: nat, item': Label, build': string, rep': nat)
    requires Clean(item) && CleanBuild(build) && Clean(item') && CleanBuild(build')
    requires FullKey(item, build, rep) == FullKey(item', build', rep')
    ensures item == item' && build == build' && rep == rep'
  {
    FullKeyDecodes(item, build, rep);
    FullKeyDecodes(item', build', rep');
    ShowNatInjective(rep, rep');
  }

  // ---------------------------------------------------------------- hash and name

  /** getJobHash */
  ghost function JobHash(item: Label, build: string, repetition: nat): string {
    ShowNat(Sum32(FullKey(item, build, repetition)) as nat)
  }

  method GetJobHash(item: Label, build: string, repetition: nat) returns (hash: string)
    ensures hash == JobHash(item, build, repetition)
  {
    var subfix := GetSubfixFromIterationLabel(item);
    var fullKey := subfix + "-bc-" + build + "-rp-" + ShowNat(repetition);
    var sum := Write(fullKey);
    hash := ShowNat(sum as nat);
  }

  const HASH_DELIMIT: string := "-cpeh-"

  /** getJobNameFromHash */
  function JobName(benchmark: string, hash: string): string {
    benchmark + HASH_DELIMIT + hash
  }

  /** Job names are injective in benchmark and hash: the decimal hash has no dash. */
  lemma JobNameInjective(benchmark: string, hash: string, benchmark': string, hash': string)
    requires '-' !in hash && '-' !in hash'
    requires JobName(benchmark, hash) == JobName(benchmark', hash')
    ensures benchmark == benchmark' && hash == hash'
  {
    NameSplits(benchmark, hash);
    NameSplits(benchmark', hash');
  }

  lemma NameSplits(benchmark: string, hash: string)
    requires '-' !in hash
    ensures var name := JobName(benchmark, hash);
      var i := LastIndex(name, HASH_DELIMIT);
      i == |benchmark| && name[..i] == benchmark && name[i + |HASH_DELIMIT|..] == hash
  {
    hide LastIndex;
    LastIndexBefore(HASH_DELIMIT, hash);
    LastIndexShifts(benchmark, HASH_DELIMIT + hash, HASH_DELIMIT);
    assert JobName(benchmark, hash) == benchmark + (HASH_DELIMIT + hash);
  }

  /** Jobs whose full keys have the same length and differ in exactly one byte, wherever it stands, never
      share a hash. */
  lemma OneByteApart(item: Label, build: string, rep: nat, item': Label, build': string, rep': nat, i: nat)
    requires var s, t := FullKey(item, build, rep), FullKey(item', build', rep');
      && |s| == |t| && i < |s| && s[i] != t[i] && s[i] as int < 256 && t[i] as int < 256
      && forall k :: 0 <= k < |s| && k != i ==> s[k] == t[k]
    ensures JobHash(item, build, rep) != JobHash(item', build', rep')
  {
    var s, t := FullKey(item, build, rep), FullKey(item', build', rep');
    OneByteSeparates(s, t, i);
    hide Sum32, ShowNat, FullKey;
    if JobHash(item, build, rep) == JobHash(item', build', rep') {
      ShowNatInjective(Sum32(s) as nat, Sum32(t) as nat);
    }
  }

  /** Two repetitions whose numbers have as many digits and differ in exactly one of them never
      share a job name; in particular the repetitions 0 to 9. */
  lemma RepetitionsSeparate(item: Label, build: string, rep: nat, rep': nat, i: nat)
    requires |ShowNat(rep)| == |ShowNat(rep')| && i < |ShowNat(rep)| && ShowNat(rep)[i] != ShowNat(rep')[i]
    requires forall k :: 0 <= k < |ShowNat(rep)| && k != i ==> ShowNat(rep)[k] == ShowNat(rep')[k]
    ensures JobHash(item, build, rep) != JobHash(item, build, rep')
  {
    var front := Suffix(item) + "-bc-" + build + "-rp-";
    var s, t := FullKey(item, build, rep), FullKey(item, build, rep');
    ShowNatParses(rep);
    ShowNatParses(rep');
    assert s == front + ShowNat(rep) && t == front + ShowNat(rep');
    hide ShowNat, Sum32, JobHash;
    assert IsDigit(ShowNat(rep)[i]) && IsDigit(ShowNat(rep')[i]);
    assert s[|front| + i] == ShowNat(rep)[i] && t[|front| + i] == ShowNat(rep')[i];
    OneByteApart(item, build, rep, item, build, rep', |front| + i);
  }

  lemma FirstTenRepetitionsSeparate(benchmark: string, item: Label, build: string, rep: nat, rep': nat)
    requires rep < 10 && rep' < 10 && rep != rep'
    ensures JobName(benchmark, JobHash(item, build, rep)) != JobName(benchmark, JobHash(item, build, rep'))
  {
    RepetitionsSeparate(item, build, rep, rep', 0);
    DigitsHaveNoDash(Sum32(FullKey(item, build, rep)) as nat);
    DigitsHaveNoDash(Sum32(FullKey(item, build, rep')) as nat);
    if JobName(benchmark, JobHash(item, build, rep)) == JobName(benchmark, JobHash(item, build, rep')) {
      JobNameInjective(benchmark, JobHash(item, build, rep), benchmark, JobHash(item, build, rep'));
    }
  }
}
