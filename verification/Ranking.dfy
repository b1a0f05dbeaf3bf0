/** The order on performance values (isBetterResult, controllers/job_tracker.go). */
module Ranking {
  /** isBetterResult: is val2 strictly better than val1? */
  predicate IsBetter(minimize: bool, val1: real, val2: real) {
    !((!minimize && val2 <= val1) || (minimize && val2 >= val1))
  }

  /** Value a ranks no lower than b. */
  predicate AsGood(minimize: bool, a: real, b: real) {
    if minimize then a <= b else a >= b
  }

  /** The order of isBetterResult is total: a value is beaten exactly by those it is not as good as. */
  lemma BetterIsStrict(minimize: bool, val1: real, val2: real)
    ensures IsBetter(minimize, val1, val2) <==> !AsGood(minimize, val1, val2)
  {
  }

  /** Number `r` is the best of `runs`, the least if minimizing and the greatest otherwise, and no
      earlier one is as good. */
  ghost predicate EarliestBest(minimize: bool, runs: seq<real>, r: nat) {
    && r < |runs|
    && (forall i :: 0 <= i < |runs| ==> if minimize then runs[r] <= runs[i] else runs[i] <= runs[r])
    && (forall i :: 0 <= i < r ==> if minimize then runs[r] < runs[i] else runs[i] < runs[r])
  }

  /** The earliest best when one more value comes in: the newcomer only if it is strictly better. */
  lemma BestExtends(minimize: bool, runs: seq<real>, r: nat)
    requires |runs| > 1 && EarliestBest(minimize, runs[..|runs| - 1], r)
    ensures var last := |runs| - 1;
      EarliestBest(minimize, runs, if IsBetter(minimize, runs[r], runs[last]) then last else r)
  {
    var prev := runs[..|runs| - 1];
    assert forall i :: 0 <= i < |prev| ==> prev[i] == runs[i];
  }

  /** There is only one earliest best. */
  lemma EarliestBestUnique(minimize: bool, runs: seq<real>, r: nat, r': nat)
    requires EarliestBest(minimize, runs, r) && EarliestBest(minimize, runs, r')
    ensures r == r'
  {
    assert runs[r] == runs[r'];
  }
}
