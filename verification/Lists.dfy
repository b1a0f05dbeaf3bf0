/** Lists without repetition. */
module Lists {
  ghost predicate Distinct<T>(s: seq<T>) {
    forall i, j :: 0 <= i < j < |s| ==> s[i] != s[j]
  }

  /** A list without repetition is no longer than one that holds all its elements, and as long only if
      it holds all of that one's. */
  lemma {:induction false} DistinctCount<T>(part: seq<T>, whole: seq<T>)
    requires Distinct(part) && forall x :: x in part ==> x in whole
    ensures |part| <= |whole|
    ensures |part| == |whole| ==> forall x :: x in whole ==> x in part
    decreases |part|
  {
    if part != [] {
      var last, most := part[|part| - 1], part[..|part| - 1];
      assert last in part;
      var i :| 0 <= i < |whole| && whole[i] == last;
      var rest := whole[..i] + whole[i + 1..];
      assert whole == whole[..i] + [last] + whole[i + 1..];
      forall x | x in most ensures x in rest { assert x in part && x in whole; }
      DistinctCount(most, rest);
      if |part| == |whole| {
        forall x | x in whole ensures x in part { assert x == last || x in rest; }
      }
    }
  }

  lemma {:induction false} MultisetDistinct<T>(s: seq<T>)
    ensures Distinct(s) <==> forall x :: multiset(s)[x] <= 1
  {
    if s != [] {
      var last, most := s[|s| - 1], s[..|s| - 1];
      MultisetDistinct(most);
      assert s == most + [last];
      assert Distinct(s) <==> Distinct(most) && last !in most;
      assert forall x :: multiset(s)[x] == multiset(most)[x] + if x == last then 1 else 0;
      assert last in most <==> multiset(most)[last] > 0;
      if last in most { assert multiset(s)[last] > 1; }
    }
  }

  /** Rearranging a list without repetition leaves it so. */
  lemma RearrangedDistinct<T>(s: seq<T>, t: seq<T>)
    requires multiset(s) == multiset(t) && Distinct(s)
    ensures Distinct(t) && |t| == |s| && forall x :: x in s <==> x in t
  {
    MultisetDistinct(s);
    MultisetDistinct(t);
    assert |multiset(s)| == |s| && |multiset(t)| == |t|;
    assert forall x :: x in s <==> x in multiset(s);
  }

  lemma DistinctPrefix<T>(a: seq<T>, b: seq<T>)
    requires Distinct(a + b)
    ensures Distinct(a)
  {
    forall i, j | 0 <= i < j < |a| ensures a[i] != a[j] {
      assert (a + b)[i] == a[i] && (a + b)[j] == a[j];
    }
  }

  lemma DistinctAppend<T>(a: seq<T>, b: seq<T>)
    requires Distinct(a) && Distinct(b) && forall x :: x in a ==> x !in b
    ensures Distinct(a + b)
  {
    forall i, j | 0 <= i < j < |a + b| ensures (a + b)[i] != (a + b)[j] {
      if i < |a| <= j { assert (a + b)[i] in a && (a + b)[j] in b; }
    }
  }
}
