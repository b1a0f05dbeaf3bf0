/** The sweep expansion of controllers/iteration.go (nextCombination, GetAllCombination): the
    Cartesian product of the iteration items, in the order the source builds it. */
module Combination {
  import opened Arithmetic
  import opened Lists

  datatype Item = Item(name: string, values: seq<string>)

  type Label = map<string, string>

  /** One layer of nextCombination: every value in turn, and for each of them every label so far;
      an empty list of labels starts over with labels of this item alone. */
  function Layer(item: Item, prev: seq<Label>): (next: seq<Label>)
    ensures |next| == |item.values| * (if prev == [] then 1 else |prev|)
  {
    var base := if prev == [] then [map[]] else prev;
    LayerOf(item.name, item.values, base)
  }

  function LayerOf(name: string, values: seq<string>, base: seq<Label>): (next: seq<Label>)
    ensures |next| == |values| * |base|
  {
    if values == [] then []
    else
      var n := |values| - 1;
      assert n * |base| + |base| == |values| * |base|;
      LayerOf(name, values[..n], base) + seq(|base|, i requires 0 <= i < |base| => base[i][name := values[n]])
  }

  function NextCombination(itr: seq<Item>, curLayer: nat, prev: seq<Label>): seq<Label>
    requires curLayer <= |itr|
    decreases |itr| - curLayer
  {
    if curLayer == |itr| then prev
    else NextCombination(itr, curLayer + 1, Layer(itr[curLayer], prev))
  }

  function AllCombinations(itr: seq<Item>): seq<Label> {
    NextCombination(itr, 0, [])
  }

  method BuildCombinations(itr: seq<Item>, curLayer: nat, prevList: seq<Label>) returns (r: seq<Label>)
    requires curLayer <= |itr|
    ensures r == NextCombination(itr, curLayer, prevList)
    decreases |itr| - curLayer
  {
    if curLayer == |itr| { return prevList; }
    var name, values := itr[curLayer].name, itr[curLayer].values;
    var base := if prevList == [] then [map[]] else prevList;
    var newList: seq<Label> := [];
    for i := 0 to |values|
      invariant newList == LayerOf(name, values[..i], base)
    {
      assert values[..i + 1][..i] == values[..i];
      if prevList == [] {
        newList := newList + [map[name := values[i]]];
      } else {
        ghost var before := newList;
        for k := 0 to |prevList|
          invariant newList == before + seq(k, m requires 0 <= m < k => prevList[m][name := values[i]])
        {
          newList := newList + [prevList[k][name := values[i]]];
        }
      }
    }
    assert values[..|values|] == values;
    r := BuildCombinations(itr, curLayer + 1, newList);
  }

  method GetAllCombination(itr: seq<Item>) returns (r: seq<Label>)
    ensures r == AllCombinations(itr)
  {
    r := BuildCombinations(itr, 0, []);
  }

  // ---------------------------------------------------------------- the index law

  function Init(items: seq<Item>): seq<Item>
    requires items != []
  {
    items[..|items| - 1]
  }

  function Last(items: seq<Item>): Item
    requires items != []
  {
    items[|items| - 1]
  }

  /** In how many ways one value of each item can be chosen. */
  function Choices(items: seq<Item>): nat {
    if items == [] then 1 else |Last(items).values| * Choices(Init(items))
  }

  ghost predicate NoneEmpty(items: seq<Item>) {
    forall i :: 0 <= i < |items| ==> items[i].values != []
  }

  lemma {:induction false} ChoicesPositive(items: seq<Item>)
    requires NoneEmpty(items)
    ensures Choices(items) > 0
  {
    if items != [] { ChoicesPositive(Init(items)); }
  }

  /** The label number k: each item takes the value at its digit of k in mixed radix. */
  function Entry(items: seq<Item>, k: nat): Label
    requires NoneEmpty(items)
  {
    if items == [] then map[]
    else
      ChoicesPositive(Init(items));
      Entry(Init(items), k)[Last(items).name :=
        Last(items).values[(k / Choices(Init(items))) % |Last(items).values|]]
  }

  function Product(items: seq<Item>): seq<Label>
    requires NoneEmpty(items)
  {
    if items == [] then [] else seq(Choices(items), k requires 0 <= k < Choices(items) => Entry(items, k))
  }

  /** The items behind the last one that offers no value. */
  function Effective(itr: seq<Item>): (items: seq<Item>)
    ensures NoneEmpty(items)
  {
    if itr == [] || Last(itr).values == [] then [] else Effective(Init(itr)) + [Last(itr)]
  }

  /** Moving k by a multiple of c * v keeps its digit at c. */
  lemma DigitShift(k: nat, m: nat, c: nat, v: nat)
    requires c > 0 && v > 0
    ensures m * (v * c) == (m * v) * c
    ensures (k + m * (v * c)) / c % v == k / c % v
  {
    Reassociate(m, v, c);
    QuotientShift(k, m * v, c);
    QuotientShift(k / c, m, v);
  }

  lemma EntryUnfolds(items: seq<Item>, k: nat)
    requires items != [] && NoneEmpty(items)
    ensures NoneEmpty(Init(items)) && Choices(Init(items)) > 0
    ensures Choices(items) == |Last(items).values| * Choices(Init(items))
    ensures Entry(items, k) == Entry(Init(items), k)[Last(items).name :=
      Last(items).values[(k / Choices(Init(items))) % |Last(items).values|]]
  {
    ChoicesPositive(Init(items));
  }

  /** Labels repeat with period Choices. */
  lemma {:induction false} EntryShift(items: seq<Item>, k: nat, m: nat)
    requires NoneEmpty(items)
    ensures k + m * Choices(items) >= 0
    ensures Entry(items, k + m * Choices(items)) == Entry(items, k)
    decreases |items|
  {
    ProductNotNegative(m, Choices(items));
    if items != [] {
      var c, v := Choices(Init(items)), |Last(items).values|;
      EntryUnfolds(items, k);
      EntryUnfolds(items, k + m * Choices(items));
      hide Choices, NoneEmpty, Entry;
      ProductNotNegative(m, v);
      EntryShift(Init(items), k, m * v);
      DigitShift(k, m, c, v);
    }
  }

  lemma EntryPeriod(items: seq<Item>, k: nat)
    requires NoneEmpty(items)
    ensures Choices(items) > 0 && Entry(items, k) == Entry(items, k % Choices(items))
  {
    ChoicesPositive(items);
    hide Choices, Entry;
    var c := Choices(items);
    DivMod(k, c);
    QuotientNotNegative(k, c);
    EntryShift(items, k % c, k / c);
  }

  lemma QuotientNotNegative(k: nat, c: nat)
    requires c > 0
    ensures k / c >= 0
  {
  }

  lemma {:induction false} LayerOfAt(name: string, values: seq<string>, base: seq<Label>, j: nat, i: nat)
    requires j < |values| && i < |base|
    ensures j * |base| + i < |values| * |base|
    ensures LayerOf(name, values, base)[j * |base| + i] == base[i][name := values[j]]
  {
    var n := |values| - 1;
    MulGap(j, |values|, |base|);
    if j < n {
      LayerOfAt(name, values[..n], base, j, i);
    }
  }

  lemma LayerAt(items: seq<Item>, item: Item, base: seq<Label>, k: nat)
    requires NoneEmpty(items) && item.values != [] && |base| == Choices(items)
    requires forall i :: 0 <= i < |base| ==> base[i] == Entry(items, i)
    requires k < |item.values| * |base|
    ensures NoneEmpty(items + [item])
    ensures LayerOf(item.name, item.values, base)[k] == Entry(items + [item], k)
  {
    var more, c, v := items + [item], Choices(items), |item.values|;
    assert Init(more) == items && Last(more) == item;
    EntryUnfolds(more, k);
    hide Choices, Entry, LayerOf;
    DigitBound(k, c, v);
    LayerOfAt(item.name, item.values, base, k / c, k % c);
    EntryPeriod(items, k);
  }

  function Base(items: seq<Item>): (base: seq<Label>)
    requires NoneEmpty(items)
    ensures |base| == Choices(items)
    ensures forall i :: 0 <= i < |base| ==> base[i] == Entry(items, i)
  {
    seq(Choices(items), k requires 0 <= k < Choices(items) => Entry(items, k))
  }

  /** One more layer is the product with one more item. */
  lemma LayerIsProduct(items: seq<Item>, item: Item)
    requires NoneEmpty(items)
    ensures item.values == [] ==> Layer(item, Product(items)) == []
    ensures item.values != [] ==> NoneEmpty(items + [item]) && Layer(item, Product(items)) == Product(items + [item])
  {
    if item.values != [] {
      var more := items + [item];
      LayerOfBase(items, item);
      ChoicesOfMore(items, item);
      hide Choices, LayerOf, Entry, Layer;
      var layer, size := LayerOf(item.name, item.values, Base(items)), Choices(more);
      forall k | 0 <= k < size ensures layer[k] == Entry(more, k) {
        LayerAt(items, item, Base(items), k);
      }
      hide Base;
      assert |layer| == size;
    }
  }

  lemma LayerOfBase(items: seq<Item>, item: Item)
    requires NoneEmpty(items)
    ensures Layer(item, Product(items)) == LayerOf(item.name, item.values, Base(items))
    ensures |LayerOf(item.name, item.values, Base(items))| == |item.values| * Choices(items)
  {
    ChoicesPositive(items);
    if items == [] { assert Base(items) == [map[]]; }
    hide LayerOf, Choices, Entry;
  }

  lemma ChoicesOfMore(items: seq<Item>, item: Item)
    requires NoneEmpty(items) && item.values != []
    ensures NoneEmpty(items + [item]) && Choices(items + [item]) == |item.values| * Choices(items)
  {
    assert Init(items + [item]) == items && Last(items + [item]) == item;
  }

  lemma DigitBound(k: nat, c: nat, v: nat)
    requires c > 0 && k < v * c
    ensures 0 <= k / c < v && 0 <= k % c < c && k == (k / c) * c + k % c && (k / c) % v == k / c
  {
    DivMod(k, c);
    QuotientNotNegative(k, c);
    if v < k / c { MulGap(v, k / c, c); }
    assert v != k / c;
    SmallRemainder(k / c, v);
  }

  lemma {:induction false} EffectiveExtends(itr: seq<Item>, n: nat)
    requires n < |itr|
    ensures Effective(itr[..n + 1]) ==
      if itr[n].values == [] then [] else Effective(itr[..n]) + [itr[n]]
  {
    assert Init(itr[..n + 1]) == itr[..n];
  }

  lemma {:induction false} NextIsProduct(itr: seq<Item>, curLayer: nat)
    requires curLayer <= |itr|
    ensures NextCombination(itr, curLayer, Product(Effective(itr[..curLayer]))) == Product(Effective(itr))
    decreases |itr| - curLayer
  {
    if curLayer == |itr| {
      assert itr[..curLayer] == itr;
    } else {
      LayerIsProduct(Effective(itr[..curLayer]), itr[curLayer]);
      EffectiveExtends(itr, curLayer);
      NextIsProduct(itr, curLayer + 1);
    }
  }

  /** For every list of items: the combinations are the labels 0, 1, 2, ... of the items behind the
      last empty one. An item without values silently drops every item before it. */
  lemma CombinationsAreProduct(itr: seq<Item>)
    ensures AllCombinations(itr) == Product(Effective(itr))
  {
    assert itr[..0] == [];
    NextIsProduct(itr, 0);
  }

  lemma {:induction false} EffectiveIsAll(itr: seq<Item>)
    ensures Effective(itr) == itr <==> NoneEmpty(itr)
  {
    if itr != [] {
      EffectiveIsAll(Init(itr));
      assert itr == Init(itr) + [Last(itr)];
      if NoneEmpty(itr) { assert NoneEmpty(Init(itr)); }
    }
  }

  // ---------------------------------------------------------------- every choice exactly once

  ghost predicate DistinctNames(items: seq<Item>) {
    forall i, j :: 0 <= i < j < |items| ==> items[i].name != items[j].name
  }

  function Names(items: seq<Item>): set<string> {
    set item | item in items :: item.name
  }

  lemma NamesOfInit(items: seq<Item>)
    requires items != []
    ensures Names(items) == Names(Init(items)) + {Last(items).name}
    ensures DistinctNames(items) ==> Last(items).name !in Names(Init(items))
  {
    assert items == Init(items) + [Last(items)];
    if Last(items).name in Names(Init(items)) {
      var i :| 0 <= i < |items| - 1 && items[i].name == Last(items).name;
    }
  }

  lemma {:induction false} EntryKeys(items: seq<Item>, k: nat)
    requires NoneEmpty(items)
    ensures Entry(items, k).Keys == Names(items)
    decreases |items|
  {
    if items != [] {
      EntryKeys(Init(items), k);
      NamesOfInit(items);
    }
  }

  /** Closed form: label k gives item i its value number (k / product of the earlier sizes) mod n_i. */
  lemma {:induction false} EntryAt(items: seq<Item>, k: nat, i: nat)
    requires NoneEmpty(items) && DistinctNames(items) && i < |items|
    ensures Choices(items[..i]) > 0 && items[i].name in Entry(items, k)
    ensures Entry(items, k)[items[i].name] == items[i].values[(k / Choices(items[..i])) % |items[i].values|]
    decreases |items|
  {
    ChoicesPositive(items[..i]);
    if i < |items| - 1 {
      EntryAt(Init(items), k, i);
      assert Init(items)[..i] == items[..i];
      assert items[i].name != Last(items).name;
    }
  }

  /** A label that gives every item one of its values. */
  ghost predicate Chooses(items: seq<Item>, choice: Label) {
    && choice.Keys == Names(items)
    && forall i :: 0 <= i < |items| ==> items[i].name in choice && choice[items[i].name] in items[i].values
  }

  lemma Digits(c: nat, v: nat, below: nat, j: nat)
    requires below < c && j < v
    ensures 0 <= below + j * c < v * c && (below + j * c) / c == j && (below + j * c) / c % v == j
  {
    ProductNotNegative(j, c);
    MulGap(j, v, c);
    Quotient(below + j * c, c, j, below);
    SmallRemainder(j, v);
  }

  lemma AddDigit(items: seq<Item>, below: nat, j: nat) returns (k: nat)
    requires items != [] && NoneEmpty(items) && below < Choices(Init(items)) && j < |Last(items).values|
    ensures k < Choices(items)
    ensures Entry(items, k) == Entry(Init(items), below)[Last(items).name := Last(items).values[j]]
  {
    var c, v := Choices(Init(items)), |Last(items).values|;
    Digits(c, v, below, j);
    k := below + j * c;
    EntryUnfolds(items, k);
    hide Choices, NoneEmpty, Entry;
    EntryShift(Init(items), below, j);
  }

  lemma ChoosesBelow(items: seq<Item>, choice: Label)
    requires items != [] && DistinctNames(items) && Chooses(items, choice)
    ensures var name := Last(items).name;
      && name in choice && choice[name] in Last(items).values
      && Chooses(Init(items), choice - {name}) && (choice - {name})[name := choice[name]] == choice
  {
    NamesOfInit(items);
    var name := Last(items).name;
    assert items[|items| - 1].name == name;
    forall i | 0 <= i < |items| - 1 ensures items[i].name in choice - {name} { }
    hide Names;
    assert (choice - {name}).Keys == choice.Keys - {name};
  }

  lemma {:induction false} EveryChoiceAppears(items: seq<Item>, choice: Label) returns (k: nat)
    requires NoneEmpty(items) && DistinctNames(items) && Chooses(items, choice)
    ensures k < Choices(items) && Entry(items, k) == choice
    decreases |items|
  {
    if items == [] {
      k := 0;
    } else {
      ChoosesBelow(items, choice);
      var name, values := Last(items).name, Last(items).values;
      hide Entry, Choices, Chooses;
      var below := EveryChoiceAppears(Init(items), choice - {name});
      var j :| 0 <= j < |values| && values[j] == choice[name];
      k := AddDigit(items, below, j);
    }
  }

  /** Equal labels have the same value of the last item, and equal labels of the others. */
  lemma EqualEntries(items: seq<Item>, k: nat, k': nat)
    requires items != [] && NoneEmpty(items) && DistinctNames(items) && Entry(items, k) == Entry(items, k')
    ensures NoneEmpty(Init(items)) && Choices(Init(items)) > 0 && Entry(Init(items), k) == Entry(Init(items), k')
    ensures var c, values := Choices(Init(items)), Last(items).values;
      values[(k / c) % |values|] == values[(k' / c) % |values|]
  {
    var name := Last(items).name;
    EntryUnfolds(items, k);
    EntryUnfolds(items, k');
    NamesOfInit(items);
    EntryKeys(Init(items), k);
    EntryKeys(Init(items), k');
    hide Entry, Choices, Names, NoneEmpty, DistinctNames;
    var v, v' := Entry(items, k)[name], Entry(items, k')[name];
    assert Entry(items, k) == Entry(Init(items), k)[name := v];
    assert Entry(items, k') == Entry(Init(items), k')[name := v'];
    assert Entry(Init(items), k) == Entry(items, k) - {name};
    assert Entry(Init(items), k') == Entry(items, k') - {name};
  }

  lemma {:induction false} EntryInjective(items: seq<Item>, k: nat, k': nat)
    requires NoneEmpty(items) && DistinctNames(items) && (forall i :: 0 <= i < |items| ==> Distinct(items[i].values))
    requires k < Choices(items) && k' < Choices(items) && Entry(items, k) == Entry(items, k')
    ensures k == k'
    decreases |items|
  {
    if items != [] {
      var init, values, c := Init(items), Last(items).values, Choices(Init(items));
      EntryUnfolds(items, k);
      EqualEntries(items, k, k');
      assert Distinct(values) by { assert Distinct(items[|items| - 1].values); }
      hide Entry, Choices;
      DigitBound(k, c, |values|);
      DigitBound(k', c, |values|);
      EntryPeriod(init, k);
      EntryPeriod(init, k');
      EntryInjective(init, k % c, k' % c);
    }
  }

  /** With distinct names, and values given and not repeated, every choice appears exactly once. */
  lemma EveryChoiceOnce(itr: seq<Item>, choice: Label)
    requires itr != [] && NoneEmpty(itr) && DistinctNames(itr)
    requires forall i :: 0 <= i < |itr| ==> Distinct(itr[i].values)
    ensures var all := AllCombinations(itr);
      && |all| == Choices(itr)
      && (choice in all <==> Chooses(itr, choice))
      && forall k, k' :: 0 <= k < k' < |all| ==> all[k] != all[k']
  {
    CombinationsAreProduct(itr);
    EffectiveIsAll(itr);
    hide Entry, AllCombinations, Choices, Chooses;
    var all := AllCombinations(itr);
    if Chooses(itr, choice) {
      var k := EveryChoiceAppears(itr, choice);
      assert all[k] == choice;
    }
    if choice in all {
      var k :| 0 <= k < |all| && all[k] == choice;
      EntryChooses(itr, k);
    }
    forall k, k' | 0 <= k < k' < |all| ensures all[k] != all[k'] {
      if all[k] == all[k'] { EntryInjective(itr, k, k'); }
    }
  }

  lemma EntryChooses(items: seq<Item>, k: nat)
    requires NoneEmpty(items) && DistinctNames(items)
    ensures Chooses(items, Entry(items, k))
  {
    EntryKeys(items, k);
    forall i | 0 <= i < |items|
      ensures items[i].name in Entry(items, k) && Entry(items, k)[items[i].name] in items[i].values
    {
      hide Entry;
      EntryAt(items, k, i);
    }
  }
}
