/** What a write to one location of a job spec leaves alone, and composite writes
    (controllers/iteration.go). */
module SpecFrame {
  import opened Wrappers
  import opened Lists
  import opened Text
  import opened Tokens
  import opened SpecTree

  /** The token after a selector names something else than the selecting field. */
  predicate FreeOf(k: Key, rest: seq<string>) {
    k.Selector? && rest != [] && ParseKey(rest[0]).Some? ==> ParseKey(rest[0]).value.name != k.sk
  }

  /** A well-formed path for `obj`: what it passes through are maps or absent, it ends at a scalar,
      at an absent field or right behind a list, and it does not go through its own selectors. */
  predicate Proper(obj: Obj, keys: seq<string>)
    decreases |keys|
  {
    if keys == [] then false
    else
      var key, rest := ParseKey(keys[0]), keys[1..];
      if key.None? || GetChild(obj, key.value).None? then false
      else
        var k, hit := key.value, GetChild(obj, key.value).value;
        match hit.next
        case Map(fields) => Proper(fields, rest) && FreeOf(k, rest)
        case List(_) => false
        case Null =>
          if rest == [] then k.Field? || (k.Index? && k.i == |hit.obj[k.name].items|)
          else !k.Index? && Proper(Below(k, Null), rest) && FreeOf(k, rest)
        case _ => rest == []
  }

  /** A path that can be followed in any object: no negative index, no selector on its next name. */
  predicate Plain(keys: seq<string>)
    decreases |keys|
  {
    keys != [] ==>
      && ParseKey(keys[0]).Some?
      && (ParseKey(keys[0]).value.Index? ==> ParseKey(keys[0]).value.i >= 0)
      && FreeOf(ParseKey(keys[0]).value, keys[1..])
      && Plain(keys[1..])
  }

  predicate Apart(a: Key, b: Key) {
    || a.name != b.name
    || (a.Index? && b.Index? && a.i != b.i)
    || (a.Selector? && b.Selector? && a.sk == b.sk && a.sv != b.sv)
  }

  /** The paths part at some token: another name, another index, or another value selected by the
      same field. */
  predicate Separate(p: seq<string>, q: seq<string>)
    decreases |p|
  {
    && p != [] && q != []
    && ParseKey(p[0]).Some? && ParseKey(q[0]).Some?
    && var a, b := ParseKey(p[0]).value, ParseKey(q[0]).value;
    Apart(a, b) || (a == b && Separate(p[1..], q[1..]))
  }

  lemma {:induction false} SeparateSymmetric(p: seq<string>, q: seq<string>)
    requires Separate(p, q)
    ensures Separate(q, p)
    decreases |p|
  {
    if !Apart(ParseKey(p[0]).value, ParseKey(q[0]).value) { SeparateSymmetric(p[1..], q[1..]); }
  }

  lemma {:induction false} ProperLands(obj: Obj, keys: seq<string>, v: string)
    requires Proper(obj, keys)
    ensures Lands(obj, keys, v)
    decreases |keys|
  {
    var k, rest := ParseKey(keys[0]).value, keys[1..];
    var next := GetChild(obj, k).value.next;
    if next.Map? || (next == Null && rest != []) {
      ProperLands(Below(k, next), rest, v);
    }
  }

  // ---------------------------------------------------------------- what a path leads to

  /** What lies at the end of a path: None if following it panics, Some(None) if nothing is there. */
  function Probe(obj: Obj, keys: seq<string>): Option<Option<Value>>
    decreases |keys|
  {
    if keys == [] || ParseKey(keys[0]).None? || GetChild(obj, ParseKey(keys[0]).value).None? then None
    else
      var k := ParseKey(keys[0]).value;
      var next := GetChild(obj, k).value.next;
      match next
      case Null => Some(None)
      case Map(fields) => Probe(fields, keys[1..])
      case List(_) => if k.Field? then None else Some(Some(next))
      case _ => Some(Some(next))
  }

  /** Reading returns what is there, or "nil"; what is there is read without touching the object. */
  lemma {:induction false} ReadIsProbe(obj: Obj, keys: seq<string>)
    ensures Read(obj, keys).None? <==> Probe(obj, keys).None?
    ensures Probe(obj, keys) == Some(None) ==> Read(obj, keys).value.value == MISSING
    ensures Probe(obj, keys).Some? && Probe(obj, keys).value.Some? ==>
      Read(obj, keys) == Some(Got(Probe(obj, keys).value.value, obj))
    decreases |keys|
  {
    if keys != [] && ParseKey(keys[0]).Some? && GetChild(obj, ParseKey(keys[0]).value).Some? {
      var k := ParseKey(keys[0]).value;
      var hit := GetChild(obj, k).value;
      hide ParseKey, Find;
      if hit.next.Map? {
        ReadIsProbe(hit.next.fields, keys[1..]);
        SameStored(obj, k);
      } else if hit.next != Null {
        assert hit.obj == obj;
      }
    }
  }

  lemma SameStored(obj: Obj, k: Key)
    requires GetChild(obj, k).Some? && GetChild(obj, k).value.next.Map?
    ensures var hit := GetChild(obj, k).value; Store(hit, k, hit.next) == Some(obj)
    ensures forall w :: Store(GetChild(obj, k).value, k, w).Some?
  {
    var hit := GetChild(obj, k).value;
    if k.Field? {
      assert obj[k.name := obj[k.name]] == obj;
    } else {
      assert k.name in obj && obj[k.name].List?;
      var items := obj[k.name].items;
      assert obj[k.name := List(items)] == obj;
      assert 0 <= hit.pos < |items| && items[hit.pos := items[hit.pos]] == items;
    }
  }

  lemma FreshIsMissing(k: Key, keys: seq<string>)
    requires keys != [] && Plain(keys) && FreeOf(k, keys)
    ensures Probe(Below(k, Null), keys) == Some(None)
  {
  }

  // ---------------------------------------------------------------- one key apart

  predicate SameType(a: Value, b: Value) {
    (a.Int? <==> b.Int?) && (a.Float? <==> b.Float?) && (a.Bool? <==> b.Bool?)
  }

  function At(items: seq<Value>, pos: int): Value {
    if 0 <= pos < |items| then items[pos] else Null
  }

  /** Replacing what one selector found does not change what another value of it finds. */
  lemma {:induction false} FindOther(items: seq<Value>, sk: string, x: string, y: string, sub: Obj)
    requires Find(items, sk, x).Some? && sk in sub && sub[sk] == Str(x) && x != y
    ensures var items' := SetOrAppend(items, Find(items, sk, x).value, Map(sub));
      var f, f' := Find(items, sk, y), Find(items', sk, y);
      (f.Some? <==> f'.Some?) && (f.Some? ==> At(items, f.value) == At(items', f'.value))
  {
    var items' := SetOrAppend(items, Find(items, sk, x).value, Map(sub));
    if items == [] {
      assert items'[1..] == [];
    } else if Find(items, sk, x).value > 0 {
      FindOther(items[1..], sk, x, y, sub);
      assert items'[1..] == SetOrAppend(items[1..], Find(items[1..], sk, x).value, Map(sub));
    } else {
      assert items'[1..] == items[1..];
    }
  }

  /** How a write on a proper path changes the list its first key indexes. */
  lemma ElementWritten(obj: Obj, p: seq<string>, v: string, pf: string -> real)
    requires Proper(obj, p) && ParseKey(p[0]).value.Index? && Update(obj, p, v, pf).Some?
    ensures var k := ParseKey(p[0]).value;
      var items := GetChild(obj, k).value.obj[k.name].items;
      && 0 <= k.i <= |items|
      && exists w: Value :: !w.Null? && Update(obj, p, v, pf).value == obj[k.name := List(SetOrAppend(items, k.i, w))]
                  && (|items| > 0 && k.i == 0 ==> SameType(w, items[0]))
  {
    hide ParseKey;
    var k := ParseKey(p[0]).value;
    var hit := GetChild(obj, k).value;
    var items := hit.obj[k.name].items;
    var w := if hit.next.Map? then Map(Update(hit.next.fields, p[1..], v, pf).value)
             else if hit.next == Null then Str(v) else Coerce(items[0], v, pf);
    assert Update(obj, p, v, pf).value == obj[k.name := List(SetOrAppend(items, k.i, w))];
  }

  lemma SelectedWritten(obj: Obj, p: seq<string>, v: string, pf: string -> real)
    requires Proper(obj, p) && ParseKey(p[0]).value.Selector? && Update(obj, p, v, pf).Some?
    ensures var k := ParseKey(p[0]).value;
      var items := GetChild(obj, k).value.obj[k.name].items;
      && Find(items, k.sk, k.sv).Some?
      && exists sub: Obj :: k.sk in sub && sub[k.sk] == Str(k.sv) &&
           Update(obj, p, v, pf).value
             == obj[k.name := List(SetOrAppend(items, Find(items, k.sk, k.sv).value, Map(sub)))]
  {
    var k := ParseKey(p[0]).value;
    var hit := GetChild(obj, k).value;
    SelectedIsMap(obj, k);
    BelowMatches(obj, k);
    var below := Below(k, hit.next);
    UpdateKeepsSelector(below, p[1..], v, pf, k);
    hide ParseKey, Coerce, Find;
    var sub := Update(below, p[1..], v, pf).value;
    assert Update(obj, p, v, pf) == Store(hit, k, Map(sub));
  }

  /** A key apart from the first key of the path finds the same value before and after. */
  lemma ApartFindsSame(obj: Obj, p: seq<string>, b: Key, v: string, pf: string -> real)
    requires Proper(obj, p) && Apart(ParseKey(p[0]).value, b) && Update(obj, p, v, pf).Some?
    ensures var obj' := Update(obj, p, v, pf).value;
      && (GetChild(obj', b).Some? <==> GetChild(obj, b).Some?)
      && (GetChild(obj, b).Some? ==> GetChild(obj', b).value.next == GetChild(obj, b).value.next)
  {
    var a := ParseKey(p[0]).value;
    UpdateTouches(obj, p, v, pf);
    if a.name != b.name {
      NameFindsSame(obj, Update(obj, p, v, pf).value, a.name, b);
    } else if a.Index? {
      ElementWritten(obj, p, v, pf);
      var items := GetChild(obj, a).value.obj[a.name].items;
      var w: Value :| !w.Null? && Update(obj, p, v, pf).value == obj[a.name := List(SetOrAppend(items, a.i, w))];
      ElementFindsSame(obj, a, b, w);
    } else {
      SelectedFindsSame(obj, p, b, v, pf);
    }
    hide ParseKey, Proper, Update, Find, GetChild;
  }

  lemma NameFindsSame(obj: Obj, obj': Obj, name: string, b: Key)
    requires name in obj' && obj' == obj[name := obj'[name]] && name != b.name
    ensures (GetChild(obj', b).Some? <==> GetChild(obj, b).Some?)
    ensures (GetChild(obj, b).Some? ==> GetChild(obj', b).value.next == GetChild(obj, b).value.next)
  {
    hide Find;
  }

  lemma ElementFindsSame(obj: Obj, a: Key, b: Key, w: Value)
    requires a.Index? && b.Index? && a.name == b.name && a.i != b.i && GetChild(obj, a).Some?
    requires 0 <= a.i <= |GetChild(obj, a).value.obj[a.name].items|
    ensures var items := GetChild(obj, a).value.obj[a.name].items;
      var obj' := obj[a.name := List(SetOrAppend(items, a.i, w))];
      && (GetChild(obj', b).Some? <==> GetChild(obj, b).Some?)
      && (GetChild(obj, b).Some? ==> GetChild(obj', b).value.next == GetChild(obj, b).value.next)
  {
    hide Find;
  }

  lemma SelectedFindsSame(obj: Obj, p: seq<string>, b: Key, v: string, pf: string -> real)
    requires Proper(obj, p) && ParseKey(p[0]).value.Selector? && Update(obj, p, v, pf).Some?
    requires var a := ParseKey(p[0]).value; b.Selector? && a.name == b.name && a.sk == b.sk && a.sv != b.sv
    ensures var obj' := Update(obj, p, v, pf).value;
      && (GetChild(obj', b).Some? <==> GetChild(obj, b).Some?)
      && (GetChild(obj, b).Some? ==> GetChild(obj', b).value.next == GetChild(obj, b).value.next)
  {
    var a := ParseKey(p[0]).value;
    SelectedWritten(obj, p, v, pf);
    var items := GetChild(obj, a).value.obj[a.name].items;
    var sub: Obj :| a.sk in sub && sub[a.sk] == Str(a.sv) &&
      Update(obj, p, v, pf).value == obj[a.name := List(SetOrAppend(items, Find(items, a.sk, a.sv).value, Map(sub)))];
    FindOther(items, a.sk, a.sv, b.sv, sub);
    hide ParseKey, Proper, Update, Find;
  }

  // ---------------------------------------------------------------- frame

  /** A write on a proper path leaves every separate path reading what it read before. */
  lemma {:induction false} Frame(obj: Obj, p: seq<string>, q: seq<string>, v: string, pf: string -> real)
    requires Proper(obj, p) && Plain(q) && Separate(p, q)
    ensures Update(obj, p, v, pf).Some?
    ensures Probe(Update(obj, p, v, pf).value, q) == Probe(obj, q)
    decreases |p|
  {
    WriteSucceeds(obj, p, v, pf);
    var a, b := ParseKey(p[0]).value, ParseKey(q[0]).value;
    if Apart(a, b) {
      FrameApart(obj, p, q, v, pf);
    } else {
      var below := Below(a, GetChild(obj, a).value.next);
      Frame(below, p[1..], q[1..], v, pf);
      Descends(obj, p, v, pf);
      ProbeGoesDown(obj, q);
      ProbeGoesDown(Update(obj, p, v, pf).value, q);
      hide ParseKey, Update, Find, Proper, Separate, Plain, Probe;
    }
  }

  /** Probing through a map or an absent place is probing the map below, which may be a fresh one. */
  lemma ProbeGoesDown(obj: Obj, q: seq<string>)
    requires q != [] && Plain(q) && GetChild(obj, ParseKey(q[0]).value).Some?
    requires var k := ParseKey(q[0]).value; var next := GetChild(obj, k).value.next;
      next.Map? || (next == Null && q[1..] != [])
    ensures Probe(obj, q) == Probe(Below(ParseKey(q[0]).value, GetChild(obj, ParseKey(q[0]).value).value.next), q[1..])
  {
    var k := ParseKey(q[0]).value;
    if GetChild(obj, k).value.next == Null { FreshIsMissing(k, q[1..]); }
    hide ParseKey, Find;
  }

  lemma WriteSucceeds(obj: Obj, p: seq<string>, v: string, pf: string -> real)
    requires Proper(obj, p)
    ensures Update(obj, p, v, pf).Some?
  {
    ProperLands(obj, p, v);
    PutGet(obj, p, v, pf);
  }

  lemma FrameApart(obj: Obj, p: seq<string>, q: seq<string>, v: string, pf: string -> real)
    requires Proper(obj, p) && Plain(q) && q != [] && Apart(ParseKey(p[0]).value, ParseKey(q[0]).value)
    requires Update(obj, p, v, pf).Some?
    ensures Probe(Update(obj, p, v, pf).value, q) == Probe(obj, q)
  {
    ApartFindsSame(obj, p, ParseKey(q[0]).value, v, pf);
    hide ParseKey, Update, Find, Proper;
  }

  /** A write on a longer proper path replaces the submap its first key finds, or creates it. */
  lemma Descends(obj: Obj, p: seq<string>, v: string, pf: string -> real)
    requires Proper(obj, p) && |p| > 1 && Update(obj, p, v, pf).Some?
    ensures var k := ParseKey(p[0]).value;
      && (GetChild(obj, k).value.next.Map? || (GetChild(obj, k).value.next == Null && !k.Index?))
      && var below := Below(k, GetChild(obj, k).value.next);
      && Proper(below, p[1..])
      && Update(below, p[1..], v, pf).Some?
      && GetChild(Update(obj, p, v, pf).value, k).Some?
      && GetChild(Update(obj, p, v, pf).value, k).value.next == Map(Update(below, p[1..], v, pf).value)
  {
    var k := ParseKey(p[0]).value;
    var hit := GetChild(obj, k).value;
    var below := Below(k, hit.next);
    BelowMatches(obj, k);
    if k.Selector? { UpdateKeepsSelector(below, p[1..], v, pf, k); }
    StoredIsFound(obj, k, Update(below, p[1..], v, pf).value);
  }

  // ---------------------------------------------------------------- several writes

  lemma SameTypeCoerces(a: Value, b: Value, v: string, pf: string -> real)
    requires SameType(a, b)
    ensures Coerce(a, v, pf) == Coerce(b, v, pf)
  {
  }

  /** The list an apart index looks into: as long as before if it looked right behind the list,
      with a first element of the same type. */
  lemma ApartListKept(obj: Obj, p: seq<string>, b: Key, v: string, pf: string -> real)
    requires Proper(obj, p) && b.Index? && Apart(ParseKey(p[0]).value, b) && Update(obj, p, v, pf).Some?
    requires GetChild(obj, b).Some? && GetChild(Update(obj, p, v, pf).value, b).Some?
    requires !(ParseKey(p[0]).value.Selector? && ParseKey(p[0]).value.name == b.name)
    ensures var items, items' := GetChild(obj, b).value.obj[b.name].items,
                                 GetChild(Update(obj, p, v, pf).value, b).value.obj[b.name].items;
      && (b.i == |items| ==> |items'| == |items|)
      && (items != [] ==> items' != [] && SameType(items[0], items'[0]))
  {
    var a := ParseKey(p[0]).value;
    UpdateTouches(obj, p, v, pf);
    if a.name == b.name {
      ElementWritten(obj, p, v, pf);
      var items := GetChild(obj, a).value.obj[a.name].items;
      var w: Value :| !w.Null? && Update(obj, p, v, pf).value == obj[a.name := List(SetOrAppend(items, a.i, w))]
        && (|items| > 0 && a.i == 0 ==> SameType(w, items[0]));
      hide ParseKey, Proper, Update, Find, SameType;
      SameTypeIsReflexive(items);
    } else {
      hide ParseKey, Proper, Update, Find, SameType;
      var items := GetChild(obj, b).value.obj[b.name].items;
      assert GetChild(Update(obj, p, v, pf).value, b).value.obj[b.name].items == items;
      SameTypeIsReflexive(items);
    }
  }

  lemma SameTypeIsReflexive(items: seq<Value>)
    ensures items != [] ==> SameType(items[0], items[0])
  {
  }

  /** A write on one proper path keeps a separate one proper, and what decides the type there. */
  lemma {:induction false} ProperKept(obj: Obj, p: seq<string>, q: seq<string>, v: string, pf: string -> real)
    requires Proper(obj, p) && Proper(obj, q) && Separate(p, q)
    ensures Update(obj, p, v, pf).Some?
    ensures Proper(Update(obj, p, v, pf).value, q)
    ensures SameType(Typing(obj, q), Typing(Update(obj, p, v, pf).value, q))
    decreases |p|
  {
    ProperReadsBack(obj, p, v, pf);
    var a, b := ParseKey(p[0]).value, ParseKey(q[0]).value;
    if Apart(a, b) {
      ProperKeptApart(obj, p, q, v, pf);
    } else {
      var below := Below(a, GetChild(obj, a).value.next);
      Descends(obj, p, v, pf);
      assert Proper(below, q[1..]);
      ProperKept(below, p[1..], q[1..], v, pf);
      hide ParseKey, Update, Find, Separate;
    }
  }

  lemma ProperKeptApart(obj: Obj, p: seq<string>, q: seq<string>, v: string, pf: string -> real)
    requires Proper(obj, p) && Proper(obj, q) && Update(obj, p, v, pf).Some?
    requires Apart(ParseKey(p[0]).value, ParseKey(q[0]).value)
    ensures Proper(Update(obj, p, v, pf).value, q)
    ensures SameType(Typing(obj, q), Typing(Update(obj, p, v, pf).value, q))
  {
    var b := ParseKey(q[0]).value;
    ApartFindsSame(obj, p, b, v, pf);
    if b.Index? { ApartListKept(obj, p, b, v, pf); }
    ProperAlike(obj, Update(obj, p, v, pf).value, q);
  }

  /** A proper path is as proper in an object where its first key finds the same. */
  lemma ProperAlike(obj: Obj, obj': Obj, q: seq<string>)
    requires Proper(obj, q)
    requires var b := ParseKey(q[0]).value;
      && GetChild(obj', b).Some? && GetChild(obj', b).value.next == GetChild(obj, b).value.next
      && (b.Index? ==>
            var items, items' := GetChild(obj, b).value.obj[b.name].items, GetChild(obj', b).value.obj[b.name].items;
            && (b.i == |items| ==> |items'| == |items|)
            && (items != [] ==> items' != [] && SameType(items[0], items'[0])))
    ensures Proper(obj', q) && SameType(Typing(obj, q), Typing(obj', q))
  {
    hide ParseKey, Find;
  }

  lemma {:induction false} ProperIsPlain(obj: Obj, keys: seq<string>)
    requires Proper(obj, keys)
    ensures Plain(keys)
    decreases |keys|
  {
    var k, rest := ParseKey(keys[0]).value, keys[1..];
    var next := GetChild(obj, k).value.next;
    if next.Map? || (next == Null && rest != []) { ProperIsPlain(Below(k, next), rest); }
    hide ParseKey, Find;
  }

  datatype Write = Write(path: seq<string>, v: string)

  /** The loop of UpdateValue. */
  function UpdateAll(obj: Obj, ws: seq<Write>, pf: string -> real): Option<Obj>
    decreases |ws|
  {
    if ws == [] then Some(obj)
    else
      var obj' :- Update(obj, ws[0].path, ws[0].v, pf);
      UpdateAll(obj', ws[1..], pf)
  }

  ghost predicate Independent(obj: Obj, ws: seq<Write>) {
    && (forall i :: 0 <= i < |ws| ==> Proper(obj, ws[i].path))
    && (forall i, j :: 0 <= i < j < |ws| ==> Separate(ws[i].path, ws[j].path))
  }

  lemma IndependentAfter(obj: Obj, ws: seq<Write>, pf: string -> real)
    requires ws != [] && Independent(obj, ws)
    ensures Update(obj, ws[0].path, ws[0].v, pf).Some?
    ensures var obj' := Update(obj, ws[0].path, ws[0].v, pf).value;
      && Independent(obj', ws[1..])
      && forall i :: 0 < i < |ws| ==> Written(obj', ws[i].path, ws[i].v, pf) == Written(obj, ws[i].path, ws[i].v, pf)
  {
    hide Proper, Separate, Update, Typing, Coerce, SameType;
    ProperReadsBack(obj, ws[0].path, ws[0].v, pf);
    var obj' := Update(obj, ws[0].path, ws[0].v, pf).value;
    forall i | 0 < i < |ws|
      ensures Proper(obj', ws[i].path)
      ensures Written(obj', ws[i].path, ws[i].v, pf) == Written(obj, ws[i].path, ws[i].v, pf)
    {
      ProperKept(obj, ws[0].path, ws[i].path, ws[0].v, pf);
      SameTypeCoerces(Typing(obj, ws[i].path), Typing(obj', ws[i].path), ws[i].v, pf);
    }
  }

  lemma ProperReadsBack(obj: Obj, p: seq<string>, v: string, pf: string -> real)
    requires Proper(obj, p)
    ensures Update(obj, p, v, pf).Some?
    ensures Probe(Update(obj, p, v, pf).value, p) == Some(Some(Written(obj, p, v, pf)))
  {
    hide Proper, Lands, Update, Read, Probe, Typing;
    ProperLands(obj, p, v);
    PutGet(obj, p, v, pf);
    var obj' := Update(obj, p, v, pf).value;
    ReadIsProbe(obj', p);
    WrittenIsThere(obj, p, v, pf);
    assert Probe(obj', p).Some? && Probe(obj', p).value.Some?;
  }

  lemma {:induction false} WrittenIsThere(obj: Obj, p: seq<string>, v: string, pf: string -> real)
    requires Proper(obj, p) && Update(obj, p, v, pf).Some?
    ensures Probe(Update(obj, p, v, pf).value, p) != Some(None)
    decreases |p|
  {
    ProperLands(obj, p, v);
    PutGet(obj, p, v, pf);
    if |p| > 1 {
      var k := ParseKey(p[0]).value;
      var hit := GetChild(obj, k).value;
      if hit.next.Map? || hit.next == Null {
        Descends(obj, p, v, pf);
        WrittenIsThere(Below(k, hit.next), p[1..], v, pf);
      }
    } else {
      LeafIsThere(obj, p, v, pf);
    }
  }

  lemma LeafIsThere(obj: Obj, p: seq<string>, v: string, pf: string -> real)
    requires Proper(obj, p) && |p| == 1 && Update(obj, p, v, pf).Some?
    ensures Probe(Update(obj, p, v, pf).value, p) != Some(None)
  {
    var k := ParseKey(p[0]).value;
    if k.Index? {
      ElementWritten(obj, p, v, pf);
      hide ParseKey, Update;
    } else if k.Selector? {
      SelectedIsMap(obj, k);
    }
  }

  lemma {:induction false} FrameAll(obj: Obj, ws: seq<Write>, q: seq<string>, pf: string -> real)
    requires Independent(obj, ws) && Plain(q) && forall i :: 0 <= i < |ws| ==> Separate(ws[i].path, q)
    ensures UpdateAll(obj, ws, pf).Some?
    ensures Probe(UpdateAll(obj, ws, pf).value, q) == Probe(obj, q)
    decreases |ws|
  {
    hide Proper, Separate, Plain, Update, Probe;
    if ws != [] {
      Frame(obj, ws[0].path, q, ws[0].v, pf);
      IndependentAfter(obj, ws, pf);
      FrameAll(Update(obj, ws[0].path, ws[0].v, pf).value, ws[1..], q, pf);
    }
  }

  /** Writes on pairwise separate proper paths leave every location with its own value, coerced to
      the type it had at first; the order of the writes does not show in any of them. */
  lemma {:induction false} AllWritten(obj: Obj, ws: seq<Write>, pf: string -> real)
    requires Independent(obj, ws)
    ensures UpdateAll(obj, ws, pf).Some?
    ensures forall i :: 0 <= i < |ws| ==>
      Probe(UpdateAll(obj, ws, pf).value, ws[i].path) == Some(Some(Written(obj, ws[i].path, ws[i].v, pf)))
    decreases |ws|
  {
    hide Proper, Separate, Plain, Update, Probe, Written;
    if ws != [] {
      IndependentAfter(obj, ws, pf);
      ProperReadsBack(obj, ws[0].path, ws[0].v, pf);
      ProperIsPlain(obj, ws[0].path);
      var obj' := Update(obj, ws[0].path, ws[0].v, pf).value;
      forall i | 0 <= i < |ws| - 1 ensures Separate(ws[1..][i].path, ws[0].path) {
        SeparateSymmetric(ws[0].path, ws[i + 1].path);
      }
      FrameAll(obj', ws[1..], ws[0].path, pf);
      AllWritten(obj', ws[1..], pf);
      forall i | 0 < i < |ws|
        ensures Probe(UpdateAll(obj, ws, pf).value, ws[i].path) == Some(Some(Written(obj, ws[i].path, ws[i].v, pf)))
      {
        assert ws[1..][i - 1] == ws[i];
      }
    }
  }

  lemma {:induction false} NotSeparateFromItself(p: seq<string>)
    ensures !Separate(p, p)
    decreases |p|
  {
    if p != [] { NotSeparateFromItself(p[1..]); }
  }

  lemma IndependentDistinct(obj: Obj, ws: seq<Write>)
    requires Independent(obj, ws)
    ensures Distinct(ws)
  {
    forall i, j | 0 <= i < j < |ws| ensures ws[i] != ws[j] { NotSeparateFromItself(ws[i].path); }
  }

  lemma RearrangedIndependent(obj: Obj, ws: seq<Write>, ws': seq<Write>)
    requires Independent(obj, ws) && multiset(ws) == multiset(ws')
    ensures Independent(obj, ws') && forall w :: w in ws <==> w in ws'
  {
    IndependentDistinct(obj, ws);
    RearrangedDistinct(ws, ws');
    hide Proper, Separate;
    forall i | 0 <= i < |ws'| ensures Proper(obj, ws'[i].path) { assert ws'[i] in ws; }
    forall i, j | 0 <= i < j < |ws'| ensures Separate(ws'[i].path, ws'[j].path) {
      assert ws'[i] in ws && ws'[j] in ws;
      var m :| 0 <= m < |ws| && ws[m] == ws'[i];
      var n :| 0 <= n < |ws| && ws[n] == ws'[j];
      if n < m { SeparateSymmetric(ws[n].path, ws[m].path); }
    }
  }

  /** Independent writes in any two orders leave the same values at all their locations, and at every
      location separate from them what was there before. */
  lemma OrderDoesNotShow(obj: Obj, ws: seq<Write>, ws': seq<Write>, q: seq<string>, pf: string -> real)
    requires Independent(obj, ws) && multiset(ws) == multiset(ws')
    requires (exists w :: w in ws && w.path == q) || (Plain(q) && forall w :: w in ws ==> Separate(w.path, q))
    ensures UpdateAll(obj, ws, pf).Some? && UpdateAll(obj, ws', pf).Some?
    ensures Probe(UpdateAll(obj, ws, pf).value, q) == Probe(UpdateAll(obj, ws', pf).value, q)
  {
    RearrangedIndependent(obj, ws, ws');
    hide Independent, Proper, Separate, Plain, UpdateAll, Probe, Written;
    AllWritten(obj, ws, pf);
    AllWritten(obj, ws', pf);
    if w :| w in ws && w.path == q {
      assert w in ws';
      var m :| 0 <= m < |ws| && ws[m] == w;
      var n :| 0 <= n < |ws'| && ws'[n] == w;
    } else {
      FrameAll(obj, ws, q, pf);
      FrameAll(obj, ws', q, pf);
    }
  }

  // ---------------------------------------------------------------- locations

  function WritesOf(paths: seq<seq<string>>, values: seq<string>): (ws: seq<Write>)
    ensures |ws| == if |values| < |paths| then |values| else |paths|
  {
    var n := if |values| < |paths| then |values| else |paths|;
    seq(n, i requires 0 <= i < n => Write(paths[i], values[i]))
  }

  /** UpdateValue: the paths of the location take the ';'-separated values in turn; "nil" writes nothing. */
  function UpdateLocation(obj: Obj, location: string, value: string, pf: string -> real): Option<Obj> {
    if value == "nil" then Some(obj)
    else
      var paths :- LocationTokens(location);
      UpdateAll(obj, WritesOf(paths, Split(value, ';')), pf)
  }

  /** What GetValue returns before formatting, and the object afterwards. `values` is None for the
      nil slice that stands for an empty string found somewhere. */
  datatype Values = Values(values: Option<seq<Value>>, obj: Obj)

  function ReadAll(obj: Obj, paths: seq<seq<string>>): Option<Values>
    decreases |paths|
  {
    if paths == [] then Some(Values(Some([]), obj))
    else
      var got :- Read(obj, paths[0]);
      if got.value == Str("") then Some(Values(None, got.obj))
      else
        var rest :- ReadAll(got.obj, paths[1..]);
        Some(if rest.values.None? then rest else Values(Some([got.value] + rest.values.value), rest.obj))
  }

  function ReadLocation(obj: Obj, location: string): Option<Values> {
    var paths :- LocationTokens(location);
    ReadAll(obj, paths)
  }

  /** A spec object, patched and read in place. A method that returns false has met a Go panic. */
  class SpecObject {
    var fields: Obj

    constructor (fields: Obj)
      ensures this.fields == fields
    {
      this.fields := fields;
    }

    method UpdateValue(location: string, value: string, pf: string -> real) returns (ok: bool)
      modifies this
      ensures ok <==> UpdateLocation(old(fields), location, value, pf).Some?
      ensures ok ==> Some(fields) == UpdateLocation(old(fields), location, value, pf)
    {
      if value == "nil" { return true; }
      var tokens := GetTokens(location);
      if tokens.None? { return false; }
      var paths, values, index := tokens.value, Split(value, ';'), 0;
      ghost var ws := WritesOf(paths, values);
      assert ws[0..] == ws;
      while index < |paths|
        invariant 0 <= index <= |paths|
        invariant var done := if index < |ws| then index else |ws|;
          UpdateLocation(old(fields), location, value, pf) == UpdateAll(fields, ws[done..], pf)
      {
        if index < |values| {
          assert ws[index..][1..] == ws[index + 1..];
          var modified := Update(fields, paths[index], values[index], pf);
          if modified.None? { return false; }
          fields := modified.value;
        }
        index := index + 1;
      }
      return true;
    }

    method GetValue(location: string) returns (r: Option<Values>)
      modifies this
      ensures r == ReadLocation(old(fields), location)
      ensures r.Some? ==> fields == r.value.obj
    {
      var tokens := GetTokens(location);
      if tokens.None? { return None; }
      var paths, values, index := tokens.value, [], 0;
      assert paths[0..] == paths;
      PrefixedNone(ReadAll(fields, paths));
      while index < |paths|
        invariant 0 <= index <= |paths|
        invariant ReadLocation(old(fields), location) == Prefixed(values, ReadAll(fields, paths[index..]))
      {
        assert paths[index..][1..] == paths[index + 1..];
        var got := Read(fields, paths[index]);
        if got.None? { return None; }
        PrefixedAppends(values, got.value.value, ReadAll(got.value.obj, paths[index + 1..]));
        fields := got.value.obj;
        if got.value.value == Str("") { return Some(Values(None, fields)); }
        values, index := values + [got.value.value], index + 1;
      }
      assert values + [] == values;
      return Some(Values(Some(values), fields));
    }
  }

  function Prefixed(values: seq<Value>, r: Option<Values>): Option<Values> {
    if r.None? || r.value.values.None? then r
    else Some(Values(Some(values + r.value.values.value), r.value.obj))
  }

  lemma PrefixedAppends(values: seq<Value>, v: Value, r: Option<Values>)
    ensures Prefixed(values + [v], r) == Prefixed(values, Prefixed([v], r))
  {
    if r.Some? && r.value.values.Some? {
      assert values + [v] + r.value.values.value == values + ([v] + r.value.values.value);
    }
  }

  lemma PrefixedNone(r: Option<Values>)
    ensures Prefixed([], r) == r
  {
    if r.Some? && r.value.values.Some? { assert [] + r.value.values.value == r.value.values.value; }
  }

  lemma {:induction false} PresentAllRead(obj: Obj, paths: seq<seq<string>>, found: seq<Value>)
    requires |found| == |paths| && forall i :: 0 <= i < |paths| ==> Probe(obj, paths[i]) == Some(Some(found[i]))
    ensures ReadAll(obj, paths) == Some(Values(if Str("") in found then None else Some(found), obj))
    decreases |paths|
  {
    hide Probe, Read;
    if paths != [] {
      ReadIsProbe(obj, paths[0]);
      if found[0] != Str("") { PresentAllRead(obj, paths[1..], found[1..]); }
      assert found == [found[0]] + found[1..];
    }
  }

  /** Setting a location: "nil" changes nothing; else, on separate proper paths, each path that has a value
      holds it then, under the type its place had, and the paths beyond the last value and all paths
      separate from those written hold what they held before. */
  lemma LocationWritten(obj: Obj, location: string, value: string, pf: string -> real, q: seq<string>)
    requires LocationTokens(location).Some?
    requires Independent(obj, WritesOf(LocationTokens(location).value, Split(value, ';')))
    ensures value == "nil" ==> UpdateLocation(obj, location, value, pf) == Some(obj)
    ensures var paths, values, obj' := LocationTokens(location).value, Split(value, ';'),
                                       UpdateLocation(obj, location, value, pf);
      value != "nil" ==>
        && obj'.Some?
        && (forall i :: 0 <= i < |paths| && i < |values| ==>
              Probe(obj'.value, paths[i]) == Some(Some(Written(obj, paths[i], values[i], pf))))
        && (Plain(q) && (forall i :: 0 <= i < |paths| && i < |values| ==> Separate(paths[i], q)) ==>
              Probe(obj'.value, q) == Probe(obj, q))
  {
    hide Probe, Written, UpdateAll, Independent, Split, LocationTokens, Plain, Separate;
    var paths, values := LocationTokens(location).value, Split(value, ';');
    var ws := WritesOf(paths, values);
    AllWritten(obj, ws, pf);
    forall i | 0 <= i < |ws| ensures ws[i] == Write(paths[i], values[i]) { }
    if Plain(q) && forall i :: 0 <= i < |ws| ==> Separate(ws[i].path, q) { FrameAll(obj, ws, q, pf); }
  }

  /** Setting a location and reading it back: with as many values as paths, on separate proper paths,
      GetValue returns every value under the type its place had, or nothing if one of them is the
      empty string, and changes nothing. */
  lemma SetThenGet(obj: Obj, location: string, value: string, pf: string -> real)
    requires value != "nil" && LocationTokens(location).Some?
    requires var paths, values := LocationTokens(location).value, Split(value, ';');
      |paths| <= |values| && Independent(obj, WritesOf(paths, values))
    ensures UpdateLocation(obj, location, value, pf).Some?
    ensures var paths, values := LocationTokens(location).value, Split(value, ';');
      var obj' := UpdateLocation(obj, location, value, pf).value;
      var found := seq(|paths|, i requires 0 <= i < |paths| => Written(obj, paths[i], values[i], pf));
      ReadLocation(obj', location) == Some(Values(if Str("") in found then None else Some(found), obj'))
  {
    hide Probe, Written, UpdateAll, Independent, Split, LocationTokens;
    var paths, values := LocationTokens(location).value, Split(value, ';');
    var ws := WritesOf(paths, values);
    AllWritten(obj, ws, pf);
    var obj' := UpdateAll(obj, ws, pf).value;
    var found := seq(|paths|, i requires 0 <= i < |paths| => Written(obj, paths[i], values[i], pf));
    forall i | 0 <= i < |paths| ensures Probe(obj', paths[i]) == Some(Some(found[i])) {
      assert ws[i] == Write(paths[i], values[i]);
    }
    PresentAllRead(obj', paths, found);
  }

  /** fmt's %v of a scalar; `show` renders a float. */
  function Shown(v: Value, show: real -> string): string {
    match v
    case Str(text) => text
    case Int(n) => ShowInt(n)
    case Float(x) => show(x)
    case Bool(b) => if b then "true" else "false"
    case _ => ""
  }

  /** A value shows as it was written exactly when it is canonical for the type of its place. */
  lemma ShownAsWritten(obj: Obj, keys: seq<string>, v: string, pf: string -> real, show: real -> string)
    ensures Shown(Written(obj, keys, v, pf), show) == v <==>
      match Typing(obj, keys)
      case Int(_) => CanonicalInt64(v)
      case Float(_) => show(pf(v)) == v
      case Bool(_) => v == "true" || v == "false"
      case _ => true
  {
    CanonicalInt64Exact(v);
  }
}
