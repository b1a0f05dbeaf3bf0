/** Locations as text and as places: what a printed key is read as, and which place of the tree a
    location's keys stand for, told without the code that follows them (controllers/iteration.go). */
module SpecPlaces {
  import opened Wrappers
  import opened Text
  import opened Tokens
  import opened SpecTree
  import opened SpecFrame

  // ---------------------------------------------------------------- keys as text

  function PrintKey(k: Key): string {
    match k
    case Field(name) => name
    case Index(name, i) => name + "[" + ShowInt(i) + "]"
    case Selector(name, sk, sv) => name + "[" + sk + "=" + sv + "]"
  }

  predicate ReadableKey(k: Key) {
    match k
    case Field(name) => '[' !in name
    case Index(name, i) => '[' !in name && ']' !in name && '=' !in name && MIN_INT64 <= i <= MAX_INT64
    case Selector(name, sk, sv) =>
      '[' !in name && ']' !in name && ']' !in sk && ']' !in sv && '=' !in sk && '=' !in sv
  }

  lemma {:induction false} IndexIsFirst(s: string, c: char, i: nat)
    requires i < |s| && s[i] == c && c !in s[..i]
    ensures IndexOf(s, c) == i
  {
    if i > 0 {
      assert s[..i][0] == s[0];
      assert forall k :: 0 <= k < i - 1 ==> s[1..][k] == s[..i][k + 1];
      IndexIsFirst(s[1..], c, i - 1);
    }
  }

  lemma {:induction false} NoneBeforeIndex(s: string, c: char)
    requires c in s
    ensures c !in s[..IndexOf(s, c)]
  {
    if s[0] != c {
      NoneBeforeIndex(s[1..], c);
      assert s[..IndexOf(s, c)] == [s[0]] + s[1..][..IndexOf(s[1..], c)];
    }
  }

  /** Where the brackets of a printed key are found. */
  lemma BracketsFound(name: string, inner: string)
    requires '[' !in name && ']' !in name && ']' !in inner
    ensures var token := name + "[" + inner + "]";
      && IndexOf(token, '[') == |name| && IndexOf(token, ']') == |name| + 1 + |inner|
      && token[..|name|] == name && token[|name| + 1..|name| + 1 + |inner|] == inner
  {
    var token := name + "[" + inner + "]";
    assert token[..|name|] == name && token[..|name| + 1 + |inner|] == name + "[" + inner;
    IndexIsFirst(token, '[', |name|);
    IndexIsFirst(token, ']', |name| + 1 + |inner|);
  }

  lemma IndexReadsBack(name: string, i: int)
    requires ReadableKey(Index(name, i))
    ensures ParseKey(PrintKey(Index(name, i))) == Some(Index(name, i))
  {
    hide ShowInt, ParseInt64, IndexOf, ParseKey;
    ShownIntParses(i);
    BracketsFound(name, ShowInt(i));
    IndexParsed(name + "[" + ShowInt(i) + "]");
  }

  lemma IndexParsed(token: string)
    requires '[' in token && '=' !in token && IndexOf(token, '[') < IndexOf(token, ']')
    ensures var start, end := IndexOf(token, '['), IndexOf(token, ']');
      ParseKey(token) == Some(Index(token[..start], ParseInt64(token[start + 1..end])))
  {
    hide ParseInt64, IndexOf;
  }

  lemma SelectorReadsBack(name: string, sk: string, sv: string)
    requires ReadableKey(Selector(name, sk, sv))
    ensures ParseKey(PrintKey(Selector(name, sk, sv))) == Some(Selector(name, sk, sv))
  {
    hide IndexOf, Split;
    var inner := sk + "=" + sv;
    BracketsFound(name, inner);
    SplitAppend(sk, sv, '=');
    SplitNone(sk, '=');
    SplitNone(sv, '=');
    assert name + "[" + sk + "=" + sv + "]" == name + "[" + inner + "]";
    assert '=' in name + "[" + inner + "]" by { assert (name + "[" + inner + "]")[|name| + 1 + |sk|] == '='; }
  }

  /** The pieces of a text hold only characters of the text. */
  lemma {:induction false} PartsAreInside(s: string, sep: char)
    ensures forall p, c :: p in Split(s, sep) && c in p ==> c in s
  {
    if s != "" {
      PartsAreInside(s[1..], sep);
      var rest := Split(s[1..], sep);
      assert s == [s[0]] + s[1..];
      forall p, c | p in Split(s, sep) && c in p ensures c in s {
        if s[0] == sep {
          assert p == "" || p in rest;
        } else if p != [s[0]] + rest[0] {
          assert p in rest[1..] && p in rest;
        }
      }
    }
  }

  /** What stands in front of the first brackets, and between them. */
  lemma BracketsCut(token: string)
    requires '[' in token && IndexOf(token, '[') < IndexOf(token, ']')
    ensures var start, end := IndexOf(token, '['), IndexOf(token, ']');
      && '[' !in token[..start] && ']' !in token[..start] && ']' !in token[start + 1..end]
  {
    var start, end := IndexOf(token, '['), IndexOf(token, ']');
    NoneBeforeIndex(token, '[');
    NoneBeforeIndex(token, ']');
    assert token[..start] == token[..end][..start] && token[start + 1..end] == token[..end][start + 1..];
  }

  /** Whatever text a key is read from, the key is a readable one. */
  lemma ParsedIsReadable(token: string)
    ensures ParseKey(token).Some? ==> ReadableKey(ParseKey(token).value)
  {
    hide Split, IndexOf, ParseInt64;
    if '[' in token && ParseKey(token).Some? {
      BracketsCut(token);
      var inner := token[IndexOf(token, '[') + 1..IndexOf(token, ']')];
      JoinSplit(inner, '=');
      PartsAreInside(inner, '=');
      ParsedInRange(inner);
    }
  }

  lemma ParsedInRange(s: string)
    ensures MIN_INT64 <= ParseInt64(s) <= MAX_INT64
  {
  }

  /** A printed key is read as itself exactly when its names, number and values are readable. */
  lemma KeyReadsBack(k: Key)
    ensures ParseKey(PrintKey(k)) == Some(k) <==> ReadableKey(k)
  {
    ParsedIsReadable(PrintKey(k));
    if ReadableKey(k) {
      match k
      case Field(name) =>
      case Index(name, i) => IndexReadsBack(name, i);
      case Selector(name, sk, sv) => SelectorReadsBack(name, sk, sv);
    }
  }

  // ---------------------------------------------------------------- keys as places

  /** The list under a name, none counting as empty. */
  function ItemsAt(obj: Obj, name: string): seq<Value> {
    if name in obj && obj[name].List? then obj[name].items else []
  }

  /** Element p is the first map whose field `sk` says `sv`, or p is right behind the list if there is
      none; up to p there are only maps, with text under `sk` if anything. */
  ghost predicate Selects(items: seq<Value>, sk: string, sv: string, p: nat) {
    && p <= |items|
    && (p < |items| ==> items[p].Map? && sk in items[p].fields && items[p].fields[sk] == Str(sv))
    && forall q :: 0 <= q < p ==>
         items[q].Map? && (sk in items[q].fields ==> items[q].fields[sk].Str? && items[q].fields[sk] != Str(sv))
  }

  /** The key stands for position p: 0 for a field, which is no list position. */
  ghost predicate Spot(obj: Obj, k: Key, p: nat) {
    match k
    case Field(_) => p == 0
    case Index(name, i) => (name in obj ==> obj[name].List?) && p == i
    case Selector(name, sk, sv) => (name in obj ==> obj[name].List?) && Selects(ItemsAt(obj, name), sk, sv, p)
  }

  /** What stands there, Null for nothing. */
  function Child(obj: Obj, k: Key, p: nat): Value {
    if k.Field? then (if k.name in obj then obj[k.name] else Null)
    else if p < |ItemsAt(obj, k.name)| then ItemsAt(obj, k.name)[p] else Null
  }

  /** The object with `w` in that place and all else as it was; right behind a list it is appended. */
  function With(obj: Obj, k: Key, p: nat, w: Value): Obj {
    if k.Field? then obj[k.name := w]
    else
      var items := ItemsAt(obj, k.name);
      obj[k.name := List(if p < |items| then items[p := w] else items + [w])]
  }

  /** The map to go on in: the one that stands there, or a new one that the selector will match. */
  function Inside(k: Key, child: Value): Obj {
    match child
    case Map(fields) => fields
    case _ => if k.Selector? then map[k.sk := Str(k.sv)] else map[]
  }

  /** `ps` are the positions of the keys on a way through maps, present or new, to a scalar, to an absent
      field, or right behind a list. */
  ghost predicate Leads(obj: Obj, ks: seq<Key>, ps: seq<nat>)
    decreases |ks|
  {
    && |ks| == |ps| && ks != [] && Spot(obj, ks[0], ps[0])
    && var k, p, child := ks[0], ps[0], Child(obj, ks[0], ps[0]);
    if |ks| == 1 then
      && !child.Map? && !child.List?
      && (child == Null ==> k.Field? || (k.Index? && p == |ItemsAt(obj, k.name)|))
    else
      && (child.Map? || (child == Null && !k.Index?))
      && Leads(Inside(k, child), ks[1..], ps[1..])
  }

  /** The value whose type a write takes on: nothing for what is not there, the first element for an
      element of a list, else what is there. */
  function TypeAt(obj: Obj, k: Key, p: nat): Value {
    if Child(obj, k, p) == Null then Null
    else if k.Field? then Child(obj, k, p) else ItemsAt(obj, k.name)[0]
  }

  /** The tree with the text `v` written at the place. */
  function PutAt(obj: Obj, ks: seq<Key>, ps: seq<nat>, v: string, pf: string -> real): Obj
    requires |ks| == |ps|
    decreases |ks|
  {
    if ks == [] then obj
    else
      var k, p := ks[0], ps[0];
      if |ks| == 1 then With(obj, k, p, Coerce(TypeAt(obj, k, p), v, pf))
      else With(obj, k, p, Map(PutAt(Inside(k, Child(obj, k, p)), ks[1..], ps[1..], v, pf)))
  }

  /** The value at the place. */
  function ValueAt(obj: Obj, ks: seq<Key>, ps: seq<nat>): Value
    requires |ks| == |ps|
    decreases |ks|
  {
    if ks == [] then Null
    else if |ks| == 1 then Child(obj, ks[0], ps[0])
    else ValueAt(Inside(ks[0], Child(obj, ks[0], ps[0])), ks[1..], ps[1..])
  }

  // ---------------------------------------------------------------- the code goes to the place

  lemma {:induction false} SelectedIsFound(items: seq<Value>, sk: string, sv: string, p: nat)
    requires Selects(items, sk, sv, p)
    ensures Find(items, sk, sv) == Some(p)
  {
    if p > 0 {
      assert items[0].Map?;
      assert Selects(items[1..], sk, sv, p - 1);
      SelectedIsFound(items[1..], sk, sv, p - 1);
    }
  }

  lemma SpotIsHit(obj: Obj, k: Key, p: nat)
    requires Spot(obj, k, p)
    ensures GetChild(obj, k) == Some(Hit(if k.Field? then obj else obj[k.name := List(ItemsAt(obj, k.name))],
                                         Child(obj, k, p), if k.Field? then -1 else p))
  {
    if k.Selector? { SelectedIsFound(ItemsAt(obj, k.name), k.sk, k.sv, p); }
    hide Find, Selects;
  }

  ghost predicate ReadAs(tokens: seq<string>, ks: seq<Key>) {
    |tokens| == |ks| && forall i :: 0 <= i < |ks| ==> ParseKey(tokens[i]) == Some(ks[i])
  }

  lemma LeafIsPut(obj: Obj, tokens: seq<string>, k: Key, p: nat, v: string, pf: string -> real)
    requires ReadAs(tokens, [k]) && Leads(obj, [k], [p])
    ensures Update(obj, tokens, v, pf) == Some(With(obj, k, p, Coerce(TypeAt(obj, k, p), v, pf)))
  {
    SpotIsHit(obj, k, p);
    assert ParseKey(tokens[0]) == Some([k][0]) && Spot(obj, [k][0], [p][0]) && !k.Selector?;
    NullCoerces(v, pf);
    hide ParseKey, GetChild, Find, Coerce, Selects;
    if k.Index? {
      var items, w := ItemsAt(obj, k.name), Coerce(TypeAt(obj, k, p), v, pf);
      var put := List(if p < |items| then items[p := w] else items + [w]);
      assert obj[k.name := List(items)][k.name := put] == obj[k.name := put];
    }
  }

  lemma NullCoerces(v: string, pf: string -> real)
    ensures Coerce(Null, v, pf) == Str(v)
  {
  }

  /** A write goes to the place its keys stand for, and changes nothing but the way there. */
  lemma {:induction false} UpdateIsPut(obj: Obj, tokens: seq<string>, ks: seq<Key>, ps: seq<nat>, v: string,
                                       pf: string -> real)
    requires ReadAs(tokens, ks) && Leads(obj, ks, ps)
    ensures Update(obj, tokens, v, pf) == Some(PutAt(obj, ks, ps, v, pf))
    decreases |ks|
  {
    var k, p := ks[0], ps[0];
    if |ks| == 1 {
      assert ks == [k] && ps == [p];
      LeafIsPut(obj, tokens, k, p, v, pf);
    } else {
      SpotIsHit(obj, k, p);
      var child := Child(obj, k, p);
      var below := Inside(k, child);
      UpdateIsPut(below, tokens[1..], ks[1..], ps[1..], v, pf);
      assert ParseKey(tokens[0]) == Some(k);
      hide ParseKey, GetChild, Find, Selects, Leads, Spot;
      StoreIsWith(obj, k, p, Map(PutAt(below, ks[1..], ps[1..], v, pf)));
    }
  }

  lemma StoreIsWith(obj: Obj, k: Key, p: nat, w: Value)
    requires k.Index? ==> p < |ItemsAt(obj, k.name)|
    ensures Store(Hit(if k.Field? then obj else obj[k.name := List(ItemsAt(obj, k.name))],
                      Child(obj, k, p), if k.Field? then -1 else p), k, w) == Some(With(obj, k, p, w))
  {
    var items := ItemsAt(obj, k.name);
    var put := List(if p < |items| then items[p := w] else items + [w]);
    assert obj[k.name := List(items)][k.name := put] == obj[k.name := put];
  }

  /** No selector is followed by the field it selects by. */
  predicate Clear(ks: seq<Key>) {
    forall i :: 0 <= i < |ks| - 1 && ks[i].Selector? ==> ks[i + 1].name != ks[i].sk
  }

  lemma ClearBelow(ks: seq<Key>)
    requires Clear(ks) && |ks| > 1
    ensures Clear(ks[1..]) && (ks[0].Selector? ==> ks[1].name != ks[0].sk)
  {
    assert ks[0 + 1] == ks[1];
    forall i | 0 <= i < |ks[1..]| - 1 && ks[1..][i].Selector? ensures ks[1..][i + 1].name != ks[1..][i].sk {
      assert ks[i + 1].Selector? && ks[(i + 1) + 1].name != ks[i + 1].sk;
    }
  }

  /** In a map that is new, a way leads to nothing. */
  lemma {:induction false} NothingInside(k: Key, ks: seq<Key>, ps: seq<nat>)
    requires Leads(Inside(k, Null), ks, ps) && Clear(ks) && (k.Selector? ==> ks[0].name != k.sk)
    ensures ValueAt(Inside(k, Null), ks, ps) == Null
    decreases |ks|
  {
    assert Child(Inside(k, Null), ks[0], ps[0]) == Null;
    if |ks| > 1 {
      ClearBelow(ks);
      NothingInside(ks[0], ks[1..], ps[1..]);
    }
  }

  /** A read finds what stands at the place, or "nil" for nothing. */
  lemma {:induction false} ReadIsAt(obj: Obj, tokens: seq<string>, ks: seq<Key>, ps: seq<nat>)
    requires ReadAs(tokens, ks) && Leads(obj, ks, ps) && Clear(ks)
    ensures Read(obj, tokens).Some?
    ensures Read(obj, tokens).value.value == if ValueAt(obj, ks, ps) == Null then MISSING else ValueAt(obj, ks, ps)
    decreases |ks|
  {
    var k, p := ks[0], ps[0];
    SpotIsHit(obj, k, p);
    var child := Child(obj, k, p);
    assert ParseKey(tokens[0]) == Some(k);
    if |ks| > 1 {
      ClearBelow(ks);
      hide ParseKey, GetChild, Find, Selects, Spot, Clear;
      if child.Map? {
        ReadIsAt(child.fields, tokens[1..], ks[1..], ps[1..]);
        StoreIsWith(obj, k, p, Map(Read(child.fields, tokens[1..]).value.obj));
      } else {
        NothingInside(k, ks[1..], ps[1..]);
      }
    } else {
      hide ParseKey, GetChild, Find, Selects, Spot;
    }
  }

  // ---------------------------------------------------------------- put, then get, by place

  lemma WithIsThere(obj: Obj, k: Key, p: nat, w: Value)
    requires Spot(obj, k, p) && (k.Index? ==> p <= |ItemsAt(obj, k.name)|)
    requires k.Selector? ==> w.Map? && k.sk in w.fields && w.fields[k.sk] == Str(k.sv)
    ensures var obj' := With(obj, k, p, w); Spot(obj', k, p) && Child(obj', k, p) == w
  {
  }

  /** A write below a selector keeps the field it selects by. */
  lemma PutKeepsField(obj: Obj, ks: seq<Key>, ps: seq<nat>, v: string, pf: string -> real, name: string)
    requires |ks| == |ps| && ks != [] && ks[0].name != name && name in obj
    ensures var obj' := PutAt(obj, ks, ps, v, pf); name in obj' && obj'[name] == obj[name]
  {
    hide Coerce;
  }

  lemma InsideMatches(obj: Obj, k: Key, p: nat)
    requires Spot(obj, k, p) && k.Selector?
    ensures var below := Inside(k, Child(obj, k, p)); k.sk in below && below[k.sk] == Str(k.sv)
  {
  }

  /** The type a write at the end of the way takes on. */
  function TypeOfPlace(obj: Obj, ks: seq<Key>, ps: seq<nat>): Value
    requires |ks| == |ps|
    decreases |ks|
  {
    if ks == [] then Null
    else if |ks| == 1 then TypeAt(obj, ks[0], ps[0])
    else TypeOfPlace(Inside(ks[0], Child(obj, ks[0], ps[0])), ks[1..], ps[1..])
  }

  lemma {:induction false} PutIsThere(obj: Obj, ks: seq<Key>, ps: seq<nat>, v: string, pf: string -> real)
    requires Leads(obj, ks, ps) && Clear(ks)
    ensures var obj' := PutAt(obj, ks, ps, v, pf);
      Leads(obj', ks, ps) && ValueAt(obj', ks, ps) == Coerce(TypeOfPlace(obj, ks, ps), v, pf)
    decreases |ks|
  {
    var k, p := ks[0], ps[0];
    var child := Child(obj, k, p);
    if |ks| == 1 {
      CoerceIsScalar(TypeAt(obj, k, p), v, pf);
      hide Coerce, Selects;
      WithIsThere(obj, k, p, Coerce(TypeAt(obj, k, p), v, pf));
    } else {
      ClearBelow(ks);
      var below := Inside(k, child);
      PutIsThere(below, ks[1..], ps[1..], v, pf);
      if k.Selector? {
        InsideMatches(obj, k, p);
        PutKeepsField(below, ks[1..], ps[1..], v, pf, k.sk);
      }
      hide Coerce, Selects, Spot, Clear;
      WithIsThere(obj, k, p, Map(PutAt(below, ks[1..], ps[1..], v, pf)));
    }
  }

  function PrintKeys(ks: seq<Key>): (tokens: seq<string>)
    ensures |tokens| == |ks| && forall i :: 0 <= i < |ks| ==> tokens[i] == PrintKey(ks[i])
  {
    seq(|ks|, i requires 0 <= i < |ks| => PrintKey(ks[i]))
  }

  /** Keys that a location can spell: each is read as itself, and so is its token in the path. */
  ghost predicate Spellable(ks: seq<Key>) {
    && ks != []
    && forall i :: 0 <= i < |ks| ==>
         ReadableKey(ks[i]) && Tokens.Readable(PrintKey(ks[i])) && ';' !in PrintKey(ks[i])
  }

  lemma SpelledIsRead(ks: seq<Key>)
    requires Spellable(ks)
    ensures LocationTokens(PrintLocation([PrintKeys(ks)])) == Some([PrintKeys(ks)]) && ReadAs(PrintKeys(ks), ks)
  {
    var tokens := PrintKeys(ks);
    hide LocationTokens, PrintLocation, ParseKey, PrintKey, ReadableKey, Tokens.Readable;
    forall i | 0 <= i < |ks| ensures ParseKey(tokens[i]) == Some(ks[i]) { KeyReadsBack(ks[i]); }
    forall t | t in tokens ensures Tokens.Readable(t) && ';' !in t {
      var i :| 0 <= i < |tokens| && tokens[i] == t;
    }
    LocationRoundTrip([tokens]);
  }

  /** Put-get from text to tree: writing at a spelled-out location changes the place its keys stand for,
      to the value in the type of that place, and nothing else; the location then reads that value. */
  lemma PlacePutGet(obj: Obj, ks: seq<Key>, ps: seq<nat>, v: string, pf: string -> real)
    requires Spellable(ks) && Leads(obj, ks, ps) && Clear(ks) && v != "nil" && ';' !in v
    ensures var location, obj' := PrintLocation([PrintKeys(ks)]), PutAt(obj, ks, ps, v, pf);
      var w := Coerce(TypeOfPlace(obj, ks, ps), v, pf);
      && UpdateLocation(obj, location, v, pf) == Some(obj')
      && ValueAt(obj', ks, ps) == w
      && ReadLocation(obj', location).Some?
      && ReadLocation(obj', location).value.values == if w == Str("") then None else Some([w])
  {
    var location, tokens, obj' := PrintLocation([PrintKeys(ks)]), PrintKeys(ks), PutAt(obj, ks, ps, v, pf);
    SpelledIsRead(ks);
    UpdateIsPut(obj, tokens, ks, ps, v, pf);
    PutIsThere(obj, ks, ps, v, pf);
    ReadIsAt(obj', tokens, ks, ps);
    CoerceIsScalar(TypeOfPlace(obj, ks, ps), v, pf);
    SplitNone(v, ';');
    hide Update, Read, Coerce, Leads, Clear, Spellable, PutAt, ValueAt, LocationTokens, Split;
    OneWrite(obj, tokens, v, pf);
    OneRead(obj', tokens);
  }

  lemma OneWrite(obj: Obj, path: seq<string>, v: string, pf: string -> real)
    ensures UpdateAll(obj, WritesOf([path], [v]), pf) == Update(obj, path, v, pf)
  {
    hide Update;
    var ws := WritesOf([path], [v]);
    assert ws == [Write(path, v)] && ws[1..] == [];
  }

  lemma OneRead(obj: Obj, path: seq<string>)
    requires Read(obj, path).Some?
    ensures ReadAll(obj, [path]).Some?
    ensures var value := Read(obj, path).value.value;
      ReadAll(obj, [path]).value.values == if value == Str("") then None else Some([value])
  {
    hide Read;
    assert [path][1..] == [];
    var value := Read(obj, path).value.value;
    assert [value] + [] == [value];
  }
}
