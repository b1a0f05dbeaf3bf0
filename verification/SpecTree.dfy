/** Reading and patching a job spec, a tree of maps, lists and scalars, at a tokenized location
    (controllers/iteration.go). None stands for a Go panic. */
module SpecTree {
  import opened Wrappers
  import opened Text

  /** What an interface{} of a decoded spec holds. Null is nil. */
  datatype Value =
    | Null
    | Str(text: string)
    | Int(n: int)
    | Float(x: real)
    | Bool(b: bool)
    | List(items: seq<Value>)
    | Map(fields: Obj)

  type Obj = map<string, Value>

  const MISSING: Value := Str("nil")   // NULL_VALUE_STR

  // ---------------------------------------------------------------- keys

  datatype Key =
    | Field(name: string)                           // key
    | Index(name: string, i: int)                   // key[i]
    | Selector(name: string, sk: string, sv: string)  // key[sk=sv]

  /** getKeyType and splitBracket. */
  function ParseKey(token: string): Option<Key> {
    if '[' !in token then Some(Field(token))
    else
      var start, end := IndexOf(token, '['), IndexOf(token, ']');
      if end <= start then None
      else
        var inner := token[start + 1..end];
        if '=' !in token then Some(Index(token[..start], ParseInt64(inner)))
        else
          var parts := Split(inner, '=');
          if |parts| < 2 then None else Some(Selector(token[..start], parts[0], parts[1]))
  }

  // ---------------------------------------------------------------- one level down

  /** The list under a name; an absent one counts as empty, anything else but a list panics. */
  function ListAt(obj: Obj, name: string): Option<seq<Value>> {
    if name !in obj then Some([]) else if obj[name].List? then Some(obj[name].items) else None
  }

  /** Position of the first map whose entry `sk` is the string `sv`, or the length if there is none. */
  function Find(items: seq<Value>, sk: string, sv: string): Option<nat> {
    if items == [] then Some(0)
    else if !items[0].Map? then None
    else
      var fields := items[0].fields;
      if sk in fields && !fields[sk].Str? then None
      else if sk in fields && fields[sk].text == sv then Some(0)
      else
        var rest := Find(items[1..], sk, sv);
        if rest.None? then None else Some(rest.value + 1)
  }

  /** What getValue returns: the object (in which an absent list is now an empty one), the value
      found, and its position in the list, -1 for a plain field. */
  datatype Hit = Hit(obj: Obj, next: Value, pos: int)

  function GetChild(obj: Obj, k: Key): Option<Hit> {
    if k.Field? then Some(Hit(obj, if k.name in obj then obj[k.name] else Null, -1))
    else
      var items := ListAt(obj, k.name);
      if items.None? then None
      else
        var pos := if k.Index? then Some(k.i) else Find(items.value, k.sk, k.sv);
        if pos.None? || pos.value < 0 then None
        else Some(Hit(obj[k.name := List(items.value)],
                      if pos.value < |items.value| then items.value[pos.value] else Null, pos.value))
  }

  method FindSelector(items: seq<Value>, sk: string, sv: string) returns (r: Option<nat>)
    ensures r == Find(items, sk, sv)
    ensures r.Some? && r.value < |items| ==>
      items[r.value].Map? && sk in items[r.value].fields && items[r.value].fields[sk] == Str(sv)
  {
    var indexInt := 0;
    assert items[0..] == items;
    while indexInt < |items|
      invariant 0 <= indexInt <= |items|
      invariant var rest := Find(items[indexInt..], sk, sv);
        Find(items, sk, sv) == if rest.None? then None else Some(rest.value + indexInt)
    {
      assert items[indexInt..][1..] == items[indexInt + 1..];
      if !items[indexInt].Map? { return None; }
      var fields := items[indexInt].fields;
      if sk in fields {
        if !fields[sk].Str? { return None; }
        if fields[sk].text == sv { return Some(indexInt); }
      }
      indexInt := indexInt + 1;
    }
    return Some(indexInt);
  }

  // ---------------------------------------------------------------- writing

  function ParseBool(s: string): bool {
    s in {"1", "t", "T", "TRUE", "true", "True"}
  }

  /** getValueInterface: the value written takes the type of the one that was there. `pf` is
      strconv.ParseFloat, its error ignored. */
  function Coerce(was: Value, v: string, pf: string -> real): Value {
    match was
    case Int(_) => Int(ParseInt64(v))
    case Float(_) => Float(pf(v))
    case Bool(_) => Bool(ParseBool(v))
    case _ => Str(v)
  }

  /** Six spellings are true; anything else, a text that is no truth value included, is false. */
  lemma TrueSpellings(s: string, pf: string -> real, was: bool)
    ensures Coerce(Bool(was), s, pf) == Bool(true)
      <==> s == "1" || s == "t" || s == "T" || s == "true" || s == "True" || s == "TRUE"
    ensures Coerce(Bool(was), s, pf).Bool?
  {
  }

  function SetOrAppend(items: seq<Value>, pos: nat, w: Value): seq<Value> {
    if pos >= |items| then items + [w] else items[pos := w]
  }

  /** Put a rewritten submap back in its place. */
  function Store(hit: Hit, k: Key, w: Value): Option<Obj> {
    if k.Field? then Some(hit.obj[k.name := w])
    else if k.name !in hit.obj || !hit.obj[k.name].List? || hit.pos < 0 then None
    else
      var items := hit.obj[k.name].items;
      if k.Index? && hit.pos == |items| then Some(hit.obj[k.name := List([w])])
      else Some(hit.obj[k.name := List(SetOrAppend(items, hit.pos, w))])
  }

  /** Write the leaf at a place whose content is no map. In a list, the first element decides
      the type. */
  function WriteLeaf(hit: Hit, k: Key, v: string, pf: string -> real): Option<Obj> {
    if k.name !in hit.obj then None
    else if hit.obj[k.name].List? then
      var items := hit.obj[k.name].items;
      if items == [] || hit.pos < 0 then None
      else Some(hit.obj[k.name := List(SetOrAppend(items, hit.pos, Coerce(items[0], v, pf)))])
    else Some(hit.obj[k.name := Coerce(hit.obj[k.name], v, pf)])
  }

  /** updateNextValue */
  function Update(obj: Obj, keys: seq<string>, v: string, pf: string -> real): Option<Obj>
    decreases |keys|
  {
    if keys == [] then None
    else
      var k :- ParseKey(keys[0]);
      var hit :- GetChild(obj, k);
      if hit.next.Map? then
        var sub :- Update(hit.next.fields, keys[1..], v, pf);
        Store(hit, k, Map(sub))
      else if hit.next != Null then WriteLeaf(hit, k, v, pf)
      else if |keys| == 1 then
        match k
        case Field(name) => Some(hit.obj[name := Str(v)])
        case Index(name, _) => Some(hit.obj[name := List(hit.obj[name].items + [Str(v)])])
        case Selector(_, _, _) => None
      else
        match k
        case Field(name) =>
          var sub :- Update(map[], keys[1..], v, pf);
          Store(hit, k, Map(sub))
        case Index(_, _) => WriteLeaf(hit, k, v, pf)   // the fresh value is a list, not a map
        case Selector(_, sk, sv) =>
          var sub :- Update(map[sk := Str(sv)], keys[1..], v, pf);
          Store(hit, k, Map(sub))
  }

  // ---------------------------------------------------------------- reading

  /** The value read, and the object afterwards: reading inserts empty lists. */
  datatype Got = Got(value: Value, obj: Obj)

  /** deeperValue */
  function Read(obj: Obj, keys: seq<string>): Option<Got>
    decreases |keys|
  {
    if keys == [] then None
    else
      var k :- ParseKey(keys[0]);
      var hit :- GetChild(obj, k);
      if hit.next == Null then Some(Got(MISSING, hit.obj))
      else if hit.next.Map? then
        var got :- Read(hit.next.fields, keys[1..]);
        var obj' :- Store(hit, k, Map(got.obj));
        Some(Got(got.value, obj'))
      else if k.Field? && hit.next.List? then None
      else Some(Got(hit.next, hit.obj))
  }

  // ---------------------------------------------------------------- where a write lands

  /** The write to field `sk` just below a selector on `sk` keeps the selector matching. */
  predicate KeepsSelector(k: Key, rest: seq<string>, v: string) {
    k.Selector? && rest != [] && ParseKey(rest[0]) == Some(Field(k.sk)) ==> v == k.sv
  }

  /** The write reaches a place from which the same path reads it back. */
  predicate Lands(obj: Obj, keys: seq<string>, v: string)
    decreases |keys|
  {
    if keys == [] then false
    else
      var key, rest := ParseKey(keys[0]), keys[1..];
      if key.None? || GetChild(obj, key.value).None? then false
      else
        var k, hit := key.value, GetChild(obj, key.value).value;
        match hit.next
        case Map(fields) => Lands(fields, rest, v) && KeepsSelector(k, rest, v)
        case List(_) => k.Index?
        case Null =>
          (match k
           case Field(_) => rest == [] || Lands(map[], rest, v)
           case Index(name, i) =>
             var len := |hit.obj[name].items|;
             if rest == [] then i == len else i < len || (i == len && len > 0)
           case Selector(_, sk, sv) => Lands(map[sk := Str(sv)], rest, v) && KeepsSelector(k, rest, v))
        case _ => true
  }

  /** The value whose type decides what is written. */
  function Typing(obj: Obj, keys: seq<string>): Value
    decreases |keys|
  {
    if keys == [] then Null
    else
      var key, rest := ParseKey(keys[0]), keys[1..];
      if key.None? || GetChild(obj, key.value).None? then Null
      else
        var k, hit := key.value, GetChild(obj, key.value).value;
        if hit.next.Map? then Typing(hit.next.fields, rest)
        else if hit.next == Null && rest == [] then Null
        else if k.Index? then (if hit.obj[k.name].items == [] then Null else hit.obj[k.name].items[0])
        else if hit.next != Null then hit.next
        else if k.Field? then Typing(map[], rest)
        else Typing(map[k.sk := Str(k.sv)], rest)
  }

  function Written(obj: Obj, keys: seq<string>, v: string, pf: string -> real): Value {
    Coerce(Typing(obj, keys), v, pf)
  }

  ghost predicate ReadsBack(obj: Obj, keys: seq<string>, v: string, pf: string -> real) {
    var obj' := Update(obj, keys, v, pf);
    obj'.Some? && Read(obj'.value, keys) == Some(Got(Written(obj, keys, v, pf), obj'.value))
  }

  // ---------------------------------------------------------------- put, then get

  /** After a submap is stored, the same key finds it. */
  lemma StoredIsFound(obj: Obj, k: Key, sub: Obj)
    requires GetChild(obj, k).Some?
    requires var hit := GetChild(obj, k).value; hit.next.Map? || (hit.next == Null && !k.Index?)
    requires k.Selector? ==> k.sk in sub && sub[k.sk] == Str(k.sv)
    ensures var hit := GetChild(obj, k).value;
      && Store(hit, k, Map(sub)).Some?
      && var obj' := Store(hit, k, Map(sub)).value;
      GetChild(obj', k) == Some(Hit(obj', Map(sub), hit.pos))
  {
    var hit := GetChild(obj, k).value;
    if !k.Field? {
      var items := hit.obj[k.name].items;
      var obj' := Store(hit, k, Map(sub)).value;
      assert obj'[k.name := obj'[k.name]] == obj';
      if k.Selector? {
        FindSet(items, k.sk, k.sv, sub);
      }
    }
  }

  /** Setting the found position, or appending where nothing was found, to a matching map. */
  lemma {:induction false} FindSet(items: seq<Value>, sk: string, sv: string, sub: Obj)
    requires Find(items, sk, sv).Some? && sk in sub && sub[sk] == Str(sv)
    ensures Find(items, sk, sv).value <= |items|
    ensures Find(SetOrAppend(items, Find(items, sk, sv).value, Map(sub)), sk, sv) == Find(items, sk, sv)
  {
    var items' := SetOrAppend(items, Find(items, sk, sv).value, Map(sub));
    if items != [] && Find(items, sk, sv).value > 0 {
      FindSet(items[1..], sk, sv, sub);
      assert items'[1..] == SetOrAppend(items[1..], Find(items[1..], sk, sv).value, Map(sub));
    }
  }

  lemma CoerceIsScalar(was: Value, v: string, pf: string -> real)
    ensures var w := Coerce(was, v, pf); !w.Null? && !w.Map? && !w.List?
  {
  }

  /** A write changes the object only under the name of its first key, and only a list there if
      the key is not a plain field. */
  lemma UpdateTouches(obj: Obj, keys: seq<string>, v: string, pf: string -> real)
    requires Update(obj, keys, v, pf).Some?
    ensures var k, obj' := ParseKey(keys[0]), Update(obj, keys, v, pf).value;
      && k.Some? && GetChild(obj, k.value).Some?
      && k.value.name in obj' && obj' == obj[k.value.name := obj'[k.value.name]]
      && (!k.value.Field? ==> ListAt(obj, k.value.name).Some? && obj'[k.value.name].List?)
  {
    hide Coerce, Find, ParseKey, Split, IndexOf;
  }

  lemma FieldReadsBack(obj: Obj, keys: seq<string>, v: string, pf: string -> real)
    requires Lands(obj, keys, v) && ParseKey(keys[0]).value.Field?
    requires var next := GetChild(obj, ParseKey(keys[0]).value).value.next;
      !next.Map? && (next == Null ==> |keys| == 1)
    ensures ReadsBack(obj, keys, v, pf)
  {
    hide ParseKey;
  }

  lemma ElementReadsBack(obj: Obj, keys: seq<string>, v: string, pf: string -> real)
    requires Lands(obj, keys, v) && ParseKey(keys[0]).value.Index?
    requires var next := GetChild(obj, ParseKey(keys[0]).value).value.next; !next.Map?
    ensures ReadsBack(obj, keys, v, pf)
  {
    hide ParseKey;
    var k := ParseKey(keys[0]).value;
    var hit := GetChild(obj, k).value;
    var items := hit.obj[k.name].items;
    var w := Written(obj, keys, v, pf);
    var items' := SetOrAppend(items, k.i, w);
    var obj' := hit.obj[k.name := List(items')];
    assert Update(obj, keys, v, pf) == Some(obj') by { CoerceIsScalar(Typing(obj, keys), v, pf); }
    CoerceIsScalar(Typing(obj, keys), v, pf);
    hide Update, Coerce, Typing;
    assert obj'[k.name := obj'[k.name]] == obj';
    assert GetChild(obj', k) == Some(Hit(obj', w, k.i));
  }

  lemma SelectedIsMap(obj: Obj, k: Key)
    requires k.Selector? && GetChild(obj, k).Some?
    ensures var next := GetChild(obj, k).value.next; next.Map? || next == Null
  {
    FoundMatches(ListAt(obj, k.name).value, k.sk, k.sv);
  }

  lemma LeafReadsBack(obj: Obj, keys: seq<string>, v: string, pf: string -> real)
    requires Lands(obj, keys, v)
    requires var next := GetChild(obj, ParseKey(keys[0]).value).value.next;
      !next.Map? && (next == Null ==> |keys| == 1 || ParseKey(keys[0]).value.Index?)
    ensures ReadsBack(obj, keys, v, pf)
  {
    var k := ParseKey(keys[0]).value;
    if k.Field? { FieldReadsBack(obj, keys, v, pf); }
    if k.Index? { ElementReadsBack(obj, keys, v, pf); }
    if k.Selector? { SelectedIsMap(obj, k); }
  }

  /** The submap a write passes through, or creates. */
  function Below(k: Key, next: Value): Obj {
    if next.Map? then next.fields else if k.Selector? then map[k.sk := Str(k.sv)] else map[]
  }

  lemma UpdateKeepsSelector(obj: Obj, keys: seq<string>, v: string, pf: string -> real, k: Key)
    requires k.Selector? && k.sk in obj && obj[k.sk] == Str(k.sv)
    requires Update(obj, keys, v, pf).Some?
    ensures var obj' := Update(obj, keys, v, pf).value;
      && k.sk in obj' && obj'[k.sk].Str?
      && (obj'[k.sk] == Str(k.sv) <==> KeepsSelector(k, keys, v))
      && (!KeepsSelector(k, keys, v) ==> obj' == obj[k.sk := Str(v)])
  {
    UpdateTouches(obj, keys, v, pf);
    hide ParseKey;
    var below := ParseKey(keys[0]).value;
    if below.name != k.sk { hide Update; }
  }

  lemma {:induction false} FoundMatches(items: seq<Value>, sk: string, sv: string)
    requires Find(items, sk, sv).Some?
    ensures var p := Find(items, sk, sv).value;
      p < |items| ==> items[p].Map? && sk in items[p].fields && items[p].fields[sk] == Str(sv)
  {
    if items != [] && Find(items, sk, sv).value > 0 {
      FoundMatches(items[1..], sk, sv);
    }
  }

  lemma BelowMatches(obj: Obj, k: Key)
    requires GetChild(obj, k).Some?
    requires var next := GetChild(obj, k).value.next; next.Map? || next == Null
    ensures k.Selector? ==>
      var below := Below(k, GetChild(obj, k).value.next); k.sk in below && below[k.sk] == Str(k.sv)
  {
    if k.Selector? {
      var items := ListAt(obj, k.name).value;
      FoundMatches(items, k.sk, k.sv);
    }
  }

  /** Put-get: a path on which the write lands reads back what was written, coerced to the type
      that was there, and reading it changes nothing. */
  lemma {:induction false} PutGet(obj: Obj, keys: seq<string>, v: string, pf: string -> real)
    requires Lands(obj, keys, v)
    ensures ReadsBack(obj, keys, v, pf)
    decreases |keys|
  {
    hide ParseKey, Find;
    var k, rest := ParseKey(keys[0]).value, keys[1..];
    var hit := GetChild(obj, k).value;
    if hit.next.Map? || (hit.next == Null && rest != [] && !k.Index?) {
      var below := Below(k, hit.next);
      PutGet(below, rest, v, pf);
      var sub := Update(below, rest, v, pf).value;
      BelowMatches(obj, k);
      if k.Selector? { UpdateKeepsSelector(below, rest, v, pf, k); }
      StoredIsFound(obj, k, sub);
      var obj' := Store(hit, k, Map(sub)).value;
      assert Update(obj, keys, v, pf) == Some(obj');
      assert Store(GetChild(obj', k).value, k, Map(sub)) == Some(obj') by { StoredTwice(obj, k, sub); }
    } else {
      LeafReadsBack(obj, keys, v, pf);
    }
  }

  lemma StoredTwice(obj: Obj, k: Key, sub: Obj)
    requires GetChild(obj, k).Some?
    requires var hit := GetChild(obj, k).value; hit.next.Map? || (hit.next == Null && !k.Index?)
    requires k.Selector? ==> k.sk in sub && sub[k.sk] == Str(k.sv)
    ensures var hit := GetChild(obj, k).value;
      && Store(hit, k, Map(sub)).Some?
      && var obj' := Store(hit, k, Map(sub)).value;
      GetChild(obj', k).Some? && Store(GetChild(obj', k).value, k, Map(sub)) == Some(obj')
  {
    StoredIsFound(obj, k, sub);
    var hit := GetChild(obj, k).value;
    var obj' := Store(hit, k, Map(sub)).value;
    assert obj'[k.name := obj'[k.name]] == obj';
    if !k.Field? {
      var items := obj'[k.name].items;
      assert items[hit.pos := Map(sub)] == items;
    }
  }

  // ---------------------------------------------------------------- ... and when it does not

  /** The path does not read back what was written: the write or the read panics, or something
      else is found. */
  ghost predicate Lost(obj: Obj, keys: seq<string>, v: string, pf: string -> real) {
    var obj' := Update(obj, keys, v, pf);
    obj'.Some? && Read(obj'.value, keys).Some? ==> Read(obj'.value, keys).value.value != Written(obj, keys, v, pf)
  }

  lemma LeafLost(obj: Obj, keys: seq<string>, v: string, pf: string -> real)
    requires !Lands(obj, keys, v) && v != "nil" && keys != []
    requires ParseKey(keys[0]).Some? && GetChild(obj, ParseKey(keys[0]).value).Some?
    requires var next := GetChild(obj, ParseKey(keys[0]).value).value.next;
      !next.Map? && (next == Null ==> |keys| == 1 || ParseKey(keys[0]).value.Index?)
    ensures Lost(obj, keys, v, pf)
  {
    hide ParseKey;
    var k := ParseKey(keys[0]).value;
    if k.Selector? {
      SelectedIsMap(obj, k);
    } else if k.Index? {
      ElementLost(obj, keys, v, pf);
    }
  }

  lemma ElementLost(obj: Obj, keys: seq<string>, v: string, pf: string -> real)
    requires !Lands(obj, keys, v) && v != "nil" && keys != []
    requires ParseKey(keys[0]).Some? && ParseKey(keys[0]).value.Index?
    requires GetChild(obj, ParseKey(keys[0]).value).Some? && !GetChild(obj, ParseKey(keys[0]).value).value.next.Map?
    ensures Lost(obj, keys, v, pf)
  {
    hide ParseKey;
    var k := ParseKey(keys[0]).value;
    var hit := GetChild(obj, k).value;
    var items := hit.obj[k.name].items;
    if Update(obj, keys, v, pf).Some? {
      var w := Written(obj, keys, v, pf);
      var obj' := hit.obj[k.name := List(items + [w])];
      assert Update(obj, keys, v, pf).value == obj';
      assert k.i != |items|;
      assert GetChild(obj', k).Some? && GetChild(obj', k).value.next == Null;
    }
  }

  /** Writing another value into the selecting field makes the selector miss what it selected. */
  lemma SelectorLost(obj: Obj, keys: seq<string>, v: string, pf: string -> real)
    requires v != "nil" && |keys| > 1
    requires ParseKey(keys[0]).Some? && ParseKey(keys[0]).value.Selector?
    requires GetChild(obj, ParseKey(keys[0]).value).Some?
    requires !KeepsSelector(ParseKey(keys[0]).value, keys[1..], v)
    ensures Lost(obj, keys, v, pf)
  {
    hide ParseKey;
    var k, rest := ParseKey(keys[0]).value, keys[1..];
    var hit := GetChild(obj, k).value;
    SelectedIsMap(obj, k);
    BelowMatches(obj, k);
    var below := Below(k, hit.next);
    assert Typing(obj, keys) == Typing(below, rest) == Str(k.sv);
    if Update(obj, keys, v, pf).Some? && Read(Update(obj, keys, v, pf).value, keys).Some? {
      UpdateKeepsSelector(below, rest, v, pf, k);
      var obj' := Update(obj, keys, v, pf).value;
      SelectedIsMap(obj', k);
      BelowMatches(obj', k);
      var found := GetChild(obj', k).value.next;
      hide Update;
      if found.Map? {
        assert Read(found.fields, rest) == Some(Got(Str(k.sv), found.fields));
      }
    }
  }

  lemma {:induction false} NotLandsIsLost(obj: Obj, keys: seq<string>, v: string, pf: string -> real)
    requires !Lands(obj, keys, v) && v != "nil"
    ensures Lost(obj, keys, v, pf)
    decreases |keys|
  {
    if keys != [] && ParseKey(keys[0]).Some? && GetChild(obj, ParseKey(keys[0]).value).Some? {
      var k, rest := ParseKey(keys[0]).value, keys[1..];
      var hit := GetChild(obj, k).value;
      if !hit.next.Map? && (hit.next != Null || rest == [] || k.Index?) {
        LeafLost(obj, keys, v, pf);
      } else if !KeepsSelector(k, rest, v) {
        SelectorLost(obj, keys, v, pf);
      } else {
        var below := Below(k, hit.next);
        NotLandsIsLost(below, rest, v, pf);
        if Update(below, rest, v, pf).Some? {
          var sub := Update(below, rest, v, pf).value;
          BelowMatches(obj, k);
          if k.Selector? { UpdateKeepsSelector(below, rest, v, pf, k); }
          StoredIsFound(obj, k, sub);
        }
      }
    }
  }

  /** The exact condition of put-get, for every object, path and value that is written at all. */
  lemma PutGetExact(obj: Obj, keys: seq<string>, v: string, pf: string -> real)
    requires v != "nil"
    ensures Lands(obj, keys, v) <==>
      var obj' := Update(obj, keys, v, pf);
      obj'.Some? && Read(obj'.value, keys).Some? && Read(obj'.value, keys).value.value == Written(obj, keys, v, pf)
  {
    if Lands(obj, keys, v) { PutGet(obj, keys, v, pf); } else { NotLandsIsLost(obj, keys, v, pf); }
  }
}
