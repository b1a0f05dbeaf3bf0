/** The location tokenizer of controllers/iteration.go: paths separated by ';', segments
    separated by '.', and parentheses around a segment that holds dots itself. */
module Tokens {
  import opened Wrappers
  import opened Text

  function Prepend<T>(t: T, r: Option<seq<T>>): Option<seq<T>> {
    if r.None? then None else Some([t] + r.value)
  }

  /** The tokens of a list of segments; `quote` is the text of the open parenthesis, if one is
      open. None is the Go panic on an empty segment. A parenthesis left open is dropped. */
  function Scan(segs: seq<string>, quote: Option<string>): Option<seq<string>> {
    if segs == [] then Some([])
    else
      var seg, rest := segs[0], segs[1..];
      if seg == "" then None
      else if quote.None? then
        if seg[0] == '(' then Scan(rest, Some(seg[1..])) else Prepend(seg, Scan(rest, None))
      else if seg[|seg| - 1] == ')' then
        Prepend(quote.value + "." + seg[..|seg| - 1], Scan(rest, None))
      else
        Scan(rest, Some(quote.value + "." + seg))
  }

  function TokensOf(location: string): Option<seq<string>> {
    Scan(Split(location, '.'), None)
  }

  function AllTokens(paths: seq<string>): Option<seq<seq<string>>> {
    if paths == [] then Some([])
    else if paths[0] == "" then None
    else
      var first := TokensOf(paths[0][1..]);
      if first.None? then None else Prepend(first.value, AllTokens(paths[1..]))
  }

  function LocationTokens(location: string): Option<seq<seq<string>>> {
    AllTokens(Split(location, ';'))
  }

  /** What a loop has found so far, in front of what it still has to find. */
  function Append<T>(found: seq<T>, r: Option<seq<T>>): Option<seq<T>> {
    if r.None? then None else Some(found + r.value)
  }

  lemma AppendPrepend<T>(found: seq<T>, t: T, r: Option<seq<T>>)
    ensures Append(found, Prepend(t, r)) == Append(found + [t], r)
  {
    if r.Some? { assert found + ([t] + r.value) == found + [t] + r.value; }
  }

  lemma AppendNothing<T>(r: Option<seq<T>>)
    ensures Append([], r) == r
  {
    if r.Some? { assert [] + r.value == r.value; }
  }

  lemma PrependIs<T>(t: T, r: Option<seq<T>>, all: seq<T>)
    requires all != []
    ensures Prepend(t, r) == Some(all) <==> t == all[0] && r == Some(all[1..])
  {
    if r.Some? { assert all == [all[0]] + all[1..]; }
  }

  /** A path panics exactly if one of its segments is empty. */
  lemma {:induction false} EmptySegmentPanics(segs: seq<string>, quote: Option<string>)
    ensures Scan(segs, quote).None? <==> "" in segs
    decreases |segs|
  {
    if segs != [] && segs[0] != "" {
      assert segs == [segs[0]] + segs[1..];
      var seg, rest := segs[0], segs[1..];
      if quote.None? {
        EmptySegmentPanics(rest, if seg[0] == '(' then Some(seg[1..]) else None);
      } else {
        EmptySegmentPanics(rest, if seg[|seg| - 1] == ')' then None else Some(quote.value + "." + seg));
      }
    }
  }

  /** A parenthesis that is never closed swallows the rest of the path. */
  lemma {:induction false} OpenQuoteIsDropped(segs: seq<string>, quote: string)
    requires forall i :: 0 <= i < |segs| ==> Inner(segs[i])
    ensures Scan(segs, Some(quote)) == Some([])
    decreases |segs|
  {
    if segs != [] { OpenQuoteIsDropped(segs[1..], quote + "." + segs[0]); }
  }

  /** A whole location panics exactly if one of its paths is empty or has, behind its first byte, an empty
      segment. */
  lemma {:induction false} PathsPanic(paths: seq<string>)
    ensures AllTokens(paths).None?
      <==> exists i :: 0 <= i < |paths| && (paths[i] == "" || "" in Split(paths[i][1..], '.'))
  {
    hide Scan, Split;
    if paths != [] {
      PathsPanic(paths[1..]);
      if paths[0] != "" { EmptySegmentPanics(Split(paths[0][1..], '.'), None); }
      if i :| 0 <= i < |paths[1..]| && (paths[1..][i] == "" || "" in Split(paths[1..][i][1..], '.')) {
        assert paths[i + 1] == paths[1..][i];
      }
      if i :| 0 < i < |paths| && (paths[i] == "" || "" in Split(paths[i][1..], '.')) {
        assert paths[1..][i - 1] == paths[i];
      }
    }
  }

  method GetToken(location: string) returns (token: Option<seq<string>>)
    ensures token == TokensOf(location)
  {
    var segs := Split(location, '.');
    var found: seq<string>, open, quoteValue := [], false, "";
    var i := 0;
    assert segs[0..] == segs;
    AppendNothing(Scan(segs, None));
    while i < |segs|
      invariant 0 <= i <= |segs|
      invariant var rest := Scan(segs[i..], if open then Some(quoteValue) else None);
        TokensOf(location) == Append(found, rest)
    {
      var split := segs[i];
      assert segs[i..][1..] == segs[i + 1..];
      if split == "" { return None; }
      if !open && split[0] == '(' {
        open, quoteValue := true, split[1..];
      } else if open {
        if split[|split| - 1] == ')' {
          open, quoteValue := false, quoteValue + "." + split[..|split| - 1];
          AppendPrepend(found, quoteValue, Scan(segs[i + 1..], None));
          found := found + [quoteValue];
        } else {
          quoteValue := quoteValue + "." + split;
        }
      } else {
        AppendPrepend(found, split, Scan(segs[i + 1..], None));
        found := found + [split];
      }
      i := i + 1;
    }
    assert segs[i..] == [] && found + [] == found;
    return Some(found);
  }

  method GetTokens(location: string) returns (tokens: Option<seq<seq<string>>>)
    ensures tokens == LocationTokens(location)
  {
    var paths := Split(location, ';');
    var found: seq<seq<string>>, i := [], 0;
    assert paths[0..] == paths;
    AppendNothing(AllTokens(paths));
    while i < |paths|
      invariant 0 <= i <= |paths|
      invariant var rest := AllTokens(paths[i..]);
        LocationTokens(location) == Append(found, rest)
    {
      assert paths[i..][1..] == paths[i + 1..];
      if paths[i] == "" { return None; }
      var token := GetToken(paths[i][1..]);
      if token.None? { return None; }
      AppendPrepend(found, token.value, AllTokens(paths[i + 1..]));
      found, i := found + [token.value], i + 1;
    }
    assert paths[i..] == [] && found + [] == found;
    return Some(found);
  }

  // ---------------------------------------------------------------- printing

  function Quoted(t: string): string {
    if '.' in t then "(" + t + ")" else t
  }

  function PrintPath(tokens: seq<string>): string {
    Join(seq(|tokens|, i requires 0 <= i < |tokens| => Quoted(tokens[i])), '.')
  }

  function PrintLocation(paths: seq<seq<string>>): string {
    Join(seq(|paths|, i requires 0 <= i < |paths| => "." + PrintPath(paths[i])), ';')
  }

  /** A segment that the scanner passes over while a parenthesis is open. */
  predicate Inner(seg: string) {
    seg != "" && seg[|seg| - 1] != ')'
  }

  /** A token the tokenizer reads back: a plain one is not empty and does not start with a
      parenthesis; a dotted one has no empty or parenthesis-closing segment strictly inside. */
  predicate Readable(t: string) {
    if '.' !in t then t != "" && t[0] != '('
    else var segs := Split(t, '.'); forall i :: 0 < i < |segs| - 1 ==> Inner(segs[i])
  }

  /** The segments left of a dotted token once its first one was read, closing parenthesis included. */
  function Closed(segs: seq<string>): seq<string>
    requires segs != []
  {
    segs[..|segs| - 1] + [segs[|segs| - 1] + ")"]
  }

  lemma {:induction false} ScanClosed(segs: seq<string>, rest: seq<string>, q: string)
    requires segs != [] && forall i :: 0 <= i < |segs| - 1 ==> Inner(segs[i])
    ensures Scan(Closed(segs) + rest, Some(q)) == Prepend(q + "." + Join(segs, '.'), Scan(rest, None))
  {
    var all := Closed(segs) + rest;
    if |segs| == 1 {
      assert all[1..] == rest;
    } else {
      assert all[1..] == Closed(segs[1..]) + rest;
      ScanClosed(segs[1..], rest, q + "." + segs[0]);
      assert q + "." + segs[0] + "." + Join(segs[1..], '.') == q + "." + Join(segs, '.');
    }
  }

  /** A segment that is not Inner ends the token early, so that it comes out shorter. */
  lemma {:induction false} ScanCutsShort(segs: seq<string>, rest: seq<string>, q: string)
    requires segs != [] && exists i :: 0 <= i < |segs| - 1 && !Inner(segs[i])
    ensures var r := Scan(Closed(segs) + rest, Some(q));
      r.Some? ==> r.value != [] && |r.value[0]| < |q + "." + Join(segs, '.')|
  {
    var all := Closed(segs) + rest;
    assert all[0] == segs[0];
    if Inner(segs[0]) {
      assert all[1..] == Closed(segs[1..]) + rest;
      var i :| 0 <= i < |segs| - 1 && !Inner(segs[i]);
      assert segs[1..][i - 1] == segs[i];
      ScanCutsShort(segs[1..], rest, q + "." + segs[0]);
      assert q + "." + segs[0] + "." + Join(segs[1..], '.') == q + "." + Join(segs, '.');
    }
  }

  lemma {:induction false} OpenQuoteHasDot(segs: seq<string>, q: string)
    ensures var r := Scan(segs, Some(q)); r.Some? && r.value != [] ==> '.' in r.value[0]
  {
    if segs != [] && segs[0] != "" && segs[0][|segs[0]| - 1] != ')' {
      OpenQuoteHasDot(segs[1..], q + "." + segs[0]);
    }
  }

  lemma QuotedPieces(t: string)
    requires '.' in t
    ensures var segs := Split(t, '.');
      && |segs| > 1 && t == segs[0] + "." + Join(segs[1..], '.')
      && Split(Quoted(t), '.') == ["(" + segs[0]] + Closed(segs[1..])
  {
    hide Split, Join;
    JoinSplit(t, '.');
    var segs := Split(t, '.');
    JoinUnfolds(segs);
    var tail := Join(segs[1..], '.');
    PutBetween(segs[0], tail);
    SplitAppend("(" + segs[0], tail + ")", '.');
    SplitNone("(" + segs[0], '.');
    SplitLast(segs[1..]);
  }

  lemma JoinUnfolds(segs: seq<string>)
    requires segs != []
    ensures Join(segs, '.') == if |segs| == 1 then segs[0] else segs[0] + "." + Join(segs[1..], '.')
  {
  }

  lemma PutBetween(a: string, b: string)
    ensures "(" + (a + "." + b) + ")" == ("(" + a) + ['.'] + (b + ")")
  {
  }

  lemma {:induction false} SplitLast(segs: seq<string>)
    requires segs != [] && forall p :: p in segs ==> '.' !in p
    ensures Split(Join(segs, '.') + ")", '.') == Closed(segs)
  {
    if |segs| == 1 {
      SplitNone(segs[0] + ")", '.');
    } else {
      SplitLast(segs[1..]);
      assert Join(segs, '.') + ")" == segs[0] + "." + (Join(segs[1..], '.') + ")");
      SplitAppend(segs[0], Join(segs[1..], '.') + ")", '.');
      SplitNone(segs[0], '.');
    }
  }

  lemma DottedTokenReadsBack(t: string, rest: seq<string>)
    requires '.' in t
    ensures Readable(t) ==> Scan(Split(Quoted(t), '.') + rest, None) == Prepend(t, Scan(rest, None))
    ensures !Readable(t) ==>
      var r := Scan(Split(Quoted(t), '.') + rest, None); r.Some? ==> r.value == [] || r.value[0] != t
  {
    hide Split, Join, Inner;
    QuotedPieces(t);
    var segs := Split(t, '.');
    var all, tail := Split(Quoted(t), '.') + rest, segs[1..];
    assert forall i :: 0 <= i < |tail| ==> tail[i] == segs[i + 1];
    assert all[0] == "(" + segs[0] && all[0][1..] == segs[0] && all[1..] == Closed(tail) + rest;
    assert Scan(all, None) == Scan(Closed(tail) + rest, Some(segs[0]));
    if Readable(t) {
      ScanClosed(tail, rest, segs[0]);
    } else {
      var i :| 0 < i < |segs| - 1 && !Inner(segs[i]);
      assert !Inner(tail[i - 1]);
      ScanCutsShort(tail, rest, segs[0]);
    }
  }

  /** One printed token, followed by anything, is read as itself exactly when it is Readable. */
  lemma TokenReadsBack(t: string, rest: seq<string>)
    ensures Readable(t) ==> Scan(Split(Quoted(t), '.') + rest, None) == Prepend(t, Scan(rest, None))
    ensures !Readable(t) ==>
      var r := Scan(Split(Quoted(t), '.') + rest, None); r.Some? ==> r.value == [] || r.value[0] != t
  {
    if '.' in t {
      DottedTokenReadsBack(t, rest);
    } else {
      SplitNone(t, '.');
      assert ([t] + rest)[1..] == rest;
      if t != "" { OpenQuoteHasDot(rest, t[1..]); }
    }
  }

  lemma {:induction false} PiecesReadBack(tokens: seq<string>)
    ensures var pieces := seq(|tokens|, i requires 0 <= i < |tokens| => Split(Quoted(tokens[i]), '.'));
      Scan(Flatten(pieces), None) == Some(tokens) <==> forall t :: t in tokens ==> Readable(t)
  {
    var pieces := seq(|tokens|, i requires 0 <= i < |tokens| => Split(Quoted(tokens[i]), '.'));
    if tokens != [] {
      var tail := tokens[1..];
      assert pieces[1..] == seq(|tail|, i requires 0 <= i < |tail| => Split(Quoted(tail[i]), '.'));
      TokenReadsBack(tokens[0], Flatten(pieces[1..]));
      PiecesReadBack(tail);
      assert tokens == [tokens[0]] + tail;
      assert forall t :: t in tokens <==> t == tokens[0] || t in tail;
    }
  }

  /** Round trip of one path, with its exact condition. */
  lemma PathRoundTrip(tokens: seq<string>)
    ensures TokensOf(PrintPath(tokens)) == Some(tokens) <==> tokens != [] && forall t :: t in tokens ==> Readable(t)
  {
    if tokens == [] {
      assert Scan([""], None) == None;
    } else {
      var quoted := seq(|tokens|, i requires 0 <= i < |tokens| => Quoted(tokens[i]));
      SplitJoin(quoted, '.');
      assert seq(|quoted|, i requires 0 <= i < |quoted| => Split(quoted[i], '.'))
          == seq(|tokens|, i requires 0 <= i < |tokens| => Split(Quoted(tokens[i]), '.'));
      PiecesReadBack(tokens);
    }
  }

  ghost predicate ReadablePath(tokens: seq<string>) {
    tokens != [] && forall t :: t in tokens ==> Readable(t)
  }

  lemma {:induction false} PathsReadBack(paths: seq<seq<string>>)
    ensures var texts := seq(|paths|, i requires 0 <= i < |paths| => "." + PrintPath(paths[i]));
      AllTokens(texts) == Some(paths) <==> forall p :: p in paths ==> ReadablePath(p)
  {
    var texts := seq(|paths|, i requires 0 <= i < |paths| => "." + PrintPath(paths[i]));
    if paths != [] {
      var tail := paths[1..];
      assert texts[1..] == seq(|tail|, i requires 0 <= i < |tail| => "." + PrintPath(tail[i]));
      assert texts[0][1..] == PrintPath(paths[0]);
      PathRoundTrip(paths[0]);
      PathsReadBack(tail);
      var first := TokensOf(PrintPath(paths[0]));
      if first.Some? { PrependIs(first.value, AllTokens(texts[1..]), paths); }
      assert ReadablePath(paths[0]) <==> first == Some(paths[0]);
      hide ReadablePath, TokensOf, PrintPath;
      assert (forall p :: p in paths ==> ReadablePath(p))
        <==> ReadablePath(paths[0]) && forall p :: p in tail ==> ReadablePath(p)
      by { assert paths == [paths[0]] + tail; }
    }
  }

  lemma {:induction false} PrintedHasNoSemicolon(parts: seq<string>)
    requires forall p :: p in parts ==> ';' !in p
    ensures ';' !in Join(parts, '.')
  {
    if |parts| > 1 { PrintedHasNoSemicolon(parts[1..]); }
  }

  /** Round trip of a whole location whose tokens hold no ';', with its exact condition. */
  lemma LocationRoundTrip(paths: seq<seq<string>>)
    requires forall p, t :: p in paths && t in p ==> ';' !in t
    ensures LocationTokens(PrintLocation(paths)) == Some(paths)
        <==> paths != [] && forall p :: p in paths ==> ReadablePath(p)
  {
    if paths == [] {
      assert AllTokens([""]) == None;
    } else {
      var texts := seq(|paths|, i requires 0 <= i < |paths| => "." + PrintPath(paths[i]));
      forall i | 0 <= i < |texts| ensures ';' !in texts[i] {
        var p := paths[i];
        var quoted := seq(|p|, k requires 0 <= k < |p| => Quoted(p[k]));
        forall k | 0 <= k < |p| ensures ';' !in quoted[k] { assert p[k] in p; }
        PrintedHasNoSemicolon(quoted);
      }
      SplitJoin(texts, ';');
      SinglesFlatten(texts, ';');
      PathsReadBack(paths);
    }
  }
}
