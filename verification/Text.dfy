/** Byte strings: splitting and joining at a separator, byte order, and decimal numbers.
    One `char` stands for one byte of a Go string. */
module Text {
  /** strings.Split with a one-byte separator. */
  function Split(s: string, sep: char): (parts: seq<string>)
    ensures |parts| > 0
  {
    if s == "" then [""]
    else
      var rest := Split(s[1..], sep);
      if s[0] == sep then [""] + rest else [[s[0]] + rest[0]] + rest[1..]
  }

  function Join(parts: seq<string>, sep: char): string {
    if parts == [] then ""
    else if |parts| == 1 then parts[0]
    else parts[0] + [sep] + Join(parts[1..], sep)
  }

  function Flatten<T>(parts: seq<seq<T>>): seq<T> {
    if parts == [] then [] else parts[0] + Flatten(parts[1..])
  }

  lemma {:induction false} SplitAppend(a: string, b: string, sep: char)
    ensures Split(a + [sep] + b, sep) == Split(a, sep) + Split(b, sep)
  {
    var s := a + [sep] + b;
    if a == "" {
      assert s[1..] == b;
    } else {
      assert s[1..] == a[1..] + [sep] + b;
      SplitAppend(a[1..], b, sep);
    }
  }

  lemma {:induction false} SplitNone(a: string, sep: char)
    requires sep !in a
    ensures Split(a, sep) == [a]
  {
    if a != "" {
      SplitNone(a[1..], sep);
      assert a == [a[0]] + a[1..];
    }
  }

  /** Splitting undoes joining, up to separators inside the parts. */
  lemma {:induction false} SplitJoin(parts: seq<string>, sep: char)
    requires parts != []
    ensures Split(Join(parts, sep), sep) == Flatten(seq(|parts|, i requires 0 <= i < |parts| => Split(parts[i], sep)))
  {
    var each := seq(|parts|, i requires 0 <= i < |parts| => Split(parts[i], sep));
    if |parts| == 1 {
      assert each[1..] == [];
    } else {
      var rest := parts[1..];
      SplitJoin(rest, sep);
      SplitAppend(parts[0], Join(rest, sep), sep);
      assert each[1..] == seq(|rest|, i requires 0 <= i < |rest| => Split(rest[i], sep));
    }
  }

  /** ... and parts without the separator come out whole. */
  lemma {:induction false} SinglesFlatten(parts: seq<string>, sep: char)
    requires forall p :: p in parts ==> sep !in p
    ensures Flatten(seq(|parts|, i requires 0 <= i < |parts| => Split(parts[i], sep))) == parts
  {
    var pieces := seq(|parts|, i requires 0 <= i < |parts| => Split(parts[i], sep));
    if parts != [] {
      var tail := parts[1..];
      SplitNone(parts[0], sep);
      assert pieces[1..] == seq(|tail|, i requires 0 <= i < |tail| => Split(tail[i], sep));
      SinglesFlatten(tail, sep);
    }
  }

  lemma {:induction false} JoinSplit(s: string, sep: char)
    ensures Join(Split(s, sep), sep) == s
    ensures forall p :: p in Split(s, sep) ==> sep !in p
  {
    if s != "" {
      JoinSplit(s[1..], sep);
      var rest := Split(s[1..], sep);
      assert s == [s[0]] + s[1..];
      if s[0] != sep && |rest| > 1 {
        assert Split(s, sep)[1..] == rest[1..];
      }
    }
  }

  /** strings.Index for one byte. */
  function IndexOf(s: string, c: char): (i: int)
    ensures -1 <= i < |s|
    ensures i >= 0 ==> s[i] == c
    ensures i == -1 <==> c !in s
  {
    if s == "" then -1
    else if s[0] == c then 0
    else var i := IndexOf(s[1..], c); if i < 0 then -1 else i + 1
  }

  // ---------------------------------------------------------------- decimal numbers

  function Digit(n: nat): char
    requires n < 10
  {
    ('0' as int + n) as char
  }

  function ShowNat(n: nat): string {
    if n < 10 then [Digit(n)] else ShowNat(n / 10) + [Digit(n % 10)]
  }

  /** fmt's %d */
  function ShowInt(n: int): string {
    if n < 0 then "-" + ShowNat(-n) else ShowNat(n)
  }

  predicate IsDigit(c: char) {
    '0' <= c <= '9'
  }

  predicate AllDigits(s: string) {
    s != "" && forall i :: 0 <= i < |s| ==> IsDigit(s[i])
  }

  function NatOf(s: string): (n: int)
    requires forall i :: 0 <= i < |s| ==> IsDigit(s[i])
    ensures n >= 0
  {
    if s == "" then 0
    else assert IsDigit(s[|s| - 1]); 10 * NatOf(s[..|s| - 1]) + (s[|s| - 1] as int - '0' as int)
  }

  const MAX_INT64: int := 0x7FFF_FFFF_FFFF_FFFF
  const MIN_INT64: int := -0x8000_0000_0000_0000

  /** The value strconv.ParseInt(s, 10, 64) returns, its error ignored: 0 for text that is not a
      number, the nearest bound for one that is out of range. */
  function ParseInt64(s: string): int {
    var digits := if s != "" && (s[0] == '-' || s[0] == '+') then s[1..] else s;
    if !AllDigits(digits) then 0
    else
      var n: int := if s[0] == '-' then -NatOf(digits) else NatOf(digits);
      if n > MAX_INT64 then MAX_INT64 else if n < MIN_INT64 then MIN_INT64 else n
  }

  /** Whether strconv.ParseInt(s, 10, 64) succeeds. */
  predicate IsInt64(s: string) {
    var digits := if s != "" && (s[0] == '-' || s[0] == '+') then s[1..] else s;
    && AllDigits(digits)
    && MIN_INT64 <= (if s[0] == '-' then -NatOf(digits) else NatOf(digits)) <= MAX_INT64
  }

  /** Text that is no number counts as 0; a plus sign and leading zeros do not count. */
  lemma ParseForgives(s: string)
    ensures !AllDigits(if s != "" && (s[0] == '-' || s[0] == '+') then s[1..] else s) ==> ParseInt64(s) == 0
    ensures AllDigits(s) ==> ParseInt64("+" + s) == ParseInt64(s) == ParseInt64("0" + s)
  {
    hide NatOf;
    if AllDigits(s) {
      ZeroInFront(s);
      assert IsDigit(s[0]) && IsDigit(("0" + s)[0]);
    }
    assert ("+" + s)[1..] == s;
  }

  /** A number out of range counts as the nearest bound. */
  lemma ParseClamps(n: int)
    ensures n > MAX_INT64 ==> !IsInt64(ShowInt(n)) && ParseInt64(ShowInt(n)) == MAX_INT64
    ensures n < MIN_INT64 ==> !IsInt64(ShowInt(n)) && ParseInt64(ShowInt(n)) == MIN_INT64
  {
    ShownDigits(n);
    hide NatOf, ShowInt, ShowNat;
  }

  lemma ShownDigits(n: int)
    ensures var s, digits := ShowInt(n), ShowNat(if n < 0 then -n else n);
      && AllDigits(digits) && NatOf(digits) == (if n < 0 then -n else n)
      && s != "" && (if n < 0 then s[0] == '-' && s[1..] == digits else s == digits && IsDigit(s[0]))
  {
    ShowNatParses(if n < 0 then -n else n);
    hide ShowNat, NatOf;
  }

  lemma {:induction false} ZeroInFront(s: string)
    requires forall i :: 0 <= i < |s| ==> IsDigit(s[i])
    ensures forall i :: 0 <= i < |"0" + s| ==> IsDigit(("0" + s)[i])
    ensures NatOf("0" + s) == NatOf(s)
  {
    if s != "" {
      ZeroInFront(s[..|s| - 1]);
      assert ("0" + s)[..|s|] == "0" + s[..|s| - 1];
    } else {
      assert "0" + s == "0" && "0"[..0] == "";
    }
  }

  /** A number in range is read back from its decimals, which hold nothing but digits and a sign. */
  lemma ShownIntParses(n: int)
    ensures MIN_INT64 <= n <= MAX_INT64 ==> IsInt64(ShowInt(n)) && ParseInt64(ShowInt(n)) == n
    ensures forall c :: c in ShowInt(n) ==> IsDigit(c) || c == '-'
  {
    ShownDigits(n);
    hide NatOf, ShowNat;
  }

  lemma {:induction false} ShowNatParses(n: nat)
    ensures AllDigits(ShowNat(n)) && NatOf(ShowNat(n)) == n
    ensures |ShowNat(n)| == 1 || ShowNat(n)[0] != '0'
    ensures n > 0 ==> ShowNat(n)[0] != '0'
  {
    if n >= 10 {
      ShowNatParses(n / 10);
      assert ShowNat(n)[..|ShowNat(n)| - 1] == ShowNat(n / 10);
    } else {
      assert ShowNat(n)[..0] == "";
    }
  }

  lemma {:induction false} ParsedNatShows(s: string)
    requires AllDigits(s) && (|s| == 1 || s[0] != '0')
    ensures ShowNat(NatOf(s)) == s
    ensures s[0] != '0' ==> NatOf(s) > 0
  {
    var most := s[..|s| - 1];
    if |s| > 1 {
      ParsedNatShows(most);
      assert NatOf(s) / 10 == NatOf(most) by { assert IsDigit(s[|s| - 1]); }
      assert s == most + [s[|s| - 1]];
    } else {
      assert most == "" && s == [s[0]];
    }
  }

  lemma ShowNatInjective(m: nat, n: nat)
    requires ShowNat(m) == ShowNat(n)
    ensures m == n
  {
    ShowNatParses(m);
    ShowNatParses(n);
  }

  /** Text that is the decimal form of an int64: no plus sign, no leading zero, no "-0". */
  predicate CanonicalInt64(s: string) {
    var digits := if s != "" && s[0] == '-' then s[1..] else s;
    && AllDigits(digits)
    && (digits[0] == '0' ==> s == "0")
    && MIN_INT64 <= (if s[0] == '-' then -NatOf(digits) else NatOf(digits)) <= MAX_INT64
  }

  /** Rendering what was parsed gives the text back exactly when it was canonical. */
  lemma CanonicalInt64Exact(s: string)
    ensures ShowInt(ParseInt64(s)) == s <==> CanonicalInt64(s)
  {
    if CanonicalInt64(s) {
      CanonicalShows(s);
    } else if ShowInt(ParseInt64(s)) == s {
      ShownIsCanonical(ParseInt64(s));
      assert false;
    }
  }

  lemma CanonicalShows(s: string)
    requires CanonicalInt64(s)
    ensures ShowInt(ParseInt64(s)) == s
  {
    hide NatOf, ShowNat;
    ParsedNatShows(if s[0] == '-' then s[1..] else s);
  }

  lemma ShownIsCanonical(n: int)
    requires MIN_INT64 <= n <= MAX_INT64
    ensures CanonicalInt64(ShowInt(n))
  {
    hide NatOf, ShowNat;
    if n < 0 {
      ShowNatParses(-n);
      assert ShowInt(n)[1..] == ShowNat(-n);
    } else {
      ShowNatParses(n);
      assert IsDigit(ShowNat(n)[0]);
      if ShowNat(n)[0] == '0' { assert ShowNat(n) == ['0']; }
    }
  }
}
