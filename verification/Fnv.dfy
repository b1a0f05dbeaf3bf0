/** FNV-1a, 32 bit, as hash/fnv computes it for a job's key (controllers/common.go). */
module Fnv {
  const MODULUS: int := 0x1_0000_0000
  const OFFSET32: int := 2166136261
  const PRIME32: int := 16777619
  const INVERSE32: int := 899433627     // of the prime, modulo 2^32

  newtype Word = x: int | 0 <= x < 0x1_0000_0000

  function Pow2(bits: nat): nat {
    if bits == 0 then 1 else 2 * Pow2(bits - 1)
  }

  /** Bitwise exclusive or of the lowest `bits` bits. */
  function Xor(a: nat, b: nat, bits: nat): (x: nat)
    ensures x < Pow2(bits)
  {
    if bits == 0 then 0 else (a % 2 + b % 2) % 2 + 2 * Xor(a / 2, b / 2, bits - 1)
  }

  lemma Pow2Of32()
    ensures Pow2(32) == 0x1_0000_0000
  {
    assert Pow2(8) == 256;
    assert Pow2(16) == 256 * 256;
    assert Pow2(24) == 256 * 256 * 256;
  }

  lemma XorBits(a: nat, b: nat, bits: nat)
    requires bits > 0
    ensures Xor(a, b, bits) % 2 == (if a % 2 == b % 2 then 0 else 1)
    ensures Xor(a, b, bits) / 2 == Xor(a / 2, b / 2, bits - 1)
  {
  }

  lemma {:induction false} XorInjective(a: nat, a': nat, b: nat, b': nat, bits: nat)
    requires a < Pow2(bits) && a' < Pow2(bits) && b < Pow2(bits) && b' < Pow2(bits)
    ensures Xor(a, b, bits) == Xor(a', b, bits) ==> a == a'
    ensures Xor(a, b, bits) == Xor(a, b', bits) ==> b == b'
  {
    if bits > 0 {
      XorBits(a, b, bits);
      XorBits(a', b, bits);
      XorBits(a, b', bits);
      hide Xor;
      XorInjective(a / 2, a' / 2, b / 2, b' / 2, bits - 1);
      hide Pow2;
      assert Xor(a, b, bits) == Xor(a', b, bits) ==> a / 2 == a' / 2 && a % 2 == a' % 2;
      assert Xor(a, b, bits) == Xor(a, b', bits) ==> b / 2 == b' / 2 && b % 2 == b' % 2;
    }
  }

  function ByteOf(c: char): (b: nat)
    ensures b < 256
  {
    c as int % 256
  }

  /** One round: exclusive or with the byte, then a multiplication that wraps at 32 bits. */
  function Mix(h: Word, b: nat): Word {
    (Xor(h as nat, b, 32) * PRIME32 % MODULUS) as Word
  }

  function Absorb(h: Word, s: string): Word
    decreases |s|
  {
    if s == "" then h else Absorb(Mix(h, ByteOf(s[0])), s[1..])
  }

  function Sum32(s: string): Word {
    Absorb(OFFSET32 as Word, s)
  }

  method Write(s: string) returns (h: Word)
    ensures h == Sum32(s)
  {
    h := OFFSET32 as Word;
    assert s[0..] == s;
    for i := 0 to |s|
      invariant Absorb(h, s[i..]) == Sum32(s)
    {
      assert s[i..][1..] == s[i + 1..];
      var x := Xor(h as nat, ByteOf(s[i]), 32);
      h := (x * PRIME32 % MODULUS) as Word;
    }
  }

  lemma ModIs(y: int, k: int, x: int)
    requires y == x + MODULUS * k && 0 <= x < MODULUS
    ensures y % MODULUS == x
  {
  }

  /** Multiplication by the prime is undone by multiplication by its inverse. */
  lemma Unmultiply(x: int)
    requires 0 <= x < MODULUS
    ensures (x * PRIME32 % MODULUS) * INVERSE32 % MODULUS == x
  {
    var q := x * PRIME32 / MODULUS;
    var r := x * PRIME32 % MODULUS;
    assert r == x * PRIME32 - MODULUS * q;
    ModIs(r * INVERSE32, COFACTOR * x - q * INVERSE32, x);
  }

  const COFACTOR: int := 3513497            // PRIME32 * INVERSE32 == 1 + MODULUS * COFACTOR

  /** Each round can be undone, in the state for a known byte and in the byte for a known state. */
  lemma MixInjective(h: Word, h': Word, b: nat, b': nat)
    requires b < 256 && b' < 256
    ensures Mix(h, b) == Mix(h', b) ==> h == h'
    ensures Mix(h, b) == Mix(h, b') ==> b == b'
  {
    Pow2Of32();
    Unmultiply(Xor(h as nat, b, 32));
    Unmultiply(Xor(h' as nat, b, 32));
    Unmultiply(Xor(h as nat, b', 32));
    XorInjective(h as nat, h' as nat, b, b', 32);
  }

  lemma {:induction false} AbsorbInjective(h: Word, h': Word, s: string)
    requires h != h'
    ensures Absorb(h, s) != Absorb(h', s)
    decreases |s|
  {
    if s != "" {
      MixInjective(h, h', ByteOf(s[0]), ByteOf(s[0]));
      AbsorbInjective(Mix(h, ByteOf(s[0])), Mix(h', ByteOf(s[0])), s[1..]);
    }
  }

  lemma {:induction false} AbsorbAppend(h: Word, s: string, t: string)
    ensures Absorb(h, s + t) == Absorb(Absorb(h, s), t)
    decreases |s|
  {
    if s == "" {
      assert s + t == t;
    } else {
      assert (s + t)[1..] == s[1..] + t;
      AbsorbAppend(Mix(h, ByteOf(s[0])), s[1..], t);
    }
  }

  lemma AroundByte(s: string, i: nat)
    requires i < |s|
    ensures s == s[..i] + ([s[i]] + s[i + 1..]) && ([s[i]] + s[i + 1..])[1..] == s[i + 1..]
  {
  }

  lemma ByteInjective(c: char, d: char)
    requires c != d && c as int < 256 && d as int < 256
    ensures ByteOf(c) != ByteOf(d)
  {
  }

  /** Texts of equal length that differ in exactly one byte never share a hash. */
  lemma OneByteSeparates(s: string, t: string, i: nat)
    requires |s| == |t| && i < |s| && s[i] != t[i] && s[i] as int < 256 && t[i] as int < 256
    requires forall k :: 0 <= k < |s| && k != i ==> s[k] == t[k]
    ensures Sum32(s) != Sum32(t)
  {
    hide Mix, ByteOf;
    assert s[..i] == t[..i] && s[i + 1..] == t[i + 1..];
    var pre, post := s[..i], s[i + 1..];
    AroundByte(s, i);
    AroundByte(t, i);
    AbsorbAppend(OFFSET32 as Word, pre, [s[i]] + post);
    AbsorbAppend(OFFSET32 as Word, pre, [t[i]] + post);
    var h := Absorb(OFFSET32 as Word, pre);
    ByteInjective(s[i], t[i]);
    MixInjective(h, h, ByteOf(s[i]), ByteOf(t[i]));
    AbsorbInjective(Mix(h, ByteOf(s[i])), Mix(h, ByteOf(t[i])), post);
  }

  lemma {:induction false} XorNothing(a: nat, bits: nat)
    requires a < Pow2(bits)
    ensures Xor(a, 0, bits) == a
  {
    if bits > 0 { XorNothing(a / 2, bits - 1); }
  }

  lemma HighBitsKept()
    ensures Xor(0x0102_393B, 0, 25) == 0x0102_393B
  {
    hide Xor;
    assert Pow2(8) == 256 && Pow2(16) == 256 * 256 && Pow2(25) == 512 * 256 * 256;
    XorNothing(0x0102_393B, 25);
  }

  lemma FirstRound()
    ensures Xor(0x811C_9DC5, 97, 32) == 0x811C_9DA4
  {
    hide Xor, Pow2;
    HighBitsKept();
    XorStep(0x0204_7277, 1, 26);
    XorStep(0x0408_E4EE, 3, 27);
    XorStep(0x0811_C9DC, 6, 28);
    XorStep(0x1023_93B8, 12, 29);
    XorStep(0x2047_2771, 24, 30);
    XorStep(0x408E_4EE2, 48, 31);
    XorStep(0x811C_9DC5, 97, 32);
  }

  lemma XorStep(a: nat, b: nat, bits: nat)
    requires bits > 0
    ensures Xor(a, b, bits) == (a % 2 + b % 2) % 2 + 2 * Xor(a / 2, b / 2, bits - 1)
  {
  }

  /** Known sums: of the empty text, and of "a". */
  lemma KnownSums()
    ensures Sum32("") as int == 0x811C_9DC5
    ensures Sum32("a") as int == 0xE40C_292C
  {
    FirstRound();
    hide Xor, Pow2;
    assert "a"[1..] == "";
    assert Absorb(Mix(OFFSET32 as Word, 97), "") == Mix(OFFSET32 as Word, 97);
  }
}
