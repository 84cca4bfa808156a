/**
 Byte strings, hash functions and the byte order that every other module rests on.

 A Go string or byte slice is a sequence of bytes; here it is a sequence of characters, one
 character a byte.  Nothing below depends on a character being smaller than 256, except where a
 digest is written as hexadecimal text.
 */
module Basics {

  type Bytes = string

  datatype Option<+T> = None | Some(value: T)

  /** The 32 bytes of a SHA-256 value. */
  type Digest = d: string | |d| == 32 && (forall i :: 0 <= i < |d| ==> d[i] < 256 as char)
    witness "\0\0\0\0\0\0\0\0\0\0\0\0\0\0\0\0\0\0\0\0\0\0\0\0\0\0\0\0\0\0\0\0"

  /** The 32 zero bytes that pad a row of leaves. */
  const ZERO: Digest := "\0\0\0\0\0\0\0\0\0\0\0\0\0\0\0\0\0\0\0\0\0\0\0\0\0\0\0\0\0\0\0\0"

  /** SHA-256 is a parameter of every theorem: nothing but its output length is known. */
  type Hasher = Bytes -> Digest

  /** Two different inputs with one digest. */
  ghost predicate Collides(h: Hasher, x: Bytes, y: Bytes) {
    x != y && h(x) == h(y)
  }

  function Min(a: int, b: int): int {
    if a <= b then a else b
  }

  lemma SliceOfSlice<T>(s: seq<T>, a: nat, b: nat, c: nat, d: nat)
    requires a <= b <= |s| && c <= d <= b - a
    ensures s[a..b][c..d] == s[a + c..a + d]
  {
    var t := s[a..b];
    assert forall i :: 0 <= i < d - c ==> t[c..d][i] == t[c + i] == s[a + c + i] == s[a + c..a + d][i];
  }

  /** strings.IndexByte, with the length of the string for an absent byte. */
  function IndexByte(s: Bytes, c: char): (i: nat)
    ensures i <= |s| && (i < |s| ==> s[i] == c) && forall n :: 0 <= n < i ==> s[n] != c
  {
    if s == [] || s[0] == c then 0 else 1 + IndexByte(s[1..], c)
  }

  lemma {:induction false} IndexOfDelimiter(s: Bytes, c: char, x: Bytes)
    requires c !in s
    ensures IndexByte(s + [c] + x, c) == |s|
  {
    if s != [] {
      assert (s + [c] + x)[1..] == s[1..] + [c] + x;
      IndexOfDelimiter(s[1..], c, x);
    }
  }

  /* ---- The byte order of Go strings ---- */

  predicate Leq(a: Bytes, b: Bytes) {
    a == [] || (b != [] && (a[0] < b[0] || (a[0] == b[0] && Leq(a[1..], b[1..]))))
  }

  predicate Less(a: Bytes, b: Bytes) {
    a != b && Leq(a, b)
  }

  /** strings.Compare */
  function Compare(a: Bytes, b: Bytes): int {
    if a == b then 0 else if Leq(a, b) then -1 else 1
  }

  lemma LeqRefl(a: Bytes)
    ensures Leq(a, a)
  {
  }

  lemma {:induction false} LeqTotal(a: Bytes, b: Bytes)
    ensures Leq(a, b) || Leq(b, a)
    ensures Leq(a, b) && Leq(b, a) ==> a == b
  {
    if a != [] && b != [] && a[0] == b[0] {
      LeqTotal(a[1..], b[1..]);
      assert a == [a[0]] + a[1..] && b == [b[0]] + b[1..];
    }
  }

  lemma {:induction false} LeqTrans(a: Bytes, b: Bytes, c: Bytes)
    requires Leq(a, b) && Leq(b, c)
    ensures Leq(a, c)
  {
    if a != [] && a[0] == b[0] == c[0] {
      LeqTrans(a[1..], b[1..], c[1..]);
    }
  }

  /** Where a and b part after n bytes, a ends or has the smaller byte. */
  predicate PartsAt(a: Bytes, b: Bytes, n: nat) {
    n <= |a| && n < |b| && a[..n] == b[..n] && (n == |a| || a[n] < b[n])
  }

  /** The byte order: a proper prefix comes first, and otherwise the first difference decides. */
  ghost predicate Precedes(a: Bytes, b: Bytes) {
    exists n: nat :: PartsAt(a, b, n)
  }

  lemma {:induction false} LessMeans(a: Bytes, b: Bytes)
    ensures Less(a, b) <==> Precedes(a, b)
  {
    if a == [] {
      assert b != [] ==> PartsAt(a, b, 0);
    } else if b != [] {
      if a[0] == b[0] {
        LessMeans(a[1..], b[1..]);
        assert a == [a[0]] + a[1..] && b == [b[0]] + b[1..];
        if n: nat :| PartsAt(a[1..], b[1..], n) {
          assert a[..n + 1] == [a[0]] + a[1..][..n] && b[..n + 1] == [b[0]] + b[1..][..n];
          assert PartsAt(a, b, n + 1);
        }
        if n: nat :| PartsAt(a, b, n) {
          assert n > 0;
          assert a[1..][..n - 1] == a[..n][1..] && b[1..][..n - 1] == b[..n][1..];
          assert PartsAt(a[1..], b[1..], n - 1);
        }
      } else {
        assert a[0] < b[0] ==> PartsAt(a, b, 0);
        assert forall n :: 0 < n <= |a| && n < |b| ==> a[..n][0] != b[..n][0];
      }
    }
  }

  /* ---- Decimal and hexadecimal text ---- */

  predicate IsDigit(c: char) {
    '0' <= c <= '9'
  }

  predicate AllDigits(s: string) {
    forall i :: 0 <= i < |s| ==> IsDigit(s[i])
  }

  function HexDigit(n: int): char
    requires 0 <= n < 16
  {
    if n < 10 then '0' + n as char else 'a' + (n - 10) as char
  }

  predicate IsHexDigit(c: char) {
    '0' <= c <= '9' || 'a' <= c <= 'f'
  }

  predicate IsHex(s: string) {
    forall i :: 0 <= i < |s| ==> IsHexDigit(s[i])
  }

  predicate AllBytes(s: string) {
    forall i :: 0 <= i < |s| ==> s[i] < 256 as char
  }

  /** hex.EncodeToString */
  function Hex(s: string): (t: string)
    requires AllBytes(s)
    ensures |t| == 2 * |s| && IsHex(t)
  {
    if s == [] then []
    else [HexDigit(s[0] as int / 16), HexDigit(s[0] as int % 16)] + Hex(s[1..])
  }

  /** The value of one digit as hex.Decode reads it, upper case included. */
  function HexValue(c: char): Option<int> {
    if '0' <= c <= '9' then Some(c as int - '0' as int)
    else if 'a' <= c <= 'f' then Some(c as int - 'a' as int + 10)
    else if 'A' <= c <= 'F' then Some(c as int - 'A' as int + 10)
    else None
  }

  /** hex.Decode: None is the error for an odd length or a byte that is no digit. */
  function HexDecode(t: string): (s: Option<string>)
    ensures s.Some? ==> 2 * |s.value| == |t| && AllBytes(s.value)
  {
    if t == [] then Some([])
    else if |t| == 1 then None
    else
      var hi, lo, rest := HexValue(t[0]), HexValue(t[1]), HexDecode(t[2..]);
      if hi.Some? && lo.Some? && rest.Some?
      then Some([(hi.value * 16 + lo.value) as char] + rest.value) else None
  }

  /** Two digits stand for one byte. */
  lemma HexPair(c: char)
    requires c < 256 as char
    ensures var hi, lo := HexValue(HexDigit(c as int / 16)), HexValue(HexDigit(c as int % 16));
      hi.Some? && lo.Some? && (hi.value * 16 + lo.value) as char == c
  {
  }

  lemma PairHex(a: char, b: char)
    requires IsHexDigit(a) && IsHexDigit(b)
    ensures HexValue(a).Some? && HexValue(b).Some?
    ensures var n := HexValue(a).value * 16 + HexValue(b).value;
      0 <= n < 256 && HexDigit(n / 16) == a && HexDigit(n % 16) == b
  {
  }

  lemma DecodeCons(a: char, b: char, t: string)
    requires HexValue(a).Some? && HexValue(b).Some? && HexDecode(t).Some?
    ensures HexDecode([a, b] + t) ==
      Some([(HexValue(a).value * 16 + HexValue(b).value) as char] + HexDecode(t).value)
  {
    hide HexValue;
    assert ([a, b] + t)[2..] == t;
  }

  lemma {:induction false} HexRoundTrip(s: string)
    requires AllBytes(s)
    ensures HexDecode(Hex(s)) == Some(s)
  {
    if s != [] {
      HexRoundTrip(s[1..]);
      HexPair(s[0]);
      hide HexDecode, HexValue, HexDigit;
      DecodeCons(HexDigit(s[0] as int / 16), HexDigit(s[0] as int % 16), Hex(s[1..]));
      assert s == [s[0]] + s[1..];
    }
  }

  /** Lower-case text is what its own bytes are written as. */
  lemma {:induction false} HexOfDecoded(t: string)
    requires IsHex(t) && |t| % 2 == 0
    ensures HexDecode(t).Some? && Hex(HexDecode(t).value) == t
  {
    if t != [] {
      assert IsHexDigit(t[0]) && IsHexDigit(t[1]);
      HexOfDecoded(t[2..]);
      PairHex(t[0], t[1]);
      DecodeCons(t[0], t[1], t[2..]);
      hide HexDecode, HexValue, HexDigit;
      assert [t[0], t[1]] + t[2..] == t;
      var c, rest := (HexValue(t[0]).value * 16 + HexValue(t[1]).value) as char, HexDecode(t[2..]).value;
      assert ([c] + rest)[1..] == rest;
    }
  }

  /** Byte i is written as two digits, the high one first. */
  lemma {:induction false} HexAt(s: string, i: nat)
    requires AllBytes(s) && i < |s|
    ensures Hex(s)[2 * i] == "0123456789abcdef"[s[i] as int / 16]
    ensures Hex(s)[2 * i + 1] == "0123456789abcdef"[s[i] as int % 16]
  {
    if i > 0 {
      HexAt(s[1..], i - 1);
      hide HexDigit;
      assert Hex(s)[2..] == Hex(s[1..]);
    }
  }

  /** A hexadecimal digit of either case. */
  predicate AnyHexDigit(c: char) {
    '0' <= c <= '9' || 'a' <= c <= 'f' || 'A' <= c <= 'F'
  }

  /** The digit c has the value n. */
  ghost predicate IsValue(c: char, n: int) {
    0 <= n < 16 && (c == "0123456789abcdef"[n] || c == "0123456789ABCDEF"[n])
  }

  lemma HexValueMeans(c: char)
    ensures HexValue(c).Some? <==> AnyHexDigit(c)
    ensures HexValue(c).Some? ==> IsValue(c, HexValue(c).value)
  {
  }

  /** What is decoded: digits of either case, two for a byte, the high one first. */
  lemma {:induction false} HexDecodeMeans(t: string)
    ensures HexDecode(t).Some? <==> |t| % 2 == 0 && forall i :: 0 <= i < |t| ==> AnyHexDigit(t[i])
    ensures HexDecode(t).Some? ==> forall i :: 0 <= i < |HexDecode(t).value| ==>
      IsValue(t[2 * i], HexDecode(t).value[i] as int / 16) && IsValue(t[2 * i + 1], HexDecode(t).value[i] as int % 16)
  {
    hide HexValue, IsValue, AnyHexDigit;
    if |t| >= 2 {
      HexDecodeMeans(t[2..]);
      HexValueMeans(t[0]);
      HexValueMeans(t[1]);
      assert forall i :: 2 <= i < |t| ==> t[i] == t[2..][i - 2];
      assert (forall i :: 0 <= i < |t| ==> AnyHexDigit(t[i])) <==>
        AnyHexDigit(t[0]) && AnyHexDigit(t[1]) && forall i :: 0 <= i < |t[2..]| ==> AnyHexDigit(t[2..][i]);
      if HexDecode(t).Some? {
        ValuesSmall(t[0], HexValue(t[0]).value);
        ValuesSmall(t[1], HexValue(t[1]).value);
        var s, rest := HexDecode(t).value, HexDecode(t[2..]).value;
        forall i | 0 <= i < |s| ensures IsValue(t[2 * i], s[i] as int / 16) && IsValue(t[2 * i + 1], s[i] as int % 16) {
          if i > 0 {
            var j := i - 1;
            assert s[i] == rest[j] && t[2 * i] == t[2..][2 * j] && t[2 * i + 1] == t[2..][2 * j + 1];
          }
        }
      }
    }
  }

  lemma ValuesSmall(c: char, n: int)
    requires IsValue(c, n)
    ensures 0 <= n < 16
  {
  }

  lemma HexInjective(a: string, b: string)
    requires AllBytes(a) && AllBytes(b) && Hex(a) == Hex(b)
    ensures a == b
  {
    HexRoundTrip(a);
    HexRoundTrip(b);
  }

  /* ---- Digest text ---- */

  const SHA256_PREFIX: string := "sha256:"

  /** ref.IsDigest: "sha256:" and 64 lower-case hexadecimal digits. */
  predicate IsDigest(s: string) {
    SHA256_PREFIX <= s && |s| == 71 && IsHex(s[7..])
  }

  /** artifact.DigestHex, strings.TrimPrefix of "sha256:". */
  function DigestHex(s: string): string {
    if SHA256_PREFIX <= s then s[7..] else s
  }

  /** artifact.Digest: the canonical address of some bytes. */
  function DigestOf(h: Hasher, b: Bytes): (s: string)
    ensures IsDigest(s) && DigestHex(s) == Hex(h(b))
  {
    SHA256_PREFIX + Hex(h(b))
  }

  lemma DigestOfInjective(h: Hasher, x: Bytes, y: Bytes)
    requires DigestOf(h, x) == DigestOf(h, y)
    ensures x == y || Collides(h, x, y)
  {
    assert Hex(h(x)) == DigestOf(h, x)[7..] == Hex(h(y));
    HexInjective(h(x), h(y));
  }
}
