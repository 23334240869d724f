/**
 * Bytes, hexadecimal text and big-endian integers, as the SDK, the watcher and
 * the enclave use them.
 */
module Hex {
  type byte = x: int | 0 <= x < 256

  // ---------------------------------------------------------------- digits

  predicate IsDigit(c: char) {
    '0' <= c <= '9' || 'a' <= c <= 'f' || 'A' <= c <= 'F'
  }

  function Value(c: char): nat
    requires IsDigit(c)
  {
    if '0' <= c <= '9' then (c - '0') as int
    else if 'a' <= c <= 'f' then (c - 'a') as int + 10
    else (c - 'A') as int + 10
  }

  function LowerDigit(v: int): char
    requires 0 <= v < 16
  {
    if v < 10 then '0' + v as char else 'a' + (v - 10) as char
  }

  /** Lower-casing of ASCII text; characters outside A-Z stay as they are. */
  function LowerChar(c: char): char {
    if 'A' <= c <= 'Z' then c + 32 as char else c
  }

  function UpperChar(c: char): char {
    if 'a' <= c <= 'z' then c - 32 as char else c
  }

  function Lower(s: string): string {
    seq(|s|, i requires 0 <= i < |s| => LowerChar(s[i]))
  }

  function Upper(s: string): string {
    seq(|s|, i requires 0 <= i < |s| => UpperChar(s[i]))
  }

  predicate AllDigits(s: string) {
    forall i :: 0 <= i < |s| ==> IsDigit(s[i])
  }

  predicate HasPrefix(s: string) {
    2 <= |s| && s[0] == '0' && s[1] == 'x'
  }

  /** 0x-prefixed text of hex digits, any number of them. */
  predicate IsHex(s: string) {
    HasPrefix(s) && AllDigits(s[2..])
  }

  // ----------------------------------------------------------- text <-> bytes

  /** The bytes behind an even run of hex digits, either case. */
  function Pack(s: string): (b: seq<byte>)
    requires AllDigits(s) && |s| % 2 == 0
    ensures |s| == 2 * |b|
  {
    if s == [] then [] else [16 * Value(s[0]) + Value(s[1])] + Pack(s[2..])
  }

  /** Two lower-case digits for every byte. */
  function Unpack(b: seq<byte>): (s: string)
    ensures |s| == 2 * |b|
  {
    if b == [] then [] else [LowerDigit(b[0] / 16), LowerDigit(b[0] % 16)] + Unpack(b[1..])
  }

  function ToHex(b: seq<byte>): string {
    "0x" + Unpack(b)
  }

  lemma LowerDigitIsDigit(v: int)
    requires 0 <= v < 16
    ensures IsDigit(LowerDigit(v)) && LowerChar(LowerDigit(v)) == LowerDigit(v)
    ensures IsDigit(UpperChar(LowerDigit(v)))
    ensures Value(LowerDigit(v)) == v
  {
  }

  lemma DigitBack(c: char)
    requires IsDigit(c)
    ensures Value(c) < 16 && LowerDigit(Value(c)) == LowerChar(c)
    ensures IsDigit(UpperChar(c)) && Value(UpperChar(c)) == Value(c)
    ensures IsDigit(LowerChar(c)) && Value(LowerChar(c)) == Value(c)
  {
  }

  lemma {:induction false} UnpackDigits(b: seq<byte>)
    ensures AllDigits(Unpack(b)) && Lower(Unpack(b)) == Unpack(b)
    ensures AllDigits(Upper(Unpack(b)))
  {
    if b != [] {
      LowerDigitIsDigit(b[0] / 16);
      LowerDigitIsDigit(b[0] % 16);
      UnpackDigits(b[1..]);
      var u := Unpack(b[1..]);
      forall i | 0 <= i < |u| ensures LowerChar(u[i]) == u[i] && IsDigit(UpperChar(u[i])) {
        assert Lower(u)[i] == u[i] && IsDigit(Upper(u)[i]);
      }
    }
  }

  lemma {:induction false} PackUnpack(b: seq<byte>)
    ensures AllDigits(Unpack(b)) && Pack(Unpack(b)) == b
  {
    UnpackDigits(b);
    if b != [] {
      LowerDigitIsDigit(b[0] / 16);
      LowerDigitIsDigit(b[0] % 16);
      PackUnpack(b[1..]);
      assert Unpack(b)[2..] == Unpack(b[1..]);
    }
  }

  lemma Pair(c: char, d: char)
    requires IsDigit(c) && IsDigit(d)
    ensures 0 <= Value(c) < 16 && 0 <= Value(d) < 16
    ensures (16 * Value(c) + Value(d)) / 16 == Value(c) && (16 * Value(c) + Value(d)) % 16 == Value(d)
  {
  }

  lemma LowerInPairs(s: string)
    requires |s| >= 2
    ensures Lower(s) == [LowerChar(s[0]), LowerChar(s[1])] + Lower(s[2..])
  {
  }

  lemma UpperDigits(s: string)
    requires AllDigits(s)
    ensures AllDigits(Upper(s))
  {
    forall i | 0 <= i < |s| ensures IsDigit(Upper(s)[i]) {
      DigitBack(s[i]);
    }
  }

  /** Case does not matter to the bytes. */
  lemma {:induction false} PackUpper(s: string)
    requires AllDigits(s) && |s| % 2 == 0
    ensures AllDigits(Upper(s)) && Pack(Upper(s)) == Pack(s)
  {
    UpperDigits(s);
    if s != [] {
      DigitBack(s[0]);
      DigitBack(s[1]);
      PackUpper(s[2..]);
      assert Upper(s)[2..] == Upper(s[2..]);
    }
  }

  lemma UnpackOne(b: byte, rest: seq<byte>)
    ensures Unpack([b] + rest) == [LowerDigit(b / 16), LowerDigit(b % 16)] + Unpack(rest)
  {
    assert ([b] + rest)[1..] == rest;
  }

  /** Unpacking what was packed gives the text back in lower case. */
  lemma {:induction false} UnpackPack(s: string)
    requires AllDigits(s) && |s| % 2 == 0
    ensures Unpack(Pack(s)) == Lower(s)
  {
    if s != [] {
      DigitBack(s[0]);
      DigitBack(s[1]);
      UnpackPack(s[2..]);
      Pair(s[0], s[1]);
      UnpackOne(16 * Value(s[0]) + Value(s[1]), Pack(s[2..]));
      LowerInPairs(s);
    }
  }

  lemma WholeAppend(s: string, t: string)
    requires AllDigits(s) && |s| % 2 == 0 && AllDigits(t) && |t| % 2 == 0
    ensures AllDigits(s + t) && |s + t| % 2 == 0
  {
  }

  lemma TailAppend(s: string, t: string)
    requires |s| >= 2
    ensures (s + t)[2..] == s[2..] + t && (s + t)[0] == s[0] && (s + t)[1] == s[1]
  {
  }

  lemma WholeTail(s: string)
    requires AllDigits(s) && |s| % 2 == 0 && s != []
    ensures |s| >= 2 && AllDigits(s[2..]) && |s[2..]| % 2 == 0
    ensures Pack(s) == [16 * Value(s[0]) + Value(s[1])] + Pack(s[2..])
  {
  }

  lemma {:induction false} PackAppend(s: string, t: string)
    requires AllDigits(s) && |s| % 2 == 0 && AllDigits(t) && |t| % 2 == 0
    ensures AllDigits(s + t) && Pack(s + t) == Pack(s) + Pack(t)
    decreases |s|
  {
    WholeAppend(s, t);
    if s == [] {
      assert s + t == t && Pack(s) == [];
    } else {
      var u, rest := s + t, s[2..];
      WholeTail(s);
      WholeTail(u);
      TailAppend(s, t);
      PackAppend(rest, t);
      var b := [16 * Value(s[0]) + Value(s[1])];
      assert (b + Pack(rest)) + Pack(t) == b + (Pack(rest) + Pack(t));
    }
  }

  lemma {:induction false} UnpackZeros(n: nat)
    ensures Unpack(seq(n, _ => 0)) == seq(2 * n, _ => '0')
  {
    if n > 0 {
      var b: seq<byte> := seq(n, _ => 0);
      assert b[1..] == seq(n - 1, _ => 0);
      UnpackZeros(n - 1);
    }
  }

  // -------------------------------------------------------- big-endian integers

  function Pow256(k: nat): (p: nat)
    ensures p > 0
  {
    if k == 0 then 1 else 256 * Pow256(k - 1)
  }

  /** The k low-order bytes of n, most significant first. */
  function BigEndian(n: nat, k: nat): (b: seq<byte>)
    ensures |b| == k
    decreases k
  {
    if k == 0 then [] else BigEndian(n / 256, k - 1) + [n % 256]
  }

  function FromBigEndian(b: seq<byte>): nat {
    if b == [] then 0 else 256 * FromBigEndian(b[..|b| - 1]) + b[|b| - 1]
  }

  lemma {:induction false} BigEndianBound(b: seq<byte>)
    ensures FromBigEndian(b) < Pow256(|b|)
  {
    if b != [] {
      BigEndianBound(b[..|b| - 1]);
    }
  }

  lemma {:induction false} DecodeBigEndian(n: nat, k: nat)
    requires n < Pow256(k)
    ensures FromBigEndian(BigEndian(n, k)) == n
    decreases k
  {
    if k > 0 {
      assert BigEndian(n, k)[..k - 1] == BigEndian(n / 256, k - 1);
      DecodeBigEndian(n / 256, k - 1);
    }
  }

  lemma {:induction false} EncodeBigEndian(b: seq<byte>)
    ensures BigEndian(FromBigEndian(b), |b|) == b
  {
    if b != [] {
      EncodeBigEndian(b[..|b| - 1]);
    }
  }

  lemma Pow256Of8()
    ensures Pow256(8) == 0x1_0000_0000_0000_0000
  {
    assert Pow256(4) == 0x1_0000_0000;
    assert Pow256(8) == 0x1_0000_0000 * Pow256(4);
  }
}
