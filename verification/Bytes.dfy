/**
 Byte strings as Go sees them: little-endian integers of a fixed width, and the
 UTF-8 check of `utf8.ValidString`, tied to the encoding of section 3 of RFC 3629.
 */
module Bytes {

  type byte = x: int | 0 <= x < 0x100
  type uint32 = x: int | 0 <= x < 0x1_0000_0000
  type uint64 = x: int | 0 <= x < 0x1_0000_0000_0000_0000
  type int32 = x: int | -0x8000_0000 <= x < 0x8000_0000
  type Bytes = seq<byte>

  /* ---------- little-endian integers ---------- */

  function Pow256(n: nat): (p: nat)
    ensures p > 0
  {
    if n == 0 then 1 else 256 * Pow256(n - 1)
  }

  /** The n low-order bytes of v, least significant first (binary.LittleEndian.PutUintN). */
  function LittleEndian(v: nat, n: nat): (b: Bytes)
    ensures |b| == n
  {
    if n == 0 then [] else [v % 256] + LittleEndian(v / 256, n - 1)
  }

  /** binary.LittleEndian.UintN over the whole slice. */
  function FromLittleEndian(b: Bytes): nat {
    if b == [] then 0 else b[0] + 256 * FromLittleEndian(b[1..])
  }

  lemma {:induction false} LittleEndianRoundTrip(v: nat, n: nat)
    requires v < Pow256(n)
    ensures FromLittleEndian(LittleEndian(v, n)) == v
  {
    if n > 0 {
      LittleEndianRoundTrip(v / 256, n - 1);
      assert LittleEndian(v, n)[1..] == LittleEndian(v / 256, n - 1);
    }
  }

  lemma {:induction false} FromLittleEndianRoundTrip(b: Bytes)
    ensures FromLittleEndian(b) < Pow256(|b|)
    ensures LittleEndian(FromLittleEndian(b), |b|) == b
  {
    if b != [] {
      FromLittleEndianRoundTrip(b[1..]);
      assert FromLittleEndian(b) / 256 == FromLittleEndian(b[1..]);
    }
  }

  /** The last byte weighs most. */
  lemma {:induction false} LastByteWeighsMost(b: Bytes, last: byte)
    ensures FromLittleEndian(b + [last]) == FromLittleEndian(b) + last * Pow256(|b|)
  {
    if b != [] {
      LastByteWeighsMost(b[1..], last);
      assert (b + [last])[1..] == b[1..] + [last];
      assert last * Pow256(|b|) == 256 * (last * Pow256(|b| - 1));
    } else {
      assert ([] + [last])[1..] == [];
    }
  }

  lemma Powers()
    ensures Pow256(2) == 0x1_0000 && Pow256(4) == 0x1_0000_0000 && Pow256(8) == 0x1_0000_0000_0000_0000
  {
    assert Pow256(1) == 0x100;
    assert Pow256(3) == 256 * Pow256(2);
    assert Pow256(6) == 256 * Pow256(5) == 65536 * Pow256(4);
    assert Pow256(8) == 256 * Pow256(7);
  }

  /* ---------- UTF-8 ---------- */

  predicate Tail(b: byte) { 0x80 <= b <= 0xBF }

  /** Size of the well-formed sequence s starts with, or 0 if it starts with none. */
  function RuneSize(s: Bytes): (n: nat)
    requires s != []
    ensures n <= |s|
  {
    var b := s[0];
    if b < 0x80 then 1
    else if b < 0xC2 then 0
    else if b < 0xE0 then
      if |s| >= 2 && Tail(s[1]) then 2 else 0
    else if b < 0xF0 then
      if |s| >= 3 && Tail(s[1]) && Tail(s[2]) && (b == 0xE0 ==> 0xA0 <= s[1]) && (b == 0xED ==> s[1] < 0xA0)
      then 3 else 0
    else if b < 0xF5 then
      if |s| >= 4 && Tail(s[1]) && Tail(s[2]) && Tail(s[3]) && (b == 0xF0 ==> 0x90 <= s[1])
        && (b == 0xF4 ==> s[1] < 0x90)
      then 4 else 0
    else 0
  }

  predicate ValidUtf8(s: Bytes) {
    s == [] || (var n := RuneSize(s); n > 0 && ValidUtf8(s[n..]))
  }

  /** Unicode scalar values: every code point except the surrogates. */
  predicate Scalar(c: int) { 0 <= c < 0xD800 || 0xE000 <= c < 0x11_0000 }

  function EncodeScalar(c: int): (b: Bytes)
    requires Scalar(c)
    ensures 1 <= |b| <= 4
  {
    if c < 0x80 then [c]
    else if c < 0x800 then [0xC0 + c / 64, 0x80 + c % 64]
    else if c < 0x1_0000 then [0xE0 + c / 4096, 0x80 + c / 64 % 64, 0x80 + c % 64]
    else [0xF0 + c / 262144, 0x80 + c / 4096 % 64, 0x80 + c / 64 % 64, 0x80 + c % 64]
  }

  predicate AllScalar(cs: seq<int>) { forall i :: 0 <= i < |cs| ==> Scalar(cs[i]) }

  function EncodeScalars(cs: seq<int>): Bytes
    requires AllScalar(cs)
  {
    if cs == [] then [] else EncodeScalar(cs[0]) + EncodeScalars(cs[1..])
  }

  lemma EncodedScalarIsRune(c: int, rest: Bytes)
    requires Scalar(c)
    ensures RuneSize(EncodeScalar(c) + rest) == |EncodeScalar(c)|
  {
    var b := EncodeScalar(c);
    assert RuneSize(b) == |b|;
    SizeIgnoresRest(b, rest);
  }

  /** A whole sequence stays the first one whatever follows it. */
  lemma SizeIgnoresRest(s: Bytes, rest: Bytes)
    requires s != [] && RuneSize(s) > 0
    ensures RuneSize(s + rest) == RuneSize(s)
  {
  }

  /** 0 <= low < 64 is what is left of high * 64 + low when divided by 64. */
  lemma SplitBy64(high: int, low: int)
    requires 0 <= low < 64
    ensures (high * 64 + low) / 64 == high && (high * 64 + low) % 64 == low
  {
  }

  /** A well-formed sequence encodes a scalar value. */
  lemma RuneIsEncodedScalar(s: Bytes) returns (c: int)
    requires s != [] && RuneSize(s) > 0
    ensures Scalar(c) && EncodeScalar(c) == s[..RuneSize(s)]
  {
    var n, b0: int := RuneSize(s), s[0];
    if n == 1 {
      c := b0;
    } else if n == 2 {
      c := (b0 - 0xC0) * 64 + (s[1] as int - 0x80);
      SplitBy64(b0 - 0xC0, s[1] as int - 0x80);
    } else if n == 3 {
      c := ThreeByteRune(s);
    } else {
      c := FourByteRune(s);
    }
  }

  lemma ThreeByteRune(s: Bytes) returns (c: int)
    requires s != [] && RuneSize(s) == 3
    ensures Scalar(c) && EncodeScalar(c) == s[..3]
  {
    var b0: int, b1: int, b2: int := s[0], s[1], s[2];
    var high := (b0 - 0xE0) * 64 + (b1 - 0x80);
    c := high * 64 + (b2 - 0x80);
    SplitBy64(high, b2 - 0x80);
    SplitBy64(b0 - 0xE0, b1 - 0x80);
    assert c / 4096 == high / 64;
    assert 0x800 <= c < 0x1_0000;
  }

  lemma FourByteRune(s: Bytes) returns (c: int)
    requires s != [] && RuneSize(s) == 4
    ensures Scalar(c) && EncodeScalar(c) == s[..4]
  {
    var b0: int, b1: int, b2: int, b3: int := s[0], s[1], s[2], s[3];
    var top := (b0 - 0xF0) * 64 + (b1 - 0x80);
    var high := top * 64 + (b2 - 0x80);
    c := high * 64 + (b3 - 0x80);
    SplitBy64(high, b3 - 0x80);
    SplitBy64(top, b2 - 0x80);
    SplitBy64(b0 - 0xF0, b1 - 0x80);
    assert c / 4096 == top;
    assert c / 262144 == top / 64;
    assert 0x1_0000 <= c < 0x11_0000;
  }

  lemma EncodeScalarsCons(c: int, cs: seq<int>)
    requires Scalar(c) && AllScalar(cs)
    ensures AllScalar([c] + cs) && EncodeScalars([c] + cs) == EncodeScalar(c) + EncodeScalars(cs)
  {
    assert ([c] + cs)[1..] == cs;
  }

  lemma JoinAt(s: Bytes, n: nat)
    requires n <= |s|
    ensures s[..n] + s[n..] == s
  {
  }

  lemma {:induction false} DecodeScalars(s: Bytes) returns (cs: seq<int>)
    requires ValidUtf8(s)
    ensures AllScalar(cs) && EncodeScalars(cs) == s
  {
    if s == [] {
      cs := [];
    } else {
      var n := RuneSize(s);
      var c := RuneIsEncodedScalar(s);
      var later := DecodeScalars(s[n..]);
      cs := [c] + later;
      EncodeScalarsCons(c, later);
      JoinAt(s, n);
    }
  }

  lemma {:induction false} EncodedScalarsAreValid(cs: seq<int>)
    requires AllScalar(cs)
    ensures ValidUtf8(EncodeScalars(cs))
  {
    if cs != [] {
      var head, rest := EncodeScalar(cs[0]), EncodeScalars(cs[1..]);
      EncodedScalarsAreValid(cs[1..]);
      EncodedScalarIsRune(cs[0], rest);
      assert (head + rest)[|head|..] == rest;
    }
  }

  /** The validity check accepts exactly the encodings of scalar-value sequences. */
  lemma ValidUtf8IffEncoding(s: Bytes)
    ensures ValidUtf8(s) <==> exists cs: seq<int> :: AllScalar(cs) && s == EncodeScalars(cs)
  {
    if ValidUtf8(s) {
      var cs := DecodeScalars(s);
    }
    forall cs: seq<int> | AllScalar(cs) && s == EncodeScalars(cs)
      ensures ValidUtf8(s)
    {
      EncodedScalarsAreValid(cs);
    }
  }

  /** Appending to a valid string keeps validity exactly when the appended part is valid. */
  lemma {:induction false} ValidUtf8Concat(a: Bytes, b: Bytes)
    requires ValidUtf8(a)
    ensures ValidUtf8(a + b) <==> ValidUtf8(b)
  {
    if a == [] {
      assert a + b == b;
    } else {
      var n := RuneSize(a);
      assert RuneSize(a + b) == n;
      assert (a + b)[n..] == a[n..] + b;
      ValidUtf8Concat(a[n..], b);
    }
  }
}
