/** Python's `str.encode("utf-8")` on strings of Unicode scalar values (RFC 3629). */
module Utf8 {

  type byte = b: nat | b < 256

  function Continuation(n: nat): byte { 0x80 + n % 64 }

  function EncodeChar(c: char): seq<byte> {
    var n := c as int;
    if n < 0x80 then [n]
    else if n < 0x800 then [0xC0 + n / 64, Continuation(n)]
    else if n < 0x10000 then [0xE0 + n / 4096, Continuation(n / 64), Continuation(n)]
    else [0xF0 + n / 262144, Continuation(n / 4096), Continuation(n / 64), Continuation(n)]
  }

  function Encode(s: string): seq<byte> {
    if s == "" then [] else EncodeChar(s[0]) + Encode(s[1..])
  }

  function At(b: seq<byte>, i: nat): int { if i < |b| then b[i] else 0 }

  /** The code point at the head of a byte string, by its first byte. */
  function HeadPoint(b: seq<byte>): int {
    if At(b, 0) < 0x80 then At(b, 0)
    else if At(b, 0) < 0xE0 then (At(b, 0) - 0xC0) * 64 + (At(b, 1) - 0x80)
    else if At(b, 0) < 0xF0 then (At(b, 0) - 0xE0) * 4096 + (At(b, 1) - 0x80) * 64 + (At(b, 2) - 0x80)
    else (At(b, 0) - 0xF0) * 262144 + (At(b, 1) - 0x80) * 4096 + (At(b, 2) - 0x80) * 64 + (At(b, 3) - 0x80)
  }

  /** Regrouping a number by sixes of bits. */
  lemma Regroup(n: nat)
    ensures n == n / 64 * 64 + n % 64
    ensures n == n / 4096 * 4096 + n / 64 % 64 * 64 + n % 64
    ensures n == n / 262144 * 262144 + n / 4096 % 64 * 4096 + n / 64 % 64 * 64 + n % 64
  {
    var m, k := n / 64, n / 4096;
    assert m == m / 64 * 64 + m % 64 && m / 64 == k;
    assert k == k / 64 * 64 + k % 64 && k / 64 == n / 262144;
  }

  lemma HeadPointOfChar(c: char, rest: seq<byte>)
    ensures EncodeChar(c) != [] && HeadPoint(EncodeChar(c) + rest) == c as int
  {
    Regroup(c as int);
  }

  lemma {:induction false} EncodeInjective(s: string, t: string)
    requires Encode(s) == Encode(t)
    ensures s == t
  {
    if s == "" || t == "" {
      if s != "" { HeadPointOfChar(s[0], Encode(s[1..])); }
      if t != "" { HeadPointOfChar(t[0], Encode(t[1..])); }
    } else {
      var x, y := Encode(s[1..]), Encode(t[1..]);
      HeadPointOfChar(s[0], x);
      HeadPointOfChar(t[0], y);
      assert s[0] as int == t[0] as int;
      assert (EncodeChar(s[0]) + x)[|EncodeChar(s[0])|..] == x;
      assert (EncodeChar(s[0]) + y)[|EncodeChar(s[0])|..] == y;
      EncodeInjective(s[1..], t[1..]);
      assert s == [s[0]] + s[1..] && t == [t[0]] + t[1..];
    }
  }
}
