/**
 * UTF-8: the bytes Go takes from a string with []byte(s), and the text it reads back
 * from bytes. Strings of the model are sequences of Unicode scalar values.
 */
module Utf8 {
  import opened Wrappers

  newtype byte = x: int | 0 <= x < 256
  type Bytes = seq<byte>

  predicate IsContinuation(b: byte) {
    0x80 <= b < 0xC0
  }

  /** The one to four bytes that encode a scalar value. */
  function EncodeChar(c: char): (r: Bytes)
    ensures 1 <= |r| <= 4
  {
    var n := c as int;
    if n < 0x80 then
      [n as byte]
    else if n < 0x800 then
      [(0xC0 + n / 64) as byte, (0x80 + n % 64) as byte]
    else if n < 0x10000 then
      [(0xE0 + n / 4096) as byte, (0x80 + (n / 64) % 64) as byte, (0x80 + n % 64) as byte]
    else
      [(0xF0 + n / 262144) as byte, (0x80 + (n / 4096) % 64) as byte,
       (0x80 + (n / 64) % 64) as byte, (0x80 + n % 64) as byte]
  }

  /** []byte(s) */
  function Encode(s: string): (r: Bytes)
    decreases |s|
  {
    if s == [] then [] else EncodeChar(s[0]) + Encode(s[1..])
  }

  lemma {:induction false} EncodeAppend(a: string, b: string)
    ensures Encode(a + b) == Encode(a) + Encode(b)
    decreases |a|
  {
    if a == [] {
      assert a + b == b;
    } else {
      assert (a + b)[1..] == a[1..] + b;
      EncodeAppend(a[1..], b);
    }
  }

  /**
   * Reads one well-formed UTF-8 sequence at the front of s: the scalar value and the
   * number of bytes it takes; None when s does not start with one (overlong forms and
   * surrogates included).
   */
  function DecodeChar(s: Bytes): (r: Option<(char, nat)>)
    ensures r.Some? ==> 1 <= r.value.1 <= |s|
  {
    if |s| == 0 then None
    else
      var b0 := s[0] as int;
      if b0 < 0x80 then
        Some((b0 as char, 1))
      else if 0xC2 <= b0 < 0xE0 && |s| >= 2 && IsContinuation(s[1]) then
        var n := (b0 - 0xC0) * 64 + (s[1] as int - 0x80);
        Some((n as char, 2))
      else if 0xE0 <= b0 < 0xF0 && |s| >= 3 && IsContinuation(s[1]) && IsContinuation(s[2]) then
        var n := (b0 - 0xE0) * 4096 + (s[1] as int - 0x80) * 64 + (s[2] as int - 0x80);
        if 0x800 <= n < 0xD800 || 0xE000 <= n then Some((n as char, 3)) else None
      else if 0xF0 <= b0 < 0xF5 && |s| >= 4 && IsContinuation(s[1]) && IsContinuation(s[2])
              && IsContinuation(s[3]) then
        var n := (b0 - 0xF0) * 262144 + (s[1] as int - 0x80) * 4096
                 + (s[2] as int - 0x80) * 64 + (s[3] as int - 0x80);
        if 0x10000 <= n < 0x110000 then Some((n as char, 4)) else None
      else
        None
  }

  /**
   * string(b) as text. Go keeps the bytes as they are, but the model's strings hold scalar
   * values, so a byte that starts no well-formed sequence is read as U+FFFD here, as ranging
   * over the Go string would read it. On the bytes of a string the two agree (DecodeEncode).
   */
  function Decode(s: Bytes): (r: string)
    decreases |s|
  {
    if s == [] then []
    else
      match DecodeChar(s)
      case Some((c, k)) => [c] + Decode(s[k..])
      case None => ['\U{FFFD}'] + Decode(s[1..])
  }

  lemma Split64(n: int)
    requires n >= 0
    ensures n == (n / 64) * 64 + n % 64
    ensures n / 64 == (n / 4096) * 64 + (n / 64) % 64
    ensures n / 4096 == (n / 262144) * 64 + (n / 4096) % 64
  {
  }

  lemma DecodeEncodeChar(c: char, rest: Bytes)
    ensures DecodeChar(EncodeChar(c) + rest) == Some((c, |EncodeChar(c)|))
  {
    var n := c as int;
    var e := EncodeChar(c);
    var s := e + rest;
    Split64(n);
    if n < 0x80 {
    } else if n < 0x800 {
      assert s[0] == e[0] && s[1] == e[1];
      assert (s[0] as int - 0xC0) * 64 + (s[1] as int - 0x80) == n;
    } else if n < 0x10000 {
      assert s[0] == e[0] && s[1] == e[1] && s[2] == e[2];
      assert (s[0] as int - 0xE0) * 4096 + (s[1] as int - 0x80) * 64 + (s[2] as int - 0x80) == n;
    } else {
      assert s[0] == e[0] && s[1] == e[1] && s[2] == e[2] && s[3] == e[3];
      assert n / 262144 < 5;
      assert (s[0] as int - 0xF0) * 262144 + (s[1] as int - 0x80) * 4096
             + (s[2] as int - 0x80) * 64 + (s[3] as int - 0x80) == n;
    }
  }

  /** Reading back the bytes of a string gives the string. */
  lemma {:induction false} DecodeEncode(s: string)
    ensures Decode(Encode(s)) == s
    decreases |s|
  {
    if s != [] {
      var e := EncodeChar(s[0]);
      var rest := Encode(s[1..]);
      DecodeEncodeChar(s[0], rest);
      assert (e + rest)[|e|..] == rest;
      DecodeEncode(s[1..]);
    }
  }
}
