/**
 * `bytes.decode("utf-8", errors="replace")`, as `sanitize_input` and `to_safe_str`
 * use it: well-formed UTF-8 becomes its characters, and every maximal ill-formed
 * subpart becomes one U+FFFD REPLACEMENT CHARACTER. `Encode` is the inverse on text.
 */
module Utf8 {

  newtype byte = x: int | 0 <= x < 256

  const REPLACEMENT: char := '\U{FFFD}'

  predicate IsContinuation(b: byte) {
    0x80 <= b <= 0xBF
  }

  /** The allowed range of the second byte of a sequence that starts with `b0`. */
  function SecondLow(b0: byte): byte {
    if b0 == 0xE0 then 0xA0 else if b0 == 0xF0 then 0x90 else 0x80
  }

  function SecondHigh(b0: byte): byte {
    if b0 == 0xED then 0x9F else if b0 == 0xF4 then 0x8F else 0xBF
  }

  /** One decoding step on a non-empty input: the character produced and the bytes consumed. */
  function Step(b: seq<byte>): (r: (char, nat))
    requires |b| > 0
    ensures 1 <= r.1 <= |b| && r.1 <= 4
  {
    var b0 := b[0];
    if b0 < 0x80 then
      (b0 as int as char, 1)
    else if 0xC2 <= b0 <= 0xDF then
      if |b| >= 2 && IsContinuation(b[1]) then
        (((b0 as int - 0xC0) * 64 + (b[1] as int - 0x80)) as char, 2)
      else (REPLACEMENT, 1)
    else if 0xE0 <= b0 <= 0xEF then
      if |b| >= 2 && SecondLow(b0) <= b[1] <= SecondHigh(b0) then
        if |b| >= 3 && IsContinuation(b[2]) then
          var n := (b0 as int - 0xE0) * 4096 + (b[1] as int - 0x80) * 64 + (b[2] as int - 0x80);
          assert 0x800 <= n < 0xD800 || 0xE000 <= n < 0x10000;
          (n as char, 3)
        else (REPLACEMENT, 2)
      else (REPLACEMENT, 1)
    else if 0xF0 <= b0 <= 0xF4 then
      if |b| >= 2 && SecondLow(b0) <= b[1] <= SecondHigh(b0) then
        if |b| >= 3 && IsContinuation(b[2]) then
          if |b| >= 4 && IsContinuation(b[3]) then
            var n := (b0 as int - 0xF0) * 262144 + (b[1] as int - 0x80) * 4096
                     + (b[2] as int - 0x80) * 64 + (b[3] as int - 0x80);
            assert 0x10000 <= n < 0x110000;
            (n as char, 4)
          else (REPLACEMENT, 3)
        else (REPLACEMENT, 2)
      else (REPLACEMENT, 1)
    else
      (REPLACEMENT, 1)
  }

  /** `b.decode("utf-8", errors="replace")`: never fails and never yields more characters than bytes. */
  function Decode(b: seq<byte>): (s: string)
    ensures |s| <= |b|
    decreases |b|
  {
    if b == [] then []
    else
      var (c, n) := Step(b);
      [c] + Decode(b[n..])
  }

  /** The UTF-8 encoding of one character. */
  function EncodeChar(c: char): (r: seq<byte>)
    ensures 1 <= |r| <= 4
  {
    var n := c as int;
    if n < 0x80 then [n as byte]
    else if n < 0x800 then [(0xC0 + n / 64) as byte, (0x80 + n % 64) as byte]
    else if n < 0x10000 then
      [(0xE0 + n / 4096) as byte, (0x80 + (n / 64) % 64) as byte, (0x80 + n % 64) as byte]
    else
      [(0xF0 + n / 262144) as byte, (0x80 + (n / 4096) % 64) as byte,
       (0x80 + (n / 64) % 64) as byte, (0x80 + n % 64) as byte]
  }

  /** `s.encode("utf-8")`. */
  function Encode(s: string): seq<byte> {
    if s == [] then [] else EncodeChar(s[0]) + Encode(s[1..])
  }

  lemma Split64(n: int)
    requires 0 <= n
    ensures n == (n / 64) * 64 + n % 64
    ensures n / 64 == (n / 4096) * 64 + (n / 64) % 64
    ensures n / 4096 == (n / 262144) * 64 + (n / 4096) % 64
  {
  }

  /** Decoding the encoding of a character, followed by anything, reads back exactly that character. */
  lemma StepEncodeChar(c: char, rest: seq<byte>)
    ensures Step(EncodeChar(c) + rest) == (c, |EncodeChar(c)|)
  {
    var n := c as int;
    if n < 0x80 {
      assert (EncodeChar(c) + rest)[0] == n as byte;
    } else if n < 0x800 {
      StepTwoBytes(c, rest);
    } else if n < 0x10000 {
      StepThreeBytes(c, rest);
    } else {
      StepFourBytes(c, rest);
    }
  }

  lemma StepTwoBytes(c: char, rest: seq<byte>)
    requires 0x80 <= c as int < 0x800
    ensures Step(EncodeChar(c) + rest) == (c, 2)
  {
    var n := c as int;
    var e := EncodeChar(c);
    var b := e + rest;
    Split64(n);
    assert b[0] == e[0] && b[1] == e[1];
    assert (b[0] as int - 0xC0) * 64 + (b[1] as int - 0x80) == n;
  }

  lemma StepThreeBytes(c: char, rest: seq<byte>)
    requires 0x800 <= c as int < 0x10000
    ensures Step(EncodeChar(c) + rest) == (c, 3)
  {
    var n := c as int;
    var e := EncodeChar(c);
    var b := e + rest;
    Split64(n);
    assert b[0] == e[0] && b[1] == e[1] && b[2] == e[2];
    assert (b[0] as int - 0xE0) * 4096 + (b[1] as int - 0x80) * 64 + (b[2] as int - 0x80) == n;
  }

  lemma StepFourBytes(c: char, rest: seq<byte>)
    requires 0x10000 <= c as int
    ensures Step(EncodeChar(c) + rest) == (c, 4)
  {
    var n := c as int;
    var e := EncodeChar(c);
    var b := e + rest;
    Split64(n);
    assert b[0] == e[0] && b[1] == e[1] && b[2] == e[2] && b[3] == e[3];
    assert (b[0] as int - 0xF0) * 262144 + (b[1] as int - 0x80) * 4096
           + (b[2] as int - 0x80) * 64 + (b[3] as int - 0x80) == n;
  }

  /** Round trip: decoding the UTF-8 encoding of any text gives back the text, with no replacement. */
  lemma {:induction false} DecodeEncode(s: string)
    ensures Decode(Encode(s)) == s
  {
    if s != [] {
      var e := EncodeChar(s[0]);
      var rest := Encode(s[1..]);
      StepEncodeChar(s[0], rest);
      assert (e + rest)[|e|..] == rest;
      DecodeEncode(s[1..]);
      assert s == [s[0]] + s[1..];
    }
  }

  /** Bytes below 0x80 (ASCII) decode one to one into the characters with the same codes. */
  lemma {:induction false} DecodeAscii(b: seq<byte>)
    requires forall i :: 0 <= i < |b| ==> b[i] < 0x80
    ensures |Decode(b)| == |b|
    ensures forall i :: 0 <= i < |b| ==> Decode(b)[i] as int == b[i] as int
  {
    if b != [] {
      DecodeAscii(b[1..]);
    }
  }
}
