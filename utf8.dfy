/** UTF-8 as the server and the client use it: `str.encode("utf-8")` and
    `bytes.decode("utf-8", errors="ignore")` (RFC 3629). On malformed input
    the decoder drops the maximal ill-formed subpart at each position (the
    lead byte together with the continuation bytes that were still valid for
    it) and carries on, so decoding never fails. */
module Utf8 {
  import opened Builtins

  predicate IsContinuation(b: Byte)
  {
    0x80 <= b <= 0xBF
  }

  /** Range allowed for the second byte of a three-byte sequence led by `b0`
      (excludes overlong forms and surrogates). */
  function SecondLow3(b0: Byte): Byte { if b0 == 0xE0 then 0xA0 else 0x80 }
  function SecondHigh3(b0: Byte): Byte { if b0 == 0xED then 0x9F else 0xBF }

  /** Range allowed for the second byte of a four-byte sequence led by `b0`
      (excludes overlong forms and code points above U+10FFFF). */
  function SecondLow4(b0: Byte): Byte { if b0 == 0xF0 then 0x90 else 0x80 }
  function SecondHigh4(b0: Byte): Byte { if b0 == 0xF4 then 0x8F else 0xBF }

  /** One decoding step at the head of `b`: how many bytes it consumes and
      the (at most one) character it produces. */
  datatype Step = Step(consumed: nat, out: string)

  function DecodeStep(b: seq<Byte>): (st: Step)
    requires b != []
    ensures 1 <= st.consumed <= |b| && |st.out| <= 1
  {
    var b0: int := b[0];
    if b0 < 0x80 then
      Step(1, [b0 as char])
    else if 0xC2 <= b0 <= 0xDF then
      if |b| >= 2 && IsContinuation(b[1]) then
        Step(2, [((b0 - 0xC0) * 64 + (b[1] as int - 0x80)) as char])
      else Step(1, [])
    else if 0xE0 <= b0 <= 0xEF then
      if |b| >= 2 && SecondLow3(b0) <= b[1] <= SecondHigh3(b0) then
        if |b| >= 3 && IsContinuation(b[2]) then
          Step(3, [((b0 - 0xE0) * 4096 + (b[1] as int - 0x80) * 64 + (b[2] as int - 0x80)) as char])
        else Step(2, [])
      else Step(1, [])
    else if 0xF0 <= b0 <= 0xF4 then
      if |b| >= 2 && SecondLow4(b0) <= b[1] <= SecondHigh4(b0) then
        if |b| >= 3 && IsContinuation(b[2]) then
          if |b| >= 4 && IsContinuation(b[3]) then
            Step(4, [((b0 - 0xF0) * 262144 + (b[1] as int - 0x80) * 4096 + (b[2] as int - 0x80) * 64 + (b[3] as int - 0x80)) as char])
          else Step(3, [])
        else Step(2, [])
      else Step(1, [])
    else
      Step(1, [])
  }

  /** `b.decode("utf-8", errors="ignore")`. */
  function Decode(b: seq<Byte>): (s: string)
    ensures |s| <= |b|
    decreases |b|
  {
    if b == [] then [] else
      var st := DecodeStep(b);
      st.out + Decode(b[st.consumed..])
  }

  /** The UTF-8 encoding of one character. */
  function EncodeChar(c: char): (e: seq<Byte>)
    ensures 1 <= |e| <= 4
    ensures (c as int < 0x80) <==> |e| == 1
    ensures |e| == 1 ==> e[0] == c as int
    ensures |e| > 1 ==> e[|e| - 1] >= 0x80
  {
    var cp := c as int;
    if cp < 0x80 then [cp]
    else if cp < 0x800 then [0xC0 + cp / 64, 0x80 + cp % 64]
    else if cp < 0x10000 then [0xE0 + cp / 4096, 0x80 + (cp / 64) % 64, 0x80 + cp % 64]
    else [0xF0 + cp / 262144, 0x80 + (cp / 4096) % 64, 0x80 + (cp / 64) % 64, 0x80 + cp % 64]
  }

  /** `s.encode("utf-8")`. */
  function Encode(s: string): (b: seq<Byte>)
    ensures |b| >= |s|
  {
    if s == [] then [] else EncodeChar(s[0]) + Encode(s[1..])
  }

  /** Encoding is compositional: the encoding of a concatenation is the
      concatenation of the encodings. */
  lemma {:induction false} EncodeAppend(s: string, t: string)
    ensures Encode(s + t) == Encode(s) + Encode(t)
    decreases |s|
  {
    if s == [] {
      assert s + t == t;
    } else {
      var st := s + t;
      assert st[0] == s[0] && st[1..] == s[1..] + t;
      EncodeAppend(s[1..], t);
      assert Encode(s) + Encode(t) == EncodeChar(s[0]) + (Encode(s[1..]) + Encode(t));
    }
  }

  /** The last byte of an encoding is the last byte of the last character's
      encoding. */
  lemma {:induction false} EncodeLast(s: string)
    requires s != []
    ensures var b, e := Encode(s), EncodeChar(s[|s| - 1]);
            b != [] && b[|b| - 1] == e[|e| - 1]
    decreases |s|
  {
    if |s| > 1 {
      var rest := s[1..];
      assert rest[|rest| - 1] == s[|s| - 1];
      EncodeLast(rest);
    }
  }

  /** Decoding the encoding of a character yields that character and
      consumes exactly its bytes, whatever follows. */
  lemma DecodeStepEncodeChar(c: char, rest: seq<Byte>)
    ensures DecodeStep(EncodeChar(c) + rest) == Step(|EncodeChar(c)|, [c])
  {
    var cp := c as int;
    if cp < 0x80 {
    } else if cp < 0x800 {
      DecodeStepTwo(c, rest);
    } else if cp < 0x10000 {
      DecodeStepThree(c, rest);
    } else {
      DecodeStepFour(c, rest);
    }
  }

  lemma DecodeStepTwo(c: char, rest: seq<Byte>)
    requires 0x80 <= c as int < 0x800
    ensures DecodeStep(EncodeChar(c) + rest) == Step(2, [c])
  {
    var cp := c as int;
    var b := EncodeChar(c) + rest;
    var hi, lo := cp / 64, cp % 64;
    assert cp == hi * 64 + lo;
    assert b[0] == 0xC0 + hi && b[1] == 0x80 + lo;
  }

  lemma DecodeStepThree(c: char, rest: seq<Byte>)
    requires 0x800 <= c as int < 0x10000
    ensures DecodeStep(EncodeChar(c) + rest) == Step(3, [c])
  {
    var cp := c as int;
    var b := EncodeChar(c) + rest;
    var t, d0 := cp / 64, cp % 64;
    var d2, d1 := t / 64, t % 64;
    assert cp == t * 64 + d0 && t == d2 * 64 + d1;
    assert cp / 4096 == d2;
    assert b[0] == 0xE0 + d2 && b[1] == 0x80 + d1 && b[2] == 0x80 + d0;
    assert SecondLow3(b[0]) <= b[1] <= SecondHigh3(b[0]);
  }

  lemma DecodeStepFour(c: char, rest: seq<Byte>)
    requires 0x10000 <= c as int
    ensures DecodeStep(EncodeChar(c) + rest) == Step(4, [c])
  {
    var cp := c as int;
    var b := EncodeChar(c) + rest;
    var t, d0 := cp / 64, cp % 64;
    var u, d1 := t / 64, t % 64;
    var d3, d2 := u / 64, u % 64;
    assert cp == t * 64 + d0 && t == u * 64 + d1 && u == d3 * 64 + d2;
    assert cp / 4096 == u && cp / 262144 == d3;
    assert b[0] == 0xF0 + d3 && b[1] == 0x80 + d2 && b[2] == 0x80 + d1 && b[3] == 0x80 + d0;
    assert SecondLow4(b[0]) <= b[1] <= SecondHigh4(b[0]);
  }

  /** Decoding undoes encoding: every string survives the trip through
      UTF-8 bytes unchanged. */
  lemma {:induction false} DecodeEncode(s: string)
    ensures Decode(Encode(s)) == s
    decreases |s|
  {
    if s != [] {
      var c := s[0];
      var b := Encode(s);
      DecodeStepEncodeChar(c, Encode(s[1..]));
      assert b[|EncodeChar(c)|..] == Encode(s[1..]);
      DecodeEncode(s[1..]);
    }
  }

  /** On ASCII text encoding is the identity on code points. */
  lemma {:induction false} EncodeAscii(s: string)
    requires forall i :: 0 <= i < |s| ==> s[i] as int < 0x80
    ensures |Encode(s)| == |s|
    ensures forall i :: 0 <= i < |s| ==> Encode(s)[i] == s[i] as int
    decreases |s|
  {
    if s != [] {
      EncodeAscii(s[1..]);
    }
  }

  /** ASCII text encodes to the given bytes when they are its code points. */
  lemma {:induction false} EncodeAsciiBytes(s: string, b: seq<Byte>)
    requires |s| == |b|
    requires forall i :: 0 <= i < |s| ==> s[i] as int < 0x80 && b[i] == s[i] as int
    ensures Encode(s) == b
    decreases |s|
  {
    if s != [] {
      assert b == [b[0]] + b[1..];
      EncodeAsciiBytes(s[1..], b[1..]);
    }
  }

  /** ASCII bytes and their text are each other's encoding and decoding. */
  lemma AsciiRoundTrip(s: string, b: seq<Byte>)
    requires |s| == |b|
    requires forall i :: 0 <= i < |s| ==> s[i] as int < 0x80 && b[i] == s[i] as int
    ensures Encode(s) == b && Decode(b) == s
  {
    EncodeAsciiBytes(s, b);
    DecodeEncode(s);
  }
}
