/** UTF-8 as `str::from_utf8` accepts it: the well-formed byte sequences of RFC 3629 and no
    others (no overlong forms, no surrogates, nothing above U+10FFFF). */
module Utf8 {
  import opened Wrappers

  type byte = x: int | 0 <= x < 256

  const LF: byte := 10

  function EncodeScalar(n: int): (b: seq<byte>)
    requires Scalar(n)
    ensures 1 <= |b| <= 4
  {
    var q := n / 64;  // the scalar's base-64 digits are n % 64, q % 64, q / 64 % 64, ...
    if n < 0x80 then [n]
    else if n < 0x800 then [0xC0 + q, 0x80 + n % 64]
    else if n < 0x1_0000 then [0xE0 + q / 64, 0x80 + q % 64, 0x80 + n % 64]
    else [0xF0 + q / 64 / 64, 0x80 + q / 64 % 64, 0x80 + q % 64, 0x80 + n % 64]
  }

  function EncodeChar(c: char): (b: seq<byte>)
    ensures 1 <= |b| <= 4
  {
    EncodeScalar(c as int)
  }

  function Encode(s: string): seq<byte> {
    if s == "" then [] else EncodeChar(s[0]) + Encode(s[1..])
  }

  predicate Continuation(b: byte) {
    0x80 <= b < 0xC0
  }

  predicate Scalar(n: int) {
    0 <= n < 0xD800 || 0xE000 <= n < 0x11_0000
  }

  /** The scalar value and width of the first character of `b`, if it is well formed. */
  function DecodeScalar(b: seq<byte>): (r: Option<(int, nat)>)
    requires b != []
    ensures r.Some? ==> Scalar(r.value.0) && 1 <= r.value.1 <= |b|
  {
    var b0: int := b[0];
    if b0 < 0x80 then Some((b0, 1))
    else if 0xC2 <= b0 < 0xE0 && |b| >= 2 && Continuation(b[1]) then
      var b1: int := b[1];
      Some(((b0 - 0xC0) * 64 + (b1 - 0x80), 2))
    else if 0xE0 <= b0 < 0xF0 && |b| >= 3 && Continuation(b[1]) && Continuation(b[2]) then
      var b1: int, b2: int := b[1], b[2];
      var n := (b0 - 0xE0) * 4096 + (b1 - 0x80) * 64 + (b2 - 0x80);
      if 0x800 <= n && Scalar(n) then Some((n, 3)) else None
    else if 0xF0 <= b0 < 0xF5 && |b| >= 4 && Continuation(b[1]) && Continuation(b[2]) && Continuation(b[3]) then
      var b1: int, b2: int, b3: int := b[1], b[2], b[3];
      var n := (b0 - 0xF0) * 262144 + (b1 - 0x80) * 4096 + (b2 - 0x80) * 64 + (b3 - 0x80);
      if 0x1_0000 <= n < 0x11_0000 then Some((n, 4)) else None
    else None
  }

  function DecodeChar(b: seq<byte>): (r: Option<(char, nat)>)
    requires b != []
    ensures r.Some? ==> 1 <= r.value.1 <= |b|
  {
    match DecodeScalar(b)
    case None => None
    case Some((n, w)) => Some((n as char, w))
  }

  /** `str::from_utf8`. */
  function Decode(b: seq<byte>): Option<string> {
    if b == [] then Some("")
    else
      match DecodeChar(b)
      case None => None
      case Some((c, n)) =>
        match Decode(b[n..])
        case None => None
        case Some(s) => Some([c] + s)
  }

  lemma DecodeScalarOfEncodeScalar(n: int, rest: seq<byte>)
    requires Scalar(n)
    ensures DecodeScalar(EncodeScalar(n) + rest) == Some((n, |EncodeScalar(n)|))
  {
    var e := EncodeScalar(n);
    var b := e + rest;
    assert b[0] == e[0] && (|e| > 1 ==> b[1] == e[1]) && (|e| > 2 ==> b[2] == e[2]) && (|e| > 3 ==> b[3] == e[3]);
  }

  lemma EncodeScalarOfDecodeScalar(b: seq<byte>)
    requires b != [] && DecodeScalar(b).Some?
    ensures EncodeScalar(DecodeScalar(b).value.0) == b[..DecodeScalar(b).value.1]
  {
    var (n, w) := DecodeScalar(b).value;
    var b0: int := b[0];
    if w == 2 {
      assert n / 64 == b0 - 0xC0;
    } else if w == 3 {
      var b1: int := b[1];
      assert n / 64 == (b0 - 0xE0) * 64 + (b1 - 0x80);
    } else if w == 4 {
      var b1: int, b2: int := b[1], b[2];
      assert n / 64 == (b0 - 0xF0) * 4096 + (b1 - 0x80) * 64 + (b2 - 0x80);
      assert n / 64 / 64 == (b0 - 0xF0) * 64 + (b1 - 0x80);
    }
  }

  /** Every string survives an encode and decode. */
  lemma {:induction false} DecodeEncode(s: string)
    ensures Decode(Encode(s)) == Some(s)
  {
    hide DecodeScalar, EncodeScalar;
    if s != "" {
      DecodeScalarOfEncodeScalar(s[0] as int, Encode(s[1..]));
      assert Encode(s)[|EncodeChar(s[0])|..] == Encode(s[1..]);
      DecodeEncode(s[1..]);
      assert [s[0]] + s[1..] == s;
    }
  }

  /** Decoding loses nothing: the bytes are the encoding of the text they decode to. */
  lemma {:induction false} EncodeDecode(b: seq<byte>)
    requires Decode(b).Some?
    ensures Encode(Decode(b).value) == b
  {
    hide DecodeScalar, EncodeScalar;
    if b != [] {
      EncodeScalarOfDecodeScalar(b);
      EncodeDecode(b[DecodeChar(b).value.1..]);
    }
  }

  lemma {:induction false} EncodeConcat(s: string, t: string)
    ensures Encode(s + t) == Encode(s) + Encode(t)
  {
    if s == "" {
      assert s + t == t;
    } else {
      assert (s + t)[1..] == s[1..] + t;
      EncodeConcat(s[1..], t);
    }
  }
}
