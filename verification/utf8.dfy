/** UTF-8, as `String.data(using: .utf8)` produces it: the bytes a successful response carries. */
module Utf8 {
  import opened Optional

  type byte = x: int | 0 <= x < 256

  predicate IsContinuation(b: byte) {
    0x80 <= b < 0xC0
  }

  /** The one to four bytes of a single Unicode scalar value. */
  function EncodeScalar(c: char): (r: seq<byte>)
    ensures 1 <= |r| <= 4
    ensures |r| == 1 <==> (c as int) < 0x80
    ensures forall i :: 1 <= i < |r| ==> IsContinuation(r[i])
  {
    var cp := c as int;
    if cp < 0x80 then [cp]
    else if cp < 0x800 then [0xC0 + cp / 0x40, 0x80 + cp % 0x40]
    else if cp < 0x10000 then [0xE0 + cp / 0x1000, 0x80 + (cp / 0x40) % 0x40, 0x80 + cp % 0x40]
    else [0xF0 + cp / 0x40000, 0x80 + (cp / 0x1000) % 0x40, 0x80 + (cp / 0x40) % 0x40, 0x80 + cp % 0x40]
  }

  /** The UTF-8 encoding of a whole string. */
  function Encode(s: string): (r: seq<byte>)
    ensures |s| <= |r| <= 4 * |s|
    ensures (forall i :: 0 <= i < |s| ==> (s[i] as int) < 0x80) ==> |r| == |s|
  {
    if |s| == 0 then [] else EncodeScalar(s[0]) + Encode(s[1..])
  }

  /** How many bytes the sequence starting with lead byte `b` occupies, if `b` can lead one. */
  function SequenceLength(b: byte): Option<nat> {
    if b < 0x80 then Some(1)
    else if 0xC0 <= b < 0xE0 then Some(2)
    else if 0xE0 <= b < 0xF0 then Some(3)
    else if 0xF0 <= b < 0xF8 then Some(4)
    else None
  }

  /** The scalar value at the front of `bytes` and how many bytes it took, or None when the
      front is not a well-formed, shortest-form encoding of a scalar value. */
  function DecodeScalar(bytes: seq<byte>): (r: Option<(char, nat)>)
    ensures r.Some? ==> 1 <= r.value.1 <= |bytes| && r.value.1 <= 4
  {
    if |bytes| == 0 then None else
    var n := SequenceLength(bytes[0]);
    if n.None? || |bytes| < n.value then None
    else if exists i :: 1 <= i < n.value && !IsContinuation(bytes[i]) then None
    else
      var cp :=
        if n.value == 1 then bytes[0] as int
        else if n.value == 2 then (bytes[0] as int - 0xC0) * 0x40 + (bytes[1] as int - 0x80)
        else if n.value == 3 then (bytes[0] as int - 0xE0) * 0x1000 + (bytes[1] as int - 0x80) * 0x40 + (bytes[2] as int - 0x80)
        else (bytes[0] as int - 0xF0) * 0x40000 + (bytes[1] as int - 0x80) * 0x1000 + (bytes[2] as int - 0x80) * 0x40 + (bytes[3] as int - 0x80);
      var shortest :=
        if n.value == 1 then true
        else if n.value == 2 then 0x80 <= cp
        else if n.value == 3 then 0x800 <= cp
        else 0x10000 <= cp;
      if shortest && (0 <= cp < 0xD800 || 0xE000 <= cp < 0x11_0000) then Some((cp as char, n.value))
      else None
  }

  /** Decoding a whole byte sequence; None on any malformed scalar. */
  function Decode(bytes: seq<byte>): Option<string>
    decreases |bytes|
  {
    if |bytes| == 0 then Some("") else
    match DecodeScalar(bytes)
    case None => None
    case Some((c, n)) =>
      match Decode(bytes[n..])
      case None => None
      case Some(rest) => Some([c] + rest)
  }

  lemma Digits(cp: nat)
    ensures cp == (cp / 0x40) * 0x40 + cp % 0x40
    ensures cp / 0x40 == (cp / 0x1000) * 0x40 + (cp / 0x40) % 0x40
    ensures cp / 0x1000 == (cp / 0x40000) * 0x40 + (cp / 0x1000) % 0x40
  {
    assert cp / 0x40 / 0x40 == cp / 0x1000;
    assert cp / 0x1000 / 0x40 == cp / 0x40000;
  }

  /** The value the decoder reassembles from an encoded scalar is the scalar itself. */
  lemma ScalarValue(c: char)
    ensures var e := EncodeScalar(c); var cp := c as int;
      && (|e| == 2 ==> (e[0] as int - 0xC0) * 0x40 + (e[1] as int - 0x80) == cp && 0x80 <= cp)
      && (|e| == 3 ==> (e[0] as int - 0xE0) * 0x1000 + (e[1] as int - 0x80) * 0x40 + (e[2] as int - 0x80) == cp && 0x800 <= cp)
      && (|e| == 4 ==> (e[0] as int - 0xF0) * 0x40000 + (e[1] as int - 0x80) * 0x1000 + (e[2] as int - 0x80) * 0x40 + (e[3] as int - 0x80) == cp && 0x10000 <= cp)
  {
    Digits(c as int);
  }

  lemma ScalarRoundTrip(c: char, rest: seq<byte>)
    ensures DecodeScalar(EncodeScalar(c) + rest) == Some((c, |EncodeScalar(c)|))
  {
    var e := EncodeScalar(c);
    var bytes := e + rest;
    assert forall i :: 0 <= i < |e| ==> bytes[i] == e[i];
    ScalarValue(c);
    assert SequenceLength(bytes[0]) == Some(|e|);
  }

  /** Decoding the UTF-8 bytes of a string gives the string back, so the bytes a response
      resolves with carry exactly the text the host sent. */
  lemma {:induction false} RoundTrip(s: string)
    ensures Decode(Encode(s)) == Some(s)
    decreases |s|
  {
    if |s| > 0 {
      var e := EncodeScalar(s[0]);
      ScalarRoundTrip(s[0], Encode(s[1..]));
      assert (e + Encode(s[1..]))[|e|..] == Encode(s[1..]);
      RoundTrip(s[1..]);
      assert [s[0]] + s[1..] == s;
    }
  }

  /** Different strings never produce the same bytes. */
  lemma EncodeInjective(a: string, b: string)
    requires Encode(a) == Encode(b)
    ensures a == b
  {
    RoundTrip(a);
    RoundTrip(b);
  }
}
