/** Python's strict `encode` and `decode` of text as UTF-8. */
module Utf8 {
  import opened Wrappers

  type Byte = b: int | 0 <= b < 256

  function EncodeChar(c: char): (r: seq<Byte>)
    ensures 1 <= |r| <= 4
  {
    var n := c as int;
    if n < 0x80 then [n]
    else if n < 0x800 then [0xC0 + n / 64, 0x80 + n % 64]
    else if n < 0x1_0000 then [0xE0 + n / 4096, 0x80 + n / 64 % 64, 0x80 + n % 64]
    else [0xF0 + n / 262144, 0x80 + n / 4096 % 64, 0x80 + n / 64 % 64, 0x80 + n % 64]
  }

  function Encode(s: string): seq<Byte> {
    if s == "" then [] else EncodeChar(s[0]) + Encode(s[1..])
  }

  predicate IsScalar(n: int) {
    0 <= n < 0xD800 || 0xE000 <= n < 0x11_0000
  }

  /** How many bytes the character that starts with `b` has; 0 if none starts with it. */
  function Width(b: Byte): nat {
    if b < 0x80 then 1 else if 0xC0 <= b < 0xE0 then 2 else if 0xE0 <= b < 0xF0 then 3
    else if 0xF0 <= b < 0xF8 then 4 else 0
  }

  /** The number that a lead byte and its continuation bytes stand for. */
  function Number(b: seq<int>): int
    requires 1 <= |b| <= 4
  {
    match |b|
    case 1 => b[0]
    case 2 => (b[0] - 0xC0) * 64 + (b[1] - 0x80)
    case 3 => (b[0] - 0xE0) * 4096 + (b[1] - 0x80) * 64 + (b[2] - 0x80)
    case _ => (b[0] - 0xF0) * 262144 + (b[1] - 0x80) * 4096 + (b[2] - 0x80) * 64 + (b[3] - 0x80)
  }

  /** Strict decoding: a character is accepted only in the form in which it is encoded. */
  function Decode(b: seq<Byte>): Option<string>
    decreases |b|
  {
    if b == [] then Some("")
    else
      var w := Width(b[0]);
      if w == 0 || |b| < w || !IsScalar(Number(b[..w])) then None
      else
        var c := Number(b[..w]) as char;
        if EncodeChar(c) != b[..w] then None
        else
          match Decode(b[w..])
          case None => None
          case Some(rest) => Some([c] + rest)
  }

  lemma Digits64(n: nat)
    ensures n == n / 64 * 64 + n % 64
    ensures n / 4096 == n / 64 / 64 && n / 64 == n / 4096 * 64 + n / 64 % 64
    ensures n / 262144 == n / 4096 / 64 && n / 4096 == n / 262144 * 64 + n / 4096 % 64
  {
  }

  lemma CharRoundTrip(c: char)
    ensures Width(EncodeChar(c)[0]) == |EncodeChar(c)|
    ensures Number(EncodeChar(c)) == c as int && IsScalar(c as int)
  {
    Digits64(c as int);
  }

  lemma {:induction false} RoundTrip(s: string)
    ensures Decode(Encode(s)) == Some(s)
  {
    if s != "" {
      var first, rest := EncodeChar(s[0]), Encode(s[1..]);
      CharRoundTrip(s[0]);
      RoundTrip(s[1..]);
      assert (first + rest)[..|first|] == first && (first + rest)[|first|..] == rest;
      assert [s[0]] + s[1..] == s;
    }
  }

  /** ASCII is itself, and the examples of section 7 of RFC 3629: U+00A2 has two bytes, U+20AC three, U+233B4 four. */
  lemma Examples(c: char)
    ensures c < 128 as char ==> EncodeChar(c) == [c as int]
    ensures EncodeChar(0xA2 as char) == [0xC2, 0xA2] && EncodeChar(0x20AC as char) == [0xE2, 0x82, 0xAC]
    ensures EncodeChar(0x233B4 as char) == [0xF0, 0xA3, 0x8E, 0xB4]
  {
  }
}
