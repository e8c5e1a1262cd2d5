/** URL-safe base64 (section 5 of RFC 4648), padded, on byte sequences. */
module Base64 {
  import opened Wrappers
  import opened Utf8

  type Sextet = n: int | 0 <= n < 64

  function Symbol(n: Sextet): char {
    if n < 26 then ('A' as int + n) as char
    else if n < 52 then ('a' as int + n - 26) as char
    else if n < 62 then ('0' as int + n - 52) as char
    else if n == 62 then '-' else '_'
  }

  function Value(c: char): Option<Sextet> {
    if 'A' <= c <= 'Z' then Some(c as int - 'A' as int)
    else if 'a' <= c <= 'z' then Some(c as int - 'a' as int + 26)
    else if '0' <= c <= '9' then Some(c as int - '0' as int + 52)
    else if c == '-' then Some(62) else if c == '_' then Some(63) else None
  }

  lemma SymbolRoundTrip(n: Sextet)
    ensures Value(Symbol(n)) == Some(n) && Symbol(n) != '=' && Value('=').None?
  {
  }

  /** Three bytes make four symbols; one or two left over make two or three and padding. */
  function EncodeGroup(b: seq<Byte>): (r: string)
    requires 1 <= |b| <= 3
    ensures |r| == 4
  {
    match |b|
    case 1 => [Symbol(b[0] / 4), Symbol(b[0] % 4 * 16), '=', '=']
    case 2 => [Symbol(b[0] / 4), Symbol(b[0] % 4 * 16 + b[1] / 16), Symbol(b[1] % 16 * 4), '=']
    case _ =>
      [Symbol(b[0] / 4), Symbol(b[0] % 4 * 16 + b[1] / 16), Symbol(b[1] % 16 * 4 + b[2] / 64), Symbol(b[2] % 64)]
  }

  function Encode(b: seq<Byte>): string
    decreases |b|
  {
    if b == [] then ""
    else if |b| <= 3 then EncodeGroup(b)
    else EncodeGroup(b[..3]) + Encode(b[3..])
  }

  /** One group of four; padding is allowed only at its end. Bits that padding leaves over are ignored. */
  function DecodeGroup(g: string): Option<seq<Byte>>
    requires |g| == 4
  {
    var x, y, z, w := Value(g[0]), Value(g[1]), Value(g[2]), Value(g[3]);
    if x.None? || y.None? then None
    else if g[2] == '=' && g[3] == '=' then Some([x.value * 4 + y.value / 16])
    else if z.None? then None
    else if g[3] == '=' then Some([x.value * 4 + y.value / 16, y.value % 16 * 16 + z.value / 4])
    else if w.None? then None
    else Some([x.value * 4 + y.value / 16, y.value % 16 * 16 + z.value / 4, z.value % 4 * 64 + w.value])
  }

  /** Only the last group may be padded. */
  function Decode(s: string): Option<seq<Byte>>
    decreases |s|
  {
    if s == "" then Some([])
    else if |s| < 4 then None
    else
      match DecodeGroup(s[..4])
      case None => None
      case Some(group) =>
        if |group| < 3 && |s| > 4 then None
        else
          match Decode(s[4..])
          case None => None
          case Some(rest) => Some(group + rest)
  }

  lemma Regroup(high: nat, low: nat, unit: nat)
    requires unit == 4 || unit == 16 || unit == 64
    requires low < unit
    ensures (high * unit + low) / unit == high && (high * unit + low) % unit == low
  {
  }

  /** The sextets of a group of three give back its bytes. */
  lemma Regrouped(x: Byte, y: Byte, z: Byte)
    ensures x / 4 * 4 + (x % 4 * 16 + y / 16) / 16 == x && x / 4 * 4 + x % 4 * 16 / 16 == x
    ensures (x % 4 * 16 + y / 16) % 16 * 16 + (y % 16 * 4 + z / 64) / 4 == y
    ensures (x % 4 * 16 + y / 16) % 16 * 16 + y % 16 * 4 / 4 == y
    ensures (y % 16 * 4 + z / 64) % 4 * 64 + z % 64 == z
  {
    Regroup(x % 4, 0, 16);
    Regroup(x % 4, y / 16, 16);
    Regroup(y % 16, 0, 4);
    Regroup(y % 16, z / 64, 4);
  }

  lemma OneByte(x: Byte)
    ensures DecodeGroup([Symbol(x / 4), Symbol(x % 4 * 16), '=', '=']) == Some([x])
  {
    hide Symbol, Value;
    SymbolRoundTrip(x / 4);
    SymbolRoundTrip(x % 4 * 16);
    Regrouped(x, 0, 0);
  }

  lemma TwoBytes(x: Byte, y: Byte)
    ensures DecodeGroup([Symbol(x / 4), Symbol(x % 4 * 16 + y / 16), Symbol(y % 16 * 4), '=']) == Some([x, y])
  {
    hide Symbol, Value;
    SymbolRoundTrip(x / 4);
    SymbolRoundTrip(x % 4 * 16 + y / 16);
    SymbolRoundTrip(y % 16 * 4);
    Regrouped(x, y, 0);
  }

  lemma ThreeBytes(x: Byte, y: Byte, z: Byte)
    ensures DecodeGroup([Symbol(x / 4), Symbol(x % 4 * 16 + y / 16), Symbol(y % 16 * 4 + z / 64), Symbol(z % 64)])
         == Some([x, y, z])
  {
    hide Symbol, Value;
    SymbolRoundTrip(x / 4);
    SymbolRoundTrip(x % 4 * 16 + y / 16);
    SymbolRoundTrip(y % 16 * 4 + z / 64);
    SymbolRoundTrip(z % 64);
    Regrouped(x, y, z);
  }

  lemma GroupRoundTrip(b: seq<Byte>)
    requires 1 <= |b| <= 3
    ensures DecodeGroup(EncodeGroup(b)) == Some(b)
    ensures forall i :: 0 <= i < 4 ==> (EncodeGroup(b)[i] == '=' <==> i > |b|)
  {
    hide Symbol, Value, DecodeGroup;
    forall n: Sextet ensures Symbol(n) != '=' { SymbolRoundTrip(n); }
    if |b| == 1 {
      OneByte(b[0]);
      assert b == [b[0]];
    } else if |b| == 2 {
      TwoBytes(b[0], b[1]);
      assert b == [b[0], b[1]];
    } else {
      ThreeBytes(b[0], b[1], b[2]);
      assert b == [b[0], b[1], b[2]];
    }
  }

  lemma EncodeSplits(b: seq<Byte>)
    requires b != []
    ensures var n := if |b| < 3 then |b| else 3;
            Encode(b) == EncodeGroup(b[..n]) + Encode(b[n..])
  {
    hide EncodeGroup;
    if |b| <= 3 {
      assert b[..|b|] == b && b[|b|..] == [];
      assert EncodeGroup(b) + "" == EncodeGroup(b);
    }
  }

  lemma DecodeSplits(group: string, rest: string)
    requires |group| == 4 && DecodeGroup(group).Some? && (|DecodeGroup(group).value| == 3 || rest == "")
    requires Decode(rest).Some?
    ensures Decode(group + rest) == Some(DecodeGroup(group).value + Decode(rest).value)
  {
    hide DecodeGroup;
    assert (group + rest)[..4] == group && (group + rest)[4..] == rest;
  }

  lemma {:induction false} RoundTrip(b: seq<Byte>)
    ensures Decode(Encode(b)) == Some(b)
    decreases |b|
  {
    if b != [] {
      var n := if |b| < 3 then |b| else 3;
      hide EncodeGroup, DecodeGroup, Decode;
      EncodeSplits(b);
      GroupRoundTrip(b[..n]);
      RoundTrip(b[n..]);
      assert b[..n] + b[n..] == b && (n < 3 ==> b[n..] == []);
      DecodeSplits(EncodeGroup(b[..n]), Encode(b[n..]));
    }
  }

  /** How many groups of four symbols encode `n` bytes, and how many padding symbols end them. */
  function Groups(n: nat): nat {
    if n == 0 then 0 else if n < 3 then 1 else 1 + Groups(n - 3)
  }

  function Padding(n: nat): (p: nat)
    ensures p <= 2 && p <= 4 * Groups(n)
  {
    if n == 0 then 0 else if n < 3 then 3 - n else Padding(n - 3)
  }

  /** The padding stands at the end of the encoding and nowhere else. */
  lemma {:induction false} PaddingIsAtEnd(b: seq<Byte>)
    ensures |Encode(b)| == 4 * Groups(|b|)
    ensures forall i :: 0 <= i < |Encode(b)| ==> (Encode(b)[i] == '=' <==> i >= |Encode(b)| - Padding(|b|))
    decreases |b|
  {
    if b != [] {
      hide EncodeGroup, Encode;
      EncodeSplits(b);
      if |b| < 3 {
        assert b[..|b|] == b;
        GroupRoundTrip(b);
        PaddingIsAtEnd([]);
      } else {
        GroupRoundTrip(b[..3]);
        PaddingIsAtEnd(b[3..]);
      }
    }
  }

  /** The alphabet of section 5, written out. */
  lemma AlphabetIsUrlSafe()
    ensures [Symbol(0), Symbol(1), Symbol(2), Symbol(3), Symbol(4), Symbol(5), Symbol(6), Symbol(7)] == "ABCDEFGH"
    ensures [Symbol(8), Symbol(9), Symbol(10), Symbol(11), Symbol(12), Symbol(13), Symbol(14), Symbol(15)] == "IJKLMNOP"
    ensures [Symbol(16), Symbol(17), Symbol(18), Symbol(19), Symbol(20), Symbol(21), Symbol(22), Symbol(23)] == "QRSTUVWX"
    ensures [Symbol(24), Symbol(25), Symbol(26), Symbol(27), Symbol(28), Symbol(29), Symbol(30), Symbol(31)] == "YZabcdef"
    ensures [Symbol(32), Symbol(33), Symbol(34), Symbol(35), Symbol(36), Symbol(37), Symbol(38), Symbol(39)] == "ghijklmn"
    ensures [Symbol(40), Symbol(41), Symbol(42), Symbol(43), Symbol(44), Symbol(45), Symbol(46), Symbol(47)] == "opqrstuv"
    ensures [Symbol(48), Symbol(49), Symbol(50), Symbol(51), Symbol(52), Symbol(53), Symbol(54), Symbol(55)] == "wxyz0123"
    ensures [Symbol(56), Symbol(57), Symbol(58), Symbol(59), Symbol(60), Symbol(61), Symbol(62), Symbol(63)] == "456789-_"
  {
  }

  /** Three bytes are read as one number of 24 bits, whose four digits to base 64 are the symbols, highest first. */
  lemma GroupIsBaseSixtyFour(x: Byte, y: Byte, z: Byte, number: int)
    requires number == 65536 * x as int + 256 * y as int + z as int
    ensures EncodeGroup([x, y, z]) ==
              [Symbol(number / 262144), Symbol(number / 4096 % 64), Symbol(number / 64 % 64), Symbol(number % 64)]
  {
    hide Symbol;
    var a, b, c, d := x / 4, x % 4 * 16 + y / 16, y % 16 * 4 + z / 64, z % 64;
    assert EncodeGroup([x, y, z]) == [Symbol(a), Symbol(b), Symbol(c), Symbol(d)];
    hide EncodeGroup;
    SplitDigits(number, a, b, c, d) by {
      SplitBytes(x, y, z);
    }
  }

  lemma SplitBytes(x: Byte, y: Byte, z: Byte)
    ensures 65536 * x as int + 256 * y as int + z as int ==
              262144 * (x as int / 4) + 4096 * (x as int % 4 * 16 + y as int / 16)
                + 64 * (y as int % 16 * 4 + z as int / 64) + z as int % 64
  {
  }

  lemma SplitDigits(number: int, a: Sextet, b: Sextet, c: Sextet, d: Sextet)
    requires number == 262144 * a as int + 4096 * b as int + 64 * c as int + d as int
    ensures number / 262144 == a && number / 4096 % 64 == b && number / 64 % 64 == c && number % 64 == d
  {
    var high, middle: int := 64 * (64 * a as int + b as int) + c as int, 64 * a as int + b as int;
    assert number == 64 * high + d as int;
    Regroup(high, d, 64);
    Regroup(middle, c, 64);
    Regroup(a, b, 64);
    Digits64(number);
  }

  /** Padding that is followed by a symbol, or by another group, is refused. */
  lemma MisplacedPaddingIsRefused(g: string, rest: string)
    requires |g| == 4 && (g[2] == '=' || g[3] == '=')
    ensures g[2] == '=' && g[3] != '=' ==> DecodeGroup(g).None?
    ensures rest != "" ==> Decode(g + rest).None?
  {
    assert (g + rest)[..4] == g;
  }

  /** The examples of section 10. */
  lemma Examples()
    ensures Encode([]) == "" && Encode([102]) == "Zg==" && Encode([102, 111]) == "Zm8=" && Encode([102, 111, 111]) == "Zm9v"
    ensures Encode([102, 111, 111, 98]) == "Zm9vYg==" && Encode([102, 111, 111, 98, 97, 114]) == "Zm9vYmFy"
  {
    assert [102, 111, 111, 98][..3] == [102, 111, 111] && [102, 111, 111, 98][3..] == [98];
    assert [102, 111, 111, 98, 97, 114][..3] == [102, 111, 111] && [102, 111, 111, 98, 97, 114][3..] == [98, 97, 114];
  }
}
