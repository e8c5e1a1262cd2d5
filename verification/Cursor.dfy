/**
 Opaque pagination cursors (core/cursor.py): unpadded URL-safe base64 (section 3.2 of RFC 4648) of a text, the version
 envelope, and the `sort:dir:value|id` payload.
 */
module Cursor {
  import opened Wrappers
  import Utf8
  import Base64

  const CURSOR_VERSION := "v1"

  /** Python's `s.rstrip("=")`. */
  function StripPadding(s: string): string {
    if s != "" && s[|s| - 1] == '=' then StripPadding(s[..|s| - 1]) else s
  }

  function EncodeCursor(value: string): string {
    StripPadding(Base64.Encode(Utf8.Encode(value)))
  }

  function Repad(cursor: string): string {
    var padding := 4 - |cursor| % 4;
    cursor + if padding == 1 then "=" else if padding == 2 then "==" else if padding == 3 then "===" else ""
  }

  /** `None` stands for the `ValueError`. */
  function DecodeCursor(cursor: string): Option<string> {
    match Base64.Decode(Repad(cursor))
    case None => None
    case Some(bytes) => Utf8.Decode(bytes)
  }

  lemma {:induction false} StripsExactly(s: string, n: nat)
    requires n <= |s| && forall i :: 0 <= i < |s| ==> (s[i] == '=' <==> i >= |s| - n)
    ensures StripPadding(s) == s[..|s| - n]
  {
    if n > 0 {
      StripsExactly(s[..|s| - 1], n - 1);
    }
  }

  lemma RepadAdds(cursor: string, n: nat)
    requires n <= 2 && (|cursor| + n) % 4 == 0
    ensures Repad(cursor) == cursor + seq(n, _ => '=') && |cursor| % 4 != 1
  {
    assert |cursor| % 4 == (4 - n) % 4;
  }

  /** Stripping and adding the padding again gives the padded encoding; its length is never 1 modulo 4. */
  lemma RepadRestores(value: string)
    ensures Repad(EncodeCursor(value)) == Base64.Encode(Utf8.Encode(value))
    ensures |EncodeCursor(value)| % 4 != 1
  {
    hide Repad, Base64.Encode, Utf8.Encode;
    var b := Utf8.Encode(value);
    var s, n := Base64.Encode(b), Base64.Padding(|b|);
    Base64.PaddingIsAtEnd(b);
    StripsExactly(s, n);
    RepadAdds(s[..|s| - n], n);
    assert s[|s| - n..] == seq(n, _ => '=');
    assert s == s[..|s| - n] + s[|s| - n..];
  }

  /** Decoding inverts encoding on every string, and takes the padded form as well. */
  lemma {:induction false} CursorRoundTrip(value: string)
    ensures DecodeCursor(EncodeCursor(value)) == Some(value)
    ensures DecodeCursor(Base64.Encode(Utf8.Encode(value))) == Some(value)
  {
    hide EncodeCursor, Repad, Base64.Encode, Base64.Decode, Utf8.Encode, Utf8.Decode;
    RepadRestores(value);
    Base64.RoundTrip(Utf8.Encode(value));
    Utf8.RoundTrip(value);
    var padded := Base64.Encode(Utf8.Encode(value));
    Base64.PaddingIsAtEnd(Utf8.Encode(value));
    RepadAdds(padded, 0);
    assert Repad(padded) == padded;
  }

  /** Where `sep` first occurs, or the length if it does not. */
  function IndexOf(s: string, sep: char): (i: nat)
    ensures i <= |s| && (i < |s| ==> s[i] == sep)
    ensures forall k :: 0 <= k < i ==> s[k] != sep
  {
    if s == "" || s[0] == sep then 0 else 1 + IndexOf(s[1..], sep)
  }

  function LastIndexOf(s: string, sep: char): (i: Option<nat>)
    ensures i.Some? ==> i.value < |s| && s[i.value] == sep
    ensures forall k :: (if i.Some? then i.value else -1) < k < |s| ==> s[k] != sep
  {
    if s == "" then None
    else if s[|s| - 1] == sep then Some(|s| - 1)
    else LastIndexOf(s[..|s| - 1], sep)
  }

  /** Python's `partition`: head, whether the separator was found, tail. */
  function Partition(s: string, sep: char): (string, bool, string) {
    var i := IndexOf(s, sep);
    if i < |s| then (s[..i], true, s[i + 1..]) else (s, false, "")
  }

  /** Python's `rpartition`; without a separator everything is tail. */
  function RPartition(s: string, sep: char): (string, bool, string) {
    match LastIndexOf(s, sep)
    case Some(i) => (s[..i], true, s[i + 1..])
    case None => ("", false, s)
  }

  lemma PartitionOf(head: string, sep: char, tail: string)
    requires sep !in head
    ensures Partition(head + [sep] + tail, sep) == (head, true, tail)
  {
    var s := head + [sep] + tail;
    assert s[|head|] == sep && forall k :: 0 <= k < |head| ==> s[k] == head[k];
    assert s[..|head|] == head && s[|head| + 1..] == tail;
  }

  lemma RPartitionOf(head: string, sep: char, tail: string)
    requires sep !in tail
    ensures RPartition(head + [sep] + tail, sep) == (head, true, tail)
  {
    var s := head + [sep] + tail;
    assert s[|head|] == sep && forall k :: |head| < k < |s| ==> s[k] == tail[k - |head| - 1];
    assert s[..|head|] == head && s[|head| + 1..] == tail;
  }

  datatype Error = CursorExpired | InvalidCursor | SortMismatch | InvalidSort

  function EncodeVersionedCursor(payload: string): string {
    EncodeCursor(CURSOR_VERSION + ":" + payload)
  }

  function DecodeVersionedCursor(cursor: string): Result<string, Error> {
    match DecodeCursor(cursor)
    case None => Failure(CursorExpired)
    case Some(raw) =>
      var (version, found, payload) := Partition(raw, ':');
      if !found || version != CURSOR_VERSION || payload == "" then Failure(CursorExpired)
      else Success(payload)
  }

  /** The envelope gives back every payload but the empty one, whatever separators it holds. */
  lemma VersionedRoundTrip(payload: string)
    ensures DecodeVersionedCursor(EncodeVersionedCursor(payload))
         == if payload == "" then Failure(CursorExpired) else Success(payload)
  {
    CursorRoundTrip(CURSOR_VERSION + ":" + payload);
    PartitionOf(CURSOR_VERSION, ':', payload);
  }

  lemma PartitionInverse(s: string, sep: char)
    ensures Partition(s, sep).1 ==> s == Partition(s, sep).0 + [sep] + Partition(s, sep).2
    ensures !Partition(s, sep).1 ==> sep !in s
  {
    var i := IndexOf(s, sep);
    if i < |s| {
      assert s == s[..i] + [s[i]] + s[i + 1..];
    }
  }

  /** A cursor from before versioning is rejected, unless its payload happens to start with the version. */
  lemma UnversionedIsRejected(payload: string)
    ensures DecodeVersionedCursor(EncodeCursor(payload)).Success? <==> |payload| > 3 && payload[..3] == "v1:"
  {
    hide DecodeCursor, EncodeCursor, Partition;
    CursorRoundTrip(payload);
    PartitionInverse(payload, ':');
    var (version, found, rest) := Partition(payload, ':');
    if |payload| > 3 && payload[..3] == "v1:" {
      assert payload == CURSOR_VERSION + [':'] + payload[3..];
      PartitionOf(CURSOR_VERSION, ':', payload[3..]);
    }
  }

  /** A UUID as the number it is. */
  type Uuid = n: nat | n < 0x1_0000_0000_0000_0000_0000_0000_0000_0000

  const UUID_DIGITS := 32

  function Pow16(k: nat): nat {
    if k == 0 then 1 else 16 * Pow16(k - 1)
  }

  function HexDigit(n: nat): char
    requires n < 16
  {
    if n < 10 then ('0' as int + n) as char else ('a' as int + n - 10) as char
  }

  function HexValue(c: char): Option<nat> {
    if '0' <= c <= '9' then Some(c as int - '0' as int)
    else if 'a' <= c <= 'f' then Some(c as int - 'a' as int + 10)
    else if 'A' <= c <= 'F' then Some(c as int - 'A' as int + 10)
    else None
  }

  function Hex(n: nat, digits: nat): string {
    if digits == 0 then "" else Hex(n / 16, digits - 1) + [HexDigit(n % 16)]
  }

  function ParseHex(s: string): Option<nat> {
    if s == "" then Some(0)
    else
      match ParseHex(s[..|s| - 1])
      case None => None
      case Some(n) =>
        match HexValue(s[|s| - 1])
        case None => None
        case Some(d) => Some(16 * n + d)
  }

  lemma {:induction false} HexRoundTrip(n: nat, digits: nat)
    requires n < Pow16(digits)
    ensures |Hex(n, digits)| == digits && ParseHex(Hex(n, digits)) == Some(n) && '|' !in Hex(n, digits)
    decreases digits
  {
    if digits > 0 {
      HexRoundTrip(n / 16, digits - 1);
      var head := Hex(n / 16, digits - 1);
      assert Hex(n, digits)[..digits - 1] == head;
      assert HexValue(HexDigit(n % 16)) == Some(n % 16);
    }
  }

  function ParseUuid(s: string): Option<Uuid> {
    match ParseHex(s)
    case Some(n) =>
      if |s| == UUID_DIGITS && n < 0x1_0000_0000_0000_0000_0000_0000_0000_0000 then Some(n) else None
    case None => None
  }

  lemma UuidRoundTrip(id: Uuid)
    ensures ParseUuid(Hex(id, UUID_DIGITS)) == Some(id)
    ensures '|' !in Hex(id, UUID_DIGITS) && Hex(id, UUID_DIGITS) != ""
  {
    assert Pow16(8) == 0x1_0000_0000;
    PowSum(8, 8);
    PowSum(16, 16);
    HexRoundTrip(id, UUID_DIGITS);
  }

  lemma {:induction false} PowSum(a: nat, b: nat)
    ensures Pow16(a + b) == Pow16(a) * Pow16(b)
  {
    if a > 0 {
      PowSum(a - 1, b);
      calc {
        Pow16(a + b);
        16 * Pow16(a - 1 + b);
        16 * (Pow16(a - 1) * Pow16(b));
        Pow16(a) * Pow16(b);
      }
    }
  }

  datatype PageCursor = PageCursor(sortBy: string, sortDir: string, value: string, id: Uuid)

  function PagePayload(c: PageCursor): string {
    c.sortBy + ":" + c.sortDir + ":" + c.value + "|" + Hex(c.id, UUID_DIGITS)
  }

  function DecodePageCursor(cursor: string): Result<PageCursor, Error> {
    match DecodeCursor(cursor)
    case None => Failure(InvalidCursor)
    case Some(raw) =>
      var (prefix, _, idHex) := RPartition(raw, '|');
      var (sortBy, _, rest) := Partition(prefix, ':');
      var (sortDir, _, value) := Partition(rest, ':');
      if sortBy == "" || (sortDir != "asc" && sortDir != "desc") || idHex == "" then Failure(InvalidCursor)
      else
        match ParseUuid(idHex)
        case None => Failure(InvalidCursor)
        case Some(id) => Success(PageCursor(sortBy, sortDir, value, id))
  }

  /** The page cursor gives back its sort, direction, value and id, even if the value holds ':' or '|'. */
  lemma {:induction false} PageCursorRoundTrip(c: PageCursor)
    requires c.sortBy != "" && ':' !in c.sortBy && (c.sortDir == "asc" || c.sortDir == "desc")
    ensures DecodePageCursor(EncodeCursor(c.sortBy + ":" + c.sortDir + ":" + c.value + "|" + Hex(c.id, 32))) == Success(c)
    ensures EncodeCursor(PagePayload(c)) == EncodeCursor(c.sortBy + ":" + c.sortDir + ":" + c.value + "|" + Hex(c.id, 32))
  {
    hide DecodeCursor, EncodeCursor, ParseUuid, Partition, RPartition, Hex;
    var hex := Hex(c.id, UUID_DIGITS);
    var rest := c.sortDir + [':'] + c.value;
    var prefix := c.sortBy + [':'] + rest;
    assert PagePayload(c) == prefix + ['|'] + hex;
    CursorRoundTrip(PagePayload(c));
    UuidRoundTrip(c.id);
    RPartitionOf(prefix, '|', hex);
    PartitionOf(c.sortBy, ':', rest);
    PartitionOf(c.sortDir, ':', c.value);
  }

  /** Nothing else is accepted: a cursor names a sort, a direction and an id; only the value may be left out. */
  lemma AcceptedCursorIsWellFormed(raw: string) returns (hex: string)
    ensures var r := DecodePageCursor(EncodeCursor(raw));
            r.Success? ==>
              var c := r.value;
              c.sortBy != "" && ':' !in c.sortBy && (c.sortDir == "asc" || c.sortDir == "desc") &&
              |hex| == 32 && ParseHex(hex) == Some(c.id) &&
              (raw == c.sortBy + ":" + c.sortDir + ":" + c.value + "|" + hex ||
               (c.value == "" && raw == c.sortBy + ":" + c.sortDir + "|" + hex))
  {
    hide DecodeCursor, EncodeCursor, ParseHex, Partition, RPartition;
    CursorRoundTrip(raw);
    var (prefix, _, idHex) := RPartition(raw, '|');
    var (sortBy, _, rest) := Partition(prefix, ':');
    var (sortDir, _, value) := Partition(rest, ':');
    hex := idHex;
    RPartitionInverse(raw, '|');
    PartitionInverse(prefix, ':');
    PartitionInverse(rest, ':');
    NoSeparator(prefix, ':');
    WholeIsHead(prefix, ':');
    WholeIsHead(rest, ':');
  }

  lemma RPartitionInverse(s: string, sep: char)
    ensures RPartition(s, sep).1 ==> s == RPartition(s, sep).0 + [sep] + RPartition(s, sep).2
    ensures !RPartition(s, sep).1 ==> RPartition(s, sep).0 == ""
  {
    if LastIndexOf(s, sep).Some? {
      var i := LastIndexOf(s, sep).value;
      assert s == s[..i] + [s[i]] + s[i + 1..];
    }
  }

  lemma NoSeparator(s: string, sep: char)
    ensures sep !in Partition(s, sep).0
  {
    var i := IndexOf(s, sep);
    assert forall k :: 0 <= k < i ==> s[..i][k] == s[k];
    assert s[..|s|] == s;
  }

  lemma WholeIsHead(s: string, sep: char)
    ensures !Partition(s, sep).1 ==> Partition(s, sep).0 == s && Partition(s, sep).2 == ""
    ensures s == "" ==> Partition(s, sep) == ("", false, "")
  {
  }

  /** The form of a cursor: the unpadded encoding, on examples. */
  lemma Examples()
    ensures EncodeCursor("foobar") == "Zm9vYmFy" && EncodeCursor("f") == "Zg"
  {
    var f: seq<Utf8.Byte>, foobar: seq<Utf8.Byte> := [102], [102, 111, 111, 98, 97, 114];
    Base64.Examples();
    TextOfAscii("f", f);
    TextOfAscii("foobar", foobar);
    hide Base64.Encode, Utf8.Encode, StripPadding;
    StripsExactly("Zg==", 2);
    StripsExactly("Zm9vYmFy", 0);
    assert "Zg=="[..2] == "Zg" && "Zm9vYmFy"[..8] == "Zm9vYmFy";
  }

  /** The digits of an id to base 16: the last one last, in lower case; the reader takes upper case too. */
  lemma HexIsBaseSixteen(n: nat, digits: nat)
    ensures Hex(n, digits + 1) == Hex(n / 16, digits) + [HexDigit(n % 16)]
  {
  }

  lemma HexAlphabet()
    ensures [HexDigit(0), HexDigit(1), HexDigit(2), HexDigit(3), HexDigit(4), HexDigit(5), HexDigit(6)] == "0123456"
    ensures [HexDigit(7), HexDigit(8), HexDigit(9), HexDigit(10), HexDigit(11), HexDigit(12)] == "789abc"
    ensures [HexDigit(13), HexDigit(14), HexDigit(15)] == "def"
    ensures HexValue('A') == Some(10) && HexValue('B') == Some(11) && HexValue('C') == Some(12)
    ensures HexValue('D') == Some(13) && HexValue('E') == Some(14) && HexValue('F') == Some(15)
  {
  }

  lemma {:induction false} TextOfAscii(text: string, bytes: seq<Utf8.Byte>)
    requires |text| == |bytes| && forall i :: 0 <= i < |text| ==> text[i] as int == bytes[i] < 128
    ensures Utf8.Encode(text) == bytes
  {
    if text != "" {
      TextOfAscii(text[1..], bytes[1..]);
      assert bytes == [bytes[0]] + bytes[1..];
    }
  }
}
