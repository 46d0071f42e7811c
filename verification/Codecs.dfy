/** Byte strings and their ASCII text. */
module Bytes {
  import opened Common

  type byte = x: int | 0 <= x < 256

  predicate IsAscii(s: string) {
    forall i | 0 <= i < |s| :: s[i] as int < 128
  }

  function Encode(s: string): (raw: seq<byte>)
    requires IsAscii(s)
    ensures |raw| == |s| && forall i | 0 <= i < |s| :: raw[i] == s[i] as int
  {
    seq(|s|, i requires 0 <= i < |s| => s[i] as int)
  }

  /** Text that is not ASCII is treated as undecodable: no payload of this program has any. */
  function Decode(raw: seq<byte>): Option<string> {
    if raw == [] then Some("")
    else if raw[0] >= 128 then None
    else match Decode(raw[1..])
      case None => None
      case Some(rest) => Some([raw[0] as char] + rest)
  }

  lemma {:induction false} DecodeInvertsEncode(s: string)
    requires IsAscii(s)
    ensures Decode(Encode(s)) == Some(s)
  {
    if s != "" {
      DecodeInvertsEncode(s[1..]);
      assert Encode(s)[1..] == Encode(s[1..]);
      assert Encode(s)[0] as char == s[0];
      assert s == [s[0]] + s[1..];
    }
  }
}

/** Unpadded base64url, as `_b64e` and `_b64d` of backend/app/security/session.py build it from
    the standard library (sections 3.2, 4 and 5 of RFC 4648). */
module Base64Url {
  import opened Common
  import opened Bytes

  type sextet = x: int | 0 <= x < 64

  function Letter(v: sextet): char {
    if v < 26 then 'A' + v as char
    else if v < 52 then 'a' + (v - 26) as char
    else if v < 62 then '0' + (v - 52) as char
    else if v == 62 then '-' else '_'
  }

  /** The decoder's table: the standard alphabet is accepted beside the URL-safe one. */
  function ValueOf(c: char): Option<sextet> {
    if 'A' <= c <= 'Z' then Some(c as int - 'A' as int)
    else if 'a' <= c <= 'z' then Some(c as int - 'a' as int + 26)
    else if '0' <= c <= '9' then Some(c as int - '0' as int + 52)
    else if c == '-' || c == '+' then Some(62)
    else if c == '_' || c == '/' then Some(63)
    else None
  }

  lemma ValueOfLetter(v: sextet)
    ensures ValueOf(Letter(v)) == Some(v) && Letter(v) != '=' && Letter(v) != '.'
  {
  }

  function Group(b0: byte, b1: byte, b2: byte): (s: string)
    ensures |s| == 4
  {
    [Letter(b0 / 4), Letter(b0 % 4 * 16 + b1 / 16), Letter(b1 % 16 * 4 + b2 / 64), Letter(b2 % 64)]
  }

  /** `urlsafe_b64encode`: groups of three bytes, the last one padded with "=". */
  function Padded(raw: seq<byte>): string {
    if raw == [] then ""
    else if |raw| == 1 then [Letter(raw[0] / 4), Letter(raw[0] % 4 * 16), '=', '=']
    else if |raw| == 2 then
      [Letter(raw[0] / 4), Letter(raw[0] % 4 * 16 + raw[1] / 16), Letter(raw[1] % 16 * 4), '=']
    else Group(raw[0], raw[1], raw[2]) + Padded(raw[3..])
  }

  function StripPadding(text: string): string {
    if text != "" && Last(text) == '=' then StripPadding(Init(text)) else text
  }

  function Padding(n: nat): string {
    seq((4 - n % 4) % 4, _ => '=')
  }

  function B64e(raw: seq<byte>): string {
    StripPadding(Padded(raw))
  }

  /** The standard decoder: characters outside the alphabet are skipped, a complete padding
      ends the input, and an unfinished group is an error. `left` holds the bits carried over
      within a group of four characters, of which `pos` have been read. */
  function A2b(text: string, pos: nat, left: nat, pads: nat): Option<seq<byte>>
    requires pos < 4
    requires left < (if pos == 0 then 1 else if pos == 1 then 64 else if pos == 2 then 16 else 4)
  {
    if text == "" then
      if pos == 0 then Some([]) else None
    else if text[0] == '=' then
      if pos >= 2 && pos + pads + 1 >= 4 then Some([])
      else A2b(text[1..], pos, left, if pos >= 2 then pads + 1 else pads)
    else match ValueOf(text[0])
      case None => A2b(text[1..], pos, left, pads)
      case Some(v) =>
        if pos == 0 then A2b(text[1..], 1, v, 0)
        else if pos == 1 then Emit(left * 4 + v / 16, A2b(text[1..], 2, v % 16, 0))
        else if pos == 2 then Emit(left * 16 + v / 4, A2b(text[1..], 3, v % 4, 0))
        else Emit(left * 64 + v, A2b(text[1..], 0, 0, 0))
  }

  function Emit(b: byte, rest: Option<seq<byte>>): Option<seq<byte>> {
    match rest
    case None => None
    case Some(bs) => Some([b] + bs)
  }

  /** Text that is not ASCII is refused before decoding. */
  function B64d(text: string): Option<seq<byte>> {
    if IsAscii(text) then A2b(text + Padding(|text|), 0, 0, 0) else None
  }

  /** The URL-safe alphabet of section 5 of RFC 4648, by code point. */
  lemma AlphabetOrder(v: sextet)
    ensures Letter(v) as int == if v < 26 then 65 + v else if v < 52 then 97 + v - 26 else if v < 62 then 48 + v - 52
                                else if v == 62 then 45 else 95
  {
  }

  function Sextet(c: char): int {
    match ValueOf(c) case None => 0 case Some(v) => v
  }

  /** Three bytes are written as one number of 24 bits, most significant part first (section 4 of
      RFC 4648); two and one are written as if followed by zero bits. */
  lemma WrittenBigEndian(b0: byte, b1: byte, b2: byte)
    ensures var s := Padded([b0, b1, b2]);
            |s| == 4 && Sextet(s[0]) * 262144 + Sextet(s[1]) * 4096 + Sextet(s[2]) * 64 + Sextet(s[3]) == b0 * 65536 + b1 * 256 + b2
    ensures var s := Padded([b0, b1]);
            |s| == 4 && s[3] == '=' && Sextet(s[0]) * 4096 + Sextet(s[1]) * 64 + Sextet(s[2]) == (b0 * 256 + b1) * 4
    ensures var s := Padded([b0]);
            |s| == 4 && s[2] == s[3] == '=' && Sextet(s[0]) * 64 + Sextet(s[1]) == b0 * 16
  {
    assert [b0, b1, b2][3..] == [] && Group(b0, b1, b2) + "" == Group(b0, b1, b2);
    ValueOfLetter(b0 / 4);
    ValueOfLetter(b0 % 4 * 16 + b1 / 16);
    ValueOfLetter(b1 % 16 * 4 + b2 / 64);
    ValueOfLetter(b2 % 64);
    ValueOfLetter(b0 % 4 * 16);
    ValueOfLetter(b1 % 16 * 4);
  }

  // ---------------------------------------------------------------- stripping and restoring

  predicate InAlphabet(text: string) {
    forall c <- text :: ValueOf(c).Some? && c != '=' && c != '.'
  }

  lemma AlphabetIsAscii(text: string)
    requires InAlphabet(text)
    ensures IsAscii(text)
  {
    forall i | 0 <= i < |text| ensures text[i] as int < 128 {
      assert text[i] in text;
    }
  }

  /** The letters of an encoding, without padding. */
  function Letters(raw: seq<byte>): string {
    if raw == [] then ""
    else if |raw| == 1 then [Letter(raw[0] / 4), Letter(raw[0] % 4 * 16)]
    else if |raw| == 2 then
      [Letter(raw[0] / 4), Letter(raw[0] % 4 * 16 + raw[1] / 16), Letter(raw[1] % 16 * 4)]
    else Group(raw[0], raw[1], raw[2]) + Letters(raw[3..])
  }

  lemma GroupInAlphabet(b0: byte, b1: byte, b2: byte)
    ensures InAlphabet(Group(b0, b1, b2))
  {
    ValueOfLetter(b0 / 4);
    ValueOfLetter(b0 % 4 * 16 + b1 / 16);
    ValueOfLetter(b1 % 16 * 4 + b2 / 64);
    ValueOfLetter(b2 % 64);
  }

  lemma AppendInAlphabet(a: string, b: string)
    requires InAlphabet(a) && InAlphabet(b)
    ensures InAlphabet(a + b)
  {
  }

  lemma {:induction false} LettersInAlphabet(raw: seq<byte>)
    ensures InAlphabet(Letters(raw))
  {
    if |raw| >= 3 {
      LettersInAlphabet(raw[3..]);
      GroupInAlphabet(raw[0], raw[1], raw[2]);
      AppendInAlphabet(Group(raw[0], raw[1], raw[2]), Letters(raw[3..]));
    } else if raw != [] {
      GroupInAlphabet(raw[0], if |raw| == 2 then raw[1] else 0, 0);
      var group := Group(raw[0], if |raw| == 2 then raw[1] else 0, 0);
      assert Letters(raw) == group[..|raw| + 1];
    }
  }

  lemma {:induction false} LettersPadded(raw: seq<byte>)
    ensures Padded(raw) == Letters(raw) + Padding(|Letters(raw)|)
  {
    if |raw| >= 3 {
      LettersPadded(raw[3..]);
      PaddingPeriod(|Letters(raw[3..])|);
    } else {
      assert |raw| == 1 ==> Padding(2) == "==";
      assert |raw| == 2 ==> Padding(3) == "=";
    }
  }

  lemma PaddingPeriod(n: nat)
    ensures Padding(4 + n) == Padding(n)
  {
  }

  lemma {:induction false} StripAppended(text: string, n: nat)
    requires text == "" || Last(text) != '='
    ensures StripPadding(text + seq(n, _ => '=')) == text
  {
    var padded := text + seq(n, _ => '=');
    if n == 0 {
      assert padded == text;
    } else {
      assert Last(padded) == '=';
      assert Init(padded) == text + seq(n - 1, _ => '=');
      StripAppended(text, n - 1);
    }
  }

  /** Main result: the padding `_b64d` computes from the length is the one `_b64e` stripped, for
      every length modulo 3, and a stripped encoding uses no "." and no "=". */
  lemma PaddingRestored(raw: seq<byte>)
    ensures B64e(raw) + Padding(|B64e(raw)|) == Padded(raw)
    ensures InAlphabet(B64e(raw))
    ensures B64e(raw) == Letters(raw)
  {
    LettersPadded(raw);
    LettersInAlphabet(raw);
    var letters := Letters(raw);
    assert letters != "" ==> Last(letters) in letters;
    StripAppended(letters, (4 - |letters| % 4) % 4);
  }

  // ---------------------------------------------------------------- round trip

  /** The bits a letter does not use are carried to the next one. */
  lemma CarriedBits(b0: byte, b1: byte, b2: byte)
    ensures var v0, v1, v2, v3 := b0 / 4, b0 % 4 * 16 + b1 / 16, b1 % 16 * 4 + b2 / 64, b2 % 64;
            v0 * 4 + v1 / 16 == b0 && v1 % 16 * 16 + v2 / 4 == b1 && v2 % 4 * 64 + v3 == b2
  {
  }

  lemma DecodeFullGroup(b0: byte, b1: byte, b2: byte, rest: string)
    ensures A2b(Group(b0, b1, b2) + rest, 0, 0, 0) == Emit(b0, Emit(b1, Emit(b2, A2b(rest, 0, 0, 0))))
  {
    var v0: sextet, v1: sextet, v2: sextet, v3: sextet :=
      b0 / 4, b0 % 4 * 16 + b1 / 16, b1 % 16 * 4 + b2 / 64, b2 % 64;
    CarriedBits(b0, b1, b2);
    DecodeLetters(v0, v1, v2, v3, rest);
    assert Group(b0, b1, b2) + rest
        == [Letter(v0)] + ([Letter(v1)] + ([Letter(v2)] + ([Letter(v3)] + rest)));
  }

  lemma DecodeLetters(v0: sextet, v1: sextet, v2: sextet, v3: sextet, rest: string)
    ensures A2b([Letter(v0)] + ([Letter(v1)] + ([Letter(v2)] + ([Letter(v3)] + rest))), 0, 0, 0)
         == Emit(v0 * 4 + v1 / 16, Emit(v1 % 16 * 16 + v2 / 4, Emit(v2 % 4 * 64 + v3, A2b(rest, 0, 0, 0))))
  {
    var last := [Letter(v2)] + ([Letter(v3)] + rest);
    DecodeLastLetters(v1 % 16, v2, v3, rest);
    ReadLetter(v1, last, 1, v0);
    ReadLetter(v0, [Letter(v1)] + last, 0, 0);
  }

  lemma DecodeLastLetters(left: nat, v2: sextet, v3: sextet, rest: string)
    requires left < 16
    ensures A2b([Letter(v2)] + ([Letter(v3)] + rest), 2, left, 0)
         == Emit(left * 16 + v2 / 4, Emit(v2 % 4 * 64 + v3, A2b(rest, 0, 0, 0)))
  {
    ReadLetter(v3, rest, 3, v2 % 4);
    ReadLetter(v2, [Letter(v3)] + rest, 2, left);
  }

  /** One letter in each of the four positions of a group. */
  lemma ReadLetter(v: sextet, rest: string, pos: nat, left: nat)
    requires pos < 4
    requires left < (if pos == 0 then 1 else if pos == 1 then 64 else if pos == 2 then 16 else 4)
    ensures A2b([Letter(v)] + rest, pos, left, 0) ==
            if pos == 0 then A2b(rest, 1, v, 0)
            else if pos == 1 then Emit(left * 4 + v / 16, A2b(rest, 2, v % 16, 0))
            else if pos == 2 then Emit(left * 16 + v / 4, A2b(rest, 3, v % 4, 0))
            else Emit(left * 64 + v, A2b(rest, 0, 0, 0))
  {
    ValueOfLetter(v);
    var text := [Letter(v)] + rest;
    assert text[0] == Letter(v) && text[1..] == rest;
  }

  lemma DecodeOneByte(b0: byte)
    ensures A2b(Padded([b0]), 0, 0, 0) == Some([b0])
  {
    var v0: sextet, v1: sextet := b0 / 4, b0 % 4 * 16;
    assert v0 * 4 + v1 / 16 == b0;
    ReadLetter(v0, [Letter(v1)] + "==", 0, 0);
    ReadLetter(v1, "==", 1, v0);
    assert Padded([b0]) == [Letter(v0)] + ([Letter(v1)] + "==");
    assert "=="[1..] == "=";
    assert A2b("=", 2, v1 % 16, 1) == Some([]);
    assert A2b("==", 2, v1 % 16, 0) == Some([]);
    assert [b0] + [] == [b0];
  }

  lemma DecodeTwoBytes(b0: byte, b1: byte)
    ensures A2b(Padded([b0, b1]), 0, 0, 0) == Some([b0, b1])
  {
    var v0: sextet, v1: sextet, v2: sextet := b0 / 4, b0 % 4 * 16 + b1 / 16, b1 % 16 * 4;
    CarriedBits(b0, b1, 0);
    ReadLetter(v0, [Letter(v1)] + ([Letter(v2)] + "="), 0, 0);
    ReadLetter(v1, [Letter(v2)] + "=", 1, v0);
    ReadLetter(v2, "=", 2, v1 % 16);
    assert Padded([b0, b1]) == [Letter(v0)] + ([Letter(v1)] + ([Letter(v2)] + "="));
    assert A2b("=", 3, v2 % 4, 0) == Some([]);
    assert [b0] + ([b1] + []) == [b0, b1];
  }

  lemma {:induction false} DecodePadded(raw: seq<byte>)
    ensures A2b(Padded(raw), 0, 0, 0) == Some(raw)
  {
    if |raw| == 1 {
      DecodeOneByte(raw[0]);
      assert raw == [raw[0]];
    } else if |raw| == 2 {
      DecodeTwoBytes(raw[0], raw[1]);
      assert raw == [raw[0], raw[1]];
    } else if |raw| >= 3 {
      DecodePadded(raw[3..]);
      DecodeFullGroup(raw[0], raw[1], raw[2], Padded(raw[3..]));
      assert raw == [raw[0]] + ([raw[1]] + ([raw[2]] + raw[3..]));
    }
  }

  /** Main result: decoding inverts encoding on every byte string. */
  lemma RoundTrip(raw: seq<byte>)
    ensures B64d(B64e(raw)) == Some(raw)
  {
    PaddingRestored(raw);
    AlphabetIsAscii(B64e(raw));
    DecodePadded(raw);
  }

  lemma Injective(a: seq<byte>, b: seq<byte>)
    requires B64e(a) == B64e(b)
    ensures a == b
  {
    RoundTrip(a);
    RoundTrip(b);
  }
}

/** Decimal numerals: `str` and `int` on the numbers this program prints. */
module Decimal {
  import opened Common

  predicate IsDigit(c: char) {
    '0' <= c <= '9'
  }

  function Print(n: nat): (s: string)
    ensures s != "" && forall c <- s :: IsDigit(c)
  {
    if n < 10 then [('0' + n as char)] else Print(n / 10) + ['0' + (n % 10) as char]
  }

  function Parse(s: string): Option<nat> {
    if s == "" || !IsDigit(Last(s)) then None
    else
      var digit := Last(s) as int - '0' as int;
      if |s| == 1 then Some(digit)
      else match Parse(Init(s))
        case None => None
        case Some(n) => Some(n * 10 + digit)
  }

  /** Digits stand in decreasing order of weight, without leading zeros. */
  lemma PrintPositional(n: nat, d: nat)
    requires d < 10
    ensures Print(d) == [(48 + d) as char]
    ensures n > 0 ==> Print(10 * n + d) == Print(n) + [(48 + d) as char]
  {
  }

  lemma {:induction false} ParseInvertsPrint(n: nat)
    ensures Parse(Print(n)) == Some(n)
  {
    if n >= 10 {
      ParseInvertsPrint(n / 10);
      assert Init(Print(n)) == Print(n / 10);
    }
  }
}

/** User and workspace identifiers: 128 bits, written in five groups of hexadecimal digits. */
module Uuids {
  import opened Common

  type nibble = x: int | 0 <= x < 16
  type Uuid = u: seq<nibble> | |u| == 32 witness seq(32, _ => 0)

  function Hex(n: nibble): char {
    if n < 10 then '0' + n as char else 'a' + (n - 10) as char
  }

  function HexValue(c: char): Option<nibble> {
    if '0' <= c <= '9' then Some(c as int - '0' as int)
    else if 'a' <= c <= 'f' then Some(c as int - 'a' as int + 10)
    else if 'A' <= c <= 'F' then Some(c as int - 'A' as int + 10)
    else None
  }

  function HexText(ns: seq<nibble>): (s: string)
    ensures |s| == |ns| && forall i | 0 <= i < |ns| :: s[i] == Hex(ns[i])
  {
    seq(|ns|, i requires 0 <= i < |ns| => Hex(ns[i]))
  }

  function Group(ns: seq<nibble>, tail: string): string {
    HexText(ns) + ("-" + tail)
  }

  /** `str(uuid)`: groups of 8, 4, 4, 4 and 12 digits. */
  function Print(u: Uuid): string {
    Group(u[..8], Group(u[8..12], Group(u[12..16], Group(u[16..20], HexText(u[20..])))))
  }

  function DropDashes(s: string): string {
    if s == "" then ""
    else if s[0] == '-' then DropDashes(s[1..])
    else [s[0]] + DropDashes(s[1..])
  }

  function ReadHex(s: string): Option<seq<nibble>> {
    if s == "" then Some([])
    else match HexValue(s[0])
      case None => None
      case Some(n) => (match ReadHex(s[1..])
        case None => None
        case Some(ns) => Some([n] + ns))
  }

  /** `UUID(text)`: dashes are dropped wherever they stand; 32 hexadecimal digits must remain. */
  function Parse(s: string): Option<Uuid> {
    match ReadHex(DropDashes(s))
    case None => None
    case Some(ns) => if |ns| == 32 then Some(ns) else None
  }

  lemma {:induction false} DropGroup(group: string, rest: string)
    requires '-' !in group
    ensures DropDashes(group + rest) == group + DropDashes(rest)
  {
    if group == "" {
      assert group + rest == rest;
    } else {
      DropGroup(group[1..], rest);
      assert (group + rest)[1..] == group[1..] + rest;
      assert group == [group[0]] + group[1..];
    }
  }

  lemma {:induction false} ReadHexText(ns: seq<nibble>)
    ensures ReadHex(HexText(ns)) == Some(ns)
  {
    if ns != [] {
      ReadHexText(ns[1..]);
      assert HexText(ns)[0] == Hex(ns[0]) && HexText(ns)[1..] == HexText(ns[1..]);
      assert HexValue(Hex(ns[0])) == Some(ns[0]);
      assert ns == [ns[0]] + ns[1..];
    }
  }

  lemma DropGroupAndDash(ns: seq<nibble>, rest: seq<nibble>, tail: string)
    requires DropDashes(tail) == HexText(rest)
    ensures DropDashes(Group(ns, tail)) == HexText(ns + rest)
  {
    DropGroup(HexText(ns), "-" + tail);
    assert ("-" + tail)[1..] == tail;
    assert HexText(ns + rest) == HexText(ns) + HexText(rest);
  }

  lemma {:induction false} PrintWithoutDashes(u: Uuid)
    ensures DropDashes(Print(u)) == HexText(u)
  {
    var s20 := HexText(u[20..]);
    var s16 := Group(u[16..20], s20);
    var s12 := Group(u[12..16], s16);
    var s8 := Group(u[8..12], s12);
    assert DropDashes(s20) == HexText(u[20..]) by {
      DropGroup(s20, "");
      assert s20 + "" == s20;
    }
    NextGroup(u, 16, 20, s20);
    NextGroup(u, 12, 16, s16);
    NextGroup(u, 8, 12, s12);
    NextGroup(u, 0, 8, s8);
    assert u[0..8] == u[..8] && u[0..] == u;
  }

  lemma {:induction false} NextGroup(u: Uuid, i: nat, j: nat, tail: string)
    requires i <= j <= |u| && DropDashes(tail) == HexText(u[j..])
    ensures DropDashes(Group(u[i..j], tail)) == HexText(u[i..])
  {
    DropGroupAndDash(u[i..j], u[j..], tail);
    assert u[i..j] + u[j..] == u[i..];
  }

  /** Hexadecimal digits and dashes only. */
  predicate Written(s: string) {
    forall i | 0 <= i < |s| :: s[i] == '-' || HexValue(s[i]).Some?
  }

  lemma GroupWritten(ns: seq<nibble>, tail: string)
    requires Written(tail)
    ensures Written(HexText(ns)) && Written(Group(ns, tail)) && |Group(ns, tail)| == |ns| + 1 + |tail|
  {
  }

  lemma PrintWritten(u: Uuid)
    ensures Written(Print(u)) && |Print(u)| == 36
  {
    GroupWritten(u[20..], "");
    GroupWritten(u[16..20], HexText(u[20..]));
    GroupWritten(u[12..16], Group(u[16..20], HexText(u[20..])));
    GroupWritten(u[8..12], Group(u[12..16], Group(u[16..20], HexText(u[20..]))));
    GroupWritten(u[..8], Group(u[8..12], Group(u[12..16], Group(u[16..20], HexText(u[20..])))));
  }

  /** Lower-case digits in order, with dashes after the 8th, 12th, 16th and 20th. */
  lemma PrintShape(u: Uuid, i: nat)
    requires i < 32
    ensures |Print(u)| == 36 && Print(u)[8] == Print(u)[13] == Print(u)[18] == Print(u)[23] == '-'
    ensures var at := if i < 8 then i else if i < 12 then i + 1 else if i < 16 then i + 2 else if i < 20 then i + 3 else i + 4;
            Print(u)[at] as int == if u[i] < 10 then 48 + u[i] as int else 87 + u[i] as int
  {
    var s20 := HexText(u[20..]);
    var s16 := Group(u[16..20], s20);
    var s12 := Group(u[12..16], s16);
    var s8 := Group(u[8..12], s12);
    GroupAt(u[16..20], s20);
    GroupAt(u[12..16], s16);
    GroupAt(u[8..12], s12);
    GroupAt(u[..8], s8);
  }

  lemma GroupAt(ns: seq<nibble>, tail: string)
    ensures var s := Group(ns, tail);
            && |s| == |ns| + 1 + |tail| && s[|ns|] == '-'
            && (forall i | 0 <= i < |ns| :: s[i] == Hex(ns[i]))
            && forall i | 0 <= i < |tail| :: s[|ns| + 1 + i] == tail[i]
  {
  }

  lemma ParseInvertsPrint(u: Uuid)
    ensures Parse(Print(u)) == Some(u)
  {
    PrintWithoutDashes(u);
    ReadHexText(u);
  }

  lemma PrintInjective(u: Uuid, v: Uuid)
    requires Print(u) == Print(v)
    ensures u == v
  {
    ParseInvertsPrint(u);
    ParseInvertsPrint(v);
  }
}
