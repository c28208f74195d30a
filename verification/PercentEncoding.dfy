/**
  UTF-8 and percent-encoding: the decoder of the WHATWG Encoding Standard, printers that keep some
  ASCII characters and escape the rest (section 2.1 of RFC 3986), and the two readers the programs use.
  A `char` is a Unicode scalar value, so every `string` is well-formed.
 */
module PercentEncoding {
  import opened Options

  type Byte = b: int | 0 <= b < 256

  function EncodeChar(c: char): (bytes: seq<Byte>)
    ensures 1 <= |bytes| <= 4
  {
    var n := c as int;
    if n < 0x80 then [n]
    else if n < 0x800 then [0xC0 + n / 64, 0x80 + n % 64]
    else if n < 0x10000 then [0xE0 + n / 4096, 0x80 + n / 64 % 64, 0x80 + n % 64]
    else [0xF0 + n / 262144, 0x80 + n / 4096 % 64, 0x80 + n / 64 % 64, 0x80 + n % 64]
  }

  predicate Continues(bytes: seq<Byte>, i: nat, lower: int, upper: int) {
    i < |bytes| && lower <= bytes[i] <= upper
  }

  /** The six low bits of a continuation byte. */
  function Low(bytes: seq<Byte>, i: nat): int
    requires i < |bytes|
  {
    bytes[i] as int - 0x80
  }

  datatype Step = Step(decoded: Option<char>, length: nat)

  /** One step of the UTF-8 decoder: a character, or nothing for a maximal invalid prefix, and its length. */
  function Take(bytes: seq<Byte>): (step: Step)
    requires bytes != []
    ensures 1 <= step.length <= |bytes|
  {
    var b: int := bytes[0];
    if b < 0x80 then Step(Some(b as char), 1)
    else if 0xC2 <= b <= 0xDF then
      if !Continues(bytes, 1, 0x80, 0xBF) then Step(None, 1)
      else Step(Some(((b - 0xC0) * 64 + Low(bytes, 1)) as char), 2)
    else if 0xE0 <= b <= 0xEF then
      if !Continues(bytes, 1, if b == 0xE0 then 0xA0 else 0x80, if b == 0xED then 0x9F else 0xBF) then Step(None, 1)
      else if !Continues(bytes, 2, 0x80, 0xBF) then Step(None, 2)
      else Step(Some(((b - 0xE0) * 4096 + Low(bytes, 1) * 64 + Low(bytes, 2)) as char), 3)
    else if 0xF0 <= b <= 0xF4 then
      if !Continues(bytes, 1, if b == 0xF0 then 0x90 else 0x80, if b == 0xF4 then 0x8F else 0xBF) then Step(None, 1)
      else if !Continues(bytes, 2, 0x80, 0xBF) then Step(None, 2)
      else if !Continues(bytes, 3, 0x80, 0xBF) then Step(None, 3)
      else Step(Some(((b - 0xF0) * 262144 + Low(bytes, 1) * 4096 + Low(bytes, 2) * 64 + Low(bytes, 3)) as char), 4)
    else Step(None, 1)
  }

  const REPLACEMENT := 0xFFFD as char

  /** "UTF-8 decode without BOM": every maximal invalid prefix becomes U+FFFD. */
  function DecodeUtf8(bytes: seq<Byte>): string {
    if bytes == [] then ""
    else
      var step := Take(bytes);
      [if step.decoded.Some? then step.decoded.value else REPLACEMENT] + DecodeUtf8(bytes[step.length..])
  }

  lemma TakeFourBytes(c: char, rest: seq<Byte>)
    requires c as int >= 0x10000
    ensures Take(EncodeChar(c) + rest) == Step(Some(c), 4)
  {
    var n := c as int;
    assert n == n / 262144 * 262144 + n / 4096 % 64 * 4096 + n / 64 % 64 * 64 + n % 64;
  }

  lemma TakeThreeBytes(c: char, rest: seq<Byte>)
    requires 0x800 <= c as int < 0x10000
    ensures Take(EncodeChar(c) + rest) == Step(Some(c), 3)
  {
    var n := c as int;
    assert n == n / 4096 * 4096 + n / 64 % 64 * 64 + n % 64;
  }

  /** The decoder reads back any encoded character, whatever follows it. */
  lemma TakeEncoded(c: char, rest: seq<Byte>)
    ensures Take(EncodeChar(c) + rest) == Step(Some(c), |EncodeChar(c)|)
  {
    if c as int >= 0x10000 {
      TakeFourBytes(c, rest);
    } else if c as int >= 0x800 {
      TakeThreeBytes(c, rest);
    }
  }

  /** Nothing but the encoding of a character is decoded: no overlong form, no surrogate, nothing out of range. */
  lemma TakesOnlyEncodings(bytes: seq<Byte>, c: char)
    requires bytes != []
    ensures Take(bytes).decoded == Some(c) <==> EncodeChar(c) <= bytes
    ensures Take(bytes).decoded == Some(c) ==> Take(bytes).length == |EncodeChar(c)|
  {
    if EncodeChar(c) <= bytes {
      TakeEncoded(c, bytes[|EncodeChar(c)|..]);
      assert EncodeChar(c) + bytes[|EncodeChar(c)|..] == bytes;
    }
    if Take(bytes).decoded == Some(c) {
      TakenIsEncoded(bytes);
    }
  }

  lemma TakenIsEncoded(bytes: seq<Byte>)
    requires bytes != [] && Take(bytes).decoded.Some?
    ensures bytes[..Take(bytes).length] == EncodeChar(Take(bytes).decoded.value)
  {
    var b: int := bytes[0];
    match Take(bytes).length
    case 1 =>
    case 2 =>
      var n := (b - 0xC0) * 64 + Low(bytes, 1);
      assert n / 64 == b - 0xC0 && n % 64 == Low(bytes, 1);
    case 3 =>
      var n := (b - 0xE0) * 4096 + Low(bytes, 1) * 64 + Low(bytes, 2);
      assert n / 64 == (b - 0xE0) * 64 + Low(bytes, 1) && n % 64 == Low(bytes, 2);
      assert n / 4096 == b - 0xE0 && n / 64 % 64 == Low(bytes, 1);
    case _ =>
      FourBytesTaken(b - 0xF0, Low(bytes, 1), Low(bytes, 2), Low(bytes, 3));
  }

  lemma FourBytesTaken(a: int, b: int, c: int, d: int)
    requires 0 <= a && 0 <= b < 64 && 0 <= c < 64 && 0 <= d < 64
    ensures var n := a * 262144 + b * 4096 + c * 64 + d;
            n / 262144 == a && n / 4096 % 64 == b && n / 64 % 64 == c && n % 64 == d
  {
    var n := a * 262144 + b * 4096 + c * 64 + d;
    assert n / 64 == a * 4096 + b * 64 + c;
    assert n / 4096 == a * 64 + b;
  }

  /** The bytes are the beginning of the encoding of a character, but not all of it. */
  ghost predicate Begins(bytes: seq<Byte>) {
    exists c :: BeginsAs(bytes, c)
  }

  predicate BeginsAs(bytes: seq<Byte>, c: char) {
    |bytes| < |EncodeChar(c)| && bytes == EncodeChar(c)[..|bytes|]
  }

  /** The character that is encoded by these bytes followed by continuation bytes without bits. */
  function Completed(bytes: seq<Byte>): int
    requires |bytes| == 2 || |bytes| == 3
  {
    var b: int := bytes[0];
    if b <= 0xEF then (b - 0xE0) * 4096 + Low(bytes, 1) * 64
    else (b - 0xF0) * 262144 + Low(bytes, 1) * 4096 + (if |bytes| == 3 then Low(bytes, 2) * 64 else 0)
  }

  /**
    What cannot be decoded is replaced by U+FFFD, one for a single byte or for the longest beginning of an
    encoding that stands there.
   */
  lemma InvalidIsReplaced(bytes: seq<Byte>)
    requires bytes != [] && Take(bytes).decoded.None?
    ensures var n := Take(bytes).length;
            && (n == 1 || Begins(bytes[..n]))
            && DecodeUtf8(bytes) == ['\U{FFFD}'] + DecodeUtf8(bytes[n..])
    ensures forall n: nat, c :: Take(bytes).length < n <= |bytes| ==> !BeginsAs(bytes[..n], c)
  {
    var n := Take(bytes).length;
    if n > 1 {
      if bytes[0] <= 0xEF {
        ThreeBytesBegin(bytes);
      } else {
        FourBytesBegin(bytes);
      }
    }
    forall m: nat, c | n < m <= |bytes| ensures !BeginsAs(bytes[..m], c) {
      if BeginsAs(bytes[..m], c) {
        LongerIsDecoded(bytes, m, c);
      }
    }
  }

  lemma ThreeBytesBegin(bytes: seq<Byte>)
    requires bytes != [] && Take(bytes).decoded.None? && Take(bytes).length > 1 && bytes[0] <= 0xEF
    ensures Begins(bytes[..Take(bytes).length])
  {
    var front := bytes[..2];
    var code := Completed(front);
    assert front == [bytes[0], bytes[1]];
    assert code == 64 * (64 * (bytes[0] - 0xE0) + Low(bytes, 1));
    assert BeginsAs(front, code as char);
  }

  lemma FourBytesBegin(bytes: seq<Byte>)
    requires bytes != [] && Take(bytes).decoded.None? && Take(bytes).length > 1 && bytes[0] > 0xEF
    ensures Begins(bytes[..Take(bytes).length])
  {
    var n := Take(bytes).length;
    var front := bytes[..n];
    var code := Completed(front);
    FourBytesTaken(bytes[0] - 0xF0, Low(bytes, 1), if n == 3 then Low(bytes, 2) else 0, 0);
    if n == 2 {
      assert front == [bytes[0], bytes[1]];
    } else {
      assert front == [bytes[0], bytes[1], bytes[2]];
    }
    assert BeginsAs(front, code as char);
  }

  /** A beginning of an encoding is not given up before its end. */
  lemma LongerIsDecoded(bytes: seq<Byte>, m: nat, c: char)
    requires 1 < m <= |bytes| && BeginsAs(bytes[..m], c) && Take(bytes).decoded.None?
    ensures m <= Take(bytes).length
  {
    var code := EncodeChar(c);
    assert forall i :: 0 <= i < m ==> bytes[i] == code[i];
  }

  // ----- percent-encoding -----

  function HexDigit(n: int): char
    requires 0 <= n < 16
  {
    if n < 10 then '0' + n as char else 'A' + (n - 10) as char
  }

  function HexValue(c: char): Option<int> {
    if '0' <= c <= '9' then Some(c as int - '0' as int)
    else if 'A' <= c <= 'F' then Some(c as int - 'A' as int + 10)
    else if 'a' <= c <= 'f' then Some(c as int - 'a' as int + 10)
    else None
  }

  function Octet(b: Byte): (s: string)
    ensures |s| == 3
  {
    ['%', HexDigit(b / 16), HexDigit(b % 16)]
  }

  function Octets(bytes: seq<Byte>): string {
    if bytes == [] then "" else Octet(bytes[0]) + Octets(bytes[1..])
  }

  /** The byte a string starts with as a percent-encoded octet, if it does. */
  function OctetAt(s: string): (b: Option<int>)
    ensures b.Some? ==> |s| >= 3 && 0 <= b.value < 256
  {
    if |s| >= 3 && s[0] == '%' && HexValue(s[1]).Some? && HexValue(s[2]).Some?
    then Some(HexValue(s[1]).value * 16 + HexValue(s[2]).value) else None
  }

  function LowerHexDigit(n: int): char
    requires 0 <= n < 16
  {
    if n < 10 then '0' + n as char else 'a' + (n - 10) as char
  }

  /** An octet is a percent sign and the two digits of its value, in either case. */
  lemma OctetExactly(s: string, b: Byte)
    ensures OctetAt(s) == Some(b) <==>
              && |s| >= 3 && s[0] == '%'
              && s[1] in {HexDigit(b / 16), LowerHexDigit(b / 16)} && s[2] in {HexDigit(b % 16), LowerHexDigit(b % 16)}
  {
    HexDigitExactly(b / 16);
    HexDigitExactly(b % 16);
    if OctetAt(s) == Some(b) {
      var high, low := HexValue(s[1]).value, HexValue(s[2]).value;
      assert b / 16 == high && b % 16 == low;
    }
  }

  lemma HexDigitExactly(n: int)
    requires 0 <= n < 16
    ensures forall c :: HexValue(c) == Some(n) <==> c in {HexDigit(n), LowerHexDigit(n)}
    ensures forall c :: HexValue(c).Some? ==> 0 <= HexValue(c).value < 16
  {
  }

  lemma OctetReadsBack(b: Byte, rest: string)
    ensures OctetAt(Octet(b) + rest) == Some(b)
  {
  }

  /** "Percent-decode" of the URL Standard, on the UTF-8 encoding of a string. */
  function PercentDecode(s: string): seq<Byte> {
    if s == "" then []
    else if OctetAt(s).Some? then [OctetAt(s).value] + PercentDecode(s[3..])
    else EncodeChar(s[0]) + PercentDecode(s[1..])
  }

  /** The bytes a string starts with as a run of percent-encoded octets. */
  function OctetRun(s: string): seq<Byte> {
    if OctetAt(s).Some? then [OctetAt(s).value] + OctetRun(s[3..]) else []
  }

  lemma {:induction false} OctetRunLength(s: string)
    ensures 3 * |OctetRun(s)| <= |s|
  {
    if OctetAt(s).Some? {
      OctetRunLength(s[3..]);
    }
  }

  /** .NET's `Uri.UnescapeDataString`: octets that are not valid UTF-8 stay as they are. */
  function UnescapeDataString(s: string): string
    decreases |s|
  {
    if s == "" then ""
    else
      OctetRunLength(s);
      if OctetRun(s) != [] && Take(OctetRun(s)).decoded.Some? then
        [Take(OctetRun(s)).decoded.value] + UnescapeDataString(s[3 * Take(OctetRun(s)).length..])
      else [s[0]] + UnescapeDataString(s[1..])
  }

  // ----- printers -----

  /** How a printer writes one character. */
  type Printer = char -> string

  function Print(p: Printer, s: string): string {
    if s == "" then "" else p(s[0]) + Print(p, s[1..])
  }

  /** Keeps the characters of `keep` and percent-encodes the UTF-8 octets of the others. */
  function Escaping(keep: char -> bool): Printer {
    c => if keep(c) then [c] else Octets(EncodeChar(c))
  }

  predicate Alphanumeric(c: char) {
    'a' <= c <= 'z' || 'A' <= c <= 'Z' || '0' <= c <= '9'
  }

  /** A character that stands for itself in a query value. */
  predicate Plain(c: char) {
    0x20 < c as int < 0x7F && c !in {'%', '+', '&', '=', '#', '?'}
  }

  lemma {:induction false} OctetsArePlain(bytes: seq<Byte>)
    ensures forall i :: 0 <= i < |Octets(bytes)| ==> Octets(bytes)[i] in "0123456789ABCDEF%"
    ensures bytes != [] ==> Octets(bytes) != ""
  {
    if bytes != [] {
      OctetsArePlain(bytes[1..]);
    }
  }

  lemma OctetFirst(b: Byte, tail: string)
    ensures PercentDecode(Octet(b) + tail) == [b] + PercentDecode(tail)
    ensures OctetRun(Octet(b) + tail) == [b] + OctetRun(tail)
  {
    OctetReadsBack(b, tail);
    assert (Octet(b) + tail)[3..] == tail;
  }

  lemma OctetsSplit(bytes: seq<Byte>, rest: string)
    requires bytes != []
    ensures Octets(bytes) + rest == Octet(bytes[0]) + (Octets(bytes[1..]) + rest)
  {
  }

  lemma {:induction false} PercentDecodeOctets(bytes: seq<Byte>, rest: string)
    ensures PercentDecode(Octets(bytes) + rest) == bytes + PercentDecode(rest)
    ensures OctetRun(Octets(bytes) + rest) == bytes + OctetRun(rest)
  {
    if bytes == [] {
      assert Octets(bytes) + rest == rest;
    } else {
      var tail := Octets(bytes[1..]) + rest;
      PercentDecodeOctets(bytes[1..], rest);
      OctetsSplit(bytes, rest);
      OctetFirst(bytes[0], tail);
      ConsAppend(bytes, PercentDecode(rest));
      ConsAppend(bytes, OctetRun(rest));
    }
  }

  lemma ConsAppend<T>(a: seq<T>, b: seq<T>)
    requires a != []
    ensures a + b == [a[0]] + (a[1..] + b)
  {
  }

  /** What a form reader makes of '+' before it decodes. */
  function PlusToSpace(s: string): string {
    if s == "" then "" else [if s[0] == '+' then ' ' else s[0]] + PlusToSpace(s[1..])
  }

  lemma {:induction false} PlusToSpaceConcat(a: string, b: string)
    ensures PlusToSpace(a + b) == PlusToSpace(a) + PlusToSpace(b)
  {
    if a == "" {
      assert a + b == b;
    } else {
      assert (a + b)[1..] == a[1..] + b;
      PlusToSpaceConcat(a[1..], b);
    }
  }

  lemma {:induction false} NoPlus(s: string)
    requires '+' !in s
    ensures PlusToSpace(s) == s
  {
    if s != "" {
      NoPlus(s[1..]);
    }
  }

  /** How the URL Standard reads a name or value of a query: '+' is a space, octets are UTF-8. */
  function FormDecode(s: string): string {
    DecodeUtf8(PercentDecode(PlusToSpace(s)))
  }

  /** A printer whose output a form reader decodes to the character it printed, whatever follows. */
  ghost predicate Faithful(p: Printer) {
    forall c, rest :: PercentDecode(PlusToSpace(p(c)) + rest) == EncodeChar(c) + PercentDecode(rest)
  }

  lemma {:induction false} FaithfulDecodes(p: Printer, s: string)
    requires Faithful(p)
    ensures FormDecode(Print(p, s)) == s
  {
    if s == "" {
    } else {
      var tail := Print(p, s[1..]);
      PlusToSpaceConcat(p(s[0]), tail);
      assert PercentDecode(PlusToSpace(Print(p, s))) == EncodeChar(s[0]) + PercentDecode(PlusToSpace(tail));
      TakeEncoded(s[0], PercentDecode(PlusToSpace(tail)));
      var bytes := EncodeChar(s[0]) + PercentDecode(PlusToSpace(tail));
      assert bytes[|EncodeChar(s[0])|..] == PercentDecode(PlusToSpace(tail));
      FaithfulDecodes(p, s[1..]);
      assert s == [s[0]] + s[1..];
    }
  }

  /** Any escaping printer that keeps only plain characters is faithful, for both readers. */
  lemma EscapingIsFaithful(keep: char -> bool)
    requires forall c :: keep(c) ==> Plain(c)
    ensures Faithful(Escaping(keep))
  {
    var p := Escaping(keep);
    forall c, rest ensures PercentDecode(PlusToSpace(p(c)) + rest) == EncodeChar(c) + PercentDecode(rest) {
      if keep(c) {
        NoPlus([c]);
        assert ([c] + rest)[1..] == rest;
      } else {
        OctetsArePlain(EncodeChar(c));
        NoPlus(Octets(EncodeChar(c)));
        PercentDecodeOctets(EncodeChar(c), rest);
      }
    }
  }

  lemma UnescapeStep(keep: char -> bool, c: char, tail: string)
    requires !keep('%')
    ensures UnescapeDataString(Escaping(keep)(c) + tail) == [c] + UnescapeDataString(tail)
  {
    var text := Escaping(keep)(c) + tail;
    OctetRunLength(text);
    if keep(c) {
      assert text[1..] == tail;
    } else {
      OctetsArePlain(EncodeChar(c));
      PercentDecodeOctets(EncodeChar(c), tail);
      TakeEncoded(c, OctetRun(tail));
      OctetsLength(EncodeChar(c));
      assert text[3 * |EncodeChar(c)|..] == tail;
    }
  }

  lemma {:induction false} UnescapeReadsBack(keep: char -> bool, s: string)
    requires !keep('%')
    ensures UnescapeDataString(Print(Escaping(keep), s)) == s
  {
    if s != "" {
      UnescapeStep(keep, s[0], Print(Escaping(keep), s[1..]));
      UnescapeReadsBack(keep, s[1..]);
      assert s == [s[0]] + s[1..];
    }
  }

  /** As Escaping, but a space is written as '+', as form serializers do. */
  function EscapingPlus(keep: char -> bool): Printer {
    c => if c == ' ' then "+" else Escaping(keep)(c)
  }

  function OrSpace(keep: char -> bool): char -> bool {
    c => keep(c) || c == ' '
  }

  lemma PlusCharacter(keep: char -> bool, c: char)
    requires !keep('+')
    ensures PlusToSpace(EscapingPlus(keep)(c)) == Escaping(OrSpace(keep))(c)
  {
    if c == ' ' {
      assert PlusToSpace("+") == " ";
    } else {
      assert EscapingPlus(keep)(c) == Escaping(keep)(c) == Escaping(OrSpace(keep))(c);
      EscapingAvoids(keep, '+');
      NoPlus(Escaping(keep)(c));
    }
  }

  lemma {:induction false} PlusReadsAsSpace(keep: char -> bool, s: string)
    requires !keep('+')
    ensures PlusToSpace(Print(EscapingPlus(keep), s)) == Print(Escaping(OrSpace(keep)), s)
  {
    if s != "" {
      PlusReadsAsSpace(keep, s[1..]);
      PlusToSpaceConcat(EscapingPlus(keep)(s[0]), Print(EscapingPlus(keep), s[1..]));
      PlusCharacter(keep, s[0]);
    }
  }

  lemma {:induction false} OctetsLength(bytes: seq<Byte>)
    ensures |Octets(bytes)| == 3 * |bytes|
  {
    if bytes != [] {
      OctetsLength(bytes[1..]);
    }
  }

  /** Printed text contains only what its printer writes. */
  lemma {:induction false} PrintAvoids(p: Printer, s: string, avoided: char)
    requires forall c :: avoided !in p(c)
    ensures avoided !in Print(p, s)
  {
    if s != "" {
      PrintAvoids(p, s[1..], avoided);
    }
  }

  lemma EscapingAvoids(keep: char -> bool, avoided: char)
    requires !keep(avoided) && avoided !in "0123456789ABCDEF%"
    ensures forall c :: avoided !in Escaping(keep)(c)
  {
    forall c ensures avoided !in Escaping(keep)(c) {
      OctetsArePlain(EncodeChar(c));
    }
  }

  // ----- what is left alone -----

  /** No percent sign of the text starts an octet. */
  predicate HasNoOctet(s: string) {
    forall i :: 0 <= i <= |s| ==> OctetAt(s[i..]).None?
  }

  lemma NoOctetTail(s: string)
    requires HasNoOctet(s) && s != ""
    ensures OctetAt(s).None? && HasNoOctet(s[1..])
  {
    assert s[0..] == s;
    forall i | 0 <= i <= |s[1..]| ensures OctetAt(s[1..][i..]).None? {
      assert s[1..][i..] == s[i + 1..];
    }
  }

  /** A text without octets is read as it is, stray percent signs included; a form also reads its '+' as spaces. */
  lemma {:induction false} OtherTextIsLeftAlone(s: string)
    requires HasNoOctet(s)
    ensures UnescapeDataString(s) == s
    ensures DecodeUtf8(PercentDecode(s)) == s
    ensures '+' !in s ==> FormDecode(s) == s
    decreases |s|
  {
    if '+' !in s {
      NoPlus(s);
    }
    if s != "" {
      NoOctetTail(s);
      OtherTextIsLeftAlone(s[1..]);
      var bytes := EncodeChar(s[0]) + PercentDecode(s[1..]);
      TakeEncoded(s[0], PercentDecode(s[1..]));
      assert bytes[|EncodeChar(s[0])|..] == PercentDecode(s[1..]);
      assert s == [s[0]] + s[1..];
    }
  }

  // ----- splitting -----

  /** `split(separator)`: always at least one piece. */
  function Split(s: string, separator: char): (pieces: seq<string>)
    ensures pieces != []
  {
    if s == "" then [""]
    else if s[0] == separator then [""] + Split(s[1..], separator)
    else
      var rest := Split(s[1..], separator);
      [[s[0]] + rest[0]] + rest[1..]
  }

  lemma {:induction false} SplitConcat(a: string, b: string, separator: char)
    ensures Split(a + [separator] + b, separator) == Split(a, separator) + Split(b, separator)
  {
    if a == "" {
      assert a + [separator] + b == [separator] + b;
      assert ([separator] + b)[1..] == b;
    } else {
      assert (a + [separator] + b)[1..] == a[1..] + [separator] + b;
      SplitConcat(a[1..], b, separator);
    }
  }

  lemma {:induction false} SplitNone(s: string, separator: char)
    requires separator !in s
    ensures Split(s, separator) == [s]
  {
    if s != "" {
      SplitNone(s[1..], separator);
      assert [s[0]] + s[1..] == s;
    }
  }

  /** The first '=' of a piece, or its length. */
  function EqualsAt(s: string): (i: nat)
    ensures i <= |s|
    ensures forall k :: 0 <= k < i ==> s[k] != '='
    ensures i < |s| ==> s[i] == '='
  {
    if s == "" || s[0] == '=' then 0 else 1 + EqualsAt(s[1..])
  }

  lemma {:induction false} EqualsAfter(name: string, value: string)
    requires '=' !in name
    ensures EqualsAt(name + "=" + value) == |name|
  {
    if name == "" {
      assert (name + "=" + value)[0] == '=';
    } else {
      assert (name + "=" + value)[1..] == name[1..] + "=" + value;
      EqualsAfter(name[1..], value);
    }
  }

  function Join(pieces: seq<string>, separator: char): string {
    if pieces == [] then "" else if |pieces| == 1 then pieces[0]
    else pieces[0] + [separator] + Join(pieces[1..], separator)
  }

  lemma {:induction false} SplitJoin(pieces: seq<string>, separator: char)
    requires pieces != [] && forall i :: 0 <= i < |pieces| ==> separator !in pieces[i]
    ensures Split(Join(pieces, separator), separator) == pieces
  {
    SplitNone(pieces[0], separator);
    if |pieces| > 1 {
      SplitJoin(pieces[1..], separator);
      SplitConcat(pieces[0], Join(pieces[1..], separator), separator);
    }
  }
}
