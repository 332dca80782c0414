/** `encodeURIComponent` as ECMA-262 defines it, and a decoder that undoes it.
    Characters are Unicode scalar values, so the lone-surrogate URIError cannot arise. */
module UriComponent {
  import opened Basics

  /** The characters left as they are: letters, digits and the marks - _ . ! ~ * ' ( ). */
  predicate Unreserved(c: char) {
    ('a' <= c <= 'z') || ('A' <= c <= 'Z') || ('0' <= c <= '9') || c in "-_.!~*'()"
  }

  predicate IsScalar(cp: int) {
    (0 <= cp < 0xD800) || (0xE000 <= cp < 0x11_0000)
  }

  /** The UTF-8 encoding of one scalar value (the bit fields cp >> 18, cp >> 12, cp >> 6, cp & 63). */
  function Utf8(c: char): (bytes: seq<byte>)
    ensures 1 <= |bytes| <= 4
  {
    var cp := c as int;
    var r0, q0 := cp % 64, cp / 64;
    var r1, q1 := q0 % 64, q0 / 64;
    var r2, q2 := q1 % 64, q1 / 64;
    if cp < 0x80 then [cp as byte]
    else if cp < 0x800 then [(0xC0 + q0) as byte, (0x80 + r0) as byte]
    else if cp < 0x1_0000 then [(0xE0 + q1) as byte, (0x80 + r1) as byte, (0x80 + r0) as byte]
    else [(0xF0 + q2) as byte, (0x80 + r2) as byte, (0x80 + r1) as byte, (0x80 + r0) as byte]
  }

  /** An upper-case hexadecimal digit. */
  function HexDigit(d: int): char
    requires 0 <= d < 16
  {
    if d < 10 then ('0' as int + d) as char else ('A' as int + d - 10) as char
  }

  /** The value of a hexadecimal digit of either case. */
  function HexValue(c: char): (r: Option<int>)
    ensures r.Some? ==> 0 <= r.value < 16
  {
    if '0' <= c <= '9' then Some(c as int - '0' as int)
    else if 'A' <= c <= 'F' then Some(c as int - 'A' as int + 10)
    else if 'a' <= c <= 'f' then Some(c as int - 'a' as int + 10)
    else None
  }

  /** One escaped octet: "%" and two upper-case hex digits. */
  function Percent(b: byte): string {
    ['%', HexDigit(b as int / 16), HexDigit(b as int % 16)]
  }

  function PercentAll(bytes: seq<byte>): (r: string)
    ensures |r| == 3 * |bytes|
  {
    if bytes == [] then [] else Percent(bytes[0]) + PercentAll(bytes[1..])
  }

  function EncodeChar(c: char): string {
    if Unreserved(c) then [c] else PercentAll(Utf8(c))
  }

  /** Only unreserved characters and "%". */
  predicate Escaped(r: string) {
    forall i :: 0 <= i < |r| ==> Unreserved(r[i]) || r[i] == '%'
  }

  /** `encodeURIComponent(s)`: its output holds only unreserved characters and "%",
      so in particular no "/", "@", "&" or "=". */
  function Encode(s: string): (r: string)
    ensures Escaped(r)
    ensures '/' !in r && '@' !in r && '&' !in r && '=' !in r
    decreases |s|
  {
    if s == [] then []
    else
      var head, tail := EncodeChar(s[0]), Encode(s[1..]);
      EncodeCharEscaped(s[0]);
      EscapedConcat(head, tail);
      head + tail
  }

  lemma EncodeCharEscaped(c: char)
    ensures Escaped(EncodeChar(c))
  {
    if !Unreserved(c) { PercentAllAlphabet(Utf8(c)); }
  }

  lemma EscapedConcat(a: string, b: string)
    requires Escaped(a) && Escaped(b)
    ensures Escaped(a + b)
    ensures '/' !in a + b && '@' !in a + b && '&' !in a + b && '=' !in a + b
  {
    assert forall i :: 0 <= i < |a + b| ==> (a + b)[i] == if i < |a| then a[i] else b[i - |a|];
  }

  lemma {:induction false} PercentAllAlphabet(bytes: seq<byte>)
    ensures Escaped(PercentAll(bytes))
    decreases |bytes|
  {
    if bytes != [] { PercentAllAlphabet(bytes[1..]); }
  }

  /** The escaped octet at position i of s, if there is one. */
  function OctetAt(s: string, i: nat): (r: Option<int>)
    requires i + 3 <= |s|
    ensures r.Some? ==> 0 <= r.value < 256
  {
    if s[i] == '%' && HexValue(s[i + 1]).Some? && HexValue(s[i + 2]).Some? then
      Some(16 * HexValue(s[i + 1]).value + HexValue(s[i + 2]).value)
    else None
  }

  /** The six payload bits of an escaped UTF-8 continuation octet at position i. */
  function ContinuationAt(s: string, i: nat): (r: Option<int>)
    requires i + 3 <= |s|
    ensures r.Some? ==> 0 <= r.value < 64
  {
    match OctetAt(s, i)
    case Some(b) => if 0x80 <= b < 0xC0 then Some(b - 0x80) else None
    case None => None
  }

  /** The number of octets a UTF-8 sequence with this lead octet has (0: not a lead octet). */
  function SequenceLength(lead: int): nat {
    if lead < 0x80 then 1
    else if 0xC0 <= lead < 0xE0 then 2
    else if 0xE0 <= lead < 0xF0 then 3
    else if 0xF0 <= lead < 0xF8 then 4
    else 0
  }

  /** The scalar value whose escaped UTF-8 sequence starts s, with the number of
      characters that sequence takes. */
  function DecodeOne(s: string): (r: Option<(char, nat)>)
    ensures r.Some? ==> 3 <= r.value.1 <= |s|
  {
    if |s| < 3 then None
    else match OctetAt(s, 0)
      case None => None
      case Some(lead) =>
        var n := SequenceLength(lead);
        if n == 0 || |s| < 3 * n then None
        else
          var c1 := if n >= 2 then ContinuationAt(s, 3) else Some(0);
          var c2 := if n >= 3 then ContinuationAt(s, 6) else Some(0);
          var c3 := if n >= 4 then ContinuationAt(s, 9) else Some(0);
          if c1.None? || c2.None? || c3.None? then None
          else
            var cp :=
              if n == 1 then lead
              else if n == 2 then (lead - 0xC0) * 64 + c1.value
              else if n == 3 then ((lead - 0xE0) * 64 + c1.value) * 64 + c2.value
              else (((lead - 0xF0) * 64 + c1.value) * 64 + c2.value) * 64 + c3.value;
            if IsScalar(cp) then Some((cp as char, 3 * n)) else None
  }

  /** `decodeURIComponent(s)`, as far as it is needed to undo Encode: escaped UTF-8
      sequences become their character, every other character stays. */
  function Decode(s: string): Option<string>
    decreases |s|
  {
    if s == [] then Some([])
    else if s[0] != '%' then
      match Decode(s[1..])
      case None => None
      case Some(t) => Some([s[0]] + t)
    else
      match DecodeOne(s)
      case None => None
      case Some((c, n)) =>
        match Decode(s[n..])
        case None => None
        case Some(t) => Some([c] + t)
  }

  lemma HexRoundTrip(d: int)
    requires 0 <= d < 16
    ensures HexValue(HexDigit(d)) == Some(d)
  {
  }

  /** An escaped octet reads back as that octet. */
  lemma OctetAtPercent(b: byte, rest: string)
    ensures OctetAt(Percent(b) + rest, 0) == Some(b as int)
  {
    HexRoundTrip(b as int / 16);
    HexRoundTrip(b as int % 16);
  }

  /** Reading an octet does not depend on what precedes it. */
  lemma OctetAtShift(p: string, s: string, i: nat)
    requires i + 3 <= |s|
    ensures OctetAt(p + s, |p| + i) == OctetAt(s, i)
  {
    assert (p + s)[|p| + i] == s[i] && (p + s)[|p| + i + 1] == s[i + 1] && (p + s)[|p| + i + 2] == s[i + 2];
  }

  /** The k-th escaped octet of a sequence reads back as the k-th octet. */
  lemma {:induction false} OctetAtPercentAll(bytes: seq<byte>, rest: string, k: nat)
    requires k < |bytes|
    ensures 3 * k + 3 <= |PercentAll(bytes) + rest|
    ensures OctetAt(PercentAll(bytes) + rest, 3 * k) == Some(bytes[k] as int)
    decreases k
  {
    var tail := PercentAll(bytes[1..]) + rest;
    assert PercentAll(bytes) + rest == Percent(bytes[0]) + tail;
    if k == 0 {
      OctetAtPercent(bytes[0], tail);
    } else {
      OctetAtPercentAll(bytes[1..], rest, k - 1);
      OctetAtShift(Percent(bytes[0]), tail, 3 * (k - 1));
    }
  }

  /** The escaped UTF-8 sequence of a reserved character decodes to that character. */
  lemma DecodeOneEncoded(c: char, rest: string)
    requires !Unreserved(c)
    ensures |EncodeChar(c)| == 3 * |Utf8(c)|
    ensures DecodeOne(EncodeChar(c) + rest) == Some((c, 3 * |Utf8(c)|))
  {
    var cp := c as int;
    var bytes := Utf8(c);
    assert EncodeChar(c) + rest == PercentAll(bytes) + rest;
    OctetAtPercentAll(bytes, rest, 0);
    if cp < 0x80 {
    } else if cp < 0x800 {
      DecodeTwo(c, rest);
    } else if cp < 0x1_0000 {
      DecodeThree(c, rest);
    } else {
      DecodeFour(c, rest);
    }
  }

  lemma DecodeTwo(c: char, rest: string)
    requires 0x80 <= c as int < 0x800
    ensures DecodeOne(PercentAll(Utf8(c)) + rest) == Some((c, 6))
  {
    var cp := c as int;
    var bytes, s := Utf8(c), PercentAll(Utf8(c)) + rest;
    var q0 := cp / 64;
    assert cp == q0 * 64 + cp % 64;
    OctetAtPercentAll(bytes, rest, 0);
    OctetAtPercentAll(bytes, rest, 1);
    assert OctetAt(s, 0) == Some(0xC0 + q0);
    assert ContinuationAt(s, 3) == Some(cp % 64);
  }

  lemma DecodeThree(c: char, rest: string)
    requires 0x800 <= c as int < 0x1_0000
    ensures DecodeOne(PercentAll(Utf8(c)) + rest) == Some((c, 9))
  {
    var cp := c as int;
    var bytes, s := Utf8(c), PercentAll(Utf8(c)) + rest;
    var q0 := cp / 64;
    var q1 := q0 / 64;
    SplitSixBits(cp, 2);
    OctetAtPercentAll(bytes, rest, 0);
    OctetAtPercentAll(bytes, rest, 1);
    OctetAtPercentAll(bytes, rest, 2);
    DecodeThreeFields(s, q1, q0 % 64, cp % 64);
  }

  /** Three escaped octets with a three-octet lead decode to the scalar value they spell. */
  lemma DecodeThreeFields(s: string, b0: int, b1: int, b2: int)
    requires 9 <= |s| && 0 <= b0 < 16 && 0 <= b1 < 64 && 0 <= b2 < 64
    requires OctetAt(s, 0) == Some(0xE0 + b0)
    requires OctetAt(s, 3) == Some(0x80 + b1) && OctetAt(s, 6) == Some(0x80 + b2)
    requires IsScalar((b0 * 64 + b1) * 64 + b2)
    ensures DecodeOne(s) == Some((((b0 * 64 + b1) * 64 + b2) as char, 9))
  {
    assert ContinuationAt(s, 3) == Some(b1) && ContinuationAt(s, 6) == Some(b2);
  }

  lemma DecodeFour(c: char, rest: string)
    requires 0x1_0000 <= c as int
    ensures DecodeOne(PercentAll(Utf8(c)) + rest) == Some((c, 12))
  {
    var cp := c as int;
    var bytes, s := Utf8(c), PercentAll(Utf8(c)) + rest;
    var q0 := cp / 64;
    var q1 := q0 / 64;
    var q2 := q1 / 64;
    SplitSixBits(cp, 3);
    OctetAtPercentAll(bytes, rest, 0);
    OctetAtPercentAll(bytes, rest, 1);
    OctetAtPercentAll(bytes, rest, 2);
    OctetAtPercentAll(bytes, rest, 3);
    DecodeFourFields(s, q2, q1 % 64, q0 % 64, cp % 64);
  }

  /** Four escaped octets with a four-octet lead decode to the scalar value they spell. */
  lemma DecodeFourFields(s: string, b0: int, b1: int, b2: int, b3: int)
    requires 12 <= |s| && 0 <= b0 < 8 && 0 <= b1 < 64 && 0 <= b2 < 64 && 0 <= b3 < 64
    requires OctetAt(s, 0) == Some(0xF0 + b0)
    requires OctetAt(s, 3) == Some(0x80 + b1) && OctetAt(s, 6) == Some(0x80 + b2) && OctetAt(s, 9) == Some(0x80 + b3)
    requires IsScalar(((b0 * 64 + b1) * 64 + b2) * 64 + b3)
    ensures DecodeOne(s) == Some(((((b0 * 64 + b1) * 64 + b2) * 64 + b3) as char, 12))
  {
    assert ContinuationAt(s, 3) == Some(b1) && ContinuationAt(s, 6) == Some(b2) && ContinuationAt(s, 9) == Some(b3);
  }

  /** A value is its six-bit groups put back together. */
  lemma SplitSixBits(cp: int, groups: nat)
    requires 0 <= cp && 2 <= groups <= 3
    ensures groups == 2 ==> (cp / 64 / 64 * 64 + cp / 64 % 64) * 64 + cp % 64 == cp
    ensures groups == 3 ==>
      ((cp / 64 / 64 / 64 * 64 + cp / 64 / 64 % 64) * 64 + cp / 64 % 64) * 64 + cp % 64 == cp
  {
    var q0 := cp / 64;
    var q1 := q0 / 64;
    var q2 := q1 / 64;
    assert cp == q0 * 64 + cp % 64;
    assert q0 == q1 * 64 + q0 % 64;
    assert q1 == q2 * 64 + q1 % 64;
  }

  /** An unreserved character decodes to itself. */
  lemma DecodeUnreservedHead(c: char, tail: string, t: string)
    requires Unreserved(c) && Decode(tail) == Some(t)
    ensures Decode(EncodeChar(c) + tail) == Some([c] + t)
  {
    var e := EncodeChar(c) + tail;
    assert e[0] == c && e[1..] == tail;
  }

  /** An escaped character decodes to itself, and decoding goes on after its escapes. */
  lemma DecodeEscapedHead(c: char, tail: string, t: string)
    requires !Unreserved(c) && Decode(tail) == Some(t)
    ensures Decode(EncodeChar(c) + tail) == Some([c] + t)
  {
    var e := EncodeChar(c) + tail;
    DecodeOneEncoded(c, tail);
    var n := 3 * |Utf8(c)|;
    assert e[0] == '%';
    assert e[n..] == tail;
  }

  /** Decode undoes Encode. */
  lemma {:induction false} DecodeEncode(s: string)
    ensures Decode(Encode(s)) == Some(s)
    decreases |s|
  {
    if s != [] {
      var c := s[0];
      var tail := Encode(s[1..]);
      assert Encode(s) == EncodeChar(c) + tail;
      DecodeEncode(s[1..]);
      if Unreserved(c) {
        DecodeUnreservedHead(c, tail, s[1..]);
      } else {
        DecodeEscapedHead(c, tail, s[1..]);
      }
      assert [s[0]] + s[1..] == s;
    }
  }

  /** Distinct strings have distinct encodings. */
  lemma EncodeInjective(a: string, b: string)
    requires Encode(a) == Encode(b)
    ensures a == b
  {
    DecodeEncode(a);
    DecodeEncode(b);
  }
}
