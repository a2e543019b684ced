/** `encodeURIComponent` and `decodeURIComponent`: section 19.2.6 of ECMA-262, on
    strings of Unicode scalar values; percent-encoding is section 2.1 of RFC 3986. */
module PercentEncoding {
  import opened Wrappers

  /** The characters that are not escaped. */
  predicate IsUnreserved(c: char) {
    'A' <= c <= 'Z' || 'a' <= c <= 'z' || '0' <= c <= '9' || c in "-_.!~*'()"
  }

  newtype Octet = x: int | 0 <= x < 256

  predicate IsScalar(v: int) {
    0 <= v < 0xD800 || 0xE000 <= v < 0x11_0000
  }

  /** UTF-8 */
  function Utf8(c: char): (octets: seq<Octet>)
    ensures 1 <= |octets| <= 4
  {
    var v := c as int;
    if v < 0x80 then [v as Octet]
    else if v < 0x800 then [(0xC0 + v / 64) as Octet, (0x80 + v % 64) as Octet]
    else if v < 0x1_0000 then [(0xE0 + v / 4096) as Octet, (0x80 + v / 64 % 64) as Octet, (0x80 + v % 64) as Octet]
    else [(0xF0 + v / 262144) as Octet, (0x80 + v / 4096 % 64) as Octet, (0x80 + v / 64 % 64) as Octet, (0x80 + v % 64) as Octet]
  }

  /** How many octets a first octet announces; 0 when it cannot be first. */
  function SequenceLength(first: Octet): (n: nat)
    ensures n <= 4
  {
    if first < 0x80 then 1
    else if first < 0xC0 then 0
    else if first < 0xE0 then 2
    else if first < 0xF0 then 3
    else if first < 0xF8 then 4
    else 0
  }

  predicate IsContinuation(o: Octet) {
    0x80 <= o < 0xC0
  }

  /** The character octets stand for, None for overlong forms, surrogates and values
      beyond the last code point. */
  function FromUtf8(octets: seq<Octet>): Option<char>
    requires octets != [] && |octets| == SequenceLength(octets[0])
  {
    if !(forall i | 1 <= i < |octets| :: IsContinuation(octets[i])) then None
    else
      var first := octets[0] as int;
      var v, least := match |octets|
        case 1 => first
        case 2 => (first - 0xC0) * 64 + Low(octets[1])
        case 3 => ((first - 0xE0) * 64 + Low(octets[1])) * 64 + Low(octets[2])
        case _ => (((first - 0xF0) * 64 + Low(octets[1])) * 64 + Low(octets[2])) * 64 + Low(octets[3]),
        match |octets| case 1 => 0 case 2 => 0x80 case 3 => 0x800 case _ => 0x1_0000;
      if v < least || !IsScalar(v) then None else Some(v as char)
  }

  function Low(o: Octet): int {
    o as int - 0x80
  }

  function HexDigit(n: int): char
    requires 0 <= n < 16
  {
    if n < 10 then '0' + n as char else 'A' + (n - 10) as char
  }

  function HexValue(c: char): Option<int> {
    if '0' <= c <= '9' then Some(c as int - '0' as int)
    else if 'A' <= c <= 'F' then Some(c as int - 'A' as int + 10)
    else if 'a' <= c <= 'f' then Some(c as int - 'a' as int + 10)
    else None
  }

  function Escape(o: Octet): (s: string)
    ensures |s| == 3
  {
    ['%', HexDigit(o as int / 16), HexDigit(o as int % 16)]
  }

  function EscapeAll(octets: seq<Octet>): (s: string)
    ensures |s| == 3 * |octets|
  {
    if octets == [] then "" else Escape(octets[0]) + EscapeAll(octets[1..])
  }

  function EncodeChar(c: char): (s: string)
    ensures s != ""
  {
    if IsUnreserved(c) then [c] else EscapeAll(Utf8(c))
  }

  function Encode(s: string): string {
    if s == "" then "" else EncodeChar(s[0]) + Encode(s[1..])
  }

  /** One `%XX`. */
  function Unescape(s: string): Option<Octet> {
    if |s| < 3 || s[0] != '%' then None
    else
      var high, low := HexValue(s[1]), HexValue(s[2]);
      if high.None? || low.None? then None else HexOctet(high.value, low.value)
  }

  function HexOctet(high: int, low: int): Option<Octet> {
    if 0 <= high < 16 && 0 <= low < 16 then Some((16 * high + low) as Octet) else None
  }

  /** `n` consecutive `%XX`. */
  function UnescapeAll(s: string, n: nat): (r: Option<seq<Octet>>)
    ensures r.Some? ==> |r.value| == n && 3 * n <= |s|
  {
    if n == 0 then Some([])
    else
      var o := Unescape(s);
      if o.None? then None
      else
        var rest := UnescapeAll(s[3..], n - 1);
        if rest.None? then None else Some([o.value] + rest.value)
  }

  /** The first character and how many characters of `s` stand for it; None is a URIError. */
  function DecodeChar(s: string): (r: Option<(char, nat)>)
    requires s != ""
    ensures r.Some? ==> 1 <= r.value.1 <= |s|
  {
    if s[0] != '%' then Some((s[0], 1))
    else
      var first := Unescape(s);
      if first.None? || SequenceLength(first.value) == 0 then None
      else
        var n := SequenceLength(first.value);
        var octets := UnescapeAll(s, n);
        if octets.None? || octets.value[0] != first.value then None
        else
          var c := FromUtf8(octets.value);
          if c.None? then None else Some((c.value, 3 * n))
  }

  function Decode(s: string): Option<string>
    decreases |s|
  {
    if s == "" then Some("")
    else
      var first := DecodeChar(s);
      if first.None? then None
      else
        var rest := Decode(s[first.value.1..]);
        if rest.None? then None else Some([first.value.0] + rest.value)
  }

  // ---------------------------------------------------------------- round trip

  lemma UnescapeEscape(o: Octet, rest: string)
    ensures Unescape(Escape(o) + rest) == Some(o)
  {
    var h := o as int;
    assert HexValue(HexDigit(h / 16)) == Some(h / 16) && HexValue(HexDigit(h % 16)) == Some(h % 16);
  }

  lemma {:induction false} UnescapeEscapeAll(octets: seq<Octet>, rest: string)
    ensures UnescapeAll(EscapeAll(octets) + rest, |octets|) == Some(octets)
  {
    hide Unescape, Escape;
    if octets != [] {
      var tail := EscapeAll(octets[1..]) + rest;
      assert EscapeAll(octets) + rest == Escape(octets[0]) + tail;
      UnescapeEscape(octets[0], tail);
      assert (Escape(octets[0]) + tail)[3..] == tail;
      UnescapeEscapeAll(octets[1..], rest);
      assert [octets[0]] + octets[1..] == octets;
    }
  }

  lemma Utf8RoundTrip(c: char)
    ensures |Utf8(c)| == SequenceLength(Utf8(c)[0]) && FromUtf8(Utf8(c)) == Some(c)
  {
    var v := c as int;
    if v < 0x80 {
    } else if v < 0x800 {
      TwoOctets(c);
    } else if v < 0x1_0000 {
      ThreeOctets(c);
    } else {
      FourOctets(c);
    }
  }

  lemma TwoOctets(c: char)
    requires 0x80 <= c as int < 0x800
    ensures |Utf8(c)| == SequenceLength(Utf8(c)[0]) && FromUtf8(Utf8(c)) == Some(c)
  {
  }

  lemma ThreeOctets(c: char)
    requires 0x800 <= c as int < 0x1_0000
    ensures |Utf8(c)| == SequenceLength(Utf8(c)[0]) && FromUtf8(Utf8(c)) == Some(c)
  {
    var v := c as int;
    assert v / 4096 * 4096 + v / 64 % 64 * 64 + v % 64 == v;
  }

  lemma FourOctets(c: char)
    requires 0x1_0000 <= c as int
    ensures |Utf8(c)| == SequenceLength(Utf8(c)[0]) && FromUtf8(Utf8(c)) == Some(c)
  {
    var v := c as int;
    assert v / 262144 * 262144 + v / 4096 % 64 * 4096 + v / 64 % 64 * 64 + v % 64 == v;
  }

  lemma DecodeEncodedChar(c: char, rest: string)
    ensures DecodeChar(EncodeChar(c) + rest) == Some((c, |EncodeChar(c)|))
  {
    hide Utf8, FromUtf8, Unescape, UnescapeAll, Escape, SequenceLength;
    if !IsUnreserved(c) {
      var octets := Utf8(c);
      Utf8RoundTrip(c);
      UnescapeEscapeAll(octets, rest);
      var tail := EscapeAll(octets[1..]) + rest;
      assert EscapeAll(octets) + rest == Escape(octets[0]) + tail;
      UnescapeEscape(octets[0], tail);
      EscapeStarts(octets[0]);
    }
  }

  lemma EscapeStarts(o: Octet)
    ensures Escape(o)[0] == '%'
  {
  }

  /** Every string is decoded to itself. */
  lemma {:induction false} DecodeEncode(s: string)
    ensures Decode(Encode(s)) == Some(s)
  {
    hide EncodeChar, DecodeChar;
    if s != "" {
      DecodeEncodedChar(s[0], Encode(s[1..]));
      var first := EncodeChar(s[0]);
      assert Encode(s)[|first|..] == Encode(s[1..]);
      DecodeEncode(s[1..]);
      assert [s[0]] + s[1..] == s;
    }
  }

  /** What is encoded uses only unreserved characters and `%`. */
  predicate IsEncoded(s: string) {
    forall i | 0 <= i < |s| :: IsUnreserved(s[i]) || s[i] == '%'
  }

  lemma {:induction false} EscapesAreEncoded(octets: seq<Octet>)
    ensures IsEncoded(EscapeAll(octets))
  {
    if octets != [] {
      EscapesAreEncoded(octets[1..]);
    }
  }

  lemma {:induction false} EncodeIsEncoded(s: string)
    ensures IsEncoded(Encode(s)) && (s != "" ==> Encode(s) != "")
  {
    if s != "" {
      EncodeIsEncoded(s[1..]);
      EscapesAreEncoded(Utf8(s[0]));
    }
  }

  lemma DecodedIsNonEmpty(s: string)
    ensures s != "" && Decode(s).Some? ==> Decode(s).value != ""
  {
  }
}
