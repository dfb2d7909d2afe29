/** Python text and its UTF-8 form (RFC 3629).  A `str` is a sequence of code
    points and may hold lone surrogates, which strict encoding refuses. */
module Utf8 {
  import opened Bytes
  import opened Options

  type Code = c: int | 0 <= c < 0x11_0000
  type Text = seq<Code>

  predicate Surrogate(c: Code) {
    0xD800 <= c < 0xE000
  }

  predicate Encodable(t: Text) {
    forall c | c in t :: !Surrogate(c)
  }

  function EncodeCode(c: Code): (b: seq<byte>)
    ensures 1 <= |b| <= 4
    ensures forall x | x in b :: if c < 0x80 then x == c else x >= 0x80
  {
    if c < 0x80 then [c]
    else if c < 0x800 then [0xC0 + c / 64, 0x80 + c % 64]
    else if c < 0x1_0000 then [0xE0 + c / 4096, 0x80 + c / 64 % 64, 0x80 + c % 64]
    else [0xF0 + c / 262144, 0x80 + c / 4096 % 64, 0x80 + c / 64 % 64, 0x80 + c % 64]
  }

  /** str.encode("utf-8"), without the refusal. */
  function EncodeText(t: Text): seq<byte> {
    if t == [] then [] else EncodeCode(t[0]) + EncodeText(t[1..])
  }

  predicate Continues(b: byte) {
    0x80 <= b < 0xC0
  }

  /** Six more bits from a continuation byte. */
  function Extend(high: int, low: int): int {
    high * 64 + (low - 0x80)
  }

  /** The code point that starts `s`: no overlong form, nothing past 0x10FFFF.
      Surrogates pass, as json.loads asks for. */
  function DecodeCode(s: seq<byte>): (r: Option<Code>)
    ensures r.Some? ==> Width(r.value) <= |s|
  {
    if |s| >= 1 && s[0] < 0x80 then Some(s[0])
    else if |s| >= 2 && 0xC2 <= s[0] < 0xE0 && Continues(s[1]) then
      InRange(Extend(s[0] as int - 0xC0, s[1]), 0x80)
    else if |s| >= 3 && 0xE0 <= s[0] < 0xF0 && Continues(s[1]) && Continues(s[2]) then
      InRange(Extend(Extend(s[0] as int - 0xE0, s[1]), s[2]), 0x800)
    else if |s| >= 4 && 0xF0 <= s[0] < 0xF5 && Continues(s[1]) && Continues(s[2]) && Continues(s[3]) then
      InRange(Extend(Extend(Extend(s[0] as int - 0xF0, s[1]), s[2]), s[3]), 0x1_0000)
    else None
  }

  function InRange(c: int, least: nat): Option<Code> {
    if least <= c < 0x11_0000 then Some(c) else None
  }

  function Width(c: Code): (n: nat)
    ensures n == |EncodeCode(c)|
  {
    if c < 0x80 then 1 else if c < 0x800 then 2 else if c < 0x1_0000 then 3 else 4
  }

  function DecodeText(s: seq<byte>): Option<Text>
    decreases |s|
  {
    if s == [] then Some([])
    else
      match DecodeCode(s)
      case None => None
      case Some(c) =>
        match DecodeText(s[Width(c)..])
        case None => None
        case Some(t) => Some([c] + t)
  }

  lemma CodeRoundTrip(c: Code, rest: seq<byte>)
    ensures DecodeCode(EncodeCode(c) + rest) == Some(c)
    ensures (EncodeCode(c) + rest)[Width(c)..] == rest
  {
    if c >= 0x1_0000 {
      assert c / 4096 == c / 64 / 64 && c / 262144 == c / 64 / 64 / 64;
    } else if c >= 0x800 {
      assert c / 4096 == c / 64 / 64;
    }
  }

  lemma {:induction false} TextRoundTrip(t: Text)
    ensures DecodeText(EncodeText(t)) == Some(t)
  {
    if t != [] {
      var rest := EncodeText(t[1..]);
      CodeRoundTrip(t[0], rest);
      TextRoundTrip(t[1..]);
      assert t == [t[0]] + t[1..];
    }
  }

  /** A byte below 0x80 in the encoding is a character of the text. */
  lemma {:induction false} LowBytes(t: Text, b: byte)
    requires b in EncodeText(t) && b < 0x80
    ensures b in t
  {
    if b !in EncodeCode(t[0]) {
      LowBytes(t[1..], b);
    }
  }
}
