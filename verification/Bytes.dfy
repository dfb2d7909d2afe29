/** Bytes and fixed-width integers on the wire (Python's struct module). */
module Bytes {
  type byte = b: int | 0 <= b < 256

  /** 256 to the power `width`. */
  function Span(width: nat): (n: nat)
    ensures n > 0
  {
    if width == 0 then 1 else 256 * Span(width - 1)
  }

  /** Most significant byte first, as struct's "!" formats. */
  function BigEndian(n: nat, width: nat): (s: seq<byte>)
    ensures |s| == width
  {
    if width == 0 then [] else BigEndian(n / 256, width - 1) + [n % 256]
  }

  function FromBigEndian(s: seq<byte>): (n: nat)
    ensures n < Span(|s|)
  {
    if s == [] then 0 else FromBigEndian(s[..|s| - 1]) * 256 + s[|s| - 1]
  }

  /** Least significant byte first, as numpy's "<" types. */
  function LittleEndian(n: nat, width: nat): (s: seq<byte>)
    ensures |s| == width
  {
    if width == 0 then [] else [n % 256] + LittleEndian(n / 256, width - 1)
  }

  function FromLittleEndian(s: seq<byte>): (n: nat)
    ensures n < Span(|s|)
  {
    if s == [] then 0 else s[0] + FromLittleEndian(s[1..]) * 256
  }

  lemma {:induction false} BigEndianReads(n: nat, width: nat)
    requires n < Span(width)
    ensures FromBigEndian(BigEndian(n, width)) == n
  {
    if width > 0 {
      BigEndianReads(n / 256, width - 1);
      assert BigEndian(n, width)[..width - 1] == BigEndian(n / 256, width - 1);
    }
  }

  lemma AppendByte(n: nat, last: byte, width: nat)
    ensures BigEndian(n * 256 + last, width + 1) == BigEndian(n, width) + [last]
  {
    assert (n * 256 + last) / 256 == n && (n * 256 + last) % 256 == last;
  }

  lemma {:induction false} BigEndianWrites(s: seq<byte>)
    ensures BigEndian(FromBigEndian(s), |s|) == s
  {
    if s != [] {
      var front, last := s[..|s| - 1], s[|s| - 1];
      BigEndianWrites(front);
      AppendByte(FromBigEndian(front), last, |front|);
      assert s == front + [last];
    }
  }

  lemma {:induction false} LittleEndianReads(n: nat, width: nat)
    requires n < Span(width)
    ensures FromLittleEndian(LittleEndian(n, width)) == n
  {
    if width > 0 {
      LittleEndianReads(n / 256, width - 1);
      assert LittleEndian(n, width)[1..] == LittleEndian(n / 256, width - 1);
    }
  }

  lemma EightBytes()
    ensures Span(8) == 0x1_0000_0000_0000_0000
  {
    assert Span(4) == 256 * Span(3) == 256 * (256 * Span(2)) == 0x1_0000_0000;
    assert Span(8) == 256 * Span(7) == 256 * (256 * Span(6));
    assert Span(6) == 256 * Span(5) == 256 * (256 * Span(4));
  }
}
