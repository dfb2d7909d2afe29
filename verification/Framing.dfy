/** Length-prefixed frames over a stream socket: an eight-byte big-endian length
    followed by the body.  One `send` or `recv` may move any non-empty part of
    what is asked, so both directions are loops; the order of bytes is all that
    the socket promises. */
module Framing {
  import opened Bytes

  const PREFIX: nat := 8
  const MAX_SEND: nat := 0x7fff_ffff_ffff_ffff

  datatype Outcome =
    | Whole(bytes: seq<byte>)
    | TimedOut
    | Closed
    | Refused(length: nat)   // out-of-range length: the body is not read

  function Framed(frame: seq<byte>): (s: seq<byte>)
    requires |frame| <= MAX_SEND
    ensures |s| == PREFIX + |frame|
  {
    BigEndian(|frame|, PREFIX) + frame
  }

  predicate InBounds(length: nat, maximum: nat) {
    2 <= length <= maximum
  }

  /** What a receiver that is never timed out gets from the bytes still to come. */
  function Expected(ahead: seq<byte>, maximum: nat): Outcome {
    if |ahead| < PREFIX then Closed
    else
      var length := FromBigEndian(ahead[..PREFIX]);
      if !InBounds(length, maximum) then Refused(length)
      else if |ahead| < PREFIX + length then Closed
      else Whole(ahead[PREFIX..PREFIX + length])
  }

  /** The bytes a receiver has not touched once it has that outcome. */
  function Rest(ahead: seq<byte>, maximum: nat): (rest: seq<byte>)
    ensures Expected(ahead, maximum).Whole? ==> |rest| < |ahead|
  {
    match Expected(ahead, maximum)
    case Whole(bytes) => ahead[PREFIX + |bytes|..]
    case Refused(_) => ahead[PREFIX..]
    case _ => []
  }

  lemma Regroup(s: seq<byte>, i: nat, n: nat)
    requires i + n <= |s|
    ensures s[..i] + s[i..][..n] == s[..i + n]
    ensures s[i..][n..] == s[i + n..]
  {
  }

  /** One end of a connected socket.  `ahead` is everything the peer will ever
      deliver and `sent` everything handed to the peer. */
  class Channel {
    var ahead: seq<byte>
    ghost var sent: seq<byte>

    constructor (incoming: seq<byte>)
      ensures ahead == incoming && sent == []
    {
      ahead, sent := incoming, [];
    }

    /** socket.recv_into: any non-empty part, nothing only when the peer has closed. */
    method ReceiveInto(data: array<byte>, offset: nat) returns (count: nat, late: bool)
      requires offset < data.Length
      modifies this`ahead, data
      ensures late ==> count == 0 && ahead == old(ahead)
      ensures count <= |old(ahead)| && offset + count <= data.Length
      ensures !late && count == 0 ==> old(ahead) == []
      ensures ahead == old(ahead)[count..]
      ensures data[..offset] == old(data[..offset])
      ensures data[offset..offset + count] == old(ahead)[..count]
    {
      count, late := 0, false;
      if * {
        late := true;
      } else if ahead != [] {
        count :| 1 <= count <= |ahead| && offset + count <= data.Length
          by { assert 1 <= |ahead| && offset + 1 <= data.Length; }
        var i := 0;
        while i < count
          modifies data
          invariant i <= count
          invariant data[..offset] == old(data[..offset])
          invariant data[offset..offset + i] == ahead[..i]
        {
          data[offset + i] := ahead[i];
          i := i + 1;
        }
        ahead := ahead[count..];
      }
    }

    /** socket.send: any non-empty part of what is left, zero when the peer is gone. */
    method SendSome(data: seq<byte>, offset: nat) returns (count: nat, late: bool)
      requires offset < |data|
      modifies this`sent
      ensures late ==> count == 0
      ensures offset + count <= |data|
      ensures sent == old(sent) + data[offset..offset + count]
    {
      count, late := 0, false;
      if * {
        late := true;
      } else if * {
        count :| 1 <= count && offset + count <= |data|
          by { assert offset + 1 <= |data|; }
        sent := sent + data[offset..offset + count];
      }
    }

    /** _socket_recv_exact. */
    method ReceiveExact(size: nat) returns (r: Outcome)
      modifies this`ahead
      ensures !r.Refused?
      ensures 0 <= |old(ahead)| - |ahead| <= size && ahead == old(ahead)[|old(ahead)| - |ahead|..]
      ensures r.Whole? ==> size <= |old(ahead)| && r.bytes == old(ahead)[..size] && ahead == old(ahead)[size..]
      ensures r.Closed? ==> |old(ahead)| < size && ahead == []
    {
      var data := new byte[size](_ => 0);
      var offset := 0;
      while offset < size
        invariant offset <= size <= data.Length == size && offset <= |old(ahead)|
        invariant ahead == old(ahead)[offset..]
        invariant data[..offset] == old(ahead)[..offset]
      {
        var count, late := ReceiveInto(data, offset);
        if late { return TimedOut; }
        if count == 0 { return Closed; }
        assert data[..offset + count] == data[..offset] + data[offset..offset + count];
        Regroup(old(ahead), offset, count);
        offset := offset + count;
      }
      assert data[..] == data[..size];
      r := Whole(data[..]);
    }

    /** _socket_recv_frame. */
    method ReceiveFrame(maximum: nat) returns (r: Outcome)
      modifies this`ahead
      ensures r.TimedOut? || r == Expected(old(ahead), maximum)
      ensures !r.TimedOut? ==> ahead == Rest(old(ahead), maximum)
    {
      var prefix := ReceiveExact(PREFIX);
      if !prefix.Whole? { return prefix; }
      var length := FromBigEndian(prefix.bytes);
      if length < 2 || length > maximum { return Refused(length); }
      r := ReceiveExact(length);
    }

    /** _socket_send_frame; a frame that did not go out whole left a proper prefix. */
    method SendFrame(frame: seq<byte>) returns (r: Outcome)
      modifies this`sent
      ensures |frame| > MAX_SEND ==> r == Refused(|frame|) && sent == old(sent)
      ensures |frame| <= MAX_SEND ==> !r.Refused?
      ensures r.Whole? ==> |frame| <= MAX_SEND && sent == old(sent) + Framed(frame)
      ensures r.TimedOut? || r.Closed? ==>
                |frame| <= MAX_SEND && exists n :: 0 <= n < |Framed(frame)| && sent == old(sent) + Framed(frame)[..n]
    {
      if |frame| > MAX_SEND { return Refused(|frame|); }
      var data := BigEndian(|frame|, PREFIX) + frame;
      assert data == Framed(frame);
      var offset := 0;
      while offset < |data|
        invariant offset <= |data|
        invariant sent == old(sent) + data[..offset]
      {
        var count, late := SendSome(data, offset);
        assert data[..offset + count] == data[..offset] + data[offset..offset + count];
        if late { return TimedOut; }
        if count == 0 { return Closed; }
        offset := offset + count;
      }
      r := Whole(frame);
    }
  }

  /** Everything several frames put on the wire, and everything a receiver that
      keeps reading takes off it. */
  function Wire(frames: seq<seq<byte>>): seq<byte>
    requires forall f | f in frames :: |f| <= MAX_SEND
  {
    if frames == [] then [] else Framed(frames[0]) + Wire(frames[1..])
  }

  function Received(ahead: seq<byte>, maximum: nat): seq<seq<byte>>
    decreases |ahead|
  {
    match Expected(ahead, maximum)
    case Whole(bytes) => [bytes] + Received(Rest(ahead, maximum), maximum)
    case _ => []
  }

  /** How the reading ends. */
  function Ending(ahead: seq<byte>, maximum: nat): Outcome
    decreases |ahead|
  {
    match Expected(ahead, maximum)
    case Whole(bytes) => Ending(Rest(ahead, maximum), maximum)
    case other => other
  }

  predicate Sendable(frames: seq<seq<byte>>, maximum: nat) {
    forall f | f in frames :: InBounds(|f|, maximum) && |f| <= MAX_SEND
  }

  lemma Slices(prefix: seq<byte>, frame: seq<byte>, tail: seq<byte>)
    ensures var all := prefix + frame + tail;
            && all[..|prefix|] == prefix
            && all[|prefix|..] == frame + tail
            && all[|prefix|..|prefix| + |frame|] == frame
            && all[|prefix| + |frame|..] == tail
  {
  }

  lemma PrefixReads(length: nat)
    requires length <= MAX_SEND
    ensures FromBigEndian(BigEndian(length, PREFIX)) == length
  {
    EightBytes();
    BigEndianReads(length, PREFIX);
  }

  lemma OneFrame(frame: seq<byte>, tail: seq<byte>, maximum: nat)
    requires |frame| <= MAX_SEND
    ensures InBounds(|frame|, maximum) ==> Expected(Framed(frame) + tail, maximum) == Whole(frame)
    ensures InBounds(|frame|, maximum) ==> Rest(Framed(frame) + tail, maximum) == tail
    ensures !InBounds(|frame|, maximum) ==> Expected(Framed(frame) + tail, maximum) == Refused(|frame|)
    ensures !InBounds(|frame|, maximum) ==> Rest(Framed(frame) + tail, maximum) == frame + tail
  {
    var prefix := BigEndian(|frame|, PREFIX);
    PrefixReads(|frame|);
    Slices(prefix, frame, tail);
  }

  lemma FrameByFrame(frame: seq<byte>, tail: seq<byte>, maximum: nat)
    requires InBounds(|frame|, maximum) && |frame| <= MAX_SEND
    ensures Received(Framed(frame) + tail, maximum) == [frame] + Received(tail, maximum)
    ensures Ending(Framed(frame) + tail, maximum) == Ending(tail, maximum)
  {
    OneFrame(frame, tail, maximum);
  }

  lemma FrameThenMore(frame: seq<byte>, wire: seq<byte>, tail: seq<byte>, maximum: nat)
    requires InBounds(|frame|, maximum) && |frame| <= MAX_SEND
    ensures Received(Framed(frame) + wire + tail, maximum) == [frame] + Received(wire + tail, maximum)
    ensures Ending(Framed(frame) + wire + tail, maximum) == Ending(wire + tail, maximum)
  {
    var first := Framed(frame);
    assert first + wire + tail == first + (wire + tail);
    FrameByFrame(frame, wire + tail, maximum);
  }

  lemma Prepend<T>(first: T, middle: seq<T>, last: seq<T>)
    ensures [first] + (middle + last) == [first] + middle + last
  {
  }

  /** In-bound frames arrive as the same frames in the same order, and the bytes
      that follow them are untouched. */
  lemma {:induction false} FramesArrive(frames: seq<seq<byte>>, tail: seq<byte>, maximum: nat)
    requires Sendable(frames, maximum)
    ensures Received(Wire(frames) + tail, maximum) == frames + Received(tail, maximum)
    ensures Ending(Wire(frames) + tail, maximum) == Ending(tail, maximum)
    decreases |frames|
  {
    if frames == [] {
      assert Wire(frames) + tail == tail;
    } else {
      var frame, later := frames[0], frames[1..];
      FramesArrive(later, tail, maximum);
      FrameThenMore(frame, Wire(later), tail, maximum);
      Prepend(frame, later, Received(tail, maximum));
      assert frames == [frame] + later;
    }
  }

  lemma CutFrame(last: seq<byte>, n: nat, maximum: nat)
    requires InBounds(|last|, maximum) && |last| <= MAX_SEND
    requires n < |Framed(last)|
    ensures Expected(Framed(last)[..n], maximum) == Closed
  {
    var prefix := BigEndian(|last|, PREFIX);
    PrefixReads(|last|);
    if n >= PREFIX {
      assert (prefix + last)[..n][..PREFIX] == prefix;
    }
  }

  lemma Nothing(ahead: seq<byte>, maximum: nat)
    requires Expected(ahead, maximum) == Closed
    ensures Received(ahead, maximum) == []
    ensures Ending(ahead, maximum) == Closed
  {
  }

  /** A stream cut anywhere inside the last frame yields the whole frames before
      it and then an end of stream: never a shortened or altered frame. */
  lemma CutStream(frames: seq<seq<byte>>, last: seq<byte>, n: nat, maximum: nat)
    requires Sendable(frames, maximum) && InBounds(|last|, maximum) && |last| <= MAX_SEND
    requires n < |Framed(last)|
    ensures Received(Wire(frames) + Framed(last)[..n], maximum) == frames
    ensures Ending(Wire(frames) + Framed(last)[..n], maximum) == Closed
  {
    var cut := Framed(last)[..n];
    FramesArrive(frames, cut, maximum);
    CutFrame(last, n, maximum);
    Nothing(cut, maximum);
    assert frames + [] == frames;
  }

  /** The wire form is unambiguous. */
  lemma WireIsInjective(a: seq<seq<byte>>, b: seq<seq<byte>>, maximum: nat)
    requires Sendable(a, maximum) && Sendable(b, maximum)
    requires Wire(a) == Wire(b)
    ensures a == b
  {
    FramesArrive(a, [], maximum);
    FramesArrive(b, [], maximum);
    assert Wire(a) + [] == Wire(a) && Wire(b) + [] == Wire(b);
    assert a + Received([], maximum) == a && b + Received([], maximum) == b;
  }
}
