/** Length-prefixed frames: the writer of `encode_raw_length` and the reader of
    `read_message`. */
module Framing {
  import opened Wrappers
  import opened MachineInts

  /** A frame: the body's length as a big-endian `u32`, truncated, and the body. */
  function Framed(body: Bytes): (frame: Bytes)
    ensures |frame| == 4 + |body|
  {
    BigEndian(|body| % TWO_POW_32) + body
  }

  method EncodeRawLength(body: Bytes) returns (packet: Bytes)
    ensures packet == Framed(body)
  {
    packet := [];
    packet := packet + BigEndian(|body| % TWO_POW_32);
    packet := packet + body;
  }

  /** Reads one frame off a byte stream; `None` when the stream ends first. */
  function ReadFrame(stream: Bytes): (r: Option<(Bytes, Bytes)>)
    ensures r.Some? ==> |r.value.1| < |stream|
  {
    if |stream| < 4 then None
    else
      var size := FromBigEndian(stream[..4]);
      if |stream| - 4 < size then None
      else Some((stream[4..4 + size], stream[4 + size..]))
  }

  /** Every frame of a byte stream that holds nothing else. */
  function ReadAll(stream: Bytes): (r: Option<seq<Bytes>>)
    decreases |stream|
  {
    if stream == [] then Some([])
    else
      match ReadFrame(stream)
      case None => None
      case Some((body, rest)) =>
        match ReadAll(rest)
        case None => None
        case Some(bodies) => Some([body] + bodies)
  }

  function WriteAll(bodies: seq<Bytes>): Bytes {
    if bodies == [] then [] else Framed(bodies[0]) + WriteAll(bodies[1..])
  }

  /** A frame reads back as its body, and leaves what follows it, exactly when
      the length fits the prefix. */
  lemma ReadFramedIff(body: Bytes, rest: Bytes)
    ensures ReadFrame(Framed(body) + rest) == Some((body, rest)) <==> |body| < TWO_POW_32
  {
    var stream := Framed(body) + rest;
    var size := |body| % TWO_POW_32;
    assert stream[..4] == BigEndian(size);
    BigEndianInverse(size);
    assert |stream| - 4 >= size;
    if |body| < TWO_POW_32 {
      assert stream[4..4 + size] == body;
      assert stream[4 + size..] == rest;
    } else {
      assert |stream[4..4 + size]| != |body|;
    }
  }

  lemma {:induction false} ReadAllWritten(bodies: seq<Bytes>)
    requires forall i :: 0 <= i < |bodies| ==> |bodies[i]| < TWO_POW_32
    ensures ReadAll(WriteAll(bodies)) == Some(bodies)
  {
    if bodies == [] {
    } else {
      ReadFramedIff(bodies[0], WriteAll(bodies[1..]));
      ReadAllWritten(bodies[1..]);
      assert bodies == [bodies[0]] + bodies[1..];
    }
  }

  /** Whatever reads as a frame was written as one. */
  lemma FramedRead(stream: Bytes)
    requires ReadFrame(stream).Some?
    ensures var (body, rest) := ReadFrame(stream).value;
            |body| < TWO_POW_32 && Framed(body) + rest == stream
  {
    var (body, rest) := ReadFrame(stream).value;
    FromBigEndianInverse(stream[..4]);
    assert Framed(body) == stream[..4] + body;
  }

  /** Whatever reads as a list of frames was written from that list. */
  lemma {:induction false} WriteAllRead(stream: Bytes)
    requires ReadAll(stream).Some?
    ensures WriteAll(ReadAll(stream).value) == stream
    ensures forall i :: 0 <= i < |ReadAll(stream).value| ==> |ReadAll(stream).value[i]| < TWO_POW_32
    decreases |stream|
  {
    if stream == [] {
    } else {
      FramedRead(stream);
      var (body, rest) := ReadFrame(stream).value;
      WriteAllRead(rest);
      var bodies := ReadAll(rest).value;
      assert ReadAll(stream).value == [body] + bodies;
      assert ([body] + bodies)[1..] == bodies;
    }
  }

  /** Framing is uniquely decodable. */
  lemma FramesUniquelyDecodable(a: seq<Bytes>, b: seq<Bytes>)
    requires forall i :: 0 <= i < |a| ==> |a[i]| < TWO_POW_32
    requires forall i :: 0 <= i < |b| ==> |b[i]| < TWO_POW_32
    requires WriteAll(a) == WriteAll(b)
    ensures a == b
  {
    ReadAllWritten(a);
    ReadAllWritten(b);
  }
}
