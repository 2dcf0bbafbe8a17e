/**
  Frames on the wire: an 8-byte header with two big-endian lengths, the metadata and the payload.
 */
module Frames {
  import opened Bytes
  import opened Msgpack
  import opened MsgpackReader
  import opened MsgpackWriter
  import opened Options

  const HEADER_SIZE := 8

  /** A frame as bytes; meta holds the encoded metadata. */
  datatype WireFrame = WireFrame(meta: bytes, payload: bytes)

  /** A frame as the client dispatches it; no payload is nil, not the empty string. */
  datatype Frame = Frame(meta: Value, payload: Option<bytes>)

  datatype Parsed = Incomplete | Malformed | Complete(frame: Frame, length: nat)

  function PayloadOf(payload: bytes): Option<bytes> {
    if payload == [] then None else Some(payload)
  }

  function Encode(w: WireFrame): (s: bytes)
    ensures |s| == HEADER_SIZE + |w.meta| + |w.payload|
  {
    BigEndian(|w.meta|, 4) + BigEndian(|w.payload|, 4) + w.meta + w.payload
  }

  function Wire(ws: seq<WireFrame>): bytes {
    if ws == [] then [] else Encode(ws[0]) + Wire(ws[1..])
  }

  /** Lengths fit the header, and the metadata bytes start with a whole value. */
  predicate WellFormed(w: WireFrame) {
    && |w.meta| < LIMIT32 && |w.payload| < LIMIT32
    && Decode(w.meta).Got? && Decode(w.meta).used <= |w.meta|
  }

  predicate AllWellFormed(ws: seq<WireFrame>) {
    forall i :: 0 <= i < |ws| ==> WellFormed(ws[i])
  }

  function FrameOf(w: WireFrame): Frame
    requires WellFormed(w)
  {
    Frame(Decode(w.meta).value, PayloadOf(w.payload))
  }

  function FramesOf(ws: seq<WireFrame>): (fs: seq<Frame>)
    requires AllWellFormed(ws)
    ensures |fs| == |ws|
    ensures forall i :: 0 <= i < |ws| ==> fs[i] == FrameOf(ws[i])
  {
    seq(|ws|, i requires 0 <= i < |ws| => FrameOf(ws[i]))
  }

  /**
    The head of the parse loop: the first frame of the buffer. The metadata reader sees the whole
    rest of the buffer and is not told the metadata's length.
   */
  function NextFrame(b: bytes): (p: Parsed)
    ensures p.Complete? ==> HEADER_SIZE <= p.length <= |b|
  {
    if |b| < HEADER_SIZE then Incomplete else
    var metaLen, payloadLen := Unsigned(b[..4]), Unsigned(b[4..8]);
    var frameLen := HEADER_SIZE + metaLen + payloadLen;
    if |b| < frameLen then Incomplete else
    var meta := Decode(b[8..]);
    if meta.Fail? then Malformed
    else Complete(Frame(meta.value, PayloadOf(b[8 + metaLen..frameLen])), frameLen)
  }

  /** All frames that parsing b without interruption dispatches. */
  function FramesIn(b: bytes): seq<Frame> {
    match NextFrame(b)
    case Complete(frame, length) => [frame] + FramesIn(b[length..])
    case _ => []
  }

  lemma HeaderLengths(w: WireFrame, b: bytes)
    requires |w.meta| < LIMIT32 && |w.payload| < LIMIT32
    requires 8 <= |b| && b[..8] == Encode(w)[..8]
    ensures Unsigned(b[..4]) == |w.meta| && Unsigned(b[4..8]) == |w.payload|
  {
    PowValues();
    UnsignedInRange(|w.meta|, 4);
    UnsignedInRange(|w.payload|, 4);
    assert b[..4] == b[..8][..4] == BigEndian(|w.meta|, 4);
    assert b[4..8] == b[..8][4..8] == BigEndian(|w.payload|, 4);
  }

  /** A written frame, followed by anything, parses as that frame and ends at its last byte. */
  lemma NextOfEncode(w: WireFrame, rest: bytes)
    requires WellFormed(w)
    ensures NextFrame(Encode(w) + rest) == Complete(FrameOf(w), |Encode(w)|)
  {
    hide Decode, ReadHead, BigEndian, Unsigned;
    var b := Encode(w) + rest;
    HeaderLengths(w, b);
    assert b[8..] == w.meta + (w.payload + rest);
    DecodeExtends(w.meta, w.payload + rest);
    assert b[8 + |w.meta|..8 + |w.meta| + |w.payload|] == w.payload;
  }

  /** A whole frame whose metadata the reader rejects is an error, not a frame to wait for. */
  lemma NextOfInvalid(w: WireFrame, rest: bytes)
    requires |w.meta| < LIMIT32 && |w.payload| < LIMIT32 && Decode(w.meta + (w.payload + rest)).Fail?
    ensures NextFrame(Encode(w) + rest) == Malformed
  {
    hide Decode, ReadHead, BigEndian, Unsigned;
    var b := Encode(w) + rest;
    HeaderLengths(w, b);
    assert b[8..] == w.meta + (w.payload + rest);
  }

  /** A frame that has not arrived in full is waited for, not dispatched. */
  lemma NextOfPartial(w: WireFrame, b: bytes)
    requires WellFormed(w) && |b| < |Encode(w)| && b <= Encode(w)
    ensures NextFrame(b) == Incomplete
  {
    if 8 <= |b| {
      assert b[..8] == Encode(w)[..8];
      HeaderLengths(w, b);
    }
  }

  /** What the parse loop sees when the bytes so far are the beginning of well-formed frames. */
  lemma NextOfPrefix(ws: seq<WireFrame>, b: bytes)
    requires AllWellFormed(ws) && b <= Wire(ws)
    ensures NextFrame(b) == Incomplete || (ws != [] && NextFrame(b) == Complete(FrameOf(ws[0]), |Encode(ws[0])|))
    ensures NextFrame(b).Complete? ==> b[NextFrame(b).length..] <= Wire(ws[1..])
  {
    hide NextFrame, Encode, FrameOf, WellFormed;
    if ws == [] {
      EmptyIncomplete();
    } else {
      var e := Encode(ws[0]);
      if |e| <= |b| {
        assert b[..|e|] == Wire(ws)[..|e|] == e;
        assert b == e + b[|e|..];
        NextOfEncode(ws[0], b[|e|..]);
        assert Wire(ws)[|e|..] == Wire(ws[1..]);
      } else {
        assert b == Wire(ws)[..|b|] == e[..|b|];
        NextOfPartial(ws[0], b);
      }
    }
  }

  lemma EmptyIncomplete()
    ensures NextFrame([]) == Incomplete
  {
  }

  lemma {:induction false} WireSplit(ws: seq<WireFrame>, i: nat)
    requires i <= |ws|
    ensures Wire(ws) == Wire(ws[..i]) + Wire(ws[i..])
  {
    if i > 0 {
      WireSplit(ws[1..], i - 1);
      assert ws[1..][..i - 1] == ws[..i][1..];
      assert ws[1..][i - 1..] == ws[i..];
    } else {
      assert ws[0..] == ws;
    }
  }

  lemma WireTake(ws: seq<WireFrame>, i: nat)
    requires i < |ws|
    ensures Wire(ws[..i + 1]) == Wire(ws[..i]) + Encode(ws[i])
  {
    hide Encode;
    WireSplit(ws[..i + 1], i);
    assert ws[..i + 1][..i] == ws[..i] && ws[..i + 1][i..] == [ws[i]];
    assert Wire([ws[i]]) == Encode(ws[i]) + Wire([]);
  }

  /** The parse loop's situation: the first i frames are gone, and some of the rest has arrived. */
  lemma NextInBuffer(ws: seq<WireFrame>, i: nat, arrived: nat)
    requires AllWellFormed(ws) && i <= |ws| && |Wire(ws[..i])| <= arrived <= |Wire(ws)|
    ensures var next := NextFrame(Wire(ws)[|Wire(ws[..i])|..arrived]);
            next == Incomplete ||
            (i < |ws| && next == Complete(FrameOf(ws[i]), |Encode(ws[i])|)
             && |Wire(ws[..i + 1])| == |Wire(ws[..i])| + |Encode(ws[i])| <= arrived)
  {
    hide NextFrame, Encode, WellFormed, FrameOf;
    var b := Wire(ws)[|Wire(ws[..i])|..arrived];
    WireSplit(ws, i);
    assert b <= Wire(ws[i..]);
    NextOfPrefix(ws[i..], b);
    if i < |ws| {
      WireTake(ws, i);
    }
  }

  lemma FramesInCons(w: WireFrame, rest: bytes)
    requires WellFormed(w)
    ensures FramesIn(Encode(w) + rest) == [FrameOf(w)] + FramesIn(rest)
  {
    hide NextFrame, Encode;
    NextOfEncode(w, rest);
    assert (Encode(w) + rest)[|Encode(w)|..] == rest;
  }

  /** The frames a whole stream holds are the frames that were written. */
  lemma {:induction false} FramesInWire(ws: seq<WireFrame>)
    requires AllWellFormed(ws)
    ensures FramesIn(Wire(ws)) == FramesOf(ws)
  {
    hide NextFrame, Encode;
    if ws == [] {
      EmptyIncomplete();
    } else {
      FramesInCons(ws[0], Wire(ws[1..]));
      FramesInWire(ws[1..]);
    }
  }

  /**
    Arrival does not matter: with the first i frames dispatched and the rest of the bytes received
    so far in the buffer, the dispatched frames followed by those in the buffer are the frames of
    all the bytes received.
   */
  lemma {:induction false} DispatchedThenBuffered(ws: seq<WireFrame>, i: nat, received: bytes)
    requires AllWellFormed(ws) && i <= |ws| && received <= Wire(ws) && |Wire(ws[..i])| <= |received|
    ensures FramesIn(received) == FramesOf(ws[..i]) + FramesIn(received[|Wire(ws[..i])|..])
  {
    hide NextFrame, Encode, FramesIn, WellFormed, FrameOf;
    if i == 0 {
      assert received[0..] == received;
    } else {
      var rest := received[|Encode(ws[0])|..];
      Unroll(ws, i, received);
      FramesInCons(ws[0], rest);
      DispatchedThenBuffered(ws[1..], i - 1, rest);
      assert FramesOf(ws[..i]) == [FrameOf(ws[0])] + FramesOf(ws[1..][..i - 1]);
    }
  }

  /** Taking the first frame off a stream and off what was received of it. */
  lemma Unroll(ws: seq<WireFrame>, i: nat, received: bytes)
    requires 0 < i <= |ws| && received <= Wire(ws) && |Wire(ws[..i])| <= |received|
    ensures var e := Encode(ws[0]);
            && |e| <= |received|
            && received == e + received[|e|..] && received[|e|..] <= Wire(ws[1..])
            && |Wire(ws[..i])| == |e| + |Wire(ws[1..][..i - 1])|
            && received[|e|..][|Wire(ws[1..][..i - 1])|..] == received[|Wire(ws[..i])|..]
  {
    hide Encode;
    var e := Encode(ws[0]);
    assert ws[..i][0] == ws[0] && ws[..i][1..] == ws[1..][..i - 1];
    assert received[..|e|] == Wire(ws)[..|e|] == e;
    assert Wire(ws)[|e|..] == Wire(ws[1..]);
  }
}
