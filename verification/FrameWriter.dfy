/**
  The server's Writer: one mutex around each frame, none around a chunked message.
 */
module FrameWriter {
  import opened Bytes
  import opened Msgpack
  import opened MsgpackWriter
  import opened Frames
  import opened Reassembly

  /** One writeRaw, and the goroutine that made it. */
  datatype Entry = Entry(owner: nat, frame: WireFrame)

  /** The frames that goroutine me wrote, in order. */
  function Own(entries: seq<Entry>, me: nat): seq<WireFrame> {
    if entries == [] then []
    else Own(entries[..|entries| - 1], me) +
         if entries[|entries| - 1].owner == me then [entries[|entries| - 1].frame] else []
  }

  function Owned(ws: seq<WireFrame>, owner: nat): (es: seq<Entry>)
    ensures |es| == |ws| && forall i :: 0 <= i < |es| ==> es[i] == Entry(owner, ws[i])
  {
    seq(|ws|, i requires 0 <= i < |ws| => Entry(owner, ws[i]))
  }

  function AllFrames(entries: seq<Entry>): (ws: seq<WireFrame>)
    ensures |ws| == |entries|
  {
    seq(|entries|, i requires 0 <= i < |entries| => entries[i].frame)
  }

  lemma {:induction false} OwnConcat(a: seq<Entry>, b: seq<Entry>, me: nat)
    ensures Own(a + b, me) == Own(a, me) + Own(b, me)
  {
    if b == [] {
      assert a + b == a;
    } else {
      OwnConcat(a, b[..|b| - 1], me);
      assert (a + b)[..|a + b| - 1] == a + b[..|b| - 1];
    }
  }

  lemma {:induction false} OwnOfOthers(b: seq<Entry>, me: nat)
    requires forall e :: e in b ==> e.owner != me
    ensures Own(b, me) == []
  {
    if b != [] {
      OwnOfOthers(b[..|b| - 1], me);
    }
  }

  lemma {:induction false} WireConcat(a: seq<WireFrame>, b: seq<WireFrame>)
    ensures Wire(a + b) == Wire(a) + Wire(b)
  {
    WireSplit(a + b, |a|);
    assert (a + b)[..|a|] == a && (a + b)[|a|..] == b;
  }

  lemma WireSnoc(entries: seq<Entry>, e: Entry)
    ensures Wire(AllFrames(entries + [e])) == Wire(AllFrames(entries)) + Encode(e.frame)
  {
    hide Encode;
    assert AllFrames(entries + [e]) == AllFrames(entries) + [e.frame];
    WireConcat(AllFrames(entries), [e.frame]);
    assert Wire([e.frame]) == Encode(e.frame) + Wire([]);
  }

  lemma OwnSnoc(entries: seq<Entry>, frame: WireFrame, me: nat)
    ensures Own(entries + [Entry(me, frame)], me) == Own(entries, me) + [frame]
  {
    assert (entries + [Entry(me, frame)])[..|entries|] == entries;
  }

  /** What marshalMsgpack may return for frame k of m; Go orders map keys at random. */
  ghost predicate Marshals(encode: nat -> bytes, m: Message) {
    forall k: nat :: k < FrameCount(m) ==> MarshalsPart(encode(k), m, k)
  }

  ghost predicate MarshalsPart(meta: bytes, m: Message, k: nat) {
    && |meta| < LIMIT32 && Decode(meta).Got? && Decode(meta).used <= |meta|
    && var v := Decode(meta).value;
       if k == 0 then v == m.meta
       else Get(v, ID_KEY) == Id(m) && Get(v, CHUNKED_KEY) == Nil
            && Get(v, T_KEY) == if k < |Pieces(m.payload)| then CHUNK_CONTINUE else CHUNK_END
  }

  /** The frames of writeChunked: the pieces, then an empty end frame. */
  function Cut(payload: bytes, encode: nat -> bytes): (ws: seq<WireFrame>)
    ensures |ws| == |Pieces(payload)| + 1
  {
    seq(|Pieces(payload)| + 1, k requires 0 <= k < |Pieces(payload)| + 1 =>
      WireFrame(encode(k), if k < |Pieces(payload)| then Pieces(payload)[k] else []))
  }

  class Writer {
    /** How many bytes the connection takes before it breaks. */
    const capacity: nat
    var stream: bytes
    /** How many more bytes the connection takes before every write fails. */
    var room: nat
    ghost var entries: seq<Entry>
    /** The beginning of a frame that the broken connection cut short. */
    ghost var torn: bytes

    ghost predicate Valid()
      reads this
    {
      stream == Wire(AllFrames(entries)) + torn && (torn != [] ==> room == 0) && |stream| + room == capacity
    }

    constructor (capacity: nat)
      ensures Valid() && entries == [] && torn == [] && this.capacity == capacity
    {
      this.capacity := capacity;
      stream, entries, torn, room := [], [], [], capacity;
    }

    /** One Write on the connection. */
    method WriteBytes(data: bytes) returns (ok: bool)
      modifies this`stream, this`room
      ensures ok <==> |data| <= old(room)
      ensures room == if ok then old(room) - |data| else 0
      ensures stream == old(stream) + if ok then data else data[..old(room)]
    {
      ok := |data| <= room;
      var n := if ok then |data| else room;
      assert ok ==> data[..n] == data;
      stream, room := stream + data[..n], room - n;
    }

    /**
      Header, metadata and payload go out under the mutex, so no other frame gets in between; if the
      connection breaks, the stream ends in the beginning of one frame.
     */
    method WriteRaw(metaBuf: bytes, payload: bytes, ghost owner: nat) returns (ok: bool)
      requires Valid()
      modifies this
      ensures Valid() && (ok <==> |Encode(WireFrame(metaBuf, payload))| <= old(room))
      ensures entries == old(entries) + if ok then [Entry(owner, WireFrame(metaBuf, payload))] else []
      ensures if ok then room == old(room) - |Encode(WireFrame(metaBuf, payload))| else room == 0
      ensures torn == if ok || old(torn) != [] then old(torn) else Encode(WireFrame(metaBuf, payload))[..old(room)]
    {
      hide BigEndian, Wire, AllFrames;
      ghost var before, n := stream, room;
      ghost var frame := Encode(WireFrame(metaBuf, payload));
      var header := BigEndian(|metaBuf|, 4) + BigEndian(|payload|, 4);
      assert frame == header + metaBuf + payload;
      ok := WriteBytes(header);
      if ok {
        ok := WriteBytes(metaBuf);
        if ok && |payload| > 0 {
          ok := WriteBytes(payload);
        }
      }
      InThree(before, header, metaBuf, payload, n);
      if ok {
        assert stream == before + frame;
        WireSnoc(entries, Entry(owner, WireFrame(metaBuf, payload)));
        entries := entries + [Entry(owner, WireFrame(metaBuf, payload))];
        assert Wire(AllFrames(old(entries))) + [] == Wire(AllFrames(old(entries)));
        assert Wire(AllFrames(entries)) + [] == Wire(AllFrames(entries));
      } else {
        assert stream == before + frame[..n];
        assert torn == [] ==> Wire(AllFrames(entries)) + torn + frame[..n] == Wire(AllFrames(entries)) + frame[..n];
        assert torn != [] ==> before + frame[..n] == before;
        torn := if torn == [] then frame[..n] else torn;
      }
    }

    /** Other goroutines hold the mutex for any number of frames, until one of their writes fails. */
    method Interleave(others: seq<WireFrame>, ghost owner: nat)
      requires Valid()
      modifies this
      ensures Valid() && room <= old(room)
      ensures entries <= old(entries) + Owned(others, owner) && old(entries) <= entries
      ensures entries == old(entries) + Owned(others, owner) || room == 0
    {
      hide Wire, AllFrames, Encode;
      var i, ok := 0, true;
      while i < |others| && ok
        invariant 0 <= i <= |others| && Valid() && room <= old(room)
        invariant if ok then entries == old(entries) + Owned(others, owner)[..i]
                  else i > 0 && room == 0 && entries == old(entries) + Owned(others, owner)[..i - 1]
      {
        ok := WriteRaw(others[i].meta, others[i].payload, owner);
        i := i + 1;
      }
    }

    /**
      writeChunked. Whatever the other goroutines (all of them called other) write between the
      frames, the frames of this call are the pieces in order and the end frame, up to the one where
      the connection breaks; the call succeeds exactly when all of them are out.
     */
    method WriteChunked(payload: bytes, encode: nat -> bytes, between: nat -> seq<WireFrame>,
                        ghost me: nat, ghost other: nat)
      returns (ok: bool, ghost written: nat)
      requires Valid() && me != other
      modifies this
      ensures Valid() && old(entries) <= entries && written <= |Cut(payload, encode)|
      ensures Own(entries, me) == Own(old(entries), me) + Cut(payload, encode)[..written]
      ensures (ok <==> written == |Cut(payload, encode)|) && (!ok ==> room == 0)
    {
      hide Own, Pieces, Cut, Wire, AllFrames, Encode;
      var first := payload;
      if |first| > CHUNK_SIZE {
        first := payload[..CHUNK_SIZE];
      }
      ghost var cut := Cut(payload, encode);
      FirstPieces(payload);
      CutNext(payload, encode, 0);
      OwnSnoc(entries, WireFrame(encode(0), first), me);
      ok := WriteRaw(encode(0), first, me);
      if !ok {
        assert old(entries) + [] == old(entries) && Own(old(entries), me) + [] == Own(old(entries), me);
        return false, 0;
      }
      var rest, k: nat := payload[|first|..], 1;

      while |rest| > 0
        invariant Valid() && old(entries) <= entries
        invariant 1 <= k <= |Pieces(payload)|
        invariant if rest == [] then k == |Pieces(payload)| else Pieces(payload)[k..] == Pieces(rest)
        invariant Own(entries, me) == Own(old(entries), me) + cut[..k]
        decreases |rest|
      {
        var chunk := rest;
        if |chunk| > CHUNK_SIZE {
          chunk := rest[..CHUNK_SIZE];
        }
        NextPieces(payload, rest, k);
        CutNext(payload, encode, k);
        ok := WriteNext(chunk, k, encode, between, me, other);
        if !ok {
          return false, k;
        }
        rest, k := rest[|chunk|..], k + 1;
      }
      CutNext(payload, encode, k);
      ok := WriteNext([], k, encode, between, me, other);
      written := if ok then k + 1 else k;
    }

    method WriteNext(chunk: bytes, k: nat, encode: nat -> bytes, between: nat -> seq<WireFrame>,
                     ghost me: nat, ghost other: nat)
      returns (ok: bool)
      requires Valid() && me != other
      modifies this
      ensures Valid() && old(entries) <= entries && (!ok ==> room == 0)
      ensures Own(entries, me) == Own(old(entries), me) + if ok then [WireFrame(encode(k), chunk)] else []
      ensures ok ==>
        entries == old(entries) + Owned(between(k), other) + [Entry(me, WireFrame(encode(k), chunk))]
    {
      hide Wire, AllFrames, Encode;
      Interleave(between(k), other);
      ghost var added := entries[|old(entries)|..];
      assert entries == old(entries) + added;
      OwnOfOthers(added, me);
      OwnConcat(old(entries), added, me);
      OwnSnoc(entries, WireFrame(encode(k), chunk), me);
      assert entries + [] == entries && Own(old(entries), me) + [] == Own(old(entries), me);
      ok := WriteRaw(encode(k), chunk, me);
    }

    /**
      The tail of NotifyWithPayload and sendResult: the frames written for m are, in order, the first
      frames of m and nothing else; all of them if and only if the call succeeds. A message that
      cannot be marshalled writes nothing.
     */
    method Send(m: Message, marshalled: bool, encode: nat -> bytes, between: nat -> seq<WireFrame>,
                ghost me: nat, ghost other: nat)
      returns (ok: bool)
      requires Valid() && me != other && Own(entries, me) == []
      requires Sendable(m) && (marshalled ==> Marshals(encode, m))
      modifies this
      ensures Valid() && old(entries) <= entries
      ensures var ws := Own(entries, me);
              && |ws| <= FrameCount(m) && (ok <==> |ws| == FrameCount(m)) && (!marshalled ==> ws == [])
              && (ok || !marshalled || |stream| == capacity)
              && forall k: nat :: k < |ws| ==> WellFormed(ws[k]) && IsPart(m, k, FrameOf(ws[k]))
    {
      hide Wire, AllFrames, Encode, Own, Cut, Marshals, WellFormed, FrameOf, IsPart, FrameCount, Sendable;
      if !marshalled {
        return false;
      }
      if |m.payload| > CHUNK_SIZE {
        ghost var written;
        ok, written := WriteChunked(m.payload, encode, between, me, other);
        CutIsParts(m, encode);
        assert [] + Cut(m.payload, encode)[..written] == Cut(m.payload, encode)[..written];
      } else {
        OwnSnoc(entries, WireFrame(encode(0), m.payload), me);
        assert entries + [] == entries;
        ok := WriteRaw(encode(0), m.payload, me);
        WholeIsPart(m, encode);
      }
    }
  }

  /** Three writes in a row put out a prefix of the three pieces. */
  lemma InThree(a: bytes, b: bytes, c: bytes, d: bytes, n: nat)
    ensures a + b + c + d == a + (b + c + d) && a + b + c + [] == a + b + c
    ensures n < |b| ==> a + b[..n] == a + (b + c + d)[..n]
    ensures |b| <= n < |b| + |c| ==> a + b + c[..n - |b|] == a + (b + c + d)[..n]
    ensures |b| + |c| <= n < |b| + |c| + |d| ==> a + b + c + d[..n - |b| - |c|] == a + (b + c + d)[..n]
  {
  }

  lemma CutNext(payload: bytes, encode: nat -> bytes, k: nat)
    requires k <= |Pieces(payload)|
    ensures var cut, n := Cut(payload, encode), |Pieces(payload)|;
            && cut[..k + 1] == cut[..k] + [WireFrame(encode(k), if k < n then Pieces(payload)[k] else [])]
            && cut[..0] == [] && (k == n ==> cut[..k + 1] == cut)
  {
    hide Pieces;
  }

  lemma FirstPieces(payload: bytes)
    ensures if |payload| <= CHUNK_SIZE then Pieces(payload) == [payload]
            else Pieces(payload)[0] == payload[..CHUNK_SIZE] && Pieces(payload)[1..] == Pieces(payload[CHUNK_SIZE..])
  {
  }

  lemma NextPieces(payload: bytes, rest: bytes, k: nat)
    requires rest != [] && k <= |Pieces(payload)| && Pieces(payload)[k..] == Pieces(rest)
    ensures k < |Pieces(payload)|
    ensures if |rest| <= CHUNK_SIZE then k + 1 == |Pieces(payload)| && Pieces(payload)[k] == rest
            else Pieces(payload)[k] == rest[..CHUNK_SIZE] && Pieces(payload)[k + 1..] == Pieces(rest[CHUNK_SIZE..])
  {
    hide Pieces;
    FirstPieces(rest);
    assert Pieces(payload)[k] == Pieces(payload)[k..][0];
    assert Pieces(payload)[k + 1..] == Pieces(payload)[k..][1..];
  }

  lemma WholeIsPart(m: Message, encode: nat -> bytes)
    requires !Big(m) && Marshals(encode, m)
    ensures var w := WireFrame(encode(0), m.payload);
            FrameCount(m) == 1 && WellFormed(w) && IsPart(m, 0, FrameOf(w))
  {
    hide Decode, Get;
    assert MarshalsPart(encode(0), m, 0);
  }

  lemma CutIsParts(m: Message, encode: nat -> bytes)
    requires Sendable(m) && Big(m) && Marshals(encode, m)
    ensures var ws := Cut(m.payload, encode);
            |ws| == FrameCount(m) && forall k: nat :: k < |ws| ==> WellFormed(ws[k]) && IsPart(m, k, FrameOf(ws[k]))
  {
    hide Decode, Get;
    PieceCount(m.payload);
    forall k: nat | k <= |Pieces(m.payload)|
      ensures WellFormed(Cut(m.payload, encode)[k]) && IsPart(m, k, FrameOf(Cut(m.payload, encode)[k]))
    {
      assert MarshalsPart(encode(k), m, k);
    }
  }
}
