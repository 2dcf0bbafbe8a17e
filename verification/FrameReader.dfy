/**
  The client's frames on their way to the server: the client's writer, and the server's ReadFrame,
  which takes the metadata's length from the header and gives up at the end of the stream.
 */
module FrameReader {
  import opened Bytes
  import opened Msgpack
  import opened MsgpackReader
  import opened MsgpackWriter
  import opened MsgpackRoundTrip
  import opened Frames
  import opened Reassembly
  import opened Options

  datatype ReadError = Eof | Truncated | BadMeta

  datatype ReadResult = Read(frame: WireFrame) | Err(error: ReadError)

  /** io.ReadFull on a stream that ends after b. */
  function ReadFull(b: bytes, n: nat): Option<bytes> {
    if n <= |b| then Some(b[..n]) else None
  }

  /** ReadFrame at the head of b; valid says which metadata msgpack.Unmarshal accepts. */
  function ReadFrameOp(b: bytes, valid: bytes -> bool): (r: ReadResult)
    ensures r.Read? ==> HEADER_SIZE <= |Encode(r.frame)| <= |b|
  {
    if b == [] then Err(Eof) else
    if |b| < HEADER_SIZE then Err(Truncated) else
    var metaLen, payloadLen := Unsigned(b[..4]), Unsigned(b[4..8]);
    if |b| < HEADER_SIZE + metaLen then Err(Truncated) else
    var meta := b[8..8 + metaLen];
    if !valid(meta) then Err(BadMeta) else
    if |b| < HEADER_SIZE + metaLen + payloadLen then Err(Truncated)
    else Read(WireFrame(meta, b[8 + metaLen..8 + metaLen + payloadLen]))
  }

  /** The frames that Serve reads from b, and the error that ends it. */
  function Serve(b: bytes, valid: bytes -> bool): (seq<WireFrame>, ReadError) {
    match ReadFrameOp(b, valid)
    case Err(e) => ([], e)
    case Read(frame) =>
      var (more, e) := Serve(b[|Encode(frame)|..], valid);
      ([frame] + more, e)
  }

  predicate Sound(w: WireFrame, valid: bytes -> bool) {
    |w.meta| < LIMIT32 && |w.payload| < LIMIT32 && valid(w.meta)
  }

  lemma ReadOfEncode(w: WireFrame, rest: bytes, valid: bytes -> bool)
    requires Sound(w, valid)
    ensures ReadFrameOp(Encode(w) + rest, valid) == Read(w)
  {
    hide Unsigned, BigEndian;
    var b := Encode(w) + rest;
    HeaderLengths(w, b);
    assert b[8..8 + |w.meta|] == w.meta;
    assert b[8 + |w.meta|..8 + |w.meta| + |w.payload|] == w.payload;
  }

  /** Metadata that cannot be unmarshalled is told apart from a truncated frame. */
  lemma ReadOfInvalid(w: WireFrame, rest: bytes, valid: bytes -> bool)
    requires |w.meta| < LIMIT32 && |w.payload| < LIMIT32 && !valid(w.meta)
    ensures ReadFrameOp(Encode(w) + rest, valid) == Err(BadMeta)
  {
    hide Unsigned, BigEndian;
    var b := Encode(w) + rest;
    HeaderLengths(w, b);
    assert b[8..8 + |w.meta|] == w.meta;
  }

  lemma ReadOfPartial(w: WireFrame, b: bytes, valid: bytes -> bool)
    requires Sound(w, valid) && |b| < |Encode(w)| && b <= Encode(w)
    ensures ReadFrameOp(b, valid) == Err(if b == [] then Eof else Truncated)
  {
    hide Unsigned, BigEndian;
    if |b| >= HEADER_SIZE {
      HeaderLengths(w, b);
      if |b| >= HEADER_SIZE + |w.meta| {
        assert b[8..8 + |w.meta|] == Encode(w)[8..8 + |w.meta|] == w.meta;
      }
    }
  }

  /**
    Wherever the client's stream ends, the server has read exactly its whole frames, in order, with
    their bytes; it sees a clean end of file exactly at a frame boundary.
   */
  lemma {:induction false} ServesWholeFrames(ws: seq<WireFrame>, i: nat, part: bytes, valid: bytes -> bool)
    requires (forall w :: w in ws ==> Sound(w, valid)) && i <= |ws|
    requires if i == |ws| then part == [] else |part| < |Encode(ws[i])| && part <= Encode(ws[i])
    ensures Serve(Wire(ws[..i]) + part, valid) == (ws[..i], if part == [] then Eof else Truncated)
    decreases i
  {
    hide Encode, ReadFrameOp;
    if i == 0 {
      assert Wire(ws[..0]) + part == part;
      if ws == [] {
        EmptyIsEof(valid);
      } else {
        ReadOfPartial(ws[0], part, valid);
      }
      assert ws[..0] == [];
    } else {
      var rest := Wire(ws[1..][..i - 1]) + part;
      assert ws[..i][1..] == ws[1..][..i - 1];
      assert Wire(ws[..i]) + part == Encode(ws[0]) + rest;
      ReadOfEncode(ws[0], rest, valid);
      ServesWholeFrames(ws[1..], i - 1, part, valid);
      assert (Encode(ws[0]) + rest)[|Encode(ws[0])|..] == rest;
      assert ws[..i] == [ws[0]] + ws[1..][..i - 1];
    }
  }

  lemma EmptyIsEof(valid: bytes -> bool)
    ensures ReadFrameOp([], valid) == Err(Eof)
  {
  }

  class Reader {
    /** What has not been read. */
    var rest: bytes

    constructor (stream: bytes)
      ensures rest == stream
    {
      rest := stream;
    }

    method Full(n: nat) returns (data: Option<bytes>)
      modifies this
      ensures data == ReadFull(old(rest), n)
      ensures if data.Some? then old(rest) == data.value + rest else rest == []
    {
      if |rest| < n {
        rest := [];
        return None;
      }
      data, rest := Some(rest[..n]), rest[n..];
    }

    method ReadFrame(valid: bytes -> bool) returns (r: ReadResult)
      modifies this
      ensures r == ReadFrameOp(old(rest), valid)
      ensures r.Read? ==> rest == old(rest)[|Encode(r.frame)|..]
    {
      hide Unsigned, Encode;
      ghost var b := rest;
      if rest == [] {
        return Err(Eof);
      }
      var header := Full(HEADER_SIZE);
      if header == None {
        return Err(Truncated);
      }
      HeaderParts(b);
      var metaLen, payloadLen := Unsigned(header.value[..4]), Unsigned(header.value[4..8]);
      var meta := Full(metaLen);
      if meta == None {
        return Err(Truncated);
      }
      NextPart(b, 8, metaLen);
      if !valid(meta.value) {
        return Err(BadMeta);
      }
      var payload: Option<bytes> := Some([]);
      NextPart(b, 8 + metaLen, if payloadLen <= |rest| then payloadLen else 0);
      if payloadLen > 0 {
        payload := Full(payloadLen);
        if payload == None {
          return Err(Truncated);
        }
      }
      return Read(WireFrame(meta.value, payload.value));
    }
  }

  lemma HeaderParts(b: bytes)
    requires |b| >= HEADER_SIZE
    ensures b[..8][..4] == b[..4] && b[..8][4..8] == b[4..8]
  {
  }

  lemma NextPart(b: bytes, from: nat, n: nat)
    requires from + n <= |b|
    ensures b[from..][..n] == b[from..from + n] && b[from..][n..] == b[from + n..]
  {
  }

  // ---------------------------------------------------------------- the client's writer

  /** The frame of flitrpc--write-frame: the caller's metadata with :t and :id put in. */
  function ClientFrame(msgType: int, id: int, meta: seq<Pair>, payload: Option<bytes>): Option<WireFrame> {
    var written := Write(Map(Put(Put(meta, T_KEY, Int(msgType)), ID_KEY, Int(id))));
    if written.None? then None
    else Some(WireFrame(written.value, if payload.Some? then payload.value else []))
  }

  /** The caller's metadata survives the wire, and leaves room for the two keys. */
  ghost predicate Carries(msgType: int, id: int, meta: seq<Pair>) {
    && Supported(Map(meta)) && DistinctKeys(meta) && |meta| + 2 < LIMIT32
    && Supported(Int(msgType)) && Supported(Int(id))
  }

  predicate AnyMeta(meta: bytes) {
    true
  }

  /**
    A reader of b gets one frame, which fills b: the payload is the caller's, or empty without one, and
    the metadata has the type, the id, and under every other key what the caller put there.
   */
  ghost predicate IsReadAs(b: bytes, msgType: int, id: int, meta: seq<Pair>, payload: Option<bytes>) {
    var r := ReadFrameOp(b, AnyMeta);
    && r.Read? && |b| == HEADER_SIZE + |r.frame.meta| + |r.frame.payload|
    && r.frame.payload == (if payload.Some? then payload.value else [])
    && HasMeta(r.frame.meta, msgType, id, meta)
  }

  ghost predicate HasMeta(b: bytes, msgType: int, id: int, meta: seq<Pair>) {
    var m := Decode(b);
    && m.Got? && m.used == |b|
    && Get(m.value, T_KEY) == Int(msgType) && Get(m.value, ID_KEY) == Int(id)
    && forall key :: key != T_KEY && key != ID_KEY ==> Get(m.value, key) == Norm(GetPair(meta, key))
  }

  lemma ClientFrameIsRead(msgType: int, id: int, meta: seq<Pair>, payload: Option<bytes>)
    requires Carries(msgType, id, meta)
    ensures var frame := ClientFrame(msgType, id, meta, payload);
            frame.Some? && HasMeta(frame.value.meta, msgType, id, meta) &&
            (|Encode(frame.value)| < LIMIT32 ==> IsReadAs(Encode(frame.value), msgType, id, meta, payload))
  {
    hide Supported, Decode, Write, Norm, Put, BigEndian, ReadFrameOp, GetPair;
    ClientMetaSupported(msgType, id, meta);
    var typed := Put(meta, T_KEY, Int(msgType));
    var pairs := Put(typed, ID_KEY, Int(id));
    RoundTrip(Map(pairs), []);
    var frame := ClientFrame(msgType, id, meta, payload).value;
    assert frame.meta + [] == frame.meta;
    forall key
      ensures Get(Norm(Map(pairs)), key) ==
              if key == ID_KEY then Int(id) else if key == T_KEY then Int(msgType) else Norm(GetPair(meta, key))
    {
      GetOfPut(meta, T_KEY, Int(msgType), key);
      GetOfPut(typed, ID_KEY, Int(id), key);
      GetOfNormMap(pairs, key);
      NormOfInt(id);
      NormOfInt(msgType);
    }
    if |Encode(frame)| < LIMIT32 {
      ReadOfEncode(frame, [], AnyMeta);
      assert Encode(frame) + [] == Encode(frame);
    }
  }

  lemma NormOfInt(n: int)
    ensures Norm(Int(n)) == Int(n)
  {
  }

  lemma ClientMetaSupported(msgType: int, id: int, meta: seq<Pair>)
    requires Carries(msgType, id, meta)
    ensures var pairs := Put(Put(meta, T_KEY, Int(msgType)), ID_KEY, Int(id));
            Supported(Map(pairs)) && DistinctKeys(pairs)
  {
    var typed := Put(meta, T_KEY, Int(msgType));
    PutSupported(meta, T_KEY, Int(msgType));
    PutSupported(typed, ID_KEY, Int(id));
    PutKeys(meta, T_KEY, Int(msgType));
    PutKeys(typed, ID_KEY, Int(id));
    FirstKey(meta, T_KEY, Int(msgType));
    FirstKey(typed, ID_KEY, Int(id));
  }

  lemma FirstKey(ps: seq<Pair>, key: bytes, value: Value)
    ensures var r := Put(ps, key, value);
            r != [] && r[0].key == if ps == [] then key else ps[0].key
  {
  }

  lemma {:induction false} PutSupported(ps: seq<Pair>, key: bytes, value: Value)
    requires PairsSupported(ps) && Supported(value) && |key| < LIMIT32
    ensures PairsSupported(Put(ps, key, value))
  {
    if ps != [] && ps[0].key != key {
      PutSupported(ps[1..], key, value);
    }
  }

  lemma GetOfNormMap(pairs: seq<Pair>, key: bytes)
    requires DistinctKeys(pairs)
    ensures Get(Norm(Map(pairs)), key) == Norm(GetPair(pairs, key))
  {
    PutAllDistinct(NormPairs(pairs));
    GetOfNorm(pairs, key);
  }

  lemma {:induction false} GetOfNorm(ps: seq<Pair>, key: bytes)
    ensures GetPair(NormPairs(ps), key) == Norm(GetPair(ps, key))
  {
    if ps != [] {
      GetOfNorm(ps[1..], key);
    }
  }

  /** (logand (ash N SHIFT) #xff) for a negative shift by whole bytes. */
  function ByteOf(n: nat, divisor: nat): byte
    requires divisor > 0
  {
    n / divisor % 256
  }

  function FourBytes(n: nat): bytes {
    [ByteOf(n, 0x100_0000), ByteOf(n, 0x1_0000), ByteOf(n, 0x100), ByteOf(n, 1)]
  }

  lemma FourBytesAreBigEndian(n: nat)
    ensures FourBytes(n) == BigEndian(n, 4)
  {
    assert BigEndian(n, 4) == BigEndian(n / 256, 3) + [n % 256];
    assert BigEndian(n / 256, 3) == BigEndian(n / 256 / 256, 2) + [n / 256 % 256];
    assert BigEndian(n / 256 / 256, 2) == BigEndian(n / 256 / 256 / 256, 1) + [n / 256 / 256 % 256];
    assert BigEndian(n / 256 / 256 / 256, 1) == [n / 256 / 256 / 256 % 256];
  }

  class ClientWriter {
    var sent: bytes

    constructor ()
      ensures sent == []
    {
      sent := [];
    }

    /** flitrpc--write-frame; a value that cannot be written signals an error before anything is sent. */
    method WriteFrame(msgType: int, id: int, meta: seq<Pair>, payload: Option<bytes>) returns (ok: bool)
      modifies this
      ensures var frame := ClientFrame(msgType, id, meta, payload);
              ok == frame.Some? && sent == old(sent) + if frame.Some? then Encode(frame.value) else []
      ensures Carries(msgType, id, meta) ==>
        ok && (|sent| - |old(sent)| < LIMIT32 ==> IsReadAs(sent[|old(sent)|..], msgType, id, meta, payload))
    {
      hide Write, Put, BigEndian, ByteOf, Carries, IsReadAs, HasMeta;
      if Carries(msgType, id, meta) {
        ClientFrameIsRead(msgType, id, meta, payload);
      }
      var written := Write(Map(Put(Put(meta, T_KEY, Int(msgType)), ID_KEY, Int(id))));
      if written == None {
        return false;
      }
      var metaBytes := written.value;
      var n, m := |metaBytes|, if payload.Some? then |payload.value| else 0;
      FourBytesAreBigEndian(n);
      FourBytesAreBigEndian(m);
      var header := FourBytes(n) + FourBytes(m);
      hide FourBytes, BigEndian;
      sent := sent + header;
      sent := sent + metaBytes;
      if payload.Some? {
        sent := sent + payload.value;
      }
      SentInTurn(old(sent), header, metaBytes, if payload.Some? then payload.value else []);
      ok := true;
    }
  }

  lemma SentInTurn(a: bytes, b: bytes, c: bytes, d: bytes)
    ensures a + b + c + d == a + (b + c + d)
    ensures a + b + c + [] == a + b + c
  {
  }
}
