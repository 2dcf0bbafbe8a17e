/**
  Chunked messages: how the server cuts a message into frames, how the client's chunk table puts
  frames together again, and why interleaving does not matter.
 */
module Reassembly {
  import opened Bytes
  import opened Msgpack
  import opened MsgpackReader
  import opened Frames
  import opened Options

  const CHUNK_SIZE := 256 * 1024

  const REQUEST := Int(1)
  const RESPONSE := Int(2)
  const NOTIFICATION := Int(3)
  const CHUNK_CONTINUE := Int(4)
  const CHUNK_END := Int(5)

  const T_KEY: bytes := [0x74]
  const ID_KEY: bytes := [0x69, 0x64]
  const CHUNKED_KEY: bytes := [0x63, 0x68, 0x75, 0x6e, 0x6b, 0x65, 0x64]

  // ---------------------------------------------------------------- the client's side

  /** A chunk table entry; parts hold the payload so far, most recent first. */
  datatype Chunk = Chunk(meta: Value, parts: seq<bytes>)

  /** The chunk table, and every message handed to its handler, oldest first. */
  datatype Client = Client(chunks: map<Value, Chunk>, log: seq<Frame>)

  datatype Step = Step(client: Client, failed: bool)

  /** Ids that an eql hash table can find again. */
  predicate Hashable(id: Value) {
    id.Int? || id.Float? || id.Nil? || id.True? || id.False?
  }

  /** The type of a frame. Its tag is compared by number, so a float will do; Nil stands for any other value. */
  function Kind(meta: Value): Value {
    match Get(meta, T_KEY)
    case Int(t) => Int(t)
    case Float(image) => Int(Whole(image))
    case _ => Nil
  }

  /** The type that a float64 equals, or 0. */
  function Whole(image: Image): int {
    if image[2..] != [0, 0, 0, 0, 0, 0] then 0
    else if image[..2] == [0x3f, 0xf0] then 1
    else if image[..2] == [0x40, 0x00] then 2
    else if image[..2] == [0x40, 0x08] then 3
    else if image[..2] == [0x40, 0x10] then 4
    else if image[..2] == [0x40, 0x14] then 5
    else 0
  }

  function Unchunked(meta: Value): Value {
    if meta.Map? then Map(Put(meta.pairs, CHUNKED_KEY, Nil)) else meta
  }

  /** (apply #'concat (nreverse PARTS)) */
  function Assemble(parts: seq<bytes>): bytes {
    if parts == [] then [] else Assemble(parts[1..]) + parts[0]
  }

  /** flitrpc--dispatch-frame up to the call of a handler, which the log records. */
  function Dispatch(c: Client, f: Frame): Step
    decreases |c.chunks|
  {
    var id := Get(f.meta, ID_KEY);
    if Get(f.meta, CHUNKED_KEY) != Nil then
      Step(Seed(c, id, f), false)
    else match Kind(f.meta)
      case Int(t) =>
        if t in {1, 2, 3} then Step(c.(log := c.log + [f]), false)
        else if t == 4 then
          if Hashable(id) && id in c.chunks then Step(Accumulate(c, id, f.payload), false) else Step(c, true)
        else if t == 5 && Hashable(id) && id in c.chunks then
          var entry := c.chunks[id];
          Dispatch(c.(chunks := c.chunks - {id}), Frame(entry.meta, Some(Assemble(entry.parts))))
        else Step(c, false)
      case _ => Step(c, true)
  }

  function Seed(c: Client, id: Value, f: Frame): Client {
    if Hashable(id)
    then c.(chunks := c.chunks[id := Chunk(Unchunked(f.meta), if f.payload.Some? then [f.payload.value] else [])])
    else c
  }

  function Accumulate(c: Client, id: Value, payload: Option<bytes>): Client
    requires id in c.chunks
  {
    if payload.None? then c
    else c.(chunks := c.chunks[id := c.chunks[id].(parts := [payload.value] + c.chunks[id].parts)])
  }

  /** The client after dispatching fs in order. A frame that fails is gone all the same. */
  function Replay(fs: seq<Frame>): Client {
    if fs == [] then Client(map[], [])
    else Dispatch(Replay(fs[..|fs| - 1]), fs[|fs| - 1]).client
  }

  /** No frame of fs signals an error when it is dispatched in its turn. */
  ghost predicate NeverFails(fs: seq<Frame>) {
    forall n :: 0 <= n < |fs| ==> !Dispatch(Replay(fs[..n]), fs[n]).failed
  }

  /**
    Frames that are no part of a message: without a number for a type, or a continuation for an id that
    is not in the table, they signal an error; an end for such an id, or another number, is passed over.
   */
  lemma StrayFrames(c: Client, f: Frame)
    requires Get(f.meta, CHUNKED_KEY) == Nil && Kind(f.meta) !in {REQUEST, RESPONSE, NOTIFICATION}
    requires Get(f.meta, ID_KEY) !in c.chunks
    ensures Dispatch(c, f) == Step(c, Kind(f.meta) == Nil || Kind(f.meta) == CHUNK_CONTINUE)
  {
  }

  /** A chunked message is found again by its continuation if and only if its id is a number, nil, t or false. */
  lemma ChunkIdsFound(c: Client, first: Frame, next: Frame)
    requires Get(first.meta, CHUNKED_KEY) != Nil && Get(next.meta, CHUNKED_KEY) == Nil
    requires Kind(next.meta) == CHUNK_CONTINUE && Get(next.meta, ID_KEY) == Get(first.meta, ID_KEY)
    ensures var id := Get(first.meta, ID_KEY);
            !Dispatch(Dispatch(c, first).client, next).failed <==> !(id.Str? || id.Bin? || id.Arr? || id.Map?)
  {
  }

  const TWO52 := 0x10_0000_0000_0000

  /** The fraction bits of a float64. */
  function Fraction(image: Image): nat {
    image[1] % 16 * 0x1_0000_0000_0000 + Unsigned(image[2..])
  }

  function Exponent(image: Image): nat {
    (image[0] as int) * 16 + image[1] / 16
  }

  /** A positive float64 from 1 up to 8 is t. */
  predicate Denotes(image: Image, t: nat) {
    match Exponent(image)
    case 1023 => TWO52 + Fraction(image) == t * TWO52
    case 1024 => 2 * (TWO52 + Fraction(image)) == t * TWO52
    case 1025 => 4 * (TWO52 + Fraction(image)) == t * TWO52
    case _ => false
  }

  /** A float is a type exactly if it is the type's number. */
  lemma WholeExactly(image: Image, t: nat)
    requires 1 <= t <= 5
    ensures Whole(image) == t <==> Denotes(image, t)
  {
    var low := image[2..];
    ZeroExactly(low);
    assert |low| == 6 && (low == [0, 0, 0, 0, 0, 0] <==> forall i :: 0 <= i < |low| ==> low[i] == 0);
    assert image[..2] == [image[0], image[1]];
    assert Pow256(6) == 0x1_0000_0000_0000 by { PowSix(); }
    hide Unsigned, Pow256;
  }

  lemma PowSix()
    ensures Pow256(6) == 0x1_0000_0000_0000
  {
    PowValues();
    assert Pow256(5) == 256 * Pow256(4) && Pow256(6) == 256 * Pow256(5);
  }

  lemma {:induction false} ZeroExactly(s: bytes)
    ensures Unsigned(s) == 0 <==> forall i :: 0 <= i < |s| ==> s[i] == 0
  {
    if s != [] {
      ZeroExactly(s[..|s| - 1]);
    }
  }

  /** Dispatching only ever adds to the log. */
  lemma {:induction false} DispatchAppends(c: Client, f: Frame)
    ensures c.log <= Dispatch(c, f).client.log
    decreases |c.chunks|
  {
    var id := Get(f.meta, ID_KEY);
    if Get(f.meta, CHUNKED_KEY) == Nil && Kind(f.meta) == CHUNK_END && Hashable(id) && id in c.chunks {
      var entry := c.chunks[id];
      DispatchAppends(c.(chunks := c.chunks - {id}), Frame(entry.meta, Some(Assemble(entry.parts))));
    }
  }

  lemma {:induction false} ReplayAppends(fs: seq<Frame>, n: nat)
    requires n <= |fs|
    ensures Replay(fs[..n]).log <= Replay(fs).log
    decreases |fs| - n
  {
    if n == |fs| {
      assert fs[..n] == fs;
    } else {
      ReplayAppends(fs, n + 1);
      assert fs[..n + 1][..n] == fs[..n];
      DispatchAppends(Replay(fs[..n]), fs[n]);
    }
  }

  // ---------------------------------------------------------------- the server's side

  /** One response, notification or server request, before it is cut into frames. */
  datatype Message = Message(meta: Value, payload: bytes)

  function Id(m: Message): Value {
    Get(m.meta, ID_KEY)
  }

  predicate Big(m: Message) {
    |m.payload| > CHUNK_SIZE
  }

  /** What NotifyWithPayload, sendResult, sendError and SendRequest put in the metadata. */
  predicate Sendable(m: Message) {
    && Get(m.meta, T_KEY) in {REQUEST, RESPONSE, NOTIFICATION}
    && Id(m).Int?
    && (Get(m.meta, CHUNKED_KEY) != Nil <==> Big(m))
  }

  /** What the client must hand to the handler for m. */
  function Delivery(m: Message): Frame {
    if Big(m) then Frame(Unchunked(m.meta), Some(m.payload)) else Frame(m.meta, PayloadOf(m.payload))
  }

  /** The payloads of the first and the continuation frames. */
  function Pieces(payload: bytes): (r: seq<bytes>)
    ensures |r| >= 1
  {
    if |payload| <= CHUNK_SIZE then [payload]
    else [payload[..CHUNK_SIZE]] + Pieces(payload[CHUNK_SIZE..])
  }

  function FrameCount(m: Message): (n: nat)
    ensures n >= 1
  {
    if Big(m) then |Pieces(m.payload)| + 1 else 1
  }

  /** f is frame number k of m. The continuation metadata may list its keys in any order. */
  predicate IsPart(m: Message, k: nat, f: Frame) {
    if !Big(m) then k == 0 && f == Frame(m.meta, PayloadOf(m.payload))
    else if k == 0 then f == Frame(m.meta, Some(Pieces(m.payload)[0]))
    else
      && Get(f.meta, ID_KEY) == Id(m)
      && Get(f.meta, CHUNKED_KEY) == Nil
      && k <= |Pieces(m.payload)|
      && if k < |Pieces(m.payload)|
         then Get(f.meta, T_KEY) == CHUNK_CONTINUE && f.payload == Some(Pieces(m.payload)[k])
         else Get(f.meta, T_KEY) == CHUNK_END && f.payload == None
  }

  /** The pieces that the table holds after k frames, most recent first. */
  function Backward(ps: seq<bytes>): (r: seq<bytes>)
    ensures |r| == |ps|
  {
    if ps == [] then [] else Backward(ps[1..]) + [ps[0]]
  }

  lemma {:induction false} BackwardSnoc(ps: seq<bytes>, p: bytes)
    ensures Backward(ps + [p]) == [p] + Backward(ps)
  {
    if ps != [] {
      assert (ps + [p])[1..] == ps[1..] + [p];
      BackwardSnoc(ps[1..], p);
    }
  }

  lemma {:induction false} AssembleSnoc(parts: seq<bytes>, p: bytes)
    ensures Assemble(parts + [p]) == p + Assemble(parts)
  {
    if parts != [] {
      assert (parts + [p])[1..] == parts[1..] + [p];
      AssembleSnoc(parts[1..], p);
    } else {
      assert Assemble([]) + p == p + Assemble([]);
    }
  }

  /** All pieces together are the payload, byte for byte. */
  lemma {:induction false} PiecesAssemble(payload: bytes)
    ensures Assemble(Backward(Pieces(payload))) == payload
  {
    if |payload| <= CHUNK_SIZE {
      assert Pieces(payload)[1..] == [];
      assert Backward([payload]) == [payload];
      assert Assemble([payload]) == [] + payload;
    } else {
      var rest := payload[CHUNK_SIZE..];
      PiecesAssemble(rest);
      assert Pieces(payload)[1..] == Pieces(rest);
      AssembleSnoc(Backward(Pieces(rest)), payload[..CHUNK_SIZE]);
    }
  }

  /** A big payload of n bytes becomes ceil(n / 256K) + 1 frames, none of them empty or over 256K. */
  lemma {:induction false} PieceCount(payload: bytes)
    requires payload != []
    ensures |Pieces(payload)| == (|payload| + CHUNK_SIZE - 1) / CHUNK_SIZE
    ensures forall i :: 0 <= i < |Pieces(payload)| ==> 1 <= |Pieces(payload)[i]| <= CHUNK_SIZE
  {
    if |payload| > CHUNK_SIZE {
      PieceCount(payload[CHUNK_SIZE..]);
    }
  }

  // ---------------------------------------------------------------- interleaving

  /** A message being written: its first sent frames are on the wire. */
  datatype Job = Job(message: Message, sent: nat)

  predicate InProgress(job: Job) {
    Big(job.message) && 1 <= job.sent < FrameCount(job.message)
  }

  predicate Finished(job: Job) {
    job.sent == FrameCount(job.message)
  }

  predicate ValidJobs(jobs: seq<Job>) {
    forall i :: 0 <= i < |jobs| ==> Sendable(jobs[i].message) && jobs[i].sent <= FrameCount(jobs[i].message)
  }

  /** The hypothesis about ids: no two chunked messages share one. */
  predicate DistinctIds(jobs: seq<Job>) {
    forall i, j :: 0 <= i < j < |jobs| && Big(jobs[i].message) && Big(jobs[j].message) ==>
      Id(jobs[i].message) != Id(jobs[j].message)
  }

  function EntryOf(job: Job): Chunk
    requires InProgress(job)
  {
    Chunk(Unchunked(job.message.meta), Backward(Pieces(job.message.payload)[..job.sent]))
  }

  function Deliveries(jobs: seq<Job>, done: seq<nat>): (r: seq<Frame>)
    requires forall k :: 0 <= k < |done| ==> done[k] < |jobs|
    ensures |r| == |done|
  {
    seq(|done|, k requires 0 <= k < |done| => Delivery(jobs[done[k]].message))
  }

  /** done lists the finished jobs, each once, in the order of their final frames. */
  ghost predicate Ledger(jobs: seq<Job>, done: seq<nat>) {
    && (forall k :: 0 <= k < |done| ==> done[k] < |jobs| && Finished(jobs[done[k]]))
    && (forall k, l :: 0 <= k < l < |done| ==> done[k] != done[l])
    && (forall i :: 0 <= i < |jobs| && Finished(jobs[i]) ==> i in done)
  }

  /** The chunk table holds the messages in progress and nothing else. */
  ghost predicate TableTracks(chunks: map<Value, Chunk>, jobs: seq<Job>) {
    && (forall i :: 0 <= i < |jobs| && InProgress(jobs[i]) ==>
          Id(jobs[i].message) in chunks && chunks[Id(jobs[i].message)] == EntryOf(jobs[i]))
    && (forall id :: id in chunks ==> exists i :: 0 <= i < |jobs| && Owns(jobs[i], id))
  }

  predicate Owns(job: Job, id: Value) {
    InProgress(job) && Id(job.message) == id
  }

  /** The client has seen exactly the frames that the jobs have sent. */
  ghost predicate Tracks(c: Client, jobs: seq<Job>, done: seq<nat>) {
    && Ledger(jobs, done)
    && c.log == Deliveries(jobs, done)
    && TableTracks(c.chunks, jobs)
  }

  function Advance(jobs: seq<Job>, i: nat): (r: seq<Job>)
    requires i < |jobs|
    ensures |r| == |jobs|
  {
    jobs[i := jobs[i].(sent := jobs[i].sent + 1)]
  }

  function Account(jobs: seq<Job>, done: seq<nat>, i: nat): seq<nat>
    requires i < |jobs|
  {
    if Finished(Advance(jobs, i)[i]) then done + [i] else done
  }

  /** Frame f may come next from job i. */
  ghost predicate CanEmit(jobs: seq<Job>, i: nat, f: Frame) {
    && ValidJobs(jobs) && DistinctIds(jobs)
    && i < |jobs| && !Finished(jobs[i]) && IsPart(jobs[i].message, jobs[i].sent, f)
  }

  lemma LedgerStep(jobs: seq<Job>, done: seq<nat>, i: nat)
    requires ValidJobs(jobs) && Ledger(jobs, done) && i < |jobs| && !Finished(jobs[i])
    ensures Ledger(Advance(jobs, i), Account(jobs, done, i))
    ensures Deliveries(Advance(jobs, i), Account(jobs, done, i)) ==
            Deliveries(jobs, done) + if Finished(Advance(jobs, i)[i]) then [Delivery(jobs[i].message)] else []
  {
    hide FrameCount, Delivery;
    var jobs', done' := Advance(jobs, i), Account(jobs, done, i);
    assert forall k :: 0 <= k < |done| ==> done[k] != i;
    forall l | 0 <= l < |jobs'| && Finished(jobs'[l])
      ensures l in done'
    {
      if l == i {
        assert done'[|done|] == i;
      } else {
        assert l in done;
      }
    }
  }

  /** The table after job i's frame: its entry new or longer while in progress, gone at the end. */
  lemma TableStep(chunks: map<Value, Chunk>, jobs: seq<Job>, i: nat)
    requires ValidJobs(jobs) && DistinctIds(jobs) && TableTracks(chunks, jobs)
    requires i < |jobs| && !Finished(jobs[i])
    ensures var job, id := Advance(jobs, i)[i], Id(jobs[i].message);
            TableTracks(if !Big(job.message) then chunks
                        else if InProgress(job) then chunks[id := EntryOf(job)]
                        else chunks - {id}, Advance(jobs, i))
  {
    hide FrameCount, EntryOf, Id, Sendable;
    var jobs' := Advance(jobs, i);
    forall id | id in chunks && !Owns(jobs[i], id)
      ensures exists l :: 0 <= l < |jobs'| && Owns(jobs'[l], id)
    {
      var l :| 0 <= l < |jobs| && Owns(jobs[l], id);
      assert jobs'[l] == jobs[l];
    }
    if InProgress(jobs'[i]) {
      assert Owns(jobs'[i], Id(jobs[i].message));
    }
  }

  lemma UnchunkedKeeps(m: Message)
    requires Sendable(m) && Big(m)
    ensures Get(Unchunked(m.meta), CHUNKED_KEY) == Nil
    ensures Get(Unchunked(m.meta), T_KEY) == Get(m.meta, T_KEY)
    ensures Get(Unchunked(m.meta), ID_KEY) == Id(m)
  {
    GetOfPut(m.meta.pairs, CHUNKED_KEY, Nil, CHUNKED_KEY);
    GetOfPut(m.meta.pairs, CHUNKED_KEY, Nil, T_KEY);
    GetOfPut(m.meta.pairs, CHUNKED_KEY, Nil, ID_KEY);
  }

  /** The whole message's frame goes straight to the log; the first piece only seeds the table. */
  lemma DispatchFirst(c: Client, m: Message, f: Frame)
    requires Sendable(m) && IsPart(m, 0, f)
    ensures Dispatch(c, f) ==
            Step(if Big(m) then c.(chunks := c.chunks[Id(m) := Chunk(Unchunked(m.meta), [Pieces(m.payload)[0]])])
                 else c.(log := c.log + [Delivery(m)]), false)
  {
  }

  lemma DispatchContinue(c: Client, m: Message, k: nat, f: Frame)
    requires Sendable(m) && Big(m) && 0 < k < |Pieces(m.payload)| && IsPart(m, k, f)
    requires Id(m) in c.chunks
    ensures var entry := c.chunks[Id(m)];
            Dispatch(c, f) ==
            Step(c.(chunks := c.chunks[Id(m) := entry.(parts := [Pieces(m.payload)[k]] + entry.parts)]), false)
  {
  }

  lemma DispatchEnd(c: Client, m: Message, f: Frame)
    requires Sendable(m) && Big(m) && IsPart(m, |Pieces(m.payload)|, f)
    requires Id(m) in c.chunks && c.chunks[Id(m)] == Chunk(Unchunked(m.meta), Backward(Pieces(m.payload)))
    ensures Dispatch(c, f) == Step(Client(c.chunks - {Id(m)}, c.log + [Delivery(m)]), false)
  {
    hide Pieces, Backward, Assemble, Unchunked;
    PiecesAssemble(m.payload);
    UnchunkedKeeps(m);
    assert Delivery(m) == Frame(Unchunked(m.meta), Some(m.payload));
  }

  /** Whichever job writes the next frame, the client keeps track. */
  lemma EmitKeepsTrack(c: Client, jobs: seq<Job>, done: seq<nat>, i: nat, f: Frame)
    requires CanEmit(jobs, i, f) && Tracks(c, jobs, done)
    ensures !Dispatch(c, f).failed
    ensures Tracks(Dispatch(c, f).client, Advance(jobs, i), Account(jobs, done, i))
  {
    hide Dispatch, Pieces, Delivery, Unchunked, TableTracks, Ledger, Sendable, IsPart, Account;
    var m, k := jobs[i].message, jobs[i].sent;
    LedgerStep(jobs, done, i);
    TableStep(c.chunks, jobs, i);
    if k == 0 {
      DispatchFirst(c, m, f);
      FirstPiece(m);
    } else {
      PartOfBig(m, k, f);
      assert InProgress(jobs[i]);
      TableHolds(c.chunks, jobs, i);
      if k < |Pieces(m.payload)| {
        DispatchContinue(c, m, k, f);
        NextPiece(m, k);
      } else {
        assert Pieces(m.payload)[..k] == Pieces(m.payload);
        DispatchEnd(c, m, f);
      }
    }
  }

  lemma TableHolds(chunks: map<Value, Chunk>, jobs: seq<Job>, i: nat)
    requires TableTracks(chunks, jobs) && i < |jobs| && InProgress(jobs[i])
    ensures Id(jobs[i].message) in chunks && chunks[Id(jobs[i].message)] == EntryOf(jobs[i])
  {
  }

  lemma PartOfBig(m: Message, k: nat, f: Frame)
    requires IsPart(m, k, f) && k > 0
    ensures Big(m) && k <= |Pieces(m.payload)|
  {
  }

  lemma FirstPiece(m: Message)
    ensures Backward(Pieces(m.payload)[..1]) == [Pieces(m.payload)[0]]
  {
    assert Pieces(m.payload)[..1] == [Pieces(m.payload)[0]];
    assert Backward([]) + [Pieces(m.payload)[0]] == [Pieces(m.payload)[0]];
  }

  lemma NextPiece(m: Message, k: nat)
    requires k < |Pieces(m.payload)|
    ensures Backward(Pieces(m.payload)[..k + 1]) == [Pieces(m.payload)[k]] + Backward(Pieces(m.payload)[..k])
  {
    assert Pieces(m.payload)[..k + 1] == Pieces(m.payload)[..k] + [Pieces(m.payload)[k]];
    BackwardSnoc(Pieces(m.payload)[..k], Pieces(m.payload)[k]);
  }

  /** Once every message is finished, each was delivered exactly once and the table is empty. */
  lemma AllFinished(c: Client, jobs: seq<Job>, done: seq<nat>)
    requires Tracks(c, jobs, done)
    requires forall i :: 0 <= i < |jobs| ==> Finished(jobs[i])
    ensures c.chunks == map[]
    ensures |done| == |jobs| && |c.log| == |jobs|
    ensures forall i :: 0 <= i < |jobs| ==> i in done
    ensures forall k :: 0 <= k < |done| ==> c.log[k] == Delivery(jobs[done[k]].message)
  {
    hide FrameCount, Delivery;
    ListsAll(done, |jobs|);
  }

  lemma SomeBelow(done: seq<nat>, n: nat)
    requires forall k :: 0 <= k < |done| ==> done[k] < n
    ensures done != [] ==> n > 0
  {
    if done != [] {
      assert done[0] < n;
    }
  }

  /** A list of the numbers below n, each once, has n elements. */
  lemma {:induction false} ListsAll(done: seq<nat>, n: nat)
    requires forall k, l :: 0 <= k < l < |done| ==> done[k] != done[l]
    requires forall k :: 0 <= k < |done| ==> done[k] < n
    requires forall i: nat :: i < n ==> i in done
    ensures |done| == n
  {
    SomeBelow(done, n);
    if n > 0 {
      var last: nat := n - 1;
      assert last in done;
      var k :| 0 <= k < |done| && done[k] == last;
      var rest := done[..k] + done[k + 1..];
      forall i: nat | i < n - 1
        ensures i in rest
      {
        assert i in done;
        var l :| 0 <= l < |done| && done[l] == i;
        assert rest[if l < k then l else l - 1] == i;
      }
      ListsAll(rest, n - 1);
    }
  }
}
