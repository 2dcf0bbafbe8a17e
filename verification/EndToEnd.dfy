/**
  The two ends together: whatever the server's schedule, however the bytes are split on arrival and
  however handlers nest, the client hands over each message once, whole and in order.
 */
module EndToEnd {
  import opened Bytes
  import opened Msgpack
  import opened Frames
  import opened Reassembly
  import opened RpcServer
  import opened Connection
  import opened FrameReader
  import opened Options

  /** The messages that a run begins. */
  ghost function Messages(es: seq<Event>): seq<Message> {
    Begun(Happened(es))
  }

  /** Which of them are finished, in the order in which their last frames were written. */
  ghost function Order(es: seq<Event>): (done: seq<nat>)
    ensures forall k :: 0 <= k < |done| ==> done[k] < |Messages(es)|
  {
    EveryRunIsSafe(es);
    RunRecords(es);
    After(es).done
  }

  /** What the client must hand to its handlers, in this order. */
  ghost function Sent(es: seq<Event>): seq<Frame> {
    seq(|Order(es)|, k requires 0 <= k < |Order(es)| => Delivery(Messages(es)[Order(es)[k]]))
  }

  lemma SentDeliveries(es: seq<Event>)
    ensures Inv(After(es)) && Deliveries(After(es).jobs, After(es).done) == Sent(es)
  {
    EveryRunIsSafe(es);
    RunRecords(es);
    hide Records, IdsRecorded, Delivery, Begun, Emits, Happened, After, Tracks;
    RecordsMessages(After(es), Happened(es));
  }

  lemma RecordsMessages(s: Server, es: seq<Event>)
    requires Records(s, es)
    ensures |s.jobs| == |Begun(es)|
    ensures forall i :: 0 <= i < |s.jobs| ==> s.jobs[i].message == Begun(es)[i] && s.jobs[i].sent == Emits(es, i)
  {
  }

  /**
    A handler was called once for each of the messages, in this order, but for the responses that are
    no answer; each of these carries the id of no request that had been made when it came and that is
    still open: while the process lives, the request has ended.
   */
  ghost predicate Handed(conn: Conn)
    reads conn
  {
    && (forall i, j :: 0 <= i < j < |conn.handled| ==> conn.handled[i] < conn.handled[j])
    && (forall k: nat :: k in conn.handled <==>
          k < |conn.log| && (Kind(conn.log[k].meta) == RESPONSE ==> IsAnswer(conn.ended, k)))
    && |conn.issued| == |conn.log|
    && forall k: nat :: k < |conn.log| && k !in conn.handled ==>
         var id := Get(conn.log[k].meta, ID_KEY);
         id.Int? && 1 <= id.n <= conn.issued[k] ==>
           id.n !in conn.pending && (conn.clean && conn.live ==> HasEnded(conn.ended, id.n))
  }

  lemma ValidHanded(conn: Conn)
    requires conn.Valid()
    ensures Handed(conn)
  {
    hide Replay, Wire, FramesOf, OwnAnswers, AsksInOrder, Get, Kind, HasEnded;
    assert conn.pending - {} == conn.pending;
  }

  /**
    At any moment the client has called the handlers of the first of these messages, in this order,
    each with the bytes that were sent; after the last frame, of all of them.
   */
  lemma DeliversInOrder(es: seq<Event>, conn: Conn)
    requires conn.Valid() && conn.frames == After(es).out
    ensures conn.log <= Sent(es) && Handed(conn)
    ensures conn.taken == |conn.frames| ==> conn.log == Sent(es)
  {
    hide Replay, Dispatch, FramesOf, Tracks, Wire, Handed, HandledOnce, Excused;
    ValidHanded(conn);
    SentDeliveries(es);
    hide Sent;
    TracksLog(After(es));
    var fs := FramesOf(conn.frames);
    assert FramesOf(conn.frames[..conn.taken]) == fs[..conn.taken] by { PrefixFrames(conn.frames, conn.taken); }
    ReplayAppends(fs, conn.taken);
    assert conn.frames[..|conn.frames|] == conn.frames;
  }

  lemma TracksLog(s: Server)
    requires Inv(s)
    ensures Replay(FramesOf(s.out)).log == Deliveries(s.jobs, s.done)
  {
    hide Replay, FrameCount;
  }

  lemma PrefixFrames(ws: seq<WireFrame>, n: nat)
    requires AllWellFormed(ws) && n <= |ws|
    ensures FramesOf(ws[..n]) == FramesOf(ws)[..n]
  {
    hide WellFormed, FrameOf;
  }

  /** Once all bytes have arrived and the buffer holds no whole frame, no frame is left over. */
  lemma NothingHeldBack(conn: Conn)
    requires conn.Valid() && conn.arrived == |conn.stream| && NextFrame(conn.buffer).Incomplete?
    ensures conn.taken == |conn.frames| && conn.buffer == []
  {
    hide NextFrame, Encode, Replay, Accounts, OwnAnswers, WellFormed;
    WireSplit(conn.frames, conn.taken);
    assert conn.buffer == Wire(conn.frames[conn.taken..]);
    if conn.taken < |conn.frames| {
      var w, rest := conn.frames[conn.taken], conn.frames[conn.taken..][1..];
      NextOfEncode(w, Wire(rest));
    }
  }

  /**
    The refinement. When every message of the run has been written to its last frame, all bytes have
    arrived and the parser has drained its buffer, the chunk table is empty, every message is one
    entry of the log, and its handler was called once.
   */
  lemma EachMessageOnce(es: seq<Event>, conn: Conn)
    requires conn.Valid() && conn.frames == After(es).out
    requires conn.arrived == |conn.stream| && NextFrame(conn.buffer).Incomplete?
    requires forall i :: 0 <= i < |Messages(es)| ==> Emits(Happened(es), i) == FrameCount(Messages(es)[i])
    ensures conn.chunks == map[] && conn.buffer == [] && Handed(conn)
    ensures var ms, order := Messages(es), Order(es);
            && |conn.log| == |order| == |ms|
            && (forall i :: 0 <= i < |ms| ==> i in order)
            && (forall k, l :: 0 <= k < l < |order| ==> order[k] != order[l])
            && (forall k :: 0 <= k < |order| ==> conn.log[k] == Delivery(ms[order[k]]))
  {
    NothingHeldBack(conn);
    EveryRunIsSafe(es);
    RunRecords(es);
    RecordsMessages(After(es), Happened(es));
    DeliversInOrder(es, conn);
    hide Replay, Wire, NextFrame, Accounts, OwnAnswers, FrameCount, Delivery, Records, After, Happened, Begun, Emits;
    assert conn.frames[..|conn.frames|] == conn.frames;
    AllFinished(Client(conn.chunks, conn.log), After(es).jobs, After(es).done);
  }

  /**
    Order between goroutines: a message whose last frame was written before another message was begun
    reaches its handler first, however the two are cut. So the exit notification of a process, which
    begins after its output goroutines have returned, is handled after all its output.
   */
  lemma FinishedBeforeBegun(es: seq<Event>, more: seq<Event>, i: nat, k: nat, l: nat)
    requires i < |Messages(es)| && Emits(Happened(es), i) == FrameCount(Messages(es)[i])
    requires var order := Order(es + more);
             k < |order| && l < |order| && order[k] == i && order[l] >= |Messages(es)|
    ensures k < l
  {
    EveryRunIsSafe(es);
    EveryRunIsSafe(es + more);
    RunRecords(es);
    RecordsMessages(After(es), Happened(es));
    DoneGrows(es, more);
    hide Records, After, Happened, Begun, Emits, Tracks, FrameCount, Inv, Delivery;
    FinishedIsDone(After(es), i);
    LedgerOf(After(es + more));
    EarlyIsFirst(After(es).done, After(es + more).done, |Messages(es)|, i, k, l);
  }

  lemma EarlyIsFirst(early: seq<nat>, late: seq<nat>, n: nat, i: nat, k: nat, l: nat)
    requires early <= late && i in early && forall x :: 0 <= x < |early| ==> early[x] < n
    requires forall x, y :: 0 <= x < y < |late| ==> late[x] != late[y]
    requires k < |late| && l < |late| && late[k] == i && late[l] >= n
    ensures k < l
  {
    var m :| 0 <= m < |early| && early[m] == i;
    assert late[m] == i;
  }

  lemma LedgerOf(s: Server)
    requires Inv(s)
    ensures Ledger(s.jobs, s.done)
  {
  }

  lemma FinishedIsDone(s: Server, i: nat)
    requires Inv(s) && i < |s.jobs| && s.jobs[i].sent == FrameCount(s.jobs[i].message)
    ensures i in s.done && forall k :: 0 <= k < |s.done| ==> s.done[k] < |s.jobs|
  {
  }

  lemma {:induction false} DoneGrows(es: seq<Event>, more: seq<Event>)
    ensures After(es).done <= After(es + more).done
  {
    hide Enabled, Next;
    if more == [] {
      assert es + more == es;
    } else {
      var all, last := es + more, more[|more| - 1];
      assert all[..|all| - 1] == es + more[..|more| - 1];
      DoneGrows(es, more[..|more| - 1]);
      if Enabled(After(all[..|all| - 1]), last) {
        NextKeepsDone(After(all[..|all| - 1]), last);
      }
    }
  }

  lemma NextKeepsDone(s: Server, e: Event)
    requires Enabled(s, e)
    ensures s.done <= Next(s, e).done
  {
    hide WellFormed, Is, FrameOf;
  }

  // ---------------------------------------------------------------- requests of the client

  /**
    The server reads the client's requests in the order in which they were sent. Whenever it comes to
    one, the id is positive and none that it has read before, as its schedule assumes.
   */
  lemma ClientIdsAreFresh(conn: Conn, k: nat, s: Server)
    requires conn.Valid() && k < |conn.asked| && s.seen == set i | 0 <= i < k :: conn.asked[i].id as int
    ensures Enabled(s, Receive(conn.asked[k].id))
  {
    hide ClientFrame, Replay, Accounts, OwnAnswers, Wire;
  }

  /** And the frame's payload, id and metadata are, to a reader, those of the request. */
  lemma RequestIsRead(conn: Conn, k: nat)
    requires conn.Valid() && k < |conn.asked| && Carries(1, conn.asked[k].id, conn.asked[k].meta)
    ensures HasMeta(conn.sent[k].meta, 1, conn.asked[k].id, conn.asked[k].meta)
    ensures conn.sent[k].payload == if conn.asked[k].payload.Some? then conn.asked[k].payload.value else []
  {
    hide Replay, Accounts, OwnAnswers, Wire, HasMeta, Carries, Write, Put;
    var a := conn.asked[k];
    assert ClientFrame(1, a.id, a.meta, a.payload) == Some(conn.sent[k]);
    ClientFrameIsRead(1, a.id, a.meta, a.payload);
  }
}
