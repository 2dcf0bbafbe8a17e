/**
  One process of the process manager: its input queue between the read loop, the closers and the
  writer goroutine, and its output between the readers, the waiter and the wire.
 */
module Processes {
  import opened Bytes

  const CAPACITY := 1024
  const READ_SIZE := 4096

  function Flatten(parts: seq<bytes>): bytes {
    if parts == [] then [] else Flatten(parts[..|parts| - 1]) + parts[|parts| - 1]
  }

  // ---------------------------------------------------------------- the input channel

  datatype Writer = Receiving | Writing(data: bytes) | Failed | Done

  /** The process table's entry. */
  datatype Entry = Starting | Listed | Removed

  /** What becomes of a frame; a refusal records what it was refused for. */
  datatype Outcome = Queued | Ignored | Full(queued: nat) | NotFound(entry: Entry) | Asked

  /** The reasons are true: 1024 inputs are queued, or the process is not in the table. */
  predicate Honest(o: Outcome) {
    (o.Full? ==> o.queued == CAPACITY) && (o.NotFound? ==> o.entry != Listed)
  }

  /**
    queue is the buffer of inputCh; closed is inputClosed; once says that inputCloseOnce has run and
    shut that the channel is closed. accepted is what was ever queued, stdin what the process was
    given. A send on a closed channel and a second close panic.
   */
  datatype Pipe = Pipe(
    queue: seq<bytes>, closed: bool, once: bool, shut: bool, panicked: bool,
    accepted: seq<bytes>, writer: Writer, stdin: bytes)

  /** The locked section of Input. */
  function InputOp(p: Pipe, data: bytes): (Pipe, Outcome) {
    if p.closed then (p, Ignored)
    else if p.shut then (p.(panicked := true), Ignored)
    else if |p.queue| < CAPACITY then (p.(queue := p.queue + [data], accepted := p.accepted + [data]), Queued)
    else (p, Full(|p.queue|))
  }

  /** closeInputCh in its two steps: the flag under the lock, and the close, once. */
  function MarkOp(p: Pipe): Pipe {
    p.(closed := true)
  }

  function ShutOp(p: Pipe): Pipe {
    if p.once then p else p.(once := true, shut := true, panicked := p.panicked || p.shut)
  }

  /** inputWriter receives, or sees the closed and empty channel and closes stdin. */
  function TakeOp(p: Pipe): Pipe {
    if p.queue != [] then p.(writer := Writing(p.queue[0]), queue := p.queue[1..]) else p.(writer := Done)
  }

  /** Its write ends, perhaps short and with an error. */
  function WriteOp(p: Pipe, count: nat, ok: bool): Pipe
    requires p.writer.Writing? && count <= |p.writer.data|
  {
    p.(stdin := p.stdin + p.writer.data[..count], writer := if ok then Receiving else Failed)
  }

  /** No byte is lost or out of place on its way from the queue to the process. */
  predicate Conserves(p: Pipe) {
    match p.writer
    case Receiving => Flatten(p.accepted) == p.stdin + Flatten(p.queue)
    case Writing(data) => Flatten(p.accepted) == p.stdin + data + Flatten(p.queue)
    case Failed => p.stdin <= Flatten(p.accepted)
    case Done => Flatten(p.accepted) == p.stdin && p.queue == [] && p.shut
  }

  predicate PipeOk(p: Pipe) {
    !p.panicked && p.once == p.shut && (p.shut ==> p.closed) && |p.queue| <= CAPACITY && Conserves(p)
  }

  lemma InputKeepsPipe(p: Pipe, data: bytes)
    requires PipeOk(p)
    ensures PipeOk(InputOp(p, data).0)
  {
    FlattenSnoc(p.accepted, data);
    FlattenSnoc(p.queue, data);
    hide Flatten;
    assert p.stdin + Flatten(p.queue) + data == p.stdin + (Flatten(p.queue) + data);
  }

  lemma TakeKeepsPipe(p: Pipe)
    requires PipeOk(p) && p.writer == Receiving && (p.queue != [] || p.shut)
    ensures PipeOk(TakeOp(p))
  {
    if p.queue != [] {
      FlattenCons(p.queue);
      hide Flatten;
      assert p.stdin + (p.queue[0] + Flatten(p.queue[1..])) == p.stdin + p.queue[0] + Flatten(p.queue[1..]);
    }
  }

  lemma WriteKeepsPipe(p: Pipe, n: nat, ok: bool)
    requires PipeOk(p) && p.writer.Writing? && n <= |p.writer.data| && (ok ==> n == |p.writer.data|)
    ensures PipeOk(WriteOp(p, n, ok))
  {
    hide Flatten;
    var data := p.writer.data;
    assert data == data[..n] + data[n..];
    if !ok {
      assert Flatten(p.accepted) == (p.stdin + data[..n]) + (data[n..] + Flatten(p.queue));
    }
  }

  lemma FlattenSnoc(parts: seq<bytes>, p: bytes)
    ensures Flatten(parts + [p]) == Flatten(parts) + p
  {
    assert (parts + [p])[..|parts|] == parts;
  }

  lemma {:induction false} FlattenCons(parts: seq<bytes>)
    requires parts != []
    ensures Flatten(parts) == parts[0] + Flatten(parts[1..])
  {
    if |parts| > 1 {
      FlattenCons(parts[..|parts| - 1]);
      assert parts[..|parts| - 1][1..] == parts[1..][..|parts| - 2];
    }
  }

  // ---------------------------------------------------------------- the frames

  /** The frames for this process that the server reads: exec/input and exec/close-input. */
  datatype Frame = Data(data: bytes) | CloseRequest

  /** The goroutine of a close request; it misses if the process is not in the table. */
  datatype Closer = Looking | Marking | Shutting | Closed | Missed

  /**
    wire holds the frames read so far and outcomes what became of each; holding says that the read
    loop is inside Input, past the lookup.
   */
  datatype Feed = Feed(wire: seq<Frame>, outcomes: seq<Outcome>, holding: bool, requests: map<nat, Closer>)

  /** A notification's handler runs inline; a request gets a goroutine. */
  function ReceiveOp(f: Feed, frame: Frame, entry: Entry): Feed {
    var f' := f.(wire := f.wire + [frame]);
    match frame
    case Data(_) => if entry == Listed then f'.(holding := true) else f'.(outcomes := f.outcomes + [NotFound(entry)])
    case CloseRequest => f'.(outcomes := f.outcomes + [Asked], requests := f.requests[|f.wire| := Looking])
  }

  /** The frames' data that were queued, in wire order. */
  function QueuedData(wire: seq<Frame>, outcomes: seq<Outcome>): seq<bytes>
    requires |outcomes| <= |wire|
  {
    if outcomes == [] then [] else
    var n := |outcomes| - 1;
    QueuedData(wire, outcomes[..n]) + if outcomes[n] == Queued && wire[n].Data? then [wire[n].data] else []
  }

  /** A close request is among the first n frames. */
  predicate CloseAmong(wire: seq<Frame>, n: nat) {
    exists j :: 0 <= j < n && j < |wire| && wire[j] == CloseRequest
  }

  /** dying says that the waiter has set inputClosed. */
  predicate FeedOk(f: Feed, dying: bool) {
    && |f.wire| == |f.outcomes| + (if f.holding then 1 else 0)
    && (f.holding ==> f.wire[|f.wire| - 1].Data?)
    && (forall i :: 0 <= i < |f.outcomes| ==> (f.outcomes[i] == Asked <==> f.wire[i] == CloseRequest))
    && (forall i :: 0 <= i < |f.outcomes| ==> Honest(f.outcomes[i]))
    && (forall i :: i in f.requests ==> i < |f.wire| && f.wire[i] == CloseRequest)
    && (forall i :: 0 <= i < |f.outcomes| && f.outcomes[i] == Ignored ==> dying || CloseAmong(f.wire, i))
  }

  predicate Counted(f: Feed, accepted: seq<bytes>) {
    |f.outcomes| <= |f.wire| && accepted == QueuedData(f.wire, f.outcomes)
  }

  lemma ReceiveKeepsFeed(f: Feed, frame: Frame, entry: Entry, dying: bool)
    requires FeedOk(f, dying) && !f.holding
    ensures FeedOk(ReceiveOp(f, frame, entry), dying)
  {
    var f' := ReceiveOp(f, frame, entry);
    forall i | 0 <= i < |f.outcomes| && f.outcomes[i] == Ignored && !dying
      ensures CloseAmong(f'.wire, i)
    {
      CloseStays(f.wire, frame, i);
    }
  }

  lemma CloseStays(wire: seq<Frame>, frame: Frame, n: nat)
    requires CloseAmong(wire, n)
    ensures CloseAmong(wire + [frame], n)
  {
    var j :| 0 <= j < n && j < |wire| && wire[j] == CloseRequest;
    assert (wire + [frame])[j] == CloseRequest;
  }

  lemma ReceiveCounted(f: Feed, frame: Frame, entry: Entry, accepted: seq<bytes>)
    requires Counted(f, accepted)
    ensures Counted(ReceiveOp(f, frame, entry), accepted)
  {
    var f' := ReceiveOp(f, frame, entry);
    SameData(f.wire, f'.wire, f.outcomes);
    if f'.outcomes != f.outcomes {
      assert f'.outcomes[..|f.outcomes|] == f.outcomes;
    }
  }

  lemma {:induction false} SameData(wire: seq<Frame>, more: seq<Frame>, outcomes: seq<Outcome>)
    requires |outcomes| <= |wire| && wire <= more
    ensures QueuedData(wire, outcomes) == QueuedData(more, outcomes)
  {
    if outcomes != [] {
      SameData(wire, more, outcomes[..|outcomes| - 1]);
    }
  }

  // ---------------------------------------------------------------- the output side

  datatype Reader = Reading | Sending(data: bytes, last: bool) | Ended

  datatype Out = Output(stream: string, data: bytes) | Exit

  /** got is what the readers have read, out what was written to the wire. */
  datatype Tail = Tail(readers: map<string, Reader>, got: map<string, bytes>, out: seq<Out>)

  function ReadOp(t: Tail, name: string, data: bytes, last: bool): Tail
    requires name in t.got
  {
    t.(got := t.got[name := t.got[name] + data],
       readers := t.readers[name := if data != [] then Sending(data, last) else if last then Ended else Reading])
  }

  /** onOutput */
  function SendOp(t: Tail, name: string): Tail
    requires name in t.readers && t.readers[name].Sending?
  {
    t.(out := t.out + [Output(name, t.readers[name].data)],
       readers := t.readers[name := if t.readers[name].last then Ended else Reading])
  }

  predicate AllEnded(t: Tail) {
    forall name :: name in t.readers ==> t.readers[name] == Ended
  }

  /** What the client gets from a stream. */
  function Payload(out: seq<Out>, name: string): bytes {
    if out == [] then [] else
    var o := out[|out| - 1];
    Payload(out[..|out| - 1], name) + if o.Output? && o.stream == name then o.data else []
  }

  function Unsent(r: Reader): bytes {
    if r.Sending? then r.data else []
  }

  /** What is read from a stream is sent, or about to be, in frames of one read each. */
  predicate StreamOk(t: Tail, name: string)
    requires name in t.readers && name in t.got
  {
    t.got[name] == Payload(t.out, name) + Unsent(t.readers[name]) &&
    (t.readers[name].Sending? ==> 1 <= |t.readers[name].data| <= READ_SIZE)
  }

  predicate TailOk(t: Tail) {
    && t.readers.Keys == t.got.Keys
    && (forall name :: name in t.readers ==> StreamOk(t, name))
    && (forall k :: 0 <= k < |t.out| && t.out[k].Output? ==> 1 <= |t.out[k].data| <= READ_SIZE)
  }

  /** The exit notification is out exactly when the waiter is gone, and nothing follows it. */
  predicate ExitOk(t: Tail, gone: bool) {
    && (gone ==> t.out != [] && t.out[|t.out| - 1] == Exit)
    && forall k :: 0 <= k < |t.out| && t.out[k] == Exit ==> gone && k == |t.out| - 1
  }

  lemma SendKeepsTail(t: Tail, name: string)
    requires TailOk(t) && name in t.readers && t.readers[name].Sending?
    ensures TailOk(SendOp(t, name))
  {
    var t' := SendOp(t, name);
    forall other | other in t.readers
      ensures StreamOk(t', other)
    {
      assert StreamOk(t, other);
      assert t'.out[..|t.out|] == t.out;
    }
  }

  lemma ReadKeepsTail(t: Tail, name: string, data: bytes, last: bool)
    requires TailOk(t) && name in t.readers && t.readers[name] == Reading && |data| <= READ_SIZE
    ensures TailOk(ReadOp(t, name, data, last))
  {
    hide Payload;
    forall other | other in t.readers
      ensures StreamOk(ReadOp(t, name, data, last), other)
    {
      assert StreamOk(t, other);
    }
  }

  lemma ExitKeepsTail(t: Tail)
    requires TailOk(t)
    ensures TailOk(t.(out := t.out + [Exit]))
  {
    var t' := t.(out := t.out + [Exit]);
    forall name | name in t.readers
      ensures StreamOk(t', name)
    {
      assert StreamOk(t, name);
      assert t'.out[..|t.out|] == t.out;
    }
  }

  // ---------------------------------------------------------------- the machine

  /** The waiter goroutine, from cmd.Wait to the exit notification. */
  datatype Waiter = Running | Dead | Marked | Draining | Removing | Exiting | Gone

  datatype World = World(feed: Feed, entry: Entry, pipe: Pipe, waiter: Waiter, tail: Tail)

  datatype Step =
    | Register                                 // Start stores the process
    | Receive(frame: Frame)                    // Serve reads a frame
    | Enqueue                                  // Input, inline
    | Close(request: nat)                      // the next action of that request's goroutine
    | Take                                     // inputWriter's receive
    | Write(count: nat, ok: bool)
    | Read(stream: string, data: bytes, last: bool)
    | Send(stream: string)
    | Die                                      // cmd.Wait returns
    | Wait                                     // the waiter's next action

  predicate Enabled(w: World, s: Step) {
    match s
    case Register => w.entry == Starting
    case Receive(_) => !w.feed.holding
    case Enqueue => w.feed.holding && w.feed.wire != [] && w.feed.wire[|w.feed.wire| - 1].Data?
    case Close(i) => i in w.feed.requests
    case Take => w.pipe.writer == Receiving && (w.pipe.queue != [] || w.pipe.shut)
    case Write(n, ok) =>
      w.pipe.writer.Writing? && n <= |w.pipe.writer.data| && (ok ==> n == |w.pipe.writer.data|)
    case Read(name, data, _) =>
      name in w.tail.readers && name in w.tail.got && w.tail.readers[name] == Reading && |data| <= READ_SIZE
    case Send(name) => name in w.tail.readers && w.tail.readers[name].Sending?
    case Die => w.waiter == Running && w.entry == Listed
    case Wait => w.waiter == Draining ==> AllEnded(w.tail)
  }

  function Next(w: World, s: Step): World
    requires Enabled(w, s)
  {
    match s
    case Register => w.(entry := Listed)
    case Receive(frame) => w.(feed := ReceiveOp(w.feed, frame, w.entry))
    case Enqueue =>
      var (pipe, outcome) := InputOp(w.pipe, w.feed.wire[|w.feed.wire| - 1].data);
      w.(pipe := pipe, feed := w.feed.(holding := false, outcomes := w.feed.outcomes + [outcome]))
    case Close(i) => CloseOp(w, i)
    case Take => w.(pipe := TakeOp(w.pipe))
    case Write(n, ok) => w.(pipe := WriteOp(w.pipe, n, ok))
    case Read(name, data, last) => w.(tail := ReadOp(w.tail, name, data, last))
    case Send(name) => w.(tail := SendOp(w.tail, name))
    case Die => w.(waiter := Dead)
    case Wait => WaitOp(w)
  }

  function CloseOp(w: World, i: nat): World
    requires i in w.feed.requests
  {
    match w.feed.requests[i]
    case Looking => At(w, i, if w.entry == Listed then Marking else Missed)
    case Marking => At(w, i, Shutting).(pipe := MarkOp(w.pipe))
    case Shutting => At(w, i, Closed).(pipe := ShutOp(w.pipe))
    case _ => w
  }

  function At(w: World, i: nat, closer: Closer): World {
    w.(feed := w.feed.(requests := w.feed.requests[i := closer]))
  }

  /** The exit notification comes after the readers' last ones. */
  function WaitOp(w: World): World {
    match w.waiter
    case Dead => w.(pipe := MarkOp(w.pipe), waiter := Marked)
    case Marked => w.(pipe := ShutOp(w.pipe), waiter := Draining)
    case Draining => w.(waiter := Removing)
    case Removing => w.(entry := Removed, waiter := Exiting)
    case Exiting => w.(tail := w.tail.(out := w.tail.out + [Exit]), waiter := Gone)
    case _ => w
  }

  /** One reader for a terminal, two for pipes. */
  function Start(streams: set<string>): World {
    World(
      Feed([], [], false, map[]), Starting,
      Pipe([], false, false, false, false, [], Receiving, []), Running,
      Tail(map name | name in streams :: Reading, map name | name in streams :: [], []))
  }

  /** The world after a schedule; a step that is not enabled does not happen. */
  function After(streams: set<string>, steps: seq<Step>): World {
    if steps == [] then Start(streams) else
    var w, s := After(streams, steps[..|steps| - 1]), steps[|steps| - 1];
    if Enabled(w, s) then Next(w, s) else w
  }

  predicate Dying(w: Waiter) {
    w != Running && w != Dead
  }

  /** inputClosed has a reason, and is set before anybody goes on to close the channel. */
  predicate ClosersOk(w: World) {
    && (w.pipe.closed ==> Dying(w.waiter) || CloseAmong(w.feed.wire, |w.feed.wire|))
    && (Dying(w.waiter) ==> w.pipe.closed)
    && (forall i :: i in w.feed.requests && w.feed.requests[i] in {Shutting, Closed} ==> w.pipe.closed)
    && (forall i :: i in w.feed.requests && w.feed.requests[i] == Closed ==> w.pipe.shut)
    && (w.waiter != Running && w.waiter != Dead && w.waiter != Marked ==> w.pipe.shut)
  }

  predicate WaiterOk(w: World) {
    && (w.waiter == Removing || w.waiter == Exiting || w.waiter == Gone ==> AllEnded(w.tail))
    && (w.waiter == Exiting || w.waiter == Gone ==> w.entry == Removed)
    && ExitOk(w.tail, w.waiter == Gone)
  }

  predicate Inv(w: World) {
    && FeedOk(w.feed, Dying(w.waiter)) && Counted(w.feed, w.pipe.accepted)
    && PipeOk(w.pipe) && ClosersOk(w)
    && TailOk(w.tail) && WaiterOk(w)
  }

  lemma StepKeepsInv(w: World, s: Step)
    requires Inv(w) && Enabled(w, s)
    ensures Inv(Next(w, s))
  {
    match s
    case Receive(frame) => ReceiveKeepsInv(w, frame);
    case Enqueue => EnqueueKeepsInv(w);
    case Close(i) => CloseKeepsInv(w, i);
    case Take => InputSideKeepsInv(w, s);
    case Write(_, _) => InputSideKeepsInv(w, s);
    case Read(_, _, _) => OutputSideKeepsInv(w, s);
    case Send(_) => OutputSideKeepsInv(w, s);
    case Wait => WaitKeepsInv(w);
    case _ => OtherKeepsInv(w, s);
  }

  lemma OtherKeepsInv(w: World, s: Step)
    requires Inv(w) && Enabled(w, s) && (s.Register? || s.Die?)
    ensures Inv(Next(w, s))
  {
    hide FeedOk, Counted, PipeOk, TailOk;
  }

  lemma ReceiveKeepsInv(w: World, frame: Frame)
    requires Inv(w) && !w.feed.holding
    ensures Inv(w.(feed := ReceiveOp(w.feed, frame, w.entry)))
  {
    ReceiveKeepsFeed(w.feed, frame, w.entry, Dying(w.waiter));
    ReceiveCounted(w.feed, frame, w.entry, w.pipe.accepted);
    ReceiveKeepsClosers(w, frame);
    hide FeedOk, Counted, PipeOk, TailOk, WaiterOk, ClosersOk, ReceiveOp;
  }

  lemma ReceiveKeepsClosers(w: World, frame: Frame)
    requires ClosersOk(w)
    ensures ClosersOk(w.(feed := ReceiveOp(w.feed, frame, w.entry)))
  {
    if CloseAmong(w.feed.wire, |w.feed.wire|) {
      CloseStays(w.feed.wire, frame, |w.feed.wire|);
    }
    hide CloseAmong, Dying;
  }

  lemma EnqueueKeepsInv(w: World)
    requires Inv(w) && Enabled(w, Enqueue)
    ensures Inv(Next(w, Enqueue))
  {
    var data := w.feed.wire[|w.feed.wire| - 1].data;
    InputKeepsPipe(w.pipe, data);
    EnqueueKeepsFeed(w.feed, w.pipe, data, Dying(w.waiter));
    hide FeedOk, Counted, PipeOk, TailOk, WaiterOk;
  }

  lemma EnqueueKeepsFeed(f: Feed, p: Pipe, data: bytes, dying: bool)
    requires FeedOk(f, dying) && Counted(f, p.accepted) && f.holding && f.wire[|f.wire| - 1] == Data(data)
    requires PipeOk(p) && (p.closed ==> dying || CloseAmong(f.wire, |f.wire|))
    ensures var (p', outcome) := InputOp(p, data);
            var f' := f.(holding := false, outcomes := f.outcomes + [outcome]);
            FeedOk(f', dying) && Counted(f', p'.accepted)
  {
    hide Conserves;
    var outcomes := f.outcomes + [InputOp(p, data).1];
    assert outcomes[..|f.outcomes|] == f.outcomes;
    if p.closed && !dying {
      var j :| 0 <= j < |f.wire| && f.wire[j] == CloseRequest;
      assert j != |f.wire| - 1;
      assert CloseAmong(f.wire, |f.outcomes|);
    }
  }

  lemma CloseKeepsInv(w: World, i: nat)
    requires Inv(w) && i in w.feed.requests
    ensures Inv(CloseOp(w, i))
  {
    CloseKeepsClosers(w, i);
    hide FeedOk, Counted, Conserves, TailOk, WaiterOk, CloseAmong, ClosersOk;
    match w.feed.requests[i]
    case Looking => AtKeepsFeed(w, i, if w.entry == Listed then Marking else Missed);
    case Marking => AtKeepsFeed(w, i, Shutting);
    case Shutting => AtKeepsFeed(w, i, Closed);
    case _ =>
  }

  lemma CloseKeepsClosers(w: World, i: nat)
    requires FeedOk(w.feed, Dying(w.waiter)) && ClosersOk(w) && w.pipe.once == w.pipe.shut && i in w.feed.requests
    ensures ClosersOk(CloseOp(w, i))
  {
    assert CloseAmong(w.feed.wire, |w.feed.wire|);
    hide FeedOk, CloseAmong, Dying;
  }

  lemma AtKeepsFeed(w: World, i: nat, closer: Closer)
    requires FeedOk(w.feed, Dying(w.waiter)) && Counted(w.feed, w.pipe.accepted) && i in w.feed.requests
    ensures FeedOk(At(w, i, closer).feed, Dying(w.waiter)) && Counted(At(w, i, closer).feed, w.pipe.accepted)
  {
    hide CloseAmong, QueuedData, Dying;
  }

  lemma InputSideKeepsInv(w: World, s: Step)
    requires Inv(w) && Enabled(w, s) && (s.Take? || s.Write?)
    ensures Inv(Next(w, s))
  {
    if s.Take? {
      TakeKeepsPipe(w.pipe);
    } else {
      WriteKeepsPipe(w.pipe, s.count, s.ok);
    }
    hide FeedOk, Counted, PipeOk, TailOk, WaiterOk, CloseAmong;
  }

  lemma OutputSideKeepsInv(w: World, s: Step)
    requires Inv(w) && Enabled(w, s) && (s.Read? || s.Send?)
    ensures Inv(Next(w, s))
  {
    hide FeedOk, Counted, PipeOk, TailOk, ClosersOk;
    ClosersIgnoreOutput(w, Next(w, s).tail);
    if s.Read? {
      ReadKeepsTail(w.tail, s.stream, s.data, s.last);
    } else {
      SendKeepsTail(w.tail, s.stream);
    }
  }

  lemma ClosersIgnoreOutput(w: World, tail: Tail)
    requires ClosersOk(w)
    ensures ClosersOk(w.(tail := tail))
  {
  }

  lemma WaitKeepsInv(w: World)
    requires Inv(w) && Enabled(w, Wait)
    ensures Inv(WaitOp(w))
  {
    hide Counted, TailOk, CloseAmong, Payload;
    ExitKeepsTail(w.tail);
  }

  lemma {:induction false} EveryRunKeepsInv(streams: set<string>, steps: seq<Step>)
    ensures Inv(After(streams, steps))
  {
    hide Inv, Next, Enabled;
    if steps == [] {
      StartInv(streams);
    } else {
      var w, s := After(streams, steps[..|steps| - 1]), steps[|steps| - 1];
      EveryRunKeepsInv(streams, steps[..|steps| - 1]);
      if Enabled(w, s) {
        StepKeepsInv(w, s);
      }
    }
  }

  lemma StartInv(streams: set<string>)
    ensures Inv(Start(streams))
  {
  }

  // ---------------------------------------------------------------- what every run guarantees

  /** No schedule sends on the closed channel, closes it twice, or queues more than it holds. */
  lemma NeverPanics(streams: set<string>, steps: seq<Step>)
    ensures !After(streams, steps).pipe.panicked && |After(streams, steps).pipe.queue| <= CAPACITY
  {
    hide Next, Enabled;
    EveryRunKeepsInv(streams, steps);
  }

  /** The process is given the queued inputs in wire order, byte for byte, up to some point. */
  lemma StdinIsPrefix(streams: set<string>, steps: seq<Step>)
    ensures var w := After(streams, steps);
            |w.feed.outcomes| <= |w.feed.wire| && w.pipe.stdin <= Flatten(QueuedData(w.feed.wire, w.feed.outcomes))
  {
    hide Next, Enabled;
    EveryRunKeepsInv(streams, steps);
  }

  /**
    An input ahead of every close request is never ignored while the process runs: it is queued, or
    refused because the process is not in the table or 1024 inputs are queued already.
   */
  lemma NoneLostBeforeClose(streams: set<string>, steps: seq<Step>, n: nat)
    requires var w := After(streams, steps);
             && n < |w.feed.outcomes| && n < |w.feed.wire| && w.feed.wire[n].Data?
             && !Dying(w.waiter) && !CloseAmong(w.feed.wire, n)
    ensures var o := After(streams, steps).feed.outcomes[n];
            o == Queued || o == Full(CAPACITY) || o == NotFound(Starting) || o == NotFound(Removed)
  {
    hide Next, Enabled;
    EveryRunKeepsInv(streams, steps);
  }

  /** When a close request's goroutine comes to its first action, every frame ahead is settled. */
  lemma SettledBeforeClose(streams: set<string>, steps: seq<Step>, i: nat)
    requires i in After(streams, steps).feed.requests
    ensures var f := After(streams, steps).feed;
            i < |f.outcomes| && i < |f.wire| && f.wire[i] == CloseRequest
  {
    hide Next, Enabled;
    EveryRunKeepsInv(streams, steps);
  }

  /**
    When the writer has closed the stdin of a running process, there was a close request, and the
    process has been given exactly the queued inputs; nothing is queued any more.
   */
  lemma EofAfterInput(streams: set<string>, steps: seq<Step>)
    requires After(streams, steps).pipe.writer == Done
    ensures var w := After(streams, steps);
            && |w.feed.outcomes| <= |w.feed.wire| && w.pipe.stdin == Flatten(QueuedData(w.feed.wire, w.feed.outcomes))
            && (Dying(w.waiter) || CloseAmong(w.feed.wire, |w.feed.wire|))
            && forall data :: InputOp(w.pipe, data) == (w.pipe, Ignored)
  {
    hide Next, Enabled;
    EveryRunKeepsInv(streams, steps);
  }

  /**
    The exit notification is the last frame of its process, there is one, and by then each stream's
    frames spell exactly what was read from it.
   */
  lemma ExitComesLast(streams: set<string>, steps: seq<Step>, k: nat)
    requires k < |After(streams, steps).tail.out| && After(streams, steps).tail.out[k] == Exit
    ensures var t := After(streams, steps).tail;
            k == |t.out| - 1 && forall name :: name in t.got ==> Payload(t.out, name) == t.got[name]
  {
    hide Next, Enabled;
    EveryRunKeepsInv(streams, steps);
    var t := After(streams, steps).tail;
    forall name | name in t.got
      ensures Payload(t.out, name) == t.got[name]
    {
      assert StreamOk(t, name);
    }
  }

  /** At any time they spell what was read but for one read that is on its way. */
  lemma OutputInOrder(streams: set<string>, steps: seq<Step>, name: string)
    requires name in After(streams, steps).tail.got
    ensures var t := After(streams, steps).tail;
            && Payload(t.out, name) <= t.got[name]
            && |t.got[name]| - |Payload(t.out, name)| <= READ_SIZE
            && forall k :: 0 <= k < |t.out| && t.out[k].Output? ==> 1 <= |t.out[k].data| <= READ_SIZE
  {
    hide Next, Enabled;
    EveryRunKeepsInv(streams, steps);
    assert StreamOk(After(streams, steps).tail, name);
  }

  // ---------------------------------------------------------------- what the steps achieve

  /**
    From any reachable state in which the read loop is free, the next input is queued if and only if
    the process is in the table, its channel is not closed, and there is room; else the refusal says why.
   */
  lemma InputOutcome(streams: set<string>, steps: seq<Step>, data: bytes)
    requires !After(streams, steps).feed.holding
    ensures var w := After(streams, steps);
            var read := Next(w, Receive(Data(data)));
            read.feed.wire == w.feed.wire + [Data(data)] &&
            if w.entry != Listed then read.feed.outcomes == w.feed.outcomes + [NotFound(w.entry)] && read.pipe == w.pipe
            else
              read.feed.outcomes == w.feed.outcomes && Enabled(read, Enqueue) &&
              var put := Next(read, Enqueue);
              if w.pipe.closed then put.feed.outcomes == w.feed.outcomes + [Ignored] && put.pipe == w.pipe
              else if |w.pipe.queue| == CAPACITY then
                put.feed.outcomes == w.feed.outcomes + [Full(CAPACITY)] && put.pipe == w.pipe
              else
                && put.feed.outcomes == w.feed.outcomes + [Queued]
                && put.pipe == w.pipe.(queue := w.pipe.queue + [data], accepted := w.pipe.accepted + [data])
  {
    EveryRunKeepsInv(streams, steps);
    hide After, TailOk, ClosersOk, Counted, Conserves;
  }

  /** The writer passes the next input on, or sees the end of a closed channel. */
  lemma WriterPasses(streams: set<string>, steps: seq<Step>)
    requires Enabled(After(streams, steps), Take)
    ensures var w := After(streams, steps);
            var took := Next(w, Take);
            if w.pipe.queue == [] then took.pipe == w.pipe.(writer := Done) else
            var data := w.pipe.queue[0];
            Enabled(took, Write(|data|, true)) &&
            Next(took, Write(|data|, true)).pipe == w.pipe.(queue := w.pipe.queue[1..], stdin := w.pipe.stdin + data)
  {
    hide After;
    assert After(streams, steps).pipe.queue != [] ==>
        var data := After(streams, steps).pipe.queue[0]; data[..|data|] == data;
  }

  /** A close request starts a goroutine; if the process is in the table, its next three actions close the channel. */
  lemma CloseCloses(streams: set<string>, steps: seq<Step>, i: nat)
    requires i in After(streams, steps).feed.requests && After(streams, steps).feed.requests[i] == Looking
    ensures var w := After(streams, steps);
            if w.entry != Listed then Next(w, Close(i)) == w.(feed := Next(w, Close(i)).feed) else
            var w1 := Next(w, Close(i));
            i in w1.feed.requests &&
            var w2 := Next(w1, Close(i));
            i in w2.feed.requests && w2.pipe.closed &&
            var w3 := Next(w2, Close(i));
            && i in w3.feed.requests && w3.feed.requests[i] == Closed && w3.pipe.shut
            && w3.pipe.queue == w.pipe.queue && w3.pipe.stdin == w.pipe.stdin
  {
    EveryRunKeepsInv(streams, steps);
    hide After, FeedOk, TailOk, ClosersOk, Counted, Conserves;
  }

  lemma CloseStarts(streams: set<string>, steps: seq<Step>)
    requires !After(streams, steps).feed.holding
    ensures var w := After(streams, steps);
            var read := Next(w, Receive(CloseRequest));
            && read.feed.wire == w.feed.wire + [CloseRequest] && read.feed.outcomes == w.feed.outcomes + [Asked]
            && read.feed.requests == w.feed.requests[|w.feed.wire| := Looking] && |w.feed.wire| !in w.feed.requests
  {
    EveryRunKeepsInv(streams, steps);
    hide After, TailOk, ClosersOk, Counted, Conserves;
  }

  /** A close request that is done leaves the channel closed. */
  lemma ClosedIsShut(streams: set<string>, steps: seq<Step>, i: nat)
    requires i in After(streams, steps).feed.requests && After(streams, steps).feed.requests[i] == Closed
    ensures After(streams, steps).pipe.closed && After(streams, steps).pipe.shut
  {
    hide Next, Enabled;
    EveryRunKeepsInv(streams, steps);
  }

  /** What a read returns is the next frame of its stream, and a last read ends the reader. */
  lemma ReadIsSent(streams: set<string>, steps: seq<Step>, name: string, data: bytes, last: bool)
    requires Enabled(After(streams, steps), Read(name, data, last))
    ensures var t := After(streams, steps).tail;
            var read := Next(After(streams, steps), Read(name, data, last));
            var after := if last then Ended else Reading;
            read.tail.got == t.got[name := t.got[name] + data] && read.tail.out == t.out &&
            if data == [] then read.tail.readers == t.readers[name := after] else
            Enabled(read, Send(name)) &&
            var sent := Next(read, Send(name)).tail;
            sent == t.(got := read.tail.got, out := t.out + [Output(name, data)], readers := t.readers[name := after])
  {
    hide After;
  }

  /** Once the process is dead and its streams are read, the waiter comes to an end and everything is closed. */
  lemma WaiterEnds(streams: set<string>, steps: seq<Step>)
    requires After(streams, steps).waiter == Dead && AllEnded(After(streams, steps).tail)
    ensures var w := After(streams, steps);
            var end := WaitOp(WaitOp(WaitOp(WaitOp(WaitOp(w)))));
            && end.waiter == Gone && end.entry == Removed && end.pipe.closed && end.pipe.shut
            && end.tail == w.tail.(out := w.tail.out + [Exit]) && end.feed == w.feed
            && end.pipe.queue == w.pipe.queue && end.pipe.stdin == w.pipe.stdin
  {
    EveryRunKeepsInv(streams, steps);
    hide After, FeedOk, TailOk, ClosersOk, Counted, Conserves;
  }
}
