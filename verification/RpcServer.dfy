/**
  The flitrpc server as a step machine: handler goroutines, notifications and server requests that
  run at any speed and share one writer, whose mutex is free between frames.
 */
module RpcServer {
  import opened Msgpack
  import opened Frames
  import opened Reassembly

  /**
    nextId is the atomic counter; seen holds the ids of requests read so far and asked those still
    without an answer; out is what the writer has written; done lists the jobs whose last frame is
    out.
   */
  datatype Server = Server(
    nextId: nat,
    seen: set<int>,
    asked: set<int>,
    jobs: seq<Job>,
    out: seq<WireFrame>,
    done: seq<nat>)

  datatype Event =
    | Notify(message: Message)           // NotifyWithPayload
    | Ask(message: Message)              // SendRequest
    | Receive(id: int)                   // Serve starts handleRequest on a request
    | Answer(id: int, message: Message)  // sendResult or sendError of that goroutine
    | Complain(message: Message)         // sendError for a failed client notification
    | Emit(job: nat, frame: WireFrame)   // one writeRaw of some goroutine

  predicate Is(m: Message, kind: Value, id: int) {
    Sendable(m) && Get(m.meta, T_KEY) == kind && Id(m) == Int(id)
  }

  /**
    Client request ids are positive and fresh; client notifications carry id 0; every handler
    goroutine answers once.
   */
  ghost predicate Enabled(s: Server, e: Event) {
    match e
    case Notify(m) => Is(m, NOTIFICATION, -(s.nextId + 1))
    case Ask(m) => Is(m, REQUEST, s.nextId + 1) && m.payload == []
    case Receive(id) => id > 0 && id !in s.seen
    case Answer(id, m) => id in s.asked && Is(m, RESPONSE, id)
    case Complain(m) => Is(m, RESPONSE, 0) && m.payload == []
    case Emit(i, w) => WellFormed(w) && CanEmit(s.jobs, i, FrameOf(w))
  }

  function Next(s: Server, e: Event): Server
    requires Enabled(s, e)
  {
    match e
    case Notify(m) => s.(nextId := s.nextId + 1, jobs := s.jobs + [Job(m, 0)])
    case Ask(m) => s.(nextId := s.nextId + 1, jobs := s.jobs + [Job(m, 0)])
    case Receive(id) => s.(seen := s.seen + {id}, asked := s.asked + {id})
    case Answer(id, m) => s.(asked := s.asked - {id}, jobs := s.jobs + [Job(m, 0)])
    case Complain(m) => s.(jobs := s.jobs + [Job(m, 0)])
    case Emit(i, w) => s.(jobs := Advance(s.jobs, i), out := s.out + [w], done := Account(s.jobs, s.done, i))
  }

  const START := Server(0, {}, {}, [], [], [])

  /** The server after any schedule; an event that is not enabled does not happen. */
  ghost function After(es: seq<Event>): Server {
    if es == [] then START else
    var s, e := After(es[..|es| - 1]), es[|es| - 1];
    if Enabled(s, e) then Next(s, e) else s
  }

  // ---------------------------------------------------------------- the schedule's own record

  /** The events of the schedule that happen. */
  ghost function Happened(es: seq<Event>): seq<Event> {
    if es == [] then [] else
    var init, e := es[..|es| - 1], es[|es| - 1];
    Happened(init) + if Enabled(After(init), e) then [e] else []
  }

  /** The events that begin a message. */
  predicate Begins(e: Event) {
    e.Notify? || e.Ask? || e.Answer? || e.Complain?
  }

  /** The messages that these events begin, in order. */
  function Begun(es: seq<Event>): seq<Message> {
    if es == [] then [] else
    var e := es[|es| - 1];
    Begun(es[..|es| - 1]) + if Begins(e) then [e.message] else []
  }

  /** The frames that they write, in order. */
  function Written(es: seq<Event>): seq<WireFrame> {
    if es == [] then [] else
    var e := es[|es| - 1];
    Written(es[..|es| - 1]) + if e.Emit? then [e.frame] else []
  }

  /** How many frames they write of message i. */
  function Emits(es: seq<Event>, i: nat): nat {
    if es == [] then 0 else
    var e := es[|es| - 1];
    Emits(es[..|es| - 1], i) + if e.Emit? && e.job == i then 1 else 0
  }

  /** How many ids they draw from the counter. */
  function Draws(es: seq<Event>): nat {
    if es == [] then 0 else
    var e := es[|es| - 1];
    Draws(es[..|es| - 1]) + if e.Notify? || e.Ask? then 1 else 0
  }

  predicate Answers(es: seq<Event>, id: int) {
    exists i :: 0 <= i < |es| && es[i].Answer? && es[i].id == id
  }

  /**
    The server after a run is what the events of the run make it: one message for each event that
    begins one, as many frames of it as were written, one id for each draw, and an open request for
    each that was read and not answered.
   */
  ghost predicate Records(s: Server, es: seq<Event>) {
    IdsRecorded(s, es) && JobsRecorded(s, es)
  }

  ghost predicate IdsRecorded(s: Server, es: seq<Event>) {
    && s.nextId == Draws(es)
    && (forall id :: id in s.seen <==> Receive(id) in es)
    && (forall id :: id in s.asked <==> Receive(id) in es && !Answers(es, id))
    && (forall id :: Answers(es, id) ==> Receive(id) in es)
  }

  ghost predicate JobsRecorded(s: Server, es: seq<Event>) {
    && |s.jobs| == |Begun(es)|
    && (forall i :: 0 <= i < |s.jobs| ==> s.jobs[i] == Job(Begun(es)[i], Emits(es, i)))
    && (forall i: nat :: i >= |s.jobs| ==> Emits(es, i) == 0)
    && s.out == Written(es)
  }

  lemma {:induction false} RunRecords(es: seq<Event>)
    ensures Records(After(es), Happened(es))
  {
    hide Records, Next, Enabled;
    if es == [] {
      NothingHappened();
    } else {
      var init, e := es[..|es| - 1], es[|es| - 1];
      assert Happened(init) + [] == Happened(init);
      RunRecords(init);
      if Enabled(After(init), e) {
        StepRecords(After(init), Happened(init), e);
      }
    }
  }

  lemma NothingHappened()
    ensures Records(START, [])
  {
  }

  lemma StepRecords(s: Server, es: seq<Event>, e: Event)
    requires Records(s, es) && Enabled(s, e)
    ensures Records(Next(s, e), es + [e])
  {
    StepRecordsIds(s, es, e);
    StepRecordsJobs(s, es, e);
  }

  lemma StepRecordsIds(s: Server, es: seq<Event>, e: Event)
    requires IdsRecorded(s, es) && Enabled(s, e)
    ensures IdsRecorded(Next(s, e), es + [e])
  {
    hide CanEmit, WellFormed, Is, Answers;
    var all := es + [e];
    assert all[..|es|] == es;
    forall id
      ensures Answers(all, id) <==> Answers(es, id) || (e.Answer? && e.id == id)
      ensures Receive(id) in all <==> Receive(id) in es || e == Receive(id)
    {
      AnswersMore(es, e, id);
    }
  }

  lemma StepRecordsJobs(s: Server, es: seq<Event>, e: Event)
    requires JobsRecorded(s, es) && Enabled(s, e)
    ensures JobsRecorded(Next(s, e), es + [e])
  {
    hide WellFormed, ValidJobs, DistinctIds, IsPart, Is, FrameOf, FrameCount, Account;
    var all := es + [e];
    assert all[..|es|] == es;
    forall i: nat
      ensures Emits(all, i) == Emits(es, i) + if e.Emit? && e.job == i then 1 else 0
    {
    }
  }

  lemma AnswersMore(es: seq<Event>, e: Event, id: int)
    ensures Answers(es + [e], id) <==> Answers(es, id) || (e.Answer? && e.id == id)
  {
    var all := es + [e];
    assert all[|es|] == e;
    if Answers(es, id) {
      var i :| 0 <= i < |es| && es[i].Answer? && es[i].id == id;
      assert all[i] == es[i];
    }
  }

  // ---------------------------------------------------------------- safety

  /** An id in use by a chunked message was drawn from the right source and is used up. */
  ghost predicate IdSpent(s: Server, m: Message) {
    && Id(m).Int?
    && if Get(m.meta, T_KEY) == NOTIFICATION then -(s.nextId as int) <= Id(m).n < 0
       else Id(m).n > 0 && Id(m).n in s.seen && Id(m).n !in s.asked
  }

  ghost predicate IdsSpent(s: Server) {
    forall i :: 0 <= i < |s.jobs| && Big(s.jobs[i].message) ==> IdSpent(s, s.jobs[i].message)
  }

  ghost predicate Inv(s: Server) {
    && s.asked <= s.seen && (forall id :: id in s.seen ==> id > 0)
    && ValidJobs(s.jobs) && IdsSpent(s) && DistinctIds(s.jobs)
    && AllWellFormed(s.out) && NeverFails(FramesOf(s.out))
    && Tracks(Replay(FramesOf(s.out)), s.jobs, s.done)
  }

  /** Chunked messages never share an id, under any schedule, and the client tracks all of them. */
  lemma {:induction false} EveryRunIsSafe(es: seq<Event>)
    ensures Inv(After(es))
  {
    if es == [] {
      assert FramesOf([]) == [];
    } else {
      EveryRunIsSafe(es[..|es| - 1]);
      if Enabled(After(es[..|es| - 1]), es[|es| - 1]) {
        StepIsSafe(After(es[..|es| - 1]), es[|es| - 1]);
      }
    }
  }

  lemma StepIsSafe(s: Server, e: Event)
    requires Inv(s) && Enabled(s, e)
    ensures Inv(Next(s, e))
  {
    hide Tracks, Dispatch, Replay, FrameCount, Sendable, CanEmit;
    match e
    case Receive(id) =>
    case Emit(i, w) => EmitIsSafe(s, i, w);
    case Notify(m) => NewJobIsSafe(s, e, m);
    case Ask(m) => NewJobIsSafe(s, e, m);
    case Answer(id, m) => NewJobIsSafe(s, e, m);
    case Complain(m) => NewJobIsSafe(s, e, m);
  }

  /** A new message takes an id that no chunked message of the run has used. */
  lemma NewJobIsSafe(s: Server, e: Event, m: Message)
    requires Inv(s) && Enabled(s, e) && !e.Receive? && !e.Emit? && m == e.message
    ensures Inv(Next(s, e))
  {
    hide Dispatch, Replay, Tracks, FrameCount;
    var s' := Next(s, e);
    assert s'.jobs == s.jobs + [Job(m, 0)];
    JobsGrow(Replay(FramesOf(s.out)), s.jobs, s.done, m);
  }

  lemma JobsGrow(c: Client, jobs: seq<Job>, done: seq<nat>, m: Message)
    requires Tracks(c, jobs, done) && Sendable(m)
    ensures Tracks(c, jobs + [Job(m, 0)], done)
  {
    hide FrameCount, Delivery;
    var jobs' := jobs + [Job(m, 0)];
    assert Deliveries(jobs', done) == Deliveries(jobs, done);
    forall id | id in c.chunks
      ensures exists i :: 0 <= i < |jobs'| && Owns(jobs'[i], id)
    {
      var i :| 0 <= i < |jobs| && Owns(jobs[i], id);
      assert Owns(jobs'[i], id);
    }
  }

  lemma AdvanceKeepsJobs(jobs: seq<Job>, i: nat)
    requires i < |jobs| && ValidJobs(jobs) && DistinctIds(jobs) && !Finished(jobs[i])
    ensures ValidJobs(Advance(jobs, i)) && DistinctIds(Advance(jobs, i))
    ensures forall k :: 0 <= k < |jobs| ==> Advance(jobs, i)[k].message == jobs[k].message
  {
    hide FrameCount, Sendable;
  }

  lemma EmitIsSafe(s: Server, i: nat, w: WireFrame)
    requires Inv(s) && Enabled(s, Emit(i, w))
    ensures Inv(Next(s, Emit(i, w)))
  {
    hide Dispatch, Tracks, WellFormed, FrameOf, FrameCount, IsPart, Account, ValidJobs, DistinctIds;
    AdvanceKeepsJobs(s.jobs, i);
    var s', fs, f := Next(s, Emit(i, w)), FramesOf(s.out), FrameOf(w);
    assert FramesOf(s'.out) == fs + [f];
    assert (fs + [f])[..|fs|] == fs;
    EmitKeepsTrack(Replay(fs), s.jobs, s.done, i, f);
    forall n | 0 <= n < |fs + [f]|
      ensures !Dispatch(Replay((fs + [f])[..n]), (fs + [f])[n]).failed
    {
      if n < |fs| {
        assert (fs + [f])[..n] == fs[..n];
      }
    }
  }
}
