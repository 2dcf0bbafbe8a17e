/**
  The client's connection object: an incremental parser whose handlers may run the process filter
  again, the chunk table, and the table of pending requests.
 */
module Connection {
  import opened Bytes
  import opened Msgpack
  import opened Frames
  import opened Reassembly
  import opened FrameReader
  import opened Options

  /** How a handler is left: normally, by an error, or by a throw or quit that nothing here catches. */
  datatype Exit = Return | Error | Throw

  /** What a handler, or the user between handlers, may do to the connection. */
  datatype Action =
    | Deliver(count: nat, handlers: seq<Handler>) // the process filter runs on the next bytes
    | Request(meta: seq<Pair>, payload: Option<bytes>) // flitrpc-request
    | Timeout(id: nat)                            // a synchronous request gives up
    | SyncDone                                    // a synchronous request's callback ran
    // the sentinel sees the process dead; calls are its callbacks, and seen the requests registered
    // meanwhile that its maphash visits
    | Shutdown(calls: seq<Handler>, seen: set<nat>)

  /** A handler call, as the actions it performs; the calls nest to any finite depth. */
  datatype Handler = Handler(actions: seq<Action>, exit: Exit)

  /** Handlers that return normally and complete no synchronous request, at any depth. */
  predicate Quiet(handlers: seq<Handler>) {
    forall h :: h in handlers ==> h.exit == Return && forall a :: a in h.actions ==> QuietAction(a)
  }

  predicate QuietAction(a: Action) {
    !a.SyncDone? && (a.Deliver? ==> Quiet(a.handlers)) && (a.Shutdown? ==> Quiet(a.calls))
  }

  /** Frame i of the stream signals an error when it is dispatched in its turn. */
  ghost predicate FailsAt(frames: seq<WireFrame>, i: nat) {
    AllWellFormed(frames) && i < |frames| &&
    Dispatch(Replay(FramesOf(frames[..i])), FrameOf(frames[i])).failed
  }

  ghost predicate SomeFails(frames: seq<WireFrame>, from: nat, upto: nat) {
    exists i: nat :: from <= i < upto && FailsAt(frames, i)
  }

  lemma NoneFails(frames: seq<WireFrame>, from: nat)
    ensures !SomeFails(frames, from, from)
  {
  }

  lemma NoneQuiet()
    ensures Quiet([])
  {
  }

  lemma SomeFailsMore(frames: seq<WireFrame>, from: nat, upto: nat)
    requires from <= upto
    ensures SomeFails(frames, from, upto + 1) <==> SomeFails(frames, from, upto) || FailsAt(frames, upto)
  {
    hide FailsAt;
  }

  /** How the parse loop was left. */
  datatype LoopExit = Drained | Interrupted | Aborted

  /** How a request ended; the answer is the log entry whose handler was its callback. */
  datatype Outcome = Answered(entry: nat) | TimedOut | Closed

  datatype Ending = Ending(id: nat, outcome: Outcome)

  ghost predicate DistinctEndings(ended: seq<Ending>) {
    forall i, j :: 0 <= i < j < |ended| ==> ended[i].id != ended[j].id
  }

  /** Every id handed out is pending, or has ended once and is not. */
  ghost predicate Accounts(pending: set<nat>, ended: seq<Ending>, nextId: nat) {
    && DistinctEndings(ended)
    && (forall id :: id in pending ==> 1 <= id <= nextId)
    && (forall i :: 0 <= i < |ended| ==> 1 <= ended[i].id <= nextId && ended[i].id !in pending)
    && (forall id: nat :: 1 <= id <= nextId && id !in pending ==> HasEnded(ended, id))
  }

  ghost predicate HasEnded(ended: seq<Ending>, id: nat) {
    exists i :: 0 <= i < |ended| && ended[i].id == id
  }

  /** A request frame that went out. */
  datatype Asked = Asked(id: nat, meta: seq<Pair>, payload: Option<bytes>)

  /** The frames carry the ids, which only grow. */
  predicate AsksInOrder(asked: seq<Asked>, sent: seq<WireFrame>, nextId: nat) {
    && |sent| == |asked|
    && (forall i :: 0 <= i < |asked| ==>
          && 1 <= asked[i].id <= nextId
          && ClientFrame(1, asked[i].id, asked[i].meta, asked[i].payload) == Some(sent[i]))
    && forall i, j :: 0 <= i < j < |asked| ==> asked[i].id < asked[j].id
  }

  /** The requests that these callbacks make. */
  function Asks(calls: seq<Handler>): nat {
    if calls == [] then 0 else Asks(calls[..|calls| - 1]) + Requests(calls[|calls| - 1].actions)
  }

  function Requests(actions: seq<Action>): nat {
    if actions == [] then 0
    else Requests(actions[..|actions| - 1]) + if actions[|actions| - 1].Request? then 1 else 0
  }

  ghost predicate AllEnded(ended: seq<Ending>, ids: set<nat>) {
    forall id :: id in ids ==> HasEnded(ended, id)
  }

  /** An answered request got the response that carries its own id. */
  ghost predicate OwnAnswers(ended: seq<Ending>, log: seq<Frame>) {
    forall i :: 0 <= i < |ended| && ended[i].outcome.Answered? ==>
      var k := ended[i].outcome.entry;
      && k < |log|
      && Kind(log[k].meta) == RESPONSE
      && Get(log[k].meta, ID_KEY) == Int(ended[i].id)
  }

  /** The callback of some request was called with this log entry. */
  ghost predicate IsAnswer(ended: seq<Ending>, entry: nat) {
    exists i :: 0 <= i < |ended| && ended[i].outcome == Answered(entry)
  }

  /**
    The log entries for which a handler was called, each once and in their order: all notifications
    and requests of the server, and the responses that answered a request.
   */
  ghost predicate HandledOnce(handled: seq<nat>, log: seq<Frame>, ended: seq<Ending>) {
    && (forall i, j :: 0 <= i < j < |handled| ==> handled[i] < handled[j])
    && (forall k :: k in handled ==> k < |log|)
    && forall k: nat :: k < |log| ==> (k in handled <==> (Kind(log[k].meta) == RESPONSE ==> IsAnswer(ended, k)))
  }

  lemma AnswersKnown(ended: seq<Ending>, log: seq<Frame>)
    requires OwnAnswers(ended, log)
    ensures !IsAnswer(ended, |log|)
  {
    hide Get, Kind;
  }

  /** A new entry: a handler is due for it unless it is a response. */
  lemma HandledNext(handled: seq<nat>, log: seq<Frame>, ended: seq<Ending>, f: Frame)
    requires HandledOnce(handled, log, ended) && OwnAnswers(ended, log)
    ensures |log| !in handled
    ensures HandledOnce(if Kind(f.meta) == RESPONSE then handled else handled + [|log|], log + [f], ended)
  {
    AnswersKnown(ended, log);
    hide Kind, OwnAnswers, IsAnswer;
    if Kind(f.meta) != RESPONSE {
      Ascends(handled, |log|);
    }
  }

  /** A later entry keeps the order. */
  lemma Ascends(handled: seq<nat>, last: nat)
    requires forall i, j :: 0 <= i < j < |handled| ==> handled[i] < handled[j]
    requires forall k :: k in handled ==> k < last
    ensures var handled' := handled + [last];
            && (forall i, j :: 0 <= i < j < |handled'| ==> handled'[i] < handled'[j])
            && forall k :: k in handled' <==> k in handled || k == last
  {
    assert forall i :: 0 <= i < |handled| ==> handled[i] in handled;
  }

  /** The callback is due for the answer. */
  lemma HandledAnswer(handled: seq<nat>, log: seq<Frame>, ended: seq<Ending>, id: nat)
    requires HandledOnce(handled, log, ended) && log != [] && |log| - 1 !in handled
    requires Kind(log[|log| - 1].meta) == RESPONSE
    ensures HandledOnce(handled + [|log| - 1], log, ended + [Ending(id, Answered(|log| - 1))])
  {
    hide Kind, IsAnswer;
    var last: nat := |log| - 1;
    forall k: nat
      ensures IsAnswer(ended + [Ending(id, Answered(last))], k) <==> IsAnswer(ended, k) || k == last
    {
      MoreEndings(ended, Ending(id, Answered(last)), k);
    }
    assert forall k :: k in handled ==> k < last;
    Ascends(handled, last);
  }

  lemma MoreEndings(ended: seq<Ending>, last: Ending, k: nat)
    ensures IsAnswer(ended + [last], k) <==> IsAnswer(ended, k) || last.outcome == Answered(k)
  {
    var ended' := ended + [last];
    assert ended'[|ended|] == last;
    if IsAnswer(ended, k) {
      var i :| 0 <= i < |ended| && ended[i].outcome == Answered(k);
      assert ended'[i].outcome == Answered(k);
    }
  }

  /** Any other ending calls for no handler. */
  lemma HandledStays(handled: seq<nat>, log: seq<Frame>, ended: seq<Ending>, id: nat, outcome: Outcome)
    requires HandledOnce(handled, log, ended) && !outcome.Answered?
    ensures HandledOnce(handled, log, ended + [Ending(id, outcome)])
  {
    hide Kind, IsAnswer;
    forall k: nat
      ensures IsAnswer(ended + [Ending(id, outcome)], k) <==> IsAnswer(ended, k)
    {
      MoreEndings(ended, Ending(id, outcome), k);
    }
  }

  /**
    A response among the first n entries that no handler was called for is one to a request that is
    not pending, or had not been made when it came: issued says which ids had been given out by then.
   */
  ghost predicate Excused(log: seq<Frame>, handled: seq<nat>, issued: seq<nat>, pending: set<nat>, nextId: nat, n: nat)
  {
    && |issued| == |log| && n <= |log|
    && (forall k :: 0 <= k < |issued| ==> issued[k] <= nextId)
    && forall k: nat :: k < n && k !in handled && Kind(log[k].meta) == RESPONSE ==>
         !Open(Get(log[k].meta, ID_KEY), issued[k], pending)
  }

  /** The id is one of the first nextId, and pending. */
  predicate Open(id: Value, nextId: nat, pending: set<nat>) {
    id.Int? && 1 <= id.n <= nextId && id.n in pending
  }

  lemma ExcusedNext(log: seq<Frame>, handled: seq<nat>, issued: seq<nat>, pending: set<nat>, nextId: nat, f: Frame)
    requires Excused(log, handled, issued, pending, nextId, |log|)
    ensures Excused(log + [f], handled, issued + [nextId], pending, nextId, |log|)
    ensures Kind(f.meta) != RESPONSE ==>
              Excused(log + [f], handled + [|log|], issued + [nextId], pending, nextId, |log| + 1)
  {
    hide Kind, Get, Open;
    assert forall k :: k in handled ==> k in handled + [|log|];
  }

  lemma ExcusedAnswer(log: seq<Frame>, handled: seq<nat>, issued: seq<nat>, pending: set<nat>, nextId: nat, id: nat)
    requires log != [] && Excused(log, handled, issued, pending, nextId, |log| - 1)
    ensures Excused(log, handled + [|log| - 1], issued, pending - {id}, nextId, |log|)
  {
    hide Kind, Get;
    assert |log| - 1 in handled + [|log| - 1];
    assert forall k :: k in handled ==> k in handled + [|log| - 1];
  }

  lemma ExcusedLate(log: seq<Frame>, handled: seq<nat>, issued: seq<nat>, pending: set<nat>, nextId: nat)
    requires log != [] && Excused(log, handled, issued, pending, nextId, |log| - 1)
    requires !Open(Get(log[|log| - 1].meta, ID_KEY), nextId, pending)
    ensures Excused(log, handled, issued, pending, nextId, |log|)
  {
    hide Kind, Get;
  }

  lemma ExcusedStays(log: seq<Frame>, handled: seq<nat>, issued: seq<nat>, pending: set<nat>, nextId: nat,
                     pending': set<nat>, nextId': nat, n: nat)
    requires Excused(log, handled, issued, pending, nextId, n) && nextId <= nextId'
    requires forall id :: id in pending' && id !in pending ==> id > nextId
    ensures Excused(log, handled, issued, pending', nextId', n)
  {
    hide Kind, Get;
  }

  // ---------------------------------------------------------------- what handlers do

  /** A handler is to be called for the message: it is no response, or one to a pending request. */
  predicate Concerns(message: Frame, pending: set<nat>) {
    var id := Get(message.meta, ID_KEY);
    Kind(message.meta) != RESPONSE || (id.Int? && id.n in pending)
  }

  /** The first of the calls, made for this message, leaves the parse loop; condition-case stops an error. */
  predicate Aborts(message: Frame, calls: seq<Handler>) {
    calls != [] && (calls[0].exit == Throw || (calls[0].exit == Error && Kind(message.meta) != NOTIFICATION))
  }

  /** What the actions of a handler change. */
  datatype Status = Status(
    nextId: nat, pending: set<nat>, asked: seq<Asked>, arrived: nat, taken: nat, logged: nat,
    live: bool, syncDone: bool)

  /** A request that is not pending any more is never pending again. */
  predicate OnlyNew(before: set<nat>, nextId: nat, after: set<nat>, nextId': nat) {
    forall id :: id in after ==> id in before || nextId < id <= nextId'
  }

  lemma NoneNew(pending: set<nat>, nextId: nat)
    ensures OnlyNew(pending, nextId, pending, nextId)
  {
  }

  lemma NoPending(before: set<nat>, nextId: nat, nextId': nat)
    ensures OnlyNew(before, nextId, {}, nextId')
  {
  }

  lemma OnlyNewTwice(a: set<nat>, n: nat, b: set<nat>, n': nat, c: set<nat>, n'': nat)
    requires n <= n' <= n'' && OnlyNew(a, n, b, n') && OnlyNew(b, n', c, n'')
    ensures OnlyNew(a, n, c, n'')
  {
  }

  /** No action lets the filter or the sentinel run. */
  predicate Plain(actions: seq<Action>) {
    forall a :: a in actions ==> !a.Deliver? && !a.Shutdown?
  }

  function Delivered(actions: seq<Action>): nat {
    if actions == [] then 0
    else Delivered(actions[..|actions| - 1]) +
         if actions[|actions| - 1].Deliver? then actions[|actions| - 1].count else 0
  }

  function GivenUp(actions: seq<Action>): set<nat> {
    set a | a in actions && a.Timeout? :: a.id
  }

  /** The request frames that the actions send, if nothing comes in between. */
  function AskedBy(actions: seq<Action>, nextId: nat): seq<Asked> {
    if actions == [] then [] else
    var init, last, id := actions[..|actions| - 1], actions[|actions| - 1], nextId + Requests(actions);
    AskedBy(init, nextId) +
    if last.Request? && ClientFrame(1, id, last.meta, last.payload).Some?
    then [Asked(id, last.meta, last.payload)] else []
  }

  /**
    The actions were performed, and whatever handlers they let run in between. The stream holds size
    bytes. Plain actions have no effect but their own.
   */
  predicate Performed(a: Status, b: Status, actions: seq<Action>, size: nat) {
    && b.nextId >= a.nextId + Requests(actions)
    && OnlyNew(a.pending, a.nextId, b.pending, b.nextId)
    && (forall id :: id in GivenUp(actions) && id <= a.nextId ==> id !in b.pending)
    && (b.live ==> a.live && forall x :: x in actions ==> !x.Shutdown?)
    && (b.live ==> b.arrived >= a.arrived + Delivered(actions) || b.arrived >= size)
    && (Plain(actions) ==>
          && b.nextId == a.nextId + Requests(actions)
          && a.pending + NewIds(a.nextId, b.nextId) - GivenUp(actions) <= b.pending
          && b.asked == a.asked + (if a.live then AskedBy(actions, a.nextId) else [])
          && b.arrived == a.arrived && b.taken == a.taken && b.logged == a.logged && b.live == a.live
          && (b.syncDone <==> a.syncDone || SyncDone in actions))
  }

  lemma OneAction(x: Action, nextId: nat)
    ensures Requests([x]) == if x.Request? then 1 else 0
    ensures Delivered([x]) == if x.Deliver? then x.count else 0
    ensures GivenUp([x]) == if x.Timeout? then {x.id} else {}
    ensures AskedBy([x], nextId) ==
            if x.Request? && ClientFrame(1, nextId + 1, x.meta, x.payload).Some?
            then [Asked(nextId + 1, x.meta, x.payload)] else []
    ensures NewIds(nextId, nextId) == {} && NewIds(nextId, nextId + 1) == {nextId + 1}
  {
    hide ClientFrame;
    assert [x][..0] == [] && x in [x];
    assert Between(nextId, nextId + 1, nextId + 1);
  }

  lemma NothingPerformed(a: Status, size: nat)
    requires forall id :: id in a.pending ==> id <= a.nextId
    ensures Performed(a, a, [], size)
  {
  }

  lemma OnePerformed(a: Status, b: Status, c: Status, actions: seq<Action>, x: Action, size: nat)
    requires Performed(a, b, actions, size) && Performed(b, c, [x], size)
    requires b.arrived <= c.arrived
    ensures Performed(a, c, actions + [x], size)
  {
    hide NewIds, Requests, Delivered, AskedBy, ClientFrame;
    var all := actions + [x];
    AddsUp(actions, x, a.nextId);
    OneAction(x, b.nextId);
    if Plain(all) {
      assert forall y :: y in actions ==> y in all;
      assert Plain(actions) && x in all && Plain([x]);
      IdsAddUp(a.nextId, b.nextId, c.nextId);
    }
  }

  lemma NoActions(nextId: nat)
    ensures Requests([]) == 0 && forall table :: WithIds(table, nextId, nextId) == table
  {
  }

  lemma IdsAreNew(pending: set<nat>, a: nat, b: nat)
    ensures OnlyNew(pending, a, WithIds(pending, a, b), b)
  {
  }

  lemma IdsAddUp(a: nat, b: nat, c: nat)
    requires a <= b <= c
    ensures NewIds(a, c) == NewIds(a, b) + NewIds(b, c)
  {
  }

  /** The table after the requests from a to b. */
  function WithIds(table: set<nat>, a: nat, b: nat): set<nat> {
    table + NewIds(a, b)
  }

  lemma MoreIds(table: set<nat>, a: nat, b: nat, c: nat)
    requires a <= b <= c
    ensures WithIds(WithIds(table, a, b), b, c) == WithIds(table, a, c)
  {
    IdsAddUp(a, b, c);
  }

  lemma OneMoreAction(actions: seq<Action>, i: nat)
    requires i < |actions|
    ensures Requests(actions[..i + 1]) == Requests(actions[..i]) + Requests([actions[i]])
  {
    assert actions[..i + 1] == actions[..i] + [actions[i]];
    AddsUp(actions[..i], actions[i], 0);
  }

  lemma AddsUp(actions: seq<Action>, x: Action, nextId: nat)
    ensures Requests(actions + [x]) == Requests(actions) + Requests([x])
    ensures Delivered(actions + [x]) == Delivered(actions) + Delivered([x])
    ensures GivenUp(actions + [x]) == GivenUp(actions) + GivenUp([x])
    ensures AskedBy(actions + [x], nextId) == AskedBy(actions, nextId) + AskedBy([x], nextId + Requests(actions))
  {
    hide ClientFrame;
    assert (actions + [x])[..|actions|] == actions;
    OneAction(x, nextId + Requests(actions));
  }

  lemma AskedMore(asked: seq<Asked>, sent: seq<WireFrame>, id: nat, meta: seq<Pair>, payload: Option<bytes>)
    requires id > 0 && AsksInOrder(asked, sent, id - 1)
    ensures AsksInOrder(asked, sent, id)
    ensures var frame := ClientFrame(1, id, meta, payload);
            frame.Some? ==> AsksInOrder(asked + [Asked(id, meta, payload)], sent + [frame.value], id)
  {
    hide ClientFrame;
  }

  lemma AccountsRequest(pending: set<nat>, ended: seq<Ending>, nextId: nat)
    requires Accounts(pending, ended, nextId)
    ensures Accounts(pending + {nextId + 1}, ended, nextId + 1)
  {
  }

  lemma IdIsFresh(pending: set<nat>, failed: set<nat>, ended: seq<Ending>, nextId: nat)
    requires Accounts(pending, ended, nextId) && AllEnded(ended, failed)
    ensures nextId + 1 !in failed
  {
  }

  lemma NoneFailed(ended: seq<Ending>)
    ensures AllEnded(ended, {})
  {
  }

  lemma OwnAnswersGrow(ended: seq<Ending>, log: seq<Frame>, f: Frame)
    requires OwnAnswers(ended, log)
    ensures OwnAnswers(ended, log + [f])
  {
    hide Get, Kind;
  }

  lemma OwnAnswersStay(ended: seq<Ending>, log: seq<Frame>, id: nat)
    requires OwnAnswers(ended, log)
    ensures OwnAnswers(ended + [Ending(id, Closed)], log)
  {
    hide Get;
  }

  lemma EndedMore(ended: seq<Ending>, failed: set<nat>, id: nat, outcome: Outcome)
    requires AllEnded(ended, failed)
    ensures AllEnded(ended + [Ending(id, outcome)], failed + {id})
  {
    var ended' := ended + [Ending(id, outcome)];
    assert ended'[|ended|].id == id;
    forall k | k in failed
      ensures HasEnded(ended', k)
    {
      var i :| 0 <= i < |ended| && ended[i].id == k;
      assert ended'[i].id == k;
    }
  }

  lemma AccountsEnd(pending: set<nat>, ended: seq<Ending>, nextId: nat, id: nat, outcome: Outcome)
    requires Accounts(pending, ended, nextId) && id in pending
    ensures Accounts(pending - {id}, ended + [Ending(id, outcome)], nextId)
  {
    var ended' := ended + [Ending(id, outcome)];
    forall k: nat | 1 <= k <= nextId && k !in pending - {id}
      ensures HasEnded(ended', k)
    {
      if k == id {
        assert ended'[|ended|].id == k;
      } else {
        var i :| 0 <= i < |ended| && ended[i].id == k;
        assert ended'[i].id == k;
      }
    }
  }

  lemma OwnAnswersEnd(ended: seq<Ending>, log: seq<Frame>, id: nat)
    requires OwnAnswers(ended, log) && log != []
    requires Kind(log[|log| - 1].meta) == RESPONSE && Get(log[|log| - 1].meta, ID_KEY) == Int(id)
    ensures OwnAnswers(ended + [Ending(id, Answered(|log| - 1))], log)
  {
  }

  class Conn {
    /** What the server's end of the connection writes, and how much of it has arrived. */
    const stream: bytes
    ghost const frames: seq<WireFrame>
    var arrived: nat

    var buffer: bytes
    var chunks: map<Value, Chunk>
    var pending: set<nat>
    var nextId: nat
    var syncDone: bool
    /** The process lives. What is written to it, and the requests that the sentinel has failed. */
    var live: bool
    var sent: seq<WireFrame>
    var failed: set<nat>

    /** The frames dispatched so far are the first taken ones of the stream. */
    ghost var taken: nat
    /** The messages that were dispatched, a chunked one as one, in the order the dispatches began. */
    ghost var log: seq<Frame>
    ghost var ended: seq<Ending>
    /** The entries of the log whose handlers were called, and the last id given out when each entry came. */
    ghost var handled: seq<nat>
    ghost var issued: seq<nat>
    ghost var asked: seq<Asked>
    /** No sentinel has left the requests in disorder. */
    ghost var clean: bool

    ghost predicate Valid()
      reads this
    {
      Ready() && (clean || live ==> failed == {})
    }

    /** Valid, but for the requests that the sentinel has failed and not yet taken from the table. */
    ghost predicate Ready()
      reads this
    {
      && Steady() && HandledOnce(handled, log, ended)
      && Excused(log, handled, issued, pending, nextId, |log|)
    }

    /** Valid, but that the last message is a response which may have to be handled. */
    ghost predicate Arrived()
      reads this
    {
      && Steady() && (clean || live ==> failed == {})
      && log != [] && |log| - 1 !in handled && HandledOnce(handled, log, ended)
      && Excused(log, handled, issued, pending, nextId, |log| - 1)
    }

    /** Valid, but for the handler of the last message, which is about to be called. */
    ghost predicate Due()
      reads this
    {
      && Steady() && (clean || live ==> failed == {})
      && log != [] && HandledOnce(handled + [|log| - 1], log, ended)
      && Excused(log, handled + [|log| - 1], issued, pending, nextId, |log|)
    }

    ghost predicate Steady()
      reads this
    {
      && InStep()
      && Client(chunks, log) == Replay(FramesOf(frames[..taken]))
      && Accounted() && OwnAnswers(ended, log) && AsksInOrder(asked, sent, nextId)
      && (forall id :: id in pending ==> id <= nextId)
    }

    /** Every other request is pending or has ended once. */
    ghost predicate Accounted()
      reads this
    {
      clean ==> failed <= pending && Accounts(pending - failed, ended, nextId) && AllEnded(ended, failed)
    }

    /** The buffer holds exactly the bytes that arrived after the taken frames. */
    ghost predicate InStep()
      reads this`taken, this`arrived, this`buffer
    {
      && AllWellFormed(frames) && stream == Wire(frames)
      && taken <= |frames| && arrived <= |stream|
      && |Wire(frames[..taken])| <= arrived
      && buffer == stream[|Wire(frames[..taken])|..arrived]
    }

    /** Valid, but for the dispatch of f, which is out of the buffer. */
    ghost predicate Owes(f: Frame)
      reads this
    {
      && InStep()
      && Dispatch(Client(chunks, log), f).client == Replay(FramesOf(frames[..taken]))
      && HandledOnce(handled, log, ended) && Excused(log, handled, issued, pending, nextId, |log|)
      && Accounted() && OwnAnswers(ended, log) && AsksInOrder(asked, sent, nextId)
      && (forall id :: id in pending ==> id <= nextId)
      && (clean || live ==> failed == {})
    }

    /** What only grows while handlers run. */
    twostate predicate Grows()
      reads this
    {
      && old(arrived) <= arrived && old(taken) <= taken && old(nextId) <= nextId
      && old(log) <= log && old(ended) <= ended && old(asked) <= asked
      && old(handled) <= handled && old(issued) <= issued
      && (live ==> old(live))
      && OnlyNew(old(pending), old(nextId), pending, nextId)
    }

    ghost function CurrentStatus(): Status
      reads this
    {
      Status(nextId, pending, asked, arrived, taken, |log|, live, syncDone)
    }

    constructor (ghost frames: seq<WireFrame>, stream: bytes)
      requires AllWellFormed(frames) && stream == Wire(frames)
      ensures Valid() && this.frames == frames && this.stream == stream
      ensures arrived == 0 && taken == 0 && log == [] && nextId == 0 && live && clean && handled == []
    {
      this.frames, this.stream := frames, stream;
      arrived, buffer, chunks, pending, nextId, syncDone := 0, [], map[], {}, 0, false;
      live, sent, failed := true, [], {};
      taken, log, ended, handled, issued, asked, clean := 0, [], [], [], [], [], true;
    }

    /** The process filter: the next count bytes arrive and the parse loop runs. */
    method Filter(count: nat, handlers: seq<Handler>) returns (exit: LoopExit)
      requires Valid()
      modifies this
      ensures Valid() && Grows()
      ensures exit.Drained? ==> NextFrame(buffer).Incomplete?
      ensures !exit.Drained? ==> old(taken) < taken
      ensures exit.Interrupted? || (exit.Drained? && old(taken) < taken) ==> !syncDone
      ensures old(!syncDone) && Quiet(handlers) ==> !syncDone && !exit.Interrupted?
      ensures old(!syncDone) && Quiet(handlers) && NeverFails(FramesOf(frames)) ==> exit.Drained?
      ensures arrived >= if old(arrived) + count <= |stream| then old(arrived) + count else |stream|
      decreases handlers, 4
    {
      hide Replay, FramesOf, Wire, AllEnded, Accounts, OwnAnswers, AsksInOrder, NextFrame, HandledOnce, Excused;
      var upto := if arrived + count <= |stream| then arrived + count else |stream|;
      assert buffer + stream[arrived..upto] == stream[|Wire(frames[..taken])|..upto];
      buffer, arrived := buffer + stream[arrived..upto], upto;
      exit := ParseFrames(handlers);
    }

    /**
      flitrpc--parse-frames. Each frame leaves the buffer before its handler runs, so a handler may
      run the filter again.
     */
    method ParseFrames(handlers: seq<Handler>) returns (exit: LoopExit)
      requires Valid()
      modifies this
      ensures Valid() && Grows()
      ensures exit.Drained? ==> NextFrame(buffer).Incomplete?
      ensures !exit.Drained? ==> old(taken) < taken
      ensures exit.Interrupted? || (exit.Drained? && old(taken) < taken) ==> !syncDone
      ensures old(!syncDone) && Quiet(handlers) ==> !syncDone && !exit.Interrupted?
      ensures old(!syncDone) && Quiet(handlers) && NeverFails(FramesOf(frames)) ==> exit.Drained?
      ensures handlers == [] ==> (exit.Aborted? <==> SomeFails(frames, old(taken), taken))
      ensures handlers == [] && exit.Aborted? ==> !SomeFails(frames, old(taken), taken - 1)
      decreases handlers, 3
    {
      hide NextFrame, Ready, FramesOf, Wire, OnlyNew, Quiet, NeverFails, SomeFails, FailsAt;
      NoneNew(pending, nextId);
      NoneFails(frames, taken);
      NoneQuiet();
      var used := 0;
      while true
        invariant Valid() && Grows() && used <= |handlers|
        invariant (old(!syncDone) && Quiet(handlers)) || old(taken) < taken ==> !syncDone
        invariant handlers == [] ==> !SomeFails(frames, old(taken), taken)
        decreases |frames| - taken
      {
        ghost var table, id, first := pending, nextId, taken;
        QuietRest(handlers, used);
        var found, failed, called := DispatchNext(handlers[used..]);
        OnlyNewTwice(old(pending), old(nextId), table, id, pending, nextId);
        if !found {
          return Drained;
        }
        SomeFailsMore(frames, old(taken), first);
        used := if called then used + 1 else used;
        if failed {
          return Aborted;
        }
        if syncDone {
          SetSyncDone(false);
          return Interrupted;
        }
      }
    }

    /** One turn of the loop; a handler that is called takes the first of the calls. */
    method DispatchNext(calls: seq<Handler>) returns (found: bool, failed: bool, called: bool)
      requires Valid()
      modifies this
      ensures Valid() && Grows() && taken <= |frames|
      ensures found <==> !NextFrame(old(buffer)).Incomplete?
      ensures !found ==> taken == old(taken) && buffer == old(buffer) && syncDone == old(syncDone)
      ensures found ==> old(taken) < taken
      ensures called <==> calls != [] && handled != old(handled)
      ensures Quiet(calls) && old(!syncDone) ==> !syncDone
      ensures found && Quiet(calls) && NeverFails(FramesOf(frames)) ==> !failed
      ensures found && calls == [] ==> taken == old(taken) + 1 && failed == FailsAt(frames, old(taken))
      decreases calls, 2
    {
      hide NextFrame, Ready, Owes, Dispatch, FramesOf, Wire, OnlyNew, Quiet, NeverFails, FailsAt;
      NoneQuiet();
      NoneNew(pending, nextId);
      called := false;
      var next := TakeFrame();
      found := next.Complete?;
      failed := false;
      if found {
        called, failed := DispatchFrame(next.frame, calls);
        called := called && calls != [];
      }
      WithinFrames();
    }

    lemma WithinFrames()
      requires Valid()
      ensures taken <= |frames|
    {
      hide Replay, FramesOf, Wire, Accounts, OwnAnswers, AsksInOrder, HandledOnce, Excused;
    }

    method SetSyncDone(done: bool)
      requires Valid()
      modifies this`syncDone
      ensures Valid() && syncDone == done
    {
      hide InStep, Replay, FramesOf, Wire, AllEnded, Accounts, OwnAnswers, AsksInOrder, HandledOnce, Excused;
      syncDone := done;
    }

    /** The head of the loop: read one frame and delete it from the buffer. */
    method TakeFrame() returns (next: Parsed)
      requires Valid()
      modifies this`buffer, this`taken
      ensures next == NextFrame(old(buffer)) && !next.Malformed?
      ensures next.Incomplete? ==> Valid() && taken == old(taken) && buffer == old(buffer)
      ensures next.Complete? ==> Owes(next.frame) && taken == old(taken) + 1
      ensures taken <= |frames|
      ensures next.Complete? && NeverFails(FramesOf(frames)) ==> !Dispatch(Client(chunks, log), next.frame).failed
      ensures next.Complete? ==> Dispatch(Client(chunks, log), next.frame).failed == FailsAt(frames, old(taken))
    {
      hide NextFrame, FrameOf, WellFormed, Encode, Wire, Replay, Dispatch, FramesOf;
      hide Accounts, OwnAnswers, HandledOnce, Excused;
      next := NextFrame(buffer);
      NextInBuffer(frames, taken, arrived);
      if next.Complete? {
        ReplayNext(frames, taken);
        NeverFailsAt(frames, taken);
        buffer, taken := buffer[next.length..], taken + 1;
      }
    }

    /** flitrpc--dispatch-frame; calls holds what the next handlers do, and is empty when they do nothing. */
    method DispatchFrame(f: Frame, calls: seq<Handler>) returns (called: bool, failed: bool)
      requires Owes(f)
      modifies this
      ensures Valid() && Grows()
      ensures Quiet(calls) ==> failed == Dispatch(Client(old(chunks), old(log)), f).failed
      ensures Quiet(calls) && old(!syncDone) ==> !syncDone
      ensures if called then old(handled) + [|old(log)|] <= handled else handled == old(handled)
      ensures called ==> |old(log)| < |log| && (failed <==> Aborts(log[|old(log)|], calls))
      ensures calls == [] ==> taken == old(taken)
      ensures |old(log)| < |log| ==> (called <==> Concerns(log[|old(log)|], old(pending)))
      ensures !called ==> failed == Dispatch(Client(old(chunks), old(log)), f).failed
      decreases calls, 2, |chunks|, 1
    {
      hide Replay, FramesOf, Wire, AllEnded, Accounts, Get, Assemble, Unchunked;
      hide OwnAnswers, HandledOnce, Excused, AsksInOrder;
      var id := Get(f.meta, ID_KEY);
      called, failed := false, false;
      if Get(f.meta, CHUNKED_KEY) != Nil {
        SeedChunks(f, id);
      } else {
        match Kind(f.meta)
        case Int(t) =>
          if t in {1, 2, 3} {
            called, failed := DispatchMessage(f, id, calls);
          } else if t == 4 {
            failed := AccumulateChunk(f, id);
          } else if t == 5 {
            called, failed := FinishChunks(f, id, calls);
          }
        case _ =>
          failed := true;
      }
    }

    /** The branches for a whole message: a response, a notification, or a request of the server. */
    method DispatchMessage(f: Frame, id: Value, calls: seq<Handler>) returns (called: bool, failed: bool)
      requires Owes(f) && Get(f.meta, CHUNKED_KEY) == Nil && Kind(f.meta) in {REQUEST, RESPONSE, NOTIFICATION}
      requires id == Get(f.meta, ID_KEY)
      modifies this
      ensures Valid() && Grows() && old(log) + [f] <= log
      ensures called <==> Concerns(f, old(pending))
      ensures failed <==> called && Aborts(f, calls)
      ensures if called then old(handled) + [|old(log)|] <= handled else handled == old(handled)
      ensures Quiet(calls) ==> !failed
      ensures Quiet(calls) && old(!syncDone) ==> !syncDone
      ensures calls == [] ==> taken == old(taken)
      ensures !Dispatch(Client(old(chunks), old(log)), f).failed
      decreases calls, 2, 0, 0
    {
      hide InStep, Replay, FramesOf, Wire, AllEnded, Accounts, OwnAnswers, HandledOnce, Excused, AsksInOrder, Get;
      called, failed := true, false;
      LogMessage(f);
      if Kind(f.meta) == RESPONSE {
        called, failed := CompleteRequest(id, calls);
      } else {
        var exit := RunHandler(calls);
        // condition-case keeps an error of one notification from the frames behind it
        failed := if Kind(f.meta) == NOTIFICATION then exit == Throw else exit != Return;
      }
    }

    /** The dispatch of a whole message begins; a handler is due unless it is a response. */
    ghost method LogMessage(f: Frame)
      requires Owes(f) && Get(f.meta, CHUNKED_KEY) == Nil && Kind(f.meta) in {REQUEST, RESPONSE, NOTIFICATION}
      modifies this`log, this`issued
      ensures log == old(log) + [f] && issued == old(issued) + [nextId]
      ensures if Kind(f.meta) == RESPONSE then Arrived() else Due()
      ensures !Dispatch(Client(chunks, old(log)), f).failed
    {
      hide InStep, Replay, FramesOf, Wire, AllEnded, Accounts, Get, OwnAnswers, HandledOnce, Excused, AsksInOrder;
      HandledNext(handled, log, ended, f);
      OwnAnswersGrow(ended, log, f);
      ExcusedNext(log, handled, issued, pending, nextId, f);
      log, issued := log + [f], issued + [nextId];
    }

    method CompleteRequest(id: Value, calls: seq<Handler>) returns (called: bool, failed: bool)
      requires Arrived()
      requires Kind(log[|log| - 1].meta) == RESPONSE && Get(log[|log| - 1].meta, ID_KEY) == id
      modifies this
      ensures Valid() && Grows()
      ensures called <==> id.Int? && id.n in old(pending)
      ensures if called then old(handled) + [|old(log)| - 1] <= handled else handled == old(handled)
      ensures failed <==> called && calls != [] && calls[0].exit != Return
      ensures (calls == [] ==> taken == old(taken))
      ensures Quiet(calls) ==> !failed
      ensures Quiet(calls) && old(!syncDone) ==> !syncDone
      decreases calls, 1
    {
      hide InStep, Replay, FramesOf, Wire, AllEnded, Accounts, OwnAnswers, AsksInOrder, Get, Kind, HandledOnce, Excused;
      called := id.Int? && id.n in pending;
      failed := false;
      if called {
        TakePending(id.n);
        var exit := RunHandler(calls);
        failed := exit != Return;
      } else {
        ExcusedLate(log, handled, issued, pending, nextId);
      }
    }

    /** The entry leaves the table before its callback is called. */
    method TakePending(id: nat)
      requires Arrived() && id in pending
      requires Kind(log[|log| - 1].meta) == RESPONSE && Get(log[|log| - 1].meta, ID_KEY) == Int(id)
      modifies this`pending, this`ended
      ensures Due() && pending == old(pending) - {id}
      ensures ended == old(ended) + [Ending(id, Answered(|log| - 1))]
    {
      hide Replay, FramesOf, Wire, AllEnded, Accounts, OwnAnswers, Get, AsksInOrder, HandledOnce, Excused;
      OwnAnswersEnd(ended, log, id);
      HandledAnswer(handled, log, ended, id);
      ExcusedAnswer(log, handled, issued, pending, nextId, id);
      if clean {
        AccountsEnd(pending - failed, ended, nextId, id, Answered(|log| - 1));
        assert pending - failed - {id} == pending - {id} - failed;
        NoneFailed(ended + [Ending(id, Answered(|log| - 1))]);
      }
      pending := pending - {id};
      ended := ended + [Ending(id, Answered(|log| - 1))];
    }

    /** The first piece of a chunked message. */
    method SeedChunks(f: Frame, id: Value)
      requires Owes(f) && Get(f.meta, CHUNKED_KEY) != Nil && id == Get(f.meta, ID_KEY)
      modifies this`chunks
      ensures Valid() && !Dispatch(Client(old(chunks), log), f).failed
    {
      hide InStep, Replay, FramesOf, Wire, Accounts, AllEnded, OwnAnswers, AsksInOrder;
      hide Get, Unchunked, HandledOnce, Excused;
      if Hashable(id) {
        chunks := chunks[id := Chunk(Unchunked(f.meta), if f.payload.Some? then [f.payload.value] else [])];
      }
    }

    method AccumulateChunk(f: Frame, id: Value) returns (failed: bool)
      requires Owes(f) && Get(f.meta, CHUNKED_KEY) == Nil && Kind(f.meta) == CHUNK_CONTINUE
      requires id == Get(f.meta, ID_KEY)
      modifies this`chunks
      ensures Valid()
      ensures failed == Dispatch(Client(old(chunks), old(log)), f).failed
      ensures failed <==> !Hashable(id) || id !in old(chunks)
      ensures failed || f.payload == None ==> chunks == old(chunks)
      ensures !failed && f.payload.Some? ==>
        var entry := old(chunks)[id];
        chunks == old(chunks)[id := Chunk(entry.meta, [f.payload.value] + entry.parts)]
    {
      hide InStep, Replay, FramesOf, Wire, Accounts, AllEnded, OwnAnswers, AsksInOrder, Get, HandledOnce, Excused;
      if !Hashable(id) || id !in chunks {
        return true;
      }
      if f.payload.Some? {
        var entry := chunks[id];
        chunks := chunks[id := entry.(parts := [f.payload.value] + entry.parts)];
      }
      return false;
    }

    method FinishChunks(f: Frame, id: Value, calls: seq<Handler>) returns (called: bool, failed: bool)
      requires Owes(f) && Get(f.meta, CHUNKED_KEY) == Nil && Kind(f.meta) == CHUNK_END
      requires id == Get(f.meta, ID_KEY)
      modifies this
      ensures Valid() && Grows()
      ensures Quiet(calls) ==> failed == Dispatch(Client(old(chunks), old(log)), f).failed
      ensures Quiet(calls) && old(!syncDone) ==> !syncDone
      ensures if called then old(handled) + [|old(log)|] <= handled else handled == old(handled)
      ensures called ==> |old(log)| < |log| && (failed <==> Aborts(log[|old(log)|], calls))
      ensures calls == [] ==> taken == old(taken)
      ensures |old(log)| < |log| ==> (called <==> Concerns(log[|old(log)|], old(pending)))
      ensures !called ==> failed == Dispatch(Client(old(chunks), old(log)), f).failed
      ensures !Hashable(id) || id !in old(chunks) ==> !called && !failed && chunks == old(chunks)
      decreases calls, 2, |chunks|, 0
    {
      hide InStep, Replay, FramesOf, Wire, Accounts, AllEnded, OwnAnswers, AsksInOrder;
      hide Get, Assemble, HandledOnce, Excused;
      called, failed := false, false;
      if Hashable(id) && id in chunks {
        var entry := chunks[id];
        chunks := chunks - {id};
        called, failed := DispatchFrame(Frame(entry.meta, Some(Assemble(entry.parts))), calls);
      }
    }

    /** The handler of the last message is called: it is noted, and its actions are performed. */
    method RunHandler(calls: seq<Handler>) returns (exit: Exit)
      requires Due()
      modifies this
      ensures Valid() && Grows() && old(handled) + [|old(log)| - 1] <= handled
      ensures exit == if calls == [] then Return else calls[0].exit
      ensures calls == [] ==> taken == old(taken)
      ensures Performed(old(CurrentStatus()), CurrentStatus(), if calls == [] then [] else calls[0].actions, |stream|)
      ensures Quiet(calls) ==> exit == Return
      ensures Quiet(calls) && old(!syncDone) ==> !syncDone
      decreases calls, 0
    {
      hide InStep, Replay, FramesOf, Wire, AllEnded, Accounts, OwnAnswers, AsksInOrder, HandledOnce, Excused, Performed;
      ghost var before := CurrentStatus();
      handled := handled + [|log| - 1];
      NothingPerformed(before, |stream|);
      if calls == [] {
        return Return;
      }
      var actions, i := calls[0].actions, 0;
      while i < |actions|
        invariant 0 <= i <= |actions| && Valid() && Grows() && old(handled) + [|old(log)| - 1] <= handled
        invariant Performed(before, CurrentStatus(), actions[..i], |stream|)
        invariant Quiet(calls) && old(!syncDone) ==> !syncDone
      {
        ghost var between := CurrentStatus();
        Perform(actions[i]);
        OnePerformed(before, between, CurrentStatus(), actions[..i], actions[i], |stream|);
        assert actions[..i + 1] == actions[..i] + [actions[i]];
        i := i + 1;
      }
      assert actions[..|actions|] == actions;
      return calls[0].exit;
    }

    method Perform(action: Action)
      requires Valid()
      modifies this
      ensures Valid() && Grows()
      ensures Performed(old(CurrentStatus()), CurrentStatus(), [action], |stream|)
      ensures QuietAction(action) && old(!syncDone) ==> !syncDone
      decreases action
    {
      hide Ready, FramesOf, NextFrame, Quiet, ClientFrame, Requests, Delivered, AskedBy, GivenUp, NewIds;
      OneAction(action, nextId);
      match action
      case Deliver(count, handlers) =>
        if live {
          var _ := Filter(count, handlers);
        }
      case Request(meta, payload) => var _, _ := SendRequest(meta, payload);
      case Timeout(id) => GiveUp(id);
      case SyncDone => SetSyncDone(true);
      case Shutdown(calls, seen) => var _, _ := Sentinel(calls, seen);
    }

    /**
      flitrpc-request: a fresh id, registered before the frame goes out. If the metadata cannot be
      written, or the process is dead, that signals an error and the id stays registered.
     */
    method SendRequest(meta: seq<Pair>, payload: Option<bytes>) returns (id: nat, ok: bool)
      requires Ready()
      modifies this`nextId, this`pending, this`sent, this`asked
      ensures Ready()
      ensures id == nextId == old(nextId) + 1 && pending == old(pending) + {id}
      ensures ok <==> live && ClientFrame(1, id, meta, payload).Some?
      ensures sent == old(sent) + if ok then [ClientFrame(1, id, meta, payload).value] else []
      ensures asked == old(asked) + if ok then [Asked(id, meta, payload)] else []
    {
      hide Replay, FramesOf, Wire, AllEnded, Accounts, ClientFrame, AsksInOrder, OwnAnswers, HandledOnce, Excused;
      if clean {
        AccountsRequest(pending - failed, ended, nextId);
        IdIsFresh(pending - failed, failed, ended, nextId);
      }
      ExcusedStays(log, handled, issued, pending, nextId, pending + {nextId + 1}, nextId + 1, |log|);
      nextId := nextId + 1;
      id := nextId;
      assert clean ==> pending + {id} - failed == pending - failed + {id};
      pending := pending + {id};
      var frame := ClientFrame(1, id, meta, payload);
      ok := live && frame.Some?;
      AskedMore(asked, sent, id, meta, payload);
      if ok {
        sent, asked := sent + [frame.value], asked + [Asked(id, meta, payload)];
      }
    }

    /** The deadline of flitrpc-request-sync; a request that has ended is no longer waited for. */
    method GiveUp(id: nat)
      requires Valid()
      modifies this`pending, this`ended
      ensures Valid() && pending == old(pending) - {id}
      ensures ended == old(ended) + if id in old(pending) then [Ending(id, TimedOut)] else []
    {
      hide Replay, FramesOf, Wire, AllEnded, Accounts, AsksInOrder, HandledOnce, Excused;
      if id in pending {
        if clean {
          AccountsEnd(pending - failed, ended, nextId, id, TimedOut);
          assert pending - failed - {id} == pending - {id} - failed;
          NoneFailed(ended + [Ending(id, TimedOut)]);
        }
        HandledStays(handled, log, ended, id, TimedOut);
        ExcusedStays(log, handled, issued, pending, nextId, pending - {id}, nextId, |log|);
        pending := pending - {id};
        ended := ended + [Ending(id, TimedOut)];
      }
    }

    /**
      The sentinel of a process that dies once: the shutdown function, then all pending requests. The
      shutdown function is the first of the calls that run; if it does not return, nothing else happens.
     */
    method Sentinel(calls: seq<Handler>, seen: set<nat>) returns (exit: Exit, ran: nat)
      requires Valid()
      modifies this
      ensures Valid() && Grows() && !live
      ensures ran <= |calls| && (exit == Return <==> AllReturn(calls[..ran]))
      ensures nextId == old(nextId) + Asks(calls[..ran])
      ensures old(!live) ==> ran == 0 && pending == old(pending) && ended == old(ended)
      ensures old(live) && exit == Return ==> pending == {}
      ensures old(live) && calls != [] ==> ran > 0
      ensures old(live) && |calls| > 1 && old(pending) != {} && calls[0].exit == Return ==> ran > 1
      ensures old(live) && calls != [] && calls[0].exit != Return ==>
        pending == old(pending) + NewIds(old(nextId), nextId) && ended == old(ended)
      ensures old(live && clean) && (calls != [] ==> calls[0].exit == Return) ==>
        var first := old(nextId) + Asks(calls[..if calls == [] then 0 else 1]);
        (Accounts(pending, ended, nextId) <==> AllReturn(calls[..ran]) && NewIds(first, nextId) <= seen)
      ensures Quiet(calls) && old(!syncDone) ==> !syncDone
    {
      hide InStep, Replay, FramesOf, Wire, AllEnded, Accounts, OwnAnswers, AsksInOrder, HandledOnce, Excused;
      hide Requests, NewIds, Asks, AllReturn, Quiet;
      NothingYet(calls, pending, {}, nextId, seen);
      exit, ran := Return, 0;
      if !live {
        return;
      }
      live := false;
      if calls == [] {
        exit, ran := FailPending([], seen);
        return;
      }
      OneMoreCall(calls, 0);
      exit := RunCallback(calls[0]);
      ran := 1;
      if exit == Return {
        var more: nat;
        MoreCalls(calls);
        exit, more := FailPending(calls[1..], seen);
        ran := 1 + more;
        FirstCall(calls, more);
      }
    }

    /**
      The sentinel's maphash and clrhash. Each callback runs while its entry is in the table, and the
      table is emptied at the end; a callback that does not return leaves it as it is. The requests
      are in order afterwards if and only if every callback that ran returned and maphash visits
      every request that they made.
     */
    method FailPending(calls: seq<Handler>, seen: set<nat>) returns (exit: Exit, ran: nat)
      requires Valid() && !live && failed == {}
      modifies this`nextId, this`pending, this`sent, this`asked, this`syncDone, this`failed, this`ended, this`clean
      ensures Valid() && Grows() && live == old(live)
      ensures ran <= |calls| && (exit == Return <==> AllReturn(calls[..ran]))
      ensures nextId == old(nextId) + Asks(calls[..ran])
      ensures exit == Return ==> pending == {}
      ensures calls != [] && old(pending) != {} ==> ran > 0
      ensures old(clean) ==>
        (Accounts(pending, ended, nextId) <==> AllReturn(calls[..ran]) && NewIds(old(nextId), nextId) <= seen)
      ensures Quiet(calls) && old(!syncDone) ==> !syncDone
    {
      hide Ready, AllEnded, Accounts, Quiet, OnlyNew, Asks, Requests, Partition, NewIds, AllReturn;
      NoneNew(pending, nextId);
      ghost var first := nextId;
      var left := pending;
      ran := 0;
      NothingYet(calls, pending, failed, nextId, seen);
      while left != {}
        invariant Ready() && Grows() && ran <= |calls| && AllReturn(calls[..ran])
        invariant clean == old(clean) && live == old(live) && nextId == first + Asks(calls[..ran])
        invariant Partition(pending, failed, left, NewIds(first, nextId), seen)
        invariant ran == 0 && calls != [] ==> left == old(pending)
        invariant Quiet(calls) && old(!syncDone) ==> !syncDone
        decreases |calls| - ran, left
      {
        var id :| id in left;
        var before := nextId;
        ghost var table := pending;
        if ran < |calls| {
          OneMoreCall(calls, ran);
          exit := VisitOne(id, calls[ran], left, first, seen);
          OnlyNewTwice(old(pending), first, table, before, pending, nextId);
          ran := ran + 1;
          if exit != Return {
            return;
          }
        } else {
          DoesNothing(nextId, seen);
          exit := VisitOne(id, Handler([], Return), left, first, seen);
          OnlyNewTwice(old(pending), first, table, before, pending, nextId);
        }
        left := left - {id} + NewIds(before, nextId) * seen;
      }
      ClearTable(NewIds(first, nextId), seen);
      NoPending(old(pending), first, nextId);
      exit := Return;
    }

    /** One turn of the maphash: what is to be visited loses id, and gains the requests that maphash sees. */
    method VisitOne(id: nat, call: Handler, ghost left: set<nat>, ghost first: nat, ghost seen: set<nat>)
      returns (exit: Exit)
      requires Ready() && !live && id in left && first <= nextId
      requires Partition(pending, failed, left, NewIds(first, nextId), seen)
      modifies this`nextId, this`pending, this`sent, this`asked, this`syncDone, this`failed, this`ended, this`clean
      ensures exit == call.exit && nextId == old(nextId) + Requests(call.actions)
      ensures Grows() && live == old(live) && clean == (old(clean) && exit == Return)
      ensures if exit == Return then Ready() else Valid()
      ensures exit == Return ==>
        Partition(pending, failed, left - {id} + NewIds(old(nextId), nextId) * seen, NewIds(first, nextId), seen)
      ensures exit != Return && old(clean) ==> !Accounts(pending, ended, nextId)
      ensures Quiet([call]) && old(!syncDone) ==> !syncDone
    {
      hide InStep, Replay, FramesOf, Wire, AllEnded, Accounts, OwnAnswers, Quiet, AsksInOrder, HandledOnce, Excused;
      hide Requests, Partition, NewIds;
      ghost var table, called, before := pending, failed, nextId;
      Visits(table, called, left, NewIds(first, before), seen, id);
      exit := FailOne(id, call);
      OneVisited(table, called, left, first, before, nextId, seen, id);
      if exit != Return {
        if clean {
          NotInOrder(pending, ended, nextId, failed, id);
        }
        clean := false;
      }
    }

    /** The clrhash: what was not visited is gone. */
    method ClearTable(ghost made: set<nat>, seen: set<nat>)
      requires Ready() && !live && Partition(pending, failed, {}, made, seen)
      modifies this`pending, this`failed, this`clean
      ensures Valid() && pending == {} && failed == {}
      ensures old(clean) ==> (Accounts(pending, ended, nextId) <==> made <= seen)
    {
      hide InStep, Replay, FramesOf, Wire, AllEnded, Accounts, OwnAnswers, AsksInOrder, Partition, HandledOnce, Excused;
      NoneLeft(pending, failed, made, seen);
      ExcusedStays(log, handled, issued, pending, nextId, {}, nextId, |log|);
      if clean {
        Emptied(pending - failed, ended, nextId, made - seen);
      }
      clean := clean && made <= seen;
      pending, failed := {}, {};
      NoneFailed(ended);
      assert pending - failed == {};
    }

    /** maphash's function for one entry: the request ends, and its callback runs. */
    method FailOne(id: nat, call: Handler) returns (exit: Exit)
      requires Ready() && !live && id in pending && id !in failed
      modifies this`nextId, this`pending, this`sent, this`asked, this`syncDone, this`failed, this`ended
      ensures Ready() && Grows() && live == old(live) && clean == old(clean)
      ensures exit == call.exit && failed == old(failed) + {id} && nextId == old(nextId) + Requests(call.actions)
      ensures pending == old(pending) + NewIds(old(nextId), nextId)
      ensures clean ==> AllEnded(ended, failed)
      ensures Quiet([call]) && old(!syncDone) ==> !syncDone
    {
      hide InStep, Replay, FramesOf, Wire, AllEnded, Accounts, OwnAnswers, Quiet, AsksInOrder, Requests, NewIds;
      hide HandledOnce, Excused;
      if clean {
        AccountsEnd(pending - failed, ended, nextId, id, Closed);
        EndedMore(ended, failed, id, Closed);
      }
      OwnAnswersStay(ended, log, id);
      HandledStays(handled, log, ended, id, Closed);
      assert pending - failed - {id} == pending - (failed + {id});
      failed, ended := failed + {id}, ended + [Ending(id, Closed)];
      exit := RunCallback(call);
    }

    /** A callback of the sentinel. The process is dead: nothing arrives, and no loop waits to give up. */
    method RunCallback(call: Handler) returns (exit: Exit)
      requires Ready() && !live
      modifies this`nextId, this`pending, this`sent, this`asked, this`syncDone
      ensures Ready()
      ensures exit == call.exit && Grows()
      ensures nextId == old(nextId) + Requests(call.actions)
      ensures pending == WithIds(old(pending), old(nextId), nextId)
      ensures Quiet([call]) && old(!syncDone) ==> !syncDone
    {
      hide Ready, Requests, WithIds, Quiet, OnlyNew;
      var actions := call.actions;
      NoActions(nextId);
      ghost var table, first := pending, nextId;
      for i := 0 to |actions|
        invariant Ready() && !live && nextId == first + Requests(actions[..i]) && old(asked) <= asked
        invariant pending == WithIds(table, first, nextId)
        invariant Quiet([call]) && old(!syncDone) ==> !syncDone
      {
        OneMoreAction(actions, i);
        MoreIds(table, first, nextId, nextId + Requests([actions[i]]));
        QuietCall(call, i);
        CallbackAction(actions[i]);
      }
      assert actions[..|actions|] == actions;
      IdsAreNew(table, first, nextId);
      exit := call.exit;
    }

    method CallbackAction(action: Action)
      requires Ready() && !live
      modifies this`nextId, this`pending, this`sent, this`asked, this`syncDone
      ensures Ready() && old(asked) <= asked
      ensures nextId == old(nextId) + Requests([action])
      ensures pending == WithIds(old(pending), old(nextId), nextId)
      ensures syncDone <==> old(syncDone) || action.SyncDone?
    {
      hide Replay, FramesOf, Wire, AllEnded, Accounts, OwnAnswers, AsksInOrder, HandledOnce, Excused, Requests, NewIds;
      OneAction(action, nextId);
      if action.Request? {
        var _, _ := SendRequest(action.meta, action.payload);
      } else if action.SyncDone? {
        syncDone := true;
      }
    }
  }

  /** One request is pending when the process dies, and its callback signals: it has ended, but is pending. */
  method SignalDisorders() returns (conn: Conn)
    ensures fresh(conn) && !Accounts(conn.pending, conn.ended, conn.nextId)
  {
    hide Conn.Ready, Accounts, ClientFrame, Asks;
    conn := new Conn([], []);
    var _, _ := conn.SendRequest([], None);
    var calls := [Handler([], Return), Handler([], Error)];
    var _, ran := conn.Sentinel(calls, {});
    assert calls[1] in calls && (ran == 2 ==> calls[..ran] == calls);
  }

  /** Its callback makes a request, which maphash does not visit: that one neither is pending nor ends. */
  method RequestDisorders() returns (conn: Conn)
    ensures fresh(conn) && !Accounts(conn.pending, conn.ended, conn.nextId)
  {
    hide Conn.Ready, Accounts, ClientFrame;
    conn := new Conn([], []);
    var id, _ := conn.SendRequest([], None);
    var calls := [Handler([], Return), Handler([Request([], None)], Return)];
    var _, ran := conn.Sentinel(calls, {});
    assert calls[..ran] == calls && calls[..1][..0] == [] && calls[..2][..1] == calls[..1];
    assert [Request([], None)][..0] == [];
    assert Between(id, id + 1, conn.nextId);
    assert id + 1 in NewIds(id, conn.nextId);
  }

  predicate AllReturn(calls: seq<Handler>) {
    forall call :: call in calls ==> call.exit == Return
  }

  function NewIds(from: nat, upto: nat): set<nat> {
    set id | 0 <= id <= upto && Between(from, id, upto)
  }

  predicate Between(from: nat, id: nat, upto: nat) {
    from < id <= upto
  }

  /** What the sentinel has called, has yet to visit, and will not visit. */
  predicate Partition(pending: set<nat>, failed: set<nat>, left: set<nat>, made: set<nat>, seen: set<nat>) {
    pending == failed + left + (made - seen) && failed !! left !! (made - seen)
  }

  lemma NothingYet(calls: seq<Handler>, pending: set<nat>, failed: set<nat>, nextId: nat, seen: set<nat>)
    requires failed == {}
    ensures AllReturn(calls[..0]) && Asks(calls[..0]) == 0
    ensures Partition(pending, failed, pending, NewIds(nextId, nextId), seen)
  {
    assert calls[..0] == [] && NewIds(nextId, nextId) == {};
  }

  lemma Visits(pending: set<nat>, failed: set<nat>, left: set<nat>, made: set<nat>, seen: set<nat>, id: nat)
    requires Partition(pending, failed, left, made, seen) && id in left
    ensures id in pending && id !in failed
  {
  }

  lemma OneVisited(pending: set<nat>, failed: set<nat>, left: set<nat>, first: nat, before: nat, nextId: nat,
                   seen: set<nat>, id: nat)
    requires first <= before <= nextId && id in left && forall i :: i in pending ==> i <= before
    requires Partition(pending, failed, left, NewIds(first, before), seen)
    ensures Partition(pending + NewIds(before, nextId), failed + {id}, left - {id} + NewIds(before, nextId) * seen,
                      NewIds(first, nextId), seen)
  {
    var more := NewIds(before, nextId);
    assert NewIds(first, nextId) == NewIds(first, before) + more;
    assert more !! pending;
  }

  lemma NoneLeft(pending: set<nat>, failed: set<nat>, made: set<nat>, seen: set<nat>)
    requires Partition(pending, failed, {}, made, seen)
    ensures pending - failed == made - seen && (made - seen == {} <==> made <= seen)
  {
    if made - seen == {} {
      forall i | i in made
        ensures i in seen
      {
        assert i !in made - seen;
      }
    }
  }

  lemma QuietCall(call: Handler, i: nat)
    requires i < |call.actions|
    ensures Quiet([call]) ==> !call.actions[i].SyncDone?
  {
    assert call in [call];
    assert Quiet([call]) ==> QuietAction(call.actions[i]);
  }

  lemma DoesNothing(nextId: nat, seen: set<nat>)
    ensures Requests([]) == 0 && Quiet([Handler([], Return)]) && NewIds(nextId, nextId) * seen == {}
  {
  }

  lemma OneMoreCall(calls: seq<Handler>, ran: nat)
    requires ran < |calls|
    ensures Asks(calls[..ran + 1]) == Asks(calls[..ran]) + Requests(calls[ran].actions)
    ensures AllReturn(calls[..ran + 1]) <==> AllReturn(calls[..ran]) && calls[ran].exit == Return
    ensures Quiet(calls) ==> Quiet([calls[ran]])
  {
    hide *;
    assert calls[..ran + 1] == calls[..ran] + [calls[ran]];
    AsksSnoc(calls[..ran], calls[ran]);
    AllReturnSnoc(calls[..ran], calls[ran]);
    if Quiet(calls) {
      QuietOne(calls, ran);
    }
  }

  lemma MoreCalls(calls: seq<Handler>)
    requires calls != []
    ensures Quiet(calls) ==> Quiet(calls[1..])
  {
  }

  lemma FirstCall(calls: seq<Handler>, more: nat)
    requires calls != [] && more < |calls|
    ensures Asks(calls[..1 + more]) == Requests(calls[0].actions) + Asks(calls[1..][..more])
    ensures AllReturn(calls[..1 + more]) <==> calls[0].exit == Return && AllReturn(calls[1..][..more])
  {
    hide Requests;
    assert calls[..1 + more] == [calls[0]] + calls[1..][..more];
    AsksCons(calls[0], calls[1..][..more]);
    assert calls[0] in calls[..1 + more];
  }

  lemma {:induction false} AsksCons(first: Handler, calls: seq<Handler>)
    ensures Asks([first] + calls) == Requests(first.actions) + Asks(calls)
  {
    hide Requests;
    if calls == [] {
      assert [first] + calls == [first] && [first][..0] == [];
    } else {
      assert ([first] + calls)[..|calls|] == [first] + calls[..|calls| - 1];
      AsksCons(first, calls[..|calls| - 1]);
    }
  }

  lemma AsksSnoc(calls: seq<Handler>, call: Handler)
    ensures Asks(calls + [call]) == Asks(calls) + Requests(call.actions)
  {
    hide Requests;
    assert (calls + [call])[..|calls|] == calls;
  }

  lemma AllReturnSnoc(calls: seq<Handler>, call: Handler)
    ensures AllReturn(calls + [call]) <==> AllReturn(calls) && call.exit == Return
  {
    assert call in calls + [call];
    assert forall c :: c in calls ==> c in calls + [call];
  }

  lemma QuietRest(calls: seq<Handler>, k: nat)
    requires k <= |calls|
    ensures Quiet(calls) ==> Quiet(calls[k..])
  {
    hide QuietAction;
  }

  lemma QuietOne(calls: seq<Handler>, i: nat)
    requires Quiet(calls) && i < |calls|
    ensures Quiet([calls[i]])
  {
    hide QuietAction;
    assert calls[i] in calls;
  }

  /** A request that has ended is still registered. */
  lemma NotInOrder(pending: set<nat>, ended: seq<Ending>, nextId: nat, failed: set<nat>, id: nat)
    requires id in pending && id in failed && AllEnded(ended, failed)
    ensures !Accounts(pending, ended, nextId)
  {
  }

  /** The table is emptied though some requests have not ended. */
  lemma Emptied(waiting: set<nat>, ended: seq<Ending>, nextId: nat, lost: set<nat>)
    requires Accounts(waiting, ended, nextId) && waiting == lost
    ensures Accounts({}, ended, nextId) <==> lost == {}
  {
    if lost != {} {
      var id :| id in lost;
      assert !HasEnded(ended, id);
    }
  }

  lemma NeverFailsAt(frames: seq<WireFrame>, i: nat)
    requires AllWellFormed(frames) && i < |frames|
    ensures NeverFails(FramesOf(frames)) ==> !Dispatch(Replay(FramesOf(frames[..i])), FrameOf(frames[i])).failed
  {
    hide Dispatch, FrameOf, WellFormed;
    assert FramesOf(frames)[..i] == FramesOf(frames[..i]);
  }

  lemma ReplayNext(frames: seq<WireFrame>, i: nat)
    requires AllWellFormed(frames) && i < |frames|
    ensures Replay(FramesOf(frames[..i + 1])) == Dispatch(Replay(FramesOf(frames[..i])), FrameOf(frames[i])).client
  {
    hide Dispatch, FrameOf, WellFormed;
    var fs := FramesOf(frames[..i + 1]);
    assert fs[..i] == FramesOf(frames[..i]);
  }
}
