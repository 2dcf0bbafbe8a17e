/**
  Requests of the server to the client: the waiter table, whose channels hold one response each, and
  the read loop, which must not block on them.
 */
module Callbacks {

  /**
    channels counts the responses in each channel that was made; waiting holds the ids whose caller
    waits, registered those in callbackWaiters; sending is the id whose channel the read loop has
    looked up; received are the ids of the responses read so far, returned those that callers got, and
    dropped those that were read when no call was registered for them.
   */
  datatype World = World(
    nextId: nat,
    channels: map<nat, nat>,
    waiting: set<nat>,
    registered: set<nat>,
    sending: Sending,
    received: seq<nat>,
    returned: seq<nat>,
    dropped: seq<nat>)

  datatype Sending = Idle | To(id: nat)

  datatype Step =
    | SendRequest        // takes an id and registers a channel
    | Receive(id: nat)   // Serve reads a response and looks its id up
    | Deliver            // the send on the channel
    | Take(id: nat)      // SendRequest receives from its channel
    | GiveUp(id: nat)    // or stops waiting: the write failed, or the connection is done
    | Unregister(id: nat)

  predicate Enabled(w: World, s: Step) {
    match s
    case SendRequest => true
    case Receive(_) => w.sending == Idle
    case Deliver => w.sending.To? && w.sending.id in w.channels && w.channels[w.sending.id] < 1
    case Take(id) => id in w.waiting && id in w.channels && w.channels[id] > 0
    case GiveUp(id) => id in w.waiting
    case Unregister(id) => id in w.registered && id !in w.waiting
  }

  function Next(w: World, s: Step): World
    requires Enabled(w, s)
  {
    match s
    case SendRequest =>
      var id := w.nextId + 1;
      w.(nextId := id, channels := w.channels[id := 0], waiting := w.waiting + {id}, registered := w.registered + {id})
    case Receive(id) =>
      if id in w.registered then w.(received := w.received + [id], sending := To(id))
      else w.(received := w.received + [id], dropped := w.dropped + [id])
    case Deliver => w.(channels := w.channels[w.sending.id := w.channels[w.sending.id] + 1], sending := Idle)
    case Take(id) =>
      w.(channels := w.channels[id := w.channels[id] - 1], waiting := w.waiting - {id}, returned := w.returned + [id])
    case GiveUp(id) => w.(waiting := w.waiting - {id})
    case Unregister(id) => w.(registered := w.registered - {id})
  }

  const START := World(0, map[], {}, {}, Idle, [], [], [])

  /** The world after a schedule; a step that is not enabled does not happen. */
  function After(steps: seq<Step>): World {
    if steps == [] then START else
    var w, s := After(steps[..|steps| - 1]), steps[|steps| - 1];
    if Enabled(w, s) then Next(w, s) else w
  }

  /** The read loop holds a response that its channel has no room for. */
  predicate Blocked(w: World) {
    w.sending.To? && w.sending.id in w.channels && w.channels[w.sending.id] >= 1
  }

  function Count(ids: seq<nat>, id: nat): nat {
    if ids == [] then 0 else Count(ids[..|ids| - 1], id) + if ids[|ids| - 1] == id then 1 else 0
  }

  function InChannel(w: World, id: nat): nat {
    if id in w.channels then w.channels[id] else 0
  }

  function InHand(w: World, id: nat): nat {
    if w.sending == To(id) then 1 else 0
  }

  /** Every response received is in a channel, in the read loop's hand, returned or dropped. */
  predicate Accounted(w: World, id: nat) {
    InChannel(w, id) + InHand(w, id) + Count(w.returned, id) + Count(w.dropped, id) == Count(w.received, id)
  }

  ghost predicate Inv(w: World) {
    && (forall id :: id in w.channels ==> id <= w.nextId && w.channels[id] <= 1)
    && w.waiting <= w.registered <= w.channels.Keys
    && (forall id :: id in w.waiting ==> Count(w.returned, id) == 0)
    && (w.sending.To? ==> w.sending.id in w.channels)
    && (forall id :: Count(w.returned, id) <= 1 && (Count(w.returned, id) > 0 ==> id in w.channels))
    && forall id :: Accounted(w, id)
  }

  lemma CountSnoc(ids: seq<nat>, last: nat)
    ensures forall id :: Count(ids + [last], id) == Count(ids, id) + if last == id then 1 else 0
  {
    assert (ids + [last])[..|ids|] == ids;
  }

  lemma StepKeepsInv(w: World, s: Step)
    requires Inv(w) && Enabled(w, s)
    ensures Inv(Next(w, s))
  {
    if s.Receive? {
      CountSnoc(w.received, s.id);
      CountSnoc(w.dropped, s.id);
    } else if s.Take? {
      CountSnoc(w.returned, s.id);
    }
    hide Count;
    assert forall id :: Accounted(w, id) ==> Accounted(Next(w, s), id);
  }

  lemma {:induction false} EveryRunKeepsInv(steps: seq<Step>)
    ensures Inv(After(steps))
  {
    hide Inv, Next, Enabled;
    if steps == [] {
      StartInv();
    } else {
      var w, s := After(steps[..|steps| - 1]), steps[|steps| - 1];
      EveryRunKeepsInv(steps[..|steps| - 1]);
      if Enabled(w, s) {
        StepKeepsInv(w, s);
      }
    }
  }

  lemma StartInv()
    ensures Inv(START)
  {
  }

  /**
    The read loop blocks only on a second response to one request: if the client answers each id
    at most once, it never does.
   */
  lemma BlocksOnlyOnSecondAnswer(steps: seq<Step>)
    requires Blocked(After(steps))
    ensures Count(After(steps).received, After(steps).sending.id) >= 2
  {
    hide Next, Enabled;
    EveryRunKeepsInv(steps);
    var w := After(steps);
    assert Accounted(w, w.sending.id);
  }

  /** No response is lost: each is on its way to its call, was returned by it, or came when nobody waited. */
  lemma EachResponseAccounted(steps: seq<Step>, id: nat)
    ensures Accounted(After(steps), id)
  {
    hide Next, Enabled;
    EveryRunKeepsInv(steps);
  }

  /** A response is dropped if and only if no call is registered for it; a call that waits is registered. */
  lemma DroppedExactly(steps: seq<Step>, s: Step, id: nat)
    requires Enabled(After(steps), s)
    ensures var w, w' := After(steps), Next(After(steps), s);
            && (Count(w'.dropped, id) > Count(w.dropped, id) <==> s == Receive(id) && id !in w.registered)
            && (id in w.waiting ==> id in w.registered)
            && (Count(w'.returned, id) > Count(w.returned, id) <==> s == Take(id))
  {
    EveryRunKeepsInv(steps);
    hide After;
    if s.Receive? {
      CountSnoc(After(steps).dropped, s.id);
    } else if s.Take? {
      CountSnoc(After(steps).returned, s.id);
    }
  }

  /** A call is registered from its beginning until it is unregistered, which it is only when it does not wait. */
  lemma RegisteredExactly(steps: seq<Step>, s: Step, id: nat)
    requires Enabled(After(steps), s)
    ensures var w, w' := After(steps), Next(After(steps), s);
            && (id in w'.registered <==>
                  (id in w.registered && s != Unregister(id)) || (s == SendRequest && id == w.nextId + 1))
            && (id in w'.waiting <==>
                  (id in w.waiting && s != Take(id) && s != GiveUp(id)) || (s == SendRequest && id == w.nextId + 1))
  {
    hide After;
  }

  /** A new call waits under a new id, and the first response to a call that waits makes it return. */
  lemma AnswerReturns(steps: seq<Step>, id: nat)
    ensures var w := After(steps);
            var called := Next(w, SendRequest);
            called.nextId !in w.channels && called.nextId in called.waiting && InChannel(called, called.nextId) == 0
    ensures var w := After(steps);
            id in w.waiting && w.sending == Idle && InChannel(w, id) == 0 ==>
              var read := Next(w, Receive(id));
              Enabled(read, Deliver) &&
              var sent := Next(read, Deliver);
              Enabled(sent, Take(id)) &&
              var woken := Next(sent, Take(id));
              woken.returned == w.returned + [id] && id !in woken.waiting && woken.sending == Idle
  {
    EveryRunKeepsInv(steps);
    hide After;
  }

  /** A call returns at most once, and only with a response that carried its own id. */
  lemma OneReturnEach(steps: seq<Step>, id: nat)
    ensures var w := After(steps);
            Count(w.returned, id) <= 1 && Count(w.returned, id) <= Count(w.received, id)
  {
    hide Next, Enabled;
    EveryRunKeepsInv(steps);
    assert Accounted(After(steps), id);
  }

  /** And a second answer can block it: two responses are read before the call wakes up. */
  lemma SecondAnswerBlocks()
    ensures Blocked(After([SendRequest, Receive(1), Deliver, Receive(1)]))
  {
    var w1 := START.(nextId := 1, channels := map[1 := 0], waiting := {1}, registered := {1});
    var w2 := w1.(received := [1], sending := To(1));
    var w3 := w2.(channels := map[1 := 1], sending := Idle);
    var steps := [SendRequest, Receive(1), Deliver, Receive(1)];
    assert steps[..3][..2][..1] == [SendRequest] && steps[..3][..2] == [SendRequest, Receive(1)];
    assert After([SendRequest]) == w1 by { assert [SendRequest][..0] == []; assert Next(START, SendRequest) == w1; }
    assert After([SendRequest, Receive(1)]) == w2 by { assert Next(w1, Receive(1)) == w2; }
    assert After(steps[..3]) == w3 by { assert Next(w2, Deliver) == w3; }
  }
}
