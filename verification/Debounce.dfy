/**
  Debounced notifications: a burst at once, then a timer. Timers outlive the state that armed them,
  and a fired timer's closure notifies first and clears the state later, under the lock.
 */
module Debounce {
  import opened WatchTable
  import opened Options

  // milliseconds
  const INTERVAL := 1000
  const WINDOW := 1000
  const BURST_LIMIT := 3

  /** debounceState; a timer is known by its number. */
  datatype State = State(timer: Option<nat>, count: nat, windowEnd: int)

  datatype Timer = Timer(path: Path, deadline: int)

  /**
    closing counts the closures that have notified and wait for the lock; waiting holds, for each
    path, the time of the oldest triggered event that no notification has followed.
   */
  datatype Book = Book(
    now: int,
    states: map<Path, State>,
    armed: map<nat, Timer>,
    closing: multiset<Path>,
    next: nat,
    waiting: map<Path, int>)

  datatype Step =
    | Tick(ms: nat)
    | Trigger(path: Path)
    | Fire(timer: nat)
    | Clear(path: Path)
    | Forget(path: Path) // Unwatch or a pop drops the path

  /** Timers fire on time: the clock does not pass a deadline. */
  predicate Enabled(b: Book, s: Step) {
    match s
    case Tick(ms) => forall t :: t in b.armed ==> b.now + ms <= b.armed[t].deadline
    case Trigger(_) => true
    case Fire(t) => t in b.armed && b.armed[t].deadline == b.now
    case Clear(p) => p in b.closing
    case Forget(_) => true
  }

  /** The state that a trigger works on: a new one if there is none or its window is over. */
  function Current(b: Book, p: Path): State {
    if p !in b.states || b.now > b.states[p].windowEnd then State(None, 0, b.now + WINDOW) else b.states[p]
  }

  function Awaiting(b: Book, p: Path): map<Path, int> {
    if p in b.waiting then b.waiting else b.waiting[p := b.now]
  }

  /** triggerDebouncedNotification */
  function TriggerOp(b: Book, p: Path): Book {
    var s := Current(b, p);
    if s.timer.Some? then
      b.(states := b.states[p := s], armed := b.armed[s.timer.value := Timer(p, b.now + INTERVAL)],
         waiting := Awaiting(b, p))
    else if s.count < BURST_LIMIT then
      b.(states := b.states[p := s.(count := s.count + 1)], waiting := b.waiting - {p})
    else
      b.(states := b.states[p := s.(timer := Some(b.next))],
         armed := b.armed[b.next := Timer(p, b.now + INTERVAL)], next := b.next + 1,
         waiting := Awaiting(b, p))
  }

  /** The closure's first half: the notification. */
  function FireOp(b: Book, t: nat): Book
    requires t in b.armed
  {
    var p := b.armed[t].path;
    b.(armed := b.armed - {t}, closing := b.closing + multiset{p}, waiting := b.waiting - {p})
  }

  /** Its second half, under the lock; it clears whatever state the path has by now. */
  function ClearOp(b: Book, p: Path): Book {
    b.(closing := b.closing - multiset{p},
       states := if p in b.states then b.states[p := State(None, 0, b.now + WINDOW)] else b.states)
  }

  /** The path's state goes, and the timer that it records is stopped. */
  function ForgetOp(b: Book, p: Path): Book {
    b.(states := b.states - {p},
       armed := if p in b.states && b.states[p].timer.Some? then b.armed - {b.states[p].timer.value} else b.armed,
       waiting := b.waiting - {p})
  }

  function Next(b: Book, s: Step): Book
    requires Enabled(b, s)
  {
    match s
    case Tick(ms) => b.(now := b.now + ms)
    case Trigger(p) => TriggerOp(b, p)
    case Fire(t) => FireOp(b, t)
    case Clear(p) => ClearOp(b, p)
    case Forget(p) => ForgetOp(b, p)
  }

  /** A recorded timer implies a spent burst, and a window never reaches further than its length. */
  predicate StateOk(b: Book, p: Path)
    requires p in b.states
  {
    var s := b.states[p];
    && s.count <= BURST_LIMIT
    && (s.timer.Some? ==> s.count == BURST_LIMIT && s.timer.value < b.next)
    && (s.timer.Some? && s.timer.value in b.armed ==> b.armed[s.timer.value].path == p)
    && s.windowEnd <= b.now + WINDOW
  }

  predicate Records(b: Book, p: Path, t: nat) {
    p in b.states && b.states[p].timer == Some(t)
  }

  /** Timer t will notify p in time for an event at time e, even if it is reset until then. */
  predicate Serves(b: Book, t: nat, p: Path, e: int) {
    && t in b.armed && b.armed[t].path == p && b.armed[t].deadline <= e + WINDOW + INTERVAL
    && (Records(b, p, t) ==> b.states[p].windowEnd <= e + WINDOW)
  }

  ghost predicate Served(b: Book, p: Path, e: int) {
    e <= b.now && exists t :: Serves(b, t, p, e)
  }

  ghost predicate Inv(b: Book) {
    && (forall p :: p in b.states ==> StateOk(b, p))
    && (forall p, q, t :: Records(b, p, t) && Records(b, q, t) ==> p == q)
    && (forall t :: t in b.armed ==> t < b.next && b.now <= b.armed[t].deadline)
    && (forall p :: p in b.waiting ==> Served(b, p, b.waiting[p]))
  }

  const START := Book(0, map[], map[], multiset{}, 0, map[])

  ghost function After(steps: seq<Step>): Book {
    if steps == [] then START else
    var b, s := After(steps[..|steps| - 1]), steps[|steps| - 1];
    if Enabled(b, s) then Next(b, s) else b
  }

  lemma StepKeepsInv(b: Book, s: Step)
    requires Inv(b) && Enabled(b, s)
    ensures Inv(Next(b, s))
  {
    match s
    case Tick(ms) =>
      assert forall p, t :: Records(Next(b, s), p, t) <==> Records(b, p, t);
      forall p | p in b.waiting
        ensures Served(Next(b, s), p, b.waiting[p])
      {
        var t :| Serves(b, t, p, b.waiting[p]);
        assert Serves(Next(b, s), t, p, b.waiting[p]);
      }
    case Trigger(p) => TriggerInv(b, p);
    case Fire(t) => ShrinkInv(b, FireOp(b, t), b.armed[t].path);
    case Clear(p) => ShrinkInv(b, ClearOp(b, p), p);
    case Forget(p) => ShrinkInv(b, ForgetOp(b, p), p);
  }

  /** Nobody but p loses a timer, and p only records less; p waits for nothing, or keeps its timers. */
  lemma ShrinkInv(b: Book, b': Book, p: Path)
    requires Inv(b)
    requires b'.now == b.now && b'.next == b.next
    requires forall t :: t in b'.armed ==> t in b.armed && b'.armed[t] == b.armed[t]
    requires forall t :: t in b.armed && t !in b'.armed ==> b.armed[t].path == p
    requires forall q :: q != p ==> (q in b'.states <==> q in b.states)
    requires forall q :: q != p && q in b.states ==> b'.states[q] == b.states[q]
    requires p in b'.states ==> p in b.states && b'.states[p] in {b.states[p], State(None, 0, b.now + WINDOW)}
    requires forall q :: q in b'.waiting ==> q in b.waiting && b'.waiting[q] == b.waiting[q]
    requires p in b'.waiting ==> b'.armed == b.armed
    ensures Inv(b')
  {
    forall q | q in b'.waiting
      ensures Served(b', q, b'.waiting[q])
    {
      var t :| Serves(b, t, q, b.waiting[q]);
      assert Records(b', q, t) ==> Records(b, q, t);
      assert Serves(b', t, q, b'.waiting[q]);
    }
    forall q, r, t | Records(b', q, t) && Records(b', r, t)
      ensures q == r
    {
      assert Records(b, q, t) && Records(b, r, t);
    }
    forall q | q in b'.states
      ensures StateOk(b', q)
    {
      assert StateOk(b, q);
    }
  }

  lemma TriggerInv(b: Book, p: Path)
    requires Inv(b)
    ensures Inv(TriggerOp(b, p))
  {
    var s, b' := Current(b, p), TriggerOp(b, p);
    assert p in b.states ==> StateOk(b, p);
    forall q | q in b'.states
      ensures StateOk(b', q)
    {
      if q != p {
        assert StateOk(b, q);
        assert b.states[q].timer.Some? ==> Records(b, q, b.states[q].timer.value);
        assert s.timer.Some? ==> Records(b, p, s.timer.value);
      }
    }
    forall q, r, t | Records(b', q, t) && Records(b', r, t)
      ensures q == r
    {
      assert q != p ==> Records(b, q, t) && StateOk(b, q);
      assert r != p ==> Records(b, r, t) && StateOk(b, r);
      assert t != b.next && Records(b', p, t) ==> Records(b, p, t);
    }
    forall q | q in b'.waiting
      ensures Served(b', q, b'.waiting[q])
    {
      if q in b.waiting {
        var t :| Serves(b, t, q, b.waiting[q]);
        assert Records(b', q, t) ==> Records(b, q, t) || t == b.next;
        assert s.timer == Some(t) ==> Records(b, p, t);
        assert Serves(b', t, q, b.waiting[q]);
      } else {
        assert Serves(b', if s.timer.Some? then s.timer.value else b.next, p, b.now);
      }
    }
  }

  lemma {:induction false} EveryRunKeepsInv(steps: seq<Step>)
    ensures Inv(After(steps))
  {
    if steps != [] {
      var b, s := After(steps[..|steps| - 1]), steps[|steps| - 1];
      EveryRunKeepsInv(steps[..|steps| - 1]);
      if Enabled(b, s) {
        StepKeepsInv(b, s);
      }
    }
  }

  /** No triggered event on a path that stays watched waits longer than the window and the interval. */
  lemma BoundedStaleness(steps: seq<Step>, p: Path)
    requires p in After(steps).waiting
    ensures After(steps).now <= After(steps).waiting[p] + WINDOW + INTERVAL
  {
    EveryRunKeepsInv(steps);
    var b := After(steps);
    var t :| Serves(b, t, p, b.waiting[p]);
  }

  /** The bound is attained: an event right after a burst, and a reset at the end of the window. */
  lemma BoundIsAttained(p: Path)
    ensures var b := After([Trigger(p), Trigger(p), Trigger(p), Trigger(p), Tick(WINDOW), Trigger(p), Tick(INTERVAL)]);
            p in b.waiting && b.now == b.waiting[p] + WINDOW + INTERVAL
  {
    var steps := [Trigger(p), Trigger(p), Trigger(p), Trigger(p), Tick(WINDOW), Trigger(p), Tick(INTERVAL)];
    var b1 := START.(states := map[p := State(None, 1, WINDOW)]);
    var b2 := START.(states := map[p := State(None, 2, WINDOW)]);
    var b3 := START.(states := map[p := State(None, 3, WINDOW)]);
    var b4 := Book(0, map[p := State(Some(0), 3, WINDOW)], map[0 := Timer(p, INTERVAL)], multiset{}, 1, map[p := 0]);
    var b5 := b4.(now := WINDOW);
    var b6 := b5.(armed := map[0 := Timer(p, WINDOW + INTERVAL)]);
    var b7 := b6.(now := WINDOW + INTERVAL);
    Burst(p, b1, b2, b3, b4);
    LateReset(p, b4, b5, b6, b7);
    hide TriggerOp, Enabled, After;
    Reaches(steps, [START, b1, b2, b3, b4, b5, b6, b7]);
  }

  lemma Burst(p: Path, b1: Book, b2: Book, b3: Book, b4: Book)
    requires b1 == START.(states := map[p := State(None, 1, WINDOW)])
    requires b2 == START.(states := map[p := State(None, 2, WINDOW)])
    requires b3 == START.(states := map[p := State(None, 3, WINDOW)])
    requires b4.states == map[p := State(Some(0), 3, WINDOW)] && b4.armed == map[0 := Timer(p, INTERVAL)]
    requires b4 == START.(states := b4.states, armed := b4.armed, next := 1, waiting := map[p := 0])
    ensures Steps(START, Trigger(p), b1) && Steps(b1, Trigger(p), b2)
    ensures Steps(b2, Trigger(p), b3) && Steps(b3, Trigger(p), b4)
  {
    assert START.waiting - {p} == START.waiting;
  }

  lemma LateReset(p: Path, b4: Book, b5: Book, b6: Book, b7: Book)
    requires b4.states == map[p := State(Some(0), 3, WINDOW)] && b4.armed == map[0 := Timer(p, INTERVAL)]
    requires b4 == START.(states := b4.states, armed := b4.armed, next := 1, waiting := map[p := 0])
    requires b5 == b4.(now := WINDOW) && b6 == b5.(armed := map[0 := Timer(p, WINDOW + INTERVAL)])
    requires b7 == b6.(now := WINDOW + INTERVAL)
    ensures Steps(b4, Tick(WINDOW), b5) && Steps(b5, Trigger(p), b6) && Steps(b6, Tick(INTERVAL), b7)
  {
  }

  // ---------------------------------------------------------------- at once, or later

  /** The trigger notifies at once: nothing of p waits after it. */
  predicate AtOnce(b: Book, p: Path) {
    p !in TriggerOp(b, p).waiting
  }

  /**
    A trigger notifies at once if and only if the path is new, its window is over, or its burst is not
    spent and no timer recorded. Otherwise a timer will fire an interval from now.
   */
  lemma AtOnceExactly(b: Book, p: Path)
    requires Inv(b)
    ensures AtOnce(b, p) <==>
            || p !in b.states || b.now > b.states[p].windowEnd
            || (b.states[p].timer.None? && b.states[p].count < BURST_LIMIT)
    ensures var b' := TriggerOp(b, p);
            !AtOnce(b, p) ==> exists t :: t in b'.armed && b'.armed[t] == Timer(p, b.now + INTERVAL)
    ensures AtOnce(b, p) ==> TriggerOp(b, p).armed == b.armed
  {
    if !AtOnce(b, p) {
      var b' := TriggerOp(b, p);
      var t := if Current(b, p).timer.Some? then Current(b, p).timer.value else b.next;
      assert b'.armed[t] == Timer(p, b.now + INTERVAL);
    }
  }

  /** The step calls the notification callback for p. */
  predicate Notifies(b: Book, s: Step, p: Path) {
    || (s.Fire? && s.timer in b.armed && b.armed[s.timer].path == p)
    || (s == Trigger(p) && AtOnce(b, p))
  }

  /** An event waits from its trigger until a notification for its own path, or until the path is dropped. */
  lemma WaitsUntilNotified(b: Book, s: Step, p: Path)
    requires Enabled(b, s)
    ensures var w, w' := b.waiting, Next(b, s).waiting;
            if p in w then
              if Notifies(b, s, p) || s == Forget(p) then p !in w' else p in w' && w'[p] == w[p]
            else (p in w' <==> s == Trigger(p) && !AtOnce(b, p)) && (p in w' ==> w'[p] == b.now)
  {
  }

  /** A fired timer is gone, and its closure will reset the path. */
  lemma FireThenClear(b: Book, t: nat)
    requires Inv(b) && Enabled(b, Fire(t))
    ensures var p, b' := b.armed[t].path, Next(b, Fire(t));
            Enabled(b', Clear(p)) && b'.armed == b.armed - {t} && b'.states == b.states
            && forall q :: q != p ==> b'.closing[q] == b.closing[q]
  {
  }

  predicate SameState(b: Book, b': Book, p: Path) {
    (p in b'.states <==> p in b.states) && (p in b.states ==> b'.states[p] == b.states[p])
  }

  /** After the reset the path has a whole burst again, and nothing else changes. */
  lemma ClearResets(b: Book, p: Path)
    requires Inv(b) && Enabled(b, Clear(p)) && p in b.states
    ensures var b1 := ClearOp(b, p);
            var b2 := TriggerOp(b1, p);
            var b3 := TriggerOp(b2, p);
            && AtOnce(b1, p) && AtOnce(b2, p) && AtOnce(b3, p) && !AtOnce(TriggerOp(b3, p), p)
            && b1.armed == b.armed && b1.closing == b.closing - multiset{p}
            && forall q :: q != p ==> SameState(b, b1, q)
  {
  }

  /** A dropped path has no state and no recorded timer; the timers and states of other paths stay. */
  lemma ForgetStops(b: Book, p: Path)
    requires Inv(b)
    ensures var b' := ForgetOp(b, p);
            && p !in b'.states
            && (forall t :: t in b'.armed <==> t in b.armed && !Records(b, p, t))
            && (forall t :: t in b'.armed ==> b'.armed[t] == b.armed[t])
            && (forall q :: q != p ==> SameState(b, b', q))
            && b'.closing == b.closing
  {
  }

  /** No step of the run is about p, except that it may be dropped. */
  predicate Quiet(more: seq<Step>, p: Path) {
    forall s :: s in more ==> s != Trigger(p) && s != Clear(p)
  }

  /** After more than a window without an event, the next one is notified of at once. */
  lemma QuietThenAtOnce(steps: seq<Step>, more: seq<Step>, p: Path)
    requires Quiet(more, p) && After(steps + more).now > After(steps).now + WINDOW
    ensures AtOnce(After(steps + more), p)
  {
    hide After;
    EveryRunKeepsInv(steps + more);
    EveryRunKeepsInv(steps);
    WindowStays(steps, more, p);
    AtOnceExactly(After(steps + more), p);
  }

  lemma {:induction false} WindowStays(steps: seq<Step>, more: seq<Step>, p: Path)
    requires Quiet(more, p) && Inv(After(steps))
    ensures WindowEnds(After(steps + more), p, After(steps).now + WINDOW)
    ensures After(steps).now <= After(steps + more).now
  {
    hide Next, Enabled, WindowEnds;
    if more == [] {
      assert steps + more == steps;
      assert WindowEnds(After(steps), p, After(steps).now + WINDOW) by { EndsInTime(After(steps), p); }
    } else {
      var all, init, last := steps + more, more[..|more| - 1], more[|more| - 1];
      assert all[..|all| - 1] == steps + init && all[|all| - 1] == last;
      assert last in more && forall s :: s in init ==> s in more;
      WindowStays(steps, init, p);
      if Enabled(After(steps + init), last) {
        WindowStep(After(steps + init), last, p, After(steps).now + WINDOW);
      }
    }
  }

  predicate WindowEnds(b: Book, p: Path, end: int) {
    p in b.states ==> b.states[p].windowEnd <= end
  }

  lemma EndsInTime(b: Book, p: Path)
    requires Inv(b)
    ensures WindowEnds(b, p, b.now + WINDOW)
  {
  }

  lemma WindowStep(b: Book, s: Step, p: Path, end: int)
    requires Enabled(b, s) && s != Trigger(p) && s != Clear(p) && WindowEnds(b, p, end)
    ensures WindowEnds(Next(b, s), p, end) && b.now <= Next(b, s).now
  {
  }

  /** How many triggers of p in more, which come after steps, notify at once. */
  ghost function Bursts(steps: seq<Step>, more: seq<Step>, p: Path): nat {
    if more == [] then 0 else
    var init := more[..|more| - 1];
    Bursts(steps, init, p) + if more[|more| - 1] == Trigger(p) && AtOnce(After(steps + init), p) then 1 else 0
  }

  /**
    Between two resets of the path, no stretch of a window's length has more notifications at once than
    the bursts of two windows.
   */
  lemma BurstsAreBounded(steps: seq<Step>, more: seq<Step>, p: Path)
    requires After(steps + more).now <= After(steps).now + WINDOW
    requires forall s :: s in more ==> s != Clear(p) && s != Forget(p)
    ensures Bursts(steps, more, p) <= 2 * BURST_LIMIT
  {
    hide After, Bursts;
    EveryRunKeepsInv(steps + more);
    EveryRunKeepsInv(steps);
    CountsBursts(steps, more, p);
    assert p in After(steps + more).states ==> StateOk(After(steps + more), p);
  }

  /** The count of the window covers the bursts since the stretch began, but for those of the first window. */
  predicate Covers(b: Book, p: Path, bursts: nat, end: int) {
    if p !in b.states then bursts == 0
    else bursts <= b.states[p].count + if b.states[p].windowEnd >= end then BURST_LIMIT else 0
  }

  lemma {:induction false} CountsBursts(steps: seq<Step>, more: seq<Step>, p: Path)
    requires Inv(After(steps)) && After(steps + more).now <= After(steps).now + WINDOW
    requires forall s :: s in more ==> s != Clear(p) && s != Forget(p)
    ensures Covers(After(steps + more), p, Bursts(steps, more, p), After(steps).now + WINDOW)
    ensures After(steps).now <= After(steps + more).now
  {
    hide Next, Covers, AtOnce, Inv;
    if more == [] {
      assert steps + more == steps;
      NoneYet(After(steps), p, After(steps).now + WINDOW);
    } else {
      var all, init, last := steps + more, more[..|more| - 1], more[|more| - 1];
      assert all[..|all| - 1] == steps + init && all[|all| - 1] == last;
      assert last in more && forall s :: s in init ==> s in more;
      var b := After(steps + init);
      if Enabled(b, last) {
        NeverBack(b, last);
        CountsBursts(steps, init, p);
        EveryRunKeepsInv(steps + init);
        OneBurst(b, last, p, Bursts(steps, init, p), After(steps).now + WINDOW);
      } else {
        CountsBursts(steps, init, p);
      }
    }
  }

  lemma NoneYet(b: Book, p: Path, end: int)
    ensures Covers(b, p, 0, end)
  {
  }

  lemma NeverBack(b: Book, s: Step)
    requires Enabled(b, s)
    ensures b.now <= Next(b, s).now
  {
  }

  lemma OneBurst(b: Book, s: Step, p: Path, bursts: nat, end: int)
    requires Inv(b) && Enabled(b, s) && s != Clear(p) && s != Forget(p)
    requires Covers(b, p, bursts, end) && end - WINDOW <= b.now && Next(b, s).now <= end
    ensures Covers(Next(b, s), p, bursts + if s == Trigger(p) && AtOnce(b, p) then 1 else 0, end)
  {
    assert p in b.states ==> StateOk(b, p);
    if s == Trigger(p) {
      AtOnceExactly(b, p);
    }
  }

  predicate Steps(b: Book, s: Step, b': Book) {
    Enabled(b, s) && Next(b, s) == b'
  }

  lemma {:induction false} Reaches(steps: seq<Step>, bs: seq<Book>)
    requires |bs| == |steps| + 1 && bs[0] == START
    requires forall i :: 0 <= i < |steps| ==> Steps(bs[i], steps[i], bs[i + 1])
    ensures After(steps) == bs[|steps|]
  {
    hide Enabled, Next;
    if steps != [] {
      Reaches(steps[..|steps| - 1], bs[..|steps|]);
    }
  }

  // ---------------------------------------------------------------- the watcher's part

  class Debouncer {
    var states: map<Path, State>
    /** The runtime's timers, and the closures that run. */
    var armed: map<nat, Timer>
    var closing: multiset<Path>
    var next: nat
    ghost var waiting: map<Path, int>

    ghost function At(now: int): Book
      reads this
    {
      Book(now, states, armed, closing, next, waiting)
    }

    constructor ()
      ensures At(0) == START
    {
      states, armed, closing, next, waiting := map[], map[], multiset{}, 0, map[];
    }

    /** triggerDebouncedNotification; notified says whether the callback is called at once. */
    method Trigger(path: Path, now: int) returns (notified: bool)
      modifies this
      ensures At(now) == TriggerOp(old(At(now)), path)
      ensures notified <==> path !in waiting
    {
      ghost var before := At(now);
      if path !in states || now > states[path].windowEnd {
        states := states[path := State(None, 0, now + WINDOW)];
      }
      var state := states[path];
      assert state == Current(before, path) && states == before.states[path := state];
      hide Current;
      ghost var awaiting := if path in waiting then waiting else waiting[path := now];
      if state.timer.Some? {
        armed := armed[state.timer.value := Timer(path, now + INTERVAL)];
        waiting := awaiting;
        return false;
      }
      if state.count < BURST_LIMIT {
        states := states[path := state.(count := state.count + 1)];
        waiting := waiting - {path};
        return true;
      }
      states := states[path := state.(timer := Some(next))];
      armed := armed[next := Timer(path, now + INTERVAL)];
      next := next + 1;
      waiting := awaiting;
      return false;
    }

    /** A timer fires: its closure notifies for the path that armed it. */
    method Fire(timer: nat, now: int) returns (path: Path)
      requires timer in armed
      modifies this
      ensures At(now) == FireOp(old(At(now)), timer) && path == old(armed[timer].path)
    {
      path := armed[timer].path;
      armed := armed - {timer};
      closing := closing + multiset{path};
      waiting := waiting - {path};
    }

    /** The closure gets the lock. */
    method Clear(path: Path, now: int)
      requires path in closing
      modifies this
      ensures At(now) == ClearOp(old(At(now)), path)
    {
      closing := closing - multiset{path};
      if path in states {
        states := states[path := State(None, 0, now + WINDOW)];
      }
    }

    /** The part of Unwatch and popPendingForChild that drops a path's state. */
    method Forget(path: Path)
      modifies this
      ensures forall now :: At(now) == ForgetOp(old(At(now)), path)
    {
      if path in states {
        if states[path].timer.Some? {
          armed := armed - {states[path].timer.value};
        }
        states := states - {path};
      }
      waiting := waiting - {path};
    }
  }
}
