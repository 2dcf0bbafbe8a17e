/**
  What becomes of the registrations for a path that does not exist yet while the event loop and other
  callers interleave: which steps take them away, and what a pop returns after any run.
 */
module Registrations {
  import opened WatchTable
  import opened WatchRace

  /** The paths that a pop for the child of d would return. */
  function ListOf(t: Table, d: Path, child: string): seq<Path> {
    PendingFor(InfoOf(t, d), child)
  }

  function Times(t: Table, d: Path, child: string, q: Path): nat {
    multiset(ListOf(t, d, child))[q]
  }

  /**
    The steps that empty the list: clearing; the pop for the child; the undo after the directory could
    not be added, which drops the whole list of its child; and a cleanup or undo through an entry that
    has left the table, which drops the new entry with all its lists.
   */
  predicate Empties(w: World, s: Step, d: Path, child: string) {
    s.ClearStep? ||
    (s.Advance? &&
     match w.at
     case Popping(r) => Dir(r) == d && Base(r) == child
     case ReAdded(r, orphan) => Dir(r) == d && orphan
     case Registered(r, needsAdd, orphan) => Dir(r) == d && needsAdd && d !in w.files && (orphan || Base(r) == child)
     case _ => false)
  }

  /** The cleanup after a path for the child was found back. */
  predicate CleansUp(w: World, s: Step, d: Path, child: string) {
    s.Advance? && w.at.ReAdded? && !w.at.orphan && Dir(w.at.path) == d && Base(w.at.path) == child
  }

  /** What the step registers for the child of d: by WatchPending, or for a path that is gone. */
  function Registers(w: World, s: Step, d: Path, child: string): seq<Path> {
    match s
    case WatchPendingStep(a, r) => if a == d && ChildOf(d, r) == child && d in w.table.watches then [r] else []
    case Advance(_) =>
      if w.at.Missed? && Dir(w.at.path) == d && Base(w.at.path) == child then [w.at.path] else []
    case _ => []
  }

  /** The steps that take registrations of q away. */
  predicate Takes(w: World, s: Step, d: Path, child: string, q: Path) {
    Empties(w, s, d, child) || (CleansUp(w, s, d, child) && w.at.path == q)
  }

  /** A step empties the list, takes one path from it, or adds at its end what the step registers. */
  lemma ListAfterStep(w: World, s: Step, d: Path, child: string)
    requires Enabled(w, s)
    ensures var list, after := ListOf(w.table, d, child), ListOf(Next(w, s).table, d, child);
            if Empties(w, s, d, child) then after == []
            else if CleansUp(w, s, d, child) then after == RemoveFirst(list, w.at.path)
            else after == list + Registers(w, s, d, child)
  {
    match s
    case Vanish(_, _, _) => EnvList(w, s, d, child);
    case Appear(_) => EnvList(w, s, d, child);
    case Replace(_, _, _) => EnvList(w, s, d, child);
    case WatchStep(_) => CallList(w, s, d, child);
    case UnwatchStep(_, _, _) => CallList(w, s, d, child);
    case WatchPendingStep(a, r) => PendingList(w, a, r, d, child);
    case ClearStep =>
    case Advance(lost) => LoopList(w, lost, d, child);
  }

  lemma EnvList(w: World, s: Step, d: Path, child: string)
    requires Enabled(w, s) && (s.Vanish? || s.Appear? || s.Replace?)
    ensures ListOf(Next(w, s).table, d, child) == ListOf(w.table, d, child)
  {
    hide Told, Noted;
  }

  lemma CallList(w: World, s: Step, d: Path, child: string)
    requires s.WatchStep? || s.UnwatchStep?
    ensures ListOf(Next(w, s).table, d, child) == ListOf(w.table, d, child)
  {
    hide Unwatched;
  }

  lemma PendingList(w: World, a: Path, r: Path, d: Path, child: string)
    ensures var s := WatchPendingStep(a, r);
            ListOf(Next(w, s).table, d, child) == ListOf(w.table, d, child) + Registers(w, s, d, child)
  {
  }

  lemma LoopList(w: World, lost: set<nat>, d: Path, child: string)
    requires Enabled(w, Advance(lost))
    ensures var s, list, after := Advance(lost), ListOf(w.table, d, child), ListOf(Loop(w, lost).table, d, child);
            if Empties(w, s, d, child) then after == []
            else if CleansUp(w, s, d, child) then after == RemoveFirst(list, w.at.path)
            else after == list + Registers(w, s, d, child)
  {
    hide Left, Settled, RegisterOp, UnregisterOp, PopOp, RemoveFirst, Release;
    match w.at
    case Missed(r) => MissedList(w.table, r, d, child);
    case Registered(r, needsAdd, orphan) => UndoneList(w, lost, d, child);
    case ReAdded(r, orphan) => SettledList(w.table, r, orphan, d, child);
    case Popping(r) => PoppedList(w.table, r, d, child);
    case _ =>
  }

  lemma MissedList(t: Table, r: Path, d: Path, child: string)
    ensures ListOf(RegisterOp(t, r), d, child) ==
            ListOf(t, d, child) + if Dir(r) == d && Base(r) == child then [r] else []
  {
  }

  lemma UndoneList(w: World, lost: set<nat>, d: Path, child: string)
    requires w.at.Registered?
    ensures ListOf(Loop(w, lost).table, d, child) ==
            if Empties(w, Advance(lost), d, child) then [] else ListOf(w.table, d, child)
  {
  }

  lemma SettledList(t: Table, r: Path, orphan: bool, d: Path, child: string)
    ensures ListOf(Settled(t, r, orphan), d, child) ==
            if Dir(r) == d && orphan then []
            else if Dir(r) == d && Base(r) == child then RemoveFirst(ListOf(t, d, child), r)
            else ListOf(t, d, child)
  {
    if !orphan {
      CleanedList(t, r, d, child);
    }
    hide SettleOp, RemoveFirst;
  }

  lemma CleanedList(t: Table, r: Path, d: Path, child: string)
    ensures ListOf(SettleOp(t, r), d, child) ==
            if Dir(r) == d && Base(r) == child then RemoveFirst(ListOf(t, d, child), r) else ListOf(t, d, child)
  {
    hide RemoveFirst;
    assert RemoveFirst([], r) == [] by { NothingToRemove(r); }
  }

  lemma NothingToRemove(p: Path)
    ensures RemoveFirst([], p) == []
  {
  }

  lemma {:induction false} RemoveFirstTimes(ps: seq<Path>, p: Path)
    ensures multiset(RemoveFirst(ps, p)) == multiset(ps) - multiset{p}
  {
    if ps != [] {
      assert ps == [ps[0]] + ps[1..];
      if ps[0] != p {
        RemoveFirstTimes(ps[1..], p);
      }
    }
  }

  lemma PoppedList(t: Table, r: Path, d: Path, child: string)
    ensures ListOf(PopOp(t, Dir(r), Base(r)).0, d, child) ==
            if Dir(r) == d && Base(r) == child then [] else ListOf(t, d, child)
  {
  }

  /** A registration goes exactly by one of these steps; every other step keeps it or adds one. */
  lemma RegistrationsLostExactly(w: World, s: Step, d: Path, child: string, q: Path)
    requires Enabled(w, s)
    ensures var before, after := Times(w.table, d, child, q), Times(Next(w, s).table, d, child, q);
            var more := multiset(Registers(w, s, d, child))[q];
            if before > 0 && Takes(w, s, d, child, q) then after < before && more == 0 else after == before + more
  {
    hide Next, ListOf, RemoveFirst, Empties, Dir, Base;
    ListAfterStep(w, s, d, child);
    RegistersOrTakes(w, s, d, child);
    if CleansUp(w, s, d, child) {
      RemoveFirstTimes(ListOf(w.table, d, child), w.at.path);
    }
  }

  lemma RegistersOrTakes(w: World, s: Step, d: Path, child: string)
    ensures Empties(w, s, d, child) || CleansUp(w, s, d, child) ==> Registers(w, s, d, child) == []
    ensures !(Empties(w, s, d, child) && CleansUp(w, s, d, child))
  {
  }

  // ---------------------------------------------------------------- runs

  /** What the steps that happen register for the child of d, in order. */
  function Registrations(w: World, steps: seq<Step>, d: Path, child: string): seq<Path>
    decreases steps
  {
    if steps == [] then []
    else if Enabled(w, steps[0])
    then Registers(w, steps[0], d, child) + Registrations(Next(w, steps[0]), steps[1..], d, child)
    else Registrations(w, steps[1..], d, child)
  }

  predicate SomeTakes(w: World, steps: seq<Step>, d: Path, child: string, q: Path)
    decreases steps
  {
    steps != [] &&
    if Enabled(w, steps[0])
    then (Times(w.table, d, child, q) > 0 && Takes(w, steps[0], d, child, q))
         || SomeTakes(Next(w, steps[0]), steps[1..], d, child, q)
    else SomeTakes(w, steps[1..], d, child, q)
  }

  /**
    After any interleaving, a pop for the child returns q once for each registration, those before the
    run included, if and only if no step of the run took a registration of q away.
   */
  lemma PopReturnsAllExactly(w: World, steps: seq<Step>, d: Path, child: string, q: Path)
    ensures multiset(PopOp(After(w, steps).table, d, child).1)[q] ==
            Times(w.table, d, child, q) + multiset(Registrations(w, steps, d, child))[q]
            <==> !SomeTakes(w, steps, d, child, q)
  {
    TimesAfter(w, steps, d, child, q);
  }

  lemma {:induction false} TimesAfter(w: World, steps: seq<Step>, d: Path, child: string, q: Path)
    ensures var all := Times(w.table, d, child, q) + multiset(Registrations(w, steps, d, child))[q];
            if SomeTakes(w, steps, d, child, q)
            then Times(After(w, steps).table, d, child, q) < all
            else Times(After(w, steps).table, d, child, q) == all
    decreases steps
  {
    hide Times, Takes, Registers, Enabled, Next;
    if steps != [] {
      if Enabled(w, steps[0]) {
        RegistrationsLostExactly(w, steps[0], d, child, q);
        TimesAfter(Next(w, steps[0]), steps[1..], d, child, q);
      } else {
        TimesAfter(w, steps[1..], d, child, q);
      }
    }
  }

  /** The step makes the list shorter. */
  predicate Shortens(w: World, s: Step, d: Path, child: string) {
    var list := ListOf(w.table, d, child);
    (Empties(w, s, d, child) && list != []) || (CleansUp(w, s, d, child) && w.at.path in list)
  }

  predicate SomeShortens(w: World, steps: seq<Step>, d: Path, child: string)
    decreases steps
  {
    steps != [] &&
    if Enabled(w, steps[0])
    then Shortens(w, steps[0], d, child) || SomeShortens(Next(w, steps[0]), steps[1..], d, child)
    else SomeShortens(w, steps[1..], d, child)
  }

  /**
    The pop returns the list from before the run and then what the run registered, in that order, if
    and only if no step of the run made the list shorter.
   */
  lemma PopKeepsListExactly(w: World, steps: seq<Step>, d: Path, child: string)
    ensures PopOp(After(w, steps).table, d, child).1 == ListOf(w.table, d, child) + Registrations(w, steps, d, child)
            <==> !SomeShortens(w, steps, d, child)
  {
    ListAfter(w, steps, d, child);
    hide After, SomeShortens, Registrations;
  }

  lemma {:induction false} ListAfter(w: World, steps: seq<Step>, d: Path, child: string)
    ensures var all, after := ListOf(w.table, d, child) + Registrations(w, steps, d, child),
                              ListOf(After(w, steps).table, d, child);
            if SomeShortens(w, steps, d, child) then |after| < |all| else after == all
    decreases steps
  {
    hide ListOf, Shortens, Registers, Enabled, Next;
    if steps != [] {
      if Enabled(w, steps[0]) {
        ShortensOrAdds(w, steps[0], d, child);
        ListAfter(Next(w, steps[0]), steps[1..], d, child);
      } else {
        ListAfter(w, steps[1..], d, child);
      }
    }
  }

  lemma ShortensOrAdds(w: World, s: Step, d: Path, child: string)
    requires Enabled(w, s)
    ensures var list, after := ListOf(w.table, d, child), ListOf(Next(w, s).table, d, child);
            if Shortens(w, s, d, child) then |after| < |list| else after == list + Registers(w, s, d, child)
  {
    ListAfterStep(w, s, d, child);
    if CleansUp(w, s, d, child) {
      RemoveFirstShortens(ListOf(w.table, d, child), w.at.path);
    }
    hide Next, ListOf, RemoveFirst;
  }

  lemma {:induction false} RemoveFirstShortens(ps: seq<Path>, p: Path)
    ensures if p in ps then |RemoveFirst(ps, p)| == |ps| - 1 else RemoveFirst(ps, p) == ps
  {
    if ps != [] && ps[0] != p {
      RemoveFirstShortens(ps[1..], p);
      assert ps == [ps[0]] + ps[1..];
    }
  }
}
