/**
  One turn of the watcher's event loop: what an event does to the table, which paths are notified of,
  and that the loop of module WatchRace, left alone, does the same.
 */
module EventLoop {
  import opened Options
  import opened WatchTable
  import opened FileWatcher
  import D = Debounce
  import R = WatchRace

  /** The event as the loop names it; Other is a Chmod. */
  datatype Kind = Modified | Created | Deleted | Renamed | Other

  /** A watched path went: its watch is gone from the kernel. */
  predicate Loses(t: Table, kind: Kind, p: Path) {
    (kind == Deleted || kind == Renamed) && DirectlyWatched(t, p)
  }

  /** watchParentForPending returns true: the path is back, and its parent is watched. */
  predicate Recreated(t: Table, p: Path, parent: bool, back: bool) {
    back && (parent || !NeedsAdd(t, p))
  }

  /** The table before the pending lists are looked at, and whether the loop gets there. */
  function Looked(t: Table, kind: Kind, p: Path, there: bool, parent: bool, back: bool): (Table, bool) {
    if !Loses(t, kind, p) then (t, kind != Other)
    else if there then (t.(kernel := t.kernel + {p}), true)
    else (Apply(t, Recreate(p, parent, back)), kind == Deleted && !Recreated(t, p, parent, back))
  }

  /** The turn comes to the pending lists. */
  predicate Pops(kind: Kind, on: bool) {
    on && (kind == Created || kind == Renamed)
  }

  /** The table after the event, and the popped paths. */
  function EventOp(t: Table, kind: Kind, p: Path, files: set<Path>, parent: bool, back: bool): (Table, seq<Path>) {
    var (looked, on) := Looked(t, kind, p, p in files, parent, back);
    if Pops(kind, on) then
      var (popped, ps) := PopOp(looked, Dir(p), Base(p));
      (ReAddOp(popped, ps, files), ps)
    else (looked, [])
  }

  /** Whom a debounced notification is for: the path, or else its directory. */
  function Told(t: Table, p: Path): Option<Path> {
    if DirectlyWatched(t, p) then Some(p)
    else if DirectlyWatched(t, Dir(p)) then Some(Dir(p))
    else None
  }

  /** The directory's entry goes in this turn, and its notification state with it. */
  predicate Drops(a: Table, b: Table, recreated: bool, pops: bool, dir: Path) {
    dir !in b.watches && (recreated || (pops && dir in a.watches))
  }

  /** The removal branches: a path that is there is added again, and one that is gone is waited for. */
  method Look(w: Watcher, kind: Kind, path: Path, there: bool, parent: bool, back: bool) returns (on: bool)
    modifies w, w.debouncer
    ensures (w.CurrentTable(), on) == Looked(old(w.CurrentTable()), kind, path, there, parent, back)
    ensures var recreated := Loses(old(w.CurrentTable()), kind, path) && !there
                             && Recreated(old(w.CurrentTable()), path, parent, back);
            && w.notified == old(w.notified) + (if recreated then [path] else [])
            && w.Forgot(Dir(path), recreated && Dir(path) !in w.watches)
            && (recreated ==> !on)
  {
    hide Apply, D.ForgetOp;
    if kind == Other {
      return false;
    }
    if kind == Deleted || kind == Renamed {
      var direct := w.IsDirectlyWatched(path);
      if direct {
        if there {
          w.kernel := w.kernel + {path};
        } else {
          var recreated := w.WatchParentForPending(path, parent, back);
          if recreated || kind == Renamed {
            return false;
          }
        }
      }
    }
    return true;
  }

  /** The pending lists, after a Create or a Rename. */
  method PopCreated(w: Watcher, path: Path, files: set<Path>)
    modifies w, w.debouncer
    ensures var (popped, ps) := PopOp(old(w.CurrentTable()), Dir(path), Base(path));
            w.CurrentTable() == ReAddOp(popped, ps, files) && w.notified == old(w.notified) + ps
    ensures w.Forgot(Dir(path), Dir(path) in old(w.watches) && Dir(path) !in w.watches)
  {
    hide PopOp, D.ForgetOp;
    var pending := w.PopPendingForChild(Dir(path), Base(path));
    w.ReAddPopped(pending, files);
  }

  /** The debounced notification at the end of a turn. */
  method Tell(w: Watcher, path: Path, now: int) returns (triggered: Option<Path>, atOnce: bool)
    modifies w.debouncer
    ensures triggered == Told(w.CurrentTable(), path)
    ensures var book := old(w.debouncer.At(now));
            && w.debouncer.At(now) == (if triggered.Some? then D.TriggerOp(book, triggered.value) else book)
            && (atOnce <==> triggered.Some? && D.AtOnce(book, triggered.value))
  {
    triggered, atOnce := None, false;
    var direct := w.IsDirectlyWatched(path);
    if direct {
      triggered := Some(path);
    } else {
      var parentDirect := w.IsDirectlyWatched(Dir(path));
      if !parentDirect {
        return;
      }
      triggered := Some(Dir(path));
    }
    atOnce := w.debouncer.Trigger(triggered.value, now);
  }

  /**
    run's body for one event, with no call in between. files is the tree at the stats, but that back
    says what the second stat of a path that was gone finds; parent whether the directory can be added.
    triggered is the path that the debouncer is told of, and atOnce whether it notifies at once.
   */
  method HandleEvent(w: Watcher, kind: Kind, path: Path, files: set<Path>, parent: bool, back: bool, now: int)
    returns (triggered: Option<Path>, atOnce: bool)
    modifies w, w.debouncer
    ensures var before := old(w.CurrentTable());
            var on := Looked(before, kind, path, path in files, parent, back).1;
            var recreated := Loses(before, kind, path) && path !in files && Recreated(before, path, parent, back);
            var (after, popped) := EventOp(before, kind, path, files, parent, back);
            && w.CurrentTable() == after
            && w.notified == old(w.notified) + (if recreated then [path] else []) + popped
            && triggered == (if on then Told(after, path) else None)
            && var book := if Drops(before, after, recreated, Pops(kind, on), Dir(path))
                           then D.ForgetOp(old(w.debouncer.At(now)), Dir(path)) else old(w.debouncer.At(now));
               && w.debouncer.At(now) == (if triggered.Some? then D.TriggerOp(book, triggered.value) else book)
               && (atOnce <==> triggered.Some? && D.AtOnce(book, triggered.value))
  {
    hide Apply, PopOp, ReAddOp, Told, D.ForgetOp, D.TriggerOp, D.AtOnce;
    ghost var before := w.CurrentTable();
    triggered, atOnce := None, false;
    EntriesStay(before, kind, path, path in files, parent, back);
    var on := Look(w, kind, path, path in files, parent, back);
    if !on {
      return;
    }
    if kind == Created || kind == Renamed {
      PopCreated(w, path, files);
    }
    triggered, atOnce := Tell(w, path, now);
  }

  /** A turn that comes to the pending lists has changed no entry. */
  lemma EntriesStay(t: Table, kind: Kind, p: Path, there: bool, parent: bool, back: bool)
    ensures var (looked, on) := Looked(t, kind, p, there, parent, back);
            Pops(kind, on) ==> looked.watches == t.watches
  {
  }

  // ---------------------------------------------------------------- what a turn is for

  /** In the table after the turn, p will be popped when its directory reports its creation. */
  predicate Awaited(t: Table, p: Path) {
    Dir(p) in t.watches && p in PendingFor(t.watches[Dir(p)], Base(p)) && Dir(p) in t.kernel
  }

  /**
    No change of a referenced path is passed over: it is notified of at once, or the debouncer is told,
    or it is gone, and its creation is awaited. The exception is a renamed path whose directory cannot
    be added, or was not watched by fsnotify before.
   */
  lemma ChangeIsTold(t: Table, kind: Kind, p: Path, files: set<Path>, parent: bool, back: bool)
    requires DirectlyWatched(t, p) && kind != Other && p != []
    ensures var (looked, on) := Looked(t, kind, p, p in files, parent, back);
            var (after, popped) := EventOp(t, kind, p, files, parent, back);
            var gone := Loses(t, kind, p) && p !in files;
            || (gone && Recreated(t, p, parent, back))
            || (on && Told(after, p) == Some(p))
            || (gone && kind == Renamed && !back && Awaited(after, p))
            || (gone && kind == Renamed && NeedsAdd(t, p) && !parent)
            || (gone && kind == Renamed && !NeedsAdd(t, p) && Dir(p) !in t.kernel)
  {
  }

  /** A change of any other path is told for its directory, if that is referenced. */
  lemma ChangeIsToldForDir(t: Table, kind: Kind, p: Path, files: set<Path>, parent: bool, back: bool)
    requires !DirectlyWatched(t, p) && kind != Other && p != []
    ensures var (after, popped) := EventOp(t, kind, p, files, parent, back);
            && Looked(t, kind, p, p in files, parent, back).1
            && Told(after, p) == if DirectlyWatched(t, Dir(p)) then Some(Dir(p)) else None
  {
  }

  /** What is registered for a created path is popped, and watched again if it is referenced and there. */
  lemma CreationIsPopped(t: Table, p: Path, files: set<Path>, parent: bool, back: bool)
    ensures var (after, popped) := EventOp(t, Created, p, files, parent, back);
            && popped == PendingFor(InfoOf(t, Dir(p)), Base(p))
            && PendingFor(InfoOf(after, Dir(p)), Base(p)) == []
            && forall q :: q in popped && q != Dir(p) && DirectlyWatched(t, q) && q in files ==> q in after.kernel
  {
  }

  // ---------------------------------------------------------------- the loop of WatchRace

  function Name(kind: R.Kind): Kind {
    match kind
    case Removed => Deleted
    case Renamed => Renamed
    case Created => Created
  }

  function Rank(at: R.Position): nat {
    match at
    case Idle => 0
    case Popping(_) => 1
    case ReAdded(_, _) => 1
    case ParentWatched(_, _) => 2
    case Registered(_, _, _) => 3
    case Missed(_) => 4
    case Checked(_, _) => 5
    case Handling(_) => 6
  }

  /** The loop alone, to the end of its turn. */
  function Finish(w: R.World): R.World
    decreases Rank(w.at)
  {
    if w.at == R.Idle then w else Finish(R.Loop(w, {}))
  }

  lemma FinishPops(w: R.World)
    requires w.at.Popping?
    ensures var (popped, ps) := PopOp(w.table, Dir(w.at.path), Base(w.at.path));
            Finish(w).table == ReAddOp(popped, ps, w.files)
  {
    hide PopOp, ReAddOp;
    assert R.Loop(w, {}).at == R.Idle;
  }

  lemma FinishIdle(w: R.World)
    requires w.at == R.Idle
    ensures Finish(w) == w
  {
  }

  /** From the second stat on. */
  lemma FinishRecreation(w: R.World)
    requires w.at.ParentWatched? && !w.at.orphan
    ensures var p, t := w.at.path, w.table;
            Finish(w).table == if p in w.files then SettleOp(t.(kernel := t.kernel + {p}), p) else t
  {
    hide SettleOp;
    var w1 := R.Loop(w, {});
    assert Finish(w) == Finish(w1);
    if w1.at != R.Idle {
      assert R.Loop(w1, {}).at == R.Idle && Finish(w1) == Finish(R.Loop(w1, {}));
    }
  }

  /** Up to it. */
  lemma Registering(w: R.World)
    requires w.at.Missed? && DirectlyWatched(w.table, w.at.path)
    ensures var p, t := w.at.path, w.table;
            var later := R.Loop(R.Loop(w, {}), {});
            && Finish(w) == Finish(later) && later.files == w.files
            && if NeedsAdd(t, p) && Dir(p) !in w.files
               then later.at == R.Idle && later.table == Apply(t, Recreate(p, false, false))
               else
                 var r := RegisterOp(t, p);
                 later.at == R.ParentWatched(p, false) &&
                 later.table == if NeedsAdd(t, p) then r.(kernel := r.kernel + {Dir(p)}) else r
  {
    hide RegisterOp, UnregisterOp;
    var w1 := R.Loop(w, {});
    assert Finish(w) == Finish(w1) && Finish(w1) == Finish(R.Loop(w1, {}));
  }

  /** A path that comes back before the second stat is recreated by the loop as by the operation. */
  lemma LoopRecreates(w: R.World, files: set<Path>)
    requires w.at.Missed? && DirectlyWatched(w.table, w.at.path)
    ensures var p, parent := w.at.path, Dir(w.at.path) in w.files;
            var later := R.Loop(R.Loop(w, {}), {});
            var end := Finish(if later.at.ParentWatched? then later.(files := files) else later);
            end.table == Apply(w.table, Recreate(p, parent, p in files))
  {
    Registering(w);
    hide RegisterOp, UnregisterOp, SettleOp, R.Loop;
    var later := R.Loop(R.Loop(w, {}), {});
    if later.at.ParentWatched? {
      FinishRecreation(later.(files := files));
    }
  }

  /** Left alone, the loop's actions for an event do to the table what one turn does. */
  lemma LoopIsTurn(w: R.World)
    requires w.at == R.Idle && w.queue != []
    ensures var e := w.queue[0];
            Finish(R.Loop(w, {})).table ==
            EventOp(w.table, Name(e.kind), e.path, w.files, Dir(e.path) in w.files, false).0
  {
    hide RegisterOp, UnregisterOp, PopOp, ReAddOp, SettleOp;
    var e, w1 := w.queue[0], R.Loop(w, {});
    var w2 := R.Loop(w1, {});
    assert Finish(w1) == Finish(w2);
    if w2.at.Popping? {
      FinishPops(w2);
    } else if w2.at.Checked? {
      CheckedIsTurn(w2);
    }
  }

  lemma CheckedIsTurn(w: R.World)
    requires w.at.Checked? && w.at.kind != R.Created && DirectlyWatched(w.table, w.at.path)
    ensures var p := w.at.path;
            Finish(w).table == EventOp(w.table, Name(w.at.kind), p, w.files, Dir(p) in w.files, false).0
  {
    hide RegisterOp, UnregisterOp, PopOp, ReAddOp, SettleOp;
    var w1 := R.Loop(w, {});
    assert Finish(w) == Finish(w1);
    if w1.at.Popping? {
      FinishPops(w1);
    } else if w1.at.Missed? {
      LoopRecreates(w1, w1.files);
      Registering(w1);
      var later := R.Loop(R.Loop(w1, {}), {});
      assert later.(files := w1.files) == later;
    }
  }
}
