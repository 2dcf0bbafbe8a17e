/**
  The session's bookkeeping on top of the watcher: at most one reference per path, and what
  ClearCacheState leaves behind.
 */
module Sessions {
  import opened WatchTable
  import opened FileWatcher

  /** WatchMeta */
  datatype Meta = Meta(listed: bool, mtime: int, size: int)

  /** isNoWatchPath: volatile file systems are not watched. */
  predicate NoWatch(p: Path) {
    p != [] && p[0] in {"tmp", "dev", "proc", "sys"}
  }

  /** The paths in watchedPaths, and the watcher's table. */
  datatype View = View(watched: set<Path>, table: Table)

  // ---------------------------------------------------------------- the calls, as functions

  function WatchCall(v: View, p: Path, added: bool): View {
    if p in v.watched then v
    else View(if WatchFails(v.table, p, added) then v.watched else v.watched + {p}, WatchOp(v.table, p, added))
  }

  function UnwatchCall(v: View, p: Path, removed: bool): View {
    if p !in v.watched then v
    else View(if UnwatchFails(v.table, p, removed) then v.watched else v.watched - {p}, UnwatchOp(v.table, p, removed))
  }

  /** WatchPendingFile once the closest existing directory is known. */
  function PendingCall(v: View, ancestor: Path, p: Path, added: bool): View {
    var w := WatchCall(v, ancestor, added);
    if ancestor in w.watched then w.(table := WatchPendingOp(w.table, ancestor, p)) else w
  }

  /** The table after unwatching all paths of ps; removable ones leave fsnotify. */
  function UnwatchAll(t: Table, ps: set<Path>, removable: set<Path>): Table {
    Table(
      map p | p in t.watches && !(p in ps && LastUse(t.watches[p])) ::
        if p in ps && t.watches[p].refCount > 0
        then t.watches[p].(refCount := t.watches[p].refCount - 1)
        else t.watches[p],
      t.kernel - set p | p in ps && p in t.watches && LastUse(t.watches[p]) && p in removable)
  }

  predicate LastUse(info: Info) {
    info.refCount == 1 && info.pending == map[]
  }

  function ClearCall(v: View, removable: set<Path>): View {
    View({}, ClearPendingOp(UnwatchAll(v.table, v.watched, removable)))
  }

  // ---------------------------------------------------------------- what the calls are for

  /**
    A path that is not listed gets one reference and is listed, unless its entry is unused and
    fsnotify refuses it; then nothing is listed. A listed path stays as it is.
   */
  ghost predicate WatchesOnce(a: View, b: View, p: Path, added: bool) {
    if p in a.watched then b == a
    else if added || InfoOf(a.table, p) != Info(0, map[]) then
      TakesReference(a.table, b.table, p) && b.watched == a.watched + {p}
    else
      && b.watched == a.watched && p !in b.table.watches && b.table.kernel == a.table.kernel
      && forall q :: q != p ==> Untouched(a.table, b.table, q)
  }

  /**
    A listed path gives its reference back, if it has one, and is not listed any more, unless its last
    use is refused by fsnotify's Remove; then it stays listed. Any other path stays as it is.
   */
  ghost predicate UnwatchesOnce(a: View, b: View, p: Path, removed: bool) {
    if p !in a.watched then b == a
    else
      && (if InfoOf(a.table, p).refCount <= 0 then b.table == a.table
          else GivesReferenceBack(a.table, b.table, p, removed))
      && b.watched == if InfoOf(a.table, p) == Info(1, map[]) && !removed then a.watched else a.watched - {p}
  }

  lemma WatchCallEffect(v: View, p: Path, added: bool)
    ensures WatchesOnce(v, WatchCall(v, p, added), p, added)
  {
    WatchEffect(v.table, p, added);
  }

  lemma UnwatchCallEffect(v: View, p: Path, removed: bool)
    ensures UnwatchesOnce(v, UnwatchCall(v, p, removed), p, removed)
  {
    UnwatchEffect(v.table, p, removed);
  }

  /** The ancestor is watched as by a call, and then the path is the last one registered for its child. */
  ghost predicate RegistersLast(a: View, b: View, ancestor: Path, p: Path, added: bool) {
    exists mid: View ::
      && WatchesOnce(a, mid, ancestor, added) && b.watched == mid.watched
      && (forall d, child :: PendingFor(InfoOf(b.table, d), child) ==
            PendingFor(InfoOf(mid.table, d), child) +
            if d == ancestor && ancestor in b.watched && ancestor in b.table.watches && child == ChildOf(ancestor, p)
            then [p] else [])
      && (forall q :: InfoOf(b.table, q).refCount == InfoOf(mid.table, q).refCount)
      && b.table.watches.Keys == mid.table.watches.Keys && b.table.kernel == mid.table.kernel
  }

  lemma PendingCallEffect(v: View, ancestor: Path, p: Path, added: bool)
    ensures RegistersLast(v, PendingCall(v, ancestor, p, added), ancestor, p, added)
  {
    WatchCallEffect(v, ancestor, added);
    WatchPendingEffect(WatchCall(v, ancestor, added).table, ancestor, p);
    hide WatchCall, WatchPendingOp, WatchesOnce;
    assert WatchesOnce(v, WatchCall(v, ancestor, added), ancestor, added);
  }

  /** Clearing takes one reference from every listed path, and every registration. */
  ghost predicate ClearsAll(a: View, b: View, removable: set<Path>) {
    && b.watched == {}
    && forall p ::
         var info, listed := InfoOf(a.table, p), p in a.watched;
         var last := listed && info == Info(1, map[]);
         && InfoOf(b.table, p) == Info(if listed && info.refCount > 0 then info.refCount - 1 else info.refCount, map[])
         && (p in b.table.watches <==> p in a.table.watches && !last)
         && (p in b.table.kernel <==> p in a.table.kernel && !(last && p in removable))
  }

  lemma ClearCallEffect(v: View, removable: set<Path>)
    ensures ClearsAll(v, ClearCall(v, removable), removable)
  {
  }

  // ---------------------------------------------------------------- the session object

  class Session {
    var watchedPaths: map<Path, Meta>
    var openFiles: set<Path>
    var richFetched: set<Path>
    const watcher: Watcher

    ghost function CurrentView(): View
      reads this, watcher
    {
      View(watchedPaths.Keys, watcher.CurrentTable())
    }

    constructor (watcher: Watcher)
      ensures this.watcher == watcher && watchedPaths == map[] && openFiles == {}
    {
      this.watcher := watcher;
      watchedPaths, openFiles, richFetched := map[], {}, {};
    }

    /** Watch, which WatchFile and WatchDir repeat after a check of the path. */
    method Watch(path: Path, added: bool) returns (ok: bool)
      modifies this`watchedPaths, watcher
      ensures CurrentView() == WatchCall(old(CurrentView()), path, added)
      ensures ok <==> path in watchedPaths
      ensures WatchesOnce(old(CurrentView()), CurrentView(), path, added)
    {
      hide WatchesOnce;
      WatchCallEffect(CurrentView(), path, added);
      if path in watchedPaths {
        return true;
      }
      ok := watcher.Watch(path, added);
      if ok {
        watchedPaths := watchedPaths[path := Meta(false, 0, 0)];
      }
    }

    method WatchFileOrDir(path: Path, added: bool) returns (ok: bool)
      modifies this`watchedPaths, watcher
      ensures CurrentView() == if NoWatch(path) then old(CurrentView()) else WatchCall(old(CurrentView()), path, added)
      ensures ok <==> NoWatch(path) || path in watchedPaths
      ensures !NoWatch(path) ==> WatchesOnce(old(CurrentView()), CurrentView(), path, added)
    {
      if NoWatch(path) {
        return true;
      }
      ok := Watch(path, added);
    }

    method Unwatch(path: Path, removed: bool) returns (ok: bool)
      modifies this`watchedPaths, watcher, watcher.debouncer
      ensures CurrentView() == UnwatchCall(old(CurrentView()), path, removed)
      ensures ok <==> path !in watchedPaths
      ensures UnwatchesOnce(old(CurrentView()), CurrentView(), path, removed)
    {
      hide UnwatchesOnce;
      UnwatchCallEffect(CurrentView(), path, removed);
      if path !in watchedPaths {
        return true;
      }
      ok := watcher.Unwatch(path, removed);
      if ok {
        watchedPaths := watchedPaths - {path};
      }
    }

    /** mtime and size are what the stat before the call found. */
    method OpenFile(path: Path, mtime: int, size: int, added: bool) returns (ok: bool)
      modifies this`watchedPaths, this`openFiles, watcher
      ensures CurrentView() == WatchCall(old(CurrentView()), path, added) && openFiles == old(openFiles) + {path}
      ensures ok <==> path in watchedPaths
      ensures ok ==> watchedPaths[path].mtime == mtime && watchedPaths[path].size == size
      ensures WatchesOnce(old(CurrentView()), CurrentView(), path, added)
    {
      hide WatchesOnce;
      WatchCallEffect(CurrentView(), path, added);
      openFiles := openFiles + {path};
      if path !in watchedPaths {
        ok := watcher.Watch(path, added);
        if ok {
          watchedPaths := watchedPaths[path := Meta(false, mtime, size)];
        }
      } else {
        watchedPaths := watchedPaths[path := watchedPaths[path].(mtime := mtime, size := size)];
        ok := true;
      }
    }

    method CloseFile(path: Path, removed: bool) returns (ok: bool)
      modifies this`watchedPaths, this`openFiles, watcher, watcher.debouncer
      ensures CurrentView() == UnwatchCall(old(CurrentView()), path, removed) && openFiles == old(openFiles) - {path}
      ensures UnwatchesOnce(old(CurrentView()), CurrentView(), path, removed)
    {
      hide UnwatchesOnce;
      UnwatchCallEffect(CurrentView(), path, removed);
      openFiles := openFiles - {path};
      ok := true;
      if path in watchedPaths {
        ok := watcher.Unwatch(path, removed);
        if ok {
          watchedPaths := watchedPaths - {path};
        }
      }
    }

    /** The second half of WatchPendingFile. */
    method RegisterPending(ancestor: Path, filePath: Path, added: bool) returns (ok: bool)
      modifies this`watchedPaths, watcher
      ensures CurrentView() == PendingCall(old(CurrentView()), ancestor, filePath, added)
      ensures ok <==> ancestor in watchedPaths
      ensures RegistersLast(old(CurrentView()), CurrentView(), ancestor, filePath, added)
    {
      hide RegistersLast;
      PendingCallEffect(CurrentView(), ancestor, filePath, added);
      ok := Watch(ancestor, added);
      if ok {
        watcher.WatchPending(ancestor, filePath);
      }
    }

    /** Unwatch errors are ignored; the map is ranged over in any order. */
    method ClearCacheState(removable: set<Path>)
      modifies this, watcher, watcher.debouncer
      ensures CurrentView() == ClearCall(old(CurrentView()), removable)
      ensures openFiles == {} && richFetched == {}
      ensures ClearsAll(old(CurrentView()), CurrentView(), removable)
    {
      hide ClearsAll;
      ClearCallEffect(CurrentView(), removable);
      var left: set<Path> := watchedPaths.Keys;
      ghost var done: set<Path> := {};
      UnwatchNone(watcher.CurrentTable(), removable);
      while left != {}
        invariant left + done == old(watchedPaths).Keys && left !! done
        invariant watcher.CurrentTable() == UnwatchAll(old(watcher.CurrentTable()), done, removable)
      {
        var path :| path in left;
        UnwatchOneMore(old(watcher.CurrentTable()), done, path, removable);
        var _ := watcher.Unwatch(path, path in removable);
        left, done := left - {path}, done + {path};
      }
      watcher.ClearPending();
      watchedPaths, richFetched, openFiles := map[], {}, {};
    }
  }

  lemma UnwatchNone(t: Table, removable: set<Path>)
    ensures UnwatchAll(t, {}, removable) == t
  {
  }

  lemma UnwatchOneMore(t: Table, ps: set<Path>, p: Path, removable: set<Path>)
    requires p !in ps
    ensures UnwatchAll(t, ps + {p}, removable) == UnwatchOp(UnwatchAll(t, ps, removable), p, p in removable)
  {
  }

  // ---------------------------------------------------------------- one reference per path

  /** A call of the session, or work of the watcher's own event loop in between. */
  datatype Call =
    | Watching(path: Path, added: bool)      // Watch, WatchFile, WatchDir, OpenFile
    | Unwatching(path: Path, removed: bool)  // Unwatch, CloseFile
    | Pending(ancestor: Path, path: Path, added: bool)
    | Clearing(removable: set<Path>)
    | Popping(path: Path, files: set<Path>)
    | Recreating(path: Path, parent: bool, back: bool)

  function Do(v: View, c: Call): View {
    match c
    case Watching(p, added) => WatchCall(v, p, added)
    case Unwatching(p, removed) => UnwatchCall(v, p, removed)
    case Pending(a, p, added) => PendingCall(v, a, p, added)
    case Clearing(removable) => ClearCall(v, removable)
    case Popping(p, files) => v.(table := Apply(v.table, Pop(p, files)))
    case Recreating(p, parent, back) => v.(table := Apply(v.table, Recreate(p, parent, back)))
  }

  function Run(cs: seq<Call>): View {
    if cs == [] then View({}, Table(map[], {})) else Do(Run(cs[..|cs| - 1]), cs[|cs| - 1])
  }

  /** Each count is 0 or 1, and 1 only for a path the session lists. */
  predicate Single(v: View) {
    forall p :: p in v.table.watches ==>
      0 <= v.table.watches[p].refCount <= 1 && (v.table.watches[p].refCount == 1 ==> p in v.watched)
  }

  /** And every path the session lists has its reference. */
  predicate Exact(v: View) {
    Single(v) && forall p :: p in v.watched ==> DirectlyWatched(v.table, p)
  }

  /** fsnotify's Remove fails after the watcher has already dropped its entry. */
  predicate StaleFailure(v: View, c: Call) {
    c.Unwatching? && c.path in v.watched && UnwatchFails(v.table, c.path, c.removed)
  }

  lemma {:induction false} OneReference(cs: seq<Call>)
    ensures Single(Run(cs))
  {
    if cs != [] {
      OneReference(cs[..|cs| - 1]);
      DoKeepsSingle(Run(cs[..|cs| - 1]), cs[|cs| - 1]);
    }
  }

  lemma DoKeepsSingle(v: View, c: Call)
    requires Single(v)
    ensures Single(Do(v, c))
  {
    match c
    case Recreating(p, parent, back) => LoopKeepsSingle(v, Recreate(p, parent, back));
    case Popping(p, files) => LoopKeepsSingle(v, Pop(p, files));
    case Pending(a, p, added) => PendingKeepsSingle(v, a, p, added);
    case _ =>
  }

  lemma LoopKeepsSingle(v: View, op: Op)
    requires Single(v) && (op.Pop? || op.Recreate?)
    ensures Single(v.(table := Apply(v.table, op)))
  {
    hide Apply;
    LoopKeepsCounts(v.table, op);
    forall p | p in Apply(v.table, op).watches
      ensures InfoOf(Apply(v.table, op), p) == Apply(v.table, op).watches[p]
      ensures 0 <= InfoOf(v.table, p).refCount <= 1 && (InfoOf(v.table, p).refCount == 1 ==> p in v.watched)
    {
    }
  }

  lemma PendingKeepsSingle(v: View, ancestor: Path, p: Path, added: bool)
    requires Single(v)
    ensures Single(PendingCall(v, ancestor, p, added))
  {
  }

  /** The event loop changes no count; it only adds or drops entries without references. */
  lemma LoopKeepsCounts(t: Table, op: Op)
    requires op.Pop? || op.Recreate?
    ensures forall p :: InfoOf(Apply(t, op), p).refCount == InfoOf(t, p).refCount
  {
  }

  lemma LoopKeepsExact(v: View, op: Op)
    requires Exact(v) && (op.Pop? || op.Recreate?)
    ensures Exact(v.(table := Apply(v.table, op)))
  {
    LoopKeepsSingle(v, op);
    LoopKeepsCounts(v.table, op);
    hide Apply, Single;
    forall p | p in v.watched
      ensures DirectlyWatched(Apply(v.table, op), p)
    {
      assert InfoOf(Apply(v.table, op), p).refCount == InfoOf(v.table, p).refCount;
    }
  }

  lemma PendingKeepsExact(v: View, ancestor: Path, p: Path, added: bool)
    requires Exact(v)
    ensures Exact(PendingCall(v, ancestor, p, added))
  {
    PendingKeepsSingle(v, ancestor, p, added);
    hide Single;
  }

  /** watchedPaths and the references go apart exactly when Remove fails in an Unwatch or CloseFile. */
  lemma ExactUnlessRemoveFails(v: View, c: Call)
    requires Exact(v)
    ensures Exact(Do(v, c)) <==> !StaleFailure(v, c)
  {
    DoKeepsSingle(v, c);
    match c
    case Recreating(p, parent, back) => LoopKeepsExact(v, Recreate(p, parent, back));
    case Popping(p, files) => LoopKeepsExact(v, Pop(p, files));
    case Pending(a, p, added) => PendingKeepsExact(v, a, p, added);
    case _ =>
  }

  /** From then on the session takes the path for watched and never watches it again. */
  lemma StaleStays(v: View, c: Call, added: bool)
    requires Exact(v) && StaleFailure(v, c)
    ensures var after := Do(v, c);
            !DirectlyWatched(after.table, c.path) && Do(after, Watching(c.path, added)) == after
  {
  }

  /** Clearing the cache leaves no reference and no registration, whatever fsnotify says. */
  lemma ClearLeavesNothing(cs: seq<Call>, removable: set<Path>)
    ensures var v := Run(cs + [Clearing(removable)]);
            v.watched == {} && forall p :: p in v.table.watches ==> v.table.watches[p] == Info(0, map[])
  {
    var all := cs + [Clearing(removable)];
    assert all[..|all| - 1] == cs;
    OneReference(cs);
  }
}