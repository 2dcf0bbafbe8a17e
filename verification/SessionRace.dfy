/**
  The session's list of watched paths on top of the watcher's interleaved steps: its calls run under
  the session's lock, but the event loop and the file tree move between any two of them, and between
  the parts of those that take the watcher's lock more than once.
 */
module SessionRace {
  import opened Options
  import opened WatchTable
  import opened WatchRace
  import opened Sessions
  import Runs = WatchRaceRuns

  /** clearing holds the paths that a running ClearCacheState has yet to unwatch. */
  datatype Joint = Joint(watched: set<Path>, clearing: Option<set<Path>>, world: World)

  datatype Move =
    | Listing(path: Path)                                  // Watch, WatchFile, WatchDir, OpenFile
    | Delisting(path: Path, removed: bool, lost: set<nat>) // Unwatch, CloseFile
    | Registering(ancestor: Path, path: Path)              // WatchPendingFile after its Listing, without the lock
    | BeginClear
    | ClearOne(path: Path, removed: bool, lost: set<nat>)
    | EndClear
    | Elsewhere(step: Step)                                // the tree or the event loop

  /** While ClearCacheState runs, it has the session's lock. */
  predicate Possible(j: Joint, m: Move) {
    match m
    case Listing(_) => j.clearing.None?
    case Delisting(_, _, _) => j.clearing.None?
    case Registering(_, _) => true
    case BeginClear => j.clearing.None?
    case ClearOne(p, _, _) => j.clearing.Some? && p in j.clearing.value
    case EndClear => j.clearing == Some({})
    case Elsewhere(s) => (s.Vanish? || s.Appear? || s.Replace? || s.Advance?) && Enabled(j.world, s)
  }

  function Moved(j: Joint, m: Move): Joint
    requires Possible(j, m)
  {
    var w := j.world;
    match m
    case Listing(p) =>
      if p in j.watched then j
      else Joint(if WatchFails(w.table, p, p in w.files) then j.watched else j.watched + {p}, None,
                 Next(w, WatchStep(p)))
    case Delisting(p, removed, lost) =>
      if p !in j.watched then j
      else Joint(if UnwatchFails(w.table, p, removed) then j.watched else j.watched - {p}, None,
                 Next(w, UnwatchStep(p, removed, lost)))
    case Registering(a, p) => j.(world := Next(w, WatchPendingStep(a, p)))
    case BeginClear => j.(clearing := Some(j.watched))
    case ClearOne(p, removed, lost) =>
      j.(clearing := Some(j.clearing.value - {p}), world := Next(w, UnwatchStep(p, removed, lost)))
    case EndClear => Joint({}, None, w.(table := ClearPendingOp(w.table)))
    case Elsewhere(s) => j.(world := Next(w, s))
  }

  /** The paths for which the session holds a reference, by its own account, and the watcher's table. */
  function Account(j: Joint): View {
    View(if j.clearing.Some? then j.clearing.value else j.watched, j.world.table)
  }

  function Start(files: set<Path>): Joint {
    Joint({}, None, Runs.Quiet(files))
  }

  /** The state after the moves; an impossible one does not happen. */
  function AfterMoves(files: set<Path>, ms: seq<Move>): Joint {
    if ms == [] then Start(files) else
    var j, m := AfterMoves(files, ms[..|ms| - 1]), ms[|ms| - 1];
    if Possible(j, m) then Moved(j, m) else j
  }

  /** A move of the session does what the call does that Sessions specifies. */
  lemma MovesAreCalls(j: Joint, m: Move)
    requires j.clearing.None? && Possible(j, m)
    ensures var v, v' := Account(j), Account(Moved(j, m));
            match m
            case Listing(p) => WatchesOnce(v, v', p, p in j.world.files)
            case Delisting(p, removed, _) => UnwatchesOnce(v, v', p, removed)
            case Registering(a, p) => v' == v.(table := WatchPendingOp(v.table, a, p))
            case _ => v'.watched == v.watched
  {
    hide WatchesOnce, UnwatchesOnce, Loop;
    match m
    case Listing(p) => WatchCallEffect(Account(j), p, p in j.world.files);
    case Delisting(p, removed, _) => UnwatchCallEffect(Account(j), p, removed);
    case _ =>
  }

  // ---------------------------------------------------------------- counts

  ghost predicate CountsSingle(v: View) {
    forall p :: 0 <= InfoOf(v.table, p).refCount <= 1 && (InfoOf(v.table, p).refCount == 1 ==> p in v.watched)
  }

  ghost predicate CountsExact(v: View) {
    CountsSingle(v) && forall p :: p in v.watched ==> InfoOf(v.table, p).refCount == 1
  }

  lemma ByCounts(v: View)
    ensures Single(v) <==> CountsSingle(v)
    ensures Exact(v) <==> CountsExact(v)
  {
    SingleByCounts(v);
    if Exact(v) {
      assert forall p :: p in v.watched ==> DirectlyWatched(v.table, p) && InfoOf(v.table, p).refCount == 1;
    }
    if CountsExact(v) {
      assert forall p :: p in v.watched ==> InfoOf(v.table, p).refCount == 1 && DirectlyWatched(v.table, p);
    }
  }

  lemma SingleByCounts(v: View)
    ensures Single(v) <==> CountsSingle(v)
  {
    assert forall p :: p in v.table.watches ==> InfoOf(v.table, p) == v.table.watches[p];
    assert forall p :: p !in v.table.watches ==> InfoOf(v.table, p).refCount == 0;
  }

  /** The loop's cleanup or undo through an entry that has left the table drops one with a reference. */
  predicate DropsReference(w: World) {
    (w.at.Registered? || w.at.ReAdded?) && StaleCleanup(w, Dir(w.at.path)) && DirectlyWatched(w.table, Dir(w.at.path))
  }

  /** fsnotify's Remove fails after the watcher has already dropped its entry. */
  predicate RemoveFails(j: Joint, m: Move) {
    m.Delisting? && m.path in j.watched && UnwatchFails(j.world.table, m.path, m.removed)
  }

  predicate Breaks(j: Joint, m: Move) {
    RemoveFails(j, m) || (m.Elsewhere? && m.step.Advance? && DropsReference(j.world))
  }

  lemma ElsewhereCounts(w: World, s: Step, p: Path)
    requires Enabled(w, s) && (s.Vanish? || s.Appear? || s.Replace? || s.Advance?)
    ensures InfoOf(Next(w, s).table, p).refCount ==
            if s.Advance? && StaleCleanup(w, p) then 0 else InfoOf(w.table, p).refCount
  {
    hide Told, Noted, Left, StaleCleanup;
    if s.Advance? {
      LoopReferences(w, s.lost, p);
    }
  }

  lemma ElsewhereKeepsSingle(j: Joint, s: Step)
    requires CountsSingle(Account(j)) && Possible(j, Elsewhere(s))
    ensures CountsSingle(Account(Moved(j, Elsewhere(s))))
  {
    forall p
      ensures InfoOf(Next(j.world, s).table, p).refCount in {0, InfoOf(j.world.table, p).refCount}
    {
      ElsewhereCounts(j.world, s, p);
    }
    hide Next, InfoOf;
  }

  lemma ElsewhereBreaks(j: Joint, s: Step)
    requires CountsExact(Account(j)) && Possible(j, Elsewhere(s))
    ensures CountsExact(Account(Moved(j, Elsewhere(s)))) <==> !(s.Advance? && DropsReference(j.world))
  {
    ElsewhereKeepsSingle(j, s);
    if s.Advance? && DropsReference(j.world) {
      var p := Dir(j.world.at.path);
      ElsewhereCounts(j.world, s, p);
      assert InfoOf(j.world.table, p).refCount == 1 && p in Account(j).watched;
    } else {
      forall p
        ensures InfoOf(Next(j.world, s).table, p).refCount == InfoOf(j.world.table, p).refCount
      {
        ElsewhereCounts(j.world, s, p);
        if s.Advance? && StaleCleanup(j.world, p) {
          KeepsReference(j.world, s, p);
        }
      }
    }
    hide Next, InfoOf, StaleCleanup;
  }

  lemma KeepsReference(w: World, s: Step, p: Path)
    requires s.Advance? && StaleCleanup(w, p) && !DropsReference(w) && InfoOf(w.table, p).refCount >= 0
    ensures InfoOf(w.table, p).refCount == 0
  {
  }

  /** A session call changes the count of its own path only. */
  lemma CallCounts(j: Joint, m: Move, p: Path)
    requires Possible(j, m) && !m.Elsewhere?
    ensures var before, after := InfoOf(j.world.table, p).refCount, InfoOf(Moved(j, m).world.table, p).refCount;
            match m
            case Listing(q) =>
              var listed := q == p && p !in j.watched && !WatchFails(j.world.table, p, p in j.world.files);
              after == before + if listed then 1 else 0
            case Delisting(q, _, _) => after == before - if q == p && p in j.watched && before > 0 then 1 else 0
            case ClearOne(q, _, _) => after == before - if q == p && before > 0 then 1 else 0
            case _ => after == before
  {
    hide Unwatched;
  }

  lemma CallKeepsSingle(j: Joint, m: Move)
    requires CountsSingle(Account(j)) && Possible(j, m) && !m.Elsewhere?
    ensures CountsSingle(Account(Moved(j, m)))
  {
    forall p
      ensures 0 <= InfoOf(Moved(j, m).world.table, p).refCount <= 1
      ensures InfoOf(Moved(j, m).world.table, p).refCount == 1 ==> p in Account(Moved(j, m)).watched
    {
      CallCounts(j, m, p);
      OneListed(j, m, p);
    }
  }

  lemma OneListed(j: Joint, m: Move, p: Path)
    requires CountsSingle(Account(j)) && Possible(j, m) && !m.Elsewhere?
    ensures p in Account(j).watched && !m.EndClear? && !(m.Delisting? && m.path == p) && !(m.ClearOne? && m.path == p)
            ==> p in Account(Moved(j, m)).watched
    ensures m.EndClear? ==> InfoOf(j.world.table, p).refCount == 0
  {
    hide Next;
  }

  lemma CallBreaks(j: Joint, m: Move)
    requires CountsExact(Account(j)) && Possible(j, m) && !m.Elsewhere?
    ensures CountsExact(Account(Moved(j, m))) <==> !RemoveFails(j, m)
  {
    CallKeepsSingle(j, m);
    if RemoveFails(j, m) {
      CallCounts(j, m, m.path);
      assert m.path in Account(Moved(j, m)).watched;
    } else {
      forall p | p in Account(Moved(j, m)).watched
        ensures InfoOf(Moved(j, m).world.table, p).refCount == 1
      {
        CallCounts(j, m, p);
        WasListed(j, m, p);
      }
    }
  }

  lemma WasListed(j: Joint, m: Move, p: Path)
    requires Possible(j, m) && !m.Elsewhere? && !RemoveFails(j, m) && p in Account(Moved(j, m)).watched
    ensures if p in Account(j).watched
            then !(m.Delisting? && m.path == p) && !(m.ClearOne? && m.path == p)
                 && (m.Listing? && m.path == p ==> p in j.watched)
            else m == Listing(p) && p !in j.watched && !WatchFails(j.world.table, p, p in j.world.files)
  {
    hide Next;
  }

  // ---------------------------------------------------------------- theorems

  /** Over any interleaving each count is 0 or 1, and 1 only for a path that the session lists. */
  lemma {:induction false} OneReferenceInterleaved(files: set<Path>, ms: seq<Move>)
    ensures Single(Account(AfterMoves(files, ms)))
  {
    hide Single, Possible, Moved;
    if ms == [] {
      StartsExact(files);
    } else {
      var j, m := AfterMoves(files, ms[..|ms| - 1]), ms[|ms| - 1];
      OneReferenceInterleaved(files, ms[..|ms| - 1]);
      if Possible(j, m) {
        MoveKeepsSingle(j, m);
      }
    }
  }

  lemma MoveKeepsSingle(j: Joint, m: Move)
    requires Single(Account(j)) && Possible(j, m)
    ensures Single(Account(Moved(j, m)))
  {
    ByCounts(Account(j));
    ByCounts(Account(Moved(j, m)));
    hide Single, CountsSingle, Moved, Possible, Exact;
    if m.Elsewhere? {
      ElsewhereKeepsSingle(j, m.step);
    } else {
      CallKeepsSingle(j, m);
    }
  }

  lemma StartsExact(files: set<Path>)
    ensures Single(Account(Start(files))) && Exact(Account(Start(files)))
  {
  }

  /**
    The session's list and the references go apart exactly when a Remove fails in an Unwatch or
    CloseFile, or the event loop drops an entry with a reference by a cleanup through an old one.
   */
  lemma ExactlyBroken(j: Joint, m: Move)
    requires Exact(Account(j)) && Possible(j, m)
    ensures Exact(Account(Moved(j, m))) <==> !Breaks(j, m)
  {
    ByCounts(Account(j));
    ByCounts(Account(Moved(j, m)));
    hide Single, Exact, CountsExact, Moved, DropsReference;
    if m.Elsewhere? {
      ElsewhereBreaks(j, m.step);
    } else {
      CallBreaks(j, m);
    }
  }

  /** The list and the references agree in every state of the run. */
  predicate AlwaysExact(files: set<Path>, ms: seq<Move>) {
    Exact(Account(AfterMoves(files, ms))) && (ms != [] ==> AlwaysExact(files, ms[..|ms| - 1]))
  }

  /** Some move of the run that happens breaks the agreement. */
  predicate SomeBreaks(files: set<Path>, ms: seq<Move>) {
    ms != [] &&
      var j, m := AfterMoves(files, ms[..|ms| - 1]), ms[|ms| - 1];
      SomeBreaks(files, ms[..|ms| - 1]) || (Possible(j, m) && Breaks(j, m))
  }

  lemma {:induction false} RunBrokenExactly(files: set<Path>, ms: seq<Move>)
    ensures AlwaysExact(files, ms) <==> !SomeBreaks(files, ms)
  {
    hide Exact, Possible, Moved, Breaks;
    if ms == [] {
      StartsExact(files);
    } else {
      var j, m := AfterMoves(files, ms[..|ms| - 1]), ms[|ms| - 1];
      RunBrokenExactly(files, ms[..|ms| - 1]);
      if Exact(Account(j)) && Possible(j, m) {
        ExactlyBroken(j, m);
      }
    }
  }

  /** The clearing at the end of ClearCacheState meets no reference, as the watcher's steps assume. */
  lemma ClearMeetsNoReference(files: set<Path>, ms: seq<Move>)
    requires Possible(AfterMoves(files, ms), EndClear)
    ensures var w := AfterMoves(files, ms).world;
            Enabled(w, ClearStep) && Moved(AfterMoves(files, ms), EndClear).world == Next(w, ClearStep)
  {
    OneReferenceInterleaved(files, ms);
    hide AfterMoves;
  }

  /** In the world that WatchRaceRuns reaches, no Remove fails, and the listed directory loses its reference. */
  lemma CleanupBreaks()
    ensures var j := Joint({Runs.ROOT}, None, Runs.RENEWED_WORLD);
            && Exact(Account(j)) && Possible(j, Elsewhere(Runs.GO))
            && !Exact(Account(Moved(j, Elsewhere(Runs.GO))))
  {
    Runs.DropsReference();
  }
}
