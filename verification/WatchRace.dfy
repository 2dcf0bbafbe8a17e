/**
  The watcher's event loop against a changing directory tree: which interleavings of kernel drops,
  deletions, creations, session calls and handler steps make a directly watched path forgotten.

  Two things that fsnotify may or may not do are left to the run: a Remove may drop any of the queued
  events of the watch that it removes, and a path's own watch may stay silent about a deletion that
  the watch on the path's directory sees.
 */
module WatchRace {
  import opened WatchTable

  datatype Kind = Removed | Renamed | Created

  /** source is the watched path whose watch reports the event: the path itself or its directory. */
  datatype Event = Event(kind: Kind, path: Path, source: Path)

  /**
    Where the event loop is between two of its locked sections, stats and fsnotify calls. orphan says
    that the entry of the path's directory, which the loop still refers to, has left the table.
   */
  datatype Position =
    | Idle
    | Handling(event: Event)
    | Checked(path: Path, kind: Kind)                       // found directly watched, before the first stat
    | Missed(path: Path)                                    // the first stat found nothing
    | Registered(path: Path, needsAdd: bool, orphan: bool)  // pending, the directory not yet added
    | ParentWatched(path: Path, orphan: bool)               // before the second stat
    | ReAdded(path: Path, orphan: bool)                     // the second stat and its Add succeeded
    | Popping(path: Path)                                   // about to pop the pending list

  /** files is the tree; queue holds the fsnotify events not yet received. */
  datatype World = World(table: Table, files: set<Path>, queue: seq<Event>, at: Position)

  /** lost lists the places in the queue of the events that a Remove of the step drops. */
  datatype Step =
    | Vanish(path: Path, kind: Kind, own: bool)        // deleted or renamed away; own: its own watch tells
    | Appear(path: Path)                               // created, or renamed to this place
    | Replace(path: Path, createdFirst: bool, own: bool) // another file is renamed over it
    | WatchStep(path: Path)
    | UnwatchStep(path: Path, removed: bool, lost: set<nat>) // removed: fsnotify's Remove succeeds, if it is called
    | WatchPendingStep(ancestor: Path, path: Path)
    | ClearStep
    | Advance(lost: set<nat>)                          // the event loop does its next action

  predicate Enabled(w: World, s: Step) {
    match s
    case Vanish(p, kind, _) => p in w.files && kind != Created
    case Appear(p) => p !in w.files
    case Replace(p, _, _) => p in w.files
    // ClearCacheState unwatches every path of the session first
    case ClearStep => forall q :: q in w.table.watches ==> w.table.watches[q].refCount == 0
    case Advance(_) => w.at != Idle || w.queue != []
    case _ => true
  }

  predicate InRecreation(at: Position) {
    at.Registered? || at.ParentWatched? || at.ReAdded?
  }

  function Noted(told: bool, e: Event): seq<Event> {
    if told then [e] else []
  }

  /** What is left of the queue when the watch on source is removed. */
  function Thin(queue: seq<Event>, source: Path, lost: set<nat>): seq<Event> {
    if queue == [] then [] else
    var n := |queue| - 1;
    Thin(queue[..n], source, lost) + Noted(!(n in lost && queue[n].source == source), queue[n])
  }

  /** fsnotify reports what happens to watched paths and in watched directories. */
  function Next(w: World, s: Step): World
    requires Enabled(w, s)
  {
    var k := w.table.kernel;
    match s
    case Vanish(p, kind, own) =>
      w.(files := w.files - {p}, table := w.table.(kernel := k - {p}), queue := w.queue + Told(k, kind, p, own))
    case Appear(p) =>
      w.(files := w.files + {p}, queue := w.queue + Noted(Dir(p) in k, Event(Created, p, Dir(p))))
    case Replace(p, createdFirst, own) =>
      var gone := Noted(p in k && (own || Dir(p) !in k), Event(Removed, p, p));
      var made := Noted(Dir(p) in k, Event(Created, p, Dir(p)));
      w.(table := w.table.(kernel := k - {p}), queue := w.queue + if createdFirst then made + gone else gone + made)
    case WatchStep(p) => Held(w, WatchOp(w.table, p, p in w.files), p)
    case UnwatchStep(p, removed, lost) =>
      Held(w, UnwatchOp(w.table, p, removed), p).(queue := Unwatched(w, p, removed, lost))
    case WatchPendingStep(a, p) => w.(table := WatchPendingOp(w.table, a, p))
    case ClearStep => w.(table := ClearPendingOp(w.table))
    case Advance(lost) => Loop(w, lost)
  }

  /** The reports of a deletion; p's own watch may leave it to the directory's. */
  function Told(k: set<Path>, kind: Kind, p: Path, own: bool): seq<Event> {
    Noted(p in k && (own || Dir(p) !in k), Event(kind, p, p)) + Noted(Dir(p) in k, Event(kind, p, Dir(p)))
  }

  /** The next Unwatch of p drops its entry. */
  predicate LastUse(t: Table, p: Path) {
    InfoOf(t, p).refCount == 1 && InfoOf(t, p).pending == map[]
  }

  /** The queue after an Unwatch. */
  function Unwatched(w: World, p: Path, removed: bool, lost: set<nat>): seq<Event> {
    if removed && LastUse(w.table, p) then Thin(w.queue, p, lost) else w.queue
  }

  /** A call leaves the table t; the loop's directory entry is an orphan if the call dropped it. */
  function Held(w: World, t: Table, p: Path): World {
    var orphaned := InRecreation(w.at) && Dir(w.at.path) == p && p in w.table.watches && p !in t.watches;
    w.(table := t, at := if orphaned then Orphaned(w.at) else w.at)
  }

  function Orphaned(at: Position): Position {
    match at
    case Registered(p, needsAdd, _) => Registered(p, needsAdd, true)
    case ParentWatched(p, _) => ParentWatched(p, true)
    case ReAdded(p, _) => ReAdded(p, true)
    case _ => at
  }

  /** After an event with this kind has been looked at; a rename goes on to the pending lists. */
  function Onward(kind: Kind, p: Path): Position {
    if kind == Renamed then Popping(p) else Idle
  }

  /** The event loop's next action. A successful stat or pop takes the Add after it along. */
  function Loop(w: World, lost: set<nat>): World
    requires w.at != Idle || w.queue != []
  {
    var t := w.table;
    match w.at
    case Idle => w.(at := Handling(w.queue[0]), queue := w.queue[1..])
    case Handling(Event(kind, p, _)) =>
      w.(at := if kind == Created then Popping(p)
               else if DirectlyWatched(t, p) then Checked(p, kind)
               else Onward(kind, p))
    case Checked(p, kind) =>
      if p in w.files then w.(table := t.(kernel := t.kernel + {p}), at := Onward(kind, p)) else w.(at := Missed(p))
    case Missed(p) => w.(table := RegisterOp(t, p), at := Registered(p, NeedsAdd(t, p), false))
    case Registered(p, needsAdd, orphan) =>
      if !needsAdd then w.(at := ParentWatched(p, orphan))
      else if Dir(p) in w.files then w.(table := t.(kernel := t.kernel + {Dir(p)}), at := ParentWatched(p, orphan))
      else w.(table := if orphan then t.(watches := t.watches - {Dir(p)}) else UnregisterOp(t, p), at := Idle)
    case ParentWatched(p, orphan) =>
      if p in w.files then w.(table := t.(kernel := t.kernel + {p}), at := ReAdded(p, orphan)) else w.(at := Idle)
    case ReAdded(p, orphan) => w.(table := Settled(t, p, orphan), queue := Left(w, lost), at := Idle)
    case Popping(p) =>
      var (popped, ps) := PopOp(t, Dir(p), Base(p));
      w.(table := ReAddOp(popped, ps, w.files), queue := Left(w, lost), at := Idle)
  }

  /** The cleanup works on the entry that the loop refers to, but drops whatever entry is in the table. */
  function Settled(t: Table, p: Path, orphan: bool): Table {
    if orphan then Release(t, Dir(p)) else SettleOp(t, p)
  }

  /** The loop's next action removes the watch of the directory. */
  predicate Removes(w: World) {
    match w.at
    case ReAdded(p, orphan) => orphan || (Dir(p) in w.table.watches && Dir(p) !in SettleOp(w.table, p).watches)
    case Popping(p) => Dir(p) in w.table.watches && Dir(p) !in PopOp(w.table, Dir(p), Base(p)).0.watches
    case _ => false
  }

  /** The queue after the loop's next action, if that pops or cleans up. */
  function Left(w: World, lost: set<nat>): seq<Event> {
    if Removes(w) then Thin(w.queue, Dir(w.at.path), lost) else w.queue
  }

  // ---------------------------------------------------------------- what "not forgotten" means

  predicate IsGone(e: Event, p: Path) {
    e.path == p && e.kind != Created
  }

  predicate GoneIn(queue: seq<Event>, p: Path) {
    exists e :: e in queue && IsGone(e, p)
  }

  predicate CreatedIn(queue: seq<Event>, p: Path) {
    exists e :: e in queue && e.path == p && e.kind == Created
  }

  /** The loop is somewhere between receiving a Remove or Rename of p and its second stat. */
  predicate GoneHandled(at: Position, p: Path) {
    || (at.Handling? && IsGone(at.event, p))
    || ((at.Checked? || at.Missed? || at.Registered? || at.ParentWatched?) && at.path == p)
  }

  predicate CreatedKnown(w: World, p: Path) {
    || CreatedIn(w.queue, p)
    || (w.at.Handling? && w.at.event.path == p && w.at.event.kind == Created)
    || w.at == Popping(p)
  }

  predicate IsPending(t: Table, p: Path) {
    Dir(p) in t.watches && p in PendingFor(t.watches[Dir(p)], Base(p))
  }

  /** The watcher still has p in view. */
  predicate Kept(w: World, p: Path) {
    || p in w.table.kernel
    || GoneIn(w.queue, p)
    || GoneHandled(w.at, p)
    || (IsPending(w.table, p) && Dir(p) in w.table.kernel && (p !in w.files || CreatedKnown(w, p)))
  }

  predicate Forgotten(w: World, p: Path) {
    DirectlyWatched(w.table, p) && !Kept(w, p)
  }

  /** The directory of p stays. */
  predicate Concerns(s: Step, p: Path) {
    match s
    case Vanish(q, _, _) => q != Dir(p)
    case Replace(q, _, _) => q != Dir(p)
    case _ => true
  }

  predicate Inv(w: World, p: Path) {
    && p != [] && Base(p) != "/" && Dir(p) in w.files
    && w.table.kernel <= w.files
    // the directory's entry means a kernel watch, except while the loop is about to add it
    && (Dir(p) in w.table.watches ==> Dir(p) in w.table.kernel || ParentDue(w, p))
    && InfoOf(w.table, p).refCount >= 0
    && Sourced(w.queue, p)
  }

  /** What is told about p comes from its own watch or its directory's. */
  predicate Sourced(queue: seq<Event>, p: Path) {
    forall e :: e in queue && e.path == p ==> e.source == p || e.source == Dir(p)
  }

  predicate ParentDue(w: World, p: Path) {
    w.at.Registered? && w.at.needsAdd && Dir(w.at.path) == Dir(p)
  }

  // ---------------------------------------------------------------- the steps that forget

  /** Watch finds registrations in the entry and leaves out fsnotify's Add. */
  predicate Skips(t: Table, p: Path) {
    p in t.watches && t.watches[p].refCount == 0 && t.watches[p].pending != map[]
  }

  /**
    The steps that forget p:
    a replacement that p's own watch does not tell, when p is not pending;
    a Watch that leaves out the Add when p is not kept anyway;
    an Unwatch of the directory whose Remove drops the last report of p's deletion;
    and three actions of the loop.
   */
  predicate Fatal(w: World, s: Step, p: Path) {
    match s
    case Replace(q, _, own) =>
      && q == p && DirectlyWatched(w.table, p) && p in w.table.kernel && Dir(p) in w.table.kernel && !own
      && !GoneIn(w.queue, p) && !GoneHandled(w.at, p) && !IsPending(w.table, p)
    case WatchStep(q) => q == p && Skips(w.table, p) && !Kept(w, p)
    case UnwatchStep(q, removed, lost) =>
      && q == Dir(p) && DirectlyWatched(w.table, p) && p !in w.table.kernel && !GoneHandled(w.at, p)
      && LastUse(w.table, q) && !GoneIn(Unwatched(w, q, removed, lost), p)
    case Advance(lost) => DirectlyWatched(w.table, p) && p !in w.table.kernel && FatalAction(w, lost, p)
    case _ => false
  }

  /**
    The second stat finds p absent and its registration was cleared;
    a cleanup or pop in p's directory leaves no report of p's deletion, and takes away the directory's
    watch or the registration of p, without adding p.
   */
  predicate FatalAction(w: World, lost: set<nat>, p: Path) {
    match w.at
    case ParentWatched(q, _) => q == p && p !in w.files && !GoneIn(w.queue, p) && !IsPending(w.table, p)
    case ReAdded(q, orphan) =>
      && Dir(q) == Dir(p) && !GoneIn(Left(w, lost), p)
      && (Removes(w) || (q == p && !(IsPending(SettleOp(w.table, p), p) && (p !in w.files || CreatedIn(w.queue, p)))))
    case Popping(q) =>
      && Dir(q) == Dir(p) && !GoneIn(Left(w, lost), p)
      && (q == p || Removes(w)) && !(p in PopOp(w.table, Dir(q), Base(q)).1 && p in w.files)
    case _ => false
  }

  // ---------------------------------------------------------------- queues

  /** Events are only added. */
  lemma Grows(queue: seq<Event>, more: seq<Event>, p: Path)
    ensures GoneIn(queue, p) ==> GoneIn(queue + more, p)
    ensures CreatedIn(queue, p) ==> CreatedIn(queue + more, p)
    ensures GoneIn(queue + more, p) ==> GoneIn(queue, p) || GoneIn(more, p)
  {
    assert forall e :: e in queue ==> e in queue + more;
  }

  /** Events are only dropped, and only those of the watch that was removed. */
  lemma {:induction false} ThinDrops(queue: seq<Event>, source: Path, lost: set<nat>)
    ensures forall e :: e in Thin(queue, source, lost) ==> e in queue
    ensures forall e :: e in queue && e.source != source ==> e in Thin(queue, source, lost)
  {
    if queue != [] {
      ThinDrops(queue[..|queue| - 1], source, lost);
    }
  }

  /** Removing another watch drops nothing about p. */
  lemma ThinElsewhere(queue: seq<Event>, source: Path, lost: set<nat>, p: Path)
    requires Sourced(queue, p) && source != p && source != Dir(p)
    ensures GoneIn(Thin(queue, source, lost), p) <==> GoneIn(queue, p)
    ensures CreatedIn(Thin(queue, source, lost), p) <==> CreatedIn(queue, p)
  {
    ThinDrops(queue, source, lost);
    hide Thin;
    if GoneIn(queue, p) {
      var e :| e in queue && IsGone(e, p);
      assert e in Thin(queue, source, lost);
    }
    if CreatedIn(queue, p) {
      var e :| e in queue && e.path == p && e.kind == Created;
      assert e in Thin(queue, source, lost);
    }
  }

  lemma ThinSourced(queue: seq<Event>, source: Path, lost: set<nat>, p: Path)
    requires Sourced(queue, p)
    ensures Sourced(Thin(queue, source, lost), p)
  {
    ThinDrops(queue, source, lost);
    hide Thin;
  }

  // ---------------------------------------------------------------- the invariant

  lemma InvKept(w: World, s: Step, p: Path)
    requires Enabled(w, s) && Concerns(s, p) && Inv(w, p)
    ensures Inv(Next(w, s), p)
  {
    match s
    case Advance(lost) => LoopInv(w, lost, p);
    case Vanish(_, _, _) => EnvInv(w, s, p);
    case Appear(_) => EnvInv(w, s, p);
    case Replace(_, _, _) => EnvInv(w, s, p);
    case WatchStep(q) => WatchInv(w, q, p);
    case UnwatchStep(q, removed, lost) => UnwatchInv(w, q, removed, lost, p);
    case WatchPendingStep(a, q) => WatchPendingInv(w, a, q, p);
    case ClearStep => ClearInv(w, p);
  }

  lemma EnvInv(w: World, s: Step, p: Path)
    requires Enabled(w, s) && Concerns(s, p) && Inv(w, p) && (s.Vanish? || s.Appear? || s.Replace?)
    ensures Inv(Next(w, s), p)
  {
  }

  lemma WatchInv(w: World, q: Path, p: Path)
    requires Inv(w, p)
    ensures Inv(Next(w, WatchStep(q)), p)
  {
  }

  lemma UnwatchInv(w: World, q: Path, removed: bool, lost: set<nat>, p: Path)
    requires Inv(w, p)
    ensures Inv(Next(w, UnwatchStep(q, removed, lost)), p)
  {
    ThinSourced(w.queue, q, lost, p);
    hide Thin;
  }

  lemma WatchPendingInv(w: World, a: Path, q: Path, p: Path)
    requires Inv(w, p)
    ensures Inv(Next(w, WatchPendingStep(a, q)), p)
  {
  }

  lemma ClearInv(w: World, p: Path)
    requires Inv(w, p) && Enabled(w, ClearStep)
    ensures Inv(Next(w, ClearStep), p)
  {
  }

  lemma LoopInv(w: World, lost: set<nat>, p: Path)
    requires Enabled(w, Advance(lost)) && Inv(w, p)
    ensures Inv(Loop(w, lost), p)
  {
    match w.at
    case Missed(_) => MissedInv(w, lost, p);
    case Registered(_, _, _) => RegisteredInv(w, lost, p);
    case ReAdded(_, _) => ReAddedInv(w, lost, p);
    case Popping(_) => PoppingInv(w, lost, p);
    case _ =>
  }

  lemma MissedInv(w: World, lost: set<nat>, p: Path)
    requires w.at.Missed? && Inv(w, p)
    ensures Inv(Loop(w, lost), p)
  {
  }

  lemma RegisteredInv(w: World, lost: set<nat>, p: Path)
    requires w.at.Registered? && Inv(w, p)
    ensures Inv(Loop(w, lost), p)
  {
  }

  lemma ReAddedInv(w: World, lost: set<nat>, p: Path)
    requires w.at.ReAdded? && Inv(w, p)
    ensures Inv(Loop(w, lost), p)
  {
    ThinSourced(w.queue, Dir(w.at.path), lost, p);
    hide Removes, RemoveFirst, Thin;
  }

  lemma PoppingInv(w: World, lost: set<nat>, p: Path)
    requires w.at.Popping? && Inv(w, p)
    ensures Inv(Loop(w, lost), p)
  {
    ThinSourced(w.queue, Dir(w.at.path), lost, p);
    hide Removes, Thin;
  }

  // ---------------------------------------------------------------- the exact condition

  /**
    Exactly when a directly watched path is forgotten: at a fatal step, and at no other step of the
    tree, the session or the loop.
   */
  lemma ForgottenExactly(w: World, s: Step, p: Path)
    requires Enabled(w, s) && Concerns(s, p) && Inv(w, p) && !Forgotten(w, p)
    ensures Forgotten(Next(w, s), p) <==> Fatal(w, s, p)
  {
    match s
    case Advance(lost) => LoopForgets(w, lost, p);
    case Vanish(_, _, _) => VanishKeeps(w, s, p);
    case Appear(_) => AppearKeeps(w, s, p);
    case Replace(_, _, _) => ReplaceForgets(w, s, p);
    case WatchStep(q) => WatchForgets(w, q, p);
    case UnwatchStep(q, removed, lost) => UnwatchForgets(w, q, removed, lost, p);
    case WatchPendingStep(a, q) => WatchPendingKeeps(w, a, q, p);
    case ClearStep =>
  }

  lemma VanishKeeps(w: World, s: Step, p: Path)
    requires Enabled(w, s) && Concerns(s, p) && Inv(w, p) && !Forgotten(w, p) && s.Vanish?
    ensures !Forgotten(Next(w, s), p)
  {
    Grows(w.queue, Told(w.table.kernel, s.kind, s.path, s.own), p);
    if s.path == p && p in w.table.kernel {
      var told := Told(w.table.kernel, s.kind, p, s.own);
      assert told[0] in w.queue + told && IsGone(told[0], p);
    }
  }

  lemma AppearKeeps(w: World, s: Step, p: Path)
    requires Enabled(w, s) && Inv(w, p) && !Forgotten(w, p) && s.Appear?
    ensures !Forgotten(Next(w, s), p)
  {
    var e := Event(Created, s.path, Dir(s.path));
    Grows(w.queue, Noted(Dir(s.path) in w.table.kernel, e), p);
    assert e in w.queue + [e];
  }

  lemma ReplaceForgets(w: World, s: Step, p: Path)
    requires Enabled(w, s) && Concerns(s, p) && Inv(w, p) && !Forgotten(w, p) && s.Replace?
    ensures Forgotten(Next(w, s), p) <==> Fatal(w, s, p)
  {
    ReplaceTells(w, s, p);
    hide GoneIn, CreatedIn;
  }

  /** What a replacement adds to the queue. */
  lemma ReplaceTells(w: World, s: Step, p: Path)
    requires Enabled(w, s) && s.Replace?
    ensures var k, queue := w.table.kernel, Next(w, s).queue;
            && (GoneIn(queue, p) <==> GoneIn(w.queue, p) || (s.path == p && p in k && (s.own || Dir(p) !in k)))
            && (CreatedIn(w.queue, p) || (s.path == p && Dir(p) in k) ==> CreatedIn(queue, p))
  {
    var k := w.table.kernel;
    var gone := Noted(s.path in k && (s.own || Dir(s.path) !in k), Event(Removed, s.path, s.path));
    var made := Noted(Dir(s.path) in k, Event(Created, s.path, Dir(s.path)));
    var more := if s.createdFirst then made + gone else gone + made;
    Grows(w.queue, more, p);
    Grows(gone, made, p);
    Grows(made, gone, p);
    assert gone != [] ==> gone[0] in more && gone[0] in w.queue + more;
    assert made != [] ==> made[0] in more && made[0] in w.queue + more;
  }

  lemma WatchForgets(w: World, q: Path, p: Path)
    requires Inv(w, p) && !Forgotten(w, p)
    ensures Forgotten(Next(w, WatchStep(q)), p) <==> Fatal(w, WatchStep(q), p)
  {
    assert |Dir(p)| != |p|;
  }

  lemma UnwatchForgets(w: World, q: Path, removed: bool, lost: set<nat>, p: Path)
    requires Inv(w, p) && !Forgotten(w, p)
    ensures Forgotten(Next(w, UnwatchStep(q, removed, lost)), p) <==> Fatal(w, UnwatchStep(q, removed, lost), p)
  {
    assert |Dir(p)| != |p|;
    ThinDrops(w.queue, q, lost);
    if q != p && q != Dir(p) {
      ThinElsewhere(w.queue, q, lost, p);
    }
    hide Thin;
  }

  lemma WatchPendingKeeps(w: World, a: Path, q: Path, p: Path)
    requires Inv(w, p) && !Forgotten(w, p)
    ensures !Forgotten(Next(w, WatchPendingStep(a, q)), p)
  {
  }

  lemma LoopForgets(w: World, lost: set<nat>, p: Path)
    requires Enabled(w, Advance(lost)) && Inv(w, p) && !Forgotten(w, p)
    ensures Forgotten(Loop(w, lost), p) <==> Fatal(w, Advance(lost), p)
  {
    match w.at
    case Idle => assert forall e :: e in w.queue ==> e == w.queue[0] || e in w.queue[1..];
    case Missed(_) => MissedKeeps(w, lost, p);
    case Registered(_, _, _) => RegisteredKeeps(w, lost, p);
    case ReAdded(_, _) => ReAddedForgets(w, lost, p);
    case Popping(_) => PoppingForgets(w, lost, p);
    case _ =>
  }

  lemma MissedKeeps(w: World, lost: set<nat>, p: Path)
    requires w.at.Missed? && Inv(w, p) && !Forgotten(w, p)
    ensures !Forgotten(Loop(w, lost), p)
  {
  }

  lemma RegisteredKeeps(w: World, lost: set<nat>, p: Path)
    requires w.at.Registered? && Inv(w, p) && !Forgotten(w, p)
    ensures !Forgotten(Loop(w, lost), p)
  {
  }

  lemma SameChild(q: Path, p: Path)
    requires p != [] && Base(p) != "/" && Dir(q) == Dir(p) && Base(q) == Base(p)
    ensures q == p
  {
    assert q == Dir(q) + [Base(q)] && p == Dir(p) + [Base(p)];
  }

  /** What the queue still tells about p, whatever the cleanup or pop of q removes. */
  lemma LeftElsewhere(w: World, lost: set<nat>, p: Path)
    requires (w.at.ReAdded? || w.at.Popping?) && Inv(w, p) && Dir(w.at.path) != p
    ensures !Removes(w) || Dir(w.at.path) != Dir(p) ==>
              && (GoneIn(Left(w, lost), p) <==> GoneIn(w.queue, p))
              && (CreatedIn(Left(w, lost), p) <==> CreatedIn(w.queue, p))
    ensures GoneIn(Left(w, lost), p) ==> GoneIn(w.queue, p)
    ensures CreatedIn(Left(w, lost), p) ==> CreatedIn(w.queue, p)
  {
    hide Removes;
    ThinDrops(w.queue, Dir(w.at.path), lost);
    if Dir(w.at.path) != Dir(p) {
      ThinElsewhere(w.queue, Dir(w.at.path), lost, p);
    }
    hide Thin;
  }

  lemma ReAddedForgets(w: World, lost: set<nat>, p: Path)
    requires w.at.ReAdded? && Inv(w, p) && !Forgotten(w, p)
    ensures Forgotten(Loop(w, lost), p) <==> Fatal(w, Advance(lost), p)
  {
    var q := w.at.path;
    assert |Dir(p)| != |p|;
    if Dir(q) != p {
      LeftElsewhere(w, lost, p);
    }
    hide Thin, RemoveFirst;
    if q != p {
      assert Dir(q) == Dir(p) ==> Base(q) != Base(p) by {
        if Dir(q) == Dir(p) && Base(q) == Base(p) { SameChild(q, p); }
      }
      if IsPending(w.table, p) {
        OthersStayPending(w.table, q, Dir(p), Base(p));
      }
    }
  }

  lemma PoppingForgets(w: World, lost: set<nat>, p: Path)
    requires w.at.Popping? && Inv(w, p) && !Forgotten(w, p)
    ensures Forgotten(Loop(w, lost), p) <==> Fatal(w, Advance(lost), p)
  {
    var q := w.at.path;
    assert |Dir(p)| != |p|;
    if Dir(q) != p {
      LeftElsewhere(w, lost, p);
    }
    hide Thin;
    if q != p {
      assert Dir(q) == Dir(p) ==> Base(q) != Base(p) by {
        if Dir(q) == Dir(p) && Base(q) == Base(p) { SameChild(q, p); }
      }
      if IsPending(w.table, p) {
        OthersStayPending(w.table, q, Dir(p), Base(p));
      }
    }
  }

  // ---------------------------------------------------------------- runs that do not forget

  /** The world after a schedule; a step that is not enabled does not happen. */
  function After(w: World, steps: seq<Step>): World
    decreases steps
  {
    if steps == [] then w
    else if Enabled(w, steps[0]) then After(Next(w, steps[0]), steps[1..])
    else After(w, steps[1..])
  }

  /** Some world of the run has forgotten p. */
  predicate SomeForgets(w: World, steps: seq<Step>, p: Path)
    decreases steps
  {
    Forgotten(w, p) ||
    (steps != [] && SomeForgets(if Enabled(w, steps[0]) then Next(w, steps[0]) else w, steps[1..], p))
  }

  /** Some step of the run that happens is fatal. */
  predicate SomeFatal(w: World, steps: seq<Step>, p: Path)
    decreases steps
  {
    steps != [] &&
    if Enabled(w, steps[0])
    then Fatal(w, steps[0], p) || SomeFatal(Next(w, steps[0]), steps[1..], p)
    else SomeFatal(w, steps[1..], p)
  }

  /** Over any run in which the directory of p stays, p is forgotten at some time if and only if a step is fatal. */
  lemma {:induction false} RunForgetsExactly(w: World, steps: seq<Step>, p: Path)
    requires Inv(w, p) && !Forgotten(w, p) && forall s :: s in steps ==> Concerns(s, p)
    ensures SomeForgets(w, steps, p) <==> SomeFatal(w, steps, p)
    decreases steps
  {
    hide Inv, Forgotten, Fatal, Enabled, Next, Concerns;
    if steps != [] {
      if Enabled(w, steps[0]) {
        var w' := Next(w, steps[0]);
        InvKept(w, steps[0], p);
        ForgottenExactly(w, steps[0], p);
        if Forgotten(w', p) {
          assert SomeForgets(w', steps[1..], p);
        } else {
          RunForgetsExactly(w', steps[1..], p);
        }
      } else {
        RunForgetsExactly(w, steps[1..], p);
      }
    }
  }

  /** The last thing that the queue tells about p is not a Create. */
  predicate GoneLast(queue: seq<Event>, p: Path) {
    queue != [] ==>
      if queue[|queue| - 1].path == p then IsGone(queue[|queue| - 1], p) else GoneLast(queue[..|queue| - 1], p)
  }

  /** While p is absent, every Create of p on its way is followed by a Remove or Rename of p. */
  predicate Fresh(w: World, p: Path) {
    DirectlyWatched(w.table, p) && p !in w.files ==>
      && (CreatedKnown(w, p) ==> GoneIn(w.queue, p))
      && GoneLast(w.queue, p)
  }

  /** The re-creations in p's directory are registered, and the loop refers to the entry in the table. */
  predicate Tracked(w: World, p: Path) {
    && (InRecreation(w.at) && Dir(w.at.path) == Dir(p) ==> !w.at.orphan && IsPending(w.table, w.at.path))
    && (w.at.ReAdded? && w.at.path == p && DirectlyWatched(w.table, p) ==> p in w.table.kernel || GoneIn(w.queue, p))
  }

  /** No report that p is gone is dropped. */
  predicate Spared(queue: seq<Event>, source: Path, lost: set<nat>, p: Path) {
    forall i :: 0 <= i < |queue| && i in lost && queue[i].source == source ==> !IsGone(queue[i], p)
  }

  /**
    p does not go unseen while a Create of it is on its way; a replacement of p is told by p's own
    watch, if it has one; a Watch that leaves out the Add finds p watched; Removes of the directory's
    watch drop no report that p is gone; and pending lists are not cleared while the loop works on
    a path in p's directory.
   */
  predicate Observed(w: World, s: Step, p: Path) {
    match s
    case Vanish(q, _, _) => q == p ==> p in w.table.kernel || Dir(p) in w.table.kernel || !CreatedKnown(w, p)
    case Replace(q, _, own) => q == p ==> own
    case WatchStep(q) => q == p && Skips(w.table, p) ==> p in w.table.kernel
    case UnwatchStep(q, removed, lost) => q == Dir(p) && removed ==> Spared(w.queue, q, lost, p)
    case ClearStep => InRecreation(w.at) ==> Dir(w.at.path) != Dir(p)
    case Advance(lost) => Removes(w) && Dir(w.at.path) == Dir(p) ==> Spared(w.queue, Dir(p), lost, p)
    case _ => true
  }

  predicate AllObserved(w: World, steps: seq<Step>, p: Path)
    decreases steps
  {
    steps != [] ==>
      && Concerns(steps[0], p)
      && if Enabled(w, steps[0])
         then Observed(w, steps[0], p) && AllObserved(Next(w, steps[0]), steps[1..], p)
         else AllObserved(w, steps[1..], p)
  }

  /** Over every run that p is observed in, p is never forgotten. */
  lemma {:induction false} NeverForgotten(w: World, steps: seq<Step>, p: Path)
    requires Inv(w, p) && Fresh(w, p) && Tracked(w, p) && !Forgotten(w, p) && AllObserved(w, steps, p)
    ensures !Forgotten(After(w, steps), p)
    decreases steps
  {
    hide Inv, Fresh, Tracked, Forgotten, Enabled, Next, Observed;
    if steps != [] {
      if Enabled(w, steps[0]) {
        StepKeeps(w, steps[0], p);
        NeverForgotten(Next(w, steps[0]), steps[1..], p);
      } else {
        NeverForgotten(w, steps[1..], p);
      }
    }
  }

  lemma StepKeeps(w: World, s: Step, p: Path)
    requires Enabled(w, s) && Concerns(s, p) && Observed(w, s, p)
    requires Inv(w, p) && Fresh(w, p) && Tracked(w, p) && !Forgotten(w, p)
    ensures Inv(Next(w, s), p) && Fresh(Next(w, s), p) && Tracked(Next(w, s), p) && !Forgotten(Next(w, s), p)
  {
    hide Inv, Fresh, Tracked, Forgotten, Enabled, Next, Observed, Fatal, Concerns;
    InvKept(w, s, p);
    FreshKept(w, s, p);
    TrackedKept(w, s, p);
    NotFatal(w, s, p);
    ForgottenExactly(w, s, p);
  }

  // ---------------------------------------------------------------- no fatal step

  lemma NotFatal(w: World, s: Step, p: Path)
    requires Enabled(w, s) && Concerns(s, p) && Observed(w, s, p)
    requires Inv(w, p) && Fresh(w, p) && Tracked(w, p) && !Forgotten(w, p)
    ensures !Fatal(w, s, p)
  {
    match s
    case UnwatchStep(q, removed, lost) =>
      if q == Dir(p) && removed { ThinSpares(w.queue, q, lost, p); }
      hide Thin;
    case Advance(lost) =>
      if w.at.ReAdded? {
        ReAddedNotFatal(w, lost, p);
      } else if w.at.Popping? {
        PoppingNotFatal(w, lost, p);
      }
    case _ =>
  }

  /** Removing the directory's watch leaves a report that p is gone if it spares those reports. */
  lemma {:induction false} ThinSpares(queue: seq<Event>, source: Path, lost: set<nat>, p: Path)
    requires Spared(queue, source, lost, p)
    ensures GoneIn(queue, p) ==> GoneIn(Thin(queue, source, lost), p)
    ensures GoneLast(queue, p) ==> GoneLast(Thin(queue, source, lost), p)
  {
    if queue != [] {
      var front, last := queue[..|queue| - 1], queue[|queue| - 1];
      var thin := Thin(front, source, lost);
      ThinSpares(front, source, lost, p);
      assert forall e :: e in queue ==> e in front || e == last;
      assert forall e :: e in thin ==> e in thin + [last];
      assert last in thin + [last];
      assert (thin + [last])[..|thin|] == thin && thin + [] == thin;
    }
  }

  lemma ReAddedNotFatal(w: World, lost: set<nat>, p: Path)
    requires w.at.ReAdded? && Observed(w, Advance(lost), p)
    requires Inv(w, p) && Fresh(w, p) && Tracked(w, p) && !Forgotten(w, p)
    ensures !Fatal(w, Advance(lost), p)
  {
    var q := w.at.path;
    if Dir(q) == Dir(p) {
      if Removes(w) { ThinSpares(w.queue, Dir(p), lost, p); }
      if q != p && IsPending(w.table, p) {
        assert Base(q) != Base(p) by { if Base(q) == Base(p) { SameChild(q, p); } }
        OthersStayPending(w.table, q, Dir(p), Base(p));
      }
    }
    hide Thin, RemoveFirst, GoneLast;
  }

  lemma PoppingNotFatal(w: World, lost: set<nat>, p: Path)
    requires w.at.Popping? && Observed(w, Advance(lost), p)
    requires Inv(w, p) && Fresh(w, p) && Tracked(w, p) && !Forgotten(w, p)
    ensures !Fatal(w, Advance(lost), p)
  {
    var q := w.at.path;
    if Dir(q) == Dir(p) {
      if Removes(w) { ThinSpares(w.queue, Dir(p), lost, p); }
      if q != p && IsPending(w.table, p) {
        assert Base(q) != Base(p) by { if Base(q) == Base(p) { SameChild(q, p); } }
        OthersStayPending(w.table, q, Dir(p), Base(p));
      }
    }
    hide Thin, GoneLast;
  }

  // ---------------------------------------------------------------- the two invariants of such runs

  lemma FreshKept(w: World, s: Step, p: Path)
    requires Enabled(w, s) && Concerns(s, p) && Inv(w, p) && Fresh(w, p) && Observed(w, s, p)
    ensures Fresh(Next(w, s), p)
  {
    match s
    case Vanish(q, kind, own) => VanishFresh(w, s, p);
    case Appear(q) => AppearFresh(w, s, p);
    case Replace(q, _, _) => ReplaceFresh(w, s, p);
    case WatchStep(q) => WatchFresh(w, q, p);
    case UnwatchStep(q, removed, lost) => UnwatchFresh(w, q, removed, lost, p);
    case Advance(lost) => LoopFresh(w, lost, p);
    case _ => hide GoneLast;
  }

  lemma VanishFresh(w: World, s: Step, p: Path)
    requires Enabled(w, s) && Inv(w, p) && Fresh(w, p) && Observed(w, s, p) && s.Vanish?
    ensures Fresh(Next(w, s), p)
  {
    var told := Told(w.table.kernel, s.kind, s.path, s.own);
    if s.path == p {
      GoneFresh(w.queue, told, p);
    } else {
      Grows(w.queue, told, p);
      EndsElsewhere(w.queue, told, p);
    }
    hide GoneLast, GoneIn, CreatedIn;
  }

  lemma GoneFresh(queue: seq<Event>, told: seq<Event>, p: Path)
    requires forall e :: e in told ==> IsGone(e, p)
    ensures told != [] ==> GoneIn(queue + told, p) && GoneLast(queue + told, p)
    ensures told == [] && !CreatedIn(queue, p) ==> !CreatedIn(queue + told, p) && GoneLast(queue + told, p)
  {
    if told == [] {
      assert queue + told == queue;
      if !CreatedIn(queue, p) {
        NoCreate(queue, p);
      }
    } else {
      assert told[0] in told && told[0] in queue + told;
      EndsGone(queue, told, p);
    }
  }

  lemma {:induction false} NoCreate(queue: seq<Event>, p: Path)
    requires !CreatedIn(queue, p)
    ensures GoneLast(queue, p)
  {
    if queue != [] {
      var front, last := queue[..|queue| - 1], queue[|queue| - 1];
      assert last in queue && forall e :: e in front ==> e in queue;
      NoCreate(front, p);
    }
  }

  lemma EndsGone(queue: seq<Event>, told: seq<Event>, p: Path)
    requires told != [] && forall e :: e in told ==> IsGone(e, p)
    ensures GoneLast(queue + told, p)
  {
    assert (queue + told)[|queue + told| - 1] == told[|told| - 1];
    assert told[|told| - 1] in told;
  }

  lemma {:induction false} EndsElsewhere(queue: seq<Event>, told: seq<Event>, p: Path)
    requires forall e :: e in told ==> e.path != p
    ensures GoneLast(queue + told, p) <==> GoneLast(queue, p)
    ensures CreatedIn(queue + told, p) <==> CreatedIn(queue, p)
  {
    if told == [] {
      assert queue + told == queue;
    } else {
      var front, last := told[..|told| - 1], told[|told| - 1];
      assert last in told && forall e :: e in front ==> e in told;
      assert forall e :: e in told ==> e in front || e == last;
      EndsElsewhere(queue, front, p);
      assert (queue + told)[..|queue + told| - 1] == queue + front;
      assert queue + told == (queue + front) + [last];
      Grows(queue, told, p);
    }
  }

  lemma AppearFresh(w: World, s: Step, p: Path)
    requires Enabled(w, s) && Fresh(w, p) && s.Appear?
    ensures Fresh(Next(w, s), p)
  {
    if s.path != p {
      var told := Noted(Dir(s.path) in w.table.kernel, Event(Created, s.path, Dir(s.path)));
      Grows(w.queue, told, p);
      EndsElsewhere(w.queue, told, p);
    }
    hide GoneLast;
  }

  lemma ReplaceFresh(w: World, s: Step, p: Path)
    requires Enabled(w, s) && Fresh(w, p) && s.Replace?
    ensures Fresh(Next(w, s), p)
  {
    hide GoneLast, GoneIn, CreatedIn;
    if s.path != p {
      var told := Next(w, s).queue[|w.queue|..];
      assert Next(w, s).queue == w.queue + told;
      Grows(w.queue, told, p);
      EndsElsewhere(w.queue, told, p);
    }
  }

  lemma WatchFresh(w: World, q: Path, p: Path)
    requires Inv(w, p) && Fresh(w, p) && Observed(w, WatchStep(q), p)
    ensures Fresh(Next(w, WatchStep(q)), p)
  {
    hide GoneLast;
  }

  lemma UnwatchFresh(w: World, q: Path, removed: bool, lost: set<nat>, p: Path)
    requires Inv(w, p) && Fresh(w, p) && Observed(w, UnwatchStep(q, removed, lost), p)
    ensures Fresh(Next(w, UnwatchStep(q, removed, lost)), p)
  {
    if removed && LastUse(w.table, q) && q != p {
      ThinFresh(w.queue, q, lost, p);
    }
    hide GoneLast, Thin, GoneIn, CreatedIn;
  }

  /** Removing a watch other than p's keeps the queue fresh. */
  lemma ThinFresh(queue: seq<Event>, source: Path, lost: set<nat>, p: Path)
    requires Sourced(queue, p) && source != p && (source == Dir(p) ==> Spared(queue, source, lost, p))
    ensures GoneIn(queue, p) ==> GoneIn(Thin(queue, source, lost), p)
    ensures GoneLast(queue, p) ==> GoneLast(Thin(queue, source, lost), p)
    ensures CreatedIn(Thin(queue, source, lost), p) ==> CreatedIn(queue, p)
  {
    assert Spared(queue, source, lost, p) by {
      assert forall i :: 0 <= i < |queue| ==> queue[i] in queue;
    }
    ThinSpares(queue, source, lost, p);
    ThinDrops(queue, source, lost);
  }

  lemma LoopFresh(w: World, lost: set<nat>, p: Path)
    requires Enabled(w, Advance(lost)) && Inv(w, p) && Fresh(w, p) && Observed(w, Advance(lost), p)
    ensures Fresh(Loop(w, lost), p)
  {
    match w.at
    case Idle => ReceiveFresh(w, p);
    case ReAdded(q, _) => LeftFresh(w, lost, p);
    case Popping(q) => LeftFresh(w, lost, p);
    case _ => hide GoneLast;
  }

  lemma ReceiveFresh(w: World, p: Path)
    requires w.at == Idle && w.queue != [] && Fresh(w, p)
    ensures Fresh(w.(at := Handling(w.queue[0]), queue := w.queue[1..]), p)
  {
    var first, rest := w.queue[0], w.queue[1..];
    assert forall e :: e in w.queue <==> e == first || e in rest;
    if GoneLast(w.queue, p) {
      GoneLastOfRest(w.queue, p);
    }
    hide GoneLast;
  }

  lemma {:induction false} GoneLastOfRest(queue: seq<Event>, p: Path)
    requires queue != [] && GoneLast(queue, p)
    ensures GoneLast(queue[1..], p)
    ensures CreatedIn(queue, p) ==> GoneIn(queue[1..], p)
  {
    var rest := queue[1..];
    if rest != [] {
      var front := queue[..|queue| - 1];
      assert front[1..] == rest[..|rest| - 1] && rest[|rest| - 1] == queue[|queue| - 1];
      assert forall e :: e in rest[..|rest| - 1] ==> e in rest;
      assert forall e :: e in queue ==> e in front || e == queue[|queue| - 1];
      assert rest[|rest| - 1] in rest;
      if rest[|rest| - 1].path != p {
        GoneLastOfRest(front, p);
      }
    } else {
      assert queue[..0] == [] && forall e :: e in queue ==> e == queue[0];
    }
  }

  lemma LeftFresh(w: World, lost: set<nat>, p: Path)
    requires (w.at.ReAdded? || w.at.Popping?) && Inv(w, p) && Fresh(w, p) && Observed(w, Advance(lost), p)
    ensures Fresh(Loop(w, lost), p)
  {
    if Removes(w) && Dir(w.at.path) != p {
      ThinFresh(w.queue, Dir(w.at.path), lost, p);
    }
    hide GoneLast, Thin, GoneIn, CreatedIn, RemoveFirst;
  }

  lemma TrackedKept(w: World, s: Step, p: Path)
    requires Enabled(w, s) && Concerns(s, p) && Observed(w, s, p) && Inv(w, p) && Tracked(w, p)
    ensures Tracked(Next(w, s), p)
  {
    match s
    case Vanish(_, _, _) => EnvTracked(w, s, p);
    case Appear(_) => EnvTracked(w, s, p);
    case Replace(_, _, _) => EnvTracked(w, s, p);
    case WatchStep(q) => WatchTracked(w, q, p);
    case UnwatchStep(q, removed, lost) => UnwatchTracked(w, q, removed, lost, p);
    case WatchPendingStep(a, q) =>
    case ClearStep =>
    case Advance(lost) => LoopTracked(w, lost, p);
  }

  lemma EnvTracked(w: World, s: Step, p: Path)
    requires Enabled(w, s) && Observed(w, s, p) && Tracked(w, p) && (s.Vanish? || s.Appear? || s.Replace?)
    ensures Tracked(Next(w, s), p)
  {
    var told := Next(w, s).queue[|w.queue|..];
    assert Next(w, s).queue == w.queue + told;
    Grows(w.queue, told, p);
    if s.path == p && p in w.table.kernel && !s.Appear? {
      var source := if Dir(p) in w.table.kernel && !s.own then Dir(p) else p;
      var e := Event(if s.Vanish? then s.kind else Removed, p, source);
      assert e in told && e in w.queue + told && IsGone(e, p);
    }
  }

  lemma WatchTracked(w: World, q: Path, p: Path)
    requires Observed(w, WatchStep(q), p) && Inv(w, p) && Tracked(w, p)
    ensures Tracked(Next(w, WatchStep(q)), p)
  {
    assert |Dir(p)| != |p|;
  }

  lemma UnwatchTracked(w: World, q: Path, removed: bool, lost: set<nat>, p: Path)
    requires Observed(w, UnwatchStep(q, removed, lost), p) && Inv(w, p) && Tracked(w, p)
    ensures Tracked(Next(w, UnwatchStep(q, removed, lost)), p)
  {
    assert |Dir(p)| != |p|;
    if removed && LastUse(w.table, q) && q != p {
      ThinFresh(w.queue, q, lost, p);
    }
    hide GoneLast, Thin, GoneIn;
  }

  lemma LoopTracked(w: World, lost: set<nat>, p: Path)
    requires Enabled(w, Advance(lost)) && Inv(w, p) && Tracked(w, p)
    ensures Tracked(Loop(w, lost), p)
  {
    match w.at
    case Missed(q) => assert q in PendingFor(RegisterOp(w.table, q).watches[Dir(q)], Base(q));
    case _ =>
  }

  // ---------------------------------------------------------------- a listed directory

  /** The directory of p is itself directly watched, as it is while the client lists it. */
  predicate Listed(w: World, p: Path) {
    DirectlyWatched(w.table, Dir(p)) && Dir(p) in w.table.kernel
  }

  predicate Reported(w: World, s: Step, p: Path) {
    match s
    case Replace(q, _, own) => q == p ==> own
    case WatchStep(q) => q == p && Skips(w.table, p) ==> p in w.table.kernel
    case UnwatchStep(q, _, _) => q != Dir(p)
    case _ => true
  }

  predicate AllReported(w: World, steps: seq<Step>, p: Path)
    decreases steps
  {
    steps != [] ==>
      && Concerns(steps[0], p)
      && if Enabled(w, steps[0])
         then Reported(w, steps[0], p) && AllReported(Next(w, steps[0]), steps[1..], p)
         else AllReported(w, steps[1..], p)
  }

  lemma ListedKept(w: World, s: Step, p: Path)
    requires Enabled(w, s) && Concerns(s, p) && Reported(w, s, p) && Inv(w, p) && Tracked(w, p) && Listed(w, p)
    ensures Observed(w, s, p) && Listed(Next(w, s), p)
  {
    hide Thin, Told, GoneIn, CreatedIn, RemoveFirst;
  }

  /**
    So a path whose directory stays listed is not forgotten, whatever else happens: no deletion goes
    unseen, no report is dropped, and nothing is cleared.
   */
  lemma {:induction false} NeverForgottenWhileListed(w: World, steps: seq<Step>, p: Path)
    requires Inv(w, p) && Fresh(w, p) && Tracked(w, p) && !Forgotten(w, p) && Listed(w, p)
    requires AllReported(w, steps, p)
    ensures !Forgotten(After(w, steps), p)
    decreases steps
  {
    hide Inv, Fresh, Tracked, Forgotten, Listed, Enabled, Next, Observed, Reported;
    if steps != [] {
      if Enabled(w, steps[0]) {
        ListedKept(w, steps[0], p);
        StepKeeps(w, steps[0], p);
        NeverForgottenWhileListed(Next(w, steps[0]), steps[1..], p);
      } else {
        NeverForgottenWhileListed(w, steps[1..], p);
      }
    }
  }

  // ---------------------------------------------------------------- references

  /** The loop cleans up an entry that it should not refer to any more. */
  predicate StaleCleanup(w: World, p: Path) {
    match w.at
    case Registered(q, needsAdd, orphan) => Dir(q) == p && orphan && needsAdd && p !in w.files
    case ReAdded(q, orphan) => Dir(q) == p && orphan
    case _ => false
  }

  /** A path loses references exactly by an Unwatch, or by the cleanup of an orphan. */
  lemma ReferencesLostExactly(w: World, s: Step, p: Path)
    requires Enabled(w, s) && InfoOf(w.table, p).refCount >= 0
    ensures InfoOf(Next(w, s).table, p).refCount < InfoOf(w.table, p).refCount <==>
            InfoOf(w.table, p).refCount > 0 &&
            ((s.UnwatchStep? && s.path == p) || (s.Advance? && StaleCleanup(w, p)))
  {
    hide Thin, Told, RemoveFirst, Noted, Left;
    if s.Advance? {
      LoopReferences(w, s.lost, p);
    }
  }

  /** The loop changes no count but that of the entry it drops by mistake. */
  lemma LoopReferences(w: World, lost: set<nat>, p: Path)
    requires Enabled(w, Advance(lost))
    ensures InfoOf(Loop(w, lost).table, p).refCount == if StaleCleanup(w, p) then 0 else InfoOf(w.table, p).refCount
  {
    hide Left, RemoveFirst;
  }
}
