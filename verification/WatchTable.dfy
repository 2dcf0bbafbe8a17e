/**
  The watcher's table: reference counts and pending registrations per path, and the set of paths
  that fsnotify watches in the kernel.
 */
module WatchTable {

  /** An absolute, cleaned path as its components; the root is empty. */
  type Path = seq<string>

  /** filepath.Dir */
  function Dir(p: Path): Path {
    if p == [] then [] else p[..|p| - 1]
  }

  /** filepath.Base */
  function Base(p: Path): string {
    if p == [] then "/" else p[|p| - 1]
  }

  /** The first component of filepath.Rel(ancestor, p). */
  function ChildOf(ancestor: Path, p: Path): string {
    if p == ancestor then "."
    else if ancestor <= p then p[|ancestor|]
    else ".."
  }

  datatype Info = Info(refCount: int, pending: map<string, seq<Path>>)

  /** The watches map and the fsnotify set. */
  datatype Table = Table(watches: map<Path, Info>, kernel: set<Path>)

  function InfoOf(t: Table, p: Path): Info {
    if p in t.watches then t.watches[p] else Info(0, map[])
  }

  predicate Unused(info: Info) {
    info.refCount == 0 && info.pending == map[]
  }

  /** isDirectlyWatched */
  predicate DirectlyWatched(t: Table, p: Path) {
    p in t.watches && t.watches[p].refCount > 0
  }

  function PendingFor(info: Info, child: string): seq<Path> {
    if child in info.pending then info.pending[child] else []
  }

  function AddPending(info: Info, child: string, p: Path): Info {
    info.(pending := info.pending[child := PendingFor(info, child) + [p]])
  }

  function Put(t: Table, p: Path, info: Info): Table {
    t.(watches := t.watches[p := info])
  }

  /** Drop an entry that nobody needs, together with its fsnotify watch. */
  function Release(t: Table, p: Path): Table {
    Table(t.watches - {p}, t.kernel - {p})
  }

  function Tidy(t: Table, p: Path): Table {
    if p in t.watches && Unused(t.watches[p]) then Release(t, p) else t
  }

  // ---------------------------------------------------------------- operations

  /** Watch; added says whether fsnotify's Add succeeds, if it is called. */
  function WatchOp(t: Table, p: Path, added: bool): Table {
    var info := InfoOf(t, p);
    if !Unused(info) then Put(t, p, info.(refCount := info.refCount + 1))
    else if added then Put(t, p, info.(refCount := 1)).(kernel := t.kernel + {p})
    else t.(watches := t.watches - {p})
  }

  predicate WatchFails(t: Table, p: Path, added: bool) {
    Unused(InfoOf(t, p)) && !added
  }

  /** Unwatch; removed says whether fsnotify's Remove succeeds, if it is called. */
  function UnwatchOp(t: Table, p: Path, removed: bool): Table {
    var info := InfoOf(t, p);
    if info.refCount <= 0 then t
    else
      var less := info.(refCount := info.refCount - 1);
      if !Unused(less) then Put(t, p, less)
      else Table(t.watches - {p}, if removed then t.kernel - {p} else t.kernel)
  }

  predicate UnwatchFails(t: Table, p: Path, removed: bool) {
    InfoOf(t, p).refCount == 1 && InfoOf(t, p).pending == map[] && !removed
  }

  function WatchPendingOp(t: Table, ancestor: Path, p: Path): Table {
    if ancestor in t.watches then Put(t, ancestor, AddPending(t.watches[ancestor], ChildOf(ancestor, p), p)) else t
  }

  function ClearPendingOp(t: Table): Table {
    t.(watches := map p | p in t.watches :: t.watches[p].(pending := map[]))
  }

  /** popPendingForChild: the list, and the table without it. */
  function PopOp(t: Table, dir: Path, child: string): (Table, seq<Path>) {
    if dir !in t.watches then (t, []) else
    var info := t.watches[dir];
    (Tidy(Put(t, dir, info.(pending := info.pending - {child})), dir), PendingFor(info, child))
  }

  /** The first locked section of watchParentForPending. */
  function RegisterOp(t: Table, p: Path): Table {
    Put(t, Dir(p), AddPending(InfoOf(t, Dir(p)), Base(p), p))
  }

  /** Its needsAdd. */
  predicate NeedsAdd(t: Table, p: Path) {
    Unused(InfoOf(t, Dir(p)))
  }

  /** What it undoes when the parent cannot be watched. */
  function UnregisterOp(t: Table, p: Path): Table {
    var d := Dir(p);
    if d !in t.watches then t else
    var less := t.watches[d].(pending := t.watches[d].pending - {Base(p)});
    if Unused(less) then t.(watches := t.watches - {d}) else Put(t, d, less)
  }

  function RemoveFirst(ps: seq<Path>, p: Path): seq<Path> {
    if ps == [] then [] else if ps[0] == p then ps[1..] else [ps[0]] + RemoveFirst(ps[1..], p)
  }

  /** Its cleanup when the second stat finds the file. */
  function SettleOp(t: Table, p: Path): Table {
    var d := Dir(p);
    if d !in t.watches then t else
    var info := t.watches[d];
    var left := RemoveFirst(PendingFor(info, Base(p)), p);
    var pending := if left == [] then info.pending - {Base(p)} else info.pending[Base(p) := left];
    Tidy(Put(t, d, info.(pending := pending)), d)
  }

  /** The re-adds after a pop: every popped path that is directly watched and exists. */
  function ReAddOp(t: Table, ps: seq<Path>, files: set<Path>): Table {
    t.(kernel := t.kernel + set q | q in ps && DirectlyWatched(t, q) && q in files)
  }

  /** A pop, or the cleanup after the second stat, leaves every other registration alone. */
  lemma OthersStayPending(t: Table, p: Path, d: Path, child: string)
    requires d in t.watches && PendingFor(t.watches[d], child) != []
    requires d != Dir(p) || child != Base(p)
    ensures forall t' | t' in {PopOp(t, Dir(p), Base(p)).0, SettleOp(t, p)} ::
              && d in t'.watches && PendingFor(t'.watches[d], child) == PendingFor(t.watches[d], child)
              && (d in t.kernel ==> d in t'.kernel)
  {
    if d == Dir(p) {
      var info := t.watches[d];
      assert child in info.pending && child in info.pending - {Base(p)};
    }
  }

  // ---------------------------------------------------------------- what the operations are for

  /** Nothing changes for q. */
  predicate Untouched(a: Table, b: Table, q: Path) {
    InfoOf(b, q) == InfoOf(a, q) && (q in b.watches <==> q in a.watches) && (q in b.kernel <==> q in a.kernel)
  }

  /** p has one reference more, its registrations stay, and if its entry was unused, fsnotify now watches it. */
  ghost predicate TakesReference(a: Table, b: Table, p: Path) {
    && InfoOf(b, p).refCount == InfoOf(a, p).refCount + 1
    && InfoOf(b, p).pending == InfoOf(a, p).pending
    && p in b.watches && (p in b.kernel <==> p in a.kernel || Unused(InfoOf(a, p)))
    && forall q :: q != p ==> Untouched(a, b, q)
  }

  /**
    p has one reference less and its registrations stay; the last use takes the entry along, and the
    fsnotify watch if removed says so.
   */
  ghost predicate GivesReferenceBack(a: Table, b: Table, p: Path, removed: bool) {
    var last := InfoOf(a, p).refCount == 1 && InfoOf(a, p).pending == map[];
    && InfoOf(b, p).refCount == InfoOf(a, p).refCount - 1
    && InfoOf(b, p).pending == InfoOf(a, p).pending
    && (p in b.watches <==> !last) && (p in b.kernel <==> p in a.kernel && !(last && removed))
    && forall q :: q != p ==> Untouched(a, b, q)
  }

  /** An Add that fails leaves no entry and no reference. */
  lemma WatchEffect(t: Table, p: Path, added: bool)
    ensures var t' := WatchOp(t, p, added);
            if WatchFails(t, p, added)
            then p !in t'.watches && t'.kernel == t.kernel && forall q :: q != p ==> Untouched(t, t', q)
            else TakesReference(t, t', p)
    ensures WatchFails(t, p, added) <==> !added && InfoOf(t, p) == Info(0, map[])
  {
  }

  lemma UnwatchEffect(t: Table, p: Path, removed: bool)
    ensures var t' := UnwatchOp(t, p, removed);
            if InfoOf(t, p).refCount <= 0 then t' == t else GivesReferenceBack(t, t', p, removed)
  {
  }

  /** The path stands at the end of its child's list, and nothing else changes. */
  lemma WatchPendingEffect(t: Table, a: Path, p: Path)
    ensures var t' := WatchPendingOp(t, a, p);
            && (forall d, child :: PendingFor(InfoOf(t', d), child) ==
                  PendingFor(InfoOf(t, d), child) +
                  if d == a && a in t.watches && child == ChildOf(a, p) then [p] else [])
            && (forall q :: InfoOf(t', q).refCount == InfoOf(t, q).refCount)
            && t'.watches.Keys == t.watches.Keys && t'.kernel == t.kernel
  {
  }

  /** After a pop, fsnotify watches again exactly the popped paths that are referenced and there. */
  lemma ReAddEffect(t: Table, ps: seq<Path>, files: set<Path>)
    ensures var t' := ReAddOp(t, ps, files);
            && t'.watches == t.watches
            && forall q :: q in t'.kernel <==>
                 q in t.kernel || (q in ps && q in files && InfoOf(t, q).refCount > 0)
  {
  }

  // ---------------------------------------------------------------- bookkeeping

  /** One operation of the watcher, run to its end with no kernel drop in between. */
  datatype Op =
    | Watch(path: Path, added: bool)
    | Unwatch(path: Path, removed: bool)
    | WatchPending(ancestor: Path, path: Path)
    | ClearPending
    | Pop(path: Path, files: set<Path>) // with the re-adds after it
    | Recreate(path: Path, parent: bool, back: bool)

  /** Recreate is watchParentForPending for a directly watched path. */
  function Apply(t: Table, op: Op): Table {
    match op
    case Watch(p, added) => WatchOp(t, p, added)
    case Unwatch(p, removed) => UnwatchOp(t, p, removed)
    case WatchPending(a, p) => WatchPendingOp(t, a, p)
    case ClearPending => ClearPendingOp(t)
    case Pop(p, files) =>
      var (popped, ps) := PopOp(t, Dir(p), Base(p));
      ReAddOp(popped, ps, files)
    case Recreate(p, parent, back) =>
      if !DirectlyWatched(t, p) then t else
      var r := RegisterOp(t, p);
      if NeedsAdd(t, p) && !parent then UnregisterOp(r, p) else
      var watched := if NeedsAdd(t, p) then r.(kernel := r.kernel + {Dir(p)}) else r;
      if back then SettleOp(watched.(kernel := watched.kernel + {p}), p) else watched
  }

  function Run(ops: seq<Op>): Table {
    if ops == [] then Table(map[], {}) else Apply(Run(ops[..|ops| - 1]), ops[|ops| - 1])
  }

  predicate Counts(t: Table) {
    forall p :: p in t.watches ==>
      t.watches[p].refCount >= 0 && forall c :: c in t.watches[p].pending ==> t.watches[p].pending[c] != []
  }

  /** Every entry is watched by fsnotify. */
  predicate Covers(t: Table) {
    t.watches.Keys <= t.kernel && Counts(t)
  }

  /** The fsnotify set is exactly the keys of the watches map. */
  predicate Agrees(t: Table) {
    t.kernel == t.watches.Keys && Counts(t)
  }

  /** Every entry is there for a reason. */
  predicate Needed(t: Table) {
    forall p :: p in t.watches ==> !Unused(t.watches[p])
  }

  /**
    fsnotify refuses to add a path again whose entry ClearPending left idle, or to remove a path whose
    entry goes.
   */
  predicate PartsWays(t: Table, op: Op) {
    match op
    case Unwatch(p, removed) => UnwatchFails(t, p, removed)
    case Watch(p, added) => !added && p in t.watches && Unused(t.watches[p])
    case Recreate(p, parent, _) =>
      DirectlyWatched(t, p) && !parent && Dir(p) in t.watches && Unused(t.watches[Dir(p)])
    case _ => false
  }

  /** Every operation of the run keeps the two together. */
  predicate StayTogether(ops: seq<Op>) {
    ops != [] ==>
      var init := ops[..|ops| - 1];
      StayTogether(init) && !PartsWays(Run(init), ops[|ops| - 1])
  }

  predicate NothingCleared(ops: seq<Op>) {
    forall i :: 0 <= i < |ops| ==> !ops[i].ClearPending?
  }

  /**
    Over every run of the watcher's operations the fsnotify set covers the table. It is the table while
    no operation parts them; until the first ClearPending only a failed Remove can, and the table holds
    exactly the paths with a reference or a pending child.
   */
  lemma {:induction false} KernelCoversTable(ops: seq<Op>)
    ensures Covers(Run(ops))
    ensures StayTogether(ops) ==> Agrees(Run(ops))
    ensures NothingCleared(ops) ==> Needed(Run(ops))
    ensures NothingCleared(ops) && (forall i :: 0 <= i < |ops| && ops[i].Unwatch? ==> ops[i].removed) ==>
              StayTogether(ops)
  {
    hide Apply, Covers, Agrees;
    if ops == [] {
      NothingWatched();
    } else {
      var init, op := ops[..|ops| - 1], ops[|ops| - 1];
      KernelCoversTable(init);
      ApplyCovers(Run(init), op);
      assert forall i :: 0 <= i < |init| ==> init[i] == ops[i];
      if StayTogether(ops) {
        ApplyAgrees(Run(init), op);
      }
      if NothingCleared(ops) {
        ApplyNeeded(Run(init), op);
      }
    }
  }

  /** The references that a run's calls have taken on p and not given back. */
  function Held(ops: seq<Op>, p: Path): nat {
    if ops == [] then 0 else
    var init, op := ops[..|ops| - 1], ops[|ops| - 1];
    var held := Held(init, p);
    if op.Watch? && op.path == p && !WatchFails(Run(init), p, op.added) then held + 1
    else if op.Unwatch? && op.path == p && held > 0 then held - 1
    else held
  }

  /** Over every run the count of a path is that number, whatever the event loop does in between. */
  lemma {:induction false} CountIsHeld(ops: seq<Op>, p: Path)
    ensures InfoOf(Run(ops), p).refCount == Held(ops, p)
  {
    hide Apply, WatchFails;
    if ops != [] {
      CountIsHeld(ops[..|ops| - 1], p);
      OneCount(Run(ops[..|ops| - 1]), ops[|ops| - 1], p);
    }
  }

  lemma OneCount(t: Table, op: Op, p: Path)
    requires InfoOf(t, p).refCount >= 0
    ensures var before, after := InfoOf(t, p).refCount, InfoOf(Apply(t, op), p).refCount;
            if op.Watch? && op.path == p && !WatchFails(t, p, op.added) then after == before + 1
            else if op.Unwatch? && op.path == p && before > 0 then after == before - 1
            else after == before
  {
    hide RemoveFirst;
  }

  lemma NothingWatched()
    ensures Covers(Run([])) && Agrees(Run([])) && Needed(Run([]))
  {
  }

  /** Without clearing, an entry goes when it is not needed any more. */
  lemma ApplyNeeded(t: Table, op: Op)
    requires Covers(t) && Needed(t) && !op.ClearPending?
    ensures Needed(Apply(t, op))
  {
    hide RemoveFirst;
    match op
    case Recreate(p, parent, back) => RecreateNeeded(t, p, parent, back);
    case _ =>
  }

  lemma RecreateNeeded(t: Table, p: Path, parent: bool, back: bool)
    requires Covers(t) && Needed(t)
    ensures Needed(Apply(t, Recreate(p, parent, back)))
  {
    hide RemoveFirst;
    assert Base(p) in RegisterOp(t, p).watches[Dir(p)].pending;
  }

  /** One operation parts the table and the fsnotify set exactly at a failed re-add or Remove. */
  lemma ApplyAgrees(t: Table, op: Op)
    requires Agrees(t)
    ensures Agrees(Apply(t, op)) <==> !PartsWays(t, op)
  {
    hide Apply, Agrees, PartsWays;
    if op.Recreate? {
      RecreateAgrees(t, op.path, op.parent, op.back);
    } else {
      CallAgrees(t, op);
    }
  }

  lemma CallAgrees(t: Table, op: Op)
    requires Agrees(t) && !op.Recreate?
    ensures Agrees(Apply(t, op)) <==> !PartsWays(t, op)
  {
    match op
    case Watch(p, added) => WatchAgrees(t, p, added);
    case Unwatch(p, _) => KeysOf(t, p);
    case WatchPending(a, p) => KeysOf(t, a);
    case ClearPending => assert Apply(t, op).watches.Keys == t.watches.Keys;
    case Pop(p, files) => PopAgrees(t, p, files);
  }

  lemma WatchAgrees(t: Table, p: Path, added: bool)
    requires Agrees(t)
    ensures Agrees(WatchOp(t, p, added)) <==> !PartsWays(t, Watch(p, added))
  {
    KeysOf(t, p);
  }

  lemma PopAgrees(t: Table, p: Path, files: set<Path>)
    requires Agrees(t)
    ensures Agrees(Apply(t, Pop(p, files)))
  {
    KeysOf(t, Dir(p));
  }

  lemma RecreateAgrees(t: Table, p: Path, parent: bool, back: bool)
    requires Agrees(t)
    ensures Agrees(Apply(t, Recreate(p, parent, back))) <==> !PartsWays(t, Recreate(p, parent, back))
  {
    if DirectlyWatched(t, p) {
      KeysOf(t, Dir(p));
      RegisterCounts(t, p);
      if NeedsAdd(t, p) && !parent {
        Unregistered(t, p);
      } else {
        var watched := RegisterOp(t, p).(kernel := t.kernel + {Dir(p)});
        assert t.kernel + {Dir(p)} == if NeedsAdd(t, p) then t.kernel + {Dir(p)} else t.kernel;
        SettleCovers(watched.(kernel := watched.kernel + {p}), p);
      }
    }
  }

  lemma ApplyCovers(t: Table, op: Op)
    requires Covers(t)
    ensures Covers(Apply(t, op))
  {
    match op
    case Watch(p, added) => KeysOf(t, p);
    case Unwatch(p, _) => KeysOf(t, p);
    case WatchPending(a, p) => KeysOf(t, a);
    case ClearPending => assert Apply(t, op).watches.Keys == t.watches.Keys;
    case Pop(p, _) => KeysOf(t, Dir(p));
    case Recreate(p, parent, back) =>
      if DirectlyWatched(t, p) {
        KeysOf(t, Dir(p));
        RegisterCounts(t, p);
        if NeedsAdd(t, p) && !parent {
          Unregistered(t, p);
        } else {
          var watched := RegisterOp(t, p).(kernel := t.kernel + {Dir(p)});
          assert t.kernel + {Dir(p)} == if NeedsAdd(t, p) then t.kernel + {Dir(p)} else t.kernel;
          SettleCovers(watched.(kernel := watched.kernel + {p}), p);
        }
      }
  }

  lemma KeysOf(t: Table, p: Path)
    ensures forall info :: Put(t, p, info).watches.Keys == t.watches.Keys + {p}
    ensures (t.watches - {p}).Keys == t.watches.Keys - {p}
    ensures forall info :: (Put(t, p, info).watches - {p}).Keys == t.watches.Keys - {p}
  {
  }

  lemma RegisterCounts(t: Table, p: Path)
    requires Counts(t)
    ensures Counts(RegisterOp(t, p)) && (Needed(t) ==> Needed(RegisterOp(t, p)))
  {
    assert Base(p) in RegisterOp(t, p).watches[Dir(p)].pending;
  }

  lemma Unregistered(t: Table, p: Path)
    requires NeedsAdd(t, p)
    ensures UnregisterOp(RegisterOp(t, p), p) == t.(watches := t.watches - {Dir(p)})
  {
    var d := Dir(p);
    assert RegisterOp(t, p).watches[d].pending - {Base(p)} == map[];
    assert RegisterOp(t, p).watches - {d} == t.watches - {d};
  }

  lemma SettleCovers(t: Table, p: Path)
    requires Covers(t)
    ensures Covers(SettleOp(t, p))
    ensures Agrees(t) ==> Agrees(SettleOp(t, p))
    ensures Needed(t) ==> Needed(SettleOp(t, p))
  {
    KeysOf(t, Dir(p));
  }
}
