/**
  Runs of the watcher after which a watched path is forgotten, or has lost its reference: one for each
  way there is.
 */
module WatchRaceRuns {
  import opened WatchTable
  import opened WatchRace

  const ROOT: Path := []
  const FILE: Path := ["f"]
  const DIR: Path := ["d"]
  const CHILD: Path := ["d", "c"]

  /** Nothing watched yet. */
  function Quiet(files: set<Path>): World {
    World(Table(map[], {}), files, [], Idle)
  }

  /** The world of every theorem about runs can be the one that they start from. */
  lemma QuietIsSound(files: set<Path>, p: Path)
    requires p != [] && Base(p) != "/" && Dir(p) in files
    ensures var w := Quiet(files); Inv(w, p) && Fresh(w, p) && Tracked(w, p) && !Forgotten(w, p)
  {
  }

  /** p is forgotten, the loop has nothing to do, and what happens to p next raises no event. */
  predicate Lost(w: World, p: Path) {
    && Forgotten(w, p) && w.queue == [] && w.at == Idle
    && (p in w.files ==> Next(w, Vanish(p, Removed, true)).queue == [])
    && (p !in w.files ==> Next(w, Appear(p)).queue == [])
  }

  lemma {:induction false} AfterAppend(w: World, a: seq<Step>, b: seq<Step>)
    ensures After(w, a + b) == After(After(w, a), b)
    decreases a
  {
    if a == [] {
      assert a + b == b;
    } else {
      assert (a + b)[1..] == a[1..] + b;
      AfterAppend(if Enabled(w, a[0]) then Next(w, a[0]) else w, a[1..], b);
    }
  }

  /** A list of worlds, each the next of the one before. */
  lemma {:induction false} Chain(ws: seq<World>, ss: seq<Step>)
    requires |ws| == |ss| + 1
    requires forall i :: 0 <= i < |ss| ==> Enabled(ws[i], ss[i]) && Next(ws[i], ss[i]) == ws[i + 1]
    ensures After(ws[0], ss) == ws[|ss|]
  {
    hide Enabled, Next;
    if ss != [] {
      Chain(ws[1..], ss[1..]);
    }
  }

  const GO: Step := Advance({})

  /** The entry of p's directory while p is pending there. */
  function Waiting(name: string, p: Path): Info {
    Info(0, map[name := [p]])
  }

  // ---------------------------------------------------------------- a watched path is deleted

  /** The loop's first four actions on a deletion: p is found missing and is registered. */
  const REGISTERING := [GO, GO, GO, GO]

  lemma Registers(p: Path, name: string, info: Info, files: set<Path>, e: Event, rest: seq<Event>)
    requires p == [name] && info.refCount > 0 && p !in files && e.kind == Removed && e.path == p
    ensures var w := World(Table(map[p := info], {}), files, [e] + rest, Idle);
            After(w, REGISTERING) ==
            World(Table(map[p := info, ROOT := Waiting(name, p)], {}), files, rest, Registered(p, true, false))
  {
    hide After;
    var w0 := World(Table(map[p := info], {}), files, [e] + rest, Idle);
    var w1 := w0.(queue := rest, at := Handling(e));
    var w2 := w1.(at := Checked(p, Removed));
    var w3 := w2.(at := Missed(p));
    var w4 := w3.(table := Table(map[p := info, ROOT := Waiting(name, p)], {}), at := Registered(p, true, false));
    assert Dir(p) == ROOT && Base(p) == name;
    assert PendingFor(Info(0, map[]), name) + [p] == [p] && ([e] + rest)[1..] == rest;
    assert Next(w0, GO) == w1 && Next(w1, GO) == w2 && Next(w2, GO) == w3 && Next(w3, GO) == w4;
    Chain([w0, w1, w2, w3, w4], REGISTERING);
  }

  /** The first part of every run with a deletion: p is watched, deleted, and registered. */
  lemma DeletedAndRegistered(files: set<Path>)
    requires FILE in files
    ensures After(Quiet(files), [WatchStep(FILE), Vanish(FILE, Removed, true)] + REGISTERING) ==
            World(Table(map[FILE := Info(1, map[]), ROOT := Waiting("f", FILE)], {}), files - {FILE}, [],
                  Registered(FILE, true, false))
  {
    hide After;
    var w1 := World(Table(map[FILE := Info(1, map[])], {FILE}), files, [], Idle);
    var w2 := World(Table(map[FILE := Info(1, map[])], {}), files - {FILE}, [Event(Removed, FILE, FILE)], Idle);
    var ss := [WatchStep(FILE), Vanish(FILE, Removed, true)];
    assert Next(Quiet(files), ss[0]) == w1 && Next(w1, ss[1]) == w2;
    Chain([Quiet(files), w1, w2], ss);
    AfterAppend(Quiet(files), ss, REGISTERING);
    Registers(FILE, "f", Info(1, map[]), files - {FILE}, Event(Removed, FILE, FILE), []);
    assert [Event(Removed, FILE, FILE)] + [] == [Event(Removed, FILE, FILE)];
  }

  // ---------------------------------------------------------------- fsnotify drops events

  /** FILE comes back and goes again while its directory is watched for it. */
  const BACK_AND_GONE := [GO, GO, Appear(FILE), Vanish(FILE, Removed, true)]

  /** The pop for the Create removes the directory's watch, and with it the report of the deletion. */
  const POP_AND_DROP := [GO, GO, Advance({0})]

  /**
    If a Remove drops the queued events of its watch, delete, create, delete is enough, though the
    watcher's watches saw each of the three.
   */
  lemma DroppedReportForgets()
    ensures var run := ([WatchStep(FILE), Vanish(FILE, Removed, true)] + REGISTERING) + (BACK_AND_GONE + POP_AND_DROP);
            Lost(After(Quiet({ROOT, FILE}), run), FILE)
  {
    hide Lost, Enabled, Next;
    var first := [WatchStep(FILE), Vanish(FILE, Removed, true)] + REGISTERING;
    DeletedAndRegistered({ROOT, FILE});
    assert {ROOT, FILE} - {FILE} == {ROOT};
    AfterAppend(Quiet({ROOT, FILE}), first, BACK_AND_GONE + POP_AND_DROP);
    AfterAppend(After(Quiet({ROOT, FILE}), first), BACK_AND_GONE, POP_AND_DROP);
    BackAndGone();
    PopAndDrop();
    NothingLeft();
  }

  const BOTH := map[FILE := Info(1, map[]), ROOT := Waiting("f", FILE)]
  const ALONE := map[FILE := Info(1, map[])]
  const MADE := Event(Created, FILE, ROOT)
  const GONE := Event(Removed, FILE, ROOT)

  lemma BackAndGone()
    ensures After(World(Table(BOTH, {}), {ROOT}, [], Registered(FILE, true, false)), BACK_AND_GONE) ==
            World(Table(BOTH, {ROOT}), {ROOT}, [MADE, GONE], Idle)
  {
    hide After;
    assert Dir(FILE) == ROOT && |ROOT| != |FILE|;
    var w0 := World(Table(BOTH, {}), {ROOT}, [], Registered(FILE, true, false));
    var w1 := w0.(table := Table(BOTH, {ROOT}), at := ParentWatched(FILE, false));
    var w2 := w1.(at := Idle);
    var w3 := w2.(files := {ROOT, FILE}, queue := [MADE]);
    var w4 := w3.(files := {ROOT}, queue := [MADE, GONE]);
    assert Next(w0, GO) == w1 && Next(w1, GO) == w2 && Next(w2, Appear(FILE)) == w3;
    assert Next(w3, Vanish(FILE, Removed, true)) == w4 by { assert [MADE] + ([] + [GONE]) == [MADE, GONE]; }
    Chain([w0, w1, w2, w3, w4], BACK_AND_GONE);
  }

  /** The pop takes FILE's registration and, with it, the directory's entry. */
  lemma PopOfFile(kernel: set<Path>)
    ensures PopOp(Table(BOTH, kernel), ROOT, "f") == (Table(ALONE, kernel - {ROOT}), [FILE])
  {
    assert |ROOT| != |FILE|;
    assert BOTH[ROOT].pending - {"f"} == map[];
    assert BOTH[ROOT := Info(0, map[])] - {ROOT} == ALONE;
  }

  lemma PopAndDrop()
    ensures After(World(Table(BOTH, {ROOT}), {ROOT}, [MADE, GONE], Idle), POP_AND_DROP) ==
            World(Table(ALONE, {}), {ROOT}, [], Idle)
  {
    hide After;
    assert Dir(FILE) == ROOT && Base(FILE) == "f" && |ROOT| != |FILE|;
    var w0 := World(Table(BOTH, {ROOT}), {ROOT}, [MADE, GONE], Idle);
    var w1 := w0.(queue := [GONE], at := Handling(MADE));
    var w2 := w1.(at := Popping(FILE));
    var w3 := World(Table(ALONE, {}), {ROOT}, [], Idle);
    PopOfFile({ROOT});
    assert [MADE, GONE][1..] == [GONE];
    assert Thin([GONE], ROOT, {0}) == [] by { assert [GONE][..0] == []; }
    assert Next(w0, GO) == w1 && Next(w1, GO) == w2 && Next(w2, Advance({0})) == w3;
    Chain([w0, w1, w2, w3], POP_AND_DROP);
  }

  lemma NothingLeft()
    ensures Lost(World(Table(ALONE, {}), {ROOT}, [], Idle), FILE)
  {
    assert |ROOT| != |FILE|;
  }

  // ---------------------------------------------------------------- fsnotify keeps events

  /** The second stat finds FILE back. */
  const BACK := [GO, Appear(FILE), GO]

  /** Before the cleanup it goes and comes back again. */
  const AGAIN := [Vanish(FILE, Removed, false), Appear(FILE), GO]

  /** After the cleanup nothing is watched: FILE goes unseen, and the loop handles the first Create. */
  const UNSEEN := [Vanish(FILE, Removed, true), GO, GO, GO]

  /** The loop registers FILE once more; the stale Create takes the registration away. */
  const STALE := [GO, GO, GO, GO, GO]

  /** If a Remove drops nothing, a Create that is out of date has the same effect. */
  lemma KeptReportForgets()
    ensures var run := ([WatchStep(FILE), Vanish(FILE, Removed, true)] + REGISTERING) +
                       (BACK + (AGAIN + (UNSEEN + (REGISTERING + STALE))));
            Lost(After(Quiet({ROOT, FILE}), run), FILE)
  {
    hide Lost, Enabled, Next;
    var w0, first := Quiet({ROOT, FILE}), [WatchStep(FILE), Vanish(FILE, Removed, true)] + REGISTERING;
    DeletedAndRegistered({ROOT, FILE});
    assert {ROOT, FILE} - {FILE} == {ROOT};
    var w1 := After(w0, first);
    var w2 := After(w1, BACK);
    var w3 := After(w2, AGAIN);
    var w4 := After(w3, UNSEEN);
    AfterAppend(w0, first, BACK + (AGAIN + (UNSEEN + (REGISTERING + STALE))));
    AfterAppend(w1, BACK, AGAIN + (UNSEEN + (REGISTERING + STALE)));
    AfterAppend(w2, AGAIN, UNSEEN + (REGISTERING + STALE));
    AfterAppend(w3, UNSEEN, REGISTERING + STALE);
    AfterAppend(w4, REGISTERING, STALE);
    Back();
    Again();
    Unseen();
    Registers(FILE, "f", Info(1, map[]), {ROOT}, GONE, [MADE]);
    assert [GONE] + [MADE] == [GONE, MADE];
    Stale();
    NothingLeft();
  }

  lemma Back()
    ensures After(World(Table(BOTH, {}), {ROOT}, [], Registered(FILE, true, false)), BACK) ==
            World(Table(BOTH, {ROOT, FILE}), {ROOT, FILE}, [MADE], ReAdded(FILE, false))
  {
    hide After;
    assert Dir(FILE) == ROOT;
    var w0 := World(Table(BOTH, {}), {ROOT}, [], Registered(FILE, true, false));
    var w1 := w0.(table := Table(BOTH, {ROOT}), at := ParentWatched(FILE, false));
    var w2 := w1.(files := {ROOT, FILE}, queue := [MADE]);
    var w3 := w2.(table := Table(BOTH, {ROOT, FILE}), at := ReAdded(FILE, false));
    assert Next(w0, GO) == w1 && Next(w1, Appear(FILE)) == w2 && Next(w2, GO) == w3;
    Chain([w0, w1, w2, w3], BACK);
  }

  lemma Again()
    ensures After(World(Table(BOTH, {ROOT, FILE}), {ROOT, FILE}, [MADE], ReAdded(FILE, false)), AGAIN) ==
            World(Table(ALONE, {}), {ROOT, FILE}, [MADE, GONE, MADE], Idle)
  {
    hide After, Thin, SettleOp, RemoveFirst, PopOp;
    assert Dir(FILE) == ROOT && |ROOT| != |FILE|;
    var w0 := World(Table(BOTH, {ROOT, FILE}), {ROOT, FILE}, [MADE], ReAdded(FILE, false));
    var w1 := w0.(table := Table(BOTH, {ROOT}), files := {ROOT}, queue := [MADE, GONE]);
    var w2 := w1.(files := {ROOT, FILE}, queue := [MADE, GONE, MADE]);
    var w3 := w2.(table := Table(ALONE, {}), at := Idle);
    assert Next(w0, AGAIN[0]) == w1 by { assert [MADE] + ([] + [GONE]) == [MADE, GONE]; }
    assert Next(w1, AGAIN[1]) == w2;
    SettleOfFile({ROOT});
    ThinNone(w2.queue, ROOT);
    assert Next(w2, GO) == w3;
    Chain([w0, w1, w2, w3], AGAIN);
  }

  lemma SettleOfFile(kernel: set<Path>)
    ensures SettleOp(Table(BOTH, kernel), FILE) == Table(ALONE, kernel - {ROOT})
  {
    assert Dir(FILE) == ROOT && Base(FILE) == "f" && |ROOT| != |FILE|;
    assert RemoveFirst([FILE], FILE) == [];
    assert BOTH[ROOT].pending - {"f"} == map[];
    assert BOTH[ROOT := Info(0, map[])] - {ROOT} == ALONE;
  }

  lemma {:induction false} ThinNone(queue: seq<Event>, source: Path)
    ensures Thin(queue, source, {}) == queue
  {
    if queue != [] {
      var n := |queue| - 1;
      ThinNone(queue[..n], source);
      assert n !in {} && queue == queue[..n] + [queue[n]];
    }
  }

  lemma Unseen()
    ensures After(World(Table(ALONE, {}), {ROOT, FILE}, [MADE, GONE, MADE], Idle), UNSEEN) ==
            World(Table(ALONE, {}), {ROOT}, [GONE, MADE], Idle)
  {
    hide After;
    assert Dir(FILE) == ROOT && Base(FILE) == "f" && |ROOT| != |FILE|;
    var w0 := World(Table(ALONE, {}), {ROOT, FILE}, [MADE, GONE, MADE], Idle);
    var w1 := w0.(files := {ROOT});
    var w2 := w1.(queue := [GONE, MADE], at := Handling(MADE));
    var w3 := w2.(at := Popping(FILE));
    var w4 := w3.(at := Idle);
    assert [MADE, GONE, MADE][1..] == [GONE, MADE];
    assert Next(w0, UNSEEN[0]) == w1 by { assert w0.queue + ([] + []) == w0.queue; }
    assert Next(w1, GO) == w2 && Next(w2, GO) == w3 && Next(w3, GO) == w4;
    Chain([w0, w1, w2, w3, w4], UNSEEN);
  }

  lemma Stale()
    ensures After(World(Table(BOTH, {}), {ROOT}, [MADE], Registered(FILE, true, false)), STALE) ==
            World(Table(ALONE, {}), {ROOT}, [], Idle)
  {
    hide After;
    assert Dir(FILE) == ROOT && Base(FILE) == "f";
    var w0 := World(Table(BOTH, {}), {ROOT}, [MADE], Registered(FILE, true, false));
    var w1 := w0.(table := Table(BOTH, {ROOT}), at := ParentWatched(FILE, false));
    var w2 := w1.(at := Idle);
    var w3 := w2.(queue := [], at := Handling(MADE));
    var w4 := w3.(at := Popping(FILE));
    var w5 := World(Table(ALONE, {}), {ROOT}, [], Idle);
    PopOfFile({ROOT});
    assert Next(w0, GO) == w1 && Next(w1, GO) == w2 && Next(w2, GO) == w3 && Next(w3, GO) == w4;
    assert Next(w4, GO) == w5;
    Chain([w0, w1, w2, w3, w4, w5], STALE);
  }

  // ---------------------------------------------------------------- a Watch without an Add

  /** A directory with a registration below it is deleted, */
  const DELETED := [WatchStep(DIR), WatchPendingStep(DIR, CHILD), Vanish(DIR, Removed, true)]

  /** and given up before the loop gets to it. */
  const GIVEN_UP := [UnwatchStep(DIR, true, {}), GO, GO]

  /** When it comes back, Watch finds the registration and leaves out the Add. */
  const COMES_BACK := [Appear(DIR), WatchStep(DIR)]

  function Below(refCount: int): map<Path, Info> {
    map[DIR := Info(refCount, map["c" := [CHILD]])]
  }

  const DIR_GONE := Event(Removed, DIR, DIR)

  lemma SkippedAddForgets()
    ensures Lost(After(Quiet({ROOT, DIR}), DELETED + (GIVEN_UP + COMES_BACK)), DIR)
  {
    hide Lost, Enabled, Next, After;
    AfterAppend(Quiet({ROOT, DIR}), DELETED, GIVEN_UP + COMES_BACK);
    DirectoryDeleted();
    AfterAppend(After(Quiet({ROOT, DIR}), DELETED), GIVEN_UP, COMES_BACK);
    DirectoryGivenUp();
    DirectoryBack();
    DirectoryLost();
  }

  lemma DirectoryDeleted()
    ensures After(Quiet({ROOT, DIR}), DELETED) == World(Table(Below(1), {}), {ROOT}, [DIR_GONE], Idle)
  {
    hide After;
    var w1 := World(Table(map[DIR := Info(1, map[])], {DIR}), {ROOT, DIR}, [], Idle);
    var w2 := w1.(table := Table(Below(1), {DIR}));
    var w3 := World(Table(Below(1), {}), {ROOT}, [DIR_GONE], Idle);
    ChildBelow();
    assert Dir(DIR) == ROOT;
    assert Next(Quiet({ROOT, DIR}), DELETED[0]) == w1 && Next(w1, DELETED[1]) == w2;
    assert Next(w2, DELETED[2]) == w3;
    Chain([Quiet({ROOT, DIR}), w1, w2, w3], DELETED);
  }

  lemma DirectoryGivenUp()
    ensures After(World(Table(Below(1), {}), {ROOT}, [DIR_GONE], Idle), GIVEN_UP) ==
            World(Table(Below(0), {}), {ROOT}, [], Idle)
  {
    hide After;
    var w0 := World(Table(Below(1), {}), {ROOT}, [DIR_GONE], Idle);
    var w1 := w0.(table := Table(Below(0), {}));
    var w2 := w1.(queue := [], at := Handling(DIR_GONE));
    var w3 := w2.(at := Idle);
    assert Dir(DIR) == ROOT && |ROOT| != |DIR|;
    ChildBelow();
    assert Next(w0, GIVEN_UP[0]) == w1 && Next(w1, GO) == w2 && Next(w2, GO) == w3;
    Chain([w0, w1, w2, w3], GIVEN_UP);
  }

  lemma DirectoryBack()
    ensures After(World(Table(Below(0), {}), {ROOT}, [], Idle), COMES_BACK) ==
            World(Table(Below(1), {}), {ROOT, DIR}, [], Idle)
  {
    hide After;
    assert Dir(DIR) == ROOT && |ROOT| != |DIR|;
    var w0 := World(Table(Below(0), {}), {ROOT}, [], Idle);
    var w1 := w0.(files := {ROOT, DIR});
    var w2 := w1.(table := Table(Below(1), {}));
    ChildBelow();
    assert Next(w0, Appear(DIR)) == w1 && Next(w1, WatchStep(DIR)) == w2;
    Chain([w0, w1, w2], COMES_BACK);
  }

  lemma DirectoryLost()
    ensures Lost(World(Table(Below(1), {}), {ROOT, DIR}, [], Idle), DIR)
  {
    assert Dir(DIR) == ROOT && |ROOT| != |DIR|;
  }

  lemma ChildBelow()
    ensures ChildOf(DIR, CHILD) == "c" && AddPending(Info(1, map[]), "c", CHILD) == Below(1)[DIR]
    ensures AddPending(Info(0, map[]), "c", CHILD) == Below(0)[DIR]
    ensures Below(0)[DIR].pending == Below(1)[DIR].pending != map[]
  {
    assert "c" in Below(0)[DIR].pending;
    assert PendingFor(Info(1, map[]), "c") + [CHILD] == [CHILD] == PendingFor(Info(0, map[]), "c") + [CHILD];
  }

  // ---------------------------------------------------------------- cleared registrations

  /** While the loop looks for the deleted directory, it is given up, */
  const FOUND_MISSING := [GO, UnwatchStep(DIR, true, {})]

  /** everything is cleared, */
  const CLEARED := [ClearStep]

  /** and watched anew; then the loop does not find it. */
  const ANEW := [WatchPendingStep(DIR, CHILD), WatchStep(DIR), GO]

  lemma ClearedRegistrationForgets()
    ensures var w := After(Quiet({ROOT, DIR}), DELETED + (REGISTERING + (FOUND_MISSING + (CLEARED + ANEW))));
            Forgotten(w, DIR) && w.queue == [] && w.at == Idle
  {
    hide Enabled, Next, After;
    var w0 := Quiet({ROOT, DIR});
    var w1 := After(w0, DELETED);
    var w2 := After(w1, REGISTERING);
    AfterAppend(w0, DELETED, REGISTERING + (FOUND_MISSING + (CLEARED + ANEW)));
    AfterAppend(w1, REGISTERING, FOUND_MISSING + (CLEARED + ANEW));
    AfterAppend(w2, FOUND_MISSING, CLEARED + ANEW);
    AfterAppend(After(w2, FOUND_MISSING), CLEARED, ANEW);
    DirectoryDeleted();
    Registers(DIR, "d", Below(1)[DIR], {ROOT}, DIR_GONE, []);
    assert [DIR_GONE] + [] == [DIR_GONE];
    assert map[DIR := Below(1)[DIR]] == Below(1);
    FoundMissing();
    Cleared();
    Anew();
    assert Dir(DIR) == ROOT && |ROOT| != |DIR|;
  }

  function AndRoot(info: Info, pending: map<string, seq<Path>>): map<Path, Info> {
    map[DIR := info, ROOT := Info(0, pending)]
  }

  const LISTED := map["d" := [DIR]]

  lemma FoundMissing()
    ensures var w := World(Table(AndRoot(Below(1)[DIR], LISTED), {}), {ROOT}, [], Registered(DIR, true, false));
            After(w, FOUND_MISSING) ==
            World(Table(AndRoot(Below(0)[DIR], LISTED), {ROOT}), {ROOT}, [], ParentWatched(DIR, false))
  {
    hide After, Thin, SettleOp, PopOp, RegisterOp;
    assert Dir(DIR) == ROOT && |ROOT| != |DIR|;
    var w0 := World(Table(AndRoot(Below(1)[DIR], LISTED), {}), {ROOT}, [], Registered(DIR, true, false));
    var w1 := w0.(table := Table(AndRoot(Below(1)[DIR], LISTED), {ROOT}), at := ParentWatched(DIR, false));
    var w2 := w1.(table := Table(AndRoot(Below(0)[DIR], LISTED), {ROOT}));
    ChildBelow();
    assert Next(w0, GO) == w1 && Next(w1, FOUND_MISSING[1]) == w2;
    Chain([w0, w1, w2], FOUND_MISSING);
  }

  lemma Cleared()
    ensures var w := World(Table(AndRoot(Below(0)[DIR], LISTED), {ROOT}), {ROOT}, [], ParentWatched(DIR, false));
            After(w, CLEARED) ==
            World(Table(AndRoot(Info(0, map[]), map[]), {ROOT}), {ROOT}, [], ParentWatched(DIR, false))
  {
    hide After;
    assert |ROOT| != |DIR|;
    var w0 := World(Table(AndRoot(Below(0)[DIR], LISTED), {ROOT}), {ROOT}, [], ParentWatched(DIR, false));
    var w1 := w0.(table := Table(AndRoot(Info(0, map[]), map[]), {ROOT}));
    assert Next(w0, ClearStep) == w1;
    Chain([w0, w1], CLEARED);
  }

  lemma Anew()
    ensures After(World(Table(AndRoot(Info(0, map[]), map[]), {ROOT}), {ROOT}, [], ParentWatched(DIR, false)), ANEW) ==
            World(Table(AndRoot(Below(1)[DIR], map[]), {ROOT}), {ROOT}, [], Idle)
  {
    hide After;
    assert |ROOT| != |DIR|;
    var w0 := World(Table(AndRoot(Info(0, map[]), map[]), {ROOT}), {ROOT}, [], ParentWatched(DIR, false));
    var w1 := w0.(table := Table(AndRoot(Below(0)[DIR], map[]), {ROOT}));
    var w2 := w1.(table := Table(AndRoot(Below(1)[DIR], map[]), {ROOT}));
    var w3 := w2.(at := Idle);
    ChildBelow();
    assert Next(w0, ANEW[0]) == w1 && Next(w1, ANEW[1]) == w2 && Next(w2, GO) == w3;
    Chain([w0, w1, w2, w3], ANEW);
  }

  // ---------------------------------------------------------------- a lost reference

  /** While the loop is about to clean up after FILE came back, FILE is given up and all is cleared, */
  const FREED := [UnwatchStep(FILE, true, {}), ClearStep]

  /** and its directory is watched, given up and watched again. */
  const RENEWED := [WatchStep(ROOT), UnwatchStep(ROOT, true, {}), WatchStep(ROOT)]

  /** The loop refers to the first entry of the directory; the table has a new one. */
  const RENEWED_WORLD := World(Table(ONLY_ROOT, {ROOT}), {ROOT, FILE}, [MADE], ReAdded(FILE, true))

  /** The cleanup then drops the new entry, which holds a reference, and its watch. */
  lemma CleanupDropsReference()
    ensures var run := ([WatchStep(FILE), Vanish(FILE, Removed, true)] + REGISTERING) + (BACK + (FREED + RENEWED));
            var w := After(Quiet({ROOT, FILE}), run);
            && DirectlyWatched(w.table, ROOT) && ROOT in w.table.kernel
            && Enabled(w, GO) && Next(w, GO).table == Table(map[], {})
  {
    hide Enabled, Next, After;
    ReachesRenewed();
    DropsReference();
  }

  lemma ReachesRenewed()
    ensures var run := ([WatchStep(FILE), Vanish(FILE, Removed, true)] + REGISTERING) + (BACK + (FREED + RENEWED));
            After(Quiet({ROOT, FILE}), run) == RENEWED_WORLD
  {
    hide Enabled, Next, After;
    var w0, first := Quiet({ROOT, FILE}), [WatchStep(FILE), Vanish(FILE, Removed, true)] + REGISTERING;
    DeletedAndRegistered({ROOT, FILE});
    assert {ROOT, FILE} - {FILE} == {ROOT};
    AfterAppend(w0, first, BACK + (FREED + RENEWED));
    AfterAppend(After(w0, first), BACK, FREED + RENEWED);
    AfterAppend(After(After(w0, first), BACK), FREED, RENEWED);
    Back();
    Freed();
    Renewed();
  }

  const EMPTY_ROOT := map[ROOT := Info(0, map[])]
  const ONLY_ROOT := map[ROOT := Info(1, map[])]

  lemma Freed()
    ensures After(World(Table(BOTH, {ROOT, FILE}), {ROOT, FILE}, [MADE], ReAdded(FILE, false)), FREED) ==
            World(Table(EMPTY_ROOT, {ROOT}), {ROOT, FILE}, [MADE], ReAdded(FILE, false))
  {
    hide After;
    assert Dir(FILE) == ROOT && |ROOT| != |FILE|;
    var w0 := World(Table(BOTH, {ROOT, FILE}), {ROOT, FILE}, [MADE], ReAdded(FILE, false));
    var w1 := w0.(table := Table(map[ROOT := Waiting("f", FILE)], {ROOT}));
    var w2 := w1.(table := Table(EMPTY_ROOT, {ROOT}));
    ThinNone([MADE], FILE);
    assert BOTH - {FILE} == map[ROOT := Waiting("f", FILE)];
    assert Next(w0, FREED[0]) == w1 && Next(w1, ClearStep) == w2;
    Chain([w0, w1, w2], FREED);
  }

  lemma Renewed()
    ensures After(World(Table(EMPTY_ROOT, {ROOT}), {ROOT, FILE}, [MADE], ReAdded(FILE, false)), RENEWED) ==
            World(Table(ONLY_ROOT, {ROOT}), {ROOT, FILE}, [MADE], ReAdded(FILE, true))
  {
    hide After, Thin, SettleOp, RemoveFirst, PopOp, RegisterOp;
    assert Dir(FILE) == ROOT;
    var w0 := World(Table(EMPTY_ROOT, {ROOT}), {ROOT, FILE}, [MADE], ReAdded(FILE, false));
    var w1 := w0.(table := Table(ONLY_ROOT, {ROOT}));
    var w2 := w1.(table := Table(map[], {}), at := ReAdded(FILE, true));
    var w3 := w2.(table := Table(ONLY_ROOT, {ROOT}));
    ThinNone([MADE], ROOT);
    assert Next(w0, RENEWED[0]) == w1 && Next(w1, RENEWED[1]) == w2 && Next(w2, RENEWED[2]) == w3;
    Chain([w0, w1, w2, w3], RENEWED);
  }

  lemma DropsReference()
    ensures Enabled(RENEWED_WORLD, GO) && Next(RENEWED_WORLD, GO).table == Table(map[], {})
  {
    assert Dir(FILE) == ROOT;
  }

  const OTHER: Path := ["g"]

  /**
    The same cleanup takes a registration that was made after the last clear and that no pop has
    returned; the creation then raises no event.
   */
  lemma CleanupDropsRegistration()
    ensures var run := ([WatchStep(FILE), Vanish(FILE, Removed, true)] + REGISTERING) + (BACK + (FREED + RENEWED));
            var before := After(Quiet({ROOT, FILE}), run + [WatchPendingStep(ROOT, OTHER)]);
            var after := After(Quiet({ROOT, FILE}), run + [WatchPendingStep(ROOT, OTHER), GO]);
            && PendingFor(InfoOf(before.table, ROOT), "g") == [OTHER]
            && after.table == Table(map[], {}) && OTHER !in after.files
            && Next(after, Appear(OTHER)).queue == after.queue
  {
    hide Enabled, Next, After;
    var w0, first := Quiet({ROOT, FILE}), [WatchStep(FILE), Vanish(FILE, Removed, true)] + REGISTERING;
    var run := first + (BACK + (FREED + RENEWED));
    ReachesRenewed();
    AfterAppend(w0, run, [WatchPendingStep(ROOT, OTHER)]);
    AfterAppend(w0, run, [WatchPendingStep(ROOT, OTHER), GO]);
    DropsRegistration();
  }

  lemma DropsRegistration()
    ensures var before := After(RENEWED_WORLD, [WatchPendingStep(ROOT, OTHER)]);
            var after := After(RENEWED_WORLD, [WatchPendingStep(ROOT, OTHER), GO]);
            && PendingFor(InfoOf(before.table, ROOT), "g") == [OTHER]
            && after.table == Table(map[], {}) && OTHER !in after.files
            && Next(after, Appear(OTHER)).queue == after.queue
  {
    hide After, Thin;
    assert Dir(FILE) == ROOT && ChildOf(ROOT, OTHER) == "g";
    var w1 := RENEWED_WORLD.(table := Table(map[ROOT := Info(1, map["g" := [OTHER]])], {ROOT}));
    var w2 := RENEWED_WORLD.(table := Table(map[], {}), at := Idle);
    assert PendingFor(Info(1, map[]), "g") + [OTHER] == [OTHER];
    ThinNone([MADE], ROOT);
    assert Next(RENEWED_WORLD, WatchPendingStep(ROOT, OTHER)) == w1 && Next(w1, GO) == w2;
    Chain([RENEWED_WORLD, w1], [WatchPendingStep(ROOT, OTHER)]);
    Chain([RENEWED_WORLD, w1, w2], [WatchPendingStep(ROOT, OTHER), GO]);
    assert OTHER != ROOT && OTHER != FILE && Dir(OTHER) == ROOT && [MADE] + [] == [MADE];
  }

  // ---------------------------------------------------------------- a silent replacement

  const WATCHED := [WatchStep(ROOT), WatchStep(FILE)]

  /** FILE's own watch goes with the old file and leaves the report to the directory's watch. */
  const REPLACED := [Replace(FILE, false, false)]

  /** The loop handles the Create and pops nothing. */
  const IN_VAIN := [GO, GO, GO]

  lemma SilentReplacementForgets()
    ensures var w := After(Quiet({ROOT, FILE}), WATCHED + (REPLACED + IN_VAIN));
            Forgotten(w, FILE) && w.queue == [] && w.at == Idle
  {
    hide Enabled, Next, After;
    AfterAppend(Quiet({ROOT, FILE}), WATCHED, REPLACED + IN_VAIN);
    AfterAppend(After(Quiet({ROOT, FILE}), WATCHED), REPLACED, IN_VAIN);
    BothWatched();
    Replaced();
    InVain();
    assert Dir(FILE) == ROOT && |ROOT| != |FILE|;
  }

  const TWO := map[ROOT := Info(1, map[]), FILE := Info(1, map[])]

  lemma BothWatched()
    ensures After(Quiet({ROOT, FILE}), WATCHED) == World(Table(TWO, {ROOT, FILE}), {ROOT, FILE}, [], Idle)
  {
    hide After;
    assert |ROOT| != |FILE|;
    var w0, w1 := Quiet({ROOT, FILE}), World(Table(map[ROOT := Info(1, map[])], {ROOT}), {ROOT, FILE}, [], Idle);
    var w2 := w1.(table := Table(TWO, {ROOT, FILE}));
    assert Next(w0, WATCHED[0]) == w1 && Next(w1, WATCHED[1]) == w2;
    Chain([w0, w1, w2], WATCHED);
  }

  lemma Replaced()
    ensures After(World(Table(TWO, {ROOT, FILE}), {ROOT, FILE}, [], Idle), REPLACED) ==
            World(Table(TWO, {ROOT}), {ROOT, FILE}, [MADE], Idle)
  {
    hide After;
    assert Dir(FILE) == ROOT && |ROOT| != |FILE|;
    var w0 := World(Table(TWO, {ROOT, FILE}), {ROOT, FILE}, [], Idle);
    var w1 := w0.(table := Table(TWO, {ROOT}), queue := [MADE]);
    assert Next(w0, REPLACED[0]) == w1;
    Chain([w0, w1], REPLACED);
  }

  lemma InVain()
    ensures After(World(Table(TWO, {ROOT}), {ROOT, FILE}, [MADE], Idle), IN_VAIN) ==
            World(Table(TWO, {ROOT}), {ROOT, FILE}, [], Idle)
  {
    hide After;
    assert Dir(FILE) == ROOT && Base(FILE) == "f";
    var w0 := World(Table(TWO, {ROOT}), {ROOT, FILE}, [MADE], Idle);
    var w1 := w0.(queue := [], at := Handling(MADE));
    var w2 := w1.(at := Popping(FILE));
    var w3 := w2.(at := Idle);
    assert PopOp(w2.table, ROOT, "f") == (w2.table, []) by {
      assert TWO[ROOT].pending - {"f"} == map[] && TWO[ROOT := Info(1, map[])] == TWO;
    }
    assert Next(w0, GO) == w1 && Next(w1, GO) == w2 && Next(w2, GO) == w3;
    Chain([w0, w1, w2, w3], IN_VAIN);
  }
}
