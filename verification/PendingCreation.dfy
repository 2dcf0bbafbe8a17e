/**
  Waiting for a path that does not exist: where WatchPendingFile stops, why the creation of the path
  cannot slip by, and what the pop then returns.
 */
module PendingCreation {
  import opened WatchTable

  datatype Kind = File | Directory

  /** The file tree; everything but the root has a directory above it. */
  type Tree = map<Path, Kind>

  predicate IsDir(t: Tree, p: Path) {
    p in t && t[p] == Directory
  }

  predicate WellFormed(t: Tree) {
    IsDir(t, []) && forall p :: p in t ==> IsDir(t, Dir(p))
  }

  lemma RootIsDir(t: Tree)
    requires WellFormed(t)
    ensures IsDir(t, [])
  {
  }

  lemma ParentIsDir(t: Tree, p: Path)
    requires WellFormed(t) && p in t
    ensures IsDir(t, Dir(p))
  {
  }

  /** WatchPendingFile's walk up to the closest existing directory. */
  method ClosestDirectory(t: Tree, filePath: Path) returns (ancestor: Path)
    requires WellFormed(t)
    ensures ancestor <= Dir(filePath) && IsDir(t, ancestor)
    ensures forall q :: ancestor < q && q < filePath ==> !IsDir(t, q)
  {
    RootIsDir(t);
    hide WellFormed, IsDir;
    ancestor := Dir(filePath);
    while ancestor != [] && !IsDir(t, ancestor)
      invariant ancestor <= Dir(filePath)
      invariant forall q :: ancestor < q && q < filePath ==> !IsDir(t, q)
      decreases |ancestor|
    {
      forall q | Dir(ancestor) < q && q < filePath
        ensures !IsDir(t, q)
      {
        Longer(ancestor, q, filePath);
      }
      ancestor := Dir(ancestor);
    }
  }

  lemma Longer(a: Path, q: Path, p: Path)
    requires a <= Dir(p) && q < p && Dir(a) < q
    ensures q == a || a < q
  {
  }

  // ---------------------------------------------------------------- the creation

  /** One change of the tree: a subtree goes, or arrives at path as a whole. */
  datatype Change =
    | Remove(path: Path)
    | Create(path: Path, content: Tree)

  /** What arrives is rooted at path; it may replace a file, as a rename does, but no directory. */
  predicate Possible(t: Tree, c: Change) {
    match c
    case Remove(p) => p in t && p != []
    case Create(p, content) =>
      && p != [] && !IsDir(t, p) && IsDir(t, Dir(p)) && p in content
      && forall q :: q in content ==> p <= q && (q != p ==> IsDir(content, Dir(q)))
  }

  function Changed(t: Tree, c: Change): Tree
    requires Possible(t, c)
  {
    match c
    case Remove(p) => map q | q in t && !(p <= q) :: t[q]
    case Create(p, content) => t + content
  }

  /** The tree after the changes; impossible ones do not happen. */
  function After(t: Tree, cs: seq<Change>): Tree
    decreases cs
  {
    if cs == [] then t
    else if Possible(t, cs[0]) then After(Changed(t, cs[0]), cs[1..])
    else After(t, cs[1..])
  }

  /** Some change that happens creates path. */
  predicate Creates(t: Tree, cs: seq<Change>, path: Path)
    decreases cs
  {
    cs != [] &&
    if Possible(t, cs[0])
    then (cs[0].Create? && cs[0].path == path) || Creates(Changed(t, cs[0]), cs[1..], path)
    else Creates(t, cs[1..], path)
  }

  /** The watched child of the ancestor on the way to filePath. */
  function Child(ancestor: Path, filePath: Path): Path
    requires ancestor < filePath
  {
    filePath[..|ancestor| + 1]
  }

  /** filePath cannot exist yet: it is the child and absent, or the child is no directory. */
  predicate Waiting(t: Tree, ancestor: Path, filePath: Path)
    requires ancestor < filePath
  {
    && IsDir(t, ancestor)
    && if Child(ancestor, filePath) == filePath then filePath !in t else !IsDir(t, Child(ancestor, filePath))
  }

  /**
    While the ancestor stays, no run of changes brings filePath into being without a creation of
    the ancestor's child, which is what the watch on the ancestor reports.
   */
  lemma {:induction false} CreationIsSeen(t: Tree, cs: seq<Change>, ancestor: Path, filePath: Path)
    requires WellFormed(t) && ancestor < filePath && Waiting(t, ancestor, filePath)
    requires forall c :: c in cs && c.Remove? ==> !(c.path <= ancestor)
    requires filePath in After(t, cs)
    ensures Creates(t, cs, Child(ancestor, filePath))
    decreases cs
  {
    hide WellFormed;
    if cs == [] {
      Above(t, filePath, Child(ancestor, filePath));
    } else if Possible(t, cs[0]) {
      ChangeWellFormed(t, cs[0]);
      if !(cs[0].Create? && cs[0].path == Child(ancestor, filePath)) {
        StillWaiting(t, cs[0], ancestor, filePath);
        CreationIsSeen(Changed(t, cs[0]), cs[1..], ancestor, filePath);
      }
    } else {
      CreationIsSeen(t, cs[1..], ancestor, filePath);
    }
  }

  /**
    Between the walk and the watch on the ancestor nothing is reported. A later creation of the file can
    go unseen if and only if by the end of that window the child is there, as a file in its place or as
    a directory; t is the tree at the end of the window.
   */
  lemma UnseenExactly(t: Tree, ancestor: Path, filePath: Path)
    requires WellFormed(t) && ancestor < filePath && IsDir(t, ancestor)
    ensures !Waiting(t, ancestor, filePath) <==> exists cs :: ComesUnseen(t, cs, ancestor, filePath)
  {
    if Waiting(t, ancestor, filePath) {
      forall cs | ComesUnseen(t, cs, ancestor, filePath)
        ensures false
      {
        CreationIsSeen(t, cs, ancestor, filePath);
      }
    } else {
      ComesBelow(t, ancestor, filePath);
    }
  }

  /** The changes leave the ancestor, bring the file into being, and do not create the child. */
  ghost predicate ComesUnseen(t: Tree, cs: seq<Change>, ancestor: Path, filePath: Path)
    requires ancestor < filePath
  {
    && (forall c :: c in cs && c.Remove? ==> !(c.path <= ancestor))
    && filePath in After(t, cs) && !Creates(t, cs, Child(ancestor, filePath))
  }

  /** And the window is to blame: the child was created in it. */
  lemma CreatedInWindow(t: Tree, cs: seq<Change>, ancestor: Path, filePath: Path)
    requires WellFormed(t) && ancestor < filePath && Waiting(t, ancestor, filePath)
    requires forall c :: c in cs && c.Remove? ==> !(c.path <= ancestor)
    ensures WellFormed(After(t, cs)) && IsDir(After(t, cs), ancestor)
    ensures !Waiting(After(t, cs), ancestor, filePath) ==> Creates(t, cs, Child(ancestor, filePath))
    decreases cs
  {
    hide WellFormed;
    if cs != [] {
      if Possible(t, cs[0]) {
        ChangeWellFormed(t, cs[0]);
        StillDir(t, cs[0], ancestor);
        if cs[0].Create? && cs[0].path == Child(ancestor, filePath) {
          KeepsDir(Changed(t, cs[0]), cs[1..], ancestor);
        } else {
          StillWaiting(t, cs[0], ancestor, filePath);
          CreatedInWindow(Changed(t, cs[0]), cs[1..], ancestor, filePath);
        }
      } else {
        CreatedInWindow(t, cs[1..], ancestor, filePath);
      }
    }
  }

  lemma {:induction false} KeepsDir(t: Tree, cs: seq<Change>, ancestor: Path)
    requires WellFormed(t) && IsDir(t, ancestor)
    requires forall c :: c in cs && c.Remove? ==> !(c.path <= ancestor)
    ensures WellFormed(After(t, cs)) && IsDir(After(t, cs), ancestor)
    decreases cs
  {
    hide WellFormed;
    if cs != [] {
      if Possible(t, cs[0]) {
        ChangeWellFormed(t, cs[0]);
        StillDir(t, cs[0], ancestor);
        KeepsDir(Changed(t, cs[0]), cs[1..], ancestor);
      } else {
        KeepsDir(t, cs[1..], ancestor);
      }
    }
  }

  lemma StillDir(t: Tree, c: Change, ancestor: Path)
    requires WellFormed(t) && Possible(t, c) && IsDir(t, ancestor)
    requires c.Remove? ==> !(c.path <= ancestor)
    ensures IsDir(Changed(t, c), ancestor)
  {
    hide WellFormed;
    if c.Create? {
      OutsideContent(t, c, ancestor);
    }
  }

  /** With the child there, what is missing below it can arrive at once. */
  lemma ComesBelow(t: Tree, ancestor: Path, filePath: Path)
    requires WellFormed(t) && ancestor < filePath && IsDir(t, ancestor) && !Waiting(t, ancestor, filePath)
    ensures exists cs :: ComesUnseen(t, cs, ancestor, filePath)
  {
    hide WellFormed;
    if filePath in t {
      assert ComesUnseen(t, [], ancestor, filePath);
    } else {
      var deepest := DeepestBelow(t, Child(ancestor, filePath), filePath);
      var path := Child(deepest, filePath);
      var c := Create(path, Chain(path, filePath));
      ChainArrives(t, deepest, filePath);
      assert [c][0] == c && [c][1..] == [] && path != Child(ancestor, filePath);
      assert After(t, [c]) == After(Changed(t, c), []) == Changed(t, c);
      assert !Creates(Changed(t, c), [], Child(ancestor, filePath));
      assert ComesUnseen(t, [c], ancestor, filePath);
    }
  }

  /** The directories on the way from path down to filePath, and the file. */
  function Chain(path: Path, filePath: Path): Tree
    requires path <= filePath
  {
    var onTheWay := set n: nat | |path| <= n <= |filePath| :: filePath[..n];
    map q | q in onTheWay :: if q == filePath then File else Directory
  }

  lemma ChainArrives(t: Tree, deepest: Path, filePath: Path)
    requires deepest < filePath && IsDir(t, deepest) && !IsDir(t, Child(deepest, filePath))
    ensures var path := Child(deepest, filePath);
            Possible(t, Create(path, Chain(path, filePath))) && filePath in Chain(path, filePath)
  {
    var path := Child(deepest, filePath);
    var chain := Chain(path, filePath);
    assert filePath[..|filePath|] == filePath && filePath[..|path|] == path && Dir(path) == deepest;
    forall q | q in chain
      ensures path <= q && (q != path ==> IsDir(chain, Dir(q)))
    {
      var n: nat :| |path| <= n <= |filePath| && q == filePath[..n];
      if q != path {
        assert Dir(q) == filePath[..n - 1] && Dir(q) in chain;
      }
    }
  }

  /** The deepest directory from d on down to filePath. */
  lemma DeepestBelow(t: Tree, d: Path, filePath: Path) returns (deepest: Path)
    requires d < filePath && IsDir(t, d) && filePath !in t
    ensures d <= deepest < filePath && IsDir(t, deepest) && !IsDir(t, Child(deepest, filePath))
    decreases |filePath| - |d|
  {
    if IsDir(t, Child(d, filePath)) {
      assert Child(d, filePath) <= filePath && Child(d, filePath) != filePath;
      deepest := DeepestBelow(t, Child(d, filePath), filePath);
    } else {
      deepest := d;
    }
  }

  /** Where the walk stops, an absent file is waited for. */
  lemma WalkWaits(t: Tree, ancestor: Path, filePath: Path)
    requires ancestor < filePath && IsDir(t, ancestor) && filePath !in t
    requires forall q :: ancestor < q && q < filePath ==> !IsDir(t, q)
    ensures Waiting(t, ancestor, filePath)
    ensures ChildOf(ancestor, filePath) == Base(Child(ancestor, filePath)) && Dir(Child(ancestor, filePath)) == ancestor
  {
  }

  lemma {:induction false} Above(t: Tree, p: Path, q: Path)
    requires WellFormed(t) && p in t && q <= p
    ensures q in t && (q != p ==> IsDir(t, q))
    decreases |p|
  {
    if q != p {
      ParentIsDir(t, p);
      PrefixOfDir(q, p);
      hide *;
      Above(t, Dir(p), q);
    }
  }

  lemma ChangeWellFormed(t: Tree, c: Change)
    requires WellFormed(t) && Possible(t, c)
    ensures WellFormed(Changed(t, c))
  {
    if c.Remove? {
      RemoveWellFormed(t, c.path);
    } else {
      forall q | q in Changed(t, c)
        ensures IsDir(Changed(t, c), Dir(q))
      {
        CreateWellFormed(t, c, q);
      }
    }
  }

  lemma RemoveWellFormed(t: Tree, p: Path)
    requires WellFormed(t) && p in t && p != []
    ensures WellFormed(Changed(t, Remove(p)))
  {
    var t' := Changed(t, Remove(p));
    forall q | q in t'
      ensures IsDir(t', Dir(q))
    {
      PrefixOfDir(p, q);
    }
  }

  lemma PrefixOfDir(p: Path, q: Path)
    ensures p <= Dir(q) ==> p <= q
    ensures p <= q && p != q ==> p <= Dir(q) && |Dir(q)| < |q|
  {
  }

  lemma CreateWellFormed(t: Tree, c: Change, q: Path)
    requires WellFormed(t) && Possible(t, c) && c.Create? && q in Changed(t, c)
    ensures IsDir(Changed(t, c), Dir(q))
  {
    hide WellFormed;
    if q in c.content && q != c.path {
      assert IsDir(c.content, Dir(q));
    } else {
      if q in t {
        ParentIsDir(t, q);
      }
      OutsideContent(t, c, Dir(q));
    }
  }

  /** What arrives touches no directory that is there. */
  lemma OutsideContent(t: Tree, c: Change, q: Path)
    requires WellFormed(t) && Possible(t, c) && c.Create? && IsDir(t, q)
    ensures q !in c.content
  {
    if q in c.content {
      BelowDir(t, c.path, q);
    }
  }

  lemma BelowDir(t: Tree, p: Path, q: Path)
    requires WellFormed(t) && IsDir(t, q) && p <= q
    ensures IsDir(t, p)
  {
    hide WellFormed;
    Above(t, q, p);
  }

  lemma StillWaiting(t: Tree, c: Change, ancestor: Path, filePath: Path)
    requires WellFormed(t) && Possible(t, c) && ancestor < filePath && Waiting(t, ancestor, filePath)
    requires c.Remove? ==> !(c.path <= ancestor)
    requires !(c.Create? && c.path == Child(ancestor, filePath))
    ensures Waiting(Changed(t, c), ancestor, filePath)
  {
    hide WellFormed;
    if c.Create? {
      OutsideContent(t, c, ancestor);
      ChildOutsideContent(t, c, ancestor, Child(ancestor, filePath));
    }
  }

  lemma ChildOutsideContent(t: Tree, c: Change, ancestor: Path, child: Path)
    requires WellFormed(t) && Possible(t, c) && c.Create? && IsDir(t, ancestor)
    requires ancestor <= child && |child| == |ancestor| + 1 && c.path != child
    ensures child !in c.content
  {
    if child in c.content {
      ShorterPrefix(c.path, ancestor, child);
      BelowDir(t, c.path, ancestor);
    }
  }

  lemma ShorterPrefix(p: Path, ancestor: Path, child: Path)
    requires ancestor <= child && |child| == |ancestor| + 1 && p != child && p <= child
    ensures p <= ancestor
  {
    assert child[..|p|] == p;
    assert |p| == |child| ==> p == child;
    assert ancestor[..|p|] == child[..|ancestor|][..|p|];
  }

  // ---------------------------------------------------------------- the pop

  function RunFrom(t: Table, ops: seq<Op>): Table {
    if ops == [] then t else Apply(RunFrom(t, ops[..|ops| - 1]), ops[|ops| - 1])
  }

  /** The operation neither clears the registrations nor pops those of this child. */
  predicate Leaves(op: Op, dir: Path, child: string) {
    && !op.ClearPending?
    && (op.Pop? ==> Dir(op.path) != dir || Base(op.path) != child)
  }

  /** The operation is the re-creation of the directly watched child itself. */
  predicate Recreates(t: Table, op: Op, dir: Path, child: string) {
    op.Recreate? && op.path == dir + [child] && DirectlyWatched(t, op.path)
  }

  /** The path that the operation leaves registered for the child, if it does. */
  function Added(t: Table, op: Op, dir: Path, child: string): seq<Path> {
    if op.WatchPending? && op.ancestor == dir && ChildOf(dir, op.path) == child then [op.path]
    else if Recreates(t, op, dir, child) && !op.back then [op.path]
    else []
  }

  /** The paths registered for the child by ops and not found back at once, oldest first. */
  function Registrations(t: Table, ops: seq<Op>, dir: Path, child: string): seq<Path> {
    if ops == [] then [] else
    var init := ops[..|ops| - 1];
    Registrations(t, init, dir, child) + Added(RunFrom(t, init), ops[|ops| - 1], dir, child)
  }

  function Pending(t: Table, dir: Path, child: string): seq<Path> {
    PendingFor(InfoOf(t, dir), child)
  }

  /**
    Whatever the watcher does otherwise, the pop for the child returns the paths registered for it
    since the last pop, once per registration, and leaves none.
   */
  lemma PopReturnsRegistrations(t: Table, ops: seq<Op>, dir: Path, child: string)
    requires child != "/" && Pending(t, dir, child) != [] && forall op :: op in ops ==> Leaves(op, dir, child)
    ensures var (after, popped) := PopOp(RunFrom(t, ops), dir, child);
            && multiset(popped) == multiset(Pending(t, dir, child) + Registrations(t, ops, dir, child))
            && PopOp(after, dir, child).1 == []
  {
    ListAfter(t, ops, dir, child);
  }

  /** A child found back takes its oldest registration away, though it was registered last. */
  predicate Reorders(t: Table, op: Op, dir: Path, child: string) {
    Recreates(t, op, dir, child) && op.back && Behind(Pending(t, dir, child), dir + [child])
  }

  /** Another path stands behind p's first place in the list. */
  predicate Behind(ps: seq<Path>, p: Path) {
    ps != [] && if ps[0] == p then Others(ps[1..], p) > 0 else Behind(ps[1..], p)
  }

  function Others(ps: seq<Path>, p: Path): nat {
    if ps == [] then 0 else (if ps[0] == p then 0 else 1) + Others(ps[1..], p)
  }

  predicate SomeReorders(t: Table, ops: seq<Op>, dir: Path, child: string) {
    ops != [] &&
      var init := ops[..|ops| - 1];
      SomeReorders(t, init, dir, child) || Reorders(RunFrom(t, init), ops[|ops| - 1], dir, child)
  }

  /** And it returns them in the order of registration if and only if no child found back reorders them. */
  lemma PopKeepsOrderExactly(t: Table, ops: seq<Op>, dir: Path, child: string)
    requires child != "/" && Pending(t, dir, child) != [] && forall op :: op in ops ==> Leaves(op, dir, child)
    ensures PopOp(RunFrom(t, ops), dir, child).1 == Pending(t, dir, child) + Registrations(t, ops, dir, child)
            <==> !SomeReorders(t, ops, dir, child)
  {
    ListAfter(t, ops, dir, child);
  }

  /** The number of places where p stands before another path. */
  function Pairs(ps: seq<Path>, p: Path): nat {
    if ps == [] then 0 else (if ps[0] == p then Others(ps[1..], p) else 0) + Pairs(ps[1..], p)
  }

  /** A re-creation that reorders takes away pairs, and nothing brings them back. */
  lemma {:induction false} ListAfter(t: Table, ops: seq<Op>, dir: Path, child: string)
    requires child != "/" && Pending(t, dir, child) != [] && forall op :: op in ops ==> Leaves(op, dir, child)
    ensures var list := Pending(RunFrom(t, ops), dir, child);
            var all := Pending(t, dir, child) + Registrations(t, ops, dir, child);
            && list != [] && multiset(list) == multiset(all)
            && if SomeReorders(t, ops, dir, child)
               then Pairs(list, dir + [child]) < Pairs(all, dir + [child])
               else list == all
  {
    hide Apply, Reorders, Leaves, Pairs;
    if ops == [] {
      assert Pending(t, dir, child) + [] == Pending(t, dir, child);
    } else {
      var p, init, op := dir + [child], ops[..|ops| - 1], ops[|ops| - 1];
      var before := RunFrom(t, init);
      var list, all := Pending(before, dir, child), Pending(t, dir, child) + Registrations(t, init, dir, child);
      var added := Added(before, op, dir, child);
      ListAfter(t, init, dir, child);
      OpOnList(before, op, dir, child);
      assert Pending(t, dir, child) + Registrations(t, ops, dir, child) == all + added;
      OneMore(list, all, added, before, op, dir, child);
    }
  }

  lemma OneMore(list: seq<Path>, all: seq<Path>, added: seq<Path>, t: Table, op: Op, dir: Path, child: string)
    requires list == Pending(t, dir, child) && added == Added(t, op, dir, child) && multiset(list) == multiset(all)
    requires list == all || Pairs(list, dir + [child]) < Pairs(all, dir + [child])
    ensures var p := dir + [child];
            var list' := if Recreates(t, op, dir, child) && op.back then RemoveFirst(list + [p], p) else list + added;
            && multiset(list') == multiset(all + added)
            && (list == all && !Reorders(t, op, dir, child) ==> list' == all + added)
            && (Pairs(list, p) < Pairs(all, p) || Reorders(t, op, dir, child) ==>
                  Pairs(list', p) < Pairs(all + added, p))
  {
    hide Pairs, Pending;
    var p := dir + [child];
    if Recreates(t, op, dir, child) && op.back {
      MovedToEnd(list, p);
      assert added == [] && all + [] == all;
    } else if added != [] {
      PairsSnoc(list, p, added[0]);
      PairsSnoc(all, p, added[0]);
      assert added == [added[0]];
      CountsAgree(list, all, p);
    } else {
      assert list + [] == list && all + [] == all;
    }
  }

  /** Registering p once more and taking away its first registration moves it to the end. */
  lemma {:induction false} MovedToEnd(ps: seq<Path>, p: Path)
    ensures var moved := RemoveFirst(ps + [p], p);
            && multiset(moved) == multiset(ps)
            && Pairs(moved, p) <= Pairs(ps, p)
            && if Behind(ps, p) then Pairs(moved, p) < Pairs(ps, p) else moved == ps
  {
    if ps == [] {
      assert RemoveFirst([p], p) == [];
    } else if ps[0] == p {
      assert (ps + [p])[1..] == ps[1..] + [p];
      PairsSnoc(ps[1..], p, p);
      assert ps == [p] + ps[1..];
      if Others(ps[1..], p) == 0 {
        AllSame(ps[1..], p);
      }
    } else {
      var rest := RemoveFirst(ps[1..] + [p], p);
      MovedToEnd(ps[1..], p);
      assert (ps + [p])[1..] == ps[1..] + [p];
      assert ps == [ps[0]] + ps[1..];
      assert ([ps[0]] + rest)[1..] == rest;
      OthersOfMultiset(rest, ps[1..], p);
    }
  }

  lemma {:induction false} AllSame(ps: seq<Path>, p: Path)
    requires Others(ps, p) == 0
    ensures [p] + ps == ps + [p]
  {
    if ps != [] {
      AllSame(ps[1..], p);
      assert ps == [p] + ps[1..];
      assert [p] + ([p] + ps[1..]) == [p] + (ps[1..] + [p]);
    }
  }

  lemma {:induction false} PairsSnoc(ps: seq<Path>, p: Path, last: Path)
    ensures Pairs(ps + [last], p) == Pairs(ps, p) + if last == p then 0 else multiset(ps)[p]
    ensures Others(ps + [last], p) == Others(ps, p) + if last == p then 0 else 1
  {
    if ps == [] {
      assert [] + [last] == [last] && [last][1..] == [];
    } else {
      PairsSnoc(ps[1..], p, last);
      CountHead(ps, p);
      assert (ps + [last])[1..] == ps[1..] + [last] && (ps + [last])[0] == ps[0];
    }
  }

  lemma CountHead(ps: seq<Path>, p: Path)
    requires ps != []
    ensures multiset(ps)[p] == multiset(ps[1..])[p] + if ps[0] == p then 1 else 0
  {
    assert ps == [ps[0]] + ps[1..];
  }

  lemma CountsAgree(a: seq<Path>, b: seq<Path>, p: Path)
    requires multiset(a) == multiset(b)
    ensures multiset(a)[p] == multiset(b)[p]
  {
  }

  lemma {:induction false} OthersCount(ps: seq<Path>, p: Path)
    ensures Others(ps, p) + multiset(ps)[p] == |ps|
  {
    if ps != [] {
      OthersCount(ps[1..], p);
      assert ps == [ps[0]] + ps[1..];
    }
  }

  lemma OthersOfMultiset(a: seq<Path>, b: seq<Path>, p: Path)
    requires multiset(a) == multiset(b)
    ensures Others(a, p) == Others(b, p)
  {
    OthersCount(a, p);
    OthersCount(b, p);
    assert |multiset(a)| == |a| && |multiset(b)| == |b|;
  }

  /** What one operation does to the child's list. */
  lemma OpOnList(t: Table, op: Op, dir: Path, child: string)
    requires child != "/" && Pending(t, dir, child) != [] && Leaves(op, dir, child)
    ensures var list, p := Pending(t, dir, child), dir + [child];
            Pending(Apply(t, op), dir, child) ==
            if Recreates(t, op, dir, child) && op.back then RemoveFirst(list + [p], p)
            else list + Added(t, op, dir, child)
    ensures Pending(Apply(t, op), dir, child) != []
  {
    var list, p := Pending(t, dir, child), dir + [child];
    assert list + [] == list && !Unused(t.watches[dir]);
    match op
    case Pop(q, _) => OthersStayPending(t, q, dir, child);
    case Recreate(q, parent, back) =>
      if Dir(q) == dir && Base(q) == child {
        assert q == p;
        ChildRecreated(t, q, parent, back);
        MovedToEnd(list, p);
        assert RemoveFirst(list + [p], p) == [] ==> |multiset(list)| == 0;
      } else {
        OtherRecreated(t, q, parent, back, dir, child);
      }
    case _ =>
  }

  lemma ChildRecreated(t: Table, p: Path, parent: bool, back: bool)
    requires p != [] && Pending(t, Dir(p), Base(p)) != []
    ensures var list := Pending(t, Dir(p), Base(p));
            Pending(Apply(t, Recreate(p, parent, back)), Dir(p), Base(p)) ==
            if !DirectlyWatched(t, p) then list else if back then RemoveFirst(list + [p], p) else list + [p]
  {
    assert !Unused(t.watches[Dir(p)]);
    hide RemoveFirst;
  }

  lemma OtherRecreated(t: Table, p: Path, parent: bool, back: bool, dir: Path, child: string)
    requires Pending(t, dir, child) != [] && (Dir(p) != dir || Base(p) != child)
    ensures Pending(Apply(t, Recreate(p, parent, back)), dir, child) == Pending(t, dir, child)
  {
    hide SettleOp, UnregisterOp, PopOp;
    assert !Unused(t.watches[dir]);
    var r := RegisterOp(t, p);
    assert dir in r.watches && PendingFor(r.watches[dir], child) == PendingFor(t.watches[dir], child);
    var r1, r2 := r.(kernel := r.kernel + {p}), r.(kernel := r.kernel + {Dir(p)} + {p});
    OthersStayPending(r1, p, dir, child);
    OthersStayPending(r2, p, dir, child);
    if NeedsAdd(t, p) {
      Unregistered(t, p);
    }
  }
}
