/**
  The fan-out over a directory's children: workers that finish in any order, at most 32 at a time,
  each filling its own slot, and the cache entries collected from the slots.
 */
module ChildEntries {
  import opened Options

  /** An InfoResult; realpath is empty if it is not known. */
  datatype Info = Info(path: string, realpath: string)

  datatype CacheEntry = CacheEntry(path: string, info: Info)

  const WORKERS := 32

  class BoundedWaitGroup {
    const maxSize: int
    /** The semaphore's tokens in use, and the WaitGroup's counter. */
    var tokens: nat
    var count: nat
    /** The most workers that were running at any time. */
    ghost var peak: nat

    ghost predicate Valid()
      reads this
    {
      count <= peak && (maxSize > 0 ==> tokens == count && peak <= maxSize)
    }

    constructor (maxSize: int)
      ensures this.maxSize == maxSize && count == 0 && peak == 0 && Valid()
    {
      this.maxSize := maxSize;
      tokens, count, peak := 0, 0, 0;
    }

    /** Add(1) would not wait. */
    predicate HasRoom()
      reads this
    {
      maxSize <= 0 || tokens < maxSize
    }

    /**
      Waits for room, token by token; a worker that was running before finishes when it is waited for.
      The call never returns if and only if it asks for more than the group may hold.
     */
    method Add(delta: nat) returns (blocked: bool)
      requires Valid()
      modifies this
      ensures Valid() && old(peak) <= peak
      ensures blocked <==> 0 < maxSize < delta
      ensures !blocked ==>
        count == if maxSize <= 0 || old(count) + delta <= maxSize then old(count) + delta else maxSize
    {
      blocked := false;
      var mine := 0;
      while mine < delta
        invariant Valid() && old(peak) <= peak && mine <= delta && mine <= count
        invariant maxSize <= 0 || old(count) + mine <= maxSize ==> count == old(count) + mine
        invariant maxSize > 0 && old(count) + mine > maxSize ==> count == maxSize
      {
        if !HasRoom() {
          if count == mine {
            return true;
          }
          Done();
        }
        Start();
        mine := mine + 1;
      }
    }

    /** One token, and one worker more. */
    method Start()
      requires Valid() && HasRoom()
      modifies this
      ensures Valid() && count == old(count) + 1 && peak == if count <= old(peak) then old(peak) else count
    {
      if maxSize > 0 {
        tokens := tokens + 1;
      }
      count := count + 1;
      if count > peak {
        peak := count;
      }
    }

    method Done()
      requires Valid() && count > 0
      modifies this
      ensures Valid() && count == old(count) - 1 && peak == old(peak)
    {
      if maxSize > 0 {
        tokens := tokens - 1;
      }
      count := count - 1;
    }
  }

  /** filepath.Join of a cleaned directory and a name. */
  function Join(dir: string, name: string): string {
    if dir == "/" then "/" + name else dir + "/" + name
  }

  /** One entry under the path, and one under the realpath if that is known and different. */
  function BuildCacheEntries(info: Info): seq<CacheEntry> {
    [CacheEntry(info.path, info)] +
    if info.realpath != "" && info.realpath != info.path then [CacheEntry(info.realpath, info)] else []
  }

  /** The entries of the first n children, in the order of the listing. */
  function EntriesOf(dir: string, children: seq<string>, stat: string -> Option<Info>): seq<CacheEntry> {
    if children == [] then [] else
    var info := stat(Join(dir, children[|children| - 1]));
    EntriesOf(dir, children[..|children| - 1], stat) + if info.Some? then BuildCacheEntries(info.value) else []
  }

  /** Whatever the workers' speed, the entries are those of the listing, in its order. */
  method GetChildEntries(dir: string, children: seq<string>, maxEntries: int, stat: string -> Option<Info>)
    returns (entries: seq<CacheEntry>)
    ensures entries == if |children| > maxEntries then [] else EntriesOf(dir, children, stat)
  {
    entries := [];
    if |children| == 0 || |children| > maxEntries {
      return;
    }
    var results := new Option<Info>[|children|](_ => None);
    var bwg := new BoundedWaitGroup(WORKERS);
    FanOut(dir, children, stat, results, bwg);
    for i := 0 to results.Length
      invariant entries == EntriesOf(dir, children[..i], stat)
    {
      assert children[..i + 1][..i] == children[..i];
      if results[i].Some? {
        entries := entries + BuildCacheEntries(results[i].value);
      }
    }
    assert children[..|children|] == children;
  }

  /** The workers, started in order while there is room and finishing in any order. */
  method FanOut(dir: string, children: seq<string>, stat: string -> Option<Info>, results: array<Option<Info>>,
                bwg: BoundedWaitGroup)
    requires results.Length == |children| && bwg.Valid() && bwg.maxSize == WORKERS && bwg.count == 0
    modifies results, bwg
    ensures bwg.Valid() && bwg.count == 0 && bwg.peak <= WORKERS
    ensures forall i :: 0 <= i < |children| ==> results[i] == stat(Join(dir, children[i]))
  {
    var next, running: set<nat> := 0, {};
    while next < |children| || running != {}
      invariant 0 <= next <= |children|
      invariant bwg.maxSize == WORKERS && bwg.Valid() && bwg.count == |running|
      invariant Filled(results[..], dir, children, stat, next, running)
      decreases |children| - next, |running|
    {
      var start: bool := *;
      if running == {} || (next < |children| && bwg.HasRoom() && start) {
        var _ := bwg.Add(1);
        running := running + {next};
        next := next + 1;
      } else {
        var i :| i in running;
        results[i] := stat(Join(dir, children[i]));
        bwg.Done();
        running := running - {i};
      }
    }
    assert forall i :: 0 <= i < |children| ==> results[..][i] == stat(Join(dir, children[i]));
  }

  /** The workers below next have started; those that do not run have filled their slots. */
  ghost predicate Filled(results: seq<Option<Info>>, dir: string, children: seq<string>, stat: string -> Option<Info>,
                         next: nat, running: set<nat>)
  {
    && |results| == |children| && next <= |children|
    && (forall i :: i in running ==> i < next)
    && forall i :: 0 <= i < next && i !in running ==> results[i] == stat(Join(dir, children[i]))
  }

  /**
    An entry is sent exactly for the children that a stat finds, each with the child's own info, under
    its path and under its realpath if that is known.
   */
  lemma {:induction false} EntryForEachChild(dir: string, children: seq<string>, stat: string -> Option<Info>,
                                             e: CacheEntry)
    ensures e in EntriesOf(dir, children, stat) <==>
            exists name :: name in children && stat(Join(dir, name)) == Some(e.info) && NamedBy(e, e.info)
  {
    if children != [] {
      var front, last := children[..|children| - 1], children[|children| - 1];
      EntryForEachChild(dir, front, stat, e);
      var info := stat(Join(dir, last));
      assert forall name :: name in children <==> name in front || name == last;
      if info.Some? {
        EntryNames(info.value, e);
      }
    }
  }

  predicate NamedBy(e: CacheEntry, info: Info) {
    e.path == info.path || (e.path == info.realpath && info.realpath != "")
  }

  lemma EntryNames(info: Info, e: CacheEntry)
    ensures e in BuildCacheEntries(info) <==> e.info == info && NamedBy(e, info)
  {
  }

  /** No path is sent twice for one child, and its own path comes first. */
  lemma PathComesFirst(info: Info)
    ensures var es := BuildCacheEntries(info);
            && 1 <= |es| <= 2 && es[0].path == info.path
            && forall i, j :: 0 <= i < j < |es| ==> es[i].path != es[j].path
  {
  }

  /** The entries of earlier children come before those of later ones. */
  lemma {:induction false} EntriesInOrder(dir: string, first: seq<string>, more: seq<string>,
                                          stat: string -> Option<Info>)
    ensures EntriesOf(dir, first + more, stat) == EntriesOf(dir, first, stat) + EntriesOf(dir, more, stat)
  {
    hide BuildCacheEntries, Join;
    var all := first + more;
    if more == [] {
      assert all == first && EntriesOf(dir, first, stat) + [] == EntriesOf(dir, first, stat);
    } else {
      var init, last := more[..|more| - 1], more[|more| - 1];
      EntriesInOrder(dir, first, init, stat);
      assert all[..|all| - 1] == first + init && all[|all| - 1] == last;
      var info := stat(Join(dir, last));
      var es := if info.Some? then BuildCacheEntries(info.value) else [];
      var a, b := EntriesOf(dir, first, stat), EntriesOf(dir, init, stat);
      assert EntriesOf(dir, all, stat) == (a + b) + es && EntriesOf(dir, more, stat) == b + es;
      assert (a + b) + es == a + (b + es);
    }
  }

  lemma OneChild(dir: string, name: string, stat: string -> Option<Info>)
    ensures var es := EntriesOf(dir, [name], stat);
            if stat(Join(dir, name)).None? then es == []
            else es == BuildCacheEntries(stat(Join(dir, name)).value)
  {
    assert [name][..0] == [];
  }
}
