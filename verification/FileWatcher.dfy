/**
  The Watcher object: each locked operation, written step by step, does to the table what WatchTable
  says, and drops the notification state of the paths that it releases. Whether an fsnotify call
  succeeds is a parameter of the operation that makes it.
 */
module FileWatcher {
  import D = Debounce
  import opened WatchTable

  lemma RemoveAdded(m: map<Path, Info>, p: Path, info: Info)
    ensures m[p := info] - {p} == m - {p}
    ensures |info.pending| == 0 <==> info.pending == map[]
  {
  }

  /** Watch has counted one more reference, with an Add before it if the entry was unused. */
  lemma Counted(t: Table, p: Path, info: Info, kernel: set<Path>)
    requires info == InfoOf(t, p) && kernel == if Unused(info) then t.kernel + {p} else t.kernel
    ensures Table(t.watches[p := info][p := info.(refCount := info.refCount + 1)], kernel) == WatchOp(t, p, true)
    ensures !Unused(info) ==> WatchOp(t, p, false) == WatchOp(t, p, true)
  {
    var more := info.(refCount := info.refCount + 1);
    assert t.watches[p := info][p := more] == t.watches[p := more];
  }

  class Watcher {
    var watches: map<Path, Info>
    /** The paths that fsnotify watches. */
    var kernel: set<Path>
    /** The paths of the notifications that bypass the debouncing, oldest first. */
    var notified: seq<Path>
    const debouncer: D.Debouncer

    ghost function CurrentTable(): Table
      reads this
    {
      Table(watches, kernel)
    }

    constructor (debouncer: D.Debouncer)
      ensures CurrentTable() == Table(map[], {}) && notified == [] && this.debouncer == debouncer
    {
      this.debouncer := debouncer;
      watches, kernel, notified := map[], {}, [];
    }

    /** The debounce state of a released path is gone; nothing else happened to the debouncer. */
    twostate predicate Forgot(path: Path, released: bool)
      reads debouncer
    {
      forall now: int ::
        debouncer.At(now) ==
        if released then D.ForgetOp(old(debouncer.At(now)), path) else old(debouncer.At(now))
    }

    method IsDirectlyWatched(path: Path) returns (direct: bool)
      ensures direct == DirectlyWatched(CurrentTable(), path)
    {
      direct := path in watches && watches[path].refCount > 0;
    }

    method GetOrCreateWatch(path: Path) returns (info: Info)
      modifies this`watches
      ensures info == InfoOf(old(CurrentTable()), path) && watches == old(watches)[path := info]
    {
      if path !in watches {
        watches := watches[path := Info(0, map[])];
      }
      info := watches[path];
    }

    method Watch(path: Path, added: bool) returns (ok: bool)
      modifies this`watches, this`kernel
      ensures CurrentTable() == WatchOp(old(CurrentTable()), path, added)
      ensures ok == !WatchFails(old(CurrentTable()), path, added)
    {
      hide Put;
      var info := GetOrCreateWatch(path);
      RemoveAdded(old(watches), path, info);
      if info.refCount == 0 && |info.pending| == 0 {
        if !added {
          watches := watches - {path};
          return false;
        }
        kernel := kernel + {path};
      }
      watches := watches[path := info.(refCount := info.refCount + 1)];
      Counted(old(CurrentTable()), path, info, kernel);
      return true;
    }

    method Unwatch(path: Path, removed: bool) returns (ok: bool)
      modifies this`watches, this`kernel, debouncer
      ensures CurrentTable() == UnwatchOp(old(CurrentTable()), path, removed)
      ensures ok == !UnwatchFails(old(CurrentTable()), path, removed)
      ensures Forgot(path, path in old(watches) && path !in watches)
    {
      if path !in watches || watches[path].refCount <= 0 {
        return true;
      }
      var info := watches[path].(refCount := watches[path].refCount - 1);
      RemoveAdded(watches, path, info);
      watches := watches[path := info];
      if info.refCount == 0 && |info.pending| == 0 {
        watches := watches - {path};
        debouncer.Forget(path);
        if !removed {
          return false;
        }
        kernel := kernel - {path};
      }
      return true;
    }

    method WatchPending(ancestor: Path, pendingPath: Path)
      modifies this`watches
      ensures CurrentTable() == WatchPendingOp(old(CurrentTable()), ancestor, pendingPath)
    {
      if ancestor !in watches {
        return;
      }
      var info, child := watches[ancestor], ChildOf(ancestor, pendingPath);
      watches := watches[ancestor := AddPending(info, child, pendingPath)];
    }

    method ClearPending()
      modifies this`watches
      ensures CurrentTable() == ClearPendingOp(old(CurrentTable()))
    {
      var left := watches.Keys;
      while left != {}
        invariant left <= old(watches).Keys && watches.Keys == old(watches).Keys
        invariant forall p :: p in watches ==>
          watches[p] == if p in left then old(watches)[p] else old(watches)[p].(pending := map[])
      {
        var p :| p in left;
        if |watches[p].pending| > 0 {
          watches := watches[p := watches[p].(pending := map[])];
        }
        left := left - {p};
      }
    }

    method PopPendingForChild(ancestor: Path, child: string) returns (pending: seq<Path>)
      modifies this`watches, this`kernel, debouncer
      ensures (CurrentTable(), pending) == PopOp(old(CurrentTable()), ancestor, child)
      ensures Forgot(ancestor, ancestor in old(watches) && ancestor !in watches)
    {
      if ancestor !in watches {
        return [];
      }
      var info := watches[ancestor];
      pending := PendingFor(info, child);
      info := info.(pending := info.pending - {child});
      watches := watches[ancestor := info];
      if info.refCount == 0 && |info.pending| == 0 {
        watches := watches - {ancestor};
        debouncer.Forget(ancestor);
        kernel := kernel - {ancestor};
      }
    }

    /** The loop over the popped paths in run; each is notified of, watched again or not. */
    method ReAddPopped(pending: seq<Path>, files: set<Path>)
      modifies this`kernel, this`notified
      ensures CurrentTable() == ReAddOp(old(CurrentTable()), pending, files) && notified == old(notified) + pending
    {
      var i := 0;
      while i < |pending|
        invariant 0 <= i <= |pending|
        invariant CurrentTable() == ReAddOp(old(CurrentTable()), pending[..i], files)
        invariant notified == old(notified) + pending[..i]
      {
        if pending[i] in watches && watches[pending[i]].refCount > 0 && pending[i] in files {
          kernel := kernel + {pending[i]};
        }
        notified := notified + [pending[i]];
        assert pending[..i + 1] == pending[..i] + [pending[i]];
        i := i + 1;
      }
      assert pending[..i] == pending;
    }

    /**
      watchParentForPending for a directly watched path, with no other call in between; parent says
      whether the parent can be added and back whether the second stat finds the file.
     */
    method WatchParentForPending(filePath: Path, parent: bool, back: bool) returns (recreated: bool)
      requires DirectlyWatched(CurrentTable(), filePath)
      modifies this, debouncer
      ensures CurrentTable() == Apply(old(CurrentTable()), Recreate(filePath, parent, back))
      ensures recreated <==> back && (parent || !NeedsAdd(old(CurrentTable()), filePath))
      ensures notified == old(notified) + if recreated then [filePath] else []
      ensures Forgot(Dir(filePath), recreated && Dir(filePath) !in watches)
    {
      hide RegisterOp, UnregisterOp, SettleOp;
      var needsAdd := Register(filePath);
      if needsAdd {
        if !parent {
          Unregister(filePath);
          return false;
        }
        kernel := kernel + {Dir(filePath)};
      }
      if !back {
        return false;
      }
      kernel := kernel + {filePath};
      Settle(filePath);
      notified := notified + [filePath];
      return true;
    }

    /** The first locked section. */
    method Register(filePath: Path) returns (needsAdd: bool)
      modifies this`watches
      ensures CurrentTable() == RegisterOp(old(CurrentTable()), filePath)
      ensures needsAdd == NeedsAdd(old(CurrentTable()), filePath)
      ensures Dir(filePath) in watches
    {
      var info := GetOrCreateWatch(Dir(filePath));
      needsAdd := info.refCount == 0 && |info.pending| == 0;
      watches := watches[Dir(filePath) := AddPending(info, Base(filePath), filePath)];
    }

    /** The locked section after a failed Add. */
    method Unregister(filePath: Path)
      requires Dir(filePath) in watches
      modifies this`watches
      ensures CurrentTable() == UnregisterOp(old(CurrentTable()), filePath)
    {
      var parentDir := Dir(filePath);
      var info := watches[parentDir];
      info := info.(pending := info.pending - {Base(filePath)});
      RemoveAdded(watches, parentDir, info);
      watches := watches[parentDir := info];
      if info.refCount == 0 && |info.pending| == 0 {
        watches := watches - {parentDir};
      }
    }

    /** The locked section after the second stat found the file. */
    method Settle(filePath: Path)
      requires Dir(filePath) in watches
      modifies this`watches, this`kernel, debouncer
      ensures CurrentTable() == SettleOp(old(CurrentTable()), filePath)
      ensures Forgot(Dir(filePath), Dir(filePath) !in watches)
    {
      var parentDir, childName := Dir(filePath), Base(filePath);
      var info := watches[parentDir];
      var left := RemoveFirst(PendingFor(info, childName), filePath);
      if left == [] {
        info := info.(pending := info.pending - {childName});
      } else {
        info := info.(pending := info.pending[childName := left]);
      }
      watches := watches[parentDir := info];
      if info.refCount == 0 && |info.pending| == 0 {
        watches := watches - {parentDir};
        debouncer.Forget(parentDir);
        kernel := kernel - {parentDir};
      }
    }
  }
}
