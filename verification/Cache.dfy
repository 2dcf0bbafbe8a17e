/**
  The client's file cache: entries by host and path, and the answers that flit--get-info gives from
  a path's own entry, from its parent's, or from its grandparent's.
 */
module Cache {
  import opened Options

  /** An info plist, as far as existence is concerned; present is false for :json-false only. */
  datatype Info = Info(path: Option<string>, present: bool, children: Option<seq<string>>, noCache: bool)

  datatype Entry = Entry(path: Option<string>, info: Option<Info>)

  /** An fs/info reply with its :cache field. */
  datatype Reply = Reply(info: Info, cache: seq<Entry>)

  type Key = (string, string)

  type Table = map<Key, Info>

  // ---------------------------------------------------------------- path strings

  predicate EndsWithSlash(s: string) {
    s != "" && s[|s| - 1] == '/'
  }

  /** flit--normalize-path drops one slash. */
  function Normalize(path: string): string {
    if |path| > 1 && EndsWithSlash(path) then path[..|path| - 1] else path
  }

  /** The part of a path up to and with its last slash. */
  function FileNameDirectory(s: string): string {
    if s == "" || EndsWithSlash(s) then s else FileNameDirectory(s[..|s| - 1])
  }

  function FileNameNondirectory(s: string): string {
    if s == "" || EndsWithSlash(s) then "" else FileNameNondirectory(s[..|s| - 1]) + [s[|s| - 1]]
  }

  /** directory-file-name drops all slashes at the end, but leaves "/" and "//" alone. */
  function DirectoryFileName(s: string): string {
    if s == "//" then s else StripSlashes(s)
  }

  function StripSlashes(s: string): string {
    if |s| > 1 && EndsWithSlash(s) then StripSlashes(s[..|s| - 1]) else s
  }

  function ParentPath(s: string): string {
    DirectoryFileName(FileNameDirectory(s))
  }

  /** A component of a normalized path. */
  predicate IsName(n: string) {
    n != "" && n != "." && n != ".." && '/' !in n
  }

  type Path = p: seq<string> | forall n :: n in p ==> IsName(n)

  /** The normalized absolute path with these components. */
  function Spell(p: Path): string {
    if p == [] then "/" else Joined(p)
  }

  function Joined(p: Path): string {
    if p == [] then "" else Joined(p[..|p| - 1]) + "/" + p[|p| - 1]
  }

  lemma {:induction false} JoinedEnd(p: Path)
    requires p != []
    ensures |Joined(p)| >= 2 && Joined(p)[0] == '/' && !EndsWithSlash(Joined(p))
  {
    var n := p[|p| - 1];
    assert IsName(n);
    if |p| > 1 {
      JoinedEnd(p[..|p| - 1]);
    }
  }

  lemma {:induction false} SplitAtLast(front: string, n: string)
    requires EndsWithSlash(front) && '/' !in n
    ensures FileNameDirectory(front + n) == front && FileNameNondirectory(front + n) == n
  {
    if n == "" {
      assert front + n == front;
    } else {
      var less := n[..|n| - 1];
      assert (front + n)[..|front + n| - 1] == front + less;
      assert n[|n| - 1] in n;
      assert !EndsWithSlash(front + n);
      SplitAtLast(front, less);
    }
  }

  /** What Emacs computes from a normalized path are the path above it and its last component. */
  lemma ParentOfSpell(p: Path)
    requires p != []
    ensures ParentPath(Spell(p)) == Spell(p[..|p| - 1]) && FileNameNondirectory(Spell(p)) == p[|p| - 1]
    ensures Spell(p) != "/" && Normalize(Spell(p)) == Spell(p)
  {
    var above, n := Joined(p[..|p| - 1]), p[|p| - 1];
    assert IsName(n);
    JoinedEnd(p);
    assert Joined(p) == (above + "/") + n;
    SplitAtLast(above + "/", n);
    if |p| == 1 {
      assert above + "/" == "/";
    } else {
      JoinedEnd(p[..|p| - 1]);
      assert (above + "/")[..|above|] == above;
      assert StripSlashes(above) == above && |above + "/"| > 2;
    }
  }

  // ---------------------------------------------------------------- the cache, as functions

  /** The key of flit--cache-get and flit--cache-put, which normalize twice. */
  function KeyOf(host: string, path: string): Key {
    (host, Normalize(Normalize(path)))
  }

  function Lookup(t: Table, host: string, path: string): Option<Info> {
    if KeyOf(host, path) in t then Some(t[KeyOf(host, path)]) else None
  }

  function PutOp(t: Table, host: string, path: string, info: Info): Table {
    var existing := Lookup(t, host, path);
    if info.path.None? then t
    else if existing.Some? && existing.value.children.Some? && info.children.None? then t
    else t[KeyOf(host, path) := info]
  }

  /** flit--cache-invalidate normalizes once. */
  function InvalidateOp(t: Table, host: string, path: string): Table {
    t - {(host, Normalize(path))}
  }

  function InvalidateHostOp(t: Table, host: string): Table {
    map k | k in t && k.0 != host :: t[k]
  }

  /** One entry of flit--cache-from-response. */
  function EntryOp(t: Table, host: string, e: Entry): Table {
    if e.path.Some? && e.info.Some? && !e.info.value.noCache then PutOp(t, host, e.path.value, e.info.value) else t
  }

  function EntriesOp(t: Table, host: string, es: seq<Entry>): Table {
    if es == [] then t else EntryOp(EntriesOp(t, host, es[..|es| - 1]), host, es[|es| - 1])
  }

  /** The children are known, and name is not one of them. */
  predicate Lacks(info: Option<Info>, name: string) {
    info.Some? && info.value.children.Some? && name !in info.value.children.value
  }

  /** The answer is "does not exist" because of the parent's or the grandparent's entry. */
  predicate RuledOut(t: Table, host: string, path: string) {
    var norm := Normalize(path);
    var parent := ParentPath(norm);
    var above := if norm == "/" then None else Lookup(t, host, parent);
    || (above.Some? && !above.value.present)
    || Lacks(above, FileNameNondirectory(norm))
    || (parent != "/" && Lacks(Lookup(t, host, ParentPath(parent)), FileNameNondirectory(parent)))
  }

  function ReplyOp(t: Table, host: string, reply: Reply): Table {
    var t1 := if reply.info.path.Some? && !reply.info.noCache
              then PutOp(t, host, reply.info.path.value, reply.info) else t;
    EntriesOp(t1, host, reply.cache)
  }

  /** flit--get-info: the cache after it, and its answer; reply is what the server would say. */
  function GetInfoOp(t: Table, host: string, path: string, force: bool, reply: Reply): (Table, Info) {
    if !force && Lookup(t, host, path).Some? then (t, Lookup(t, host, path).value)
    else if RuledOut(t, host, path) then (t, Info(Some(Normalize(path)), false, None, false))
    else
      var t' := ReplyOp(t, host, reply);
      (t', if Lookup(t', host, path).Some? then Lookup(t', host, path).value else reply.info)
  }

  // ---------------------------------------------------------------- against the file tree

  /** The file trees of the hosts: whether a path exists. A path exists only below one that does. */
  ghost predicate TreeLike(fs: (string, string) -> bool) {
    forall host, p: Path :: p != [] && fs(host, Spell(p)) ==> fs(host, Spell(p[..|p| - 1]))
  }

  /** An entry tells the truth about its path, and lists no fewer children than there are. */
  ghost predicate Accurate(fs: (string, string) -> bool, k: Key, info: Info) {
    && (info.present <==> fs(k.0, k.1))
    && (info.children.Some? ==> forall p: Path ::
          p != [] && Spell(p[..|p| - 1]) == k.1 && fs(k.0, Spell(p)) ==> p[|p| - 1] in info.children.value)
  }

  ghost predicate Sound(fs: (string, string) -> bool, t: Table) {
    forall k :: k in t ==> Accurate(fs, k, t[k])
  }

  ghost predicate AccurateEntries(fs: (string, string) -> bool, host: string, es: seq<Entry>) {
    forall e :: e in es && e.path.Some? && e.info.Some? ==> Accurate(fs, KeyOf(host, e.path.value), e.info.value)
  }

  /** What the server says about path is the uncached answer, and its entries are accurate. */
  ghost predicate AccurateReply(fs: (string, string) -> bool, host: string, path: string, r: Reply) {
    && (r.info.present <==> fs(host, path))
    && (r.info.path.Some? ==> Accurate(fs, KeyOf(host, r.info.path.value), r.info))
    && AccurateEntries(fs, host, r.cache)
  }

  datatype Op =
    | Put(host: string, path: string, info: Info)
    | Invalidate(host: string, path: string)
    | InvalidateHost(host: string)
    | FromResponse(host: string, entries: seq<Entry>)
    | GetInfo(host: string, path: string, force: bool, reply: Reply)

  function Apply(t: Table, op: Op): Table {
    match op
    case Put(host, path, info) => PutOp(t, host, path, info)
    case Invalidate(host, path) => InvalidateOp(t, host, path)
    case InvalidateHost(host) => InvalidateHostOp(t, host)
    case FromResponse(host, es) => EntriesOp(t, host, es)
    case GetInfo(host, path, force, reply) => GetInfoOp(t, host, path, force, reply).0
  }

  function Run(ops: seq<Op>): Table {
    if ops == [] then map[] else Apply(Run(ops[..|ops| - 1]), ops[|ops| - 1])
  }

  ghost predicate AccurateOp(fs: (string, string) -> bool, op: Op) {
    match op
    case Put(host, path, info) => Accurate(fs, KeyOf(host, path), info)
    case FromResponse(host, es) => AccurateEntries(fs, host, es)
    case GetInfo(host, path, _, reply) => AccurateReply(fs, host, path, reply)
    case _ => true
  }

  /**
    On a tree that does not change, whatever accurate entries were cached and invalidated before,
    every answer to a normalized path, from an entry, a listing or the server, is the uncached one.
   */
  lemma NegativeLookupIsSound(fs: (string, string) -> bool, ops: seq<Op>,
                              host: string, p: Path, force: bool, reply: Reply)
    requires TreeLike(fs) && forall op :: op in ops ==> AccurateOp(fs, op)
    requires AccurateReply(fs, host, Spell(p), reply)
    ensures GetInfoOp(Run(ops), host, Spell(p), force, reply).1.present <==> fs(host, Spell(p))
  {
    hide RuledOut, ReplyOp, Accurate, Spell;
    EveryRunIsSound(fs, ops);
    SpellKey(p, host);
    if RuledOut(Run(ops), host, Spell(p)) {
      RuledOutIsAbsent(fs, Run(ops), host, p);
    } else {
      ReplyKeepsSound(fs, Run(ops), host, Spell(p), reply);
    }
    AnswerOfEntry(fs, Run(ops), host, p);
    AnswerOfEntry(fs, ReplyOp(Run(ops), host, reply), host, p);
  }

  lemma AnswerOfEntry(fs: (string, string) -> bool, t: Table, host: string, p: Path)
    ensures Sound(fs, t) && Lookup(t, host, Spell(p)).Some? ==>
              (Lookup(t, host, Spell(p)).value.present <==> fs(host, Spell(p)))
  {
    SpellKey(p, host);
    hide Spell;
  }

  lemma SpellKey(p: Path, host: string)
    ensures Normalize(Spell(p)) == Spell(p) && KeyOf(host, Spell(p)) == (host, Spell(p))
  {
    if p != [] {
      ParentOfSpell(p);
    }
  }

  lemma RuledOutIsAbsent(fs: (string, string) -> bool, t: Table, host: string, p: Path)
    requires TreeLike(fs) && Sound(fs, t) && RuledOut(t, host, Spell(p))
    ensures !fs(host, Spell(p))
  {
    SpellKey(p, host);
    if p == [] {
      RootIsNotRuledOut(t, host);
    } else {
      var q := p[..|p| - 1];
      ParentOfSpell(p);
      SpellKey(q, host);
      if q != [] {
        ParentOfSpell(q);
        SpellKey(q[..|q| - 1], host);
      }
      hide Spell, ParentPath, FileNameNondirectory, Normalize;
      ListingIsComplete(fs, t, host, p);
      if q != [] {
        ListingIsComplete(fs, t, host, q);
      }
    }
  }

  lemma RootIsNotRuledOut(t: Table, host: string)
    ensures !RuledOut(t, host, "/")
  {
    assert ParentPath("/") == "/";
  }

  /** What an entry of the path above says about p. */
  lemma ListingIsComplete(fs: (string, string) -> bool, t: Table, host: string, p: Path)
    requires TreeLike(fs) && Sound(fs, t) && p != []
    ensures var above := Lookup(t, host, Spell(p[..|p| - 1]));
            fs(host, Spell(p)) ==>
              fs(host, Spell(p[..|p| - 1])) && (above.Some? ==> above.value.present) && !Lacks(above, p[|p| - 1])
  {
    SpellKey(p[..|p| - 1], host);
    hide Spell;
  }

  lemma {:induction false} EveryRunIsSound(fs: (string, string) -> bool, ops: seq<Op>)
    requires forall op :: op in ops ==> AccurateOp(fs, op)
    ensures Sound(fs, Run(ops))
  {
    if ops != [] {
      EveryRunIsSound(fs, ops[..|ops| - 1]);
      ApplyKeepsSound(fs, Run(ops[..|ops| - 1]), ops[|ops| - 1]);
    }
  }

  lemma ApplyKeepsSound(fs: (string, string) -> bool, t: Table, op: Op)
    requires Sound(fs, t) && AccurateOp(fs, op)
    ensures Sound(fs, Apply(t, op))
  {
    match op
    case FromResponse(host, es) => EntriesKeepSound(fs, t, host, es);
    case GetInfo(host, path, force, reply) => ReplyKeepsSound(fs, t, host, path, reply);
    case _ =>
  }

  lemma ReplyKeepsSound(fs: (string, string) -> bool, t: Table, host: string, path: string, reply: Reply)
    requires Sound(fs, t) && AccurateReply(fs, host, path, reply)
    ensures Sound(fs, ReplyOp(t, host, reply))
  {
    hide Accurate, EntriesOp;
    var t1 := if reply.info.path.Some? && !reply.info.noCache
              then PutOp(t, host, reply.info.path.value, reply.info) else t;
    EntriesKeepSound(fs, t1, host, reply.cache);
  }

  lemma {:induction false} EntriesKeepSound(fs: (string, string) -> bool, t: Table, host: string, es: seq<Entry>)
    requires Sound(fs, t) && AccurateEntries(fs, host, es)
    ensures Sound(fs, EntriesOp(t, host, es))
  {
    hide Accurate;
    if es != [] {
      EntriesKeepSound(fs, t, host, es[..|es| - 1]);
    }
  }

  /** A path with a dot component is answered wrongly from a complete listing. */
  lemma DotIsMisread(fs: (string, string) -> bool, host: string, reply: Reply)
    requires fs(host, "/a/.")
    ensures var t: Table := map[(host, "/a") := Info(Some("/a"), true, Some([]), false)];
            !GetInfoOp(t, host, "/a/.", false, reply).1.present
  {
    SplitAtLast("/a/", ".");
    assert "/a/" + "." == "/a/.";
    assert "/a/"[..2] == "/a";
    assert StripSlashes("/a/") == "/a" by { assert EndsWithSlash("/a/") && !EndsWithSlash("/a"); }
  }

  // ---------------------------------------------------------------- what puts keep

  predicate KnowsChildren(t: Table, k: Key) {
    k in t && t[k].children.Some?
  }

  /** Nothing but an invalidation makes the cache forget a directory's listing. */
  lemma {:induction false} ListingsStay(ops: seq<Op>, more: seq<Op>, k: Key)
    requires KnowsChildren(Run(ops), k) && forall op :: op in more ==> !op.Invalidate? && !op.InvalidateHost?
    ensures KnowsChildren(Run(ops + more), k)
  {
    hide KnowsChildren, Apply;
    if more == [] {
      assert ops + more == ops;
    } else {
      var init := more[..|more| - 1];
      ListingsStay(ops, init, k);
      assert (ops + more)[..|ops + more| - 1] == ops + init;
      ApplyKeepsListing(Run(ops + init), more[|more| - 1], k);
    }
  }

  lemma ApplyKeepsListing(t: Table, op: Op, k: Key)
    requires KnowsChildren(t, k) && !op.Invalidate? && !op.InvalidateHost?
    ensures KnowsChildren(Apply(t, op), k)
  {
    match op
    case Put(_, _, _) =>
    case FromResponse(host, es) => EntriesKeepListing(t, host, es, k);
    case GetInfo(host, path, force, reply) =>
      EntriesKeepListing(t, host, reply.cache, k);
      if reply.info.path.Some? {
        EntriesKeepListing(PutOp(t, host, reply.info.path.value, reply.info), host, reply.cache, k);
      }
  }

  lemma {:induction false} EntriesKeepListing(t: Table, host: string, es: seq<Entry>, k: Key)
    requires KnowsChildren(t, k)
    ensures KnowsChildren(EntriesOp(t, host, es), k)
  {
    if es != [] {
      EntriesKeepListing(t, host, es[..|es| - 1], k);
    }
  }

  // ---------------------------------------------------------------- what is stored

  /** The cache has the same to say under key k. */
  predicate SameAt(a: Table, b: Table, k: Key) {
    (k in b <==> k in a) && (k in a ==> b[k] == a[k])
  }

  /** An info with a path is stored, unless an entry with children is there and it has none; no other key changes. */
  lemma PutEffect(t: Table, host: string, path: string, info: Info)
    ensures var t', k := PutOp(t, host, path, info), KeyOf(host, path);
            && (forall l :: l != k ==> SameAt(t, t', l))
            && if info.path.None? || (KnowsChildren(t, k) && info.children.None?) then t' == t
               else k in t' && t'[k] == info
  {
  }

  /** What was put is what every spelling of the path is answered with, and the server is not asked. */
  lemma PutThenGet(t: Table, host: string, path: string, info: Info, spelling: string, reply: Reply)
    requires info.path.Some? && KeyOf(host, spelling) == KeyOf(host, path)
    ensures var t' := PutOp(t, host, path, info);
            var answer := if KnowsChildren(t, KeyOf(host, path)) && info.children.None?
                          then t[KeyOf(host, path)] else info;
            GetInfoOp(t', host, spelling, false, reply) == (t', answer)
  {
    PutEffect(t, host, path, info);
  }

  predicate Cacheable(e: Entry) {
    e.path.Some? && e.info.Some? && !e.info.value.noCache && e.info.value.path.Some?
  }

  /** The entry is for key k, and may be stored. */
  predicate IsFor(e: Entry, host: string, k: Key) {
    Cacheable(e) && KeyOf(host, e.path.value) == k
  }

  /** One of the entries is for key k. */
  predicate Names(es: seq<Entry>, host: string, k: Key) {
    exists e :: e in es && IsFor(e, host, k)
  }

  predicate NamesWith(es: seq<Entry>, host: string, k: Key, info: Info) {
    exists e :: e in es && IsFor(e, host, k) && e.info.value == info
  }

  /** A response changes the cache only under the keys of its cacheable entries, and each of them is then known. */
  lemma {:induction false} EntriesEffect(t: Table, host: string, es: seq<Entry>, k: Key)
    ensures var t' := EntriesOp(t, host, es);
            if Names(es, host, k) then k in t' && (SameAt(t, t', k) || NamesWith(es, host, k, t'[k]))
            else SameAt(t, t', k)
  {
    if es != [] {
      var init, last := es[..|es| - 1], es[|es| - 1];
      EntriesEffect(t, host, init, k);
      EntryEffect(EntriesOp(t, host, init), host, last, k);
      hide EntryOp, IsFor;
      assert forall e :: e in es <==> e in init || e == last;
    }
  }

  lemma EntryEffect(t: Table, host: string, e: Entry, k: Key)
    ensures var t' := EntryOp(t, host, e);
            if IsFor(e, host, k) then k in t' && (SameAt(t, t', k) || t'[k] == e.info.value) else SameAt(t, t', k)
  {
  }

  /**
    Once the server was asked about a path, and named a spelling of it in a reply that may be cached,
    the next question gets the same answer and does not reach the server. The answer is the reply,
    unless the reply's own entries or an older listing say more about the path.
   */
  lemma ReplyIsRemembered(t: Table, host: string, path: string, force: bool, reply: Reply, later: Reply)
    requires (force || Lookup(t, host, path).None?) && !RuledOut(t, host, path)
    requires reply.info.path.Some? && !reply.info.noCache
    requires KeyOf(host, reply.info.path.value) == KeyOf(host, path)
    ensures var (t', answer) := GetInfoOp(t, host, path, force, reply);
            && GetInfoOp(t', host, path, false, later) == (t', answer)
            && ((reply.info.children.None? && KnowsChildren(t, KeyOf(host, path)))
                || Names(reply.cache, host, KeyOf(host, path))
                || answer == reply.info)
  {
    var k := KeyOf(host, path);
    PutEffect(t, host, reply.info.path.value, reply.info);
    EntriesEffect(PutOp(t, host, reply.info.path.value, reply.info), host, reply.cache, k);
    hide EntriesOp, PutOp, RuledOut;
  }

  /** A reply that the server marks as volatile is the answer once, and is not stored. */
  lemma VolatileIsNotCached(t: Table, host: string, path: string, force: bool, reply: Reply)
    requires reply.info.noCache && !Names(reply.cache, host, KeyOf(host, path))
    ensures var t' := GetInfoOp(t, host, path, force, reply).0;
            SameAt(t, t', KeyOf(host, path))
  {
    EntriesEffect(t, host, reply.cache, KeyOf(host, path));
    hide EntriesOp, RuledOut;
  }

  /**
    A path is answered "does not exist" from the entries above it if and only if its directory is
    known not to exist or to have no such child, or the directory above that has no such directory.
   */
  lemma RuledOutExactly(t: Table, host: string, p: Path)
    requires p != []
    ensures var q := p[..|p| - 1];
            var above := Lookup(t, host, Spell(q));
            RuledOut(t, host, Spell(p)) <==>
              || (above.Some? && !above.value.present) || Lacks(above, p[|p| - 1])
              || (q != [] && Lacks(Lookup(t, host, Spell(q[..|q| - 1])), q[|q| - 1]))
  {
    var q := p[..|p| - 1];
    ParentOfSpell(p);
    if q != [] {
      ParentOfSpell(q);
    }
    hide Spell, ParentPath, FileNameNondirectory, Lookup;
    assert q == [] ==> Spell(q) == "/" by { SpellOfRoot(); }
  }

  lemma SpellOfRoot()
    ensures Spell([]) == "/"
  {
  }

  // ---------------------------------------------------------------- invalidation

  /** An invalidated path is gone from the cache exactly when it does not end in two slashes. */
  lemma InvalidatedExactly(t: Table, host: string, path: string)
    requires Lookup(t, host, path).Some?
    ensures Lookup(InvalidateOp(t, host, path), host, path).None? <==>
            !(|path| > 2 && EndsWithSlash(path) && EndsWithSlash(path[..|path| - 1]))
    ensures forall k :: k != (host, Normalize(path)) ==> SameAt(t, InvalidateOp(t, host, path), k)
  {
  }

  /** Nothing of the host is known any more, and everything of the others. */
  lemma HostIsForgotten(t: Table, host: string, other: string, path: string)
    ensures Lookup(InvalidateHostOp(t, host), other, path) == if other == host then None else Lookup(t, other, path)
  {
  }

  // ---------------------------------------------------------------- the hash table

  class FileCache {
    var cache: Table

    constructor ()
      ensures cache == map[]
    {
      cache := map[];
    }

    method Put(host: string, path: string, info: Info) returns (accepted: bool)
      modifies this
      ensures cache == PutOp(old(cache), host, path, info)
      ensures accepted <==> info.path.Some?
    {
      var key := KeyOf(host, path);
      if info.path.None? {
        return false;
      }
      if !(key in cache && cache[key].children.Some? && info.children.None?) {
        cache := cache[key := info];
      }
      return true;
    }

    method Invalidate(host: string, path: string)
      modifies this
      ensures cache == InvalidateOp(old(cache), host, path)
    {
      cache := cache - {(host, Normalize(path))};
    }

    method InvalidateHost(host: string)
      modifies this
      ensures cache == InvalidateHostOp(old(cache), host)
    {
      var keys := set k | k in cache && k.0 == host;
      while keys != {}
        invariant forall k :: k in keys ==> k in cache && k.0 == host
        invariant forall k :: k in cache ==> k in old(cache) && cache[k] == old(cache)[k] && (k.0 == host ==> k in keys)
        invariant forall k :: k in old(cache) && k.0 != host ==> k in cache
        decreases |keys|
      {
        var k :| k in keys;
        cache, keys := cache - {k}, keys - {k};
      }
    }

    method FromResponse(host: string, entries: seq<Entry>)
      modifies this
      ensures cache == EntriesOp(old(cache), host, entries)
    {
      for i := 0 to |entries|
        invariant cache == EntriesOp(old(cache), host, entries[..i])
      {
        var e := entries[i];
        assert entries[..i + 1][..i] == entries[..i];
        if e.path.Some? && e.info.Some? && !e.info.value.noCache {
          var _ := Put(host, e.path.value, e.info.value);
        }
      }
      assert entries[..|entries|] == entries;
    }

    /** flit--get-info; asked says whether the server was asked. */
    method GetInfo(host: string, path: string, force: bool, reply: Reply) returns (info: Info, asked: bool)
      modifies this
      ensures (cache, info) == GetInfoOp(old(cache), host, path, force, reply)
      ensures asked <==> (force || Lookup(old(cache), host, path).None?) && !RuledOut(old(cache), host, path)
    {
      if !force && KeyOf(host, path) in cache {
        return cache[KeyOf(host, path)], false;
      }
      if RuledOut(cache, host, path) {
        return Info(Some(Normalize(path)), false, None, false), false;
      }
      if reply.info.path.Some? && !reply.info.noCache {
        var _ := Put(host, reply.info.path.value, reply.info);
      }
      FromResponse(host, reply.cache);
      info := if KeyOf(host, path) in cache then cache[KeyOf(host, path)] else reply.info;
      asked := true;
    }
  }
}
