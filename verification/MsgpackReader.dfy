/**
  What the reader promises on arbitrary bytes: where it stops, how large a value it builds, and
  that bytes after the value do not matter.
 */
module MsgpackReader {
  import opened Bytes
  import opened Msgpack
  import opened Options

  /** One node for each value and one for each map key. */
  function Nodes(v: Value): (n: nat)
    ensures n >= 1
  {
    match v
    case Arr(items) => 1 + ItemNodes(items)
    case Map(pairs) => 1 + PairNodes(pairs)
    case _ => 1
  }

  function ItemNodes(vs: seq<Value>): nat {
    if vs == [] then 0 else Nodes(vs[0]) + ItemNodes(vs[1..])
  }

  function PairNodes(ps: seq<Pair>): nat {
    if ps == [] then 0 else 1 + Nodes(ps[0].value) + PairNodes(ps[1..])
  }

  /** The read went one byte past the end: its last tag was a uint8 whose byte is missing. */
  predicate Overshoots(s: bytes, used: nat) {
    used == |s| + 1 && s != [] && s[|s| - 1] == 0xcc
  }

  // ---------------------------------------------------------------- where a read stops

  /**
    On any bytes and whatever counts they declare, the reader fails or stops within the buffer,
    unless a uint8 tag is the last byte.
   */
  lemma {:induction false} DecodeStops(s: bytes)
    ensures Decode(s).Got? ==> 1 <= Decode(s).used && (Decode(s).used <= |s| || Overshoots(s, Decode(s).used))
    decreases |s|, 0
  {
    hide ReadHead, ReadItems, ReadPairs;
    match ReadHead(s)
    case Bad =>
    case Leaf(v, u) =>
    case Body(Text, n, u) =>
    case Body(Array, n, u) => ItemsStop(s[u..], n);
    case Body(Dict, n, u) => PairsStop(s[u..], n);
  }

  lemma {:induction false} ItemsStop(s: bytes, n: nat)
    ensures ReadItems(s, n).Got? ==> ReadItems(s, n).used <= |s| || Overshoots(s, ReadItems(s, n).used)
    decreases |s|, 1
  {
    hide ReadHead, Decode;
    if n > 0 && Decode(s).Got? && s != [] {
      DecodeStops(s);
      ItemsStop(From(s, Decode(s).used), n - 1);
    }
  }

  lemma {:induction false} PairStops(s: bytes)
    ensures ReadPair(s).Got? ==> ReadPair(s).used <= |s| || Overshoots(s, ReadPair(s).used)
    decreases |s|, 1
  {
    hide ReadHead, KeyName;
    if ReadPair(s).Got? {
      DecodeStops(s);
      DecodeStops(From(s, Decode(s).used));
    }
  }

  lemma {:induction false} PairsStop(s: bytes, n: nat)
    ensures ReadPairs(s, n).Got? ==> ReadPairs(s, n).used <= |s| || Overshoots(s, ReadPairs(s, n).used)
    decreases |s|, 2
  {
    hide ReadHead, Decode, ReadPair;
    if n > 0 && ReadPair(s).Got? {
      PairStops(s);
      PairsStop(From(s, ReadPair(s).used), n - 1);
    }
  }

  /** A buffer that does not end in 0xcc is never overrun. */
  lemma DecodeStaysInside(s: bytes)
    requires Decode(s).Got? && s[|s| - 1] != 0xcc
    ensures 1 <= Decode(s).used <= |s|
  {
    DecodeStops(s);
  }

  // ---------------------------------------------------------------- bytes after the value

  lemma HeadExtends(s: bytes, t: bytes)
    requires !ReadHead(s).Bad? && ReadHead(s).used <= |s|
    ensures ReadHead(s + t) == ReadHead(s)
  {
    assert (s + t)[0] == s[0];
    assert forall k: nat | Holds(s, k) :: Field(s + t, k) == Field(s, k);
  }

  /** A read that stays inside the buffer gives the same value whatever follows. */
  lemma {:induction false} DecodeExtends(s: bytes, t: bytes)
    requires Decode(s).Got? && Decode(s).used <= |s|
    ensures Decode(s + t) == Decode(s)
    decreases |s|, 0
  {
    hide ReadHead;
    HeadExtends(s, t);
    var h := ReadHead(s);
    assert (s + t)[h.used..] == s[h.used..] + t;
    match h
    case Leaf(v, u) =>
    case Body(Text, n, u) => assert (s + t)[u..u + n] == s[u..u + n];
    case Body(Array, n, u) => ItemsExtend(s[u..], n, t);
    case Body(Dict, n, u) => PairsExtend(s[u..], n, t);
  }

  lemma {:induction false} ItemsExtend(s: bytes, n: nat, t: bytes)
    requires ReadItems(s, n).Got? && ReadItems(s, n).used <= |s|
    ensures ReadItems(s + t, n) == ReadItems(s, n)
    decreases |s|, 1
  {
    hide ReadHead, Decode;
    if n > 0 {
      var k := Decode(s).used;
      DecodeExtends(s, t);
      assert From(s + t, k) == From(s, k) + t;
      ItemsExtend(From(s, k), n - 1, t);
    }
  }

  lemma {:induction false} PairExtends(s: bytes, t: bytes)
    requires ReadPair(s).Got? && ReadPair(s).used <= |s|
    ensures ReadPair(s + t) == ReadPair(s)
    decreases |s|, 1
  {
    hide ReadHead, Decode, KeyName;
    var k := Decode(s).used;
    DecodeExtends(s, t);
    assert From(s + t, k) == From(s, k) + t;
    DecodeExtends(From(s, k), t);
  }

  lemma {:induction false} PairsExtend(s: bytes, n: nat, t: bytes)
    requires ReadPairs(s, n).Got? && ReadPairs(s, n).used <= |s|
    ensures ReadPairs(s + t, n) == ReadPairs(s, n)
    decreases |s|, 2
  {
    hide ReadHead, Decode, ReadPair;
    if n > 0 {
      var k := ReadPair(s).used;
      PairExtends(s, t);
      assert From(s + t, k) == From(s, k) + t;
      PairsExtend(From(s, k), n - 1, t);
    }
  }

  /**
    Exactly when the position the reader returns lies past the end of the buffer: the buffer ends
    in a uint8 tag whose byte would complete the value.
   */
  lemma OvershootsExactly(s: bytes)
    requires Decode(s).Got?
    ensures Decode(s).used > |s| <==>
            s[|s| - 1] == 0xcc && Decode(s + [0]).Got? && Decode(s + [0]).used == |s| + 1
  {
    DecodeStops(s);
    if Decode(s).used <= |s| {
      DecodeExtends(s, [0]);
    } else {
      MissingByte(s, 0);
    }
  }

  lemma {:induction false} MissingByte(s: bytes, x: byte)
    requires Decode(s).Got? && Decode(s).used == |s| + 1
    ensures Decode(s + [x]).Got? && Decode(s + [x]).used == |s| + 1
    decreases |s|, 0
  {
    match ReadHead(s)
    case Leaf(v, u) =>
    case Body(Text, n, u) =>
    case Body(Array, n, u) =>
      HeadExtends(s, [x]);
      assert (s + [x])[u..] == s[u..] + [x];
      MissingItemByte(s[u..], n, x);
    case Body(Dict, n, u) =>
      HeadExtends(s, [x]);
      assert (s + [x])[u..] == s[u..] + [x];
      MissingPairsByte(s[u..], n, x);
  }

  lemma {:induction false} MissingItemByte(s: bytes, n: nat, x: byte)
    requires ReadItems(s, n).Got? && ReadItems(s, n).used == |s| + 1
    ensures ReadItems(s + [x], n).Got? && ReadItems(s + [x], n).used == |s| + 1
    decreases |s|, 1
  {
    hide ReadHead, Decode;
    var k := Decode(s).used;
    if k <= |s| {
      DecodeExtends(s, [x]);
      assert From(s + [x], k) == From(s, k) + [x];
      MissingItemByte(From(s, k), n - 1, x);
    } else {
      DecodeStops(s);
      MissingByte(s, x);
      assert n == 1;
    }
  }

  lemma {:induction false} MissingPairByte(s: bytes, x: byte)
    requires ReadPair(s).Got? && ReadPair(s).used == |s| + 1
    ensures ReadPair(s + [x]).Got? && ReadPair(s + [x]).used == |s| + 1
    decreases |s|, 1
  {
    hide ReadHead, Decode, KeyName;
    var k := Decode(s).used;
    DecodeStops(s);
    DecodeStops(From(s, k));
    DecodeExtends(s, [x]);
    assert From(s + [x], k) == From(s, k) + [x];
    MissingByte(From(s, k), x);
  }

  lemma {:induction false} MissingPairsByte(s: bytes, n: nat, x: byte)
    requires ReadPairs(s, n).Got? && ReadPairs(s, n).used == |s| + 1
    ensures ReadPairs(s + [x], n).Got? && ReadPairs(s + [x], n).used == |s| + 1
    decreases |s|, 2
  {
    hide ReadHead, Decode, ReadPair;
    var k := ReadPair(s).used;
    if k <= |s| {
      PairExtends(s, [x]);
      assert From(s + [x], k) == From(s, k) + [x];
      MissingPairsByte(From(s, k), n - 1, x);
    } else {
      PairStops(s);
      MissingPairByte(s, x);
      assert n == 1;
    }
  }

  // ---------------------------------------------------------------- the size of the value

  /** The value read has at most as many nodes as the read used bytes. */
  lemma {:induction false} NodesWithinBytes(s: bytes)
    requires Decode(s).Got?
    ensures Nodes(Decode(s).value) <= Decode(s).used
    decreases |s|, 0
  {
    hide ReadHead;
    match ReadHead(s)
    case Leaf(v, u) =>
    case Body(Text, n, u) =>
    case Body(Array, n, u) => ItemNodesWithinBytes(s[u..], n);
    case Body(Dict, n, u) =>
      PairNodesWithinBytes(s[u..], n);
      PutAllNodes(ReadPairs(s[u..], n).value);
  }

  lemma {:induction false} ItemNodesWithinBytes(s: bytes, n: nat)
    requires ReadItems(s, n).Got?
    ensures ItemNodes(ReadItems(s, n).value) <= ReadItems(s, n).used
    decreases |s|, 1
  {
    hide ReadHead, Decode;
    if n > 0 {
      NodesWithinBytes(s);
      ItemNodesWithinBytes(From(s, Decode(s).used), n - 1);
    }
  }

  lemma {:induction false} PairNodesWithinBytes(s: bytes, n: nat)
    requires ReadPairs(s, n).Got?
    ensures PairNodes(ReadPairs(s, n).value) <= ReadPairs(s, n).used
    decreases |s|, 1
  {
    hide ReadHead, KeyName, Decode;
    if n > 0 {
      NodesWithinBytes(From(s, Decode(s).used));
      PairNodesWithinBytes(From(s, ReadPair(s).used), n - 1);
    }
  }

  /** Merging equal keys only drops nodes. */
  lemma {:induction false} PutAllNodes(ps: seq<Pair>)
    ensures PairNodes(PutAll(ps)) <= PairNodes(ps)
  {
    if ps != [] {
      var init, last := ps[..|ps| - 1], ps[|ps| - 1];
      PutAllNodes(init);
      PutNodes(PutAll(init), last.key, last.value);
      PairNodesSnoc(init, last);
      assert init + [last] == ps;
    }
  }

  lemma {:induction false} PutNodes(ps: seq<Pair>, key: bytes, value: Value)
    ensures PairNodes(Put(ps, key, value)) <= PairNodes(ps) + 1 + Nodes(value)
  {
    if ps != [] && ps[0].key != key {
      PutNodes(ps[1..], key, value);
    }
  }

  lemma {:induction false} PairNodesSnoc(ps: seq<Pair>, p: Pair)
    ensures PairNodes(ps + [p]) == PairNodes(ps) + 1 + Nodes(p.value)
  {
    if ps != [] {
      assert (ps + [p])[1..] == ps[1..] + [p];
      PairNodesSnoc(ps[1..], p);
    }
  }

  // ---------------------------------------------------------------- equal keys

  /** The value of the last pair with this key. */
  function LastValue(ps: seq<Pair>, key: bytes): Value {
    if ps == [] then Nil
    else if ps[|ps| - 1].key == key then ps[|ps| - 1].value
    else LastValue(ps[..|ps| - 1], key)
  }

  /** Of equal keys in a map the last one's value is kept, once; a map without pairs is nil. */
  lemma EqualKeysMerge(ps: seq<Pair>, key: bytes)
    ensures Plist(ps) == Nil <==> ps == []
    ensures ps != [] ==> Plist(ps).Map? && DistinctKeys(Plist(ps).pairs)
    ensures Get(Plist(ps), key) == LastValue(ps, key)
  {
    MergeKeepsLast(ps, key);
  }

  lemma {:induction false} MergeKeepsLast(ps: seq<Pair>, key: bytes)
    ensures DistinctKeys(PutAll(ps)) && GetPair(PutAll(ps), key) == LastValue(ps, key)
  {
    if ps != [] {
      var last := ps[|ps| - 1];
      MergeKeepsLast(ps[..|ps| - 1], key);
      GetOfPut(PutAll(ps[..|ps| - 1]), last.key, last.value, key);
      PutKeys(PutAll(ps[..|ps| - 1]), last.key, last.value);
    }
  }

  lemma {:induction false} GetOfPut(ps: seq<Pair>, key: bytes, value: Value, other: bytes)
    ensures GetPair(Put(ps, key, value), other) == if other == key then value else GetPair(ps, other)
  {
    if ps != [] && ps[0].key != key {
      GetOfPut(ps[1..], key, value, other);
    }
  }

  /** A key is added at the end, or was there. */
  lemma {:induction false} PutKeys(ps: seq<Pair>, key: bytes, value: Value)
    requires DistinctKeys(ps)
    ensures DistinctKeys(Put(ps, key, value))
    ensures forall p :: p in Put(ps, key, value) ==> p.key == key || p in ps
  {
    if ps != [] && ps[0].key != key {
      var rest := Put(ps[1..], key, value);
      PutKeys(ps[1..], key, value);
      assert forall p :: p in ps[1..] ==> p in ps && p.key != ps[0].key;
      FirstIsDistinct(ps[0], rest);
      assert Put(ps, key, value) == [ps[0]] + rest;
    }
  }

  lemma FirstIsDistinct(first: Pair, rest: seq<Pair>)
    requires DistinctKeys(rest) && forall p :: p in rest ==> p.key != first.key
    ensures DistinctKeys([first] + rest)
  {
    assert forall i :: 0 <= i < |rest| ==> rest[i] in rest;
  }

  // ---------------------------------------------------------------- what is refused

  /** The type tags that have no branch: the reserved one, the extension types and float32. */
  const REFUSED: set<byte> := {0xc1, 0xc7, 0xc8, 0xc9, 0xca, 0xd4, 0xd5, 0xd6, 0xd7, 0xd8}

  /** With enough bytes behind it, a tag is refused if and only if it is one of these. */
  lemma RefusedExactly(s: bytes)
    requires |s| >= 9
    ensures ReadHead(s).Bad? <==> s[0] in REFUSED
    ensures s[0] in REFUSED ==> Decode(s).Fail?
  {
    hide Unsigned, Signed, TagOf, Decode;
    UnsupportedTags(s[0]);
    if s[0] in REFUSED {
      BadHeadFails(s);
    }
  }

  lemma UnsupportedTags(b: byte)
    ensures TagOf(b).Unsupported? <==> b in REFUSED
  {
  }

  lemma BadHeadFails(s: bytes)
    requires ReadHead(s).Bad?
    ensures Decode(s).Fail?
  {
    hide ReadHead;
  }

  // ---------------------------------------------------------------- the names of keys

  predicate IsChar(v: Value) {
    v.Int? && 0 <= v.n <= 0x3fffff
  }

  /** A key names a keyword if and only if it is nil, a string or an array of characters. */
  lemma {:induction false} KeyNameExactly(v: Value)
    ensures KeyName(v).Some? <==> v.Nil? || v.Str? || (v.Arr? && forall i :: 0 <= i < |v.items| ==> IsChar(v.items[i]))
  {
    if v.Arr? {
      CharsNameExactly(v.items);
    }
  }

  lemma {:induction false} CharsNameExactly(vs: seq<Value>)
    ensures CharsName(vs).Some? <==> forall i :: 0 <= i < |vs| ==> IsChar(vs[i])
  {
    if vs != [] {
      CharsNameExactly(vs[1..]);
      assert (forall i :: 0 <= i < |vs| ==> IsChar(vs[i])) <==>
          IsChar(vs[0]) && forall i :: 0 <= i < |vs[1..]| ==> IsChar(vs[1..][i]) by {
        assert forall i :: 0 < i < |vs| ==> vs[i] == vs[1..][i - 1];
      }
    }
  }

  /** How many bytes UTF-8 has for the character that begins with byte b. */
  function CodeLength(b: byte): nat {
    if b < 0xc0 then 1 else if b < 0xe0 then 2 else if b < 0xf0 then 3 else if b < 0xf8 then 4 else 5
  }

  /** The six bits of a byte after the first. */
  function Low(b: byte): int {
    b - 0x80
  }

  /** The bits of a first byte whose marker is mark. */
  function High(b: byte, mark: int): int {
    b - mark
  }

  /** The character that a UTF-8 sequence stands for. */
  function CharOf(s: bytes): int
    requires 1 <= |s| <= 5
  {
    match |s|
    case 1 => s[0]
    case 2 => High(s[0], 0xc0) * 64 + Low(s[1])
    case 3 => (High(s[0], 0xe0) * 64 + Low(s[1])) * 64 + Low(s[2])
    case 4 => ((High(s[0], 0xf0) * 64 + Low(s[1])) * 64 + Low(s[2])) * 64 + Low(s[3])
    case _ => (((High(s[0], 0xf8) * 64 + Low(s[1])) * 64 + Low(s[2])) * 64 + Low(s[3])) * 64 + Low(s[4])
  }

  /** A character's bytes are its UTF-8 sequence; the last 128 characters are single raw bytes. */
  lemma CharBytesAreUtf8(c: nat)
    requires c <= 0x3fffff
    ensures var s := CharBytes(c);
            if c <= 0x3fff7f then 1 <= |s| == CodeLength(s[0]) <= 5 && CharOf(s) == c
            else s == [c - 0x3fff00] && s[0] >= 0x80
  {
    if c <= 0x7ff {
      SixBits(c);
    } else if c <= 0xffff {
      SixBits(c);
      SixBits(c / 64);
    } else if c <= 0x3fff7f {
      FourOrFive(c);
    }
  }

  lemma FourOrFive(c: nat)
    requires 0xffff < c <= 0x3fff7f
    ensures var s := CharBytes(c);
            |s| == CodeLength(s[0]) && |s| in {4, 5} && CharOf(s) == c
  {
    SixBits(c);
    SixBits(c / 64);
    SixBits(c / 4096);
    var e := c / 262144;
    assert c <= 0x1fffff ==> e < 8;
    assert e < 64;
  }

  lemma SixBits(c: nat)
    ensures c == c / 64 * 64 + c % 64 && c / 4096 == c / 64 / 64 && c / 262144 == c / 4096 / 64
  {
  }

  /** An array's name is that of its characters, one after the other. */
  lemma {:induction false} CharsNameConcat(a: seq<Value>, b: seq<Value>)
    requires CharsName(a).Some? && CharsName(b).Some?
    ensures CharsName(a + b) == Some(CharsName(a).value + CharsName(b).value)
  {
    hide CharBytes, CharsName;
    if a == [] {
      assert a + b == b && [] + CharsName(b).value == CharsName(b).value;
      NameOf(a);
    } else {
      assert (a + b)[0] == a[0] && (a + b)[1..] == a[1..] + b;
      NameOf(a);
      NameOf(a + b);
      CharsNameConcat(a[1..], b);
      Associative(CharBytes(a[0].n), CharsName(a[1..]).value, CharsName(b).value);
    }
  }

  lemma NameOf(vs: seq<Value>)
    ensures vs == [] ==> CharsName(vs) == Some([])
    ensures vs != [] ==>
              (CharsName(vs).Some? <==> IsChar(vs[0]) && CharsName(vs[1..]).Some?) &&
              (CharsName(vs).Some? ==> CharsName(vs).value == CharBytes(vs[0].n) + CharsName(vs[1..]).value)
  {
  }

  lemma Associative(a: bytes, b: bytes, c: bytes)
    ensures (a + b) + c == a + (b + c)
  {
  }
}
