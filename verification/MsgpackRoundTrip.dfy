/**
  Writing a value and reading it back: what comes back, and exactly which values survive.
 */
module MsgpackRoundTrip {
  import opened Bytes
  import opened Msgpack
  import opened MsgpackWriter
  import opened Options

  /** What a value reads back as: bin as a plain string, the empty plist as nil, equal keys merged. */
  function Norm(v: Value): Value {
    match v
    case Bin(data) => Str(data)
    case Arr(items) => Arr(NormAll(items))
    case Map(pairs) => Plist(NormPairs(pairs))
    case _ => v
  }

  function NormAll(vs: seq<Value>): (r: seq<Value>)
    ensures |r| == |vs|
  {
    if vs == [] then [] else [Norm(vs[0])] + NormAll(vs[1..])
  }

  function NormPairs(ps: seq<Pair>): (r: seq<Pair>)
    ensures |r| == |ps|
    ensures forall i :: 0 <= i < |ps| ==> r[i].key == ps[i].key
  {
    if ps == [] then [] else [Pair(ps[0].key, Norm(ps[0].value))] + NormPairs(ps[1..])
  }

  /** Integers fit in 64 bits, lengths in 32, and no plist starts with the key :bin. */
  predicate Supported(v: Value) {
    match v
    case Int(n) => -LIMIT63 <= n < LIMIT64
    case Str(text) => |text| < LIMIT32
    case Bin(data) => |data| < LIMIT32
    case Arr(items) => |items| < LIMIT32 && AllSupported(items)
    case Map(pairs) =>
      && |pairs| < LIMIT32
      && (pairs != [] ==> pairs[0].key != BIN_KEY)
      && PairsSupported(pairs)
    case _ => true
  }

  predicate AllSupported(vs: seq<Value>) {
    vs != [] ==> Supported(vs[0]) && AllSupported(vs[1..])
  }

  predicate PairsSupported(ps: seq<Pair>) {
    ps != [] ==> |ps[0].key| < LIMIT32 && Supported(ps[0].value) && PairsSupported(ps[1..])
  }

  /** Keys are distinct in every plist of the value. */
  ghost predicate Distinct(v: Value) {
    match v
    case Arr(items) => AllDistinct(items)
    case Map(pairs) => DistinctKeys(pairs) && PairsDistinct(pairs)
    case _ => true
  }

  ghost predicate AllDistinct(vs: seq<Value>) {
    vs != [] ==> Distinct(vs[0]) && AllDistinct(vs[1..])
  }

  ghost predicate PairsDistinct(ps: seq<Pair>) {
    ps != [] ==> Distinct(ps[0].value) && PairsDistinct(ps[1..])
  }

  /** The value came back, and the reader stopped exactly where the writer did. */
  ghost predicate ComesBack(v: Value, rest: bytes) {
    && Write(v).Some?
    && Decode(Write(v).value + rest) == Got(Norm(v), |Write(v).value|)
  }

  // ---------------------------------------------------------------- supported values survive

  lemma {:induction false} RoundTrip(v: Value, rest: bytes)
    requires Supported(v)
    ensures ComesBack(v, rest)
    decreases v, 0
  {
    hide ComesBack, Norm;
    match v
    case Arr(items) => ArrComesBack(items, rest);
    case Map(pairs) =>
      if pairs == [] {
        LeafComesBack(v, rest);
      } else {
        MapComesBack(pairs, rest);
      }
    case _ => LeafComesBack(v, rest);
  }

  lemma LeafComesBack(v: Value, rest: bytes)
    requires Supported(v) && !v.Arr? && (v.Map? ==> v.pairs == [])
    ensures ComesBack(v, rest)
  {
    hide ReadHead, Decode, WriteInt, WriteStr, BinHead, Wrapped;
    match v
    case Int(n) => IntBack(n, rest);
    case Float(image) => FloatBack(image, rest);
    case Str(text) => StrBack(text, rest);
    case Bin(data) => BinBack(data, rest);
    case True => LeafBack([0xc3], rest);
    case False => LeafBack([0xc2], rest);
    case Nil => LeafBack([0xc0], rest);
    case Map(_) => LeafBack([0xc0], rest);
    case Arr(_) =>
  }

  lemma {:induction false} ArrComesBack(items: seq<Value>, rest: bytes)
    requires |items| < LIMIT32 && AllSupported(items)
    ensures ComesBack(Arr(items), rest)
    decreases items, 1
  {
    hide ReadHead, Decode, ReadItems, ArrHead, AllSupported, NormAll, WriteAll;
    AllBack(items, rest);
    ArrayBack(|items|, WriteAll(items).value, rest);
  }

  lemma {:induction false} MapComesBack(pairs: seq<Pair>, rest: bytes)
    requires pairs != [] && pairs[0].key != BIN_KEY && |pairs| < LIMIT32 && PairsSupported(pairs)
    ensures ComesBack(Map(pairs), rest)
    decreases pairs, 1
  {
    hide ReadHead, Decode, ReadPairs, PlistHead, PairsSupported, NormPairs, WritePairs, PutAll;
    PairsBack(pairs, rest);
    PlistBack(|pairs|, WritePairs(pairs).value, rest);
  }

  lemma LeafBack(s: bytes, rest: bytes)
    requires s in {[0xc0], [0xc2], [0xc3]}
    ensures Decode(s + rest) == Got(if s == [0xc0] then Nil else if s == [0xc2] then False else True, 1)
  {
    ShortHead(s[0], rest);
  }

  lemma IntBack(n: int, rest: bytes)
    ensures Decode(WriteInt(n) + rest) == Got(Int(Wrapped(n)), |WriteInt(n)|)
    ensures Wrapped(n) == n <==> -LIMIT63 <= n < LIMIT64
  {
    hide ReadHead, WriteInt;
    IntHead(n, rest);
    PowValues();
  }

  lemma FloatBack(image: Image, rest: bytes)
    ensures Decode([0xcb] + image + rest) == Got(Float(image), 9)
  {
    hide Unsigned, Signed, Pow256, ReadItems, ReadPairs;
    var s := [0xcb] + image + rest;
    assert Field(s, 8) == image;
    assert ReadHead(s) == Leaf(Float(image), 9);
  }

  lemma StrBack(text: bytes, rest: bytes)
    ensures var w := WriteStr(text);
            |text| < LIMIT32 ==> Decode(w + rest) == Got(Str(text), |w|)
    ensures var r := Decode(WriteStr(text) + rest);
            r.Got? ==> r.value.Str? && (r.value.text == text ==> |text| < LIMIT32)
  {
    hide ReadHead, StrHead;
    var head := StrHead(|text|);
    StrHeadRead(|text|, text + rest);
    assert head + (text + rest) == WriteStr(text) + rest;
    assert (WriteStr(text) + rest)[|head|..|head| + |text|] == text;
  }

  lemma BinBack(data: bytes, rest: bytes)
    ensures var w := BinHead(|data|) + data;
            |data| < LIMIT32 ==> Decode(w + rest) == Got(Str(data), |w|)
    ensures var r := Decode(BinHead(|data|) + data + rest);
            r.Got? ==> r.value.Str? && (r.value.text == data ==> |data| < LIMIT32)
  {
    hide ReadHead, BinHead;
    var head := BinHead(|data|);
    BinHeadRead(|data|, data + rest);
    assert head + (data + rest) == head + data + rest;
    assert (head + data + rest)[|head|..|head| + |data|] == data;
  }

  /** Decoding a written array comes down to reading its items. */
  lemma ArrayBack(n: nat, body: bytes, rest: bytes)
    ensures var w := ArrHead(n) + body;
            Decode(w + rest) == match ReadItems(body + rest, n % LIMIT32)
                                case Fail => Fail
                                case Got(vs, k) => Got(Arr(vs), |ArrHead(n)| + k)
  {
    hide ReadHead, ArrHead;
    var head := ArrHead(n);
    ArrHeadRead(n, body + rest);
    assert head + (body + rest) == head + body + rest;
    assert (head + body + rest)[|head|..] == body + rest;
  }

  lemma PlistBack(n: nat, body: bytes, rest: bytes)
    ensures var w := PlistHead(n) + body;
            Decode(w + rest) == match ReadPairs(body + rest, n % LIMIT32)
                                case Fail => Fail
                                case Got(ps, k) => Got(Plist(ps), |PlistHead(n)| + k)
  {
    hide ReadHead, PlistHead;
    var head := PlistHead(n);
    PlistHeadRead(n, body + rest);
    assert head + (body + rest) == head + body + rest;
    assert (head + body + rest)[|head|..] == body + rest;
  }

  lemma {:induction false} AllBack(vs: seq<Value>, rest: bytes)
    requires AllSupported(vs)
    ensures WriteAll(vs).Some?
    ensures ReadItems(WriteAll(vs).value + rest, |vs|) == Got(NormAll(vs), |WriteAll(vs).value|)
    decreases vs, 0
  {
    hide ReadHead, Decode, Write, Norm, Supported;
    if vs != [] {
      AllBack(vs[1..], rest);
      var tail := WriteAll(vs[1..]).value;
      RoundTrip(vs[0], tail + rest);
      Split(Write(vs[0]).value, tail, rest);
    }
  }

  lemma Split(a: bytes, b: bytes, rest: bytes)
    ensures a + b + rest == a + (b + rest)
    ensures From(a + (b + rest), |a|) == b + rest
  {
  }

  lemma PairBack(p: Pair, rest: bytes)
    requires |p.key| < LIMIT32 && ComesBack(p.value, rest)
    ensures var w := WriteStr(p.key) + Write(p.value).value;
            ReadPair(w + rest) == Got(Pair(p.key, Norm(p.value)), |w|)
  {
    hide ReadHead, Decode, Write, Norm, WriteStr;
    var head, body := WriteStr(p.key), Write(p.value).value;
    StrBack(p.key, body + rest);
    Split(head, body, rest);
  }

  lemma {:induction false} PairsBack(ps: seq<Pair>, rest: bytes)
    requires PairsSupported(ps)
    ensures WritePairs(ps).Some?
    ensures ReadPairs(WritePairs(ps).value + rest, |ps|) == Got(NormPairs(ps), |WritePairs(ps).value|)
    decreases ps, 0
  {
    hide ReadHead, Decode, ReadPair, Write, Norm, Supported;
    if ps != [] {
      PairsBack(ps[1..], rest);
      var tail := WritePairs(ps[1..]).value;
      RoundTrip(ps[0].value, tail + rest);
      PairBack(ps[0], tail + rest);
      Split(WriteStr(ps[0].key) + Write(ps[0].value).value, tail, rest);
    }
  }

  // ---------------------------------------------------------------- and only they do

  /** An unsupported value fails to be written, fails to be read, or reads back as something else. */
  ghost predicate Lost(v: Value, rest: bytes) {
    Write(v).Some? ==> Decode(Write(v).value + rest).Got? ==> Decode(Write(v).value + rest).value != Norm(v)
  }

  lemma {:induction false} UnsupportedIsLost(v: Value, rest: bytes)
    requires !Supported(v) && Distinct(v)
    ensures Lost(v, rest)
    decreases v, 0
  {
    hide ReadHead, StrHead, BinHead, ArrHead, PlistHead, WriteInt, WriteMistaken;
    match v
    case Int(n) => IntBack(n, rest);
    case Str(text) => StrBack(text, rest);
    case Bin(data) => BinBack(data, rest);
    case Arr(items) =>
      if WriteAll(items).Some? {
        ArrayBack(|items|, WriteAll(items).value, rest);
        if |items| < LIMIT32 {
          UnsupportedItemsAreLost(items, rest);
        }
      }
    case Map(pairs) =>
      if pairs[0].key == BIN_KEY {
        MistakenIsLost(pairs, rest);
      } else if WritePairs(pairs).Some? {
        UnsupportedPlistIsLost(pairs, rest);
      }
  }

  /** A plist that starts with the key :bin reads back as a string, if it can be written at all. */
  lemma MistakenIsLost(ps: seq<Pair>, rest: bytes)
    requires ps != [] && ps[0].key == BIN_KEY
    ensures Lost(Map(ps), rest)
    ensures Write(Map(ps)).Some? ==> Decode(Write(Map(ps)).value + rest) == Got(Str([ps[0].value.n]), 3)
  {
    hide ReadHead;
    if Write(Map(ps)).Some? {
      BinBack([ps[0].value.n], rest);
    }
  }

  lemma ConsDiffers<T>(a: T, s: seq<T>, b: T, t: seq<T>)
    requires a != b || s != t
    ensures [a] + s != [b] + t
  {
    assert ([a] + s)[0] == a && ([a] + s)[1..] == s;
    assert ([b] + t)[0] == b && ([b] + t)[1..] == t;
  }

  lemma {:induction false} UnsupportedItemsAreLost(vs: seq<Value>, rest: bytes)
    requires !AllSupported(vs) && AllDistinct(vs) && WriteAll(vs).Some?
    ensures var r := ReadItems(WriteAll(vs).value + rest, |vs|); r.Got? ==> r.value != NormAll(vs)
    decreases vs, 0
  {
    hide ReadHead, Decode, Write, Norm, Supported;
    var tail := WriteAll(vs[1..]).value;
    Split(Write(vs[0]).value, tail, rest);
    var first, others := Decode(Write(vs[0]).value + (tail + rest)), ReadItems(tail + rest, |vs| - 1);
    if Supported(vs[0]) {
      RoundTrip(vs[0], tail + rest);
      UnsupportedItemsAreLost(vs[1..], rest);
      if others.Got? {
        ConsDiffers(first.value, others.value, Norm(vs[0]), NormAll(vs[1..]));
      }
    } else {
      UnsupportedIsLost(vs[0], tail + rest);
      var all := ReadItems(WriteAll(vs).value + rest, |vs|);
      if all.Got? {
        ConsDiffers(first.value, all.value[1..], Norm(vs[0]), NormAll(vs[1..]));
      }
    }
  }

  lemma {:induction false} UnsupportedPairsAreLost(ps: seq<Pair>, rest: bytes)
    requires !PairsSupported(ps) && PairsDistinct(ps) && WritePairs(ps).Some?
    ensures var r := ReadPairs(WritePairs(ps).value + rest, |ps|); r.Got? ==> r.value != NormPairs(ps)
    decreases ps, 0
  {
    hide ReadHead, Decode, ReadPair, Write, WriteStr, Norm, Supported;
    var tail := WritePairs(ps[1..]).value;
    Split(WriteStr(ps[0].key) + Write(ps[0].value).value, tail, rest);
    var first := ReadPair(WriteStr(ps[0].key) + Write(ps[0].value).value + (tail + rest));
    var others := ReadPairs(tail + rest, |ps| - 1);
    if |ps[0].key| < LIMIT32 && Supported(ps[0].value) {
      RoundTrip(ps[0].value, tail + rest);
      PairBack(ps[0], tail + rest);
      UnsupportedPairsAreLost(ps[1..], rest);
      if others.Got? {
        ConsDiffers(first.value, others.value, Pair(ps[0].key, Norm(ps[0].value)), NormPairs(ps[1..]));
      }
    } else {
      if |ps[0].key| < LIMIT32 {
        UnsupportedIsLost(ps[0].value, tail + rest);
      }
      PairIsLost(ps[0], tail + rest);
      var all := ReadPairs(WritePairs(ps).value + rest, |ps|);
      if all.Got? {
        ConsDiffers(first.value, all.value[1..], Pair(ps[0].key, Norm(ps[0].value)), NormPairs(ps[1..]));
      }
    }
  }

  lemma PairIsLost(p: Pair, rest: bytes)
    requires Write(p.value).Some?
    requires |p.key| >= LIMIT32 || Lost(p.value, rest)
    ensures var r := ReadPair(WriteStr(p.key) + Write(p.value).value + rest);
            r.Got? ==> r.value != Pair(p.key, Norm(p.value))
  {
    hide ReadHead, Write, Norm, WriteStr;
    var head, body := WriteStr(p.key), Write(p.value).value;
    StrBack(p.key, body + rest);
    Split(head, body, rest);
  }

  lemma {:induction false} UnsupportedPlistIsLost(ps: seq<Pair>, rest: bytes)
    requires ps != [] && ps[0].key != BIN_KEY && !Supported(Map(ps))
    requires DistinctKeys(ps) && PairsDistinct(ps) && WritePairs(ps).Some?
    ensures Lost(Map(ps), rest)
    decreases ps, 1
  {
    hide ReadHead, Decode, ReadPair, ReadPairs, PlistHead, WritePairs;
    PlistBack(|ps|, WritePairs(ps).value, rest);
    var r := ReadPairs(WritePairs(ps).value + rest, |ps| % LIMIT32);
    PutAllDistinct(NormPairs(ps));
    if r.Got? && PutAll(r.value) == NormPairs(ps) {
      assert |ps| % LIMIT32 == |ps|;
      PutAllFull(r.value);
      UnsupportedPairsAreLost(ps, rest);
    }
  }

  lemma {:induction false} PutAllDistinct(ps: seq<Pair>)
    requires DistinctKeys(ps)
    ensures PutAll(ps) == ps
  {
    if ps != [] {
      PutAllDistinct(ps[..|ps| - 1]);
      PutNew(ps[..|ps| - 1], ps[|ps| - 1].key, ps[|ps| - 1].value);
    }
  }

  lemma {:induction false} PutNew(ps: seq<Pair>, key: bytes, value: Value)
    requires forall p :: p in ps ==> p.key != key
    ensures Put(ps, key, value) == ps + [Pair(key, value)]
  {
    if ps != [] {
      PutNew(ps[1..], key, value);
    }
  }

  /** If merging dropped nothing, it changed nothing. */
  lemma {:induction false} PutAllFull(ps: seq<Pair>)
    requires |PutAll(ps)| == |ps|
    ensures PutAll(ps) == ps
  {
    if ps != [] {
      var init := ps[..|ps| - 1];
      PutAllFull(init);
      PutGrows(init, ps[|ps| - 1].key, ps[|ps| - 1].value);
    }
  }

  lemma {:induction false} PutGrows(ps: seq<Pair>, key: bytes, value: Value)
    requires |Put(ps, key, value)| == |ps| + 1
    ensures Put(ps, key, value) == ps + [Pair(key, value)]
  {
    if ps != [] {
      PutGrows(ps[1..], key, value);
    }
  }

  // ---------------------------------------------------------------- the theorem

  /**
    Reading what the writer produced, followed by any bytes, returns the value and stops exactly
    at its end if and only if the value is supported. Nested values included; keys distinct.
   */
  lemma RoundTripExactly(v: Value, rest: bytes)
    requires Distinct(v)
    ensures ComesBack(v, rest) <==> Supported(v)
  {
    if Supported(v) {
      RoundTrip(v, rest);
    } else {
      UnsupportedIsLost(v, rest);
    }
  }

  /** The documented values, with no binary wrapper inside, come back unchanged. */
  ghost predicate Canonical(v: Value) {
    match v
    case Bin(_) => false
    case Arr(items) => AllCanonical(items)
    case Map(pairs) => pairs != [] && DistinctKeys(pairs) && PairsCanonical(pairs)
    case _ => true
  }

  ghost predicate AllCanonical(vs: seq<Value>) {
    vs != [] ==> Canonical(vs[0]) && AllCanonical(vs[1..])
  }

  ghost predicate PairsCanonical(ps: seq<Pair>) {
    ps != [] ==> Canonical(ps[0].value) && PairsCanonical(ps[1..])
  }

  lemma {:induction false} CanonicalUnchanged(v: Value)
    requires Canonical(v)
    ensures Norm(v) == v
  {
    match v
    case Arr(items) => AllUnchanged(items);
    case Map(pairs) => PairsUnchanged(pairs); PutAllDistinct(pairs);
    case _ =>
  }

  lemma {:induction false} AllUnchanged(vs: seq<Value>)
    requires AllCanonical(vs)
    ensures NormAll(vs) == vs
  {
    if vs != [] {
      CanonicalUnchanged(vs[0]);
      AllUnchanged(vs[1..]);
    }
  }

  lemma {:induction false} PairsUnchanged(ps: seq<Pair>)
    requires PairsCanonical(ps)
    ensures NormPairs(ps) == ps
  {
    if ps != [] {
      CanonicalUnchanged(ps[0].value);
      PairsUnchanged(ps[1..]);
    }
  }

  /** The plist (:bin 65) is a value the writer accepts and the reader returns as the string "A". */
  lemma BinPlistExample()
    ensures Write(Map([Pair(BIN_KEY, Int(65))])) == Some([0xc4, 1, 65])
    ensures Decode([0xc4, 1, 65]) == Got(Str([65]), 3)
  {
    hide ReadHead, Decode;
    var v := Map([Pair(BIN_KEY, Int(65))]);
    assert BigEndian(1, 1) == BigEndian(0, 0) + [1];
    assert BinHead(1) + [65] == [0xc4, 1, 65];
    assert WriteMistaken(v.pairs) == Some([0xc4, 1, 65]);
    BinBack([65], []);
    assert [0xc4, 1, 65] == BinHead(1) + [65] + [];
  }
}
