/**
  The MessagePack subset of flitrpc.el: the value type, the recursive reader and the writer.

  The reader works on the bytes of the buffer from its position on and says how many it used,
  so position + used is the elisp function's NEW-POS.
 */
module Msgpack {
  import opened Bytes
  import opened Options

  type Image = s: bytes | |s| == 8 witness [0, 0, 0, 0, 0, 0, 0, 0]

  /** A plist entry; the key is the keyword's name without its colon. */
  datatype Pair = Pair(key: bytes, value: Value)

  /**
    The elisp values that cross the wire. Strings are their UTF-8 bytes, floats their IEEE image.
    Bin is the (:bin . STRING) wrapper, which only the writer sees; the empty plist is nil.
   */
  datatype Value =
    | Nil
    | True
    | False
    | Int(n: int)
    | Float(image: Image)
    | Str(text: bytes)
    | Bin(data: bytes)
    | Arr(items: seq<Value>)
    | Map(pairs: seq<Pair>)

  datatype Read<+T> = Fail | Got(value: T, used: nat)

  // ---------------------------------------------------------------- plists

  /** plist-put: replace the value of the first equal key, else append. */
  function Put(ps: seq<Pair>, key: bytes, value: Value): (r: seq<Pair>)
    ensures |ps| <= |r| <= |ps| + 1
  {
    if ps == [] then [Pair(key, value)]
    else if ps[0].key == key then [Pair(key, value)] + ps[1..]
    else [ps[0]] + Put(ps[1..], key, value)
  }

  /** The plist that successive plist-puts build. */
  function PutAll(ps: seq<Pair>): (r: seq<Pair>)
    ensures |r| <= |ps|
  {
    if ps == [] then []
    else Put(PutAll(ps[..|ps| - 1]), ps[|ps| - 1].key, ps[|ps| - 1].value)
  }

  function Plist(ps: seq<Pair>): Value {
    if ps == [] then Nil else Map(PutAll(ps))
  }

  /** plist-get on a value that may not be a plist at all. */
  function Get(v: Value, key: bytes): Value {
    if v.Map? then GetPair(v.pairs, key) else Nil
  }

  function GetPair(ps: seq<Pair>, key: bytes): Value {
    if ps == [] then Nil
    else if ps[0].key == key then ps[0].value
    else GetPair(ps[1..], key)
  }

  ghost predicate DistinctKeys(ps: seq<Pair>) {
    forall i, j :: 0 <= i < j < |ps| ==> ps[i].key != ps[j].key
  }

  // ---------------------------------------------------------------- reader

  datatype Shape = Text | Array | Dict

  /** What a tag byte stands for; k is the width of the big-endian field after it. */
  datatype Tag =
    | Plain(value: Value)
    | Short(shape: Shape, count: nat)
    | Sized(shape: Shape, k: nat)
    | Natural(k: nat)
    | Integer(k: nat)
    | Double
    | Unsupported

  function TagOf(b: byte): (t: Tag)
    ensures t.Plain? ==> !t.value.Arr? && !t.value.Map?
    ensures (t.Sized? || t.Natural? || t.Integer?) ==> t.k in {1, 2, 4, 8}
  {
    if b <= 0x7f then Plain(Int(b))
    else if b <= 0x8f then Short(Dict, b % 16)
    else if b <= 0x9f then Short(Array, b % 16)
    else if b <= 0xbf then Short(Text, b % 32)
    else if b == 0xc0 then Plain(Nil)
    else if b == 0xc2 then Plain(False)
    else if b == 0xc3 then Plain(True)
    else if b == 0xc4 then Sized(Text, 1)
    else if b == 0xc5 then Sized(Text, 2)
    else if b == 0xc6 then Sized(Text, 4)
    else if b == 0xcb then Double
    else if b == 0xcc then Natural(1)
    else if b == 0xcd then Natural(2)
    else if b == 0xce then Natural(4)
    else if b == 0xcf then Natural(8)
    else if b == 0xd0 then Integer(1)
    else if b == 0xd1 then Integer(2)
    else if b == 0xd2 then Integer(4)
    else if b == 0xd3 then Integer(8)
    else if b == 0xd9 then Sized(Text, 1)
    else if b == 0xda then Sized(Text, 2)
    else if b == 0xdb then Sized(Text, 4)
    else if b == 0xdc then Sized(Array, 2)
    else if b == 0xdd then Sized(Array, 4)
    else if b == 0xde then Sized(Dict, 2)
    else if b == 0xdf then Sized(Dict, 4)
    else if b >= 0xe0 then Plain(Int((b as int) - 256))
    else Unsupported
  }

  /** What the first bytes announce: a whole leaf, or how much follows and where it starts. */
  datatype Head =
    | Bad
    | Leaf(value: Value, used: nat)
    | Body(shape: Shape, count: nat, used: nat)

  /** The k-byte field after the tag, when the buffer holds it. */
  predicate Holds(s: bytes, k: nat) {
    1 + k <= |s|
  }

  function Field(s: bytes, k: nat): bytes
    requires Holds(s, k)
  {
    s[1..1 + k]
  }

  function ReadHead(s: bytes): (h: Head)
    ensures !h.Bad? ==> 1 <= h.used && (h.used <= |s| || (s == [0xcc] && h == Leaf(Nil, 2)))
    ensures h.Leaf? ==> !h.value.Arr? && !h.value.Map?
  {
    if s == [] then Bad else
    match TagOf(s[0])
    case Plain(v) => Leaf(v, 1)
    case Short(shape, n) => Body(shape, n, 1)
    case Sized(shape, k) => if Holds(s, k) then Body(shape, Unsigned(Field(s, k)), 1 + k) else Bad
    case Natural(k) =>
      if Holds(s, k) then Leaf(Int(Unsigned(Field(s, k))), 1 + k)
      // The uint8 branch conses whatever char-after returns, and past the end that is nil.
      else if k == 1 then Leaf(Nil, 2)
      else Bad
    case Integer(k) => if Holds(s, k) then Leaf(Int(Signed(Field(s, k))), 1 + k) else Bad
    case Double => if Holds(s, 8) then Leaf(Float(Field(s, 8)), 9) else Bad
    case Unsupported => Bad
  }

  /** The buffer after n more bytes; past its end nothing can be read. */
  function From(s: bytes, n: nat): bytes {
    if n <= |s| then s[n..] else []
  }

  /** flitrpc--read-msgpack on the bytes from its position on. */
  function Decode(s: bytes): (r: Read<Value>)
    ensures r.Got? ==> s != [] && r.used >= 1
    decreases |s|, 0
  {
    match ReadHead(s)
    case Bad => Fail
    case Leaf(v, u) => Got(v, u)
    case Body(Text, n, u) => if u + n <= |s| then Got(Str(s[u..u + n]), u + n) else Fail
    case Body(Array, n, u) =>
      (match ReadItems(s[u..], n)
       case Fail => Fail
       case Got(vs, k) => Got(Arr(vs), u + k))
    case Body(Dict, n, u) =>
      (match ReadPairs(s[u..], n)
       case Fail => Fail
       case Got(ps, k) => Got(Plist(ps), u + k))
  }

  /** The n values that flitrpc--read-array collects. */
  function ReadItems(s: bytes, n: nat): (r: Read<seq<Value>>)
    ensures r.Got? ==> |r.value| == n <= r.used
    decreases |s|, 1
  {
    if n == 0 then Got([], 0) else
    match Decode(s)
    case Fail => Fail
    case Got(v, k) =>
      match ReadItems(From(s, k), n - 1)
      case Fail => Fail
      case Got(vs, m) => Got([v] + vs, k + m)
  }

  /** One key and its value; the key must name a keyword. */
  function ReadPair(s: bytes): (r: Read<Pair>)
    ensures r.Got? ==> s != [] && r.used >= 2
    decreases |s|, 1
  {
    match Decode(s)
    case Fail => Fail
    case Got(key, k) =>
      if KeyName(key).None? then Fail else
      match Decode(From(s, k))
      case Fail => Fail
      case Got(v, l) => Got(Pair(KeyName(key).value, v), k + l)
  }

  /** The n key-value pairs that flitrpc--read-map reads, before plist-put merges equal keys. */
  function ReadPairs(s: bytes, n: nat): (r: Read<seq<Pair>>)
    ensures r.Got? ==> |r.value| == n <= r.used
    decreases |s|, 2
  {
    if n == 0 then Got([], 0) else
    match ReadPair(s)
    case Fail => Fail
    case Got(p, k) =>
      match ReadPairs(From(s, k), n - 1)
      case Fail => Fail
      case Got(ps, m) => Got([p] + ps, k + m)
  }

  /**
    (concat ":" KEY), without the colon: nil, strings and arrays of characters are sequences,
    and everything else signals an error.
   */
  function KeyName(v: Value): Option<bytes> {
    match v
    case Nil => Some([])
    case Str(text) => Some(text)
    case Arr(items) => CharsName(items)
    case _ => None
  }

  function CharsName(vs: seq<Value>): Option<bytes> {
    if vs == [] then Some([])
    else if !vs[0].Int? || !(0 <= vs[0].n <= 0x3fffff) then None
    else match CharsName(vs[1..])
      case None => None
      case Some(rest) => Some(CharBytes(vs[0].n) + rest)
  }

  /** Emacs's UTF-8 coding of one character; the last 128 characters stand for raw bytes. */
  function CharBytes(c: nat): bytes
    requires c <= 0x3fffff
  {
    if c <= 0x7f then [c]
    else if c <= 0x7ff then [0xc0 + c / 64, 0x80 + c % 64]
    else if c <= 0xffff then [0xe0 + c / 4096, 0x80 + c / 64 % 64, 0x80 + c % 64]
    else if c <= 0x1fffff then [0xf0 + c / 262144, 0x80 + c / 4096 % 64, 0x80 + c / 64 % 64, 0x80 + c % 64]
    else if c <= 0x3fff7f then
      [0xf8, 0x80 + c / 262144 % 64, 0x80 + c / 4096 % 64, 0x80 + c / 64 % 64, 0x80 + c % 64]
    else [c - 0x3fff00]
  }

  // ---------------------------------------------------------------- writer

  const BIN_KEY: bytes := [0x62, 0x69, 0x6e]

  function WriteInt(n: int): (s: bytes)
    ensures s != []
  {
    if 0 <= n <= 127 then [n]
    else if -32 <= n < 0 then BigEndian(n, 1)
    else if 0 <= n <= 0xff then [0xcc] + BigEndian(n, 1)
    else if 0 <= n <= 0xffff then [0xcd] + BigEndian(n, 2)
    else if 0 <= n <= 0xffff_ffff then [0xce] + BigEndian(n, 4)
    else if n >= 0 then [0xcf] + BigEndian(n, 8)
    else if n >= -128 then [0xd0] + BigEndian(n, 1)
    else if n >= -32768 then [0xd1] + BigEndian(n, 2)
    else if n >= -0x8000_0000 then [0xd2] + BigEndian(n, 4)
    else [0xd3] + BigEndian(n, 8)
  }

  function BinHead(n: nat): bytes {
    if n <= 0xff then [0xc4] + BigEndian(n, 1)
    else if n <= 0xffff then [0xc5] + BigEndian(n, 2)
    else [0xc6] + BigEndian(n, 4)
  }

  function StrHead(n: nat): bytes {
    if n <= 31 then [0xa0 + n]
    else if n <= 0xff then [0xd9] + BigEndian(n, 1)
    else if n <= 0xffff then [0xda] + BigEndian(n, 2)
    else [0xdb] + BigEndian(n, 4)
  }

  function ArrHead(n: nat): bytes {
    if n <= 15 then [0x90 + n]
    else if n <= 0xffff then [0xdc] + BigEndian(n, 2)
    else [0xdd] + BigEndian(n, 4)
  }

  function PlistHead(n: nat): bytes {
    if n <= 15 then [0x80 + n]
    else if n <= 0xffff then [0xde] + BigEndian(n, 2)
    else [0xdf] + BigEndian(n, 4)
  }

  function WriteStr(text: bytes): bytes {
    StrHead(|text|) + text
  }

  function Append(a: Option<bytes>, b: Option<bytes>): Option<bytes> {
    if a.None? || b.None? then None else Some(a.value + b.value)
  }

  /** flitrpc--write-value; None when it signals an error or makes no byte string. */
  function Write(v: Value): Option<bytes> {
    match v
    case Nil => Some([0xc0])
    case True => Some([0xc3])
    case False => Some([0xc2])
    case Int(n) => Some(WriteInt(n))
    case Float(image) => Some([0xcb] + image)
    case Str(text) => Some(WriteStr(text))
    case Bin(data) => Some(BinHead(|data|) + data)
    case Arr(items) => Append(Some(ArrHead(|items|)), WriteAll(items))
    case Map(ps) =>
      if ps == [] then Some([0xc0])
      else if ps[0].key == BIN_KEY then WriteMistaken(ps)
      else Append(Some(PlistHead(|ps|)), WritePairs(ps))
  }

  function WriteAll(vs: seq<Value>): Option<bytes> {
    if vs == [] then Some([]) else Append(Write(vs[0]), WriteAll(vs[1..]))
  }

  function WritePairs(ps: seq<Pair>): Option<bytes> {
    if ps == [] then Some([])
    else Append(Append(Some(WriteStr(ps[0].key)), Write(ps[0].value)), WritePairs(ps[1..]))
  }

  /**
    A plist whose first key is :bin is taken for the binary wrapper, and the rest of its list for
    the data: a lone ASCII character goes out as one byte. A lone character beyond ASCII makes concat
    return a multibyte string, which is no byte string; anything else is an error.
   */
  function WriteMistaken(ps: seq<Pair>): Option<bytes>
    requires ps != []
  {
    if |ps| == 1 && ps[0].value.Int? && 0 <= ps[0].value.n <= 127
    then Some(BinHead(1) + [ps[0].value.n])
    else None
  }
}
