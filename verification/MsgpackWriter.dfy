/**
  What the reader makes of the heads that the writer emits, for every number and length, the ones
  that do not fit included.
 */
module MsgpackWriter {
  import opened Bytes
  import opened Msgpack

  const LIMIT32 := 0x1_0000_0000
  const LIMIT63 := 0x8000_0000_0000_0000
  const LIMIT64 := 0x1_0000_0000_0000_0000

  // ---------------------------------------------------------------- heads

  /** The integer a reader gets back: numbers beyond 64 bits lose their high bits. */
  function Wrapped(n: int): int {
    if n >= 0 then n % LIMIT64 else if n >= -LIMIT63 then n else Signed(BigEndian(n, 8))
  }

  /** A tag and its big-endian field, read back. */
  lemma FieldHead(tag: byte, n: int, k: nat, rest: bytes)
    requires k in {1, 2, 4, 8}
    ensures var h := ReadHead([tag] + BigEndian(n, k) + rest);
            match TagOf(tag)
            case Sized(shape, w) => w == k ==> h == Body(shape, n % Pow256(k), 1 + k)
            case Natural(w) => w == k ==> h == Leaf(Int(n % Pow256(k)), 1 + k)
            case Integer(w) => w == k ==> h == Leaf(Int(Signed(BigEndian(n, k))), 1 + k)
            case _ => true
  {
    hide TagOf;
    var s := [tag] + BigEndian(n, k) + rest;
    assert Field(s, k) == BigEndian(n, k);
    UnsignedOfBigEndian(n, k);
  }

  lemma ShortHead(tag: byte, rest: bytes)
    requires TagOf(tag).Short? || TagOf(tag).Plain?
    ensures ReadHead([tag] + rest) ==
            match TagOf(tag) case Plain(v) => Leaf(v, 1) case Short(shape, n) => Body(shape, n, 1)
  {
  }

  lemma IntHead(n: int, rest: bytes)
    ensures ReadHead(WriteInt(n) + rest) == Leaf(Int(Wrapped(n)), |WriteInt(n)|)
  {
    hide *;
    if n >= 0 {
      NaturalHead(n, rest);
    } else {
      NegativeHead(n, rest);
    }
  }

  lemma NaturalHead(n: nat, rest: bytes)
    ensures ReadHead(WriteInt(n) + rest) == Leaf(Int(Wrapped(n)), |WriteInt(n)|)
  {
    hide ReadHead, BigEndian, Pow256, Signed;
    PowValues();
    if n <= 127 {
      ShortHead(n, rest);
    } else {
      var k := if n <= 0xff then 1 else if n <= 0xffff then 2 else if n <= 0xffff_ffff then 4 else 8;
      FieldHead(WriteInt(n)[0], n, k, rest);
    }
  }

  lemma NegativeHead(n: int, rest: bytes)
    requires n < 0
    ensures ReadHead(WriteInt(n) + rest) == Leaf(Int(Wrapped(n)), |WriteInt(n)|)
  {
    if -32 <= n {
      hide ReadHead, Pow256, Signed;
      PowValues();
      UnsignedOfBigEndian(n, 1);
      assert BigEndian(n, 1) == [n % 256];
      ShortHead(n % 256, rest);
    } else {
      SignedHead(n, rest);
    }
  }

  lemma SignedHead(n: int, rest: bytes)
    requires n < -32
    ensures ReadHead(WriteInt(n) + rest) == Leaf(Int(Wrapped(n)), |WriteInt(n)|)
  {
    hide ReadHead, BigEndian, Pow256, Signed;
    PowValues();
    var k := if -128 <= n then 1 else if -32768 <= n then 2 else if -0x8000_0000 <= n then 4 else 8;
    FieldHead(WriteInt(n)[0], n, k, rest);
    if -LIMIT63 <= n {
      SignedOfBigEndian(n, k);
    }
  }

  /** A length fits its field, unless it fits none. */
  lemma SizeHead(tag: byte, n: nat, k: nat, rest: bytes)
    requires TagOf(tag).Sized? && TagOf(tag).k == k && k in {1, 2, 4}
    requires if k == 1 then n <= 0xff else k == 2 ==> n <= 0xffff
    ensures ReadHead([tag] + BigEndian(n, k) + rest) == Body(TagOf(tag).shape, n % LIMIT32, 1 + k)
  {
    hide ReadHead, BigEndian, Pow256, TagOf;
    PowValues();
    FieldHead(tag, n, k, rest);
  }

  /** Every length head announces the length modulo 2^32. */
  lemma StrHeadRead(n: nat, rest: bytes)
    ensures ReadHead(StrHead(n) + rest) == Body(Text, n % LIMIT32, |StrHead(n)|)
  {
    hide ReadHead, BigEndian;
    if n <= 31 {
      ShortHead(0xa0 + n, rest);
    } else {
      SizeHead(StrHead(n)[0], n, if n <= 0xff then 1 else if n <= 0xffff then 2 else 4, rest);
    }
  }

  lemma BinHeadRead(n: nat, rest: bytes)
    ensures ReadHead(BinHead(n) + rest) == Body(Text, n % LIMIT32, |BinHead(n)|)
  {
    hide ReadHead, BigEndian;
    SizeHead(BinHead(n)[0], n, if n <= 0xff then 1 else if n <= 0xffff then 2 else 4, rest);
  }

  lemma ArrHeadRead(n: nat, rest: bytes)
    ensures ReadHead(ArrHead(n) + rest) == Body(Array, n % LIMIT32, |ArrHead(n)|)
  {
    hide ReadHead, BigEndian;
    if n <= 15 {
      ShortHead(0x90 + n, rest);
    } else {
      SizeHead(ArrHead(n)[0], n, if n <= 0xffff then 2 else 4, rest);
    }
  }

  lemma PlistHeadRead(n: nat, rest: bytes)
    ensures ReadHead(PlistHead(n) + rest) == Body(Dict, n % LIMIT32, |PlistHead(n)|)
  {
    hide ReadHead, BigEndian;
    if n <= 15 {
      ShortHead(0x80 + n, rest);
    } else {
      SizeHead(PlistHead(n)[0], n, if n <= 0xffff then 2 else 4, rest);
    }
  }

  /**
    No head that the reader takes for the same shape and length is shorter than the writer's; for a
    binary string, none with a binary tag.
   */
  lemma HeadsAreShortest(h: bytes, shape: Shape, n: nat)
    requires ReadHead(h) == Body(shape, n, |h|)
    ensures shape == Text ==> |StrHead(n)| <= |h|
    ensures shape == Text && h[0] in {0xc4, 0xc5, 0xc6} ==> |BinHead(n)| <= |h|
    ensures shape == Array ==> |ArrHead(n)| <= |h|
    ensures shape == Dict ==> |PlistHead(n)| <= |h|
  {
    hide BigEndian;
    PowValues();
    HeadFits(h);
  }

  lemma HeadFits(h: bytes)
    requires ReadHead(h).Body? && ReadHead(h).used == |h|
    ensures match TagOf(h[0])
            case Short(shape, n) => |h| == 1 && ReadHead(h) == Body(shape, n, 1)
            case Sized(shape, k) => |h| == 1 + k && ReadHead(h).shape == shape && ReadHead(h).count < Pow256(k)
            case _ => false
  {
    hide TagOf, BigEndian;
  }
}
