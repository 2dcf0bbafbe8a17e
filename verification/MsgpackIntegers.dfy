/**
  The int format family: every width of an integer that the reader accepts, and the writer's
  choice of the shortest.
 */
module MsgpackIntegers {
  import opened Bytes
  import opened Msgpack
  import opened MsgpackWriter

  function NaturalTag(k: nat): byte {
    if k == 1 then 0xcc else if k == 2 then 0xcd else if k == 4 then 0xce else 0xcf
  }

  function IntegerTag(k: nat): byte {
    if k == 1 then 0xd0 else if k == 2 then 0xd1 else if k == 4 then 0xd2 else 0xd3
  }

  predicate FitsNatural(n: int, k: nat) {
    0 <= n < Pow256(k)
  }

  predicate FitsInteger(n: int, k: nat) {
    -(Pow256(k) as int) <= 2 * n < Pow256(k)
  }

  /** A tag byte and n in k bytes. */
  predicate IsWideForm(n: int, k: nat, f: bytes) {
    || (FitsNatural(n, k) && f == [NaturalTag(k)] + BigEndian(n, k))
    || (FitsInteger(n, k) && f == [IntegerTag(k)] + BigEndian(n, k))
  }

  /** The encodings of n: fixints, and each width of uint and int that n fits. */
  predicate IsForm(n: int, f: bytes) {
    || (0 <= n <= 127 && f == [n])
    || (-32 <= n < 0 && f == [256 + n])
    || (exists k: nat | k in {1, 2, 4, 8} :: IsWideForm(n, k, f))
  }

  /** The reader takes k bytes of s for the integer n exactly when they are one of its forms. */
  lemma AcceptedForms(n: int, s: bytes, k: nat)
    requires k <= |s|
    ensures Decode(s) == Got(Int(n), k) <==> IsForm(n, s[..k])
  {
    hide Decode, ReadHead, IsForm;
    if IsForm(n, s[..k]) {
      FormIsRead(n, s[..k], s[k..]);
      assert s == s[..k] + s[k..];
    }
    if Decode(s) == Got(Int(n), k) {
      IntIsLeaf(s, n, k);
      ReadIsForm(n, s);
    }
  }

  lemma IntIsLeaf(s: bytes, n: int, k: nat)
    requires Decode(s) == Got(Int(n), k)
    ensures ReadHead(s) == Leaf(Int(n), k)
  {
    hide ReadHead;
  }

  lemma FormIsRead(n: int, f: bytes, rest: bytes)
    requires IsForm(n, f)
    ensures Decode(f + rest) == Got(Int(n), |f|)
  {
    hide ReadHead;
    if 0 <= n <= 127 && f == [n] {
      ShortHead(n, rest);
    } else if -32 <= n < 0 && f == [256 + n] {
      ShortHead(256 + n, rest);
    } else {
      var k: nat :| k in {1, 2, 4, 8} && IsWideForm(n, k, f);
      WideFormIsRead(n, k, f, rest);
    }
  }

  lemma WideFormIsRead(n: int, k: nat, f: bytes, rest: bytes)
    requires k in {1, 2, 4, 8} && IsWideForm(n, k, f)
    ensures Decode(f + rest) == Got(Int(n), |f|)
  {
    hide ReadHead, BigEndian, Pow256, Signed;
    FieldHead(f[0], n, k, rest);
    if f[0] == NaturalTag(k) {
      ModUnique(n, Pow256(k), 0, n);
    } else {
      SignedOfBigEndian(n, k);
    }
  }

  lemma ReadIsForm(n: int, s: bytes)
    requires ReadHead(s).Leaf? && ReadHead(s).value == Int(n)
    ensures IsForm(n, s[..ReadHead(s).used])
  {
    hide Signed, Unsigned, BigEndian, Pow256;
    var used := ReadHead(s).used;
    match TagOf(s[0])
    case Plain(v) => assert s[..used] == [s[0]];
    case Natural(k) =>
      assert s[..used] == [NaturalTag(k)] + Field(s, k);
      BigEndianOfUnsigned(Field(s, k));
      assert FitsNatural(n, k);
      assert IsWideForm(n, k, s[..used]);
    case Integer(k) =>
      assert s[..used] == [IntegerTag(k)] + Field(s, k);
      SignedInRange(Field(s, k));
      assert IsWideForm(n, k, s[..used]);
    case _ =>
  }

  lemma SignedInRange(s: bytes)
    requires |s| in {1, 2, 4, 8}
    ensures FitsInteger(Signed(s), |s|) && BigEndian(Signed(s), |s|) == s
  {
    hide Unsigned, BigEndian, Pow256;
    var p := Pow256(|s|);
    BigEndianOfUnsigned(s);
    if 2 * Unsigned(s) >= p {
      ModUnique(Unsigned(s) - p, p, -1, Unsigned(s));
      BigEndianMod(Unsigned(s) - p, |s|);
    }
  }

  /** The writer's form is a form, and none that the reader accepts is shorter. */
  lemma ShortestForm(n: int, s: bytes)
    requires -LIMIT63 <= n < LIMIT64
    ensures IsForm(n, WriteInt(n))
    ensures Decode(s).Got? && Decode(s).value == Int(n) ==> |WriteInt(n)| <= Decode(s).used
  {
    hide Decode, ReadHead, IsForm;
    WrittenIsForm(n);
    if Decode(s).Got? && Decode(s).value == Int(n) {
      IntIsLeaf(s, n, Decode(s).used);
      IntStaysInside(s, n);
      AcceptedForms(n, s, Decode(s).used);
      FormsNotShorter(n, s[..Decode(s).used]);
    }
  }

  lemma IntStaysInside(s: bytes, n: int)
    requires ReadHead(s).Leaf? && ReadHead(s).value == Int(n)
    ensures ReadHead(s).used <= |s|
  {
  }

  lemma WrittenIsForm(n: int)
    requires -LIMIT63 <= n < LIMIT64
    ensures IsForm(n, WriteInt(n))
  {
    PowValues();
    if -32 <= n < 0 {
      assert BigEndian(n, 1) == BigEndian(n / 256, 0) + [n % 256];
    } else if !(0 <= n <= 127) {
      var k: nat := if -128 <= n <= 0xff then 1 else if -32768 <= n <= 0xffff then 2
                    else if -0x8000_0000 <= n <= 0xffff_ffff then 4 else 8;
      assert k in {1, 2, 4, 8};
      assert IsWideForm(n, k, WriteInt(n));
    }
  }

  lemma FormsNotShorter(n: int, f: bytes)
    requires -LIMIT63 <= n < LIMIT64 && IsForm(n, f)
    ensures |WriteInt(n)| <= |f|
  {
    PowValues();
  }
}
