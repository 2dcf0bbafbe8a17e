/**
  Bytes and big-endian integers, as the flitrpc client and server write them on the wire.
 */
module Bytes {

  type byte = b: int | 0 <= b < 256

  type bytes = seq<byte>

  /** 256 to the power k: the number of different strings of k bytes. */
  function Pow256(k: nat): (p: nat)
    ensures p >= 1
  {
    if k == 0 then 1 else 256 * Pow256(k - 1)
  }

  /** The low k bytes of n, most significant first; a negative n in two's complement. */
  function BigEndian(n: int, k: nat): (s: bytes)
    ensures |s| == k
    decreases k
  {
    if k == 0 then [] else BigEndian(n / 256, k - 1) + [n % 256]
  }

  /** The unsigned number that s spells, most significant byte first. */
  function Unsigned(s: bytes): (n: nat)
    ensures n < Pow256(|s|)
  {
    if s == [] then 0 else 256 * Unsigned(s[..|s| - 1]) + s[|s| - 1]
  }

  /** The number that s spells in two's complement. */
  function Signed(s: bytes): int {
    var u := Unsigned(s);
    if 2 * u >= Pow256(|s|) then u - Pow256(|s|) else u
  }

  lemma PowValues()
    ensures Pow256(1) == 0x100
    ensures Pow256(2) == 0x1_0000
    ensures Pow256(4) == 0x1_0000_0000
    ensures Pow256(8) == 0x1_0000_0000_0000_0000
  {
    assert Pow256(3) == 256 * Pow256(2);
    assert Pow256(5) == 256 * Pow256(4);
    assert Pow256(6) == 256 * Pow256(5);
    assert Pow256(7) == 256 * Pow256(6);
  }

  lemma ModSplit(n: int, p: nat)
    requires p >= 1
    ensures n % (256 * p) == 256 * ((n / 256) % p) + n % 256
  {
    var q := (n / 256) / p;
    var r := 256 * ((n / 256) % p) + n % 256;
    assert n == (256 * p) * q + r by {
      assert n / 256 == p * q + (n / 256) % p;
      assert 256 * (p * q) == (256 * p) * q;
    }
    assert 0 <= r < 256 * p;
    ModUnique(n, 256 * p, q, r);
  }

  lemma ModUnique(n: int, m: nat, q: int, r: int)
    requires m >= 1 && 0 <= r < m && n == m * q + r
    ensures n % m == r
  {
    var q' := n / m;
    if q' < q {
      MulMonotone(m, q' + 1, q);
    } else if q < q' {
      MulMonotone(m, q + 1, q');
    }
  }

  lemma MulMonotone(m: nat, a: int, b: int)
    requires a <= b
    ensures m * a <= m * b
  {
    assert m * (b - a) >= 0;
  }

  /** Reading back the low k bytes of n gives n modulo 256^k. */
  lemma {:induction false} UnsignedOfBigEndian(n: int, k: nat)
    ensures Unsigned(BigEndian(n, k)) == n % Pow256(k)
    decreases k
  {
    if k > 0 {
      UnsignedOfBigEndian(n / 256, k - 1);
      var s := BigEndian(n, k);
      assert s[..|s| - 1] == BigEndian(n / 256, k - 1);
      ModSplit(n, Pow256(k - 1));
    }
  }

  /** Every string of bytes is the big-endian form of the number it spells. */
  lemma {:induction false} BigEndianOfUnsigned(s: bytes)
    ensures BigEndian(Unsigned(s), |s|) == s
  {
    if s != [] {
      BigEndianOfUnsigned(s[..|s| - 1]);
    }
  }

  /** Two's complement: numbers congruent modulo 256^k share their k low bytes. */
  lemma {:induction false} BigEndianMod(n: int, k: nat)
    ensures BigEndian(n % Pow256(k), k) == BigEndian(n, k)
  {
    UnsignedOfBigEndian(n, k);
    BigEndianOfUnsigned(BigEndian(n, k));
  }

  /** A number within the signed range of k bytes survives two's complement. */
  lemma SignedOfBigEndian(n: int, k: nat)
    requires 0 <= 2 * n + Pow256(k) && 2 * n < Pow256(k)
    ensures Signed(BigEndian(n, k)) == n
  {
    UnsignedOfBigEndian(n, k);
    if n < 0 {
      ModUnique(n, Pow256(k), -1, n + Pow256(k));
    } else {
      ModUnique(n, Pow256(k), 0, n);
    }
  }

  /** A number within the unsigned range of k bytes survives big-endian coding. */
  lemma UnsignedInRange(n: int, k: nat)
    requires 0 <= n < Pow256(k)
    ensures Unsigned(BigEndian(n, k)) == n
  {
    UnsignedOfBigEndian(n, k);
    ModUnique(n, Pow256(k), 0, n);
  }
}
