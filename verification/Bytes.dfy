/** Bytes, digests and the fixed-width integers of the canonical format. */
module Bytes {
  import opened Ids

  type Byte = b: int | 0 <= b < 256

  /** A 32-byte BLAKE3 digest. */
  type Digest = d: seq<Byte> | |d| == 32
    witness [0, 0, 0, 0, 0, 0, 0, 0, 0, 0, 0, 0, 0, 0, 0, 0, 0, 0, 0, 0, 0, 0, 0, 0, 0, 0, 0, 0, 0, 0, 0, 0]

  const ZERO_DIGEST: Digest :=
    [0, 0, 0, 0, 0, 0, 0, 0, 0, 0, 0, 0, 0, 0, 0, 0, 0, 0, 0, 0, 0, 0, 0, 0, 0, 0, 0, 0, 0, 0, 0, 0]

  /** Number of values that fit in `k` bytes. */
  function Pow256(k: nat): (n: nat)
    ensures n > 0
  {
    if k == 0 then 1 else 256 * Pow256(k - 1)
  }

  /** The low `k` bytes of `n`, most significant first. */
  function BigEndian(k: nat, n: nat): (bytes: seq<Byte>)
    ensures |bytes| == k
  {
    if k == 0 then [] else BigEndian(k - 1, n / 256) + [n % 256]
  }

  function FromBigEndian(bytes: seq<Byte>): nat {
    if bytes == [] then 0 else FromBigEndian(bytes[..|bytes| - 1]) * 256 + bytes[|bytes| - 1]
  }

  lemma {:induction false} BigEndianRoundTrip(k: nat, n: nat)
    requires n < Pow256(k)
    ensures FromBigEndian(BigEndian(k, n)) == n
  {
    if k > 0 {
      BigEndianRoundTrip(k - 1, n / 256);
      var bytes := BigEndian(k, n);
      assert bytes[..k - 1] == BigEndian(k - 1, n / 256);
    }
  }

  /** Byte `i` of `k` is the digit of weight 256 to the power `k - 1 - i`: the most significant comes first. */
  lemma {:induction false} BigEndianDigit(k: nat, n: nat, i: nat)
    requires i < k
    ensures BigEndian(k, n)[i] == (n / Pow256(k - 1 - i)) % 256
  {
    if i < k - 1 {
      BigEndianDigit(k - 1, n / 256, i);
      DivideTwice(n, Pow256(k - 2 - i));
    }
  }

  lemma DivideTwice(n: nat, p: nat)
    requires p > 0
    ensures n / 256 / p == n / (256 * p)
  {
    var q, r := n / 256 / p, n / 256 % p;
    assert n / 256 == q * p + r;
    assert n == 256 * (n / 256) + n % 256;
    assert n == q * (256 * p) + (256 * r + n % 256);
    QuotientIs(n, 256 * p, q, 256 * r + n % 256);
  }

  lemma QuotientIs(n: nat, d: nat, q: nat, r: nat)
    requires n == q * d + r && r < d
    ensures n / d == q
  {
    var p := n / d;
    assert n == p * d + n % d;
    assert (p - q) * d == p * d - q * d && (q - p) * d == q * d - p * d;
    if p > q { AtLeastOnce(p - q, d); }
    if p < q { AtLeastOnce(q - p, d); }
  }

  lemma AtLeastOnce(k: nat, d: nat)
    requires k >= 1
    ensures k * d >= d
  {
  }

  lemma PowersOf256()
    ensures Pow256(8) == 0x1_0000_0000_0000_0000
    ensures Pow256(16) == 0x1_0000_0000_0000_0000_0000_0000_0000_0000
  {
    assert Pow256(4) == 0x1_0000_0000;
    assert Pow256(6) == 0x1_0000_0000_0000;
    assert Pow256(8) == 0x1_0000_0000_0000_0000;
    assert Pow256(10) == 0x1_0000_0000_0000_0000_0000;
    assert Pow256(12) == 0x1_0000_0000_0000_0000_0000_0000;
    assert Pow256(14) == 0x1_0000_0000_0000_0000_0000_0000_0000;
  }

  // ---------------------------------------------------------------- reading from a byte stream

  function Take(bytes: seq<Byte>, n: nat): Option<(seq<Byte>, seq<Byte>)> {
    if n <= |bytes| then Some((bytes[..n], bytes[n..])) else None
  }

  function TakeInt(bytes: seq<Byte>, k: nat): Option<(nat, seq<Byte>)> {
    if k <= |bytes| then Some((FromBigEndian(bytes[..k]), bytes[k..])) else None
  }

  lemma TakeBack(head: seq<Byte>, rest: seq<Byte>)
    ensures Take(head + rest, |head|) == Some((head, rest))
  {
  }

  lemma TakeIntBack(k: nat, n: nat, rest: seq<Byte>)
    requires n < Pow256(k)
    ensures TakeInt(BigEndian(k, n) + rest, k) == Some((n, rest))
  {
    BigEndianRoundTrip(k, n);
    assert (BigEndian(k, n) + rest)[..k] == BigEndian(k, n);
  }
}
