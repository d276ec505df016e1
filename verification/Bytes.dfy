/** Fixed-width little- and big-endian integers. */
module Bytes {
  import opened Numbers

  function Pow256(k: nat): (p: nat)
    ensures p > 0
  {
    if k == 0 then 1 else 256 * Pow256(k - 1)
  }

  /** `to_le_bytes` of a `k`-byte integer. */
  function LE(n: nat, k: nat): (r: seq<byte>)
    ensures |r| == k
  {
    if k == 0 then [] else [n % 256] + LE(n / 256, k - 1)
  }

  function FromLE(s: seq<byte>): nat {
    if s == [] then 0 else s[0] + 256 * FromLE(s[1..])
  }

  /** `to_be_bytes` of a `k`-byte integer. */
  function BE(n: nat, k: nat): (r: seq<byte>)
    ensures |r| == k
  {
    if k == 0 then [] else BE(n / 256, k - 1) + [n % 256]
  }

  function FromBE(s: seq<byte>): nat {
    if s == [] then 0 else FromBE(s[..|s| - 1]) * 256 + s[|s| - 1]
  }

  lemma {:induction false} LERoundTrip(n: nat, k: nat)
    requires n < Pow256(k)
    ensures FromLE(LE(n, k)) == n
  {
    if k > 0 {
      LERoundTrip(n / 256, k - 1);
      assert LE(n, k)[1..] == LE(n / 256, k - 1);
    }
  }

  /** Byte `i` is the digit at 256^i: the least significant byte comes first. */
  lemma {:induction false} LEDigits(n: nat, k: nat, i: nat)
    requires i < k
    ensures LE(n, k)[i] == (n / Pow256(i)) % 256
    decreases k
  {
    if i > 0 {
      LEDigits(n / 256, k - 1, i - 1);
      DivideTwice(n, Pow256(i - 1));
    }
  }

  lemma DivideTwice(n: nat, p: nat)
    requires p > 0
    ensures n / 256 / p == n / (256 * p)
  {
    var q, z := n / 256 / p, n / 256 % p;
    assert n / 256 == p * q + z;
    PullOutQuotient(n, p, q, z);
    QuotientIs(n, 256 * p, q, 256 * z + n % 256);
  }

  lemma PullOutQuotient(n: nat, p: nat, q: nat, z: nat)
    requires n / 256 == p * q + z
    ensures n == 256 * p * q + (256 * z + n % 256)
  {
    var m := p * q;
    assert n == 256 * (m + z) + n % 256;
    assert 256 * p * q == 256 * m;
  }

  lemma QuotientIs(n: nat, d: nat, q: nat, r: nat)
    requires r < d && n == d * q + r
    ensures n / d == q
  {
    var t := q - n / d;
    assert d * t == n % d - r;
    assert t >= 1 ==> d * t >= d;
    assert t <= -1 ==> d * t <= -(d as int);
  }

  lemma {:induction false} LEOfFromLE(s: seq<byte>)
    ensures FromLE(s) < Pow256(|s|)
    ensures LE(FromLE(s), |s|) == s
  {
    if s != [] {
      LEOfFromLE(s[1..]);
      assert FromLE(s) / 256 == FromLE(s[1..]) && FromLE(s) % 256 == s[0];
      assert s == [s[0]] + s[1..];
    }
  }

  lemma {:induction false} BERoundTrip(n: nat, k: nat)
    requires n < Pow256(k)
    ensures FromBE(BE(n, k)) == n
  {
    if k > 0 {
      BERoundTrip(n / 256, k - 1);
      assert BE(n, k)[..k - 1] == BE(n / 256, k - 1);
    }
  }

  /** The other way round: the most significant byte comes first. */
  lemma {:induction false} BEDigits(n: nat, k: nat, i: nat)
    requires i < k
    ensures BE(n, k)[k - 1 - i] == (n / Pow256(i)) % 256
    decreases k
  {
    if i > 0 {
      BEDigits(n / 256, k - 1, i - 1);
      DivideTwice(n, Pow256(i - 1));
    }
  }

  lemma {:induction false} BEOfFromBE(s: seq<byte>)
    ensures FromBE(s) < Pow256(|s|)
    ensures BE(FromBE(s), |s|) == s
  {
    if s != [] {
      var front, last := s[..|s| - 1], s[|s| - 1];
      BEOfFromBE(front);
      assert FromBE(s) / 256 == FromBE(front) && FromBE(s) % 256 == last;
      assert s == front + [last];
    }
  }

  function Zeros(n: nat): seq<byte> {
    seq(n, _ => 0)
  }
}
