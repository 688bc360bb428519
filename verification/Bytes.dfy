/** Bytes in memory and little-endian integer fields, as the x86 hosts of the
    replication engine lay them out. */
module Bytes {

  type byte = b: int | 0 <= b < 256

  const U32 := 0x1_0000_0000
  const U64 := 0x1_0000_0000_0000_0000

  type u32 = x: int | 0 <= x < U32

  function Pow256(w: nat): (p: nat)
    ensures p >= 1
  {
    if w == 0 then 1 else 256 * Pow256(w - 1)
  }

  /** The `w` bytes that hold `n`, least significant first. */
  function ToLE(n: nat, w: nat): (s: seq<byte>)
    ensures |s| == w
  {
    if w == 0 then [] else [n % 256] + ToLE(n / 256, w - 1)
  }

  /** The integer that a load of the bytes `s` yields. */
  function FromLE(s: seq<byte>): (n: nat)
  {
    if |s| == 0 then 0 else s[0] + 256 * FromLE(s[1..])
  }

  /** Storing an integer and loading it again is the identity when it fits. */
  lemma {:induction false} LERoundTrip(n: nat, w: nat)
    requires n < Pow256(w)
    ensures FromLE(ToLE(n, w)) == n
  {
    if w != 0 {
      LERoundTrip(n / 256, w - 1);
      assert ToLE(n, w)[1..] == ToLE(n / 256, w - 1);
    }
  }

  lemma Pow256Values()
    ensures Pow256(4) == U32 && Pow256(8) == U64
  {
    assert Pow256(2) == 65536;
    assert Pow256(3) == 16777216;
    assert Pow256(4) == U32;
    assert Pow256(5) == 256 * U32;
    assert Pow256(6) == 65536 * U32;
    assert Pow256(7) == 16777216 * U32;
  }

  /** A field some of whose bytes have not landed yet never reads larger. */
  lemma {:induction false} LEMonotone(t: seq<byte>, s: seq<byte>)
    requires |t| == |s|
    requires forall i :: 0 <= i < |s| ==> t[i] <= s[i]
    ensures FromLE(t) <= FromLE(s)
  {
    if |s| != 0 {
      LEMonotone(t[1..], s[1..]);
    }
  }

  lemma {:induction false} LEBound(s: seq<byte>)
    ensures FromLE(s) < Pow256(|s|)
  {
    if |s| != 0 {
      LEBound(s[1..]);
    }
  }

  lemma {:induction false} ZerosReadZero(s: seq<byte>)
    requires forall i :: 0 <= i < |s| ==> s[i] == 0
    ensures FromLE(s) == 0
  {
    if |s| != 0 {
      ZerosReadZero(s[1..]);
    }
  }

  lemma Multiples(d: int, m: int)
    requires m > 0
    ensures d >= 1 ==> d * m >= m
    ensures d <= -1 ==> d * m <= -m
  {
  }

  lemma Remainder(n: nat, a: nat, m: nat, r: nat)
    requires n == a * m + r && r < m
    ensures n % m == r
  {
    var q, s := n / m, n % m;
    assert n == q * m + s;
    assert (a - q) * m == a * m - q * m;
    Multiples(a - q, m);
  }

  lemma NextDigit(n: nat, p: nat)
    requires p >= 1
    ensures n % (256 * p) == n % 256 + 256 * ((n / 256) % p)
  {
    var q := n / 256;
    var a, b := q / p, q % p;
    Rearranged(n % 256, a, p, b);
    Remainder(n, a, 256 * p, 256 * b + n % 256);
  }

  lemma Rearranged(r: nat, a: nat, p: nat, b: nat)
    ensures 256 * (a * p + b) + r == a * (256 * p) + (256 * b + r)
  {
    assert 256 * (a * p) == a * (256 * p);
  }

  /** A field of which the first `b` bytes have landed, over zeros, reads as its value
      modulo `256^b`. */
  lemma {:induction false} LECut(s: seq<byte>, n: nat, w: nat, b: nat)
    requires |s| == w && b <= w
    requires forall i :: 0 <= i < w ==> s[i] == if i < b then ToLE(n, w)[i] else 0
    ensures FromLE(s) == n % Pow256(b)
  {
    if b == 0 {
      ZerosReadZero(s);
    } else {
      assert forall i :: 0 <= i < w - 1 ==> s[1..][i] == s[i + 1] && ToLE(n / 256, w - 1)[i] == ToLE(n, w)[i + 1];
      LECut(s[1..], n / 256, w - 1, b - 1);
      NextDigit(n, Pow256(b - 1));
      assert s[0] == ToLE(n, w)[0] == n % 256;
    }
  }

  /** A field in which the first `b` bytes of `n` have landed over `m`. */
  function Mixed(n: nat, m: nat, b: nat): (x: nat)
  {
    if b == 0 then m else n % 256 + 256 * Mixed(n / 256, m / 256, b - 1)
  }

  lemma {:induction false} LEMixed(s: seq<byte>, n: nat, m: nat, w: nat, b: nat)
    requires |s| == w && b <= w && m < Pow256(w)
    requires forall i :: 0 <= i < w ==> s[i] == if i < b then ToLE(n, w)[i] else ToLE(m, w)[i]
    ensures FromLE(s) == Mixed(n, m, b)
  {
    if b == 0 {
      assert s == ToLE(m, w);
      LERoundTrip(m, w);
    } else {
      assert forall i :: 0 <= i < w - 1 ==> s[1..][i] == s[i + 1];
      assert ToLE(n, w)[1..] == ToLE(n / 256, w - 1) && ToLE(m, w)[1..] == ToLE(m / 256, w - 1);
      LEMixed(s[1..], n / 256, m / 256, w - 1, b - 1);
      assert s[0] == ToLE(n, w)[0] == n % 256;
    }
  }

  /** A field that only grows never reads larger on the way; one that is written
      again with its own value never changes; one that has landed reads as written. */
  lemma {:induction false} MixedReads(n: nat, m: nat, b: nat)
    ensures m <= n ==> Mixed(n, m, b) <= n
    ensures m == n ==> Mixed(n, m, b) == n
    ensures n < Pow256(b) && m < Pow256(b) ==> Mixed(n, m, b) == n
  {
    if b > 0 {
      MixedReads(n / 256, m / 256, b - 1);
    }
  }
}
