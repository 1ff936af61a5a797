/** Fixed-width integers on the wire: big- and little-endian byte strings and two's complement. */
module Bytes {
  type byte = x: int | 0 <= x < 256

  function Pow256(n: nat): (r: nat)
    ensures r >= 1
  {
    if n == 0 then 1 else 256 * Pow256(n - 1)
  }

  /** The low `n` bytes of `v`, most significant first. */
  function PutBE(v: nat, n: nat): (bs: seq<byte>)
    ensures |bs| == n
  {
    if n == 0 then [] else PutBE(v / 256, n - 1) + [v % 256]
  }

  function GetBE(bs: seq<byte>): nat {
    if bs == [] then 0 else GetBE(bs[..|bs| - 1]) * 256 + bs[|bs| - 1]
  }

  /** The low `n` bytes of `v`, least significant first. */
  function PutLE(v: nat, n: nat): (bs: seq<byte>)
    ensures |bs| == n
  {
    if n == 0 then [] else [v % 256] + PutLE(v / 256, n - 1)
  }

  function GetLE(bs: seq<byte>): nat {
    if bs == [] then 0 else bs[0] + 256 * GetLE(bs[1..])
  }

  lemma {:induction false} GetBEBound(bs: seq<byte>)
    ensures GetBE(bs) < Pow256(|bs|)
  {
    if bs != [] {
      GetBEBound(bs[..|bs| - 1]);
    }
  }

  lemma {:induction false} GetPutBE(v: nat, n: nat)
    requires v < Pow256(n)
    ensures GetBE(PutBE(v, n)) == v
  {
    if n > 0 {
      GetPutBE(v / 256, n - 1);
      assert PutBE(v, n)[..n - 1] == PutBE(v / 256, n - 1);
    }
  }

  lemma {:induction false} PutGetBE(bs: seq<byte>)
    ensures PutBE(GetBE(bs), |bs|) == bs
  {
    if bs != [] {
      var front, last := bs[..|bs| - 1], bs[|bs| - 1];
      PutGetBE(front);
      assert GetBE(bs) / 256 == GetBE(front) && GetBE(bs) % 256 == last;
      assert bs == front + [last];
    }
  }

  lemma {:induction false} GetPutLE(v: nat, n: nat)
    requires v < Pow256(n)
    ensures GetLE(PutLE(v, n)) == v
  {
    if n > 0 {
      GetPutLE(v / 256, n - 1);
      assert PutLE(v, n)[1..] == PutLE(v / 256, n - 1);
    }
  }

  /** `x` fits an `n`-byte two's complement integer. */
  predicate FitsSigned(x: int, n: nat)
    requires n > 0
  {
    -(Pow256(n) / 2) <= x < Pow256(n) / 2
  }

  function ToTwos(x: int, n: nat): nat
    requires n > 0 && FitsSigned(x, n)
  {
    if x < 0 then x + Pow256(n) else x
  }

  function FromTwos(v: nat, n: nat): int {
    if v < Pow256(n) / 2 then v else v - Pow256(n)
  }

  function PutSigned(x: int, n: nat): (bs: seq<byte>)
    requires n > 0 && FitsSigned(x, n)
    ensures |bs| == n
  {
    PutBE(ToTwos(x, n), n)
  }

  function GetSigned(bs: seq<byte>): (x: int)
    requires |bs| > 0
    ensures FitsSigned(x, |bs|)
  {
    GetBEBound(bs);
    Pow256Even(|bs|);
    FromTwos(GetBE(bs), |bs|)
  }

  lemma Pow256Even(n: nat)
    requires n > 0
    ensures Pow256(n) % 2 == 0 && Pow256(n) / 2 * 2 == Pow256(n)
  {
    assert Pow256(n) == 2 * (128 * Pow256(n - 1));
  }

  /** Reading back a written signed integer gives the integer. */
  lemma GetPutSigned(x: int, n: nat)
    requires n > 0 && FitsSigned(x, n)
    ensures GetSigned(PutSigned(x, n)) == x
  {
    Pow256Even(n);
    GetPutBE(ToTwos(x, n), n);
  }

  /** Writing back a read signed integer gives the bytes. */
  lemma PutGetSigned(bs: seq<byte>)
    requires |bs| > 0
    ensures PutSigned(GetSigned(bs), |bs|) == bs
  {
    GetBEBound(bs);
    Pow256Even(|bs|);
    PutGetBE(bs);
  }
}
