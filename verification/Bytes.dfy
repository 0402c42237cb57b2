/** Fixed-width big-endian numbers, as `to_be_bytes` and `from_be_bytes` lay them out. */
module Bytes {
  import opened Base

  /** 256 to the power `k`. */
  function Span(k: nat): nat {
    if k == 0 then 1 else 0x100 * Span(k - 1)
  }

  /** The low `k` bytes of `n`, most significant first. */
  function BigEndian(n: nat, k: nat): (b: seq<byte>)
    ensures |b| == k
  {
    if k == 0 then [] else BigEndian(n / 0x100, k - 1) + [n % 0x100]
  }

  function Number(b: seq<byte>): nat {
    if b == [] then 0 else 0x100 * Number(b[..|b| - 1]) + b[|b| - 1]
  }

  /** Reading back a number that fits gives the number. */
  lemma {:induction false} NumberOfBigEndian(n: nat, k: nat)
    requires n < Span(k)
    ensures Number(BigEndian(n, k)) == n
    decreases k
  {
    if k > 0 {
      NumberOfBigEndian(n / 0x100, k - 1);
      assert BigEndian(n, k)[..k - 1] == BigEndian(n / 0x100, k - 1);
    }
  }

  /** The bytes are determined by the number they spell. */
  lemma {:induction false} NumberWrites(b: seq<byte>)
    ensures BigEndian(Number(b), |b|) == b
    decreases |b|
  {
    if b != [] {
      NumberWrites(b[..|b| - 1]);
      assert b == b[..|b| - 1] + [b[|b| - 1]];
    }
  }

  lemma Spans()
    ensures Span(1) == 0x100 && Span(2) == 0x1_0000 && Span(3) == 0x100_0000 && Span(4) == 0x1_0000_0000
    ensures Span(8) == 0x1_0000_0000_0000_0000
    ensures Span(32) == DIGEST_LIMIT
  {
    assert Span(4) == 0x1_0000_0000;
    assert Span(8) == 0x1_0000_0000_0000_0000;
    assert Span(16) == 0x1_0000_0000_0000_0000_0000_0000_0000_0000;
    assert Span(24) == 0x1_0000_0000_0000_0000_0000_0000_0000_0000_0000_0000_0000_0000;
  }
}
