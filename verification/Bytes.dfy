/** Byte strings and fixed-width integers in them. */
module Bytes {
  type Byte = b: nat | b < 256
  type U16 = n: nat | n < 0x1_0000
  type U32 = n: nat | n < 0x1_0000_0000

  function Zeros(n: nat): seq<Byte> { seq<Byte>(n, _ => 0) }

  function Pow256(w: nat): (p: nat)
    ensures p > 0
  {
    if w == 0 then 1 else 256 * Pow256(w - 1)
  }

  /** Little-endian encoding in `w` bytes, of `n` modulo 256^w. */
  function LE(n: nat, w: nat): (s: seq<Byte>)
    ensures |s| == w
    decreases w
  {
    if w == 0 then [] else [n % 256] + LE(n / 256, w - 1)
  }

  function FromLE(s: seq<Byte>): nat {
    if s == [] then 0 else s[0] + 256 * FromLE(s[1..])
  }

  lemma {:induction false} LERoundTrip(n: nat, w: nat)
    requires n < Pow256(w)
    ensures FromLE(LE(n, w)) == n
  {
    if w == 0 {
    } else {
      LERoundTrip(n / 256, w - 1);
      assert LE(n, w)[1..] == LE(n / 256, w - 1);
    }
  }

  lemma {:induction false} LEInverse(s: seq<Byte>)
    ensures FromLE(s) < Pow256(|s|) && LE(FromLE(s), |s|) == s
  {
    if s == [] {
    } else {
      var high := FromLE(s[1..]);
      LEInverse(s[1..]);
      assert (s[0] + 256 * high) % 256 == s[0] && (s[0] + 256 * high) / 256 == high;
      assert s == [s[0]] + s[1..];
    }
  }

  lemma Pow256Values()
    ensures Pow256(2) == 0x1_0000 && Pow256(4) == 0x1_0000_0000 && Pow256(8) == 0x1_0000_0000_0000_0000
  {
    assert Pow256(1) == 256 && Pow256(3) == 0x100_0000;
    assert Pow256(5) == 0x100_0000_0000 && Pow256(6) == 0x1_0000_0000_0000 && Pow256(7) == 0x100_0000_0000_0000;
  }
}
