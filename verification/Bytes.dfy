/** Bytes, machine-sized integers and the big-endian readings of them that the
    wire and store formats share. */
module Bytes {

  type byte = x: int | 0 <= x < 256
  type u16 = x: int | 0 <= x < 0x1_0000
  type u32 = x: int | 0 <= x < 0x1_0000_0000
  type u64 = x: int | 0 <= x < 0x1_0000_0000_0000_0000

  const U64_MAX: u64 := 0xffff_ffff_ffff_ffff

  datatype Option<+T> = None | Some(value: T)

  datatype Result<+T, +E> = Ok(value: T) | Err(error: E)

  function Zeros(n: nat): (z: seq<byte>)
    ensures |z| == n && forall i :: 0 <= i < n ==> z[i] == 0
  {
    seq(n, i => 0)
  }

  /** `n as u16` in network order: the high bits are cut off, as the cast does. */
  function Put16(n: nat): (b: seq<byte>)
    ensures |b| == 2 && (n < 0x1_0000 ==> U16(b[0], b[1]) == n)
  {
    [n / 256 % 256, n % 256]
  }

  /** The empty `reads` clause keeps the solver from computing it on constants, which
      for zeros has no end. */
  function U16(hi: byte, lo: byte): (n: u16)
    reads {}
  {
    hi * 256 + lo
  }

  /** Three bytes of a length; higher bits are cut off by the `as u8` casts. */
  function Put24(n: nat): (b: seq<byte>)
    ensures |b| == 3 && (n < 0x100_0000 ==> U24(b[0], b[1], b[2]) == n)
  {
    var high := Put16(n / 256);
    high + [n % 256]
  }

  function U24(a: byte, b: byte, c: byte): (n: nat)
    reads {}
    ensures n < 0x100_0000
  {
    U16(a, b) * 256 + c
  }

  /** The `k` low bytes of `n`, most significant first (`put_u32`, `put_u64`). */
  function Put(n: nat, k: nat): (b: seq<byte>)
    ensures |b| == k
  {
    if k == 0 then [] else Put(n / 256, k - 1) + [n % 256]
  }

  function Get(b: seq<byte>): (n: nat)
  {
    if b == [] then 0 else Get(b[..|b| - 1]) * 256 + b[|b| - 1]
  }

  function Pow256(k: nat): (p: nat)
    ensures p > 0
  {
    if k == 0 then 1 else 256 * Pow256(k - 1)
  }

  lemma {:induction false} GetPut(n: nat, k: nat)
    requires n < Pow256(k)
    ensures Get(Put(n, k)) == n
  {
    if k > 0 {
      GetPut(n / 256, k - 1);
      assert Put(n, k)[..k - 1] == Put(n / 256, k - 1);
    }
  }

  lemma {:induction false} GetBound(b: seq<byte>)
    ensures Get(b) < Pow256(|b|)
  {
    if b != [] {
      GetBound(b[..|b| - 1]);
    }
  }

  /** Two big-endian strings of one length are equal when their values are. */
  lemma {:induction false} GetInjective(a: seq<byte>, b: seq<byte>)
    requires |a| == |b| && Get(a) == Get(b)
    ensures a == b
  {
    if a != [] {
      GetInjective(a[..|a| - 1], b[..|b| - 1]);
      assert a == a[..|a| - 1] + [a[|a| - 1]];
      assert b == b[..|b| - 1] + [b[|b| - 1]];
    }
  }

  lemma Pow256Values()
    ensures Pow256(4) == 0x1_0000_0000 && Pow256(8) == 0x1_0000_0000_0000_0000
  {
    assert Pow256(2) == 0x1_0000;
    assert Pow256(4) == 0x1_0000_0000;
    assert Pow256(6) == 0x1_0000_0000_0000;
  }

  /** Exclusive or of the `n` low bits, written on integers. */
  function XorBits(a: nat, b: nat, n: nat): (x: nat)
  {
    if n == 0 then 0 else 2 * XorBits(a / 2, b / 2, n - 1) + (a + b) % 2
  }

  function Pow2(n: nat): (p: nat)
    ensures p > 0
  {
    if n == 0 then 1 else 2 * Pow2(n - 1)
  }

  lemma {:induction false} XorBitsBound(a: nat, b: nat, n: nat)
    ensures XorBits(a, b, n) < Pow2(n)
  {
    if n > 0 {
      XorBitsBound(a / 2, b / 2, n - 1);
    }
  }

  lemma LowBit(y: nat, a: nat, b: nat)
    ensures (2 * y + (a + b) % 2 + b) % 2 == a % 2
  {
    assert (a + b) % 2 == (a + b) - 2 * ((a + b) / 2);
    assert 2 * y + (a + b) % 2 + b == a + 2 * (y + b - (a + b) / 2);
  }

  lemma {:induction false} XorBitsTwice(a: nat, b: nat, n: nat)
    requires a < Pow2(n)
    ensures XorBits(XorBits(a, b, n), b, n) == a
  {
    if n > 0 {
      XorBitsTwice(a / 2, b / 2, n - 1);
      var y, bit := XorBits(a / 2, b / 2, n - 1), (a + b) % 2;
      var x := 2 * y + bit;
      assert x / 2 == y;
      assert (x + b) % 2 == a % 2 by { LowBit(y, a, b); }
    }
  }

  lemma Pow2Of8()
    ensures Pow2(8) == 256
  {
    assert Pow2(4) == 16;
    assert Pow2(6) == 64;
  }

  /** `a ^ b` on bytes; xoring twice with the same byte gives the first one back. */
  function Xor(a: byte, b: byte): (x: byte)
    ensures XorBits(x, b, 8) == a
  {
    XorBitsBound(a, b, 8);
    Pow2Of8();
    XorBitsTwice(a, b, 8);
    XorBits(a, b, 8)
  }

  lemma XorTwice(a: byte, b: byte)
    ensures Xor(Xor(a, b), b) == a
  {
  }

  /** All the pieces one after the other. */
  function Concat(pieces: seq<seq<byte>>): (all: seq<byte>)
  {
    if pieces == [] then [] else pieces[0] + Concat(pieces[1..])
  }

  lemma Associate(a: seq<byte>, b: seq<byte>, c: seq<byte>)
    ensures a + (b + c) == a + b + c
  {
  }

  lemma {:induction false} ConcatAppend(a: seq<seq<byte>>, b: seq<seq<byte>>)
    ensures Concat(a + b) == Concat(a) + Concat(b)
  {
    if a == [] {
      assert a + b == b && [] + Concat(b) == Concat(b);
    } else {
      ConcatAppend(a[1..], b);
      assert (a + b)[1..] == a[1..] + b && (a + b)[0] == a[0];
      Associate(a[0], Concat(a[1..]), Concat(b));
    }
  }

  lemma ConcatSnoc(a: seq<seq<byte>>, piece: seq<byte>)
    ensures Concat(a + [piece]) == Concat(a) + piece
  {
    ConcatAppend(a, [piece]);
    assert Concat([piece]) == piece + Concat([]);
  }

  lemma ConcatUpTo(pieces: seq<seq<byte>>, i: nat)
    requires i < |pieces|
    ensures Concat(pieces[..i + 1]) == Concat(pieces[..i]) + pieces[i]
  {
    assert pieces[..i + 1] == pieces[..i] + [pieces[i]];
    ConcatSnoc(pieces[..i], pieces[i]);
  }
}
