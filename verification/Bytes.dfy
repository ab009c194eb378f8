/**
Byte-addressed memory: the pure operations every store of the kernel amounts to, and
the in-place array methods that implement them (src/utils/string.c).
*/
module Bytes {

  type byte = x: int | 0 <= x < 256

  const TWO64: nat := 0x1_0000_0000_0000_0000

  /** `256` to the power `n`: one more than the largest number that fits in `n` bytes. */
  function Pow256(n: nat): (p: nat)
    ensures p > 0
  {
    if n == 0 then 1 else 256 * Pow256(n - 1)
  }

  /** The bytes `s` overwritten by the number `v`, least significant byte first. */
  function PutLE(v: nat, s: seq<byte>): (r: seq<byte>)
    ensures |r| == |s|
  {
    if s == [] then [] else [v % 256] + PutLE(v / 256, s[1..])
  }

  /** The number a little-endian byte string stands for. */
  function FromLE(s: seq<byte>): nat {
    if s == [] then 0 else s[0] + 256 * FromLE(s[1..])
  }

  lemma {:induction false} GetPutLE(v: nat, s: seq<byte>)
    requires v < Pow256(|s|)
    ensures FromLE(PutLE(v, s)) == v
  {
    if s != [] {
      GetPutLE(v / 256, s[1..]);
      assert PutLE(v, s)[1..] == PutLE(v / 256, s[1..]);
    }
  }

  lemma EightBytes()
    ensures Pow256(8) == TWO64
  {
    assert Pow256(4) == 0x1_0000_0000;
    assert Pow256(8) == 256 * (256 * (256 * (256 * Pow256(4))));
  }

  /** Memory `m` with the bytes `d` written at address `a`. */
  function Splice(m: seq<byte>, a: nat, d: seq<byte>): (r: seq<byte>)
    requires a + |d| <= |m|
    ensures |r| == |m|
    ensures forall x {:trigger r[x]} :: 0 <= x < |m| ==> r[x] == if a <= x < a + |d| then d[x - a] else m[x]
  {
    m[..a] + d + m[a + |d|..]
  }

  function Zeros(n: nat): (r: seq<byte>)
    ensures |r| == n && forall i :: 0 <= i < n ==> r[i] == 0
  {
    seq(n, _ => 0)
  }

  /** The 64-bit word at address `a`. */
  function Load64(m: seq<byte>, a: nat): nat
    requires a + 8 <= |m|
  {
    FromLE(m[a..a + 8])
  }

  function Store64(m: seq<byte>, a: nat, v: nat): (r: seq<byte>)
    requires a + 8 <= |m|
    ensures |r| == |m|
  {
    Splice(m, a, PutLE(v, m[a..a + 8]))
  }

  /** The two memories agree on `[a, a+n)`. */
  ghost predicate Same(m: seq<byte>, r: seq<byte>, a: nat, n: nat) {
    |m| == |r| && a + n <= |m| && forall x :: a <= x < a + n ==> m[x] == r[x]
  }

  lemma LoadSame(m: seq<byte>, r: seq<byte>, a: nat)
    requires Same(m, r, a, 8)
    ensures Load64(m, a) == Load64(r, a)
  {
    assert m[a..a + 8] == r[a..a + 8];
  }

  /** A word store is read back, and no other disjoint word changes. */
  lemma LoadStore(m: seq<byte>, a: nat, v: nat, b: nat)
    requires a + 8 <= |m| && b + 8 <= |m| && v < TWO64
    ensures b == a ==> Load64(Store64(m, a, v), b) == v
    ensures b + 8 <= a || a + 8 <= b ==> Load64(Store64(m, a, v), b) == Load64(m, b)
  {
    var r := Store64(m, a, v);
    if b == a {
      EightBytes();
      GetPutLE(v, m[a..a + 8]);
      assert r[a..a + 8] == PutLE(v, m[a..a + 8]);
    } else if b + 8 <= a || a + 8 <= b {
      LoadSame(m, r, b);
    }
  }

  lemma {:induction false} FromLEZeros(n: nat)
    ensures FromLE(Zeros(n)) == 0
  {
    if n > 0 {
      FromLEZeros(n - 1);
      assert Zeros(n)[1..] == Zeros(n - 1);
    }
  }

  lemma LoadZero(m: seq<byte>, a: nat)
    requires a + 8 <= |m| && forall x :: a <= x < a + 8 ==> m[x] == 0
    ensures Load64(m, a) == 0
  {
    FromLEZeros(8);
    assert m[a..a + 8] == Zeros(8);
  }

  lemma {:induction false} FromLEBound(s: seq<byte>)
    ensures FromLE(s) < Pow256(|s|)
  {
    if s != [] {
      FromLEBound(s[1..]);
    }
  }

  lemma LoadBound(m: seq<byte>, a: nat)
    requires a + 8 <= |m|
    ensures Load64(m, a) < TWO64
  {
    EightBytes();
    FromLEBound(m[a..a + 8]);
  }

  // ----- the in-place operations ----------------------------------------------------

  /** `ku_memcpy`: copies `d` to address `a`. */
  method MemCpy(mem: array<byte>, a: nat, d: seq<byte>)
    requires a + |d| <= mem.Length
    modifies mem
    ensures mem[..] == Splice(old(mem[..]), a, d)
  {
    var i := 0;
    while i < |d|
      invariant 0 <= i <= |d|
      invariant mem[..] == Splice(old(mem[..]), a, d[..i])
    {
      mem[a + i] := d[i];
      i := i + 1;
    }
    assert d[..i] == d;
  }

  /** `ku_memset` with value zero. */
  method MemZero(mem: array<byte>, a: nat, n: nat)
    requires a + n <= mem.Length
    modifies mem
    ensures mem[..] == Splice(old(mem[..]), a, Zeros(n))
  {
    MemCpy(mem, a, Zeros(n));
  }

  /** `*(uint64_t*) a = v`. */
  method StoreWord(mem: array<byte>, a: nat, v: nat)
    requires a + 8 <= mem.Length
    modifies mem
    ensures mem[..] == Store64(old(mem[..]), a, v)
  {
    assert mem[a..a + 8] == mem[..][a..a + 8];
    MemCpy(mem, a, PutLE(v, mem[a..a + 8]));
  }

  /** `*(uint64_t*) a`. */
  method LoadWord(mem: array<byte>, a: nat) returns (v: nat)
    requires a + 8 <= mem.Length
    ensures v == Load64(mem[..], a)
    ensures v < TWO64
  {
    v := FromLE(mem[a..a + 8]);
    assert mem[..][a..a + 8] == mem[a..a + 8];
    LoadBound(mem[..], a);
  }
}
