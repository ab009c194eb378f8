/**
Strings as the kernel keeps them, in byte buffers that end at the first zero byte, and
the loops over them (src/utils/string.c).
*/
module CStrings {
  import opened Bytes

  const DOT: byte := 46
  const SLASH: byte := 47
  const COLON: byte := 58

  ghost predicate Terminated(b: seq<byte>) {
    exists i :: 0 <= i < |b| && b[i] == 0
  }

  ghost predicate NoZero(s: seq<byte>) {
    forall i :: 0 <= i < |s| ==> s[i] != 0
  }

  /** The number of bytes before the first zero byte. */
  function Len(b: seq<byte>): (n: nat)
    ensures n <= |b| && NoZero(b[..n])
    ensures n < |b| ==> b[n] == 0
  {
    if b == [] || b[0] == 0 then 0 else 1 + Len(b[1..])
  }

  /** The string in a buffer. */
  function Str(b: seq<byte>): (s: seq<byte>)
    ensures NoZero(s) && |s| <= |b|
  {
    b[..Len(b)]
  }

  /** Where the first zero byte is determines the string. */
  lemma LenIs(b: seq<byte>, n: nat)
    requires n < |b| && b[n] == 0 && NoZero(b[..n])
    ensures Len(b) == n && Str(b) == b[..n]
  {
    NoneBefore(b, n);
    NoneBefore(b, Len(b));
  }

  lemma NoneBefore(b: seq<byte>, n: nat)
    requires n <= |b| && NoZero(b[..n])
    ensures forall i :: 0 <= i < n ==> b[i] != 0
  {
    forall i | 0 <= i < n
      ensures b[i] != 0
    {
      assert b[..n][i] != 0;
    }
  }

  /** A string followed by a zero byte and anything else is the string of its buffer. */
  lemma StrOf(s: seq<byte>, rest: seq<byte>)
    requires NoZero(s) && |rest| > 0 && rest[0] == 0
    ensures Terminated(s + rest) && Len(s + rest) == |s| && Str(s + rest) == s
  {
    assert (s + rest)[|s|] == 0;
    assert (s + rest)[..|s|] == s;
    LenIs(s + rest, |s|);
  }

  method StrLen(b: seq<byte>) returns (n: nat)
    requires Terminated(b)
    ensures n == Len(b) && n < |b|
  {
    n := 0;
    while b[n] != 0
      invariant n < |b| && NoZero(b[..n])
      decreases |b| - n
    {
      var i :| 0 <= i < |b| && b[i] == 0;
      NoneBefore(b, n);
      n := n + 1;
    }
    LenIs(b, n);
  }

  method StrCmp(a: seq<byte>, b: seq<byte>) returns (r: bool)
    requires Terminated(a) && Terminated(b)
    ensures r <==> Str(a) == Str(b)
  {
    var m := StrLen(a);
    var n := StrLen(b);
    if m != n {
      assert |Str(a)| != |Str(b)|;
      return false;
    }
    var c := 0;
    while c < m && c < n
      invariant 0 <= c <= m
      invariant forall i :: 0 <= i < c ==> a[i] == b[i]
    {
      if a[c] != b[c] {
        assert Str(a)[c] != Str(b)[c];
        return false;
      }
      c := c + 1;
    }
    return true;
  }

  /** Whether the bytes of `a` from `at` on start with the first `size` bytes of `b`. */
  method MemCmp(a: seq<byte>, at: nat, b: seq<byte>, size: nat) returns (r: bool)
    requires at + size <= |a| && size <= |b|
    ensures r <==> a[at..at + size] == b[..size]
  {
    var c := 0;
    while c < size
      invariant 0 <= c <= size
      invariant forall i :: 0 <= i < c ==> a[at + i] == b[i]
    {
      if a[at + c] != b[c] {
        assert a[at..at + size][c] != b[..size][c];
        return false;
      }
      c := c + 1;
    }
    assert a[at..at + size] == b[..size];
    return true;
  }

  // ----- octal numbers --------------------------------------------------------------

  /** A `char` is signed. */
  function SignedChar(b: byte): int {
    if b < 128 then b else b - 256
  }

  /** The 32-bit signed number that an integer wraps around to. */
  function Int32(n: int): (r: int)
    ensures -0x8000_0000 <= r < 0x8000_0000
    ensures -0x8000_0000 <= n < 0x8000_0000 ==> r == n
  {
    (n + 0x8000_0000) % 0x1_0000_0000 - 0x8000_0000
  }

  lemma Int32Of(n: int, k: int)
    ensures Int32(n + k * 0x1_0000_0000) == Int32(n)
  {
    var q := (n + 0x8000_0000) / 0x1_0000_0000;
    var r := (n + 0x8000_0000) % 0x1_0000_0000;
    ModIs(n + 0x8000_0000 + k * 0x1_0000_0000, q + k, r);
  }

  lemma ModIs(n: int, q: int, r: int)
    requires n == q * 0x1_0000_0000 + r && 0 <= r < 0x1_0000_0000
    ensures n % 0x1_0000_0000 == r
  {
  }

  /** The number that a string of octal digits stands for. */
  function Octal(s: seq<byte>): int {
    if s == [] then 0 else Octal(s[..|s| - 1]) * 8 + SignedChar(s[|s| - 1]) - 48
  }

  /** One digit more: a byte counts as a signed `char`, less the digit zero. */
  lemma OctalStep(s: seq<byte>, b: byte)
    ensures Octal(s + [b]) == 8 * Octal(s) + (if b < 128 then b else b - 256) - 48 && Octal([]) == 0
  {
    assert (s + [b])[..|s|] == s;
  }

  /** Wrapping around at every step is wrapping around once at the end. */
  lemma WrapOnce(a: int, d: int)
    ensures Int32(Int32(Int32(a) * 8) + d) == Int32(a * 8 + d)
  {
    var p := (a + 0x8000_0000) / 0x1_0000_0000;
    assert a == Int32(a) + p * 0x1_0000_0000;
    var x := Int32(a) * 8;
    var q := (x + 0x8000_0000) / 0x1_0000_0000;
    assert x == Int32(x) + q * 0x1_0000_0000;
    assert a * 8 + d == Int32(x) + d + (q + 8 * p) * 0x1_0000_0000;
    Int32Of(Int32(x) + d, q + 8 * p);
  }

  /** Reads `size` octal digits at `at` into a 32-bit number. */
  method Oct2Bin(str: seq<byte>, at: nat, size: nat) returns (n: int)
    requires at + size <= |str|
    ensures n == Int32(Octal(str[at..at + size]))
  {
    n := 0;
    var c := at;
    var left := size;
    while left > 0
      invariant 0 <= left <= size && c == at + (size - left)
      invariant n == Int32(Octal(str[at..c]))
    {
      WrapOnce(Octal(str[at..c]), SignedChar(str[c]) - 48);
      assert str[at..c + 1][..c - at] == str[at..c];
      left := left - 1;
      n := Int32(n * 8);
      n := Int32(n + (SignedChar(str[c]) - 48));
      c := c + 1;
    }
    assert str[at..c] == str[at..at + size];
  }

  function Pow8(n: nat): (p: nat)
    ensures p > 0
  {
    if n == 0 then 1 else 8 * Pow8(n - 1)
  }

  /** A number written with `width` octal digits, as archives store sizes. */
  function OctalDigits(v: nat, width: nat): (s: seq<byte>)
    ensures |s| == width && NoZero(s)
  {
    if width == 0 then [] else OctalDigits(v / 8, width - 1) + [48 + v % 8]
  }

  lemma {:induction false} OctalRoundTrip(v: nat, width: nat)
    requires v < Pow8(width)
    ensures Octal(OctalDigits(v, width)) == v
  {
    if width > 0 {
      var s := OctalDigits(v, width);
      OctalRoundTrip(v / 8, width - 1);
      assert s[..|s| - 1] == OctalDigits(v / 8, width - 1);
    }
  }

  lemma ElevenDigits()
    ensures Pow8(11) == 0x2_0000_0000
  {
    assert Pow8(5) == 0x8000;
    assert Pow8(8) == 512 * Pow8(5);
    assert Pow8(11) == 512 * Pow8(8);
  }

  /** A size field of eleven octal digits is read back exactly when the size is below two to the 31. */
  lemma SizeFieldReads(v: nat)
    requires v < 0x2_0000_0000
    ensures Int32(Octal(OctalDigits(v, 11))) == v <==> v < 0x8000_0000
  {
    ElevenDigits();
    OctalRoundTrip(v, 11);
  }
}
