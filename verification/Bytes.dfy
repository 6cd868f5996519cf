/** Bytes, and the sum-modulo-256 checksum every DLMS frame of the mesh carries. */
module Bytes {

  type byte = x: int | 0 <= x < 256

  /** One more, in one byte. */
  function Plus1(b: byte): (r: byte) {
    var n: int := b;
    (n + 1) % 256
  }

  /** The plain sum of a byte string. */
  function Sum(s: seq<byte>): (r: nat) {
    SumTo(s, |s|)
  }

  /** The sum of the first `n` bytes. */
  function SumTo(s: seq<byte>, n: nat): (r: nat)
    requires n <= |s|
  {
    if n == 0 then 0 else SumTo(s, n - 1) + s[n - 1]
  }

  /** The checksum byte of a byte string: the low byte of its sum. */
  function Checksum(s: seq<byte>): (r: byte) {
    Sum(s) % 256
  }

  /** Only the first `n` bytes matter. */
  lemma {:induction false} SumOfPrefix(s: seq<byte>, t: seq<byte>, n: nat)
    requires n <= |s| && n <= |t| && s[..n] == t[..n]
    ensures SumTo(s, n) == SumTo(t, n)
  {
    if n > 0 {
      assert s[..n - 1] == s[..n][..n - 1] && t[..n - 1] == t[..n][..n - 1];
      assert s[n - 1] == s[..n][n - 1] && t[n - 1] == t[..n][n - 1];
      SumOfPrefix(s, t, n - 1);
    }
  }

  lemma SumOfSlice(s: seq<byte>, n: nat)
    requires n <= |s|
    ensures Sum(s[..n]) == SumTo(s, n)
  {
    SumOfPrefix(s[..n], s, n);
  }

  lemma {:induction false} SumConcatTo(a: seq<byte>, b: seq<byte>, n: nat)
    requires n <= |b|
    ensures SumTo(a + b, |a| + n) == Sum(a) + SumTo(b, n)
  {
    if n == 0 {
      SumOfPrefix(a + b, a, |a|);
    } else {
      SumConcatTo(a, b, n - 1);
    }
  }

  lemma SumConcat(a: seq<byte>, b: seq<byte>)
    ensures Sum(a + b) == Sum(a) + Sum(b)
  {
    SumConcatTo(a, b, |b|);
  }

  /** Replacing one byte moves the sum by the difference. */
  lemma {:induction false} SumUpdateTo(s: seq<byte>, i: nat, v: byte, n: nat)
    requires i < |s| && n <= |s|
    ensures SumTo(s[i := v], n) == if i < n then SumTo(s, n) - s[i] + v else SumTo(s, n)
  {
    if n > 0 {
      SumUpdateTo(s, i, v, n - 1);
    }
  }

  lemma {:induction false} SumZeros(s: seq<byte>, n: nat)
    requires n <= |s| && forall i :: 0 <= i < n ==> s[i] == 0
    ensures SumTo(s, n) == 0
  {
    if n > 0 {
      SumZeros(s, n - 1);
    }
  }

  lemma SameLowByte(a: int, b: int, k: int)
    requires a == b + 256 * k
    ensures a % 256 == b % 256
  {
  }

  /** Adding a byte to a 16-bit or 32-bit sum keeps its low byte right, wrapped or not. */
  lemma WrapKeepsLowByte(sum: nat, total: nat, b: byte)
    requires sum % 256 == total % 256
    ensures (sum + b) % 0x1_0000 % 256 == (total + b) % 256
    ensures (sum + b) % 0x1_0000_0000 % 256 == (total + b) % 256
  {
    var x := sum + b;
    SameLowByte(x, total + b, sum / 256 - total / 256);
    SameLowByte(x % 0x1_0000, x, -0x100 * (x / 0x1_0000));
    SameLowByte(x % 0x1_0000_0000, x, -0x100_0000 * (x / 0x1_0000_0000));
  }

  /** The accumulation loop of the receive path: a 16-bit sum that may wrap, cut to its low byte. */
  method CalculateChecksum(data: seq<byte>, len: nat) returns (r: byte)
    requires len <= |data|
    ensures r == Checksum(data[..len])
  {
    var sum: nat := 0;
    var i := 0;
    while i < len
      invariant 0 <= i <= len
      invariant 0 <= sum < 0x1_0000 && sum % 256 == SumTo(data, i) % 256
    {
      WrapKeepsLowByte(sum, SumTo(data, i), data[i]);
      sum := (sum + data[i]) % 0x1_0000;
      i := i + 1;
    }
    SumOfSlice(data, len);
    r := sum % 256;
  }
}
