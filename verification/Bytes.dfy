/** Bytes and the two byte-level helpers that the radar codec uses. */
module Bytes {
  type byte = b: int | 0 <= b < 256

  /** A little-endian 16-bit field. */
  function U16(lo: byte, hi: byte): nat {
    lo + 256 * hi
  }

  /** The unbounded sum of all bytes; the wire carries it modulo 2^16. */
  function Sum(s: seq<byte>): nat {
    if s == [] then 0 else Sum(s[..|s| - 1]) + s[|s| - 1]
  }

  lemma {:induction false} U16Means(v: nat)
    requires v <= 0xFFFF
    ensures U16(v % 256, v / 256) == v && U16(0x34, 0x12) == 0x1234
  {
  }

  /** No byte counts for nothing, or twice: the sum of one byte is that byte, and sums of parts add up. */
  lemma {:induction false} SumMeans(a: seq<byte>, b: seq<byte>, x: byte)
    ensures Sum([]) == 0 && Sum([x]) == x && Sum(a + b) == Sum(a) + Sum(b)
  {
    assert [x][..0] == [];
    if b == [] {
      assert a + b == a;
    } else {
      var n := |b| - 1;
      SumMeans(a, b[..n], x);
      assert (a + b)[..|a| + n] == a + b[..n];
    }
  }

  lemma {:induction false} SliceOfSlice<T>(s: seq<T>, i: nat, n: nat, a: nat, b: nat)
    requires i <= n <= |s| && a <= b <= n - i
    ensures s[i..n][a..b] == s[i + a..i + b]
  {
    var t := s[i..n];
    assert forall k | 0 <= k < b - a :: t[a..b][k] == t[a + k];
  }

  lemma {:induction false} SplitThree<T>(s: seq<T>, i: nat, a: seq<T>, b: seq<T>, c: seq<T>)
    requires i <= |s| && s[i..] == a + b + c
    ensures i + |a| + |b| <= |s|
    ensures s[i..i + |a|] == a
    ensures s[i + |a|..i + |a| + |b|] == b
    ensures s[i + |a| + |b|..] == c
  {
    var t := s[i..];
    assert t[..|a|] == a && t[|a|..|a| + |b|] == b && t[|a| + |b|..] == c;
    assert s[i..|s|] == t;
    SliceOfSlice(s, i, |s|, 0, |a|);
    SliceOfSlice(s, i, |s|, |a|, |a| + |b|);
  }
}
