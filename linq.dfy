/** The few pieces of .NET semantics the shop code relies on: nullable
    results of FirstOrDefault, 32-bit signed integer arithmetic in its
    default unchecked (wrapping) form, and LINQ's Skip and Take on lists. */
module Linq {

  /** A FirstOrDefault result on a reference type: null, or the element found. */
  datatype Option<T> = None | Some(value: T)

  const MinInt32: int := -0x8000_0000
  const MaxInt32: int := 0x7FFF_FFFF

  /** Values of the C# type int. */
  type Int32 = x: int | MinInt32 <= x <= MaxInt32

  /** The result of an unchecked C# int operation whose exact value is x:
      x reduced modulo 2^32 into the signed range. */
  function Wrap32(x: int): (r: Int32)
    ensures (r - x) % 0x1_0000_0000 == 0
    ensures MinInt32 <= x <= MaxInt32 ==> r == x
  {
    var m := x % 0x1_0000_0000;
    if m <= MaxInt32 then m else m - 0x1_0000_0000
  }

  function Min(a: int, b: int): (r: int)
    ensures r <= a && r <= b && (r == a || r == b)
  {
    if a <= b then a else b
  }

  /** Enumerable.Skip: bypasses the first n elements; a count of zero or
      less bypasses nothing, a count past the end leaves nothing. */
  function Skip<T>(s: seq<T>, n: int): (r: seq<T>)
    ensures n <= 0 ==> r == s
    ensures 0 <= n ==> |r| == if n <= |s| then |s| - n else 0
    ensures forall i :: 0 <= i < |r| ==> 0 <= i + (if n <= 0 then 0 else n) < |s| && r[i] == s[i + (if n <= 0 then 0 else n)]
  {
    if n <= 0 then s else if n >= |s| then [] else s[n..]
  }

  /** Enumerable.Take: the first n elements, all of them when n is at
      least the length, none when n is zero or less. */
  function Take<T>(s: seq<T>, n: int): (r: seq<T>)
    ensures r <= s
    ensures |r| == if n <= 0 then 0 else Min(n, |s|)
  {
    if n <= 0 then [] else if n >= |s| then s else s[..n]
  }

  /** s.Skip(offset).Take(count): the contiguous run of at most count
      elements starting at offset, read as 0 when negative. */
  function SkipTake<T>(s: seq<T>, offset: int, count: int): (r: seq<T>)
    ensures var start := if offset < 0 then 0 else offset;
            && |r| == (if start >= |s| || count <= 0 then 0 else Min(count, |s| - start))
            && forall i :: 0 <= i < |r| ==> start + i < |s| && r[i] == s[start + i]
  {
    Take(Skip(s, offset), count)
  }
}
