/** The two forms of JavaScript's `slice` that the source uses on strings and arrays. */
module Slices {

  /** `s.slice(-n)` for n > 0: the last n elements, or all of s when it is shorter. */
  function TakeLast<T>(s: seq<T>, n: nat): (r: seq<T>)
    ensures |r| == if |s| < n then |s| else n
    ensures r == s[if |s| < n then 0 else |s| - n..]
  {
    if |s| <= n then s else s[|s| - n..]
  }

  /** `s.slice(0, n)` for n >= 0: the first n elements, or all of s when it is shorter. */
  function TakeFirst<T>(s: seq<T>, n: nat): (r: seq<T>)
    ensures |r| == if |s| < n then |s| else n
    ensures r <= s
  {
    if |s| <= n then s else s[..n]
  }
}
