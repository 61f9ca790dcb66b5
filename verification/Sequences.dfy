module Sequences {
  // The last n elements, or all of them when there are no more than n.
  function Suffix<T>(s: seq<T>, n: nat): (r: seq<T>)
    ensures |r| == (if |s| > n then n else |s|)
    ensures forall i | 0 <= i < |r| :: r[i] == s[|s| - |r| + i]
  {
    if |s| > n then s[|s| - n..] else s
  }
}
