/**
 * The two array idioms the tip ledger and the trade history share:
 * `push` followed by one `shift` when the array is over its cap, and
 * `slice(-n).reverse()` to show the newest entries first.
 */
module Logs {

  /** `log.push(x); if (log.length > cap) log.shift();` as a value. */
  function Push<T>(log: seq<T>, x: T, cap: nat): (r: seq<T>)
    requires 0 < cap
    ensures |r| == if |log| < cap then |log| + 1 else |log|
    ensures |log| <= cap ==> |r| <= cap
    ensures r[|r| - 1] == x
    // FIFO: what is kept is the newest part of the log followed by x
    ensures r == (log + [x])[|log| + 1 - |r|..]
    ensures |log| == cap ==> r[..|r| - 1] == log[1..]
  {
    var pushed := log + [x];
    if |pushed| > cap then pushed[1..] else pushed
  }

  /** `s.reverse()` on a copy. */
  function Reverse<T>(s: seq<T>): (r: seq<T>)
    ensures |r| == |s|
    ensures forall k :: 0 <= k < |s| ==> r[k] == s[|s| - 1 - k]
  {
    if s == [] then [] else [s[|s| - 1]] + Reverse(s[..|s| - 1])
  }

  /** `s.slice(-n).reverse()` for a positive `n`: the newest `n` entries, newest first. */
  function Recent<T>(s: seq<T>, n: nat): (r: seq<T>)
    requires 0 < n
    ensures |r| == if |s| < n then |s| else n
    ensures forall k :: 0 <= k < |r| ==> r[k] == s[|s| - 1 - k]
  {
    Reverse(s[if |s| < n then 0 else |s| - n..])
  }
}
