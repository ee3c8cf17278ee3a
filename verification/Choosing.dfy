/** Selections of a given size from a list. */
module Choosing {
  /** All selections of `k` positions, each in position order. */
  function Subsets<T>(s: seq<T>, k: nat): seq<seq<T>>
    decreases |s|
  {
    if k == 0 then [[]]
    else if s == [] then []
    else Prefixed(s[0], Subsets(s[1..], k - 1)) + Subsets(s[1..], k)
  }

  function Prefixed<T>(x: T, lists: seq<seq<T>>): (r: seq<seq<T>>)
    ensures |r| == |lists| && forall i | 0 <= i < |r| :: r[i] == [x] + lists[i]
  {
    seq(|lists|, i requires 0 <= i < |lists| => [x] + lists[i])
  }
}
