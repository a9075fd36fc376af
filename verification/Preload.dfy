/** The choice of upcoming items to preload (client/src/state/coordinator.rs). */
module Preload {
  import opened Options
  import opened QueueSpec

  function KnownSize(item: PlaylistItem): nat { if item.fileSize.Some? then item.fileSize.value else 0 }

  function TotalSize(items: seq<PlaylistItem>): nat {
    if items == [] then 0 else TotalSize(items[..|items| - 1]) + KnownSize(items[|items| - 1])
  }

  /** The total size of the first `n` items. */
  function SizeOfFirst(items: seq<PlaylistItem>, n: nat): nat
    requires n <= |items|
  {
    TotalSize(items[..n])
  }

  lemma OneMore(items: seq<PlaylistItem>, n: nat)
    requires n < |items|
    ensures SizeOfFirst(items, n + 1) == SizeOfFirst(items, n) + KnownSize(items[n])
    ensures items[..n + 1] == items[..n] + [items[n]]
  {
    assert items[..n + 1][..n] == items[..n];
  }

  /** The first `n` items fit, and `n` is as many as the count, the list and the budget allow. */
  ghost predicate IsLongestRun(items: seq<PlaylistItem>, count: nat, budget: Option<nat>, n: nat) {
    && n <= |items| && n <= count
    && (budget.Some? ==> SizeOfFirst(items, n) <= budget.value)
    && (n == |items| || n == count || (budget.Some? && SizeOfFirst(items, n + 1) > budget.value))
  }

  method SelectPreloadItems(upcoming: seq<PlaylistItem>, count: nat, budget: Option<nat>)
    returns (picked: seq<PlaylistItem>)
    ensures IsLongestRun(upcoming, count, budget, |picked|) && picked == upcoming[..|picked|]
  {
    picked := [];
    var running := 0;
    while |picked| < count && |picked| < |upcoming|
      invariant |picked| <= count && |picked| <= |upcoming| && picked == upcoming[..|picked|]
      invariant running == SizeOfFirst(upcoming, |picked|)
      invariant budget.Some? ==> running <= budget.value
    {
      var item := upcoming[|picked|];
      OneMore(upcoming, |picked|);
      if budget.Some? && running + KnownSize(item) > budget.value {
        return;
      }
      running := running + KnownSize(item);
      picked := picked + [item];
    }
  }

  /** Sizes are not negative, so a longer front takes at least as much. */
  lemma {:induction false} SizesGrow(items: seq<PlaylistItem>, m: nat, n: nat)
    requires m <= n <= |items|
    ensures SizeOfFirst(items, m) <= SizeOfFirst(items, n)
    decreases n - m
  {
    if m < n {
      OneMore(items, m);
      SizesGrow(items, m + 1, n);
    }
  }

  /** The run is the longest one within the count and the budget. */
  lemma LongestRunIsLongest(items: seq<PlaylistItem>, count: nat, budget: Option<nat>, n: nat, m: nat)
    requires IsLongestRun(items, count, budget, n)
    requires m <= |items| && m <= count && (budget.Some? ==> SizeOfFirst(items, m) <= budget.value)
    ensures m <= n
  {
    if n < m {
      SizesGrow(items, n + 1, m);
    }
  }
}
