/** The playlist queue of client/src/playback/queue.rs as a value, and its laws. */
module QueueSpec {
  import opened Options
  import opened CacheNames

  datatype PlaylistItem = PlaylistItem(
    mediaId: MediaId,
    orderIndex: nat,
    filename: string,
    fileSize: Option<nat>)

  datatype Queue = Queue(
    items: seq<PlaylistItem>,
    index: Option<nat>,
    loopEnabled: bool,
    playlistId: Option<nat>)

  /** The index is unset or in range. */
  ghost predicate Valid(q: Queue) { q.index.Some? ==> q.index.value < |q.items| }

  function ItemAt(q: Queue, i: Option<nat>): Option<PlaylistItem> {
    if i.Some? && i.value < |q.items| then Some(q.items[i.value]) else None
  }

  function Next(q: Queue): (Queue, Option<PlaylistItem>) {
    if q.items == [] then (q, None)
    else
      var next := match q.index
        case None => Some(0)
        case Some(i) =>
          if i + 1 < |q.items| then Some(i + 1) else if q.loopEnabled then Some(0) else None;
      (q.(index := next), ItemAt(q, next))
  }

  function Previous(q: Queue): (Queue, Option<PlaylistItem>) {
    if q.items == [] then (q, None)
    else
      var prev := match q.index
        case None => 0
        case Some(i) => if i > 0 then i - 1 else if q.loopEnabled then |q.items| - 1 else 0;
      (q.(index := Some(prev)), ItemAt(q, Some(prev)))
  }

  function Remaining(q: Queue): nat {
    match q.index
    case None => |q.items|
    case Some(i) => if i + 1 <= |q.items| then |q.items| - (i + 1) else 0
  }

  function UpdateItems(q: Queue, items: seq<PlaylistItem>, id: nat): Queue {
    Queue(items, None, q.loopEnabled, Some(id))
  }

  // ---------------------------------------------------------------- laws

  /** The queue after `k` calls of `next`. */
  function NextTimes(q: Queue, k: nat): Queue {
    if k == 0 then q else Next(NextTimes(q, k - 1)).0
  }

  /** What `k` calls of `next` return. */
  function NextResults(q: Queue, k: nat): seq<Option<PlaylistItem>> {
    if k == 0 then [] else NextResults(q, k - 1) + [Next(NextTimes(q, k - 1)).1]
  }

  lemma MulGrows(n: nat, d: int)
    ensures d >= 1 ==> n * d >= n
    ensures d <= -1 ==> n * d <= 0 - n
  {
  }

  /** Quotient and remainder are unique. */
  lemma RemainderIsUnique(n: nat, a: int, r: nat, b: int, t: nat)
    requires r < n && t < n && n * a + r == n * b + t
    ensures r == t
  {
    var d := a - b;
    MulGrows(n, d);
    assert n * d == t - r;
  }

  lemma ModSuccessor(x: nat, n: nat)
    requires n > 0
    ensures (x + 1) % n == if x % n + 1 == n then 0 else x % n + 1
  {
    var quot, rem := x / n, x % n;
    if rem + 1 == n {
      assert x + 1 == n * (quot + 1) + 0;
      RemainderIsUnique(n, quot + 1, 0, (x + 1) / n, (x + 1) % n);
    } else {
      RemainderIsUnique(n, quot, rem + 1, (x + 1) / n, (x + 1) % n);
    }
  }

  /** `k` steps around a ring of `n` places, starting at `p`. */
  function Around(p: nat, k: nat, n: nat): (r: nat)
    requires p < n
    ensures r < n
  {
    if k == 0 then p
    else if Around(p, k - 1, n) + 1 == n then 0 else Around(p, k - 1, n) + 1
  }

  lemma {:induction false} AroundIsMod(p: nat, k: nat, n: nat)
    requires p < n
    ensures Around(p, k, n) == (p + k) % n
  {
    if k > 0 {
      AroundIsMod(p, k - 1, n);
      ModSuccessor(p + (k - 1), n);
    }
  }

  lemma {:induction false} LoopingGoesAround(q: Queue, k: nat)
    requires Valid(q) && q.index.Some? && q.loopEnabled
    ensures NextTimes(q, k) == q.(index := Some(Around(q.index.value, k, |q.items|)))
  {
    if k > 0 { LoopingGoesAround(q, k - 1); }
  }

  /** Looping, `k` calls from index `i` land on `(i + k) mod n`. */
  lemma LoopingNextLands(q: Queue, k: nat)
    requires Valid(q) && q.index.Some? && q.loopEnabled
    ensures NextTimes(q, k) == q.(index := Some((q.index.value + k) % |q.items|))
  {
    LoopingGoesAround(q, k);
    AroundIsMod(q.index.value, k, |q.items|);
  }

  /** `previous` undoes `next` exactly from a set index that looping or a successor follows. */
  lemma PreviousUndoesNextIff(q: Queue)
    requires Valid(q) && q.items != []
    ensures Previous(Next(q).0).0 == q <==>
            q.index.Some? && (q.loopEnabled || q.index.value + 1 < |q.items| || |q.items| == 1)
  {
  }

  /** The queue after `k` calls of `previous`. */
  function PreviousTimes(q: Queue, k: nat): Queue {
    if k == 0 then q else Previous(PreviousTimes(q, k - 1)).0
  }

  /** Not looping, `k` calls of `previous` go back `k` places and stop at the first item. */
  lemma {:induction false} PreviousStopsAtFirst(q: Queue, k: nat)
    requires Valid(q) && q.index.Some? && !q.loopEnabled
    ensures PreviousTimes(q, k) == q.(index := Some(if k <= q.index.value then q.index.value - k else 0))
  {
    if k > 0 { PreviousStopsAtFirst(q, k - 1); }
  }

  /**
   * `next` undoes `previous` exactly from a set index that looping or a predecessor goes back
   * from, and from the start of a single item that does not loop.
   */
  lemma NextUndoesPreviousIff(q: Queue)
    requires Valid(q) && q.items != []
    ensures Next(Previous(q).0).0 == q <==>
            if q.index.Some? then q.loopEnabled || q.index.value > 0 else !q.loopEnabled && |q.items| == 1
  {
  }

  /** Both return the item they land on; `previous` starts at the first item when no index is set. */
  lemma PreviousReturnsItem(q: Queue)
    requires Valid(q) && q.items != []
    ensures var (t, item) := Previous(q);
            t.index.Some? && item == Some(q.items[t.index.value]) && (q.index.None? ==> t.index == Some(0))
  {
  }

  /** The n + 1 states of a queue that does not loop: before the first item, or at an item. */
  function Position(q: Queue): nat { if q.index.None? then 0 else q.index.value + 1 }

  lemma {:induction false} NextGoesAround(q: Queue, k: nat)
    requires Valid(q) && q.items != [] && !q.loopEnabled
    ensures var t := NextTimes(q, k);
            && Valid(t) && t == q.(index := t.index)
            && Position(t) == Around(Position(q), k, |q.items| + 1)
  {
    if k > 0 { NextGoesAround(q, k - 1); }
  }

  /** Not looping, `next` rotates the n + 1 states. */
  lemma NextRotates(q: Queue, k: nat)
    requires Valid(q) && q.items != [] && !q.loopEnabled
    ensures var t := NextTimes(q, k);
            && Valid(t) && t == q.(index := t.index)
            && Position(t) == (Position(q) + k) % (|q.items| + 1)
  {
    NextGoesAround(q, k);
    AroundIsMod(Position(q), k, |q.items| + 1);
  }

  lemma {:induction false} NextWalksOn(q: Queue, k: nat)
    requires Valid(q) && Position(q) + k <= |q.items| && q.items != []
    ensures NextTimes(q, k) == if k == 0 then q else q.(index := Some(Position(q) + k - 1))
  {
    if k > 0 { NextWalksOn(q, k - 1); }
  }

  lemma NextReturns(q: Queue, k: nat)
    requires Valid(q) && Position(q) + k < |q.items|
    ensures Next(NextTimes(q, k)).1 == Some(q.items[Position(q) + k])
  {
    NextWalksOn(q, k);
  }

  lemma {:induction false} NextWalks(q: Queue, k: nat)
    requires Valid(q) && Position(q) + k <= |q.items| && q.items != []
    ensures |NextResults(q, k)| == k
    ensures forall j | 0 <= j < k :: NextResults(q, k)[j] == Some(q.items[Position(q) + j])
  {
    if k > 0 {
      var front := NextResults(q, k - 1);
      NextWalks(q, k - 1);
      NextReturns(q, k - 1);
      assert NextResults(q, k) == front + [Some(q.items[Position(q) + (k - 1)])];
    }
  }

  /**
   * `remaining_count` is the number of items that `next` still returns before it first returns
   * nothing; they are the rest of the list, each once and in order.
   */
  lemma RemainingCounts(q: Queue)
    requires Valid(q) && !q.loopEnabled
    ensures Remaining(q) == |q.items| - Position(q)
    ensures |NextResults(q, Remaining(q))| == Remaining(q)
    ensures forall j | 0 <= j < Remaining(q) ::
              NextResults(q, Remaining(q))[j] == Some(q.items[Position(q) + j])
    ensures Next(NextTimes(q, Remaining(q))).1 == None
  {
    if q.items != [] {
      NextWalks(q, Remaining(q));
      NextWalksOn(q, Remaining(q));
    }
  }

  /** After `update_items`, n calls return every item once, in order, looping or not. */
  lemma UpdatePlaysAll(q: Queue, items: seq<PlaylistItem>, id: nat)
    requires items != []
    ensures var u := UpdateItems(q, items, id);
            && |NextResults(u, |items|)| == |items|
            && forall j | 0 <= j < |items| :: NextResults(u, |items|)[j] == Some(items[j])
  {
    var u, n := UpdateItems(q, items, id), |items|;
    NextWalks(u, n);
    assert forall j | 0 <= j < n :: NextResults(u, n)[j] == Some(u.items[Position(u) + j]);
  }
}
