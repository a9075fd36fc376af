/** What the cache promises: room on success, a truthful counter, safe pins; and when it fails. */
module LruProperties {
  import opened Options
  import opened CacheNames
  import opened LruSpec

  // ---------------------------------------------------------------- eviction keeps the books

  lemma SurvivorsBytes(c: seq<Entry>, pins: set<MediaId>, k: nat)
    requires k <= |c|
    ensures Bytes(c) == Bytes(Survivors(c, pins, k)) + PassedBytes(c, pins, k)
  {
    SplitPins(c[..k], pins);
    BytesConcat(PinnedOf(c[..k], pins), c[k..]);
    BytesConcat(c[..k], c[k..]);
    assert c == c[..k] + c[k..];
  }

  /** Each element of `a` occurs in `b`, in the same order. */
  ghost predicate IsSubsequence(a: seq<Entry>, b: seq<Entry>) {
    a == [] || (b != [] && (if a[0] == b[0] then IsSubsequence(a[1..], b[1..]) else IsSubsequence(a, b[1..])))
  }

  lemma {:induction false} SubsequenceRefl(a: seq<Entry>)
    ensures IsSubsequence(a, a)
  {
    if a != [] { SubsequenceRefl(a[1..]); }
  }

  lemma {:induction false} SubsequenceSkip(a: seq<Entry>, b: seq<Entry>)
    requires a != [] && IsSubsequence(a, b)
    ensures IsSubsequence(a[1..], b)
  {
    if a[0] == b[0] {
      if a[1..] != [] {
        if a[1..][0] == b[0] { SubsequenceSkip(a[1..], b[1..]); }
      }
    } else {
      SubsequenceSkip(a, b[1..]);
      if a[1..] != [] && a[1..][0] == b[0] { SubsequenceSkip(a[1..], b[1..]); }
    }
  }

  /** Survivors are a subsequence: eviction does not reorder what it keeps. */
  lemma {:induction false} SurvivorsKeepOrder(c: seq<Entry>, pins: set<MediaId>, k: nat)
    requires k <= |c|
    ensures IsSubsequence(Survivors(c, pins, k), c)
  {
    if k == 0 {
      PassedNone(c, pins);
      SubsequenceRefl(c);
    } else {
      SurvivorsCons(c, pins, k - 1);
      SurvivorsKeepOrder(c[1..], pins, k - 1);
      var rest := Survivors(c[1..], pins, k - 1);
      if c[0].mediaId in pins {
        assert ([c[0]] + rest)[1..] == rest;
      } else if rest != [] && rest[0] == c[0] {
        SubsequenceSkip(rest, c[1..]);
      }
    }
  }

  lemma SurvivorsMembers(c: seq<Entry>, pins: set<MediaId>, k: nat)
    requires k <= |c|
    ensures forall e :: e in Survivors(c, pins, k) <==> e in c[k..] || (e in c[..k] && e.mediaId in pins)
    ensures forall e | e in c && e.mediaId in pins :: e in Survivors(c, pins, k)
    ensures forall e | e in Survivors(c, pins, k) :: e in c
  {
    SplitPins(c[..k], pins);
    assert c == c[..k] + c[k..];
  }

  lemma {:induction false} PinnedOfDistinct(c: seq<Entry>, pins: set<MediaId>)
    requires Distinct(c)
    ensures Distinct(PinnedOf(c, pins))
  {
    if c != [] {
      var rest := PinnedOf(c[1..], pins);
      PinnedOfDistinct(c[1..], pins);
      SplitPins(c[1..], pins);
      forall e | e in rest ensures e.mediaId != c[0].mediaId {
        assert e in c[1..];
      }
    }
  }

  lemma {:induction false} PinnedOfAtMost(c: seq<Entry>, pins: set<MediaId>)
    ensures |PinnedOf(c, pins)| <= |c|
  {
    if c != [] { PinnedOfAtMost(c[1..], pins); }
  }

  lemma DistinctConcat(a: seq<Entry>, b: seq<Entry>)
    requires Distinct(a) && Distinct(b) && forall x, y | x in a && y in b :: x.mediaId != y.mediaId
    ensures Distinct(a + b)
  {
    forall i, j | 0 <= i < j < |a + b| ensures (a + b)[i].mediaId != (a + b)[j].mediaId {
      if i < |a| <= j {
        assert a[i] in a && b[j - |a|] in b;
      }
    }
  }

  lemma DistinctParts(c: seq<Entry>, k: nat)
    requires Distinct(c) && k <= |c|
    ensures Distinct(c[..k]) && Distinct(c[k..])
    ensures forall x, y | x in c[..k] && y in c[k..] :: x.mediaId != y.mediaId
  {
    forall x, y | x in c[..k] && y in c[k..] ensures x.mediaId != y.mediaId {
      var i :| 0 <= i < k && c[i] == x;
      var j :| 0 <= j < |c| - k && c[k..][j] == y;
      assert c[k + j] == y;
    }
  }

  lemma SurvivorsDistinct(c: seq<Entry>, pins: set<MediaId>, k: nat)
    requires Distinct(c) && k <= |c|
    ensures Distinct(Survivors(c, pins, k)) && |Survivors(c, pins, k)| <= |c|
  {
    DistinctParts(c, k);
    PinnedOfDistinct(c[..k], pins);
    PinnedOfAtMost(c[..k], pins);
    SplitPins(c[..k], pins);
    DistinctConcat(PinnedOf(c[..k], pins), c[k..]);
  }

  /** The drift of the counter: bytes it counts that no tracked entry has. */
  function Drift(s: State): int { s.currentSize - Bytes(s.cache) }

  /** Everything an eviction pass keeps. */
  lemma EvictKeeps(s: State, target: nat)
    requires Valid(s)
    ensures var (t, ok) := EvictUntil(s, target);
            && Valid(t) && Drift(t) == Drift(s) && t.pinned == s.pinned && t.undeletable == s.undeletable
            && (forall e | e in t.cache :: e in s.cache)
            && (forall e | e in s.cache && e.mediaId in s.pinned :: e in t.cache)
            && PinnedBytes(t) == PinnedBytes(s)
            && t.currentSize <= s.currentSize
            && IsSubsequence(t.cache, s.cache)
            && (ok ==> t.currentSize <= target || AllPinned(t.cache, t.pinned))
  {
    var k := EvictsShortestPrefix(s, target);
    var c := s.cache;
    SurvivorsBytes(c, s.pinned, k);
    SurvivorsDistinct(c, s.pinned, k);
    SurvivorsMembers(c, s.pinned, k);
    SurvivorsKeepOrder(c, s.pinned, k);
    PinnedOfSurvivors(c, s.pinned, k);
    CutIsShortest(c, s.pinned, s.currentSize, target);
    if k == |c| { assert c[k..] == []; }
  }

  lemma {:induction false} PinnedOfSurvivors(c: seq<Entry>, pins: set<MediaId>, k: nat)
    requires k <= |c|
    ensures PinnedOf(Survivors(c, pins, k), pins) == PinnedOf(c, pins)
  {
    if k == 0 {
      PassedNone(c, pins);
    } else {
      SurvivorsCons(c, pins, k - 1);
      PinnedOfSurvivors(c[1..], pins, k - 1);
      var rest := Survivors(c[1..], pins, k - 1);
      if c[0].mediaId in pins { assert ([c[0]] + rest)[1..] == rest; }
    }
  }

  lemma {:induction false} AllPinnedBytes(c: seq<Entry>, pins: set<MediaId>)
    requires AllPinned(c, pins)
    ensures PinnedOf(c, pins) == c
  {
    if c != [] {
      AllPinnedBytes(c[1..], pins);
    }
  }

  lemma PinnedBytesAtMost(s: State)
    ensures PinnedBytes(s) <= Bytes(s.cache)
  {
    SplitPins(s.cache, s.pinned);
  }

  // ---------------------------------------------------------------- reserving room

  /** No file of an entry that eviction may pick is undeletable. */
  ghost predicate Deletable(s: State) {
    forall e | e in s.cache && e.mediaId !in s.pinned :: e.path !in s.undeletable
  }

  /** After a successful eviction to `target`, the tracked bytes fit, drift or no drift. */
  lemma EvictedFits(s: State, target: nat)
    requires Valid(s) && EvictUntil(s, target).1
    ensures var t := EvictUntil(s, target).0;
            && (Bytes(t.cache) <= target || Bytes(t.cache) == PinnedBytes(s))
            && (Exact(s) ==> t.currentSize <= target || t.currentSize == PinnedBytes(s))
  {
    EvictKeeps(s, target);
    var t := EvictUntil(s, target).0;
    if t.currentSize > target {
      AllPinnedBytes(t.cache, t.pinned);
    }
  }

  /** What any eviction leaves alone: the pins, pinned entries, the drift, other files. */
  ghost predicate OnlyEvicted(s: State, t: State) {
    && Valid(t) && Drift(t) == Drift(s) && t.currentSize <= s.currentSize
    && t.pinned == s.pinned && t.undeletable == s.undeletable
    && (forall e | e in t.cache :: e in s.cache)
    && (forall e | e in s.cache && e.mediaId in s.pinned :: e in t.cache)
    && LostOnlyEvictable(s, t)
  }

  lemma EvictOnlyEvicts(s: State, target: nat)
    requires Valid(s)
    ensures OnlyEvicted(s, EvictUntil(s, target).0)
  {
    EvictKeeps(s, target);
    EvictFiles(s, target);
  }

  lemma OnlyEvictedTransitive(s: State, t: State, u: State)
    requires OnlyEvicted(s, t) && OnlyEvicted(t, u)
    ensures OnlyEvicted(s, u)
  {
    forall x | x in s.files && x !in u.files ensures Evictable(s, x) {
      if x in t.files { assert Evictable(t, x); }
    }
  }

  lemma HeadroomOnlyEvicts(s: State, incoming: nat, d: DiskReadings)
    requires Valid(s)
    ensures OnlyEvicted(s, EnsureHeadroom(s, incoming, d).0)
  {
    if DiskShort(d, incoming) {
      EvictOnlyEvicts(s, SatSub(s.currentSize, incoming + DISK_HEADROOM_BYTES - d.first.value));
    }
  }

  /** Everything `ensure_room_for` keeps, whatever it returns. */
  lemma EnsureRoomOnlyEvicts(s: State, max: nat, incoming: nat, d: DiskReadings)
    requires Valid(s)
    ensures OnlyEvicted(s, EnsureRoomFor(s, max, incoming, d).0)
  {
    var t := EvictUntil(s, SatSub(max, incoming)).0;
    EvictOnlyEvicts(s, SatSub(max, incoming));
    HeadroomOnlyEvicts(t, incoming, d);
    OnlyEvictedTransitive(s, t, EnsureHeadroom(t, incoming, d).0);
  }

  /**
   * On every success the tracked bytes leave room for the incoming ones, even with a drifted
   * counter; with an exact counter so does the counter. The last disk reading covers them too.
   */
  lemma RoomOnSuccess(s: State, max: nat, incoming: nat, d: DiskReadings)
    requires Valid(s) && EnsureRoomFor(s, max, incoming, d).1
    ensures var t := EnsureRoomFor(s, max, incoming, d).0;
            && Bytes(t.cache) + incoming <= max
            && (Exact(s) ==> t.currentSize + incoming <= max)
            && (DiskShort(d, incoming) ==> incoming <= LastReading(d))
  {
    var target := SatSub(max, incoming);
    var s1 := EvictUntil(s, target).0;
    EvictOnlyEvicts(s, target);
    EvictedFits(s, target);
    HeadroomOnlyEvicts(s1, incoming, d);
  }

  /**
   * With deletable files and no disk shortage, success depends on the pinned bytes alone:
   * `ensure_room_for` succeeds if and only if they and the incoming bytes fit the quota.
   */
  lemma RoomIffPinnedFit(s: State, max: nat, incoming: nat, d: DiskReadings)
    requires Valid(s) && Deletable(s) && !DiskShort(d, incoming)
    ensures EnsureRoomFor(s, max, incoming, d).1 <==> PinnedBytes(s) + incoming <= max
    ensures PinnedBytes(s) + incoming > max ==> EnsureRoomFor(s, max, incoming, d).0 == s
  {
    EvictFiles(s, SatSub(max, incoming));
  }

  /**
   * On every success the counter leaves room for the incoming bytes if and only if the pinned
   * bytes, the drift and the incoming bytes fit the quota together.
   */
  lemma CounterFitsIff(s: State, max: nat, incoming: nat, d: DiskReadings)
    requires Valid(s) && EnsureRoomFor(s, max, incoming, d).1
    ensures EnsureRoomFor(s, max, incoming, d).0.currentSize + incoming <= max
            <==> PinnedBytes(s) + Drift(s) + incoming <= max
  {
    var target := SatSub(max, incoming);
    var s1, t := EvictUntil(s, target).0, EnsureRoomFor(s, max, incoming, d).0;
    EvictKeeps(s, target);
    HeadroomKeepsPinned(s1, incoming, d);
    PinnedBytesAtMost(t);
    if s1.currentSize > target {
      AllPinnedBytes(s1.cache, s1.pinned);
    }
  }

  lemma HeadroomKeepsPinned(s: State, incoming: nat, d: DiskReadings)
    requires Valid(s)
    ensures var t := EnsureHeadroom(s, incoming, d).0;
            PinnedBytes(t) == PinnedBytes(s) && Drift(t) == Drift(s) && t.currentSize <= s.currentSize
  {
    if DiskShort(d, incoming) {
      EvictKeepsTotals(s, SatSub(s.currentSize, incoming + DISK_HEADROOM_BYTES - d.first.value));
    }
  }

  lemma EvictKeepsTotals(s: State, target: nat)
    requires Valid(s)
    ensures PinnedBytes(EvictUntil(s, target).0) == PinnedBytes(s)
    ensures Drift(EvictUntil(s, target).0) == Drift(s) && EvictUntil(s, target).0.currentSize <= s.currentSize
  {
    EvictKeeps(s, target);
  }

  /**
   * With deletable files, and whatever the disk reports: `ensure_room_for` succeeds if and only
   * if pinned and incoming bytes fit the quota and, on a shortage, the last reading covers the
   * incoming bytes. The headroom plays no part in it: a success can leave none.
   */
  lemma RoomIff(s: State, max: nat, incoming: nat, d: DiskReadings)
    requires Valid(s) && Deletable(s)
    ensures EnsureRoomFor(s, max, incoming, d).1 <==>
            PinnedBytes(s) + incoming <= max && (DiskShort(d, incoming) ==> incoming <= LastReading(d))
    ensures PinnedBytes(s) + incoming <= max ==>
            EnsureRoomFor(s, max, incoming, DiskReadings(Some(incoming), Some(incoming))).1
  {
    var target := SatSub(max, incoming);
    var s1 := EvictUntil(s, target).0;
    EvictFiles(s, target);
    EvictKeeps(s, target);
    HeadroomIff(s1, incoming, d);
    HeadroomIff(s1, incoming, DiskReadings(Some(incoming), Some(incoming)));
  }

  lemma HeadroomIff(s: State, incoming: nat, d: DiskReadings)
    requires Valid(s) && Deletable(s)
    ensures EnsureHeadroom(s, incoming, d).1 <==> (DiskShort(d, incoming) ==> incoming <= LastReading(d))
  {
    if DiskShort(d, incoming) {
      DeletableEvicts(s, SatSub(s.currentSize, incoming + DISK_HEADROOM_BYTES - d.first.value));
    }
  }

  lemma DeletableEvicts(s: State, target: nat)
    requires Valid(s) && Deletable(s)
    ensures EvictUntil(s, target).1
  {
    EvictFiles(s, target);
  }

  /** A drifted counter can stay above the quota although room was granted. */
  lemma DriftWitness(e: Entry, max: nat)
    requires e.size == max && max > 0
    ensures var s := State([], e.size, {}, map[], {});
            Valid(s) && !Exact(s)
            && EnsureRoomFor(s, max, max, DiskReadings(None, None)) == (s, true)
            && s.currentSize + max > max
  {
  }

  // ---------------------------------------------------------------- adding

  /** The entry that a `put` of a new id pushes out of a full map without adjusting the counter. */
  function Displaced(c: seq<Entry>, id: MediaId): nat {
    if IndexOf(c, id).None? && |c| >= CAPACITY then c[0].size else 0
  }

  lemma DistinctAppend(c: seq<Entry>, e: Entry)
    requires Distinct(c) && forall x | x in c :: x.mediaId != e.mediaId
    ensures Distinct(c + [e])
  {
    forall i | 0 <= i < |c| ensures c[i].mediaId != e.mediaId { assert c[i] in c; }
  }

  lemma RemoveAtMembers(c: seq<Entry>, i: nat)
    requires Distinct(c) && i < |c|
    ensures Distinct(RemoveAt(c, i))
    ensures forall x | x in RemoveAt(c, i) :: x in c && x.mediaId != c[i].mediaId
  {
    forall x | x in RemoveAt(c, i) ensures x in c && x.mediaId != c[i].mediaId {
      var j :| 0 <= j < |c| && j != i && c[j] == x;
    }
  }

  lemma PutKeeps(c: seq<Entry>, e: Entry)
    requires Distinct(c) && |c| <= CAPACITY
    ensures var c' := Put(c, e);
            && Distinct(c') && |c'| <= CAPACITY && c' != [] && c'[|c'| - 1] == e
            && Bytes(c') + Displaced(c, e.mediaId)
               + (match IndexOf(c, e.mediaId) case None => 0 case Some(i) => c[i].size)
               == Bytes(c) + e.size
            && (forall x | x in c' :: x in c || x == e)
  {
    var kept := match IndexOf(c, e.mediaId)
      case Some(i) => RemoveAt(c, i)
      case None => if |c| >= CAPACITY then c[1..] else c;
    match IndexOf(c, e.mediaId) {
      case Some(i) =>
        BytesRemoveAt(c, i);
        RemoveAtMembers(c, i);
      case None =>
        assert forall x | x in kept :: x in c;
    }
    DistinctAppend(kept, e);
    BytesConcat(kept, [e]);
    LastBytes(e);
  }

  lemma LastBytes(e: Entry)
    ensures Bytes([e]) == e.size
  {
    assert [e][1..] == [];
  }

  /** The counter after `add`'s bookkeeping drifts by exactly the displaced entry's size. */
  lemma TrackKeeps(s: State, e: Entry)
    requires Valid(s)
    ensures var t := Track(s, e);
            && Valid(t) && Drift(t) == Drift(s) + Displaced(s.cache, e.mediaId)
            && t.pinned == s.pinned && t.files == s.files && t.undeletable == s.undeletable
            && t.cache != [] && t.cache[|t.cache| - 1] == e
            && (forall x | x in t.cache :: x in s.cache || x == e)
  {
    match IndexOf(s.cache, e.mediaId)
    case Some(i) =>
      var c := RemoveAt(s.cache, i);
      BytesRemoveAt(s.cache, i);
      RemoveAtMembers(s.cache, i);
      PutKeeps(c, e);
    case None =>
      PutKeeps(s.cache, e);
  }

  /**
   * `add` keeps an exact counter exact if and only if it does not push a non-empty entry out
   * of a full map.
   */
  lemma AddExactIff(s: State, max: nat, low: nat, id: MediaId, path: string, now: nat)
    requires Valid(s) && Exact(s) && path in s.files
    ensures Exact(Add(s, max, low, id, path, now).0) <==> Displaced(s.cache, id) == 0
  {
    var e := Entry(id, path, s.files[path], now);
    TrackKeeps(s, e);
    EvictKeeps(Track(s, e), low);
  }

  lemma AddKeeps(s: State, max: nat, low: nat, id: MediaId, path: string, now: nat)
    requires Valid(s)
    ensures var t := Add(s, max, low, id, path, now).0;
            && Valid(t) && t.pinned == s.pinned && t.undeletable == s.undeletable
            && Drift(t) == Drift(s) + (if path in s.files then Displaced(s.cache, id) else 0)
            && (forall x | x in t.cache :: x in s.cache || (x.mediaId == id && x.path == path))
  {
    if path in s.files {
      var e := Entry(id, path, s.files[path], now);
      TrackKeeps(s, e);
      EvictKeeps(Track(s, e), low);
    }
  }

  /**
   * After a successful `add` the counter is within the quota or every tracked entry is pinned,
   * and the new entry is evicted only when no unpinned entry is left.
   */
  lemma AddWithinQuota(s: State, max: nat, low: nat, id: MediaId, path: string, now: nat)
    requires Valid(s) && low <= max && path in s.files && Add(s, max, low, id, path, now).1
    ensures var t := Add(s, max, low, id, path, now).0;
            && (t.currentSize <= max || AllPinned(t.cache, t.pinned))
            && (Entry(id, path, s.files[path], now) in t.cache || AllPinned(t.cache, t.pinned))
  {
    var e := Entry(id, path, s.files[path], now);
    var s1 := Track(s, e);
    TrackKeeps(s, e);
    if s1.currentSize > max {
      EvictKeeps(s1, low);
      var k := EvictsShortestPrefix(s1, low);
      var c := s1.cache;
      SurvivorsMembers(c, s1.pinned, k);
      if k < |c| {
        assert c[k..][|c| - 1 - k] == e;
      } else {
        assert c[k..] == [];
      }
    }
  }

  // ---------------------------------------------------------------- the startup scan

  /** What putting `e` on top of `c` adds to the counter beyond what it tracks. */
  function PutDrift(c: seq<Entry>, e: Entry): nat {
    Displaced(c, e.mediaId) + (match IndexOf(c, e.mediaId) case None => 0 case Some(i) => c[i].size)
  }

  /** The bytes that loading `es` on top of `s` counts but does not track. */
  function LoadDrift(s: State, es: seq<Entry>): nat {
    if es == [] then 0
    else
      LoadDrift(s, es[..|es| - 1]) + PutDrift(Load(s, es[..|es| - 1]).cache, es[|es| - 1])
  }

  lemma {:induction false} LoadKeeps(s: State, es: seq<Entry>)
    requires Valid(s)
    ensures var t := Load(s, es);
            && Valid(t) && Drift(t) == Drift(s) + LoadDrift(s, es)
            && t.pinned == s.pinned && t.files == s.files && t.undeletable == s.undeletable
            && (forall x | x in t.cache :: x in s.cache || x in es)
  {
    if es != [] {
      LoadKeeps(s, es[..|es| - 1]);
      PutKeeps(Load(s, es[..|es| - 1]).cache, es[|es| - 1]);
    }
  }

  /** One file per id and a directory within the capacity: everything is tracked, nothing drifts. */
  lemma {:induction false} LoadOneFilePerId(s: State, es: seq<Entry>)
    requires Valid(s) && Distinct(s.cache + es) && |s.cache + es| <= CAPACITY
    ensures Load(s, es).cache == s.cache + es && LoadDrift(s, es) == 0
  {
    if es != [] {
      var front, e := es[..|es| - 1], es[|es| - 1];
      assert s.cache + es == (s.cache + front) + [e];
      forall i, j | 0 <= i < j < |s.cache + front|
        ensures (s.cache + front)[i].mediaId != (s.cache + front)[j].mediaId
      {
        assert (s.cache + es)[i] == (s.cache + front)[i] && (s.cache + es)[j] == (s.cache + front)[j];
      }
      LoadOneFilePerId(s, front);
      var c := s.cache + front;
      forall x | x in c ensures x.mediaId != e.mediaId {
        var i :| 0 <= i < |c| && c[i] == x;
        assert (s.cache + es)[i] == x && (s.cache + es)[|c|] == e;
      }
    } else {
      assert s.cache + es == s.cache;
    }
  }

  ghost predicate NonEmptyFiles(es: seq<Entry>) { forall e | e in es :: e.size > 0 }

  lemma LoadLast(s: State, front: seq<Entry>, e: Entry)
    ensures Load(s, front + [e]).cache == Put(Load(s, front).cache, e)
    ensures LoadDrift(s, front + [e]) == LoadDrift(s, front) + PutDrift(Load(s, front).cache, e)
  {
    assert (front + [e])[..|front|] == front;
  }

  lemma {:induction false} ExactLoadIsDistinct(s: State, es: seq<Entry>)
    requires s.cache == [] && Valid(s) && NonEmptyFiles(es) && LoadDrift(s, es) == 0
    ensures Distinct(es) && |es| <= CAPACITY && Load(s, es).cache == es
  {
    if es != [] {
      var front, e := es[..|es| - 1], es[|es| - 1];
      assert es == front + [e];
      LoadLast(s, front, e);
      ExactLoadIsDistinct(s, front);
      LastIsNew(front, e);
    }
  }

  /**
   * Started from nothing over non-empty files, the counter is exact if and only if the directory
   * holds one file per id and no more files than the map.
   */
  lemma LoadIsExactIff(s: State, es: seq<Entry>)
    requires s.cache == [] && Valid(s) && NonEmptyFiles(es)
    ensures LoadDrift(s, es) == 0 <==> Distinct(es) && |es| <= CAPACITY
  {
    assert s.cache + es == es;
    if Distinct(es) && |es| <= CAPACITY {
      LoadOneFilePerId(s, es);
    }
    if LoadDrift(s, es) == 0 {
      ExactLoadIsDistinct(s, es);
    }
  }

  /** An entry whose put drifts by nothing, among non-empty entries, is a new one that fits. */
  lemma LastIsNew(c: seq<Entry>, e: Entry)
    requires Distinct(c) && NonEmptyFiles(c) && PutDrift(c, e) == 0
    ensures Distinct(c + [e]) && |c| < CAPACITY && Put(c, e) == c + [e]
  {
    DistinctAppend(c, e);
  }

  /** Two files of one media id are both counted and only the later one is tracked. */
  lemma DuplicateFilesDrift(a: Entry, b: Entry)
    requires a.mediaId == b.mediaId
    ensures Load(State([], 0, {}, map[], {}), [a, b]) ==
            State([b], a.size + b.size, {}, map[], {})
  {
    var s := State([], 0, {}, map[], {});
    assert [a, b][..1] == [a] && [a][..0] == [];
    assert RemoveAt([a], 0) == [];
    assert Load(s, [a]).cache == [a];
  }
}
