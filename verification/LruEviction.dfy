/** How much an operation may evict, and in which order: the least that is enough, oldest access first. */
module LruEviction {
  import opened Options
  import opened CacheNames
  import opened LruSpec
  import opened LruProperties
  import LruRuns
  import StableSort

  // ---------------------------------------------------------------- the least that is enough

  /** Gone are exactly the unpinned ones of the `k` least recent entries, with their files and bytes. */
  ghost predicate OnlyFirstGone(s: State, t: State, k: nat) {
    && k <= |s.cache|
    && t.cache == Survivors(s.cache, s.pinned, k)
    && t.currentSize + PassedBytes(s.cache, s.pinned, k) == s.currentSize
    && t.pinned == s.pinned && t.undeletable == s.undeletable
    && LostOnlyEvictable(s, t)
    && (forall e | e in s.cache && e !in t.cache :: e.path !in t.files)
  }

  /** `k` is the shortest stretch that brings the counter and `incoming` within `max`, or all there is. */
  ghost predicate FreesRoom(s: State, t: State, k: nat, max: nat, incoming: nat) {
    && OnlyFirstGone(s, t, k)
    && (t.currentSize + incoming <= max || k == |s.cache|)
    && forall j | 0 <= j < k :: s.currentSize - PassedBytes(s.cache, s.pinned, j) + incoming > max
  }

  /** `k` is the shortest stretch that frees `gap` bytes or all that is counted, or all there is. */
  ghost predicate FreesGap(s: State, t: State, k: nat, gap: nat) {
    && OnlyFirstGone(s, t, k)
    && (PassedBytes(s.cache, s.pinned, k) >= gap || t.currentSize == 0 || k == |s.cache|)
    && forall j | 0 <= j < k :: PassedBytes(s.cache, s.pinned, j) < gap && PassedBytes(s.cache, s.pinned, j) < s.currentSize
  }

  lemma EvictsFirst(s: State, target: nat) returns (k: nat)
    requires Valid(s) && EvictUntil(s, target).1
    ensures var t := EvictUntil(s, target).0;
            && OnlyFirstGone(s, t, k)
            && (t.currentSize <= target || k == |s.cache|)
            && forall j | 0 <= j < k :: target < s.currentSize - PassedBytes(s.cache, s.pinned, j)
  {
    k := EvictsShortestPrefix(s, target);
    CutIsShortest(s.cache, s.pinned, s.currentSize, target);
    EvictFiles(s, target);
  }

  lemma EvictsForRoom(s: State, max: nat, incoming: nat)
    requires Valid(s) && incoming <= max && EvictUntil(s, SatSub(max, incoming)).1
    ensures exists k: nat :: FreesRoom(s, EvictUntil(s, SatSub(max, incoming)).0, k, max, incoming)
  {
    var k := EvictsFirst(s, SatSub(max, incoming));
    assert FreesRoom(s, EvictUntil(s, SatSub(max, incoming)).0, k, max, incoming);
  }

  lemma EvictsForGap(s: State, gap: nat)
    requires Valid(s) && EvictUntil(s, SatSub(s.currentSize, gap)).1
    ensures exists k: nat :: FreesGap(s, EvictUntil(s, SatSub(s.currentSize, gap)).0, k, gap)
  {
    var k := EvictsFirst(s, SatSub(s.currentSize, gap));
    assert FreesGap(s, EvictUntil(s, SatSub(s.currentSize, gap)).0, k, gap);
  }

  /**
   * With no shortage on the disk, a granted reservation removes exactly the unpinned entries of
   * the shortest least-recent-first stretch that brings counter and incoming bytes within the
   * quota. When they fit already, nothing changes.
   */
  lemma ReservationEvictsLeast(s: State, max: nat, incoming: nat, d: DiskReadings)
    requires Valid(s) && EnsureRoomFor(s, max, incoming, d).1 && !DiskShort(d, incoming)
    ensures exists k: nat :: FreesRoom(s, EnsureRoomFor(s, max, incoming, d).0, k, max, incoming)
    ensures s.currentSize + incoming <= max ==> EnsureRoomFor(s, max, incoming, d).0 == s
  {
    EvictsForRoom(s, max, incoming);
  }

  /** The bytes missing to the incoming ones and the headroom. */
  function Gap(d: DiskReadings, incoming: nat): nat
    requires DiskShort(d, incoming)
  {
    incoming + DISK_HEADROOM_BYTES - d.first.value
  }

  lemma ShortageTakesTwoPasses(s: State, max: nat, incoming: nat, d: DiskReadings)
    requires Valid(s) && EnsureRoomFor(s, max, incoming, d).1 && DiskShort(d, incoming)
    ensures incoming <= max && EvictUntil(s, SatSub(max, incoming)).1
    ensures var m := EvictUntil(s, SatSub(max, incoming)).0;
            var second := EvictUntil(m, SatSub(m.currentSize, Gap(d, incoming)));
            second.1 && EnsureRoomFor(s, max, incoming, d).0 == second.0
  {
  }

  /** On a shortage it goes on to remove, of what is left, the shortest stretch that frees the gap. */
  lemma ShortageEvictsLeast(s: State, max: nat, incoming: nat, d: DiskReadings) returns (m: State)
    requires Valid(s) && EnsureRoomFor(s, max, incoming, d).1 && DiskShort(d, incoming)
    ensures exists k: nat :: FreesRoom(s, m, k, max, incoming)
    ensures exists k: nat :: FreesGap(m, EnsureRoomFor(s, max, incoming, d).0, k, Gap(d, incoming))
  {
    m := FirstPass(s, max, incoming, d);
    ShortageTakesTwoPasses(s, max, incoming, d);
    EvictsForGap(m, Gap(d, incoming));
  }

  lemma FirstPass(s: State, max: nat, incoming: nat, d: DiskReadings) returns (m: State)
    requires Valid(s) && EnsureRoomFor(s, max, incoming, d).1 && DiskShort(d, incoming)
    ensures m == EvictUntil(s, SatSub(max, incoming)).0 && Valid(m)
    ensures exists k: nat :: FreesRoom(s, m, k, max, incoming)
  {
    m := EvictUntil(s, SatSub(max, incoming)).0;
    ShortageTakesTwoPasses(s, max, incoming, d);
    EvictsForRoom(s, max, incoming);
    EvictKeeps(s, SatSub(max, incoming));
  }

  /** `evict_if_needed`: nothing within the quota, else the least that reaches `low`. */
  lemma QuotaEvictsLeast(s: State, max: nat, low: nat)
    requires Valid(s) && EvictIfNeeded(s, max, low).1
    ensures s.currentSize <= max ==> EvictIfNeeded(s, max, low).0 == s
    ensures s.currentSize > max ==> exists k: nat :: FreesRoom(s, EvictIfNeeded(s, max, low).0, k, low, 0)
  {
    if s.currentSize > max { EvictsForRoom(s, low, 0); }
  }

  /** The disk check: nothing with a gigabyte free or no reading, else the least that reaches `tight`. */
  lemma DiskCheckEvictsLeast(s: State, available: Option<nat>, tight: nat)
    requires Valid(s) && LruRuns.CheckDisk(s, available, tight).1
    ensures available.None? || available.value >= 0x4000_0000 ==> LruRuns.CheckDisk(s, available, tight).0 == s
    ensures available.Some? && available.value < 0x4000_0000 ==>
              exists k: nat :: FreesRoom(s, LruRuns.CheckDisk(s, available, tight).0, k, tight, 0)
  {
    if available.Some? && available.value < 0x4000_0000 { EvictsForRoom(s, tight, 0); }
  }

  // ---------------------------------------------------------------- recency

  /** The list without the entry of `id`. */
  function Without(c: seq<Entry>, id: MediaId): seq<Entry> {
    if c == [] then [] else (if c[0].mediaId == id then [] else [c[0]]) + Without(c[1..], id)
  }

  lemma {:induction false} WithoutAbsent(c: seq<Entry>, id: MediaId)
    requires forall e | e in c :: e.mediaId != id
    ensures Without(c, id) == c
  {
    if c != [] { WithoutAbsent(c[1..], id); }
  }

  lemma {:induction false} WithoutIsRemoveAt(c: seq<Entry>, i: nat)
    requires Distinct(c) && i < |c|
    ensures Without(c, c[i].mediaId) == RemoveAt(c, i)
  {
    if i == 0 {
      WithoutAbsent(c[1..], c[0].mediaId);
      assert [] + c[1..] == c[1..];
    } else {
      WithoutIsRemoveAt(c[1..], i - 1);
      assert RemoveAt(c, i) == [c[0]] + RemoveAt(c[1..], i - 1);
    }
  }

  /** An access moves the entry to the most recent end, stamped, and leaves the others in order. */
  lemma AccessMakesRecent(s: State, e: Entry, now: nat)
    requires Valid(s) && e in s.cache
    ensures Access(s, e.mediaId, now) == s.(cache := Without(s.cache, e.mediaId) + [e.(lastAccess := now)])
  {
    var i :| 0 <= i < |s.cache| && s.cache[i] == e;
    IndexOfDistinct(s.cache, i);
    WithoutIsRemoveAt(s.cache, i);
  }

  lemma AccessOfUntracked(s: State, id: MediaId, now: nat)
    requires forall e | e in s.cache :: e.mediaId != id
    ensures Access(s, id, now) == s
  {
  }

  /** Tracking puts the entry at the most recent end; only a new id on a full map costs the oldest. */
  lemma TrackMakesRecent(s: State, e: Entry)
    requires Valid(s)
    ensures var others := Without(s.cache, e.mediaId);
            Track(s, e).cache == (if |others| == CAPACITY then others[1..] else others) + [e]
  {
    match IndexOf(s.cache, e.mediaId)
    case Some(i) =>
      WithoutIsRemoveAt(s.cache, i);
      RemoveAtMembers(s.cache, i);
    case None => WithoutAbsent(s.cache, e.mediaId);
  }

  /** `remove`: the entry, its bytes and its file go; a file that cannot be deleted stays and fails it. */
  lemma RemoveIsExact(s: State, e: Entry)
    requires Valid(s) && e in s.cache
    ensures var (t, ok) := Remove(s, e.mediaId);
            && t.cache == Without(s.cache, e.mediaId) && t.currentSize + e.size == s.currentSize
            && (ok <==> e.path !in s.files || e.path !in s.undeletable)
            && t.files == (if ok then s.files - {e.path} else s.files)
  {
    var i :| 0 <= i < |s.cache| && s.cache[i] == e;
    IndexOfDistinct(s.cache, i);
    WithoutIsRemoveAt(s.cache, i);
    BytesRemoveAt(s.cache, i);
    if e.path !in s.files { assert s.files - {e.path} == s.files; }
  }

  /** Eviction is in order of recency: of two unpinned entries the more recent one goes only after the other. */
  lemma OlderGoesFirst(s: State, target: nat, i: nat, j: nat)
    requires Valid(s) && i < j < |s.cache|
    requires s.cache[i].mediaId !in s.pinned && s.cache[j].mediaId !in s.pinned
    ensures s.cache[j] !in EvictUntil(s, target).0.cache ==> s.cache[i] !in EvictUntil(s, target).0.cache
  {
    var k := EvictsShortestPrefix(s, target);
    var c := s.cache;
    SurvivorsMembers(c, s.pinned, k);
    DistinctParts(c, k);
    if j >= k {
      assert c[k..][j - k] == c[j];
    } else {
      assert c[..k][i] == c[i];
    }
  }

  /** What was accessed last is evicted last: it stays while any other unpinned entry does. */
  lemma AccessedIsEvictedLast(s: State, e: Entry, now: nat, target: nat, other: Entry)
    requires Valid(s) && e in s.cache && other in s.cache && other.mediaId != e.mediaId
    requires e.mediaId !in s.pinned && other.mediaId !in s.pinned
    ensures var t := EvictUntil(Access(s, e.mediaId, now), target).0;
            other in t.cache ==> e.(lastAccess := now) in t.cache
  {
    var s1 := Access(s, e.mediaId, now);
    AccessMakesRecent(s, e, now);
    LruRuns.AccessKeeps(s, e.mediaId, now);
    WithoutKeeps(s.cache, e.mediaId, other);
    var i :| 0 <= i < |s1.cache| - 1 && s1.cache[i] == other;
    OlderGoesFirst(s1, target, i, |s1.cache| - 1);
  }

  lemma {:induction false} WithoutKeeps(c: seq<Entry>, id: MediaId, other: Entry)
    requires other in c && other.mediaId != id
    ensures other in Without(c, id)
  {
    if c[0] != other { WithoutKeeps(c[1..], id, other); }
  }

  lemma OldestFirstAscends(es: seq<Entry>)
    ensures var found := OldestFirst(es);
            forall i, j | 0 <= i < j < |found| :: found[i].lastAccess <= found[j].lastAccess
  {
    var found := OldestFirst(es);
    var any := (a: Entry, b: Entry) => true;
    StableSort.SortIsStable(es, LastAccessOf, any);
    forall i, j | 0 <= i < j < |found| ensures found[i].lastAccess <= found[j].lastAccess {
      assert StableSort.Precedes(found[i], found[j], LastAccessOf, any);
    }
  }

  /** Start-up takes the scanned files least recently accessed first ... */
  lemma StartupIsOldestFirst(dir: seq<DirFile>)
    ensures var found := OldestFirst(Scan(dir));
            && (forall e :: e in found <==> e in Scan(dir))
            && (forall i, j | 0 <= i < j < |found| :: found[i].lastAccess <= found[j].lastAccess)
  {
    OldestFirstMembers(Scan(dir));
    OldestFirstAscends(Scan(dir));
  }

  /** ... and tracks them in that order, when they are of distinct ids and fit the map. */
  lemma LoadsInOrder(s: State, es: seq<Entry>)
    requires s.cache == [] && Valid(s) && Distinct(es) && |es| <= CAPACITY
    ensures Load(s, es).cache == es
  {
    assert s.cache + es == es;
    LoadOneFilePerId(s, es);
  }

  /** The scan finds exactly the files whose name starts with an id, each with its size and access time. */
  lemma {:induction false} ScanMeaning(dir: seq<DirFile>, e: Entry)
    ensures e in Scan(dir) <==>
            exists f | f in dir :: ReadId(f.name) == Some(e.mediaId) && e == Entry(e.mediaId, f.name, f.size, f.lastAccess)
  {
    if dir != [] {
      var front, last := dir[..|dir| - 1], dir[|dir| - 1];
      ScanMeaning(front, e);
      assert dir == front + [last];
      assert forall f :: f in dir <==> f in front || f == last;
    }
  }

  /**
   * `add`: without the file nothing changes and it fails; else the entry, of the file's size, is
   * tracked as the most recent, and the least that reaches `low` is evicted if that is too much.
   */
  lemma AddTracksAndEvictsLeast(s: State, max: nat, low: nat, id: MediaId, path: string, now: nat)
    requires Valid(s)
    ensures path !in s.files ==> Add(s, max, low, id, path, now) == (s, false)
    ensures path in s.files && Add(s, max, low, id, path, now).1 ==>
              var s1, t := Track(s, Entry(id, path, s.files[path], now)), Add(s, max, low, id, path, now).0;
              if s1.currentSize <= max then t == s1 else exists k: nat :: FreesRoom(s1, t, k, low, 0)
  {
    if path in s.files {
      var e := Entry(id, path, s.files[path], now);
      TrackKeeps(s, e);
      if Add(s, max, low, id, path, now).1 { QuotaEvictsLeast(Track(s, e), max, low); }
    }
  }
}
