/**
 * The cache's state as a value, and what each operation of client/src/cache/lru.rs does to it.
 * `cache` lists the tracked entries least recently used first. `undeletable` holds the paths
 * whose deletion the operating system refuses; no operation changes it.
 */
module LruSpec {
  import opened Options
  import opened CacheNames
  import StableSort

  const CAPACITY: nat := 10000
  const DISK_HEADROOM_BYTES: nat := 256 * 1024 * 1024

  datatype Entry = Entry(mediaId: MediaId, path: string, size: nat, lastAccess: nat)

  datatype State = State(
    cache: seq<Entry>,
    currentSize: nat,
    pinned: set<MediaId>,
    files: map<string, nat>,
    undeletable: set<string>)

  /** One directory entry as the scan sees it. */
  datatype DirFile = DirFile(name: string, size: nat, lastAccess: nat)

  function SatSub(a: nat, b: nat): nat { if a < b then 0 else a - b }

  // ---------------------------------------------------------------- the recency list

  function Bytes(c: seq<Entry>): nat { if c == [] then 0 else c[0].size + Bytes(c[1..]) }

  ghost predicate Distinct(c: seq<Entry>) {
    forall i, j | 0 <= i < j < |c| :: c[i].mediaId != c[j].mediaId
  }

  ghost predicate Tracked(c: seq<Entry>, id: MediaId) { exists e | e in c :: e.mediaId == id }

  function IndexOf(c: seq<Entry>, id: MediaId): (r: Option<nat>)
    ensures r.Some? ==> r.value < |c| && c[r.value].mediaId == id
    ensures r.None? <==> forall e | e in c :: e.mediaId != id
  {
    if c == [] then None
    else if c[0].mediaId == id then Some(0)
    else match IndexOf(c[1..], id)
      case None => None
      case Some(i) => Some(i + 1)
  }

  function RemoveAt(c: seq<Entry>, i: nat): seq<Entry>
    requires i < |c|
  {
    c[..i] + c[i + 1..]
  }

  /** `LruCache::put`: most recent end; on a full map the least recent entry falls out. */
  function Put(c: seq<Entry>, e: Entry): seq<Entry> {
    match IndexOf(c, e.mediaId)
    case Some(i) => RemoveAt(c, i) + [e]
    case None => (if |c| >= CAPACITY then c[1..] else c) + [e]
  }

  /** The entries of `c` whose ids are pinned, in order. */
  function PinnedOf(c: seq<Entry>, pins: set<MediaId>): seq<Entry> {
    if c == [] then []
    else (if c[0].mediaId in pins then [c[0]] else []) + PinnedOf(c[1..], pins)
  }

  function UnpinnedOf(c: seq<Entry>, pins: set<MediaId>): seq<Entry> {
    if c == [] then []
    else (if c[0].mediaId in pins then [] else [c[0]]) + UnpinnedOf(c[1..], pins)
  }

  ghost predicate AllPinned(c: seq<Entry>, pins: set<MediaId>) {
    forall e | e in c :: e.mediaId in pins
  }

  /** The distinct ids, the map capacity, and a counter that never under-reports. */
  ghost predicate Valid(s: State) {
    Distinct(s.cache) && |s.cache| <= CAPACITY && Bytes(s.cache) <= s.currentSize
  }

  ghost predicate Exact(s: State) { s.currentSize == Bytes(s.cache) }

  lemma {:induction false} BytesConcat(a: seq<Entry>, b: seq<Entry>)
    ensures Bytes(a + b) == Bytes(a) + Bytes(b)
  {
    if a == [] {
      assert a + b == b;
    } else {
      BytesConcat(a[1..], b);
      assert (a + b)[1..] == a[1..] + b;
    }
  }

  lemma BytesCons(e: Entry, c: seq<Entry>)
    ensures Bytes([e] + c) == e.size + Bytes(c)
  {
    assert ([e] + c)[1..] == c;
  }

  lemma BytesAround(front: seq<Entry>, e: Entry, back: seq<Entry>)
    ensures Bytes(front + ([e] + back)) == Bytes(front + back) + e.size
  {
    BytesConcat(front, back);
    BytesCons(e, back);
    BytesConcat(front, [e] + back);
  }

  lemma BytesRemoveAt(c: seq<Entry>, i: nat)
    requires i < |c|
    ensures Bytes(c) == Bytes(RemoveAt(c, i)) + c[i].size
  {
    SplitAround(c, i);
    BytesAround(c[..i], c[i], c[i + 1..]);
  }

  lemma SplitAround(c: seq<Entry>, i: nat)
    requires i < |c|
    ensures c == c[..i] + ([c[i]] + c[i + 1..])
  {
  }

  /** The pinned and the unpinned part of a list that starts with `c[0]`. */
  lemma HeadOfParts(c: seq<Entry>, pins: set<MediaId>)
    requires c != []
    ensures Bytes(UnpinnedOf(c, pins)) ==
            (if c[0].mediaId in pins then 0 else c[0].size) + Bytes(UnpinnedOf(c[1..], pins))
    ensures Bytes(PinnedOf(c, pins)) ==
            (if c[0].mediaId in pins then c[0].size else 0) + Bytes(PinnedOf(c[1..], pins))
  {
    var u, p := UnpinnedOf(c[1..], pins), PinnedOf(c[1..], pins);
    BytesCons(c[0], u);
    BytesCons(c[0], p);
    assert [] + u == u && [] + p == p;
  }

  lemma {:induction false} SplitPins(c: seq<Entry>, pins: set<MediaId>)
    ensures Bytes(c) == Bytes(PinnedOf(c, pins)) + Bytes(UnpinnedOf(c, pins))
    ensures forall e :: e in PinnedOf(c, pins) <==> e in c && e.mediaId in pins
    ensures forall e :: e in UnpinnedOf(c, pins) <==> e in c && e.mediaId !in pins
  {
    if c != [] {
      SplitPins(c[1..], pins);
      HeadOfParts(c, pins);
    }
  }

  // ---------------------------------------------------------------- operations

  function Access(s: State, id: MediaId, now: nat): State {
    match IndexOf(s.cache, id)
    case None => s
    case Some(i) => s.(cache := RemoveAt(s.cache, i) + [s.cache[i].(lastAccess := now)])
  }

  /** Untracks an entry and deletes its file; `false` when the deletion is refused. */
  function Remove(s: State, id: MediaId): (State, bool) {
    match IndexOf(s.cache, id)
    case None => (s, true)
    case Some(i) =>
      var e := s.cache[i];
      var s1 := s.(cache := RemoveAt(s.cache, i), currentSize := SatSub(s.currentSize, e.size));
      if e.path !in s.files then (s1, true)
      else if e.path in s.undeletable then (s1, false)
      else (s1.(files := s.files - {e.path}), true)
  }

  /** The least recently used entry that is not pinned. */
  function FirstEvictable(c: seq<Entry>, pins: set<MediaId>): (r: Option<nat>)
    ensures r.Some? ==> r.value < |c| && c[r.value].mediaId !in pins
    ensures r.Some? ==> forall j | 0 <= j < r.value :: c[j].mediaId in pins
  {
    if c == [] then None
    else if c[0].mediaId !in pins then Some(0)
    else match FirstEvictable(c[1..], pins)
      case None => None
      case Some(i) => Some(i + 1)
  }

  lemma RemoveShrinks(s: State, id: MediaId)
    ensures |Remove(s, id).0.cache| <= |s.cache|
    ensures Tracked(s.cache, id) ==> |Remove(s, id).0.cache| == |s.cache| - 1
  {
  }

  function EvictUntil(s: State, target: nat): (State, bool)
    decreases |s.cache|
  {
    if s.currentSize <= target then (s, true)
    else match FirstEvictable(s.cache, s.pinned)
      case None => (s, true)
      case Some(i) =>
        RemoveShrinks(s, s.cache[i].mediaId);
        var (s1, ok) := Remove(s, s.cache[i].mediaId);
        if ok then EvictUntil(s1, target) else (s1, false)
  }

  /** `low` stands for four fifths of the quota in floating point. */
  function EvictIfNeeded(s: State, max: nat, low: nat): (State, bool) {
    if s.currentSize <= max then (s, true) else EvictUntil(s, low)
  }

  function Track(s: State, e: Entry): State {
    match IndexOf(s.cache, e.mediaId)
    case None => s.(cache := Put(s.cache, e), currentSize := s.currentSize + e.size)
    case Some(i) =>
      s.(cache := Put(RemoveAt(s.cache, i), e),
         currentSize := SatSub(s.currentSize, s.cache[i].size) + e.size)
  }

  /** `add`: fails when the file is not there, else tracks it and evicts if over the quota. */
  function Add(s: State, max: nat, low: nat, id: MediaId, path: string, now: nat): (State, bool) {
    if path !in s.files then (s, false)
    else EvictIfNeeded(Track(s, Entry(id, path, s.files[path], now)), max, low)
  }

  /** `init` counts every scanned file and then puts it, whether or not it displaces another. */
  function Load(s: State, es: seq<Entry>): State {
    if es == [] then s
    else
      var s1 := Load(s, es[..|es| - 1]);
      var e := es[|es| - 1];
      s1.(currentSize := s1.currentSize + e.size, cache := Put(s1.cache, e))
  }

  /** The files of the directory whose name starts with a media id. */
  function Scan(dir: seq<DirFile>): seq<Entry> {
    if dir == [] then []
    else
      var f := dir[|dir| - 1];
      Scan(dir[..|dir| - 1]) +
      (if ReadId(f.name).Some? then [Entry(ReadId(f.name).value, f.name, f.size, f.lastAccess)] else [])
  }

  function OldestFirst(es: seq<Entry>): seq<Entry> {
    StableSort.Sort(es, LastAccessOf)
  }

  function LastAccessOf(e: Entry): int { e.lastAccess }

  lemma OldestFirstMembers(es: seq<Entry>)
    ensures forall e :: e in OldestFirst(es) <==> e in es
  {
    StableSort.SortIsPermutation(es, LastAccessOf);
    assert forall e :: e in es <==> e in multiset(es);
    assert forall e :: e in OldestFirst(es) <==> e in multiset(OldestFirst(es));
  }

  function PinnedBytes(s: State): nat { Bytes(PinnedOf(s.cache, s.pinned)) }

  /** Free space on the cache partition: the first reading and the one after the eviction. */
  datatype DiskReadings = DiskReadings(first: Option<nat>, second: Option<nat>)

  predicate DiskShort(d: DiskReadings, incoming: nat) {
    d.first.Some? && d.first.value < incoming + DISK_HEADROOM_BYTES
  }

  function LastReading(d: DiskReadings): nat
    requires d.first.Some?
  {
    if d.second.Some? then d.second.value else d.first.value
  }

  /** The second constraint: evict the gap to the headroom, then read the disk again. */
  function EnsureHeadroom(s: State, incoming: nat, d: DiskReadings): (State, bool) {
    if !DiskShort(d, incoming) then (s, true)
    else
      var gap := incoming + DISK_HEADROOM_BYTES - d.first.value;
      var (s1, ok) := EvictUntil(s, SatSub(s.currentSize, gap));
      (s1, ok && LastReading(d) + DISK_HEADROOM_BYTES >= incoming + DISK_HEADROOM_BYTES)
  }

  function EnsureRoomFor(s: State, max: nat, incoming: nat, d: DiskReadings): (State, bool) {
    if incoming > max || PinnedBytes(s) + incoming > max then (s, false)
    else
      var (s1, ok) := EvictUntil(s, SatSub(max, incoming));
      if ok then EnsureHeadroom(s1, incoming, d) else (s1, false)
  }

  // ---------------------------------------------------------------- eviction

  /** How many entries from the least recent end eviction passes over. */
  function Cut(c: seq<Entry>, pins: set<MediaId>, size: int, target: int): (k: nat)
    ensures k <= |c|
  {
    if c == [] || size <= target then 0
    else 1 + Cut(c[1..], pins, if c[0].mediaId in pins then size else size - c[0].size, target)
  }

  /** What is left when the unpinned entries of the first `k` are gone. */
  function Survivors(c: seq<Entry>, pins: set<MediaId>, k: nat): seq<Entry>
    requires k <= |c|
  {
    PinnedOf(c[..k], pins) + c[k..]
  }

  /** The unpinned bytes among the first `k` entries. */
  function PassedBytes(c: seq<Entry>, pins: set<MediaId>, k: nat): nat
    requires k <= |c|
  {
    Bytes(UnpinnedOf(c[..k], pins))
  }

  /**
   * `Cut` is the shortest least-recent-first stretch whose unpinned bytes bring the size down
   * to the target; all of the list when none does.
   */
  lemma {:induction false} CutIsShortest(c: seq<Entry>, pins: set<MediaId>, size: int, target: int)
    ensures var k := Cut(c, pins, size, target);
            && (k == |c| || size - PassedBytes(c, pins, k) <= target)
            && forall j | 0 <= j < k :: target < size - PassedBytes(c, pins, j)
  {
    if c == [] || size <= target {
      assert c[..0] == [];
    } else {
      var size1 := if c[0].mediaId in pins then size else size - c[0].size;
      var k := Cut(c[1..], pins, size1, target);
      CutIsShortest(c[1..], pins, size1, target);
      forall j | 0 < j <= k + 1
        ensures size - PassedBytes(c, pins, j) == size1 - PassedBytes(c[1..], pins, j - 1)
      {
        PassedBytesCons(c, pins, j - 1);
      }
      assert c[..0] == [];
    }
  }

  lemma {:induction false} FirstEvictableAfter(p: seq<Entry>, pins: set<MediaId>, q: seq<Entry>)
    requires AllPinned(p, pins) && q != [] && q[0].mediaId !in pins
    ensures FirstEvictable(p + q, pins) == Some(|p|)
  {
    if p == [] {
      assert p + q == q;
    } else {
      FirstEvictableAfter(p[1..], pins, q);
      assert (p + q)[1..] == p[1..] + q;
    }
  }

  lemma {:induction false} NoneEvictable(c: seq<Entry>, pins: set<MediaId>)
    ensures FirstEvictable(c, pins).None? <==> AllPinned(c, pins)
  {
    if c != [] { NoneEvictable(c[1..], pins); }
  }

  lemma IndexOfDistinct(c: seq<Entry>, i: nat)
    requires Distinct(c) && i < |c|
    ensures IndexOf(c, c[i].mediaId) == Some(i)
  {
    assert c[i] in c;
  }

  /** `t` is `s` after evicting the unpinned among the first `k` entries of `q`, behind `p`. */
  ghost predicate EvictedBehind(s: State, p: seq<Entry>, q: seq<Entry>, k: nat, t: State)
    requires k <= |q|
  {
    && t.cache == p + Survivors(q, s.pinned, k)
    && t.currentSize + PassedBytes(q, s.pinned, k) == s.currentSize
    && t.pinned == s.pinned
    && t.undeletable == s.undeletable
  }

  lemma PassedNone(q: seq<Entry>, pins: set<MediaId>)
    ensures Survivors(q, pins, 0) == q && PassedBytes(q, pins, 0) == 0
  {
    assert q[..0] == [] && [] + q[0..] == q;
  }

  lemma SurvivorsCons(q: seq<Entry>, pins: set<MediaId>, k1: nat)
    requires k1 < |q|
    ensures q[0].mediaId in pins ==>
              Survivors(q, pins, k1 + 1) == [q[0]] + Survivors(q[1..], pins, k1)
    ensures q[0].mediaId !in pins ==> Survivors(q, pins, k1 + 1) == Survivors(q[1..], pins, k1)
  {
    var front := q[..k1 + 1];
    assert front[0] == q[0] && front[1..] == q[1..][..k1];
    assert q[k1 + 1..] == q[1..][k1..];
    assert PinnedOf(front, pins) ==
      (if q[0].mediaId in pins then [q[0]] else []) + PinnedOf(q[1..][..k1], pins);
  }

  lemma PassedBytesCons(q: seq<Entry>, pins: set<MediaId>, k1: nat)
    requires k1 < |q|
    ensures PassedBytes(q, pins, k1 + 1) ==
            (if q[0].mediaId in pins then 0 else q[0].size) + PassedBytes(q[1..], pins, k1)
  {
    var front := q[..k1 + 1];
    assert front[0] == q[0] && front[1..] == q[1..][..k1];
    HeadOfParts(front, pins);
  }

  /** The run of the loop from `s` passes over `k` entries of `q`, all of the cut if it succeeds. */
  ghost predicate PassedOver(s: State, p: seq<Entry>, q: seq<Entry>, k: nat, target: nat) {
    && k <= |q|
    && (EvictUntil(s, target).1 ==> k == Cut(q, s.pinned, s.currentSize, target))
    && EvictedBehind(s, p, q, k, EvictUntil(s, target).0)
  }

  lemma BehindPinned(s: State, p: seq<Entry>, q: seq<Entry>, k1: nat, target: nat)
    requires q != [] && q[0].mediaId in s.pinned && target < s.currentSize
    requires PassedOver(s, p + [q[0]], q[1..], k1, target)
    ensures PassedOver(s, p, q, k1 + 1, target)
  {
    SurvivorsCons(q, s.pinned, k1);
    PassedBytesCons(q, s.pinned, k1);
    var rest := Survivors(q[1..], s.pinned, k1);
    assert (p + [q[0]]) + rest == p + ([q[0]] + rest);
  }

  lemma BehindEvicted(s: State, s1: State, ok: bool, p: seq<Entry>, q: seq<Entry>, k1: nat, target: nat)
    requires q != [] && q[0].mediaId !in s.pinned && target < s.currentSize
    requires s1.pinned == s.pinned && s1.undeletable == s.undeletable
    requires s1.currentSize + q[0].size == s.currentSize
    requires EvictUntil(s, target) == if ok then EvictUntil(s1, target) else (s1, false)
    requires if ok then PassedOver(s1, p, q[1..], k1, target) else s1.cache == p + q[1..] && k1 == 0
    ensures PassedOver(s, p, q, k1 + 1, target)
  {
    SurvivorsCons(q, s.pinned, k1);
    PassedBytesCons(q, s.pinned, k1);
    PassedNone(q[1..], s.pinned);
  }

  lemma RemoveBehind(c: seq<Entry>, p: seq<Entry>, q: seq<Entry>)
    requires Distinct(c) && c == p + q && q != []
    ensures IndexOf(c, q[0].mediaId) == Some(|p|) && c[|p|] == q[0]
    ensures RemoveAt(c, |p|) == p + q[1..]
  {
    assert c[|p|] == q[0];
    IndexOfDistinct(c, |p|);
  }

  /** One round of the loop when everything before `q[0]` is pinned and `q[0]` is not. */
  lemma EvictRound(s: State, p: seq<Entry>, q: seq<Entry>, target: nat) returns (s1: State, ok: bool)
    requires Valid(s) && s.cache == p + q && q != []
    requires AllPinned(p, s.pinned)
    requires target < s.currentSize && q[0].mediaId !in s.pinned
    ensures EvictUntil(s, target) == if ok then EvictUntil(s1, target) else (s1, false)
    ensures Valid(s1) && s1.cache == p + q[1..] && s1.currentSize + q[0].size == s.currentSize
    ensures s1.pinned == s.pinned && s1.undeletable == s.undeletable
  {
    FirstEvictableAfter(p, s.pinned, q);
    RemoveBehind(s.cache, p, q);
    BytesRemoveAt(s.cache, |p|);
    RemoveKeepsValid(s, q[0].mediaId);
    s1, ok := Remove(s, q[0].mediaId).0, Remove(s, q[0].mediaId).1;
  }

  /** The loop stops at once when the target is met or nothing behind `p` can go. */
  lemma EvictNothing(s: State, target: nat)
    requires s.currentSize <= target || AllPinned(s.cache, s.pinned)
    ensures EvictUntil(s, target) == (s, true)
  {
    NoneEvictable(s.cache, s.pinned);
  }

  /** The restarting eviction loop seen as one pass: `p` is the stretch already found pinned. */
  lemma {:induction false} EvictFrom(s: State, p: seq<Entry>, q: seq<Entry>, target: nat)
    requires Valid(s) && s.cache == p + q && AllPinned(p, s.pinned)
    ensures exists k: nat :: PassedOver(s, p, q, k, target)
    decreases |q|
  {
    if s.currentSize <= target || q == [] {
      PassedNone(q, s.pinned);
      EvictNothing(s, target);
      assert PassedOver(s, p, q, 0, target);
    } else if q[0].mediaId in s.pinned {
      var p1 := p + [q[0]];
      assert s.cache == p1 + q[1..] && AllPinned(p1, s.pinned);
      EvictFrom(s, p1, q[1..], target);
      var k1: nat :| PassedOver(s, p1, q[1..], k1, target);
      BehindPinned(s, p, q, k1, target);
    } else {
      var s1, ok1 := EvictRound(s, p, q, target);
      var k1: nat := 0;
      if ok1 {
        EvictFrom(s1, p, q[1..], target);
        k1 :| PassedOver(s1, p, q[1..], k1, target);
      }
      BehindEvicted(s, s1, ok1, p, q, k1, target);
    }
  }

  /**
   * `evict_until` removes exactly the unpinned entries of the shortest least-recent-first
   * stretch that reaches the target (the first `k`); pinned entries and the order of the rest stay.
   */
  lemma EvictsShortestPrefix(s: State, target: nat) returns (k: nat)
    requires Valid(s)
    ensures k <= |s.cache|
    ensures EvictUntil(s, target).1 ==> k == Cut(s.cache, s.pinned, s.currentSize, target)
    ensures var t := EvictUntil(s, target).0;
            && t.cache == Survivors(s.cache, s.pinned, k)
            && t.currentSize + PassedBytes(s.cache, s.pinned, k) == s.currentSize
            && t.pinned == s.pinned && t.undeletable == s.undeletable
  {
    assert [] + s.cache == s.cache;
    EvictFrom(s, [], s.cache, target);
    k :| PassedOver(s, [], s.cache, k, target);
    assert [] + Survivors(s.cache, s.pinned, k) == Survivors(s.cache, s.pinned, k);
  }

  /** A path that eviction may delete: the file of a tracked entry that is not pinned. */
  ghost predicate Evictable(s: State, path: string) {
    exists e | e in s.cache :: e.path == path && e.mediaId !in s.pinned
  }

  /** `t` is a later state of `s` that lost only evictable files. */
  ghost predicate LostOnlyEvictable(s: State, t: State) {
    && (forall x | x in t.files :: x in s.files && t.files[x] == s.files[x])
    && (forall x | x in s.files && x !in t.files :: Evictable(s, x))
  }

  lemma RemoveFiles(s: State, i: nat)
    requires Distinct(s.cache) && i < |s.cache|
    ensures var e := s.cache[i];
            var (t, ok) := Remove(s, e.mediaId);
            && (forall x | x in t.files :: x in s.files && t.files[x] == s.files[x])
            && (forall x | x in s.files && x !in t.files :: x == e.path)
            && (if ok then e.path !in t.files else e.path in s.undeletable)
            && (forall x | x in t.cache :: x in s.cache && x != e)
            && (forall x | x in s.cache :: x in t.cache || x == e)
            && t.pinned == s.pinned && t.undeletable == s.undeletable
  {
    IndexOfDistinct(s.cache, i);
    var c := RemoveAt(s.cache, i);
    assert forall x | x in s.cache :: x in c || x == s.cache[i];
  }

  /**
   * Only files of unpinned tracked entries disappear, an evicted entry's file does, and the
   * loop fails only on a file that cannot be deleted.
   */
  lemma {:induction false} EvictFiles(s: State, target: nat)
    requires Valid(s)
    ensures var (t, ok) := EvictUntil(s, target);
            && LostOnlyEvictable(s, t)
            && (ok ==> forall e | e in s.cache && e !in t.cache :: e.path !in t.files)
            && (!ok ==> exists e | e in s.cache :: e.mediaId !in s.pinned && e.path in s.undeletable)
    decreases |s.cache|
  {
    var v := FirstEvictable(s.cache, s.pinned);
    if s.currentSize > target && v.Some? {
      var e := s.cache[v.value];
      RemoveKeepsValid(s, e.mediaId);
      RemoveShrinks(s, e.mediaId);
      RemoveFiles(s, v.value);
      var (s1, ok1) := Remove(s, e.mediaId);
      if ok1 {
        EvictFiles(s1, target);
        EvictFilesStep(s, s1, e, EvictUntil(s1, target).0);
      }
    }
  }

  lemma EvictFilesStep(s: State, s1: State, e: Entry, t: State)
    requires e in s.cache && e.mediaId !in s.pinned && s1.pinned == s.pinned
    requires forall x | x in s1.cache :: x in s.cache
    requires forall x | x in s1.files :: x in s.files && s1.files[x] == s.files[x]
    requires forall x | x in s.files && x !in s1.files :: x == e.path
    requires LostOnlyEvictable(s1, t)
    ensures LostOnlyEvictable(s, t)
  {
    forall x | x in s.files && x !in t.files ensures Evictable(s, x) {
      if x in s1.files { assert Evictable(s1, x); }
    }
  }

  lemma RemoveKeepsValid(s: State, id: MediaId)
    requires Valid(s)
    ensures Valid(Remove(s, id).0)
    ensures Exact(s) ==> Exact(Remove(s, id).0)
    ensures s.currentSize - Bytes(s.cache) == Remove(s, id).0.currentSize - Bytes(Remove(s, id).0.cache)
  {
    match IndexOf(s.cache, id)
    case None =>
    case Some(i) => BytesRemoveAt(s.cache, i);
  }
}
