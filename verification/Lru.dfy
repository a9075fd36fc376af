/** The cache manager of client/src/cache/lru.rs, updated in place. */
module Lru {
  import opened Options
  import opened CacheNames
  import opened LruSpec
  import opened LruProperties
  import LruRuns
  import StableSort

  class LruCacheManager {
    var cache: seq<Entry>        // least recently used first
    var currentSize: nat
    var pinned: set<MediaId>
    var files: map<string, nat>  // the cache directory: file sizes by path
    const undeletable: set<string>
    const cfg: LruRuns.Config

    ghost function S(): State
      reads this
    {
      State(cache, currentSize, pinned, files, undeletable)
    }

    constructor (cfg: LruRuns.Config, files: map<string, nat>, undeletable: set<string>)
      ensures S() == State([], 0, {}, files, undeletable) && this.cfg == cfg
      ensures Valid(S()) && Exact(S()) && LruRuns.WellNamed(S())
    {
      this.cfg, this.files, this.undeletable := cfg, files, undeletable;
      cache, currentSize, pinned := [], 0, {};
    }

    /** Tracks what the directory scan found, oldest access first, then evicts if over the quota. */
    method Init(dir: seq<DirFile>) returns (ok: bool)
      requires Valid(S())
      modifies this
      ensures (S(), ok) == EvictIfNeeded(Load(old(S()), OldestFirst(Scan(dir))), cfg.max, cfg.low)
      ensures Valid(S()) && Drift(S()) == old(Drift(S())) + old(LoadDrift(S(), OldestFirst(Scan(dir))))
      ensures old(LruRuns.WellNamed(S())) ==> LruRuns.WellNamed(S())
    {
      if LruRuns.WellNamed(S()) {
        LruRuns.InitKeeps(S(), dir, cfg);
      }
      var found := ScanDirectory(dir);
      found := OldestFirst(found);
      ghost var s0 := S();
      TrackAll(found);
      LoadKeeps(s0, found);
      EvictKeeps(S(), cfg.low);
      ok := EvictIfOver();
    }

    /** The files of the directory that carry a media id. */
    method ScanDirectory(dir: seq<DirFile>) returns (found: seq<Entry>)
      ensures found == Scan(dir)
    {
      found := [];
      for i := 0 to |dir|
        invariant found == Scan(dir[..i])
      {
        assert dir[..i + 1][..i] == dir[..i];
        var id := ReadId(dir[i].name);
        if id.Some? {
          found := found + [Entry(id.value, dir[i].name, dir[i].size, dir[i].lastAccess)];
        }
      }
      assert dir[..|dir|] == dir;
    }

    /** Counts and tracks each entry, without looking whether its id is tracked already. */
    method TrackAll(found: seq<Entry>)
      modifies this`cache, this`currentSize
      ensures S() == Load(old(S()), found)
    {
      assert found[..0] == [];
      for i := 0 to |found|
        invariant S() == Load(old(S()), found[..i])
      {
        assert found[..i + 1][..i] == found[..i];
        currentSize := currentSize + found[i].size;
        cache := Put(cache, found[i]);
      }
      assert found[..|found|] == found;
    }

    method Access(id: MediaId, now: nat)
      modifies this`cache
      ensures S() == LruSpec.Access(old(S()), id, now)
    {
      var at := IndexOf(cache, id);
      if at.Some? {
        cache := RemoveAt(cache, at.value) + [cache[at.value].(lastAccess := now)];
      }
    }

    method Add(id: MediaId, path: string, now: nat) returns (ok: bool)
      requires Valid(S())
      modifies this
      ensures (S(), ok) == LruSpec.Add(old(S()), cfg.max, cfg.low, id, path, now)
      ensures Valid(S())
    {
      if path !in files {
        return false;
      }
      var entry := Entry(id, path, files[path], now);
      TrackKeeps(S(), entry);
      TrackEntry(entry);
      ok := EvictIfOver();
    }

    /** The bookkeeping of `add` under its locks: the old entry out, the new one in. */
    method TrackEntry(entry: Entry)
      modifies this`cache, this`currentSize
      ensures S() == Track(old(S()), entry)
    {
      var at := IndexOf(cache, entry.mediaId);
      if at.Some? {
        currentSize := SatSub(currentSize, cache[at.value].size);
        cache := RemoveAt(cache, at.value);
      }
      cache := Put(cache, entry);
      currentSize := currentSize + entry.size;
    }

    method Remove(id: MediaId) returns (ok: bool)
      modifies this`cache, this`currentSize, this`files
      ensures (S(), ok) == LruSpec.Remove(old(S()), id)
    {
      ok := true;
      var at := IndexOf(cache, id);
      if at.Some? {
        var entry := cache[at.value];
        cache := RemoveAt(cache, at.value);
        currentSize := SatSub(currentSize, entry.size);
        if entry.path in files {
          if entry.path in undeletable {
            return false;
          }
          files := files - {entry.path};
        }
      }
    }

    method EvictIfOver() returns (ok: bool)
      requires Valid(S())
      modifies this`cache, this`currentSize, this`files
      ensures (S(), ok) == EvictIfNeeded(old(S()), cfg.max, cfg.low)
      ensures Valid(S())
    {
      EvictKeeps(S(), cfg.low);
      if currentSize <= cfg.max {
        return true;
      }
      ok := EvictUntil(cfg.low);
    }

    /**
     * The eviction loop. The map never holds more than 10000 entries, so the safety limit on
     * the number of evictions is never exceeded.
     */
    method EvictUntil(target: nat) returns (ok: bool)
      requires Valid(S())
      modifies this`cache, this`currentSize, this`files
      ensures (S(), ok) == LruSpec.EvictUntil(old(S()), target)
      ensures Valid(S())
    {
      var evicted := 0;
      while true
        invariant Valid(S())
        invariant LruSpec.EvictUntil(S(), target) == LruSpec.EvictUntil(old(S()), target)
        invariant evicted + |cache| <= CAPACITY
        decreases |cache|
      {
        if currentSize <= target {
          return true;
        }
        var candidate := FirstEvictable(cache, pinned);
        if candidate.None? {
          return true;
        }
        var id := cache[candidate.value].mediaId;
        RemoveShrinks(S(), id);
        RemoveKeepsValid(S(), id);
        IndexOfDistinct(cache, candidate.value);
        evicted := evicted + 1;
        var removed := Remove(id);
        if !removed {
          return false;
        }
        if evicted > 10000 {
          assert false;
        }
      }
    }

    method Pin(id: MediaId)
      modifies this`pinned
      ensures S() == old(S()).(pinned := old(pinned) + {id})
    {
      pinned := pinned + {id};
    }

    method Unpin(id: MediaId)
      modifies this`pinned
      ensures S() == old(S()).(pinned := old(pinned) - {id})
    {
      pinned := pinned - {id};
    }

    method ReplacePins(ids: seq<MediaId>)
      modifies this`pinned
      ensures S() == old(S()).(pinned := set id | id in ids)
    {
      pinned := {};
      for i := 0 to |ids|
        invariant pinned == set id | id in ids[..i]
      {
        pinned := pinned + {ids[i]};
      }
      assert ids[..|ids|] == ids;
    }

    /** Walks the pin set and looks each id up, as the code does. */
    method SumPinned() returns (total: nat)
      requires Valid(S())
      ensures total == PinnedBytes(S())
    {
      total := 0;
      var rest := pinned;
      NoPins(cache);
      assert pinned - pinned == {};
      while rest != {}
        invariant rest <= pinned
        invariant total == Bytes(PinnedOf(cache, pinned - rest))
        decreases rest
      {
        var id :| id in rest;
        OneMorePin(cache, pinned - rest, id);
        assert pinned - (rest - {id}) == (pinned - rest) + {id};
        var at := IndexOf(cache, id);
        if at.Some? {
          total := total + cache[at.value].size;
        }
        rest := rest - {id};
      }
      assert pinned - {} == pinned;
    }

    method CheckDiskSpace(available: Option<nat>) returns (ok: bool)
      requires Valid(S())
      modifies this`cache, this`currentSize, this`files
      ensures (S(), ok) == LruRuns.CheckDisk(old(S()), available, cfg.tight)
      ensures Valid(S())
    {
      if available.None? {
        return true;
      }
      var availableMb := available.value / 1024 / 1024;
      if availableMb < 1024 {
        ok := EvictUntil(cfg.tight);
      } else {
        ok := true;
      }
    }

    /** On success the tracked bytes and the incoming ones fit the quota. */
    method EnsureRoomFor(incoming: nat, d: DiskReadings) returns (ok: bool)
      requires Valid(S())
      modifies this`cache, this`currentSize, this`files
      ensures (S(), ok) == LruSpec.EnsureRoomFor(old(S()), cfg.max, incoming, d)
      ensures Valid(S())
      ensures ok ==> Bytes(cache) + incoming <= cfg.max
    {
      ghost var s := S();
      if incoming > cfg.max {
        return false;
      }
      var pinnedTotal := SumPinned();
      if pinnedTotal + incoming > cfg.max {
        return false;
      }
      if LruSpec.EnsureRoomFor(s, cfg.max, incoming, d).1 {
        RoomOnSuccess(s, cfg.max, incoming, d);
      }
      ok := EvictUntil(SatSub(cfg.max, incoming));
      if !ok {
        return false;
      }
      ok := EvictForHeadroom(incoming, d);
    }

    /** The second constraint: evict the gap to the headroom, then read the disk again. */
    method EvictForHeadroom(incoming: nat, d: DiskReadings) returns (ok: bool)
      requires Valid(S())
      modifies this`cache, this`currentSize, this`files
      ensures (S(), ok) == LruSpec.EnsureHeadroom(old(S()), incoming, d)
      ensures Valid(S())
    {
      if d.first.None? {
        return true;
      }
      var needed := incoming + DISK_HEADROOM_BYTES;
      if d.first.value >= needed {
        return true;
      }
      ok := EvictUntil(SatSub(currentSize, needed - d.first.value));
      if !ok {
        return false;
      }
      var stillAvailable := if d.second.Some? then d.second.value else d.first.value;
      ok := stillAvailable + DISK_HEADROOM_BYTES >= incoming + DISK_HEADROOM_BYTES;
    }
  }

  lemma {:induction false} NoPins(c: seq<Entry>)
    ensures PinnedOf(c, {}) == []
  {
    if c != [] { NoPins(c[1..]); }
  }

  lemma {:induction false} SamePins(c: seq<Entry>, pins: set<MediaId>, id: MediaId)
    requires forall e | e in c :: e.mediaId != id
    ensures PinnedOf(c, pins + {id}) == PinnedOf(c, pins)
  {
    if c != [] { SamePins(c[1..], pins, id); }
  }

  /** Pinning one more id adds the size of its entry, if it is tracked. */
  lemma {:induction false} OneMorePin(c: seq<Entry>, pins: set<MediaId>, id: MediaId)
    requires Distinct(c) && id !in pins
    ensures Bytes(PinnedOf(c, pins + {id})) ==
            Bytes(PinnedOf(c, pins)) + (match IndexOf(c, id) case None => 0 case Some(i) => c[i].size)
  {
    if c != [] {
      HeadOfParts(c, pins);
      HeadOfParts(c, pins + {id});
      if c[0].mediaId == id {
        SamePins(c[1..], pins, id);
      } else {
        OneMorePin(c[1..], pins, id);
      }
    }
  }
}
