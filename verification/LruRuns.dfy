/** Whole runs of the cache manager: any sequence of operations, in any order. */
module LruRuns {
  import opened Options
  import opened CacheNames
  import opened LruSpec
  import opened LruProperties

  /** `low` and `tight` stand for 80% and 75% of the quota, which the code computes in floats. */
  datatype Config = Config(max: nat, low: nat, tight: nat)

  datatype Op =
    | Access(id: MediaId, now: nat)
    | Add(newId: MediaId, path: string, at: nat)
    | Remove(oldId: MediaId)
    | Pin(pinId: MediaId)
    | Unpin(unpinId: MediaId)
    | ReplacePins(pins: set<MediaId>)
    | EvictIfNeeded
    | CheckDiskSpace(available: Option<nat>)
    | EnsureRoomFor(incoming: nat, readings: DiskReadings)

  function CheckDisk(s: State, available: Option<nat>, tight: nat): (State, bool) {
    if available.Some? && available.value / 1024 / 1024 < 1024 then EvictUntil(s, tight) else (s, true)
  }

  function Apply(s: State, cfg: Config, op: Op): State {
    match op
    case Access(id, now) => LruSpec.Access(s, id, now)
    case Add(id, path, now) => LruSpec.Add(s, cfg.max, cfg.low, id, path, now).0
    case Remove(id) => LruSpec.Remove(s, id).0
    case Pin(id) => s.(pinned := s.pinned + {id})
    case Unpin(id) => s.(pinned := s.pinned - {id})
    case ReplacePins(pins) => s.(pinned := pins)
    case EvictIfNeeded => LruSpec.EvictIfNeeded(s, cfg.max, cfg.low).0
    case CheckDiskSpace(available) => CheckDisk(s, available, cfg.tight).0
    case EnsureRoomFor(incoming, d) => LruSpec.EnsureRoomFor(s, cfg.max, incoming, d).0
  }

  function Run(s: State, cfg: Config, ops: seq<Op>): State
    decreases |ops|
  {
    if ops == [] then s else Run(Apply(s, cfg, ops[0]), cfg, ops[1..])
  }

  /** The bytes of entries pushed out of a full map by the `add`s of a run. */
  function DisplacedBy(s: State, op: Op): nat {
    if op.Add? && op.path in s.files then Displaced(s.cache, op.newId) else 0
  }

  function RunDisplaced(s: State, cfg: Config, ops: seq<Op>): nat
    decreases |ops|
  {
    if ops == [] then 0 else DisplacedBy(s, ops[0]) + RunDisplaced(Apply(s, cfg, ops[0]), cfg, ops[1..])
  }

  lemma AccessKeeps(s: State, id: MediaId, now: nat)
    requires Valid(s)
    ensures var t := LruSpec.Access(s, id, now);
            Valid(t) && Drift(t) == Drift(s)
            && (forall x | x in t.cache :: exists y | y in s.cache :: y.mediaId == x.mediaId && y.path == x.path)
  {
    match IndexOf(s.cache, id)
    case None =>
    case Some(i) =>
      var e := s.cache[i].(lastAccess := now);
      RemoveAtMembers(s.cache, i);
      DistinctAppend(RemoveAt(s.cache, i), e);
      BytesRemoveAt(s.cache, i);
      BytesConcat(RemoveAt(s.cache, i), [e]);
      LastBytes(e);
  }

  predicate Evicts(op: Op) { op.EvictIfNeeded? || op.CheckDiskSpace? || op.EnsureRoomFor? }

  lemma NothingEvicted(s: State)
    requires Valid(s)
    ensures OnlyEvicted(s, s)
  {
  }

  lemma EvictingOnlyEvicts(s: State, cfg: Config, op: Op)
    requires Valid(s) && Evicts(op)
    ensures OnlyEvicted(s, Apply(s, cfg, op))
  {
    NothingEvicted(s);
    match op
    case EvictIfNeeded => EvictOnlyEvicts(s, cfg.low);
    case CheckDiskSpace(available) => EvictOnlyEvicts(s, cfg.tight);
    case EnsureRoomFor(incoming, d) => EnsureRoomOnlyEvicts(s, cfg.max, incoming, d);
  }

  lemma AddKeepsBooks(s: State, cfg: Config, op: Op)
    requires Valid(s) && op.Add?
    ensures Valid(Apply(s, cfg, op))
    ensures Drift(Apply(s, cfg, op)) == Drift(s) + DisplacedBy(s, op)
  {
    AddKeeps(s, cfg.max, cfg.low, op.newId, op.path, op.at);
  }

  lemma ApplyKeepsBooks(s: State, cfg: Config, op: Op)
    requires Valid(s)
    ensures Valid(Apply(s, cfg, op))
    ensures Drift(Apply(s, cfg, op)) == Drift(s) + DisplacedBy(s, op)
  {
    if Evicts(op) {
      EvictingOnlyEvicts(s, cfg, op);
    } else if op.Add? {
      AddKeepsBooks(s, cfg, op);
    } else {
      match op
      case Access(id, now) => AccessKeeps(s, id, now);
      case Remove(id) => RemoveKeepsValid(s, id);
      case Pin(id) =>
      case Unpin(id) =>
      case ReplacePins(pins) =>
    }
  }

  /**
   * Over every run the counter never reports less than the tracked bytes, and what it reports
   * too much is exactly what full-map `add`s displaced. So it stays exact if and only if they
   * displaced no bytes.
   */
  lemma {:induction false} RunKeepsBooks(s: State, cfg: Config, ops: seq<Op>)
    requires Valid(s)
    ensures Valid(Run(s, cfg, ops))
    ensures Drift(Run(s, cfg, ops)) == Drift(s) + RunDisplaced(s, cfg, ops)
    ensures Exact(s) ==> (Exact(Run(s, cfg, ops)) <==> RunDisplaced(s, cfg, ops) == 0)
    decreases |ops|
  {
    if ops != [] {
      ApplyKeepsBooks(s, cfg, ops[0]);
      RunKeepsBooks(Apply(s, cfg, ops[0]), cfg, ops[1..]);
    }
  }

  // ---------------------------------------------------------------- files of pinned media

  /** Every tracked entry sits at a path whose name carries its media id. */
  ghost predicate WellNamed(s: State) {
    forall e | e in s.cache :: ReadId(e.path) == Some(e.mediaId)
  }

  /** An operation names its files the way `get_cache_path` does. */
  ghost predicate NamesFile(op: Op) {
    op.Add? ==> exists raw :: op.path == CacheName(op.newId, raw)
  }

  lemma AddWellNamed(s: State, cfg: Config, op: Op)
    requires Valid(s) && WellNamed(s) && op.Add? && NamesFile(op)
    ensures WellNamed(Apply(s, cfg, op))
  {
    var raw :| op.path == CacheName(op.newId, raw);
    CacheNameRoundTrip(op.newId, raw);
    AddKeeps(s, cfg.max, cfg.low, op.newId, op.path, op.at);
  }

  lemma ApplyWellNamed(s: State, cfg: Config, op: Op)
    requires Valid(s) && WellNamed(s) && NamesFile(op)
    ensures WellNamed(Apply(s, cfg, op))
  {
    if Evicts(op) {
      EvictingOnlyEvicts(s, cfg, op);
    } else if op.Add? {
      AddWellNamed(s, cfg, op);
    } else {
      match op
      case Access(id, now) => AccessKeeps(s, id, now);
      case Remove(id) =>
        if IndexOf(s.cache, id).Some? { RemoveAtMembers(s.cache, IndexOf(s.cache, id).value); }
      case Pin(id) =>
      case Unpin(id) =>
      case ReplacePins(pins) =>
    }
  }

  ghost predicate IsPinnedFile(s: State, path: string) {
    path in s.files && ReadId(path).Some? && ReadId(path).value in s.pinned
  }

  ghost predicate KeepsFile(s: State, t: State, path: string) {
    path in s.files ==> path in t.files && t.files[path] == s.files[path]
  }

  lemma OnlyEvictedKeepsPinnedFile(s: State, t: State, path: string)
    requires LostOnlyEvictable(s, t) && WellNamed(s) && IsPinnedFile(s, path)
    ensures KeepsFile(s, t, path)
  {
  }

  lemma AddKeepsPinnedFiles(s: State, cfg: Config, op: Op, path: string)
    requires Valid(s) && WellNamed(s) && op.Add? && NamesFile(op) && IsPinnedFile(s, path)
    ensures KeepsFile(s, Apply(s, cfg, op), path)
  {
    if op.path in s.files {
      var e := Entry(op.newId, op.path, s.files[op.path], op.at);
      var raw :| op.path == CacheName(op.newId, raw);
      CacheNameRoundTrip(op.newId, raw);
      TrackWellNamed(s, e);
      EvictIfNeededKeepsPinnedFile(Track(s, e), cfg, path);
    }
  }

  lemma TrackWellNamed(s: State, e: Entry)
    requires Valid(s) && WellNamed(s) && ReadId(e.path) == Some(e.mediaId)
    ensures Valid(Track(s, e)) && WellNamed(Track(s, e))
    ensures Track(s, e).files == s.files && Track(s, e).pinned == s.pinned
  {
    TrackKeeps(s, e);
  }

  lemma EvictIfNeededKeepsPinnedFile(s: State, cfg: Config, path: string)
    requires Valid(s) && WellNamed(s) && IsPinnedFile(s, path)
    ensures KeepsFile(s, LruSpec.EvictIfNeeded(s, cfg.max, cfg.low).0, path)
  {
    EvictFiles(s, cfg.low);
    OnlyEvictedKeepsPinnedFile(s, EvictUntil(s, cfg.low).0, path);
  }

  /**
   * No operation but an explicit `remove` deletes a file that carries a pinned media id,
   * tracked or not.
   */
  lemma PinnedFilesStay(s: State, cfg: Config, op: Op, path: string)
    requires Valid(s) && WellNamed(s) && !op.Remove? && NamesFile(op) && IsPinnedFile(s, path)
    ensures path in Apply(s, cfg, op).files && Apply(s, cfg, op).files[path] == s.files[path]
  {
    if Evicts(op) {
      EvictingOnlyEvicts(s, cfg, op);
      OnlyEvictedKeepsPinnedFile(s, Apply(s, cfg, op), path);
    } else if op.Add? {
      AddKeepsPinnedFiles(s, cfg, op, path);
    }
  }

  lemma ApplyKeepsPins(s: State, cfg: Config, op: Op)
    requires Valid(s) && !op.Pin? && !op.Unpin? && !op.ReplacePins?
    ensures Apply(s, cfg, op).pinned == s.pinned
  {
    match op
    case Access(id, now) =>
    case Add(id, path, now) => AddKeeps(s, cfg.max, cfg.low, id, path, now);
    case Remove(id) =>
    case EvictIfNeeded => EvictOnlyEvicts(s, cfg.low);
    case CheckDiskSpace(available) => EvictOnlyEvicts(s, cfg.tight);
    case EnsureRoomFor(incoming, d) => EnsureRoomOnlyEvicts(s, cfg.max, incoming, d);
  }

  /** The files the startup scan tracks carry the id they are tracked under. */
  lemma {:induction false} ScanWellNamed(dir: seq<DirFile>)
    ensures forall e | e in Scan(dir) :: ReadId(e.path) == Some(e.mediaId)
  {
    if dir != [] { ScanWellNamed(dir[..|dir| - 1]); }
  }

  /** `init`: the scanned files are loaded, oldest access first, then evicted if over the quota. */
  function Initialized(s: State, dir: seq<DirFile>, cfg: Config): State {
    LruSpec.EvictIfNeeded(Load(s, OldestFirst(Scan(dir))), cfg.max, cfg.low).0
  }

  /** The scan keeps the books and the naming, whatever the directory holds. */
  lemma InitKeeps(s: State, dir: seq<DirFile>, cfg: Config)
    requires Valid(s) && WellNamed(s)
    ensures Valid(Initialized(s, dir, cfg)) && WellNamed(Initialized(s, dir, cfg))
    ensures Initialized(s, dir, cfg).pinned == s.pinned
  {
    var found := OldestFirst(Scan(dir));
    ScanWellNamed(dir);
    OldestFirstMembers(Scan(dir));
    LoadKeeps(s, found);
    EvictKeeps(Load(s, found), cfg.low);
  }
}
