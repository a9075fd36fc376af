/**
 * The client's state coordinator (client/src/state/coordinator.rs, client/src/state/app_state.rs)
 * as a machine whose steps are whole messages, over the cache state of `LruSpec`.
 */
module CoordinatorSpec {
  import opened Options
  import opened CacheNames
  import opened Text
  import opened QueueSpec
  import LruSpec
  import LruProperties
  import LruRuns

  datatype Interrupted = Interrupted(
    playlistId: nat,
    items: seq<PlaylistItem>,
    loopEnabled: bool,
    index: Option<nat>)

  datatype Snapshot = Snapshot(playlistId: nat, items: seq<PlaylistItem>, loopEnabled: bool)

  datatype App = App(
    playlistId: Option<nat>,
    queue: Queue,
    currentMedia: Option<MediaId>,
    stack: seq<Interrupted>)

  datatype State = State(
    app: App,
    cache: LruSpec.State,
    saved: Option<Snapshot>,
    versioned: map<nat, Snapshot>)

  /** `storing`: a directory for playlist snapshots is configured. */
  datatype Config = Config(lru: LruRuns.Config, storing: bool)

  /** Which of the two snapshot writes succeed. */
  datatype Writes = Writes(legacy: bool, versioned: bool)

  /**
   * What happens when one item is downloaded: nothing to do, or a transfer with its probes, the
   * size of the verified file, or else the size of what is left of the partial one.
   */
  datatype Fetch =
    | AlreadyValid
    | Transfer(head: Option<nat>, readings: LruSpec.DiskReadings, received: Option<nat>, left: Option<nat>)

  datatype Message =
    | PlaylistAssigned(playlist: Snapshot, writes: Writes, fetches: seq<Fetch>)
    | PlaylistUpdated(playlist: Snapshot, writes: Writes, fetches: seq<Fetch>)
    | PlaylistInterrupt(playlist: Snapshot, fetches: seq<Fetch>)
    | PlaylistResume(restored: Option<Snapshot>, writes: Writes, fetches: seq<Fetch>)
    | ReloadPlaylist
    | Advance   // skip command, media finished, or playback error
    | StepBack
    | MediaStarted(mediaId: MediaId)
    | TryOfflineRestore(readable: bool, fetches: seq<Fetch>)
    | OfflineScheduleSwitch(target: nat, readable: bool, fetches: seq<Fetch>)
    | BackgroundFetch(item: PlaylistItem, fetch: Fetch)
    | CacheTick(op: LruRuns.Op)

  function Ids(items: seq<PlaylistItem>): set<MediaId> { set i | i in items :: i.mediaId }

  // ---------------------------------------------------------------- application state

  function UpdatePlaylist(a: App, p: Snapshot): App {
    a.(playlistId := Some(p.playlistId),
       queue := QueueSpec.UpdateItems(a.queue, p.items, p.playlistId).(loopEnabled := p.loopEnabled))
  }

  function ClearPlaylist(a: App): App {
    a.(playlistId := None, queue := Queue([], None, a.queue.loopEnabled, None), currentMedia := None)
  }

  function NextItem(a: App): App {
    var (q, item) := QueueSpec.Next(a.queue);
    a.(queue := q, currentMedia := if item.Some? then Some(item.value.mediaId) else None)
  }

  function PreviousItem(a: App): App {
    var (q, item) := QueueSpec.Previous(a.queue);
    a.(queue := q, currentMedia := if item.Some? then Some(item.value.mediaId) else a.currentMedia)
  }

  function ResetQueue(a: App): App {
    var q := a.queue.(index := if a.queue.items != [] then Some(0) else None);
    a.(queue := q, currentMedia := if q.items != [] then Some(q.items[0].mediaId) else a.currentMedia)
  }

  function PushInterrupt(a: App): App {
    if a.playlistId.None? then a
    else a.(stack := a.stack +
              [Interrupted(a.playlistId.value, a.queue.items, a.queue.loopEnabled, a.queue.index)])
  }

  function PopInterrupt(a: App): App {
    if a.stack == [] then a else a.(stack := a.stack[..|a.stack| - 1])
  }

  /** From the current item, or else the first. */
  function StartPlayback(a: App): App {
    if a.queue.items == [] || QueueSpec.ItemAt(a.queue, a.queue.index).Some? then a else NextItem(a)
  }

  /** The duplicate test looks at ids and positions, not at the loop flag. */
  predicate Unchanged(a: App, p: Snapshot) {
    && a.playlistId == Some(p.playlistId)
    && |a.queue.items| == |p.items|
    && forall i | 0 <= i < |p.items| ::
         a.queue.items[i].mediaId == p.items[i].mediaId && a.queue.items[i].orderIndex == p.items[i].orderIndex
  }

  function Playing(q: Queue, id: Option<MediaId>): bool {
    id.Some? && exists i | i in q.items :: i.mediaId == id.value
  }

  // ---------------------------------------------------------------- downloads

  /** The directory after a transfer: the partial file renamed to the entry, or what is left of it. */
  function Transferred(files: map<string, nat>, item: PlaylistItem, received: Option<nat>, left: Option<nat>): map<string, nat> {
    var final := CacheName(item.mediaId, item.filename);
    var temp := TempName(final);
    if received.Some? then (files - {temp})[final := received.value]
    else if left.Some? then files[temp := left.value]
    else files - {temp}
  }

  /** Reserve room if the size is known, then transfer by way of the partial file. */
  function FetchItem(c: LruSpec.State, max: nat, item: PlaylistItem, f: Fetch): (LruSpec.State, bool) {
    match f
    case AlreadyValid => (c, true)
    case Transfer(head, readings, received, left) =>
      var (c1, room) := if head.Some? then LruSpec.EnsureRoomFor(c, max, head.value, readings) else (c, true);
      if room then (c1.(files := Transferred(c1.files, item, received, left)), received.Some?) else (c1, false)
  }

  /** A batch in list order; a fetch the environment does not describe fails. */
  function FetchAll(c: LruSpec.State, max: nat, items: seq<PlaylistItem>, fs: seq<Fetch>): (LruSpec.State, nat)
    decreases |items|
  {
    if items == [] || fs == [] then (c, 0)
    else
      var (c1, ok) := FetchItem(c, max, items[0], fs[0]);
      var (c2, ready) := FetchAll(c1, max, items[1..], fs[1..]);
      (c2, ready + if ok then 1 else 0)
  }

  predicate FirstCached(c: LruSpec.State, items: seq<PlaylistItem>)
    requires items != []
  {
    CacheName(items[0].mediaId, items[0].filename) in c.files
  }

  function DownloadAndStart(s: State, max: nat, items: seq<PlaylistItem>, fs: seq<Fetch>): State {
    if items == [] then s
    else if FirstCached(s.cache, items) then s.(app := StartPlayback(s.app))
    else
      var (c, ready) := FetchAll(s.cache, max, items, fs);
      s.(cache := c, app := if ready > 0 then StartPlayback(s.app) else s.app)
  }

  function Persist(s: State, cfg: Config, p: Snapshot, w: Writes): State {
    if !cfg.storing then s
    else s.(saved := if w.legacy then Some(p) else s.saved,
            versioned := if w.versioned then s.versioned[p.playlistId := p] else s.versioned)
  }

  function PinItems(s: State, items: seq<PlaylistItem>): State {
    s.(cache := s.cache.(pinned := Ids(items)))
  }

  /** The tail common to all handlers that bring a playlist in: queue it, pin it, fetch it. */
  function Activate(s: State, cfg: Config, p: Snapshot, fs: seq<Fetch>): State {
    DownloadAndStart(PinItems(s.(app := UpdatePlaylist(s.app, p)), p.items), cfg.lru.max, p.items, fs)
  }

  // ---------------------------------------------------------------- messages

  function HandleAssigned(s: State, cfg: Config, p: Snapshot, w: Writes, fs: seq<Fetch>): State {
    if Unchanged(s.app, p) then s
    else Activate(Persist(s.(app := s.app.(stack := [])), cfg, p, w), cfg, p, fs)
  }

  function HandleUpdated(s: State, cfg: Config, p: Snapshot, w: Writes, fs: seq<Fetch>): State {
    if Unchanged(s.app, p) then s
    else
      var s1 := PinItems(Persist(s.(app := UpdatePlaylist(s.app, p)), cfg, p, w), p.items);
      var (c, ready) := FetchAll(s1.cache, cfg.lru.max, p.items, fs);
      s1.(cache := c,
          app := if !Playing(s1.app.queue, s.app.currentMedia) && ready > 0
                 then StartPlayback(s1.app) else s1.app)
  }

  function HandleInterrupt(s: State, cfg: Config, p: Snapshot, fs: seq<Fetch>): State {
    Activate(s.(app := PushInterrupt(s.app)), cfg, p, fs)
  }

  function HandleResume(s: State, cfg: Config, p: Option<Snapshot>, w: Writes, fs: seq<Fetch>): State {
    var s1 := s.(app := PopInterrupt(s.app));
    if p.None? then s1.(app := ClearPlaylist(s1.app))
    else Activate(Persist(s1, cfg, p.value, w), cfg, p.value, fs)
  }

  function HandleRestore(s: State, cfg: Config, readable: bool, fs: seq<Fetch>): State {
    if !cfg.storing || s.app.queue.items != [] || !readable || s.saved.None? then s
    else Activate(s, cfg, s.saved.value, fs)
  }

  function HandleSwitch(s: State, cfg: Config, id: nat, readable: bool, fs: seq<Fetch>): State {
    if !cfg.storing || s.app.playlistId == Some(id) || !readable || id !in s.versioned then s
    else Activate(s, cfg, s.versioned[id], fs)
  }

  function Step(s: State, cfg: Config, m: Message): State {
    match m
    case PlaylistAssigned(p, w, fs) => HandleAssigned(s, cfg, p, w, fs)
    case PlaylistUpdated(p, w, fs) => HandleUpdated(s, cfg, p, w, fs)
    case PlaylistInterrupt(p, fs) => HandleInterrupt(s, cfg, p, fs)
    case PlaylistResume(p, w, fs) => HandleResume(s, cfg, p, w, fs)
    case ReloadPlaylist => s.(app := StartPlayback(ResetQueue(s.app)))
    case Advance => s.(app := NextItem(s.app))
    case StepBack => s.(app := PreviousItem(s.app))
    case MediaStarted(id) => s.(app := s.app.(currentMedia := Some(id)))
    case TryOfflineRestore(readable, fs) => HandleRestore(s, cfg, readable, fs)
    case OfflineScheduleSwitch(id, readable, fs) => HandleSwitch(s, cfg, id, readable, fs)
    case BackgroundFetch(item, f) => s.(cache := FetchItem(s.cache, cfg.lru.max, item, f).0)
    case CacheTick(op) => s.(cache := LruRuns.Apply(s.cache, cfg.lru, op))
  }

  function Run(s: State, cfg: Config, ms: seq<Message>): State
    decreases |ms|
  {
    if ms == [] then s else Run(Step(s, cfg, ms[0]), cfg, ms[1..])
  }

  // ---------------------------------------------------------------- invariants

  /** The pins are the ids of the queued items, unless nothing is queued. */
  ghost predicate PinsMatchQueue(s: State) {
    s.app.queue.items == [] || s.cache.pinned == Ids(s.app.queue.items)
  }

  ghost predicate Inv(s: State) {
    && PinsMatchQueue(s)
    && QueueSpec.Valid(s.app.queue)
    && LruSpec.Valid(s.cache)
    && LruRuns.WellNamed(s.cache)
  }

  /** Outside the handlers the cache is touched, filled and evicted, but never pinned or removed from. */
  ghost predicate Allowed(m: Message) {
    m.CacheTick? ==>
      && !m.op.Remove? && !m.op.Pin? && !m.op.Unpin? && !m.op.ReplacePins?
      && LruRuns.NamesFile(m.op)
  }

  /** A file that carries one of `ids` and is no partial download. */
  predicate IsFileOf(path: string, ids: set<MediaId>) {
    !EndsWith(path, TMP) && ReadId(path).Some? && ReadId(path).value in ids
  }

  /** No file of one of `ids` is lost on the way from `c` to `d`, partial downloads aside. */
  ghost predicate KeepsFilesOf(c: LruSpec.State, d: LruSpec.State, ids: set<MediaId>) {
    forall path | path in c.files && IsFileOf(path, ids) :: path in d.files
  }

  /** `d` is `c` after downloads: same pins, still well formed, no pinned file lost. */
  ghost predicate Fetched(c: LruSpec.State, d: LruSpec.State) {
    && LruSpec.Valid(d) && LruRuns.WellNamed(d) && d.pinned == c.pinned
    && KeepsFilesOf(c, d, c.pinned)
  }

  lemma EnsureRoomFetches(c: LruSpec.State, max: nat, incoming: nat, readings: LruSpec.DiskReadings)
    requires LruSpec.Valid(c) && LruRuns.WellNamed(c)
    ensures Fetched(c, LruSpec.EnsureRoomFor(c, max, incoming, readings).0)
  {
    LruProperties.EnsureRoomOnlyEvicts(c, max, incoming, readings);
  }

  lemma TransferKeeps(c: LruSpec.State, item: PlaylistItem, received: Option<nat>, left: Option<nat>)
    ensures KeepsFilesOf(c, c.(files := Transferred(c.files, item, received, left)), c.pinned)
  {
    var final := CacheName(item.mediaId, item.filename);
    forall path | path in c.files && IsFileOf(path, c.pinned)
      ensures path in Transferred(c.files, item, received, left)
    {
      NoPartialHere(path, final);
    }
  }

  lemma FetchItemKeeps(c: LruSpec.State, max: nat, item: PlaylistItem, f: Fetch)
    requires LruSpec.Valid(c) && LruRuns.WellNamed(c)
    ensures Fetched(c, FetchItem(c, max, item, f).0)
  {
    if f.Transfer? {
      var c1 := c;
      if f.head.Some? {
        EnsureRoomFetches(c, max, f.head.value, f.readings);
        c1 := LruSpec.EnsureRoomFor(c, max, f.head.value, f.readings).0;
      }
      TransferKeeps(c1, item, f.received, f.left);
    }
  }

  /** A pinned item's own entry survives its download, whatever comes of it. */
  ghost predicate KeepsOwnEntry(c: LruSpec.State, max: nat, item: PlaylistItem, f: Fetch) {
    CacheName(item.mediaId, item.filename) in FetchItem(c, max, item, f).0.files
  }

  /** A cache whose directory is the item's own entry. */
  function OnlyEntry(item: PlaylistItem): LruSpec.State {
    LruSpec.State([], 0, {item.mediaId}, map[CacheName(item.mediaId, item.filename) := 0], {})
  }

  const LOST := Transfer(None, LruSpec.DiskReadings(None, None), None, None)

  lemma LostTransferTakesEntry(item: PlaylistItem)
    requires EndsWith(Sanitized(item.filename), TMP)
    ensures !KeepsOwnEntry(OnlyEntry(item), 0, item, LOST)
  {
    PartialIsFinalIff(item.mediaId, item.filename);
  }

  lemma OwnEntryIsKept(c: LruSpec.State, max: nat, item: PlaylistItem, f: Fetch)
    requires LruSpec.Valid(c) && LruRuns.WellNamed(c) && item.mediaId in c.pinned
    requires CacheName(item.mediaId, item.filename) in c.files && !EndsWith(Sanitized(item.filename), TMP)
    ensures KeepsOwnEntry(c, max, item, f)
  {
    var name := CacheName(item.mediaId, item.filename);
    PartialIsFinalIff(item.mediaId, item.filename);
    TempNameIsItselfIff(name);
    CacheNameRoundTrip(item.mediaId, item.filename);
    FetchItemKeeps(c, max, item, f);
    assert IsFileOf(name, c.pinned);
  }

  /**
   * Leaving partial downloads out of the promise is exact: an item's own download never costs it
   * its cache entry if and only if the sanitized file name does not end in `.tmp`.
   */
  lemma OwnEntryIsKeptIff(item: PlaylistItem)
    ensures (forall c: LruSpec.State, max: nat, f: Fetch
               | LruSpec.Valid(c) && LruRuns.WellNamed(c) && item.mediaId in c.pinned
                 && CacheName(item.mediaId, item.filename) in c.files :: KeepsOwnEntry(c, max, item, f))
            <==> !EndsWith(Sanitized(item.filename), TMP)
  {
    if EndsWith(Sanitized(item.filename), TMP) {
      LostTransferTakesEntry(item);
    } else {
      forall c: LruSpec.State, max: nat, f: Fetch
        | LruSpec.Valid(c) && LruRuns.WellNamed(c) && item.mediaId in c.pinned
          && CacheName(item.mediaId, item.filename) in c.files
        ensures KeepsOwnEntry(c, max, item, f)
      {
        OwnEntryIsKept(c, max, item, f);
      }
    }
  }

  lemma {:induction false} FetchAllKeeps(c: LruSpec.State, max: nat, items: seq<PlaylistItem>, fs: seq<Fetch>)
    requires LruSpec.Valid(c) && LruRuns.WellNamed(c)
    ensures Fetched(c, FetchAll(c, max, items, fs).0)
    decreases |items|
  {
    if items != [] && fs != [] {
      FetchItemKeeps(c, max, items[0], fs[0]);
      FetchAllKeeps(FetchItem(c, max, items[0], fs[0]).0, max, items[1..], fs[1..]);
    }
  }

  lemma StartPlaybackKeeps(a: App)
    requires QueueSpec.Valid(a.queue)
    ensures var b := StartPlayback(a);
            QueueSpec.Valid(b.queue) && b == a.(queue := a.queue.(index := b.queue.index), currentMedia := b.currentMedia)
  {
  }

  /** What a handler that brings `p` in establishes: `p` queued and pinned, its files kept. */
  ghost predicate Activated(s: State, p: Snapshot, t: State) {
    && Inv(t)
    && t.app.playlistId == Some(p.playlistId) && t.app.queue.items == p.items
    && t.app.queue.loopEnabled == p.loopEnabled
    && t.cache.pinned == Ids(p.items)
    && t.app.stack == s.app.stack && t.saved == s.saved && t.versioned == s.versioned
    && KeepsFilesOf(s.cache, t.cache, Ids(p.items))
  }

  lemma ActivateKeeps(s: State, cfg: Config, p: Snapshot, fs: seq<Fetch>)
    requires LruSpec.Valid(s.cache) && LruRuns.WellNamed(s.cache)
    ensures Activated(s, p, Activate(s, cfg, p, fs))
  {
    var s1 := PinItems(s.(app := UpdatePlaylist(s.app, p)), p.items);
    StartPlaybackKeeps(s1.app);
    FetchAllKeeps(s1.cache, cfg.lru.max, p.items, fs);
  }

  lemma UpdatedKeeps(s: State, cfg: Config, p: Snapshot, w: Writes, fs: seq<Fetch>)
    requires Inv(s) && !Unchanged(s.app, p)
    ensures Activated(Persist(s, cfg, p, w), p, HandleUpdated(s, cfg, p, w, fs))
  {
    var s1 := PinItems(Persist(s.(app := UpdatePlaylist(s.app, p)), cfg, p, w), p.items);
    StartPlaybackKeeps(s1.app);
    FetchAllKeeps(s1.cache, cfg.lru.max, p.items, fs);
  }

  lemma TickKeeps(s: State, cfg: Config, op: LruRuns.Op)
    requires Inv(s) && Allowed(CacheTick(op))
    ensures var c := LruRuns.Apply(s.cache, cfg.lru, op);
            LruSpec.Valid(c) && LruRuns.WellNamed(c) && c.pinned == s.cache.pinned
            && KeepsFilesOf(s.cache, c, s.cache.pinned)
  {
    LruRuns.ApplyKeepsBooks(s.cache, cfg.lru, op);
    LruRuns.ApplyWellNamed(s.cache, cfg.lru, op);
    LruRuns.ApplyKeepsPins(s.cache, cfg.lru, op);
    forall path | path in s.cache.files && IsFileOf(path, s.cache.pinned)
      ensures path in LruRuns.Apply(s.cache, cfg.lru, op).files
    {
      LruRuns.PinnedFilesStay(s.cache, cfg.lru, op, path);
    }
  }

  lemma BringingInKeeps(s: State, cfg: Config, m: Message)
    requires Inv(s)
    requires m.PlaylistAssigned? || m.PlaylistUpdated? || m.PlaylistInterrupt? || m.PlaylistResume?
    ensures var t := Step(s, cfg, m); Inv(t) && KeepsFilesOf(s.cache, t.cache, Ids(t.app.queue.items))
  {
    match m
    case PlaylistAssigned(p, w, fs) =>
      ActivateKeeps(Persist(s.(app := s.app.(stack := [])), cfg, p, w), cfg, p, fs);
    case PlaylistUpdated(p, w, fs) =>
      if !Unchanged(s.app, p) { UpdatedKeeps(s, cfg, p, w, fs); }
    case PlaylistInterrupt(p, fs) =>
      ActivateKeeps(s.(app := PushInterrupt(s.app)), cfg, p, fs);
    case PlaylistResume(p, w, fs) =>
      if p.Some? { ActivateKeeps(Persist(s.(app := PopInterrupt(s.app)), cfg, p.value, w), cfg, p.value, fs); }
  }

  lemma MovingKeeps(s: State, cfg: Config, m: Message)
    requires Inv(s) && (m.ReloadPlaylist? || m.Advance? || m.StepBack? || m.MediaStarted?)
    ensures var t := Step(s, cfg, m);
            Inv(t) && t.cache == s.cache && t.app.queue.items == s.app.queue.items
  {
  }

  /**
   * One message, whatever it is: the pins still match the queue, and no file of the playlist it
   * leaves queued is lost while it is handled, partial downloads aside.
   */
  lemma StepKeepsQueueSafe(s: State, cfg: Config, m: Message)
    requires Inv(s) && Allowed(m)
    ensures var t := Step(s, cfg, m); Inv(t) && KeepsFilesOf(s.cache, t.cache, Ids(t.app.queue.items))
  {
    match m
    case TryOfflineRestore(readable, fs) =>
      if s.saved.Some? { ActivateKeeps(s, cfg, s.saved.value, fs); }
    case OfflineScheduleSwitch(id, readable, fs) =>
      if id in s.versioned { ActivateKeeps(s, cfg, s.versioned[id], fs); }
    case BackgroundFetch(item, f) => FetchItemKeeps(s.cache, cfg.lru.max, item, f);
    case CacheTick(op) => TickKeeps(s, cfg, op);
    case _ =>
      if m.ReloadPlaylist? || m.Advance? || m.StepBack? || m.MediaStarted? {
        MovingKeeps(s, cfg, m);
      } else {
        BringingInKeeps(s, cfg, m);
      }
  }

  /** `id` is in the queue after every message of the run. */
  ghost predicate QueuedThroughout(s: State, cfg: Config, ms: seq<Message>, id: MediaId)
    decreases |ms|
  {
    ms == [] || var t := Step(s, cfg, ms[0]);
                id in Ids(t.app.queue.items) && QueuedThroughout(t, cfg, ms[1..], id)
  }

  /**
   * Every run of assignments, updates, interrupts, resumes, offline switches and restores, with
   * evictions and downloads between them: the queue stays pinned, and a cached file of a media
   * item that stays queued is never lost, partial downloads aside.
   */
  lemma {:induction false} RunKeepsQueueSafe(s: State, cfg: Config, ms: seq<Message>)
    requires Inv(s) && forall m | m in ms :: Allowed(m)
    ensures var t := Run(s, cfg, ms);
            && Inv(t)
            && forall path | path in s.cache.files && !EndsWith(path, TMP) && ReadId(path).Some?
                             && QueuedThroughout(s, cfg, ms, ReadId(path).value) :: path in t.cache.files
    decreases |ms|
  {
    if ms != [] {
      StepKeepsQueueSafe(s, cfg, ms[0]);
      RunKeepsQueueSafe(Step(s, cfg, ms[0]), cfg, ms[1..]);
    }
  }

  // ---------------------------------------------------------------- start-up

  const STOPPED := App(None, Queue([], None, false, None), None, [])

  /** The started process satisfies the invariant, whatever its directory and snapshots hold. */
  lemma StartupEstablishesInv(files: map<string, nat>, undeletable: set<string>, dir: seq<LruSpec.DirFile>,
                              cfg: LruRuns.Config, saved: Option<Snapshot>, versioned: map<nat, Snapshot>)
    ensures var empty := LruSpec.State([], 0, {}, files, undeletable);
            Inv(State(STOPPED, LruRuns.Initialized(empty, dir, cfg), saved, versioned))
  {
    LruRuns.InitKeeps(LruSpec.State([], 0, {}, files, undeletable), dir, cfg);
  }

  // ---------------------------------------------------------------- interrupts and restarts

  /**
   * An interrupt followed by a resume leaves the interrupt stack as it was if and only if a
   * playlist was assigned or nothing was stacked; otherwise the resume drops an older entry.
   */
  lemma InterruptResumeStackIff(s: State, cfg: Config, i: Snapshot, r: Option<Snapshot>, w: Writes,
                                fs: seq<Fetch>, gs: seq<Fetch>)
    requires Inv(s)
    ensures var t := HandleResume(HandleInterrupt(s, cfg, i, fs), cfg, r, w, gs);
            t.app.stack == s.app.stack <==> s.app.playlistId.Some? || s.app.stack == []
  {
    var s1 := s.(app := PushInterrupt(s.app));
    ActivateKeeps(s1, cfg, i, fs);
    var s2 := HandleInterrupt(s, cfg, i, fs);
    var s3 := s2.(app := PopInterrupt(s2.app));
    if r.Some? { ActivateKeeps(Persist(s3, cfg, r.value, w), cfg, r.value, gs); }
    if s.app.playlistId.Some? {
      assert s1.app.stack[..|s1.app.stack| - 1] == s.app.stack;
    } else if s.app.stack != [] {
      assert |s3.app.stack| < |s.app.stack|;
    }
  }

  /** The coordinator of a restarted process over the same directory. */
  function Restarted(s: State, cache: LruSpec.State): State {
    State(STOPPED, cache, s.saved, s.versioned)
  }

  /**
   * A playlist that was assigned and written comes back after a restart: same id, items and
   * loop flag, and pinned again.
   */
  lemma AssignedSurvivesRestart(s: State, cfg: Config, p: Snapshot, w: Writes, fs: seq<Fetch>,
                                cache: LruSpec.State, gs: seq<Fetch>)
    requires Inv(s) && cfg.storing && w.legacy && !Unchanged(s.app, p)
    requires LruSpec.Valid(cache) && LruRuns.WellNamed(cache)
    ensures var r := Restarted(HandleAssigned(s, cfg, p, w, fs), cache);
            Activated(r, p, HandleRestore(r, cfg, true, gs))
  {
    ActivateKeeps(Persist(s.(app := s.app.(stack := [])), cfg, p, w), cfg, p, fs);
    var r := Restarted(HandleAssigned(s, cfg, p, w, fs), cache);
    ActivateKeeps(r, cfg, p, gs);
  }

  /** The playlist that a message writes to the snapshot that a restart reads, if it writes one. */
  function Written(s: State, cfg: Config, m: Message): Option<Snapshot> {
    match m
    case PlaylistAssigned(p, w, _) => if cfg.storing && w.legacy && !Unchanged(s.app, p) then Some(p) else None
    case PlaylistUpdated(p, w, _) => if cfg.storing && w.legacy && !Unchanged(s.app, p) then Some(p) else None
    case PlaylistResume(p, w, _) => if cfg.storing && w.legacy then p else None
    case _ => None
  }

  lemma StepSaves(s: State, cfg: Config, m: Message)
    ensures Step(s, cfg, m).saved == if Written(s, cfg, m).Some? then Written(s, cfg, m) else s.saved
  {
  }

  lemma {:induction false} RunAppends(s: State, cfg: Config, ms: seq<Message>, m: Message)
    ensures Run(s, cfg, ms + [m]) == Step(Run(s, cfg, ms), cfg, m)
    decreases |ms|
  {
    if ms == [] {
      assert Run(s, cfg, [m]) == Run(Step(s, cfg, m), cfg, []);
    } else {
      assert (ms + [m])[1..] == ms[1..] + [m];
      RunAppends(Step(s, cfg, ms[0]), cfg, ms[1..], m);
    }
  }

  /** Message `k` of the run writes the snapshot. */
  function WrittenAt(s: State, cfg: Config, ms: seq<Message>, k: nat): Option<Snapshot>
    requires k < |ms|
  {
    Written(Run(s, cfg, ms[..k]), cfg, ms[k])
  }

  /** The snapshot of a run is that of its last message that writes one, and none changes it otherwise. */
  lemma {:induction false} SavedIsLastWritten(s: State, cfg: Config, ms: seq<Message>, k: nat)
    requires k < |ms| && WrittenAt(s, cfg, ms, k).Some?
    requires forall j | k < j < |ms| :: WrittenAt(s, cfg, ms, j).None?
    ensures Run(s, cfg, ms).saved == WrittenAt(s, cfg, ms, k)
    decreases |ms|
  {
    var n := |ms| - 1;
    var front := ms[..n];
    assert ms == front + [ms[n]];
    RunAppends(s, cfg, front, ms[n]);
    StepSaves(Run(s, cfg, front), cfg, ms[n]);
    if k < n {
      forall j | k <= j < n ensures WrittenAt(s, cfg, front, j) == WrittenAt(s, cfg, ms, j) {
        assert front[..j] == ms[..j];
      }
      assert WrittenAt(s, cfg, ms, n).None?;
      SavedIsLastWritten(s, cfg, front, k);
    }
  }

  /**
   * After any run, whatever was interrupted or switched offline in it, a restart brings back the
   * playlist last assigned, updated or resumed whose snapshot was written, pinned again.
   */
  lemma RestartRestoresLastWritten(s: State, cfg: Config, ms: seq<Message>, k: nat,
                                   cache: LruSpec.State, gs: seq<Fetch>)
    requires cfg.storing && LruSpec.Valid(cache) && LruRuns.WellNamed(cache)
    requires k < |ms| && WrittenAt(s, cfg, ms, k).Some?
    requires forall j | k < j < |ms| :: WrittenAt(s, cfg, ms, j).None?
    ensures var r := Restarted(Run(s, cfg, ms), cache);
            Activated(r, WrittenAt(s, cfg, ms, k).value, HandleRestore(r, cfg, true, gs))
  {
    SavedIsLastWritten(s, cfg, ms, k);
    ActivateKeeps(Restarted(Run(s, cfg, ms), cache), cfg, WrittenAt(s, cfg, ms, k).value, gs);
  }

  /**
   * An assignment or update takes effect exactly when the duplicate test lets it through; a
   * message that changes only the loop flag is dropped.
   */
  lemma LoopChangeIsDropped(s: State, cfg: Config, p: Snapshot, w: Writes, fs: seq<Fetch>)
    requires Inv(s)
    ensures HandleAssigned(s, cfg, p, w, fs).app.queue.loopEnabled == p.loopEnabled <==>
            !Unchanged(s.app, p) || s.app.queue.loopEnabled == p.loopEnabled
    ensures HandleUpdated(s, cfg, p, w, fs).app.queue.loopEnabled == p.loopEnabled <==>
            !Unchanged(s.app, p) || s.app.queue.loopEnabled == p.loopEnabled
  {
    if !Unchanged(s.app, p) {
      ActivateKeeps(Persist(s.(app := s.app.(stack := [])), cfg, p, w), cfg, p, fs);
      UpdatedKeeps(s, cfg, p, w, fs);
    }
  }

  /** A resume without a playlist stops playback but leaves the last playlist's pins in place. */
  lemma StopKeepsPins(s: State, cfg: Config, w: Writes, fs: seq<Fetch>)
    requires Inv(s) && s.app.queue.items != []
    ensures var t := HandleResume(s, cfg, None, w, fs);
            t.app.queue.items == [] && t.cache.pinned == Ids(s.app.queue.items) && t.cache.pinned != {}
  {
    assert s.app.queue.items[0].mediaId in Ids(s.app.queue.items);
  }
}
