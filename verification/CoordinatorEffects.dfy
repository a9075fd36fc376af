/** What each coordinator message brings about: which playlist is queued, what plays, what is written. */
module CoordinatorEffects {
  import opened Options
  import opened CacheNames
  import opened QueueSpec
  import opened CoordinatorSpec
  import opened Text
  import LruSpec
  import LruRuns

  // ---------------------------------------------------------------- assignments

  /** The application shows this playlist: its id, and item by item its media and positions. */
  ghost predicate Shows(a: App, p: Snapshot) {
    && a.playlistId == Some(p.playlistId) && |a.queue.items| == |p.items|
    && forall i | 0 <= i < |p.items| ::
         a.queue.items[i].mediaId == p.items[i].mediaId && a.queue.items[i].orderIndex == p.items[i].orderIndex
  }

  /**
   * After an assignment its playlist is shown. One that is shown already changes nothing; any
   * other is queued as it came, and whatever was interrupted is forgotten.
   */
  lemma AssignmentShows(s: State, cfg: Config, p: Snapshot, w: Writes, fs: seq<Fetch>)
    requires Inv(s)
    ensures var t := HandleAssigned(s, cfg, p, w, fs);
            && Shows(t.app, p)
            && (Shows(s.app, p) ==> t == s)
            && (!Shows(s.app, p) ==> t.app.queue.items == p.items && t.app.queue.loopEnabled == p.loopEnabled && t.app.stack == [])
  {
    ActivateKeeps(Persist(s.(app := s.app.(stack := [])), cfg, p, w), cfg, p, fs);
  }

  /** The same of an update, which leaves what was interrupted alone. */
  lemma UpdateShows(s: State, cfg: Config, p: Snapshot, w: Writes, fs: seq<Fetch>)
    requires Inv(s)
    ensures var t := HandleUpdated(s, cfg, p, w, fs);
            && Shows(t.app, p) && t.app.stack == s.app.stack
            && (Shows(s.app, p) ==> t == s)
            && (!Shows(s.app, p) ==> t.app.queue.items == p.items && t.app.queue.loopEnabled == p.loopEnabled)
  {
    if !Unchanged(s.app, p) { UpdatedKeeps(s, cfg, p, w, fs); }
  }

  // ---------------------------------------------------------------- interrupts, resumes, offline switches

  /** Exactly this playlist is queued, and its media pinned. */
  ghost predicate Queues(t: State, p: Snapshot) {
    && t.app.playlistId == Some(p.playlistId) && t.app.queue.items == p.items && t.app.queue.loopEnabled == p.loopEnabled
    && t.cache.pinned == Ids(p.items)
  }

  /** An interrupt queues its playlist and stacks what was shown, with its position; it writes nothing. */
  lemma InterruptQueues(s: State, cfg: Config, p: Snapshot, fs: seq<Fetch>)
    requires Inv(s)
    ensures var t := HandleInterrupt(s, cfg, p, fs);
            && Queues(t, p) && t.saved == s.saved && t.versioned == s.versioned
            && (s.app.playlistId.None? ==> t.app.stack == s.app.stack)
            && (s.app.playlistId.Some? ==>
                  && |t.app.stack| == |s.app.stack| + 1 && t.app.stack[..|s.app.stack|] == s.app.stack
                  && t.app.stack[|s.app.stack|]
                     == Interrupted(s.app.playlistId.value, s.app.queue.items, s.app.queue.loopEnabled, s.app.queue.index))
  {
    ActivateKeeps(s.(app := PushInterrupt(s.app)), cfg, p, fs);
  }

  /** A resume takes the top off the stack and queues the playlist it names, or empties the queue. */
  lemma ResumeQueues(s: State, cfg: Config, p: Option<Snapshot>, w: Writes, fs: seq<Fetch>)
    requires Inv(s)
    ensures var t := HandleResume(s, cfg, p, w, fs);
            && t.app.stack == (if s.app.stack == [] then [] else s.app.stack[..|s.app.stack| - 1])
            && (p.Some? ==> Queues(t, p.value))
            && (p.None? ==> t.app.playlistId.None? && t.app.queue.items == [] && t.app.queue.index.None? && t.app.currentMedia.None?)
  {
    var s1 := s.(app := PopInterrupt(s.app));
    if p.Some? { ActivateKeeps(Persist(s1, cfg, p.value, w), cfg, p.value, fs); }
  }

  /** An offline switch queues the stored playlist if there is one to read and another is shown. */
  lemma SwitchQueuesIff(s: State, cfg: Config, id: nat, readable: bool, fs: seq<Fetch>)
    requires Inv(s)
    ensures var t := HandleSwitch(s, cfg, id, readable, fs);
            if cfg.storing && readable && id in s.versioned && s.app.playlistId != Some(id)
            then Queues(t, s.versioned[id]) && t.app.stack == s.app.stack && t.saved == s.saved
            else t == s
  {
    if id in s.versioned { ActivateKeeps(s, cfg, s.versioned[id], fs); }
  }

  /** An offline restore queues the snapshot if there is one to read and nothing is queued. */
  lemma RestoreQueuesIff(s: State, cfg: Config, readable: bool, fs: seq<Fetch>)
    requires Inv(s)
    ensures var t := HandleRestore(s, cfg, readable, fs);
            if cfg.storing && readable && s.saved.Some? && s.app.queue.items == []
            then Queues(t, s.saved.value) && t.app.stack == s.app.stack && t.saved == s.saved
            else t == s
  {
    if s.saved.Some? { ActivateKeeps(s, cfg, s.saved.value, fs); }
  }

  // ---------------------------------------------------------------- downloads and playback

  /** The reservation of a transfer is granted, or none is made because the size is unknown. */
  predicate HasRoom(c: LruSpec.State, max: nat, f: Fetch)
    requires f.Transfer?
  {
    f.head.None? || LruSpec.EnsureRoomFor(c, max, f.head.value, f.readings).1
  }

  /** A download succeeds exactly when the entry is valid or there is room and a verified file came. */
  lemma FetchSucceedsIff(c: LruSpec.State, max: nat, item: PlaylistItem, f: Fetch)
    ensures var (d, ok) := FetchItem(c, max, item, f);
            var final := CacheName(item.mediaId, item.filename);
            && (ok <==> f.AlreadyValid? || (HasRoom(c, max, f) && f.received.Some?))
            && (f.AlreadyValid? ==> d == c)
            && (ok && f.Transfer? ==> final in d.files && d.files[final] == f.received.value)
            && (ok && f.Transfer? && TempName(final) != final ==> TempName(final) !in d.files)
  {
  }

  /** Some download of the batch succeeds, each over the cache that those before it leave. */
  ghost predicate AnyFetched(c: LruSpec.State, max: nat, items: seq<PlaylistItem>, fs: seq<Fetch>)
    decreases |items|
  {
    items != [] && fs != [] &&
    (FetchItem(c, max, items[0], fs[0]).1 || AnyFetched(FetchItem(c, max, items[0], fs[0]).0, max, items[1..], fs[1..]))
  }

  lemma {:induction false} ReadyIffAnyFetched(c: LruSpec.State, max: nat, items: seq<PlaylistItem>, fs: seq<Fetch>)
    ensures FetchAll(c, max, items, fs).1 > 0 <==> AnyFetched(c, max, items, fs)
    decreases |items|
  {
    if items != [] && fs != [] {
      ReadyIffAnyFetched(FetchItem(c, max, items[0], fs[0]).0, max, items[1..], fs[1..]);
    }
  }

  /** The first item plays, or the queue waits with what played before. */
  ghost predicate PlaysFirst(t: App) {
    t.queue.items != [] && t.queue.index == Some(0) && t.currentMedia == Some(t.queue.items[0].mediaId)
  }

  ghost predicate Waits(s: App, t: App) { t.queue.index.None? && t.currentMedia == s.currentMedia }

  /**
   * A playlist that is brought in plays from its first item exactly when that item is cached or
   * some item is downloaded; otherwise nothing starts.
   */
  lemma PlaybackStartsIff(s: State, cfg: Config, p: Snapshot, fs: seq<Fetch>)
    ensures var t := Activate(s, cfg, p, fs);
            var pinned := s.cache.(pinned := Ids(p.items));
            if p.items != [] && (CacheName(p.items[0].mediaId, p.items[0].filename) in s.cache.files
                                 || AnyFetched(pinned, cfg.lru.max, p.items, fs))
            then PlaysFirst(t.app) else Waits(s.app, t.app)
  {
    ReadyIffAnyFetched(s.cache.(pinned := Ids(p.items)), cfg.lru.max, p.items, fs);
  }

  /** An update restarts playback exactly when what plays is no longer listed and some item is there. */
  lemma UpdateRestartsIff(s: State, cfg: Config, p: Snapshot, w: Writes, fs: seq<Fetch>)
    requires !Shows(s.app, p)
    ensures var t := HandleUpdated(s, cfg, p, w, fs);
            var listed := s.app.currentMedia.Some? && s.app.currentMedia.value in Ids(p.items);
            if !listed && AnyFetched(s.cache.(pinned := Ids(p.items)), cfg.lru.max, p.items, fs)
            then PlaysFirst(t.app) else Waits(s.app, t.app)
  {
    ReadyIffAnyFetched(s.cache.(pinned := Ids(p.items)), cfg.lru.max, p.items, fs);
  }

  /** Skipping, stepping back and reloading move position and current media together. */
  lemma PositionAndMediaAgree(s: State, cfg: Config, m: Message)
    requires Inv(s) && (m.Advance? || m.StepBack? || m.ReloadPlaylist?) && s.app.queue.items != []
    ensures var t := Step(s, cfg, m).app;
            && (t.queue.index.Some? ==> t.currentMedia == Some(t.queue.items[t.queue.index.value].mediaId))
            && (t.queue.index.None? ==> m.Advance? && t.currentMedia.None?)
            && (m.ReloadPlaylist? ==> PlaysFirst(t))
            && t.queue.items == s.app.queue.items && t.stack == s.app.stack && t.playlistId == s.app.playlistId
  {
  }

  /** The per-playlist snapshots change only by the playlist a message writes, under its own id. */
  lemma PlaylistSavesVersion(s: State, cfg: Config, p: Snapshot, w: Writes, fs: seq<Fetch>)
    ensures var saves := cfg.storing && w.versioned && !Shows(s.app, p);
            var versioned := if saves then s.versioned[p.playlistId := p] else s.versioned;
            HandleAssigned(s, cfg, p, w, fs).versioned == versioned && HandleUpdated(s, cfg, p, w, fs).versioned == versioned
  {
  }

  lemma OthersSaveVersion(s: State, cfg: Config, m: Message)
    requires !m.PlaylistAssigned? && !m.PlaylistUpdated?
    ensures Step(s, cfg, m).versioned ==
            if m.PlaylistResume? && cfg.storing && m.writes.versioned && m.restored.Some?
            then s.versioned[m.restored.value.playlistId := m.restored.value] else s.versioned
  {
  }
}
