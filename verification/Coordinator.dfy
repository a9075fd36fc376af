/** The state coordinator and the application state it drives, updated in place. */
module Coordinator {
  import opened Options
  import opened CacheNames
  import opened QueueSpec
  import opened PlaylistQueue
  import opened Lru
  import LruSpec
  import CS = CoordinatorSpec

  /** client/src/state/app_state.rs: the fields the coordinator moves. */
  class AppState {
    var playlistId: Option<nat>
    const queue: PlaylistQueue
    var currentMedia: Option<MediaId>
    var stack: seq<CS.Interrupted>

    ghost function S(): CS.App
      reads this, queue
    {
      CS.App(playlistId, queue.S(), currentMedia, stack)
    }

    constructor ()
      ensures S() == CS.STOPPED
      ensures fresh(queue)
    {
      playlistId, currentMedia, stack := None, None, [];
      queue := new PlaylistQueue();
    }

    method UpdatePlaylist(id: nat, items: seq<PlaylistItem>, loopEnabled: bool)
      modifies this`playlistId, queue
      ensures S() == CS.UpdatePlaylist(old(S()), CS.Snapshot(id, items, loopEnabled))
    {
      playlistId := Some(id);
      queue.UpdateItems(items, id);
      queue.SetLoop(loopEnabled);
    }

    method ClearPlaylist()
      modifies this`playlistId, this`currentMedia, queue
      ensures S() == CS.ClearPlaylist(old(S()))
    {
      playlistId := None;
      queue.Clear();
      currentMedia := None;
    }

    method NextItem() returns (item: Option<PlaylistItem>)
      modifies this`currentMedia, queue
      ensures S() == CS.NextItem(old(S())) && item == QueueSpec.Next(old(queue.S())).1
    {
      item := queue.Next();
      currentMedia := if item.Some? then Some(item.value.mediaId) else None;
    }

    method PreviousItem() returns (item: Option<PlaylistItem>)
      modifies this`currentMedia, queue
      ensures S() == CS.PreviousItem(old(S())) && item == QueueSpec.Previous(old(queue.S())).1
    {
      item := queue.Previous();
      if item.Some? {
        currentMedia := Some(item.value.mediaId);
      }
    }

    method ResetQueue()
      modifies this`currentMedia, queue
      ensures S() == CS.ResetQueue(old(S()))
    {
      queue.Reset();
      if queue.items != [] {
        currentMedia := Some(queue.items[0].mediaId);
      }
    }

    method SetCurrentMedia(id: Option<MediaId>)
      modifies this`currentMedia
      ensures S() == old(S()).(currentMedia := id)
    {
      currentMedia := id;
    }

    method PushInterrupt()
      modifies this`stack
      ensures S() == CS.PushInterrupt(old(S()))
    {
      if playlistId.Some? {
        stack := stack + [CS.Interrupted(playlistId.value, queue.items, queue.loopEnabled, queue.currentIndex)];
      }
    }

    method PopInterrupt() returns (top: Option<CS.Interrupted>)
      modifies this`stack
      ensures S() == CS.PopInterrupt(old(S()))
      ensures top == if old(stack) == [] then None else Some(old(stack)[|old(stack)| - 1])
    {
      if stack == [] {
        return None;
      }
      top := Some(stack[|stack| - 1]);
      stack := stack[..|stack| - 1];
    }

    method ClearInterruptStack()
      modifies this`stack
      ensures S() == old(S()).(stack := [])
    {
      stack := [];
    }
  }

  class StateCoordinator {
    const state: AppState
    const lru: LruCacheManager
    const storing: bool
    var saved: Option<CS.Snapshot>
    var versioned: map<nat, CS.Snapshot>

    ghost function S(): CS.State
      reads this, state, state.queue, lru
    {
      CS.State(state.S(), lru.S(), saved, versioned)
    }

    ghost function Cfg(): CS.Config { CS.Config(lru.cfg, storing) }

    constructor (lru: LruCacheManager, storing: bool, saved: Option<CS.Snapshot>, versioned: map<nat, CS.Snapshot>)
      ensures this.lru == lru && this.storing == storing && fresh(state) && fresh(state.queue)
      ensures S() == CS.State(CS.STOPPED, lru.S(), saved, versioned)
    {
      this.lru, this.storing, this.saved, this.versioned := lru, storing, saved, versioned;
      state := new AppState();
    }

    /** One coordinator message; between messages the cache may be touched through the same object. */
    method Handle(m: CS.Message)
      requires LruSpec.Valid(lru.S()) && !m.CacheTick?
      modifies this, state, state.queue, lru
      ensures S() == CS.Step(old(S()), Cfg(), m)
    {
      if m.PlaylistAssigned? || m.PlaylistUpdated? || m.PlaylistInterrupt? || m.PlaylistResume? || m.ReloadPlaylist? {
        HandleServerMessage(m);
        return;
      }
      match m
      case Advance =>
        var _ := state.NextItem();
      case StepBack =>
        var _ := state.PreviousItem();
      case MediaStarted(id) =>
        state.SetCurrentMedia(Some(id));
      case TryOfflineRestore(readable, fs) =>
        if !storing || state.queue.items != [] || !readable || saved.None? { return; }
        BringIn(saved.value, fs);
      case OfflineScheduleSwitch(id, readable, fs) =>
        if !storing || state.playlistId == Some(id) || !readable || id !in versioned { return; }
        BringIn(versioned[id], fs);
      case BackgroundFetch(item, f) =>
        var _ := DownloadItem(item, f);
    }

    method HandleServerMessage(m: CS.Message)
      requires LruSpec.Valid(lru.S())
      requires m.PlaylistAssigned? || m.PlaylistUpdated? || m.PlaylistInterrupt? || m.PlaylistResume? || m.ReloadPlaylist?
      modifies this, state, state.queue, lru
      ensures S() == CS.Step(old(S()), Cfg(), m)
    {
      match m
      case PlaylistAssigned(p, w, fs) =>
        var same := IsPlaylistUnchanged(p);
        if same { return; }
        state.ClearInterruptStack();
        Persist(p, w);
        BringIn(p, fs);
      case PlaylistUpdated(p, w, fs) =>
        HandleUpdated(p, w, fs);
      case PlaylistInterrupt(p, fs) =>
        state.PushInterrupt();
        BringIn(p, fs);
      case PlaylistResume(p, w, fs) =>
        var _ := state.PopInterrupt();
        if p.None? {
          state.ClearPlaylist();
        } else {
          Persist(p.value, w);
          BringIn(p.value, fs);
        }
      case ReloadPlaylist =>
        state.ResetQueue();
        StartPlayback();
    }

    method HandleUpdated(p: CS.Snapshot, w: CS.Writes, fs: seq<CS.Fetch>)
      requires LruSpec.Valid(lru.S())
      modifies this, state, state.queue, lru
      ensures S() == CS.HandleUpdated(old(S()), Cfg(), p, w, fs)
    {
      var same := IsPlaylistUnchanged(p);
      if same { return; }
      var hasCurrent := CS.Playing(Queue(p.items, None, false, None), state.currentMedia);
      state.UpdatePlaylist(p.playlistId, p.items, p.loopEnabled);
      Persist(p, w);
      PinPlaylistItems(p.items);
      var ready := DownloadBatch(p.items, fs);
      if !hasCurrent && ready > 0 {
        StartPlayback();
      }
    }

    /** Queue the playlist, swap the pins, then download; the order that keeps its files safe. */
    method BringIn(p: CS.Snapshot, fs: seq<CS.Fetch>)
      requires LruSpec.Valid(lru.S())
      modifies state, state.queue, lru
      ensures S() == CS.Activate(old(S()), Cfg(), p, fs)
    {
      state.UpdatePlaylist(p.playlistId, p.items, p.loopEnabled);
      PinPlaylistItems(p.items);
      if p.items == [] {
        return;
      }
      if CacheName(p.items[0].mediaId, p.items[0].filename) in lru.files {
        StartPlayback();
      } else {
        var ready := DownloadBatch(p.items, fs);
        if ready > 0 {
          StartPlayback();
        }
      }
    }

    method PinPlaylistItems(items: seq<PlaylistItem>)
      modifies lru`pinned
      ensures lru.S() == old(lru.S()).(pinned := CS.Ids(items))
    {
      lru.ReplacePins(ItemIds(items));
      ItemIdsAreIds(items);
    }

    method StartPlayback()
      modifies state, state.queue
      ensures state.S() == CS.StartPlayback(old(state.S()))
    {
      if state.queue.items == [] {
        return;
      }
      if QueueSpec.ItemAt(Queue(state.queue.items, None, false, None), state.queue.currentIndex).None? {
        var _ := state.NextItem();
      }
    }

    method IsPlaylistUnchanged(p: CS.Snapshot) returns (same: bool)
      ensures same == CS.Unchanged(state.S(), p)
    {
      if state.playlistId != Some(p.playlistId) || |state.queue.items| != |p.items| {
        return false;
      }
      for i := 0 to |p.items|
        invariant forall j | 0 <= j < i ::
                    && state.queue.items[j].mediaId == p.items[j].mediaId
                    && state.queue.items[j].orderIndex == p.items[j].orderIndex
      {
        if state.queue.items[i].mediaId != p.items[i].mediaId
           || state.queue.items[i].orderIndex != p.items[i].orderIndex {
          return false;
        }
      }
      same := true;
    }

    method Persist(p: CS.Snapshot, w: CS.Writes)
      modifies this
      ensures S() == CS.Persist(old(S()), Cfg(), p, w)
    {
      if !storing {
        return;
      }
      if w.legacy {
        saved := Some(p);
      }
      if w.versioned {
        versioned := versioned[p.playlistId := p];
      }
    }

    /** `download_media`: make room if the size is known, then write by way of the partial file. */
    method DownloadItem(item: PlaylistItem, f: CS.Fetch) returns (ok: bool)
      requires LruSpec.Valid(lru.S())
      modifies lru
      ensures (lru.S(), ok) == CS.FetchItem(old(lru.S()), lru.cfg.max, item, f)
      ensures LruSpec.Valid(lru.S())
    {
      if f.AlreadyValid? {
        return true;
      }
      if f.head.Some? {
        ok := lru.EnsureRoomFor(f.head.value, f.readings);
        if !ok {
          return false;
        }
      }
      var final := CacheName(item.mediaId, item.filename);
      var temp := TempName(final);
      if f.received.Some? {
        lru.files := lru.files - {temp};
        lru.files := lru.files[final := f.received.value];
        return true;
      }
      lru.files := if f.left.Some? then lru.files[temp := f.left.value] else lru.files - {temp};
      ok := false;
    }

    method DownloadBatch(items: seq<PlaylistItem>, fs: seq<CS.Fetch>) returns (ready: nat)
      requires LruSpec.Valid(lru.S())
      modifies lru
      ensures (lru.S(), ready) == CS.FetchAll(old(lru.S()), lru.cfg.max, items, fs)
      ensures LruSpec.Valid(lru.S())
    {
      ready := 0;
      var i := 0;
      ghost var whole := CS.FetchAll(lru.S(), lru.cfg.max, items, fs);
      while i < |items| && i < |fs|
        invariant i <= |items| && i <= |fs|
        invariant LruSpec.Valid(lru.S())
        invariant var rest := CS.FetchAll(lru.S(), lru.cfg.max, items[i..], fs[i..]);
                  rest.0 == whole.0 && ready + rest.1 == whole.1
      {
        var ok := DownloadItem(items[i], fs[i]);
        assert items[i..][1..] == items[i + 1..] && fs[i..][1..] == fs[i + 1..];
        if ok {
          ready := ready + 1;
        }
        i := i + 1;
      }
    }
  }

  function ItemIds(items: seq<PlaylistItem>): seq<MediaId> {
    seq(|items|, i requires 0 <= i < |items| => items[i].mediaId)
  }

  lemma ItemIdsAreIds(items: seq<PlaylistItem>)
    ensures (set id | id in ItemIds(items)) == CS.Ids(items)
  {
    forall id | id in CS.Ids(items) ensures id in ItemIds(items) {
      var i :| 0 <= i < |items| && items[i].mediaId == id;
      assert ItemIds(items)[i] == id;
    }
  }
}
