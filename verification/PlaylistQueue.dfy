/** The playlist queue of client/src/playback/queue.rs, updated in place. */
module PlaylistQueue {
  import opened Options
  import opened CacheNames
  import opened QueueSpec

  class PlaylistQueue {
    var items: seq<PlaylistItem>
    var currentIndex: Option<nat>
    var loopEnabled: bool
    var playlistId: Option<nat>

    ghost function S(): Queue
      reads this
    {
      Queue(items, currentIndex, loopEnabled, playlistId)
    }

    constructor ()
      ensures S() == Queue([], None, false, None) && QueueSpec.Valid(S())
    {
      items, currentIndex, loopEnabled, playlistId := [], None, false, None;
    }

    method Next() returns (item: Option<PlaylistItem>)
      modifies this`currentIndex
      ensures (S(), item) == QueueSpec.Next(old(S()))
      ensures old(QueueSpec.Valid(S())) ==> QueueSpec.Valid(S()) && item == QueueSpec.ItemAt(S(), currentIndex)
    {
      if items == [] {
        return None;
      }
      var nextIndex: Option<nat>;
      match currentIndex {
        case None => nextIndex := Some(0);
        case Some(idx) =>
          var next := idx + 1;
          if next >= |items| {
            nextIndex := if loopEnabled then Some(0) else None;
          } else {
            nextIndex := Some(next);
          }
      }
      currentIndex := nextIndex;
      item := if nextIndex.Some? && nextIndex.value < |items| then Some(items[nextIndex.value]) else None;
    }

    method Previous() returns (item: Option<PlaylistItem>)
      modifies this`currentIndex
      ensures (S(), item) == QueueSpec.Previous(old(S()))
      ensures old(QueueSpec.Valid(S())) ==> QueueSpec.Valid(S()) && (items != [] ==> item == QueueSpec.ItemAt(S(), currentIndex))
    {
      if items == [] {
        return None;
      }
      var prevIndex: nat;
      match currentIndex {
        case None => prevIndex := 0;
        case Some(idx) =>
          if idx == 0 {
            prevIndex := if loopEnabled then |items| - 1 else 0;
          } else {
            prevIndex := idx - 1;
          }
      }
      currentIndex := Some(prevIndex);
      item := if prevIndex < |items| then Some(items[prevIndex]) else None;
    }

    method JumpTo(index: nat) returns (item: Option<PlaylistItem>)
      modifies this`currentIndex
      ensures S() == if index < |items| then old(S()).(index := Some(index)) else old(S())
      ensures item == if index < |items| then Some(items[index]) else None
      ensures old(QueueSpec.Valid(S())) ==> QueueSpec.Valid(S())
    {
      if index >= |items| {
        return None;
      }
      currentIndex := Some(index);
      item := Some(items[index]);
    }

    method Reset()
      modifies this`currentIndex
      ensures S() == old(S()).(index := if items != [] then Some(0) else None)
      ensures QueueSpec.Valid(S())
    {
      currentIndex := if items != [] then Some(0) else None;
    }

    method SetLoop(enabled: bool)
      modifies this`loopEnabled
      ensures S() == old(S()).(loopEnabled := enabled)
    {
      loopEnabled := enabled;
    }

    method UpdateItems(newItems: seq<PlaylistItem>, id: nat)
      modifies this`items, this`currentIndex, this`playlistId
      ensures S() == QueueSpec.UpdateItems(old(S()), newItems, id) && QueueSpec.Valid(S())
    {
      items, playlistId, currentIndex := newItems, Some(id), None;
    }

    method Clear()
      modifies this`items, this`currentIndex, this`playlistId
      ensures S() == Queue([], None, old(loopEnabled), None) && QueueSpec.Valid(S())
    {
      items, currentIndex, playlistId := [], None, None;
    }
  }
}
