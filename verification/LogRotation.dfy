/** Log rotation of client/src/logging.rs over the live log and its numbered slots. */
module LogRotation {
  import opened Options

  type Content = string

  function Max(a: nat, b: nat): nat { if a < b then b else a }

  ghost predicate SameAt(a: map<nat, Content>, i: nat, b: map<nat, Content>, j: nat) {
    (i in a <==> j in b) && (i in a ==> a[i] == b[j])
  }

  ghost predicate MovesUp(a: map<nat, Content>, j: nat, b: map<nat, Content>) { SameAt(a, j, b, j + 1) }

  ghost predicate Stays(a: map<nat, Content>, j: nat, b: map<nat, Content>) { SameAt(a, j, b, j) }

  /** The rotated set: the live log in slot 1, every kept slot one further. */
  ghost predicate IsShift(slots: map<nat, Content>, live: Content, maxFiles: nat, after: map<nat, Content>) {
    && 1 in after && after[1] == live
    && (forall j: nat | 1 <= j < maxFiles :: MovesUp(slots, j, after))
    && (forall j: nat | j > Max(1, maxFiles) :: Stays(slots, j, after))
    && (if maxFiles == 0 then 0 !in after else Stays(slots, 0, after))
  }

  /** A shift that stopped at slot `at`: the slots above it are moved, it and those below are not. */
  ghost predicate IsStuck(slots: map<nat, Content>, at: nat, maxFiles: nat, after: map<nat, Content>) {
    && at <= maxFiles
    && (forall j: nat | at < j < maxFiles :: MovesUp(slots, j, after))
    && (forall j: nat | (j <= at || j > maxFiles) && j != maxFiles :: Stays(slots, j, after))
    && (if at < maxFiles then at + 1 !in after else maxFiles !in after)
  }

  /**
   * The live log and its slots. `stuck` are the slots whose file the operating system will not
   * move or remove.
   */
  class LogDir {
    var live: Option<Content>
    var slots: map<nat, Content>

    constructor (live: Option<Content>, slots: map<nat, Content>)
      ensures this.live == live && this.slots == slots
    {
      this.live, this.slots := live, slots;
    }

    /** Moves every kept slot one up, highest first; stops at the first that does not move. */
    method ShiftSlots(maxFiles: nat, stuck: set<nat>) returns (at: nat)
      requires maxFiles !in slots
      modifies this`slots
      ensures IsStuck(old(slots), at, maxFiles, slots)
      ensures at > 0 ==> at < maxFiles && at in old(slots) && at in stuck
      ensures forall j | at < j < maxFiles && j in old(slots) :: j !in stuck
    {
      ghost var start := slots;
      at := if maxFiles == 0 then 0 else maxFiles - 1;
      while at >= 1
        invariant 0 <= at <= maxFiles && (maxFiles > 0 ==> at < maxFiles)
        invariant IsStuck(start, at, maxFiles, slots)
        invariant forall j | at < j < maxFiles && j in start :: j !in stuck
      {
        StuckStep(start, at, maxFiles, slots);
        if at in slots {
          if at in stuck {
            return;
          }
          slots := slots[at + 1 := slots[at]] - {at};
        }
        at := at - 1;
      }
    }

    /** Fails, with the slots shifted as far as they moved, when a file is missing or does not move. */
    method Rotate(maxFiles: nat, stuck: set<nat>, liveStuck: bool) returns (ok: bool)
      modifies this
      ensures ok <==> && old(live).Some? && !liveStuck
                      && (maxFiles in old(slots) ==> maxFiles !in stuck)
                      && forall j | 1 <= j < maxFiles && j in old(slots) :: j !in stuck
      ensures ok ==> live == None && IsShift(old(slots), old(live).value, maxFiles, slots)
      ensures !ok ==> live == old(live)
      ensures !ok ==> slots == old(slots) || exists at :: IsStuck(old(slots), at, maxFiles, slots)
    {
      if maxFiles in slots {
        if maxFiles in stuck {
          return false;
        }
        slots := slots - {maxFiles};
      }
      ghost var start := slots;
      var at := ShiftSlots(maxFiles, stuck);
      StuckWithoutOldest(old(slots), start, at, maxFiles, slots);
      if at > 0 || live.None? || liveStuck {
        return false;
      }
      StuckAtNothingIsShift(old(slots), live.value, maxFiles, slots);
      slots := slots[1 := live.value];
      live := None;
      ok := true;
    }
  }

  lemma StuckStep(start: map<nat, Content>, at: nat, maxFiles: nat, slots: map<nat, Content>)
    requires 1 <= at < maxFiles && IsStuck(start, at, maxFiles, slots)
    ensures at in slots <==> at in start
    ensures IsStuck(start, at - 1, maxFiles, if at in slots then slots[at + 1 := slots[at]] - {at} else slots)
  {
    var moved := if at in slots then slots[at + 1 := slots[at]] - {at} else slots;
    assert Stays(start, at, slots);
    forall j: nat | at - 1 < j < maxFiles ensures MovesUp(start, j, moved) {
      if j > at { assert MovesUp(start, j, slots); }
    }
    forall j: nat | (j <= at - 1 || j > maxFiles) && j != maxFiles ensures Stays(start, j, moved) {
      assert Stays(start, j, slots);
    }
  }

  lemma StuckWithoutOldest(slots: map<nat, Content>, start: map<nat, Content>, at: nat, maxFiles: nat,
                           after: map<nat, Content>)
    requires start == slots - {maxFiles} && IsStuck(start, at, maxFiles, after)
    ensures IsStuck(slots, at, maxFiles, after)
  {
    forall j: nat | at < j < maxFiles ensures MovesUp(slots, j, after) {
      assert MovesUp(start, j, after);
    }
    forall j: nat | (j <= at || j > maxFiles) && j != maxFiles ensures Stays(slots, j, after) {
      assert Stays(start, j, after);
    }
  }

  lemma StuckAtNothingIsShift(slots: map<nat, Content>, live: Content, maxFiles: nat, after: map<nat, Content>)
    requires IsStuck(slots, 0, maxFiles, after)
    ensures IsShift(slots, live, maxFiles, after[1 := live])
  {
    var full := after[1 := live];
    assert maxFiles != 0 ==> Stays(slots, 0, after);
    forall j: nat | 1 <= j < maxFiles ensures MovesUp(slots, j, full) {
      assert MovesUp(slots, j, after);
    }
    forall j: nat | j > Max(1, maxFiles) ensures Stays(slots, j, full) {
      assert Stays(slots, j, after);
    }
  }

  // ---------------------------------------------------------------- what failures leave

  /** Lower slots hold newer logs. */
  ghost predicate NewestFirst(slots: map<nat, Content>, stamp: Content -> int) {
    forall i, j | i in slots && j in slots && i < j :: stamp(slots[i]) > stamp(slots[j])
  }

  /** Where a log of slot `j` is after a shift that got stuck at `at`. */
  function MovedTo(j: nat, at: nat, maxFiles: nat): nat { if at < j < maxFiles then j + 1 else j }

  /**
   * A rotation that fails half way loses no log but the one of the oldest slot, and leaves the
   * rest newest first, so a later rotation takes up from there.
   */
  lemma FailureKeepsLogs(slots: map<nat, Content>, at: nat, maxFiles: nat, after: map<nat, Content>, stamp: Content -> int)
    requires IsStuck(slots, at, maxFiles, after)
    ensures forall j | j in slots && j != maxFiles :: SameAt(slots, j, after, MovedTo(j, at, maxFiles))
    ensures NewestFirst(slots, stamp) ==> NewestFirst(after, stamp)
  {
    forall j | j in slots && j != maxFiles ensures SameAt(slots, j, after, MovedTo(j, at, maxFiles)) {
      if at < j < maxFiles {
        assert MovesUp(slots, j, after);
      } else {
        assert Stays(slots, j, after);
      }
    }
    if NewestFirst(slots, stamp) {
      forall i, j | i in after && j in after && i < j ensures stamp(after[i]) > stamp(after[j]) {
        var i0 := CameFrom(slots, at, maxFiles, after, i);
        var j0 := CameFrom(slots, at, maxFiles, after, j);
        assert at < maxFiles ==> i != at + 1;
        assert i0 < j0;
      }
    }
  }

  lemma CameFrom(slots: map<nat, Content>, at: nat, maxFiles: nat, after: map<nat, Content>, i: nat) returns (i0: nat)
    requires IsStuck(slots, at, maxFiles, after) && i in after
    ensures i0 == (if at + 1 < i <= maxFiles then i - 1 else i) && i0 in slots && slots[i0] == after[i]
  {
    i0 := if at + 1 < i <= maxFiles then i - 1 else i;
    if at + 1 < i <= maxFiles {
      assert MovesUp(slots, i - 1, after);
    } else {
      assert i != maxFiles;
      assert Stays(slots, i, after);
    }
  }

  /** `states[k]` are the slots after `k` rotations, of `logs[0]` first, starting from no slots. */
  ghost predicate IsHistory(logs: seq<Content>, maxFiles: nat, states: seq<map<nat, Content>>) {
    && |states| == |logs| + 1 && states[0] == map[]
    && forall k | 0 <= k < |logs| :: IsShift(states[k], logs[k], maxFiles, states[k + 1])
  }

  /** `slots` hold the newest logs, newest in slot 1, as many as are kept, and nothing else. */
  ghost predicate HoldsNewest(slots: map<nat, Content>, logs: seq<Content>, maxFiles: nat) {
    && (forall j :: j in slots <==> 1 <= j <= |logs| && j <= Max(1, maxFiles))
    && (forall j | j in slots :: slots[j] == logs[|logs| - j])
  }

  lemma ShiftHoldsNewest(before: map<nat, Content>, logs: seq<Content>, live: Content, maxFiles: nat,
                         after: map<nat, Content>)
    requires HoldsNewest(before, logs, maxFiles) && IsShift(before, live, maxFiles, after)
    ensures HoldsNewest(after, logs + [live], maxFiles)
  {
    forall j: nat
      ensures j in after <==> 1 <= j <= |logs| + 1 && j <= Max(1, maxFiles)
      ensures j in after ==> after[j] == (logs + [live])[|logs| + 1 - j]
    {
      if 2 <= j <= maxFiles {
        assert MovesUp(before, j - 1, after);
      } else if j > Max(1, maxFiles) {
        assert Stays(before, j, after);
      }
    }
  }

  /**
   * After k rotations slot j holds the j-th most recently rotated log for every
   * j <= min(k, max(1, maxFiles)), and no other slot exists.
   */
  lemma {:induction false} RotationKeepsNewest(logs: seq<Content>, maxFiles: nat, states: seq<map<nat, Content>>, k: nat)
    requires IsHistory(logs, maxFiles, states) && k <= |logs|
    ensures HoldsNewest(states[k], logs[..k], maxFiles)
  {
    if k > 0 {
      var front, live := logs[..k - 1], logs[k - 1];
      assert logs[..k] == front + [live];
      RotationKeepsNewest(logs, maxFiles, states, k - 1);
      ShiftHoldsNewest(states[k - 1], front, live, maxFiles, states[k]);
    }
  }
}
