/**
 * The async semaphore of server/src/utils/semaphore.ts. An `acquire` that has to wait runs in two
 * parts: it queues its resolver, and it counts itself in only when its continuation runs again.
 * `woken` holds the waiters whose promise is resolved and whose continuation has not run yet, in
 * the order the event loop will run them.
 */
module Semaphore {

  type Waiter = nat

  datatype State = State(max: nat, active: int, queue: seq<Waiter>, woken: seq<Waiter>)

  datatype Step = Acquire(who: Waiter) | Release | Resume

  /** A release is called by a holder; a continuation runs only after it was resolved. */
  predicate Enabled(s: State, step: Step) {
    match step
    case Acquire(w) => true
    case Release => s.active > 0
    case Resume => s.woken != []
  }

  function Do(s: State, step: Step): State {
    match step
    case Acquire(w) => if s.active < s.max then s.(active := s.active + 1) else s.(queue := s.queue + [w])
    case Release =>
      if s.queue == [] then s.(active := s.active - 1)
      else s.(active := s.active - 1, queue := s.queue[1..], woken := s.woken + [s.queue[0]])
    case Resume => if s.woken == [] then s else s.(active := s.active + 1, woken := s.woken[1..])
  }

  class Semaphore {
    const max: nat
    var active: int
    var queue: seq<Waiter>
    var woken: seq<Waiter>

    ghost function S(): State
      reads this
    {
      State(max, active, queue, woken)
    }

    constructor (max: nat)
      requires max >= 1
      ensures S() == State(max, 0, [], []) && Inv(S()) && Load(S()) == 0
    {
      this.max, active, queue, woken := max, 0, [], [];
    }

    /** The source's constructor refuses a maximum below one. */
    static method Create(max: int) returns (s: Semaphore?)
      ensures s != null <==> max >= 1
      ensures s != null ==> fresh(s) && s.S() == State(max, 0, [], [])
    {
      if max < 1 {
        return null;
      }
      s := new Semaphore(max);
    }

    /** The part of `acquire` up to its await; `granted` when there is none. */
    method Acquire(who: Waiter) returns (granted: bool)
      modifies this
      ensures S() == Do(old(S()), Step.Acquire(who))
      ensures granted <==> active == old(active) + 1
      ensures old(Inv(S())) ==> Inv(S())
    {
      if active < max {
        active := active + 1;
        return true;
      }
      queue := queue + [who];
      granted := false;
    }

    /** The part of `acquire` after its await. */
    method Resume() returns (who: Waiter)
      requires woken != []
      modifies this
      ensures S() == Do(old(S()), Step.Resume) && who == old(woken)[0]
      ensures old(Inv(S())) ==> Inv(S())
    {
      who := woken[0];
      woken := woken[1..];
      active := active + 1;
    }

    method Release()
      requires active > 0
      modifies this
      ensures S() == Do(old(S()), Step.Release)
      ensures old(Inv(S())) ==> Inv(S())
    {
      active := active - 1;
      if queue != [] {
        var next := queue[0];
        queue := queue[1..];
        woken := woken + [next];
      }
    }
  }

  // ---------------------------------------------------------------- runs

  ghost predicate Runs(s: State, steps: seq<Step>)
    decreases |steps|
  {
    steps == [] || (Enabled(s, steps[0]) && Runs(Do(s, steps[0]), steps[1..]))
  }

  function After(s: State, steps: seq<Step>): State
    decreases |steps|
  {
    if steps == [] then s else After(Do(s, steps[0]), steps[1..])
  }

  /** Holders, and waiters that are on their way in. */
  function Load(s: State): int { s.active + |s.woken| }

  /** No lost wake-up: someone waits only while every slot is held or on its way to a waiter. */
  ghost predicate Inv(s: State) { s.active >= 0 && (s.queue != [] ==> Load(s) >= s.max) }

  lemma {:induction false} NoLostWakeUp(s: State, steps: seq<Step>)
    requires Inv(s) && Runs(s, steps)
    ensures Inv(After(s, steps))
    decreases |steps|
  {
    if steps != [] { NoLostWakeUp(Do(s, steps[0]), steps[1..]); }
  }

  /** Who queued, who was woken and who resumed during a run, each in order. */
  datatype Trace = Trace(queued: seq<Waiter>, woken: seq<Waiter>, resumed: seq<Waiter>)

  function TraceOf(s: State, steps: seq<Step>): Trace
    decreases |steps|
  {
    if steps == [] then Trace([], [], [])
    else
      var rest := TraceOf(Do(s, steps[0]), steps[1..]);
      match steps[0]
      case Acquire(w) => if s.active < s.max then rest else rest.(queued := [w] + rest.queued)
      case Release => if s.queue == [] then rest else rest.(woken := [s.queue[0]] + rest.woken)
      case Resume => if s.woken == [] then rest else rest.(resumed := [s.woken[0]] + rest.resumed)
  }

  lemma Shift(x: Waiter, a: seq<Waiter>, b: seq<Waiter>)
    ensures a + ([x] + b) == (a + [x]) + b && ([x] + a) + b == [x] + (a + b)
  {
  }

  /** Waiters are woken in the order they queued. */
  lemma {:induction false} WokenAsQueued(s: State, steps: seq<Step>)
    ensures s.queue + TraceOf(s, steps).queued == TraceOf(s, steps).woken + After(s, steps).queue
    decreases |steps|
  {
    if steps != [] {
      var s1 := Do(s, steps[0]);
      var rest, u := TraceOf(s1, steps[1..]), After(s1, steps[1..]);
      WokenAsQueued(s1, steps[1..]);
      if steps[0].Acquire? {
        Shift(steps[0].who, s.queue, rest.queued);
      } else if steps[0].Release? && s.queue != [] {
        Shift(s.queue[0], s.queue[1..], rest.queued);
        Shift(s.queue[0], rest.woken, u.queue);
        assert s.queue == [s.queue[0]] + s.queue[1..];
      }
    }
  }

  /** Waiters resume in the order they were woken. */
  lemma {:induction false} ResumedAsWoken(s: State, steps: seq<Step>)
    ensures s.woken + TraceOf(s, steps).woken == TraceOf(s, steps).resumed + After(s, steps).woken
    decreases |steps|
  {
    if steps != [] {
      var s1 := Do(s, steps[0]);
      var rest, u := TraceOf(s1, steps[1..]), After(s1, steps[1..]);
      ResumedAsWoken(s1, steps[1..]);
      if steps[0].Release? && s.queue != [] {
        Shift(s.queue[0], s.woken, rest.woken);
      } else if steps[0].Resume? && s.woken != [] {
        Shift(s.woken[0], s.woken[1..], rest.woken);
        Shift(s.woken[0], rest.resumed, u.woken);
        assert s.woken == [s.woken[0]] + s.woken[1..];
      }
    }
  }

  // ---------------------------------------------------------------- the books

  /** Acquires of the run that were granted at once. */
  function Granted(s: State, steps: seq<Step>): nat
    decreases |steps|
  {
    if steps == [] then 0
    else (if steps[0].Acquire? && s.active < s.max then 1 else 0) + Granted(Do(s, steps[0]), steps[1..])
  }

  function Releases(steps: seq<Step>): nat {
    if steps == [] then 0 else (if steps[0].Release? then 1 else 0) + Releases(steps[1..])
  }

  /**
   * Over any run the holders are those at its start, plus the acquires granted at once and the
   * waiters resumed, minus the releases; so a release with nobody waiting frees its slot.
   */
  lemma {:induction false} HoldersAddUp(s: State, steps: seq<Step>)
    ensures After(s, steps).active + Releases(steps) == s.active + Granted(s, steps) + |TraceOf(s, steps).resumed|
    decreases |steps|
  {
    if steps != [] { HoldersAddUp(Do(s, steps[0]), steps[1..]); }
  }

  /** Every waiter is counted once: those who queued are resumed, woken or still waiting. */
  lemma {:induction false} WaitersAddUp(s: State, steps: seq<Step>)
    ensures |s.queue| + |s.woken| + |TraceOf(s, steps).queued|
         == |TraceOf(s, steps).resumed| + |After(s, steps).woken| + |After(s, steps).queue|
  {
    WokenAsQueued(s, steps);
    ResumedAsWoken(s, steps);
    var t, u := TraceOf(s, steps), After(s, steps);
    assert |s.queue + t.queued| == |t.woken + u.queue| && |s.woken + t.woken| == |t.resumed + u.woken|;
  }

  // ---------------------------------------------------------------- the bound

  /** An acquire that takes the slot a woken waiter is on its way to. */
  predicate Barges(s: State, step: Step) {
    step.Acquire? && s.active < s.max && Load(s) >= s.max
  }

  ghost predicate NoBarging(s: State, steps: seq<Step>)
    decreases |steps|
  {
    steps == [] || (!Barges(s, steps[0]) && NoBarging(Do(s, steps[0]), steps[1..]))
  }

  /** One step keeps the load within the maximum if and only if it does not barge. */
  lemma StepKeepsLoadIff(s: State, step: Step)
    requires Inv(s) && Enabled(s, step) && Load(s) <= s.max
    ensures Load(Do(s, step)) <= s.max <==> !Barges(s, step)
  {
  }

  /** Without barging, no run ever has more holders than the maximum. */
  lemma {:induction false} BoundWithoutBarging(s: State, steps: seq<Step>)
    requires Inv(s) && Runs(s, steps) && Load(s) <= s.max && NoBarging(s, steps)
    ensures After(s, steps).active <= s.max && Load(After(s, steps)) <= s.max && After(s, steps).max == s.max
    decreases |steps|
  {
    if steps != [] {
      StepKeepsLoadIff(s, steps[0]);
      BoundWithoutBarging(Do(s, steps[0]), steps[1..]);
    }
  }

  /** In particular when no acquire runs between a waking release and that waiter's resumption. */
  ghost predicate AcquiresOnlyWhenSettled(s: State, steps: seq<Step>)
    decreases |steps|
  {
    steps == [] || ((steps[0].Acquire? ==> s.woken == []) && AcquiresOnlyWhenSettled(Do(s, steps[0]), steps[1..]))
  }

  lemma {:induction false} SettledRunsDoNotBarge(s: State, steps: seq<Step>)
    requires AcquiresOnlyWhenSettled(s, steps)
    ensures NoBarging(s, steps)
    decreases |steps|
  {
    if steps != [] { SettledRunsDoNotBarge(Do(s, steps[0]), steps[1..]); }
  }

  function Resumes(n: nat): seq<Step> { if n == 0 then [] else [Resume] + Resumes(n - 1) }

  /**
   * The overshoot is real: letting the woken waiters in exceeds the maximum if and only if the
   * load does, so one barging acquire is enough.
   */
  lemma {:induction false} SettlingReachesLoad(s: State)
    ensures Runs(s, Resumes(|s.woken|))
    ensures After(s, Resumes(|s.woken|)) == s.(active := Load(s), woken := [])
    ensures After(s, Resumes(|s.woken|)).active > s.max <==> Load(s) > s.max
    decreases |s.woken|
  {
    if s.woken != [] {
      var rest := Resumes(|s.woken| - 1);
      assert Resumes(|s.woken|)[1..] == rest;
      SettlingReachesLoad(Do(s, Resume));
    }
  }

  ghost predicate NoAcquire(steps: seq<Step>) { forall step | step in steps :: !step.Acquire? }

  /** From the `k`-th step of the run, without another acquire, more holders than the maximum. */
  ghost predicate Overshoots(s: State, steps: seq<Step>, k: nat, more: seq<Step>) {
    && k <= |steps| && NoAcquire(more)
    && Runs(After(s, steps[..k]), more) && After(After(s, steps[..k]), more).active > s.max
  }

  lemma {:induction false} NoAcquireDoesNotBarge(s: State, steps: seq<Step>)
    requires NoAcquire(steps)
    ensures NoBarging(s, steps)
    decreases |steps|
  {
    if steps != [] { NoAcquireDoesNotBarge(Do(s, steps[0]), steps[1..]); }
  }

  lemma {:induction false} PrefixKeeps(s: State, steps: seq<Step>, k: nat)
    requires k <= |steps| && Runs(s, steps) && NoBarging(s, steps)
    ensures Runs(s, steps[..k]) && NoBarging(s, steps[..k])
    decreases |steps|
  {
    if k > 0 {
      assert steps[..k][1..] == steps[1..][..k - 1];
      PrefixKeeps(Do(s, steps[0]), steps[1..], k - 1);
    }
  }

  lemma ResumesAcquireNothing(n: nat)
    ensures NoAcquire(Resumes(n))
  {
    if n > 0 { ResumesAcquireNothing(n - 1); }
  }

  lemma {:induction false} BargingRunOvershoots(s: State, steps: seq<Step>) returns (k: nat, more: seq<Step>)
    requires Inv(s) && Runs(s, steps) && Load(s) <= s.max && !NoBarging(s, steps)
    ensures Overshoots(s, steps, k, more)
    decreases |steps|
  {
    var s1 := Do(s, steps[0]);
    StepKeepsLoadIff(s, steps[0]);
    if Barges(s, steps[0]) {
      k, more := 1, Resumes(|s1.woken|);
      assert After(s, steps[..1]) == After(s1, steps[..1][1..]) == s1;
      SettlingReachesLoad(s1);
      ResumesAcquireNothing(|s1.woken|);
    } else {
      var k1, rest := BargingRunOvershoots(s1, steps[1..]);
      k, more := k1 + 1, rest;
      assert steps[..k][1..] == steps[1..][..k1];
    }
  }

  /**
   * Over whole runs: at some point of the run, letting holders leave and woken waiters in, without
   * another acquire, takes the holders over the maximum, if and only if the run barges.
   */
  lemma OvershootsIffBarges(s: State, steps: seq<Step>)
    requires Inv(s) && Runs(s, steps) && Load(s) <= s.max
    ensures (exists k: nat, more: seq<Step> :: Overshoots(s, steps, k, more)) <==> !NoBarging(s, steps)
  {
    if !NoBarging(s, steps) {
      var k, more := BargingRunOvershoots(s, steps);
    } else {
      forall k: nat, more: seq<Step> ensures !Overshoots(s, steps, k, more) {
        if k <= |steps| && NoAcquire(more) && Runs(After(s, steps[..k]), more) {
          PrefixKeeps(s, steps, k);
          BoundWithoutBarging(s, steps[..k]);
          NoLostWakeUp(s, steps[..k]);
          NoAcquireDoesNotBarge(After(s, steps[..k]), more);
          BoundWithoutBarging(After(s, steps[..k]), more);
        }
      }
    }
  }

  /** Two waiters inside a semaphore of one. */
  lemma BargingOvershoots()
    ensures var steps := [Acquire(1), Acquire(2), Release, Acquire(3), Resume];
            Runs(State(1, 0, [], []), steps) && After(State(1, 0, [], []), steps).active == 2
  {
    var s1 := Do(State(1, 0, [], []), Acquire(1));
    var s2 := Do(s1, Acquire(2));
    var s3 := Do(s2, Release);
    var s4 := Do(s3, Acquire(3));
    assert s4 == State(1, 1, [], [2]);
    var steps := [Acquire(1), Acquire(2), Release, Acquire(3), Resume];
    assert steps[1..][1..] == [Release, Acquire(3), Resume];
    assert steps[1..][1..][1..] == [Acquire(3), Resume];
    assert steps[1..][1..][1..][1..] == [Resume];
    assert Runs(s4, [Resume]) && After(s4, [Resume]).active == 2;
    assert Runs(s3, [Acquire(3), Resume]) && After(s3, [Acquire(3), Resume]).active == 2;
    assert Runs(s2, [Release, Acquire(3), Resume]) && After(s2, [Release, Acquire(3), Resume]).active == 2;
  }
}
