/**
 * Schedule evaluation, twice: the server's trigger test and simulator
 * (server/src/services/schedule.service.ts) and the client's offline evaluator
 * (client/src/state/schedule_eval.rs). Moments are local milliseconds on a calendar of 24-hour
 * days that starts on a Thursday. Condition and cron answers are parameters.
 */
module Schedule {
  import opened Options
  import opened Text

  const MINUTE: int := 60000
  const DAY: int := 86400000

  datatype Schedule = Schedule(
    id: int,
    priority: int,
    enabled: bool,
    startTime: Option<string>,
    endTime: Option<string>,
    days: string,
    hasCron: bool,
    eventTriggered: bool)

  /** What the parts outside this model answer at each moment. */
  datatype Answers = Answers(conditions: int -> bool, cronFired: int -> bool)

  // ---------------------------------------------------------------- clock

  function MinuteOfDay(t: int): nat { (t % DAY) / MINUTE }

  /** Sunday is 0. */
  function DayOfWeek(t: int): nat { (t / DAY + 4) % 7 }

  function TwoDigits(n: nat): string
    requires n < 100
  {
    [Digit(n / 10), Digit(n % 10)]
  }

  /** Zero-padded HH:MM. */
  function HourMinute(m: nat): string
    requires m < 1440
  {
    TwoDigits(m / 60) + ":" + TwoDigits(m % 60)
  }

  function ClockAt(t: int): string { HourMinute(MinuteOfDay(t)) }

  lemma LessStep(c: char, a: string, d: char, b: string)
    ensures Less([c] + a, [d] + b) <==> c < d || (c == d && Less(a, b))
  {
    assert ([c] + a)[1..] == a && ([d] + b)[1..] == b;
  }

  /** On zero-padded times string order is numeric order, and the print is injective. */
  lemma ClockOrder(x: nat, y: nat)
    requires x < 1440 && y < 1440
    ensures Less(HourMinute(x), HourMinute(y)) <==> x < y
    ensures HourMinute(x) == HourMinute(y) ==> x == y
  {
    var a1, a2, a3, a4 := Digit(x / 60 / 10), Digit(x / 60 % 10), Digit(x % 60 / 10), Digit(x % 60 % 10);
    var b1, b2, b3, b4 := Digit(y / 60 / 10), Digit(y / 60 % 10), Digit(y % 60 / 10), Digit(y % 60 % 10);
    assert HourMinute(x) == [a1] + ([a2] + ([':'] + ([a3] + ([a4] + []))));
    assert HourMinute(y) == [b1] + ([b2] + ([':'] + ([b3] + ([b4] + []))));
    LessStep(a4, [], b4, []);
    LessStep(a3, [a4] + [], b3, [b4] + []);
    LessStep(':', [a3] + ([a4] + []), ':', [b3] + ([b4] + []));
    LessStep(a2, [':'] + ([a3] + ([a4] + [])), b2, [':'] + ([b3] + ([b4] + [])));
    LessStep(a1, [a2] + ([':'] + ([a3] + ([a4] + []))), b1, [b2] + ([':'] + ([b3] + ([b4] + []))));
  }

  // ---------------------------------------------------------------- allowed days

  /** JavaScript `Number` on blank and decimal tokens: blank is 0, other text is not a number. */
  function NumberOf(token: string): Option<nat> {
    var t := TrimEnd(TrimStart(token));
    var digits := if t != [] && t[0] == '+' then t[1..] else t;
    if t == [] then Some(0)
    else if digits == [] || exists c | c in digits :: !IsDigit(c) then None
    else Some(DigitsValue(digits))
  }

  predicate ServerAllows(days: string, d: nat) { exists p | p in Split(days, ',') :: NumberOf(p) == Some(d) }

  predicate ClientAllows(days: string, d: nat) {
    exists p | p in Split(days, ',') :: ParseU32(TrimEnd(TrimStart(p))) == Some(d)
  }

  predicate HasBlankDay(days: string) { exists p | p in Split(days, ',') :: TrimEnd(TrimStart(p)) == "" }

  /** The two day filters agree except that the server reads a blank entry as Sunday. */
  lemma DaysAgreeIff(days: string, d: nat)
    requires d < 7
    ensures ServerAllows(days, d) <==> ClientAllows(days, d) || (d == 0 && HasBlankDay(days))
  {
    forall p | p in Split(days, ',')
      ensures NumberOf(p) == Some(d) <==>
              ParseU32(TrimEnd(TrimStart(p))) == Some(d) || (d == 0 && TrimEnd(TrimStart(p)) == "")
    {
    }
  }

  // ---------------------------------------------------------------- printed day lists and weekdays

  /** A day list as the server stores it. */
  function Joined(days: seq<U32>): string {
    if days == [] then "" else if |days| == 1 then Decimal(days[0]) else Decimal(days[0]) + [','] + Joined(days[1..])
  }

  lemma DigitsAreNotSpace(s: string)
    requires s != "" && forall c | c in s :: IsDigit(c)
    ensures TrimEnd(TrimStart(s)) == s && ',' !in s && s[0] != '+'
  {
    assert IsDigit(s[0]) && IsDigit(s[|s| - 1]);
  }

  lemma DecimalReadsBack(n: U32)
    ensures NumberOf(Decimal(n)) == Some(n) && ParseU32(TrimEnd(TrimStart(Decimal(n)))) == Some(n) && ',' !in Decimal(n)
  {
    DecimalIsDigits(n);
    DigitsAreNotSpace(Decimal(n));
  }

  lemma {:induction false} SplitHead(a: string, b: string, sep: char)
    requires sep !in a
    ensures Split(a + [sep] + b, sep) == [a] + Split(b, sep)
  {
    var s := a + [sep] + b;
    if a == [] {
      assert s[1..] == b;
    } else {
      assert s[1..] == a[1..] + [sep] + b;
      SplitHead(a[1..], b, sep);
      assert [a[0]] + a[1..] == a;
      assert ([a[1..]] + Split(b, sep))[1..] == Split(b, sep);
    }
  }

  lemma {:induction false} SplitOfJoined(days: seq<U32>)
    requires days != []
    ensures |Split(Joined(days), ',')| == |days|
    ensures forall i | 0 <= i < |days| :: Split(Joined(days), ',')[i] == Decimal(days[i])
  {
    DecimalReadsBack(days[0]);
    if |days| == 1 {
      SplitNone(Decimal(days[0]), ',');
    } else {
      SplitHead(Decimal(days[0]), Joined(days[1..]), ',');
      SplitOfJoined(days[1..]);
    }
  }

  /** A printed list of days allows exactly its days, on the server and on the client. */
  lemma PrintedDaysAllow(days: seq<U32>, d: nat)
    requires days != []
    ensures ServerAllows(Joined(days), d) <==> d in days
    ensures ClientAllows(Joined(days), d) <==> d in days
  {
    var parts := Split(Joined(days), ',');
    SplitOfJoined(days);
    forall i | 0 <= i < |days|
      ensures NumberOf(parts[i]) == Some(days[i]) && ParseU32(TrimEnd(TrimStart(parts[i]))) == Some(days[i])
    {
      DecimalReadsBack(days[i]);
    }
    if d in days {
      var i :| 0 <= i < |days| && days[i] == d;
      assert parts[i] in parts;
    }
  }

  /** Day zero of the calendar is a Thursday, the day does not change within it, and the next is the next. */
  lemma WeekdayAdvances(t: int)
    ensures 0 <= t < DAY ==> DayOfWeek(t) == 4
    ensures t % DAY + 1 < DAY ==> DayOfWeek(t + 1) == DayOfWeek(t)
    ensures DayOfWeek(t + DAY) == if DayOfWeek(t) == 6 then 0 else DayOfWeek(t) + 1
  {
    assert (t + DAY) / DAY == t / DAY + 1;
    if t % DAY + 1 < DAY { assert (t + 1) / DAY == t / DAY; }
  }

  // ---------------------------------------------------------------- the server

  /** JavaScript truthiness of a nullable string. */
  predicate Given(s: Option<string>) { s.Some? && s.value != "" }

  predicate IsScheduleActive(s: Schedule, env: Answers, now: int) {
    && s.enabled
    && !s.eventTriggered
    && env.conditions(now)
    && (if s.hasCron then env.cronFired(now) else
          && Given(s.startTime)
          && ServerAllows(s.days, DayOfWeek(now))
          && !Less(ClockAt(now), s.startTime.value)
          && (Given(s.endTime) ==> Less(ClockAt(now), s.endTime.value)))
  }

  predicate Triggers(s: Schedule, env: Answers, now: int) {
    IsScheduleActive(s, env, now) && (s.hasCron || s.startTime == Some(ClockAt(now)))
  }

  /** With a cron expression only the cron library decides when, on the server ... */
  lemma CronDecides(s: Schedule, env: Answers, now: int)
    requires s.hasCron
    ensures IsScheduleActive(s, env, now) == Triggers(s, env, now)
    ensures Triggers(s, env, now) <==> s.enabled && !s.eventTriggered && env.conditions(now) && env.cronFired(now)
  {
  }

  /** ... and on the client on an allowed day; the times play no part on either. */
  lemma CronDecidesOnClient(s: Schedule, env: Answers, now: int)
    requires s.hasCron
    ensures IsActive(s, env, now) <==> Triggers(s, env, now) && ClientAllows(s.days, DayOfWeek(now))
  {
  }

  function FindTriggering(schedules: seq<Schedule>, env: Answers, now: int): seq<Schedule> {
    if schedules == [] then []
    else (if Triggers(schedules[0], env, now) then [schedules[0]] else []) + FindTriggering(schedules[1..], env, now)
  }

  lemma {:induction false} FindTriggeringSelects(schedules: seq<Schedule>, env: Answers, now: int)
    ensures forall s :: s in FindTriggering(schedules, env, now) <==> s in schedules && Triggers(s, env, now)
  {
    if schedules != [] { FindTriggeringSelects(schedules[1..], env, now); }
  }

  /** Minutes after midnight that the simulator reads from a start time; none if it is no number. */
  function StartOffset(start: string): Option<nat> {
    var parts := Split(start, ':');
    if |parts| < 2 then None
    else
      var h, m := NumberOf(parts[0]), NumberOf(parts[1]);
      if h.None? || m.None? then None else Some(h.value * 60 + m.value)
  }

  /** The first moment the simulator looks at: the start time on the day of `from`. */
  function FirstMoment(from: int, offset: nat): int { from / DAY * DAY + offset * MINUTE }

  /** `t` is one of the moments base, base + a day, base + two days and so on. */
  ghost predicate Daily(base: int, t: int) { exists k: nat :: t == DayAfter(base, k) }

  function DayAfter(base: int, k: nat): int { base + k * DAY }

  ghost predicate Ascending(times: seq<int>) { forall i, j | 0 <= i < j < |times| :: times[i] < times[j] }

  lemma AppendAscending(times: seq<int>, t: int)
    requires Ascending(times) && forall x | x in times :: x < t
    ensures Ascending(times + [t])
  {
    assert forall i | 0 <= i < |times| :: times[i] in times;
  }

  /** A moment of the simulated range that falls on an allowed day. */
  predicate Due(s: Schedule, from: int, until: int, t: int) {
    from <= t <= until && ServerAllows(s.days, DayOfWeek(t))
  }

  /** `out` lists, ascending, the due moments among the first `n` days. */
  ghost predicate Collected(s: Schedule, from: int, until: int, base: int, n: nat, out: seq<int>) {
    && Ascending(out)
    && (forall t | t in out :: t < DayAfter(base, n) && Daily(base, t) && Due(s, from, until, t))
    && forall k: nat | k < n && Due(s, from, until, DayAfter(base, k)) :: DayAfter(base, k) in out
  }

  lemma CollectNext(s: Schedule, from: int, until: int, base: int, n: nat, out: seq<int>)
    requires Collected(s, from, until, base, n, out)
    ensures var t := DayAfter(base, n);
            Collected(s, from, until, base, n + 1, if Due(s, from, until, t) then out + [t] else out)
  {
    AppendAscending(out, DayAfter(base, n));
    assert Daily(base, DayAfter(base, n));
  }

  lemma CollectedAll(s: Schedule, from: int, until: int, base: int, n: nat, out: seq<int>)
    requires Collected(s, from, until, base, n, out) && DayAfter(base, n) > until
    ensures forall t :: t in out <==> Daily(base, t) && Due(s, from, until, t)
  {
    forall t | Daily(base, t) && Due(s, from, until, t) ensures t in out {
      var k: nat :| t == DayAfter(base, k);
      if k >= n {
        DayAfterGrows(base, n, k);
      }
    }
  }

  /** The day-stepping simulator. */
  method SimulateHhmm(s: Schedule, from: int, until: int) returns (out: seq<int>)
    ensures Ascending(out)
    ensures !Given(s.startTime) || StartOffset(s.startTime.value).None? ==> out == []
    ensures Given(s.startTime) && StartOffset(s.startTime.value).Some? ==>
              forall t :: t in out <==>
                Daily(FirstMoment(from, StartOffset(s.startTime.value).value), t) && Due(s, from, until, t)
  {
    out := [];
    if !Given(s.startTime) {
      return;
    }
    var offset := StartOffset(s.startTime.value);
    if offset.None? {
      return;
    }
    var base := FirstMoment(from, offset.value);
    var cursor := base;
    ghost var n: nat := 0;
    while cursor <= until
      invariant cursor == DayAfter(base, n) && Collected(s, from, until, base, n, out)
      decreases until - cursor
    {
      CollectNext(s, from, until, base, n, out);
      if cursor >= from && ServerAllows(s.days, DayOfWeek(cursor)) {
        out := out + [cursor];
      }
      cursor := cursor + DAY;
      n := n + 1;
    }
    CollectedAll(s, from, until, base, n, out);
  }

  lemma DayAfterGrows(base: int, n: nat, k: nat)
    requires n <= k
    ensures DayAfter(base, n) <= DayAfter(base, k)
  {
  }

  function KeepIf(times: seq<int>, p: int -> bool): seq<int> {
    if times == [] then [] else (if p(times[0]) then [times[0]] else []) + KeepIf(times[1..], p)
  }

  lemma {:induction false} KeepIfKeeps(times: seq<int>, p: int -> bool)
    ensures forall t :: t in KeepIf(times, p) <==> t in times && p(t)
  {
    if times != [] { KeepIfKeeps(times[1..], p); }
  }

  lemma PrependAscending(t: int, times: seq<int>)
    requires Ascending(times) && forall x | x in times :: t < x
    ensures Ascending([t] + times)
  {
    assert forall i | 0 <= i < |times| :: times[i] in times;
  }

  lemma {:induction false} KeepIfAscends(times: seq<int>, p: int -> bool)
    requires Ascending(times)
    ensures Ascending(KeepIf(times, p))
  {
    if times != [] {
      KeepIfAscends(times[1..], p);
      KeepIfKeeps(times[1..], p);
      PrependAscending(times[0], KeepIf(times[1..], p));
      assert [] + KeepIf(times[1..], p) == KeepIf(times[1..], p);
    }
  }

  /** The moments the simulator predicts; `cronTimes` is what the cron library lists. */
  method SimulateSchedule(s: Schedule, env: Answers, from: int, until: int, cronTimes: seq<int>) returns (out: seq<int>)
    ensures s.eventTriggered ==> out == []
    ensures !s.eventTriggered && s.hasCron ==> out == KeepIf(cronTimes, env.conditions)
    ensures !s.hasCron ==> Ascending(out)
    ensures !s.hasCron ==> forall t :: t in out <==> Predicted(s, env, from, until, t)
  {
    if s.eventTriggered {
      return [];
    }
    var times := cronTimes;
    if !s.hasCron {
      if !Given(s.startTime) {
        return [];
      }
      times := SimulateHhmm(s, from, until);
      KeepIfKeeps(times, env.conditions);
      KeepIfAscends(times, env.conditions);
    }
    out := KeepIf(times, env.conditions);
  }

  /** What the simulator predicts for a start-time schedule. */
  ghost predicate Predicted(s: Schedule, env: Answers, from: int, until: int, t: int) {
    && !s.eventTriggered && Given(s.startTime) && StartOffset(s.startTime.value).Some?
    && Daily(FirstMoment(from, StartOffset(s.startTime.value).value), t)
    && Due(s, from, until, t) && env.conditions(t)
  }

  // ---------------------------------------------------------------- prediction against triggering

  /** The start time is a zero-padded clock time. */
  ghost predicate Canonical(s: Schedule, m: nat) { m < 1440 && s.startTime == Some(HourMinute(m)) }

  lemma DigitRoundTrip(n: nat)
    requires n < 100
    ensures NumberOf(TwoDigits(n)) == Some(n)
  {
    var t := TwoDigits(n);
    assert t[..1] == [t[0]] && t[..1][..0] == [];
    assert DigitsValue(t[..1]) == n / 10;
    assert t[..|t| - 1] == t[..1];
    assert IsDigit(t[0]) && IsDigit(t[1]);
    assert TrimStart(t) == t && TrimEnd(t) == t;
  }

  lemma CanonicalSplit(m: nat)
    requires m < 1440
    ensures Split(HourMinute(m), ':') == [TwoDigits(m / 60), TwoDigits(m % 60)]
  {
    SplitAfter(TwoDigits(m / 60), TwoDigits(m % 60), ':');
  }

  lemma CanonicalOffset(m: nat)
    requires m < 1440
    ensures StartOffset(HourMinute(m)) == Some(m)
  {
    CanonicalSplit(m);
    PaddedOffset(HourMinute(m), m / 60, m % 60);
  }

  lemma PaddedOffset(start: string, h: nat, m: nat)
    requires h < 100 && m < 100 && Split(start, ':') == [TwoDigits(h), TwoDigits(m)]
    ensures StartOffset(start) == Some(h * 60 + m)
  {
    DigitRoundTrip(h);
    DigitRoundTrip(m);
    OffsetOfTwo(start, TwoDigits(h), TwoDigits(m), h, m);
  }

  lemma OffsetOfTwo(start: string, a: string, b: string, h: nat, m: nat)
    requires Split(start, ':') == [a, b] && NumberOf(a) == Some(h) && NumberOf(b) == Some(m)
    ensures StartOffset(start) == Some(h * 60 + m)
  {
  }

  lemma {:induction false} SplitNone(s: string, sep: char)
    requires sep !in s
    ensures Split(s, sep) == [s]
  {
    if s != [] {
      SplitNone(s[1..], sep);
      assert [s[0]] + s[1..] == s;
    }
  }

  lemma {:induction false} SplitAfter(a: string, b: string, sep: char)
    requires sep !in a && sep !in b
    ensures Split(a + [sep] + b, sep) == [a, b]
  {
    var s := a + [sep] + b;
    if a == [] {
      assert s[1..] == b;
      SplitNone(b, sep);
    } else {
      assert s[1..] == a[1..] + [sep] + b;
      SplitAfter(a[1..], b, sep);
      assert [a[0]] + a[1..] == a;
      assert [a[1..], b][1..] == [b];
    }
  }

  /** Day, minute and millisecond of the moment `r` after the start of day `q`. */
  lemma ClockOf(q: int, r: nat)
    requires r < DAY
    ensures (q * DAY + r) / DAY == q && (q * DAY + r) % DAY == r && (q * DAY + r) % MINUTE == r % MINUTE
  {
  }

  lemma WholeMinute(r: nat, m: nat)
    ensures r % MINUTE == 0 && r / MINUTE == m <==> r == m * MINUTE
  {
  }

  /** The daily moments of minute `m` from the day of `from` on are the whole minutes `m` after it. */
  lemma DailyIsMinute(from: int, m: nat, t: int)
    requires m < 1440 && from <= t
    ensures Daily(FirstMoment(from, m), t) <==> t % MINUTE == 0 && MinuteOfDay(t) == m
  {
    var q, r, q0 := t / DAY, t % DAY, from / DAY;
    ClockOf(q, r);
    WholeMinute(r, m);
    if Daily(FirstMoment(from, m), t) {
      var k: nat :| t == DayAfter(FirstMoment(from, m), k);
      ClockOf(q0 + k, m * MINUTE);
    }
    if r == m * MINUTE {
      DayAfterDay(from, t);
      assert t == DayAfter(FirstMoment(from, m), q - q0);
    }
  }

  lemma DayAfterDay(from: int, t: int)
    requires from <= t
    ensures from / DAY <= t / DAY
  {
  }

  /** The schedule's window is open at its own start: no end, or an end after it. */
  ghost predicate OpensAtStart(s: Schedule, m: nat) requires m < 1440 {
    Given(s.endTime) ==> Less(HourMinute(m), s.endTime.value)
  }

  /** For a zero-padded start, a moment triggers when enabled, open, and on the minute. */
  lemma TriggersMeaning(s: Schedule, env: Answers, m: nat, t: int)
    requires !s.hasCron && Canonical(s, m)
    ensures Triggers(s, env, t) <==>
            && s.enabled && !s.eventTriggered && OpensAtStart(s, m)
            && env.conditions(t) && ServerAllows(s.days, DayOfWeek(t)) && MinuteOfDay(t) == m
  {
    ClockOrder(MinuteOfDay(t), m);
  }

  /**
   * The simulator misses no trigger: for every range and all condition answers, each whole minute
   * at which the schedule triggers is predicted. What it predicts does trigger if and only if the
   * schedule is enabled and has no end or a later end than its start; the simulator looks at
   * neither.
   */
  lemma SimulationAgainstTriggers(s: Schedule, env: Answers, m: nat)
    requires !s.hasCron && Canonical(s, m)
    ensures forall from: int, until: int, t: int | TriggersIn(s, env, from, until, t) :: Predicted(s, env, from, until, t)
    ensures forall from: int, until: int, t: int | Predicted(s, env, from, until, t) ::
              TriggersIn(s, env, from, until, t) <==> s.enabled && OpensAtStart(s, m)
  {
    CanonicalOffset(m);
    forall from: int, until: int, t: int | from <= t <= until
      ensures TriggersIn(s, env, from, until, t) ==> Predicted(s, env, from, until, t)
      ensures Predicted(s, env, from, until, t) ==>
                (TriggersIn(s, env, from, until, t) <==> s.enabled && OpensAtStart(s, m))
    {
      TriggersMeaning(s, env, m, t);
      DailyIsMinute(from, m, t);
    }
  }

  ghost predicate TriggersIn(s: Schedule, env: Answers, from: int, until: int, t: int) {
    from <= t <= until && t % MINUTE == 0 && Triggers(s, env, t)
  }

  lemma NineIsNumber()
    ensures NumberOf("9") == Some(9) && NumberOf("00") == Some(0)
  {
    assert "9"[..0] == [] && "00"[..1] == "0" && "0"[..0] == [];
    assert DigitsValue("9") == 9 && DigitsValue("0") == 0 && DigitsValue("00") == 0;
    assert TrimStart("9") == "9" && TrimEnd("9") == "9" && TrimStart("00") == "00" && TrimEnd("00") == "00";
  }

  lemma NineSplits()
    ensures Split("9:00", ':') == ["9", "00"]
  {
    SplitAfter("9", "00", ':');
    assert "9:00" == "9" + [':'] + "00";
  }

  /**
   * Only zero-padded start times ever trigger, while the simulator accepts others: `9:00` is
   * predicted for nine o'clock and never triggers.
   */
  lemma OnlyPaddedStartsTrigger(s: Schedule, env: Answers, now: int)
    requires !s.hasCron
    ensures Triggers(s, env, now) ==> Canonical(s, MinuteOfDay(now))
    ensures StartOffset("9:00") == Some(540)
    ensures s.startTime == Some("9:00") ==> !Triggers(s, env, now)
  {
    NineIsNumber();
    NineSplits();
    OffsetOfTwo("9:00", "9", "00", 9, 0);
    assert |ClockAt(now)| == 5;
  }

  // ---------------------------------------------------------------- dispatch

  /** The dispatching tick: a schedule goes out unless it last went out at this minute of the day. */
  class ScheduleService {
    var lastTriggered: map<int, nat>

    constructor ()
      ensures lastTriggered == map[]
    {
      lastTriggered := map[];
    }

    /** The schedules handed on to conflict resolution. */
    method Evaluate(schedules: seq<Schedule>, env: Answers, now: int) returns (out: seq<Schedule>)
      modifies this
      ensures (out, lastTriggered) == Tick(FindTriggering(schedules, env, now), old(lastTriggered), MinuteOfDay(now))
    {
      var found := FindTriggering(schedules, env, now);
      var minuteKey := MinuteOfDay(now);
      out := [];
      var i := 0;
      ghost var whole := Tick(found, lastTriggered, minuteKey);
      assert found[0..] == found;
      while i < |found|
        invariant i <= |found|
        invariant out + Tick(found[i..], lastTriggered, minuteKey).0 == whole.0
        invariant Tick(found[i..], lastTriggered, minuteKey).1 == whole.1
      {
        var s := found[i];
        assert found[i..][1..] == found[i + 1..];
        ghost var rest := Tick(found[i + 1..], lastTriggered[s.id := minuteKey], minuteKey).0;
        assert out + ([s] + rest) == (out + [s]) + rest;
        if !(s.id in lastTriggered && lastTriggered[s.id] == minuteKey) {
          lastTriggered := lastTriggered[s.id := minuteKey];
          out := out + [s];
        }
        i := i + 1;
      }
      assert found[i..] == [] && out + [] == out;
    }
  }

  function Tick(found: seq<Schedule>, last: map<int, nat>, key: nat): (seq<Schedule>, map<int, nat>) {
    if found == [] then ([], last)
    else
      var s := found[0];
      if s.id in last && last[s.id] == key then Tick(found[1..], last, key)
      else
        var (rest, last1) := Tick(found[1..], last[s.id := key], key);
        ([s] + rest, last1)
  }

  /** One tick: the enabled schedules as the database lists them then, and the moment. */
  datatype TickAt = TickAt(schedules: seq<Schedule>, now: int)

  function DoTick(tick: TickAt, env: Answers, last: map<int, nat>): (seq<Schedule>, map<int, nat>) {
    Tick(FindTriggering(tick.schedules, env, tick.now), last, MinuteOfDay(tick.now))
  }

  /** Moments at which `s` is dispatched during a run of ticks. */
  function Dispatches(s: Schedule, env: Answers, ticks: seq<TickAt>, last: map<int, nat>): seq<int>
    decreases |ticks|
  {
    if ticks == [] then []
    else
      var (out, last1) := DoTick(ticks[0], env, last);
      (if s in out then [ticks[0].now] else []) + Dispatches(s, env, ticks[1..], last1)
  }

  ghost predicate DistinctIds(schedules: seq<Schedule>) {
    forall a, b | a in schedules && b in schedules && a.id == b.id :: a == b
  }

  /** The dedupe loop lets through what did not last go out under this key, and records just that. */
  lemma {:induction false} TickSelects(found: seq<Schedule>, last: map<int, nat>, key: nat)
    requires DistinctIds(found)
    ensures var (out, last1) := Tick(found, last, key);
            && (forall s :: s in out <==> s in found && !(s.id in last && last[s.id] == key))
            && (forall s | s in found :: s.id in last1 && last1[s.id] == key)
            && (forall id | forall s | s in found :: s.id != id ::
                  (id in last1 <==> id in last) && (id in last ==> last1[id] == last[id]))
  {
    if found != [] {
      var s0 := found[0];
      assert forall s | s in found :: s == s0 || s in found[1..];
      if s0.id in last && last[s0.id] == key {
        TickSelects(found[1..], last, key);
      } else {
        TickSelects(found[1..], last[s0.id := key], key);
      }
    }
  }

  /** The schedule is not edited during the run: whatever has its id is it. */
  ghost predicate Unedited(s: Schedule, ticks: seq<TickAt>) {
    forall t | t in ticks :: DistinctIds(t.schedules) && forall x | x in t.schedules && x.id == s.id :: x == s
  }

  /** What one tick does to a clock-time schedule among any others. */
  lemma TickOfOne(s: Schedule, env: Answers, m: nat, tick: TickAt, last: map<int, nat>)
    requires !s.hasCron && Canonical(s, m) && Unedited(s, [tick])
    ensures var (out, last1) := DoTick(tick, env, last);
            var triggered := s in tick.schedules && Triggers(s, env, tick.now);
            && (s in out <==> triggered && !(s.id in last && last[s.id] == m))
            && (triggered ==> s.id in last1 && last1[s.id] == m)
            && (!triggered ==> (s.id in last1 <==> s.id in last) && (s.id in last ==> last1[s.id] == last[s.id]))
  {
    var found := FindTriggering(tick.schedules, env, tick.now);
    assert tick in [tick];
    FindTriggeringSelects(tick.schedules, env, tick.now);
    TriggersMeaning(s, env, m, tick.now);
    TickSelects(found, last, MinuteOfDay(tick.now));
  }

  lemma {:induction false} NeverAgain(s: Schedule, env: Answers, m: nat, ticks: seq<TickAt>, last: map<int, nat>)
    requires !s.hasCron && Canonical(s, m) && Unedited(s, ticks) && s.id in last && last[s.id] == m
    ensures Dispatches(s, env, ticks, last) == []
    decreases |ticks|
  {
    if ticks != [] {
      TickOfOne(s, env, m, ticks[0], last);
      NeverAgain(s, env, m, ticks[1..], DoTick(ticks[0], env, last).1);
    }
  }

  /** Some tick of the run lists the schedule and triggers it. */
  ghost predicate EverTriggers(s: Schedule, env: Answers, ticks: seq<TickAt>) {
    exists t | t in ticks :: s in t.schedules && Triggers(s, env, t.now)
  }

  /**
   * The dedupe key has no date: in one process a clock-time schedule, among whatever others, is
   * dispatched at the first tick that triggers it and never again, however many days the ticks
   * cover.
   */
  lemma {:induction false} DispatchedOnlyOnce(s: Schedule, env: Answers, m: nat, ticks: seq<TickAt>, last: map<int, nat>)
    requires !s.hasCron && Canonical(s, m) && Unedited(s, ticks) && s.id !in last
    ensures |Dispatches(s, env, ticks, last)| == if EverTriggers(s, env, ticks) then 1 else 0
    decreases |ticks|
  {
    if ticks != [] {
      var t, last1 := ticks[0], DoTick(ticks[0], env, last).1;
      TickOfOne(s, env, m, t, last);
      if s in t.schedules && Triggers(s, env, t.now) {
        NeverAgain(s, env, m, ticks[1..], last1);
      } else {
        DispatchedOnlyOnce(s, env, m, ticks[1..], last1);
        assert forall u | u in ticks :: u == t || u in ticks[1..];
      }
    }
  }

  // ---------------------------------------------------------------- the client

  /** One or two digits, possibly after white space. */
  predicate IsShortNumber(field: string, limit: nat) {
    var digits := TrimStart(field);
    1 <= |digits| <= 2 && (forall c | c in digits :: IsDigit(c)) && DigitsValue(digits) < limit
  }

  /** `%H:%M` as the client's time parser reads it: white space may precede either number. */
  predicate ParsesAsTime(s: string) {
    var parts := Split(s, ':');
    |parts| == 2 && IsShortNumber(parts[0], 24) && IsShortNumber(parts[1], 60)
  }

  /** `env.conditions` answers for the client's own condition checks. */
  predicate IsActive(s: Schedule, env: Answers, now: int) {
    && s.enabled
    && !s.eventTriggered && env.conditions(now)
    && ClientAllows(s.days, DayOfWeek(now))
    && (if s.hasCron then env.cronFired(now) else
          && s.startTime.Some?
          && !Less(ClockAt(now), s.startTime.value)
          && (s.endTime.Some? ==> Less(ClockAt(now), s.endTime.value))
          && ParsesAsTime(s.startTime.value)
          && (s.endTime.Some? ==> ParsesAsTime(s.endTime.value)))
  }

  ghost predicate WellFormedTimes(s: Schedule) {
    s.startTime.Some? && ParsesAsTime(s.startTime.value) && (s.endTime.Some? ==> ParsesAsTime(s.endTime.value))
  }

  /**
   * For any strings: the client is active exactly when the server is, the times are well formed,
   * and it is not a Sunday the server only allows through a blank entry.
   */
  lemma ClientMirrorsServerIff(s: Schedule, env: Answers, now: int)
    requires !s.hasCron
    ensures IsActive(s, env, now) <==>
            IsScheduleActive(s, env, now) && WellFormedTimes(s) && ClientAllows(s.days, DayOfWeek(now))
  {
    DaysAgreeIff(s.days, DayOfWeek(now));
    assert !ParsesAsTime("") by { assert Split("", ':') == [[]]; }
  }

  lemma CanonicalParses(m: nat)
    requires m < 1440
    ensures ParsesAsTime(HourMinute(m))
  {
    CanonicalSplit(m);
    TwoDigitsParse(m / 60);
    TwoDigitsParse(m % 60);
  }

  lemma TwoDigitsParse(n: nat)
    requires n < 100
    ensures forall c | c in TwoDigits(n) :: IsDigit(c)
    ensures DigitsValue(TwoDigits(n)) == n
  {
    DigitRoundTrip(n);
    var t := TwoDigits(n);
    assert TrimStart(t) == t && TrimEnd(t) == t;
  }

  /**
   * On zero-padded times and days without blanks the two evaluators agree at every moment, and
   * both mean: an allowed day and start <= minute < end.
   */
  lemma EvaluatorsAgree(s: Schedule, env: Answers, start: nat, end: Option<nat>, now: int)
    requires !s.hasCron && s.enabled && !s.eventTriggered && env.conditions(now)
    requires Canonical(s, start) && !HasBlankDay(s.days)
    requires end.Some? ==> end.value < 1440
    requires s.endTime == if end.Some? then Some(HourMinute(end.value)) else None
    ensures IsActive(s, env, now) <==> IsScheduleActive(s, env, now)
    ensures IsScheduleActive(s, env, now) <==>
            && ServerAllows(s.days, DayOfWeek(now))
            && start <= MinuteOfDay(now) && (end.Some? ==> MinuteOfDay(now) < end.value)
  {
    DaysAgreeIff(s.days, DayOfWeek(now));
    CanonicalParses(start);
    ClockOrder(MinuteOfDay(now), start);
    if end.Some? {
      CanonicalParses(end.value);
      ClockOrder(MinuteOfDay(now), end.value);
    }
  }

  /** Higher priority first, then lower id. */
  predicate Beats(a: Schedule, b: Schedule) { a.priority > b.priority || (a.priority == b.priority && a.id < b.id) }

  ghost predicate IsSelected(schedules: seq<Schedule>, env: Answers, now: int, r: Option<Schedule>) {
    match r
    case None => forall s | s in schedules :: !IsActive(s, env, now)
    case Some(best) =>
      && best in schedules && IsActive(best, env, now)
      && forall s | s in schedules && IsActive(s, env, now) && s.id != best.id :: Beats(best, s)
  }

  function ActiveOnes(schedules: seq<Schedule>, env: Answers, now: int): seq<Schedule> {
    if schedules == [] then []
    else (if IsActive(schedules[0], env, now) then [schedules[0]] else []) + ActiveOnes(schedules[1..], env, now)
  }

  lemma {:induction false} ActiveOnesSelect(schedules: seq<Schedule>, env: Answers, now: int)
    ensures forall s :: s in ActiveOnes(schedules, env, now) <==> s in schedules && IsActive(s, env, now)
  {
    if schedules != [] { ActiveOnesSelect(schedules[1..], env, now); }
  }

  /** `max_by` keeps the last of equal maxima. */
  method MaxBy(active: seq<Schedule>) returns (r: Option<Schedule>)
    ensures r.None? <==> active == []
    ensures r.Some? ==> r.value in active && forall s | s in active :: !Beats(s, r.value)
  {
    r := None;
    for i := 0 to |active|
      invariant r.None? <==> i == 0
      invariant r.Some? ==> r.value in active && forall j | 0 <= j < i :: !Beats(active[j], r.value)
    {
      if r.None? || !Beats(r.value, active[i]) {
        r := Some(active[i]);
      }
    }
  }

  method SelectActiveSchedule(schedules: seq<Schedule>, env: Answers, now: int) returns (r: Option<Schedule>)
    ensures r.None? <==> forall s | s in schedules :: !IsActive(s, env, now)
    ensures r.Some? ==> r.value in schedules && IsActive(r.value, env, now)
    ensures r.Some? ==> forall s | s in schedules && IsActive(s, env, now) ::
              s.priority < r.value.priority || (s.priority == r.value.priority && r.value.id <= s.id)
    ensures DistinctIds(schedules) ==> IsSelected(schedules, env, now, r)
  {
    var active := ActiveOnes(schedules, env, now);
    ActiveOnesSelect(schedules, env, now);
    r := MaxBy(active);
    assert active != [] ==> active[0] in active;
  }

  /** The selection does not depend on the order of the list. */
  lemma SelectionIgnoresOrder(a: seq<Schedule>, b: seq<Schedule>, env: Answers, now: int,
                              r: Option<Schedule>, t: Option<Schedule>)
    requires DistinctIds(a) && forall s :: s in a <==> s in b
    requires IsSelected(a, env, now, r) && IsSelected(b, env, now, t)
    ensures r == t
  {
  }
}
