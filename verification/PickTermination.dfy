/** When the repeat loop of `pick` ends on a clock that runs while it is read: the readings its sweeps
    take, and what the table must hold for them to wake somebody. */
module PickTermination {
  import opened Clock
  import opened Runtime
  import opened Scheduler

  /** The sleepers in the first `n` slots: as many as the readings a sweep takes before slot `n`. */
  function Asleep(tasks: seq<Option<Task>>, n: nat): nat
    requires n <= |tasks|
  {
    if n == 0 then 0
    else Asleep(tasks, n - 1) + (if tasks[n - 1].Some? && tasks[n - 1].value.status == SLEEP then 1 else 0)
  }

  /** The readings of `k` sweeps over `s` sleepers. */
  function ReadingsOf(k: nat, s: nat): nat {
    if k == 0 then 0 else ReadingsOf(k - 1, s) + s
  }

  lemma AsleepNext(tasks: seq<Option<Task>>, n: nat)
    requires n < |tasks|
    ensures Asleep(tasks, n + 1) ==
              Asleep(tasks, n) + (if tasks[n].Some? && tasks[n].value.status == SLEEP then 1 else 0)
    ensures Asleep(tasks, 0) == 0
  {
  }

  /** A sweep in progress: the slots up to |row| are done. */
  ghost predicate SweptPart(tasks: seq<Option<Task>>, tasks': seq<Option<Task>>, row: seq<int>, times: nat -> int,
                            from: nat) {
    && |row| <= |tasks| == |tasks'|
    && (forall j :: 0 <= j < |row| ==> tasks'[j] == Promote(tasks[j], row[j]))
    && (forall j :: 0 <= j < |row| ==> row[j] == times(from + Asleep(tasks, j)))
    && (forall j :: |row| <= j < |tasks| ==> tasks'[j] == tasks[j])
  }

  lemma SweptNothing(tasks: seq<Option<Task>>, times: nat -> int, from: nat)
    ensures SweptPart(tasks, tasks, [], times, from)
  {
  }

  lemma SweptSame(tasks: seq<Option<Task>>, tasks': seq<Option<Task>>, row: seq<int>, times: nat -> int, from: nat)
    requires SweptPart(tasks, tasks', row, times, from) && |row| < |tasks|
    ensures |tasks'| == |tasks| && tasks'[|row|] == tasks[|row|]
  {
  }

  lemma SweptNext(tasks: seq<Option<Task>>, tasks': seq<Option<Task>>, row: seq<int>, times: nat -> int, from: nat,
                  sample: int)
    requires SweptPart(tasks, tasks', row, times, from) && |row| < |tasks|
    requires sample == times(from + Asleep(tasks, |row|))
    ensures |tasks'| == |tasks|
    ensures SweptPart(tasks, tasks'[|row| := Promote(tasks'[|row|], sample)], row + [sample], times, from)
  {
    hide Promote, Asleep;
    var swept, row' := tasks'[|row| := Promote(tasks'[|row|], sample)], row + [sample];
    forall j | 0 <= j < |row'|
      ensures swept[j] == Promote(tasks[j], row'[j]) && row'[j] == times(from + Asleep(tasks, j))
    {
      if j < |row| {
        assert row'[j] == row[j] && swept[j] == tasks'[j];
      }
    }
  }

  lemma {:induction false} SweptAll(tasks: seq<Option<Task>>, tasks': seq<Option<Task>>, row: seq<int>,
                                    times: nat -> int, from: nat)
    requires SweptPart(tasks, tasks', row, times, from) && |row| == |tasks|
    ensures tasks' == Sweep(tasks, row)
    ensures forall i :: 0 <= i < |row| ==> row[i] == times(from + Asleep(tasks, i))
  {
    hide Promote, Asleep;
    assert forall i :: 0 <= i < |tasks| ==> tasks'[i] == Sweep(tasks, row)[i];
  }

  /** The number of the reading that sweep `k` of a pick takes at slot `i`, if slot i sleeps. */
  function ReadingNumber(from: nat, tasks: seq<Option<Task>>, k: nat, i: nat): nat {
    from + ReadingsOf(k, Asleep(tasks, |tasks|)) + (if i <= |tasks| then Asleep(tasks, i) else 0)
  }

  /** What the sweeps of a pick read, when the table stays as it is: sweep k reads the clock once per
      sleeper, starting at reading number `from`. */
  function Reads(times: nat -> int, from: nat, tasks: seq<Option<Task>>): (nat, nat) -> int {
    (k: nat, i: nat) => times(ReadingNumber(from, tasks, k, i))
  }

  function Rounds(times: nat -> int, from: nat, tasks: seq<Option<Task>>, n: nat): (r: seq<seq<int>>)
    ensures |r| == n && Samples(r, |tasks|)
    ensures forall k, i :: 0 <= k < n && 0 <= i < |tasks| ==> r[k][i] == Reads(times, from, tasks)(k, i)
  {
    Rows(Reads(times, from, tasks), n, |tasks|)
  }

  /** Some task is RUNNING, or some sleeper's own readings pass its deadline (see PickEndsIff). */
  ghost predicate PickEnds(tasks: seq<Option<Task>>, times: nat -> int, from: nat) {
    exists i: nat :: CanRun(tasks, Reads(times, from, tasks), i)
  }

  lemma {:induction false} PickReturnsIff(tasks: seq<Option<Task>>, times: nat -> int, from: nat)
    ensures (exists n: nat :: PickReturns(tasks, Rounds(times, from, tasks, n))) <==> PickEnds(tasks, times, from)
  {
    var clock := Reads(times, from, tasks);
    PickTerminatesIff(tasks, clock);
    assert forall n: nat :: Rounds(times, from, tasks, n) == Rows(clock, n, |tasks|);
  }

  /** A task that ends the loop, and the sweep that does it. */
  lemma {:induction false} Runnable(tasks: seq<Option<Task>>, times: nat -> int, from: nat) returns (i: nat, k: nat)
    requires PickEnds(tasks, times, from)
    ensures i < |tasks| && Ends(tasks, times, from, i, k)
  {
    i :| CanRun(tasks, Reads(times, from, tasks), i);
    if tasks[i].value.status == RUNNING {
      k := 0;
    } else {
      k :| Ms(Reads(times, from, tasks)(k, i)) > tasks[i].value.wakeuptime;
    }
  }

  ghost predicate Ends(tasks: seq<Option<Task>>, times: nat -> int, from: nat, i: nat, k: nat) {
    i < |tasks| && tasks[i].Some? &&
    (tasks[i].value.status == RUNNING ||
     (tasks[i].value.status == SLEEP && Ms(Reads(times, from, tasks)(k, i)) > tasks[i].value.wakeuptime))
  }

  ghost predicate IsRound(times: nat -> int, from: nat, tasks: seq<Option<Task>>, n: nat, row: seq<int>) {
    |row| == |tasks| && forall i :: 0 <= i < |tasks| ==>
      row[i] == times(ReadingNumber(from, tasks, n, i))
  }

  lemma RowIsRound(times: nat -> int, from: nat, tasks: seq<Option<Task>>, n: nat, row: seq<int>)
    requires |row| == |tasks|
    requires forall i :: 0 <= i < |row| ==>
               row[i] == times(from + ReadingsOf(n, Asleep(tasks, |tasks|)) + Asleep(tasks, i))
    ensures IsRound(times, from, tasks, n, row)
    ensures ReadingsOf(n + 1, Asleep(tasks, |tasks|))
            == ReadingsOf(n, Asleep(tasks, |tasks|)) + Asleep(tasks, |tasks|)
  {
  }

  lemma NoRounds(times: nat -> int, from: nat, tasks: seq<Option<Task>>)
    ensures Rounds(times, from, tasks, 0) == [] && ReadingsOf(0, Asleep(tasks, |tasks|)) == 0
  {
  }

  lemma {:induction false} OneMore(times: nat -> int, from: nat, tasks: seq<Option<Task>>, earlier: seq<seq<int>>,
                                   row: seq<int>)
    requires earlier == Rounds(times, from, tasks, |earlier|) && IsRound(times, from, tasks, |earlier|, row)
    ensures earlier + [row] == Rounds(times, from, tasks, |earlier| + 1)
  {
    hide ReadingNumber;
    var n, rounds := |earlier|, Rounds(times, from, tasks, |earlier| + 1);
    forall k | 0 <= k <= n
      ensures (earlier + [row])[k] == rounds[k]
    {
      assert |rounds[k]| == |tasks|;
      if k < n {
        assert |earlier[k]| == |tasks|;
      }
    }
  }

  lemma {:induction false} NothingWoken(tasks: seq<Option<Task>>, row: seq<int>)
    requires |row| == |tasks| && !AnyRunning(Sweep(tasks, row))
    ensures Sweep(tasks, row) == tasks
  {
    forall i | 0 <= i < |tasks|
      ensures Sweep(tasks, row)[i] == tasks[i]
    {
      assert !IsRunning(Sweep(tasks, row), i);
    }
  }

  lemma {:induction false} NotTheLast(times: nat -> int, from: nat, tasks: seq<Option<Task>>, i: nat, last: nat,
                                      n: nat, row: seq<int>)
    requires Ends(tasks, times, from, i, last) && IsRound(times, from, tasks, n, row) && n <= last
    requires !AnyRunning(Sweep(tasks, row))
    ensures n < last
  {
    hide ReadingNumber;
    assert !IsRunning(Sweep(tasks, row), i);
  }

  /** The sweeps so far have woken nobody, and nobody was RUNNING. */
  ghost predicate FoundNothing(tasks: seq<Option<Task>>, sweeps: seq<seq<int>>) {
    && Samples(sweeps, |tasks|) && Sweeps(tasks, sweeps) == tasks
    && forall k :: 0 < k <= |sweeps| ==> !AnyRunning(Sweeps(tasks, sweeps[..k]))
  }

  lemma NoSweeps(tasks: seq<Option<Task>>)
    ensures FoundNothing(tasks, [])
  {
  }

  /** One more sweep either finds something, and the pick is over, or changes nothing. */
  lemma {:induction false} SweepAgain(tasks: seq<Option<Task>>, earlier: seq<seq<int>>, row: seq<int>)
    requires FoundNothing(tasks, earlier) && |row| == |tasks|
    ensures var sweeps := earlier + [row];
            && Samples(sweeps, |tasks|) && Sweeps(tasks, sweeps) == Sweep(tasks, row)
            && (if AnyRunning(Sweep(tasks, row)) then PickReturns(tasks, sweeps)
                else Sweep(tasks, row) == tasks && FoundNothing(tasks, sweeps))
  {
    hide Sweep, AnyRunning;
    var sweeps := earlier + [row];
    assert sweeps[..|sweeps| - 1] == earlier && sweeps[..|sweeps|] == sweeps;
    assert forall k :: 0 < k <= |earlier| ==> sweeps[..k] == earlier[..k];
    if !AnyRunning(Sweep(tasks, row)) {
      NothingWoken(tasks, row);
    }
  }

  ghost predicate Reaches(times: nat -> int, from: nat, t: int) {
    exists n: nat :: n >= from && times(n) >= t
  }

  /** The clock goes on for ever, never back, and by at most `g` ms in `s` readings. */
  ghost predicate Ticks(times: nat -> int, from: nat, s: nat, g: nat) {
    && (forall n: nat :: n >= from ==> times(n) <= times(n + 1))
    && (forall n: nat :: n >= from ==> times(n + s) <= times(n) + g)
    && (forall t: int :: Reaches(times, from, t))
  }

  /** The task is RUNNING, or asleep with a deadline at least `g` ms before the clock wraps. */
  predicate Wakeable(t: Option<Task>, g: nat) {
    t.Some? && (t.value.status == RUNNING || (t.value.status == SLEEP && t.value.wakeuptime + g < WINDOW))
  }

  lemma {:induction false} NeverBack(times: nat -> int, from: nat, a: nat, b: nat)
    requires forall n: nat :: n >= from ==> times(n) <= times(n + 1)
    requires from <= a <= b
    ensures times(a) <= times(b)
    decreases b
  {
    if a < b {
      NeverBack(times, from, a, b - 1);
      assert times(b - 1) <= times(b - 1 + 1);
    }
  }

  /** The first reading at or past time `t`. */
  lemma {:induction false} FirstReading(times: nat -> int, from: nat, n: nat, t: int) returns (a: nat)
    requires from <= n && times(from) < t <= times(n)
    ensures from < a <= n && times(a - 1) < t <= times(a)
    decreases n
  {
    if times(n - 1) < t {
      a := n;
    } else {
      a := FirstReading(times, from, n - 1, t);
    }
  }

  lemma {:induction false} RoundIn(base: nat, s: nat, a: nat) returns (k: nat)
    requires s > 0 && base < a + s
    ensures a <= base + ReadingsOf(k, s) < a + s
    decreases a + s - base
  {
    if base >= a {
      k := 0;
    } else {
      var j := RoundIn(base + s, s, a);
      k := j + 1;
    }
  }

  /** As many readings in a row as a sweep takes fall between the deadline and the end of its window. */
  lemma {:induction false} PassingStretch(times: nat -> int, from: nat, s: nat, g: nat, wakeuptime: int)
    returns (a: nat)
    requires Ticks(times, from, s, g) && s > 0 && 0 <= wakeuptime && wakeuptime + g < WINDOW
    ensures a > from && forall n: nat :: a <= n < a + s ==> Ms(times(n)) > wakeuptime
  {
    var start := WINDOW * (times(from) / WINDOW + 1);
    var t := start + wakeuptime + 1;
    assert Reaches(times, from, t);
    var late: nat :| late >= from && times(late) >= t;
    a := FirstReading(times, from, late, t);
    forall n: nat | a <= n < a + s
      ensures Ms(times(n)) > wakeuptime
    {
      NeverBack(times, from, a, n);
      NeverBack(times, from, n, a - 1 + s);
      assert times(a - 1 + s) <= times(a - 1) + g;
      InWindow(times(n), times(from) / WINDOW + 1);
    }
  }

  lemma InWindow(now: int, q: int)
    requires WINDOW * q <= now < WINDOW * (q + 1)
    ensures Ms(now) == now - WINDOW * q
  {
    assert now == WINDOW * (now / WINDOW) + Ms(now);
  }

  lemma {:induction false} SleeperIsCounted(tasks: seq<Option<Task>>, i: nat, n: nat)
    requires i < n <= |tasks| && tasks[i].Some? && tasks[i].value.status == SLEEP
    ensures Asleep(tasks, i) < Asleep(tasks, n)
  {
    if i + 1 < n {
      SleeperIsCounted(tasks, i, n - 1);
    }
  }

  /** pick ends as soon as some task can be woken by a clock this fast. */
  lemma {:induction false} PickEndsIfWakeable(tasks: seq<Option<Task>>, times: nat -> int, from: nat, g: nat, i: nat)
    requires Ticks(times, from, Asleep(tasks, |tasks|), g)
    requires i < |tasks| && Wakeable(tasks[i], g) && 0 <= tasks[i].value.wakeuptime
    ensures PickEnds(tasks, times, from)
  {
    var clock := Reads(times, from, tasks);
    if tasks[i].value.status == SLEEP {
      var s := Asleep(tasks, |tasks|);
      SleeperIsCounted(tasks, i, |tasks|);
      var a := PassingStretch(times, from, s, g, tasks[i].value.wakeuptime);
      var k := RoundIn(from + Asleep(tasks, i), s, a);
      assert from + Asleep(tasks, i) + ReadingsOf(k, s) == ReadingNumber(from, tasks, k, i);
      assert Ms(clock(k, i)) > tasks[i].value.wakeuptime;
    }
    assert CanRun(tasks, clock, i);
  }

  /** Read off the table: with a clock that never stops and a sweep that takes at most a millisecond,
      pick ends if and only if some slot is RUNNING, or asleep with any deadline but the last value
      of the 32-bit clock. */
  lemma {:induction false} PickEndsIff(tasks: seq<Option<Task>>, times: nat -> int, from: nat)
    requires Ticks(times, from, Asleep(tasks, |tasks|), 1)
    requires forall i :: 0 <= i < |tasks| && tasks[i].Some? && tasks[i].value.status == SLEEP ==>
               0 <= tasks[i].value.wakeuptime < WINDOW
    ensures PickEnds(tasks, times, from) <==>
              exists i :: 0 <= i < |tasks| && tasks[i].Some? &&
                (tasks[i].value.status == RUNNING
                 || (tasks[i].value.status == SLEEP && tasks[i].value.wakeuptime != WINDOW - 1))
  {
    if i :| 0 <= i < |tasks| && Wakeable(tasks[i], 1) {
      if tasks[i].value.status == RUNNING {
        assert CanRun(tasks, Reads(times, from, tasks), i);
      } else {
        PickEndsIfWakeable(tasks, times, from, 1, i);
      }
    }
    if PickEnds(tasks, times, from) {
      var i: nat :| CanRun(tasks, Reads(times, from, tasks), i);
      assert Wakeable(tasks[i], 1);
    }
  }

  // ---------------------------------------------------------------- the slowest sweeps

  /** The number of the sweep that takes reading `n`. */
  function SweepOf(n: nat, s: nat): nat
    requires s > 0
  {
    if n < s then 0 else SweepOf(n - s, s) + 1
  }

  lemma {:induction false} SweepOfNext(n: nat, s: nat)
    requires s > 0
    ensures SweepOf(n, s) <= SweepOf(n + 1, s) <= SweepOf(n, s) + 1
    decreases n
  {
    if n >= s {
      SweepOfNext(n - s, s);
    }
  }

  /** Millisecond by millisecond through the first `p` of every window, and then on to the next. */
  function Skipping(k: nat, p: nat): nat
    requires p > 0
  {
    if k < p then k else Skipping(k - p, p) + WINDOW
  }

  lemma {:induction false} SkippingNext(k: nat, p: nat)
    requires 0 < p <= WINDOW
    ensures Skipping(k, p) + 1 <= Skipping(k + 1, p)
    ensures Skipping(k + 1, p) - Skipping(k, p) <= WINDOW - p + 1
    ensures Ms(Skipping(k, p)) < p && Skipping(k, p) >= k
    decreases k
  {
    if k >= p {
      SkippingNext(k - p, p);
      NextWindow(Skipping(k - p, p));
    }
  }

  lemma NextWindow(now: int)
    ensures Ms(now + WINDOW) == Ms(now)
  {
  }

  /** A clock that stands still during a sweep over `s` sleepers and skips between sweeps. */
  function SkippingClock(s: nat, p: nat): nat -> int
    requires s > 0 && p > 0
  {
    (n: nat) => Skipping(SweepOf(n, s), p)
  }

  lemma {:induction false} SkippingTicks(s: nat, p: nat, from: nat)
    requires s > 0 && 0 < p <= WINDOW
    ensures Ticks(SkippingClock(s, p), from, s, WINDOW - p + 1)
  {
    hide Skipping, SweepOf;
    var times := SkippingClock(s, p);
    forall n: nat
      ensures times(n) <= times(n + 1) && times(n + s) <= times(n) + (WINDOW - p + 1)
    {
      SkippingSteps(s, p, n);
    }
    forall t: int
      ensures Reaches(times, from, t)
    {
      SkippingReaches(s, p, from, t);
    }
  }

  lemma {:induction false} SkippingSteps(s: nat, p: nat, n: nat)
    requires s > 0 && 0 < p <= WINDOW
    ensures var times := SkippingClock(s, p);
            times(n) <= times(n + 1) && times(n + s) <= times(n) + (WINDOW - p + 1)
  {
    hide Skipping, SweepOf;
    SweepOfNext(n, s);
    SweepOfPlus(n, s);
    SkippingNext(SweepOf(n, s), p);
  }

  lemma SweepOfPlus(n: nat, s: nat)
    requires s > 0
    ensures SweepOf(n + s, s) == SweepOf(n, s) + 1
  {
  }

  lemma {:induction false} SkippingReaches(s: nat, p: nat, from: nat, t: int)
    requires s > 0 && 0 < p <= WINDOW
    ensures Reaches(SkippingClock(s, p), from, t)
  {
    hide Skipping, SweepOf;
    var late := LateReading(s, if t > from then t else from);
    SkippingNext(SweepOf(late, s), p);
    assert late >= from && SkippingClock(s, p)(late) >= t;
  }

  lemma {:induction false} LateReading(s: nat, k: nat) returns (n: nat)
    requires s > 0
    ensures n >= k && SweepOf(n, s) == k
  {
    if k == 0 {
      n := 0;
    } else {
      n := LateReading(s, k - 1);
      n := n + s;
    }
  }

  lemma {:induction false} SlowerTicks(times: nat -> int, from: nat, s: nat, g: nat, h: nat)
    requires Ticks(times, from, s, g) && g <= h
    ensures Ticks(times, from, s, h)
  {
  }

  lemma {:induction false} NobodyAsleep(tasks: seq<Option<Task>>, n: nat, i: nat)
    requires i < n <= |tasks| && Asleep(tasks, n) == 0
    ensures tasks[i].Some? ==> tasks[i].value.status != SLEEP
  {
    if tasks[i].Some? && tasks[i].value.status == SLEEP {
      SleeperIsCounted(tasks, i, n);
    }
  }

  /** A clock of the given speed that wakes nobody, if nobody is wakeable. */
  lemma {:induction false} SomeClockMisses(tasks: seq<Option<Task>>, from: nat, g: nat) returns (times: nat -> int)
    requires g > 0 && forall i :: 0 <= i < |tasks| ==> !Wakeable(tasks[i], g)
    requires forall i :: 0 <= i < |tasks| && tasks[i].Some? && tasks[i].value.status == SLEEP ==>
               0 <= tasks[i].value.wakeuptime < WINDOW
    ensures Ticks(times, from, Asleep(tasks, |tasks|), g) && !PickEnds(tasks, times, from)
  {
    var s := Asleep(tasks, |tasks|);
    if s == 0 {
      times := EveryMs;
      EveryMsTicks(0, from);
      SlowerTicks(times, from, 0, 0, g);
      forall i: nat
        ensures !CanRun(tasks, Reads(times, from, tasks), i)
      {
        if i < |tasks| {
          NobodyAsleep(tasks, |tasks|, i);
        }
      }
    } else {
      var p := if g < WINDOW then WINDOW - g + 1 else 1;
      times := SkippingClock(s, p);
      SkippingTicks(s, p, from);
      SlowerTicks(times, from, s, WINDOW - p + 1, g);
      forall i: nat
        ensures !CanRun(tasks, Reads(times, from, tasks), i)
      {
        SkipsEverySleeper(tasks, from, s, p, g, i);
      }
    }
  }

  lemma {:induction false} SkipsEverySleeper(tasks: seq<Option<Task>>, from: nat, s: nat, p: nat, g: nat, i: nat)
    requires s > 0 && 0 < p <= WINDOW && (p == WINDOW - g + 1 || p == 1)
    requires i < |tasks| ==> !Wakeable(tasks[i], g)
    requires i < |tasks| && tasks[i].Some? && tasks[i].value.status == SLEEP ==> 0 <= tasks[i].value.wakeuptime < WINDOW
    ensures !CanRun(tasks, Reads(SkippingClock(s, p), from, tasks), i)
  {
    hide ReadingNumber;
    forall k: nat
      ensures Ms(Reads(SkippingClock(s, p), from, tasks)(k, i)) < p
    {
      SkippingNext(SweepOf(ReadingNumber(from, tasks, k, i), s), p);
    }
  }

  /** For clocks that never stop and advance at most g ms in one sweep, read off the table: pick ends
      whatever such a clock does if and only if some slot is RUNNING, or asleep with a deadline at
      least g ms before the 32-bit clock wraps. */
  lemma {:induction false} PickAlwaysEndsIff(tasks: seq<Option<Task>>, from: nat, g: nat)
    requires g > 0
    requires forall i :: 0 <= i < |tasks| && tasks[i].Some? && tasks[i].value.status == SLEEP ==>
               0 <= tasks[i].value.wakeuptime < WINDOW
    ensures (forall times: nat -> int :: Ticks(times, from, Asleep(tasks, |tasks|), g) ==> PickEnds(tasks, times, from))
            <==> exists i :: 0 <= i < |tasks| && Wakeable(tasks[i], g)
  {
    hide Ticks, Asleep;
    if i: nat :| 0 <= i < |tasks| && Wakeable(tasks[i], g) {
      forall times: nat -> int | Ticks(times, from, Asleep(tasks, |tasks|), g)
        ensures PickEnds(tasks, times, from)
      {
        if tasks[i].value.status == RUNNING {
          assert CanRun(tasks, Reads(times, from, tasks), i);
        } else {
          PickEndsIfWakeable(tasks, times, from, g, i);
        }
      }
    } else {
      var times := SomeClockMisses(tasks, from, g);
    }
  }

  /** A clock that shows a new millisecond at every reading. */
  function EveryMs(n: nat): int {
    n
  }

  lemma {:induction false} EveryMsTicks(s: nat, from: nat)
    ensures Ticks(EveryMs, from, s, s)
  {
    forall t: int
      ensures Reaches(EveryMs, from, t)
    {
      var n: nat := if t > from then t else from;
      assert EveryMs(n) >= t;
    }
  }

  /** Sweeps of two milliseconds can miss: with a reading every millisecond, the first of these
      sleepers is only ever looked at in even milliseconds. */
  lemma {:induction false} SlowSweepExample()
    ensures var t := ZeroTask(0).(status := SLEEP, wakeuptime := WINDOW - 2);
            var tasks := [Some(t), Some(t.(wakeuptime := WINDOW - 1))];
            Ticks(EveryMs, 0, Asleep(tasks, 2), 2) && !PickEnds(tasks, EveryMs, 0)
  {
    hide Ticks;
    var t := ZeroTask(0).(status := SLEEP, wakeuptime := WINDOW - 2);
    var tasks := [Some(t), Some(t.(wakeuptime := WINDOW - 1))];
    assert Asleep(tasks, 1) == 1 && Asleep(tasks, 2) == 2;
    EveryMsTicks(2, 0);
    forall k: nat
      ensures Ms(Reads(EveryMs, 0, tasks)(k, 0)) <= WINDOW - 2
    {
      TwoAtATime(k);
      EvenMs(k);
      assert ReadingNumber(0, tasks, k, 0) == 2 * k;
      assert Reads(EveryMs, 0, tasks)(k, 0) == 2 * k;
    }
  }

  lemma EvenMs(k: nat)
    ensures Ms(2 * k) <= WINDOW - 2
  {
    assert 2 * k == WINDOW * (2 * k / WINDOW) + Ms(2 * k);
  }

  lemma {:induction false} TwoAtATime(k: nat)
    ensures ReadingsOf(k, 2) == 2 * k
  {
    if k > 0 {
      TwoAtATime(k - 1);
    }
  }
}
