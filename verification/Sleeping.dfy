/** Runs and the clock: when co_sleep can return, and when schedule() does with everybody asleep. */
module Sleeping {
  import opened Clock
  import opened Runtime
  import opened Scheduler
  import opened PickTermination
  import opened Invariants
  import opened Runs

  /** The clock does not go back: what dispatches `from` to `n` read at slot `i` is not before `now`. */
  ghost predicate ReadsFrom(acts: seq<Action>, i: nat, now: int, from: nat, n: nat)
    requires n <= |acts|
  {
    forall k, m :: from <= k < n && acts[k].DoDispatch? && 0 <= m < |acts[k].sweeps| && i < |acts[k].sweeps[m]|
      ==> acts[k].sweeps[m][i] >= now
  }

  lemma WokenInTime(start: int, deadline: int, sample: int)
    requires start <= sample && Ms(sample) > Ms(deadline) && (start <= deadline ==> !MayWakeEarly(start, deadline))
    ensures sample > deadline
  {
    if start <= deadline {
      EarlyWakeIff(start, deadline);
    }
  }

  /** co_sleep never returns early: a task that is no longer asleep was woken by a sample strictly
      past its deadline, unless clock and deadline at the call allow an early wake-up (and there they
      do: see WakesEarlyIff). */
  lemma {:induction false} SleepIsNotShort(ss: seq<State>, acts: seq<Action>, from: nat, n: nat)
    returns (k: nat, m: nat)
    requires Run(ss, acts) && from < n < |ss| && acts[from].DoSleep?
    requires var now, deadline, i := acts[from].now, acts[from].now + 1000 * acts[from].seconds, ss[from].current;
             && (now <= deadline ==> !MayWakeEarly(now, deadline))
             && 0 <= i && ReadsFrom(acts, i, now, from + 1, n)
             && Live(ss[n], i) && Get(ss[n], i).status != SLEEP
    ensures from < k < n && acts[k].DoDispatch? && m < |acts[k].sweeps|
    ensures var i, deadline := ss[from].current, acts[from].now + 1000 * acts[from].seconds;
            0 <= i < |acts[k].sweeps[m]| && acts[k].sweeps[m][i] > deadline
  {
    hide Step, Ready, Inv;
    RunKeeps(ss, acts, n);
    var i, deadline := ss[from].current, acts[from].now + 1000 * acts[from].seconds;
    assert Ready(ss[from], acts[from]) && Step(ss[from], acts[from]) == Next(ss[from + 1]);
    FallsAsleep(ss[from], acts[from]);
    k, m := WokenBySample(ss, acts, i, deadline, from + 1, n);
    WokenInTime(acts[from].now, deadline, acts[k].sweeps[m][i]);
  }

  lemma {:induction false} FallsAsleep(s: State, a: Action)
    requires Inv(s) && Ready(s, a) && a.DoSleep?
    ensures Step(s, a).Next?
    ensures var s' := Step(s, a).state;
            && s'.current == s.current && !s'.running && Live(s', s.current)
            && Get(s', s.current).status == SLEEP && Get(s', s.current).pc == InSleep(a.now + 1000 * a.seconds)
  {
  }

  /** A sleeper that is no longer asleep was woken by a sample that compared greater. */
  lemma {:induction false} WokenBySample(ss: seq<State>, acts: seq<Action>, i: int, deadline: int, from: nat, n: nat)
    returns (k: nat, m: nat)
    requires Run(ss, acts) && from <= n < |ss|
    requires Live(ss[from], i) && Get(ss[from], i).status == SLEEP && Get(ss[from], i).pc == InSleep(deadline)
    requires ss[from].running ==> ss[from].current != i
    requires Live(ss[n], i) && Get(ss[n], i).status != SLEEP
    ensures from <= k < n && acts[k].DoDispatch? && m < |acts[k].sweeps| && 0 <= i < |acts[k].sweeps[m]|
    ensures Ms(acts[k].sweeps[m][i]) > Ms(deadline)
    decreases n - from
  {
    hide Step, Ready, Inv;
    RunKeeps(ss, acts, from);
    SleeperWakesLate(ss[from], acts[from], i, deadline);
    if Get(ss[from + 1], i).status != SLEEP {
      k := from;
      m :| 0 <= m < |acts[k].sweeps| && Ms(acts[k].sweeps[m][i]) > Ms(deadline);
    } else {
      k, m := WokenBySample(ss, acts, i, deadline, from + 1, n);
    }
  }

  lemma {:induction false} SleeperWakesLate(s: State, a: Action, i: int, deadline: int)
    requires Inv(s) && Ready(s, a) && Step(s, a).Next?
    requires Live(s, i) && Get(s, i).status == SLEEP && Get(s, i).pc == InSleep(deadline)
    requires s.running ==> s.current != i
    ensures var s' := Step(s, a).state;
            && Live(s', i) && Get(s', i).pc == InSleep(deadline)
            && (if Get(s', i).status == SLEEP then s'.running ==> s'.current != i
                else a.DoDispatch? && |s.tasks| == NR_TASKS && Samples(a.sweeps, NR_TASKS)
                     && exists m :: 0 <= m < |a.sweeps| && Ms(a.sweeps[m][i]) > Ms(deadline))
  {
    OthersArePassive(s, a, i);
    if a.DoDispatch? {
      SweepsWake(s.tasks, a.sweeps);
      assert WokenBy(s.tasks[i], Sweeps(s.tasks, a.sweeps)[i], a.sweeps, i);
      PickIsFirst(Sweeps(s.tasks, a.sweeps), s.current);
    } else {
      CurrentStays(s, a);
    }
  }

  /** The condition is exact: the schedule() of a co_sleep can wake its own caller, at times between
      the call and the deadline, if and only if the clock wraps between the two and the deadline is
      not the last value of its window. */
  lemma {:induction false} WakesEarlyIff(s: State, now: int, seconds: int)
    requires Inv(s) && Ready(s, DoSleep(now, seconds)) && seconds >= 0
    ensures (exists times: seq<int> :: WakesEarly(s, now, seconds, times))
            <==> MayWakeEarly(now, now + 1000 * seconds)
  {
    hide Inv, Ready, WakesEarly;
    EarlyWakeIff(now, now + 1000 * seconds);
    if sample :| now <= sample <= now + 1000 * seconds && Ms(sample) > Ms(now + 1000 * seconds) {
      SampleWakesEarly(s, now, seconds, sample);
    }
    if times: seq<int> :| WakesEarly(s, now, seconds, times) {
      var sample := WokenEarlyBy(s, now, seconds, times);
    }
  }

  lemma {:induction false} SampleWakesEarly(s: State, now: int, seconds: int, sample: int)
    requires Inv(s) && Ready(s, DoSleep(now, seconds))
    requires now <= sample <= now + 1000 * seconds && Ms(sample) > Ms(now + 1000 * seconds)
    ensures WakesEarly(s, now, seconds, seq(NR_TASKS, _ => sample))
  {
    var times, s' := seq(NR_TASKS, _ => sample), Sleep(s, now, seconds);
    InvSized(s);
    hide Inv;
    WakeupTimeIsDeadline(now, seconds);
    SweepsWake(s'.tasks, [times]);
    assert WokenBy(s'.tasks[s.current], Sweeps(s'.tasks, [times])[s.current], [times], s.current);
    assert [times][0][s.current] == sample;
    assert IsRunning(Sweeps(s'.tasks, [times]), s.current);
  }

  lemma {:induction false} WokenEarlyBy(s: State, now: int, seconds: int, times: seq<int>) returns (sample: int)
    requires Inv(s) && Ready(s, DoSleep(now, seconds)) && WakesEarly(s, now, seconds, times)
    ensures now <= sample <= now + 1000 * seconds && Ms(sample) > Ms(now + 1000 * seconds)
  {
    var s' := Sleep(s, now, seconds);
    InvSized(s);
    hide Inv;
    WakeupTimeIsDeadline(now, seconds);
    SweepsWake(s'.tasks, [times]);
    assert WokenBy(s'.tasks[s.current], Sweeps(s'.tasks, [times])[s.current], [times], s.current);
    sample := times[s.current];
  }

  ghost predicate WakesEarly(s: State, now: int, seconds: int, times: seq<int>)
    requires Inv(s) && Ready(s, DoSleep(now, seconds))
  {
    && |times| == NR_TASKS && (forall j :: 0 <= j < NR_TASKS ==> now <= times[j] <= now + 1000 * seconds)
    && var s' := Sleep(s, now, seconds);
       Sized(s') && Ready(s', DoDispatch([times])) && IsRunning(Dispatch(s', [times]).tasks, s.current)
  }

  /** A sleeper whose deadline is the last value of the 32-bit clock is never woken. */
  lemma {:induction false} SleepsForever(ss: seq<State>, acts: seq<Action>, i: int, n: nat)
    requires Run(ss, acts) && n < |ss|
    requires Live(ss[0], i) && Get(ss[0], i).status == SLEEP && Get(ss[0], i).wakeuptime == WINDOW - 1
    ensures forall k :: 0 <= k <= n ==>
              ss[k].tasks[i] == ss[0].tasks[i] && !(ss[k].running && ss[k].current == i)
  {
    hide Step, Ready, Inv;
    RunKeeps(ss, acts, n);
    if n > 0 {
      SleepsForever(ss, acts, i, n - 1);
      StillAsleep(ss[n - 1], acts[n - 1], i);
    }
    SleeperIsOut(ss[n], i);
  }

  lemma {:induction false} SleeperIsOut(s: State, i: int)
    requires Inv(s) && Live(s, i) && Get(s, i).status == SLEEP
    ensures !(s.running && s.current == i) && Get(s, i).entry != Queued && Get(s, i).pc.InSleep?
    ensures Get(s, i).wakeuptime == Ms(Get(s, i).pc.deadline)
  {
    hide Registered;
    assert TaskOK(Get(s, i));
  }

  lemma {:induction false} StillAsleep(s: State, a: Action, i: int)
    requires Inv(s) && Ready(s, a) && Step(s, a).Next?
    requires Live(s, i) && Get(s, i).status == SLEEP && Get(s, i).wakeuptime == WINDOW - 1
    ensures Live(Step(s, a).state, i) && Step(s, a).state.tasks[i] == s.tasks[i]
  {
    hide Inv, Step, Ready;
    SleeperIsOut(s, i);
    SleeperWakesLate(s, a, i, Get(s, i).pc.deadline);
    OthersArePassive(s, a, i);
  }

  /** Read off the table of any state: with a clock that never stops and sweeps of at most a
      millisecond, schedule() returns if and only if some task is RUNNING, or asleep with any
      deadline but the last value of the 32-bit clock. */
  lemma {:induction false} ScheduleReturnsIff(s: State, times: nat -> int, from: nat)
    requires Inv(s) && !s.running && Ticks(times, from, Asleep(s.tasks, |s.tasks|), 1)
    ensures (exists n: nat :: Ready(s, DoDispatch(Rounds(times, from, s.tasks, n)))) <==>
              exists i :: Live(s, i) &&
                (Get(s, i).status == RUNNING || (Get(s, i).status == SLEEP && Get(s, i).wakeuptime != WINDOW - 1))
  {
    hide Rounds, Asleep, PickEnds, Ticks, PickReturns;
    forall i | Live(s, i) && Get(s, i).status == SLEEP
      ensures 0 <= Get(s, i).wakeuptime < WINDOW
    {
      SleeperIsOut(s, i);
    }
    PickReturnsIff(s.tasks, times, from);
    PickEndsIff(s.tasks, times, from);
    assert forall i :: Live(s, i) ==> 0 <= i < |s.tasks| && s.tasks[i] == Some(Get(s, i));
    forall n: nat
      ensures Ready(s, DoDispatch(Rounds(times, from, s.tasks, n)))
              <==> PickReturns(s.tasks, Rounds(times, from, s.tasks, n))
    {
    }
  }

  ghost predicate Returns(s: State, times: nat -> int, from: nat)
    requires Sized(s)
  {
    exists n: nat :: Ready(s, DoDispatch(Rounds(times, from, s.tasks, n)))
  }

  /** For sweeps of any length: schedule() returns whatever a clock does that never stops and advances
      at most g ms in one sweep, if and only if some task is RUNNING, or asleep with a deadline at
      least g ms before the 32-bit clock wraps. */
  lemma {:induction false} ScheduleAlwaysReturnsIff(s: State, from: nat, g: nat)
    requires Inv(s) && !s.running && g > 0
    ensures (forall times: nat -> int :: Ticks(times, from, Asleep(s.tasks, |s.tasks|), g) ==> Returns(s, times, from))
            <==> exists i :: 0 <= i < NR_TASKS && Wakeable(s.tasks[i], g)
  {
    hide Rounds, Asleep, PickEnds, Ticks, PickReturns;
    forall i | Live(s, i) && Get(s, i).status == SLEEP
      ensures 0 <= Get(s, i).wakeuptime < WINDOW
    {
      SleeperIsOut(s, i);
    }
    assert forall i :: 0 <= i < |s.tasks| && s.tasks[i].Some? ==> Live(s, i) && Get(s, i) == s.tasks[i].value;
    PickAlwaysEndsIff(s.tasks, from, g);
    forall times: nat -> int
      ensures Returns(s, times, from) <==> PickEnds(s.tasks, times, from)
    {
      PickReturnsIff(s.tasks, times, from);
      assert forall n: nat :: Ready(s, DoDispatch(Rounds(times, from, s.tasks, n)))
                              <==> PickReturns(s.tasks, Rounds(times, from, s.tasks, n));
    }
  }
}
