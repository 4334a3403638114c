/** What `pick` of src/sched.c computes: which sleepers its sweeps wake, which slot it returns,
    and when it returns at all. */
module Scheduler {
  import opened Clock
  import opened Runtime

  /** The only thing sweeps do to the table: a sleeper whose deadline had passed at one of its own
      samples becomes RUNNING, with nothing else of it changed; no other slot changes. */
  ghost predicate WokenBy(t: Option<Task>, t': Option<Task>, sweeps: seq<seq<int>>, i: nat)
    requires forall k :: 0 <= k < |sweeps| ==> i < |sweeps[k]|
  {
    if t.Some? && t.value.status == SLEEP && (exists k :: 0 <= k < |sweeps| && Ms(sweeps[k][i]) > t.value.wakeuptime)
    then t' == Some(t.value.(status := RUNNING))
    else t' == t
  }

  lemma {:induction false} SweepsWake(tasks: seq<Option<Task>>, sweeps: seq<seq<int>>)
    requires Samples(sweeps, |tasks|)
    ensures forall i :: 0 <= i < |tasks| ==> WokenBy(tasks[i], Sweeps(tasks, sweeps)[i], sweeps, i)
  {
    if |sweeps| > 0 {
      var earlier, last := sweeps[..|sweeps| - 1], sweeps[|sweeps| - 1];
      SweepsWake(tasks, earlier);
      forall i | 0 <= i < |tasks|
        ensures WokenBy(tasks[i], Sweeps(tasks, sweeps)[i], sweeps, i)
      {
        assert WokenBy(tasks[i], Sweeps(tasks, earlier)[i], earlier, i);
        assert sweeps[|sweeps| - 1][i] == last[i];
        assert forall k :: 0 <= k < |earlier| ==> sweeps[k][i] == earlier[k][i];
      }
    }
  }

  lemma SlotsAndDistances(from: int, i: int)
    requires 0 <= from < NR_TASKS && 0 <= i < NR_TASKS
    ensures 0 < Distance(from, i) <= NR_TASKS
    ensures SlotAt(from, Distance(from, i)) == i
    ensures Distance(from, i) == NR_TASKS <==> i == from
  {
  }

  lemma {:induction false} ScanStops(tasks: seq<Option<Task>>, current: int, d: int)
    requires |tasks| == NR_TASKS && 0 <= current < NR_TASKS && 0 < d <= NR_TASKS
    ensures var j := Scan(tasks, current, d);
            && 0 <= j < NR_TASKS && d <= Distance(current, j)
            && (IsRunning(tasks, j) || j == current)
            && forall e :: d <= e < Distance(current, j) ==> !IsRunning(tasks, SlotAt(current, e))
    decreases NR_TASKS - d
  {
    if d < NR_TASKS && !IsRunning(tasks, SlotAt(current, d)) {
      ScanStops(tasks, current, d + 1);
    }
  }

  /** pick returns the RUNNING slot that comes first in cyclic order after current, current itself
      being the last candidate.  Distances from one slot are distinct, so this names one slot. */
  lemma {:induction false} PickIsFirst(tasks: seq<Option<Task>>, current: int)
    requires |tasks| == NR_TASKS && 0 <= current < NR_TASKS && AnyRunning(tasks)
    ensures var j := Scan(tasks, current, 1);
            && IsRunning(tasks, j)
            && forall i :: IsRunning(tasks, i) ==> Distance(current, j) <= Distance(current, i)
  {
    ScanStops(tasks, current, 1);
    var j := Scan(tasks, current, 1);
    forall i | IsRunning(tasks, i)
      ensures Distance(current, j) <= Distance(current, i)
    {
      SlotsAndDistances(current, i);
    }
    var i :| IsRunning(tasks, i);
    SlotsAndDistances(current, i);
  }

  // ---------------------------------------------------------------- termination

  /** The samples of the first `n` sweeps under a clock that shows real time `clock(k, i)` when
      sweep `k` reaches slot `i`. */
  function Rows(clock: (nat, nat) -> int, n: nat, width: nat): (r: seq<seq<int>>)
    ensures |r| == n && Samples(r, width)
    ensures forall k, i :: 0 <= k < n && 0 <= i < width ==> r[k][i] == clock(k, i)
  {
    seq(n, k requires 0 <= k < n => seq(width, i requires 0 <= i < width => clock(k, i)))
  }

  ghost predicate CanRun(tasks: seq<Option<Task>>, clock: (nat, nat) -> int, i: nat) {
    i < |tasks| && tasks[i].Some? &&
    (tasks[i].value.status == RUNNING ||
     (tasks[i].value.status == SLEEP && exists k: nat :: Ms(clock(k, i)) > tasks[i].value.wakeuptime))
  }

  lemma {:induction false} RunnableAppears(tasks: seq<Option<Task>>, clock: (nat, nat) -> int, i: nat) returns (n: nat)
    requires CanRun(tasks, clock, i)
    ensures n > 0 && AnyRunning(Sweeps(tasks, Rows(clock, n, |tasks|)))
  {
    var k: nat := 0;
    if tasks[i].value.status == SLEEP {
      k :| Ms(clock(k, i)) > tasks[i].value.wakeuptime;
    }
    n := k + 1;
    var rows := Rows(clock, n, |tasks|);
    SweepsWake(tasks, rows);
    assert WokenBy(tasks[i], Sweeps(tasks, rows)[i], rows, i);
    assert rows[k][i] == clock(k, i);
    assert IsRunning(Sweeps(tasks, rows), i);
  }

  lemma {:induction false} RunnableWasThere(tasks: seq<Option<Task>>, clock: (nat, nat) -> int, n: nat) returns (i: nat)
    requires AnyRunning(Sweeps(tasks, Rows(clock, n, |tasks|)))
    ensures CanRun(tasks, clock, i)
  {
    var rows := Rows(clock, n, |tasks|);
    i :| IsRunning(Sweeps(tasks, rows), i);
    SweepsWake(tasks, rows);
    assert WokenBy(tasks[i], Sweeps(tasks, rows)[i], rows, i);
    if tasks[i].value.status != RUNNING {
      var k :| 0 <= k < |rows| && Ms(rows[k][i]) > tasks[i].value.wakeuptime;
      assert Ms(clock(k, i)) > tasks[i].value.wakeuptime;
    }
  }

  lemma {:induction false} FirstSuccess(tasks: seq<Option<Task>>, clock: (nat, nat) -> int, n: nat) returns (m: nat)
    requires n > 0 && AnyRunning(Sweeps(tasks, Rows(clock, n, |tasks|)))
    ensures PickReturns(tasks, Rows(clock, m, |tasks|))
  {
    var rows := Rows(clock, n, |tasks|);
    if k :| 0 < k < n && AnyRunning(Sweeps(tasks, rows[..k])) {
      assert rows[..k] == Rows(clock, k, |tasks|);
      m := FirstSuccess(tasks, clock, k);
    } else {
      m := n;
    }
  }

  /** The `goto repeat` loop ends if and only if some task is RUNNING already or is a sleeper whose
      deadline some sweep sees passed.  WAIT and EXIT tasks never help. */
  lemma {:induction false} PickTerminatesIff(tasks: seq<Option<Task>>, clock: (nat, nat) -> int)
    ensures (exists n: nat :: PickReturns(tasks, Rows(clock, n, |tasks|)))
            <==> (exists i: nat :: CanRun(tasks, clock, i))
  {
    if i: nat :| CanRun(tasks, clock, i) {
      var n := RunnableAppears(tasks, clock, i);
      var m := FirstSuccess(tasks, clock, n);
    }
    if n: nat :| PickReturns(tasks, Rows(clock, n, |tasks|)) {
      var i := RunnableWasThere(tasks, clock, n);
    }
  }

  /** With a RUNNING task in the table (as in co_eventloop, whose own task is) one sweep is
      enough, whatever the clock does. */
  lemma {:induction false} OneSweepSuffices(tasks: seq<Option<Task>>, times: seq<int>)
    requires |times| == |tasks| && AnyRunning(tasks)
    ensures PickReturns(tasks, [times])
  {
    var i :| IsRunning(tasks, i);
    SweepsWake(tasks, [times]);
    assert WokenBy(tasks[i], Sweeps(tasks, [times])[i], [times], i);
    assert IsRunning(Sweeps(tasks, [times]), i);
  }
}
