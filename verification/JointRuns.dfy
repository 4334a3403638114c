/** The task table and the saved stacks on one run: the scheduler's dispatches are the processor's
    switches, and what the state machine calls the place where a task is suspended is what its
    registers are when it goes on. */
module JointRuns {
  import opened Runtime
  import opened Invariants
  import opened Runs
  import X = ContextSwitch
  import C = ContextRuns

  /** What the processor does in a step.  Task blocks are numbered by serial.  co_create builds a frame
      for the task it creates; schedule switches if it picks another task (co_switch_to returns at once
      otherwise); everything else is code of the current task.  `arg` is the function co_create was
      given, or the return address of the call of switch_to. */
  function Image(s: State, a: Action, s': State, arg: int): C.Action
    requires Live(s, s.current) && Live(s', s'.current)
  {
    if a.DoCreate? && s'.births > s.births then C.Make(s.births, arg)
    else if a.DoDispatch? && s'.current != s.current then C.Switch(Cur(s').serial, arg)
    else C.Execute
  }

  /** A run of the machine, a run of the processor, and what connects them. */
  datatype Trace = Trace(
    ss: seq<State>, acts: seq<Action>,
    areas: seq<C.Area>, cs: seq<C.State>, cacts: seq<C.Action>, args: seq<int>)

  ghost predicate Joint(t: Trace) {
    && Run(t.ss, t.acts) && C.Run(t.areas, t.cs, t.cacts)
    && |t.cs| == |t.ss| && |t.args| == |t.acts| == |t.cacts|
    && t.cs[0].current == Cur(t.ss[0]).serial
    && forall k {:trigger t.cacts[k]} :: 0 <= k < |t.acts| ==>
         t.cacts[k] == Image(t.ss[k], t.acts[k], t.ss[k + 1], t.args[k])
  }

  /** Table and processor always agree on who is executing. */
  lemma {:induction false} SameTaskExecutes(t: Trace, n: nat)
    requires Joint(t) && n < |t.ss|
    ensures t.cs[n].current == Cur(t.ss[n]).serial
  {
    hide Step, Ready, Inv, Image;
    if n > 0 {
      SameTaskExecutes(t, n - 1);
      RunKeeps(t.ss, t.acts, n);
      assert t.cacts[n - 1] == Image(t.ss[n - 1], t.acts[n - 1], t.ss[n], t.args[n - 1]);
      assert Ready(t.ss[n - 1], t.acts[n - 1]) && Step(t.ss[n - 1], t.acts[n - 1]) == Next(t.ss[n]);
      assert C.Steps(t.areas, t.cs[n - 1], t.cacts[n - 1], t.cs[n]);
      ImageKeeps(t.areas, t.ss[n - 1], t.acts[n - 1], t.ss[n], t.args[n - 1], t.cs[n - 1], t.cs[n]);
    }
  }

  lemma {:induction false} ImageKeeps(areas: seq<C.Area>, s: State, a: Action, s': State, arg: int, c: C.State,
                                      c': C.State)
    requires Inv(s) && Inv(s') && Ready(s, a) && Step(s, a) == Next(s')
    requires c.current == Cur(s).serial && C.Steps(areas, c, Image(s, a, s', arg), c')
    ensures c'.current == Cur(s').serial
  {
    hide Inv, X.FrameAt, X.Switched, X.FrameBuilt;
    if a.DoDispatch? {
      CurrentIsLive(s);
      DispatchKeepsTask(s, a, s.current);
    } else {
      RunsOn(s, a);
    }
  }

  lemma {:induction false} RunsOn(s: State, a: Action)
    requires Inv(s) && Ready(s, a) && Step(s, a).Next? && !a.DoDispatch?
    ensures var s' := Step(s, a).state;
            s'.current == s.current && Live(s', s.current) && Cur(s').serial == Cur(s).serial
  {
    hide Step, Inv;
    CurrentStays(s, a);
  }

  lemma {:induction false} DispatchKeepsTask(s: State, a: Action, i: int)
    requires Inv(s) && Ready(s, a) && Step(s, a).Next? && a.DoDispatch? && Live(s, i)
    ensures var s' := Step(s, a).state;
            Live(s', i) && Get(s', i).serial == Get(s, i).serial && Get(s', i).pc == Get(s, i).pc
  {
    hide Step, Inv;
    OthersArePassive(s, a, i);
  }

  lemma {:induction false} OwnSerial(s: State, i: int, j: int)
    requires Inv(s) && Live(s, i) && Live(s, j) && i != j
    ensures Get(s, i).serial != Get(s, j).serial && Get(s, i).serial < s.births
  {
  }

  lemma {:induction false} StepOf(t: Trace, k: nat)
    requires Joint(t) && k + 1 < |t.ss|
    ensures k < |t.args| == |t.acts| == |t.cacts|
    ensures Inv(t.ss[k]) && Inv(t.ss[k + 1]) && Ready(t.ss[k], t.acts[k])
    ensures Step(t.ss[k], t.acts[k]) == Next(t.ss[k + 1])
    ensures t.cacts[k] == Image(t.ss[k], t.acts[k], t.ss[k + 1], t.args[k])
  {
    hide Step, Ready, Inv, Image, C.Run;
    RunKeeps(t.ss, t.acts, k + 1);
  }

  ghost predicate Idle(t: Trace, i: int, n: nat, m: nat)
    requires Joint(t)
  {
    && n <= m < |t.ss| && (forall k :: n <= k <= m ==> t.ss[k].current != i)
    && forall k :: n <= k < m ==> !Frees(t.ss[k], t.acts[k], i)
  }

  /** While slot i is not the current one, and nobody frees it, its task is as good as asleep: it keeps
      its serial and its place, and no step of others is a creation of or a switch to it. */
  lemma {:induction false} NotDisturbed(t: Trace, i: int, n: nat, m: nat)
    requires Joint(t) && Idle(t, i, n, m) && Live(t.ss[n], i)
    ensures Live(t.ss[m], i)
    ensures Get(t.ss[m], i).serial == Get(t.ss[n], i).serial && Get(t.ss[m], i).pc == Get(t.ss[n], i).pc
    ensures forall k :: n <= k < m ==> !C.Disturbs(t.cacts[k], Get(t.ss[n], i).serial)
  {
    hide Step, Ready, Inv, Image, C.Run, C.Disturbs, Frees, Run;
    if n < m {
      assert Idle(t, i, n, m - 1);
      NotDisturbed(t, i, n, m - 1);
      StepOf(t, m - 1);
      CurrentIsLive(t.ss[m - 1]);
      assert !Frees(t.ss[m - 1], t.acts[m - 1], i);
      IdleStep(t.ss[m - 1], t.acts[m - 1], t.ss[m], t.args[m - 1], i);
    }
  }

  lemma {:induction false} IdleStep(s: State, a: Action, s': State, arg: int, i: int)
    requires Inv(s) && Inv(s') && Ready(s, a) && Step(s, a) == Next(s')
    requires Live(s, i) && s.current != i && s'.current != i && !Frees(s, a, i)
    ensures Live(s, s.current) && Live(s', s'.current) && Live(s', i)
    ensures Get(s', i).serial == Get(s, i).serial && Get(s', i).pc == Get(s, i).pc
    ensures !C.Disturbs(Image(s, a, s', arg), Get(s, i).serial)
  {
    hide Step, Ready, Inv, Image, C.Disturbs, Frees;
    OthersArePassive(s, a, i);
    ImageIsOther(s, a, s', arg, i);
  }

  lemma {:induction false} ImageIsOther(s: State, a: Action, s': State, arg: int, i: int)
    requires Inv(s) && Inv(s') && Live(s, i) && Live(s', i) && Get(s', i).serial == Get(s, i).serial
    requires s.current != i && s'.current != i
    ensures Live(s, s.current) && Live(s', s'.current) && !C.Disturbs(Image(s, a, s', arg), Get(s, i).serial)
  {
    CurrentIsLive(s);
    CurrentIsLive(s');
    OwnSerial(s, i, s.current);
    OwnSerial(s', i, s'.current);
    hide Inv;
  }

  lemma CurrentIsLive(s: State)
    requires Inv(s)
    ensures Live(s, s.current)
  {
  }

  /** A task that one schedule() leaves and a later one picks again goes on with the registers it had,
      at the return address of its call, with its stack intact, and at the place the task table has
      for it. */
  lemma {:induction false} TasksAreIsolated(t: Trace, i: int, n: nat, m: nat)
    requires Joint(t) && n < m < |t.acts|
    requires t.acts[n].DoDispatch? && t.ss[n].current == i && t.acts[m].DoDispatch? && t.ss[m + 1].current == i
    requires Idle(t, i, n + 1, m)
    ensures t.cs[n].current < |t.areas|
    ensures Get(t.ss[m + 1], i).serial == Get(t.ss[n], i).serial && Get(t.ss[m + 1], i).pc == Get(t.ss[n], i).pc
    ensures t.cs[m + 1].cpu == t.cs[n].cpu.(rip := t.args[n])
    ensures C.SameStack(t.areas[t.cs[n].current], t.cs[n].cpu.rsp, t.cs[n].mem, t.cs[m + 1].mem)
  {
    hide Step, Ready, Inv, C.SameStack;
    RunKeeps(t.ss, t.acts, m + 1);
    SameTaskExecutes(t, n);
    assert Ready(t.ss[n], t.acts[n]) && Step(t.ss[n], t.acts[n]) == Next(t.ss[n + 1]);
    DispatchKeepsTask(t.ss[n], t.acts[n], i);
    NotDisturbed(t, i, n + 1, m);
    assert Ready(t.ss[m], t.acts[m]) && Step(t.ss[m], t.acts[m]) == Next(t.ss[m + 1]);
    DispatchKeepsTask(t.ss[m], t.acts[m], i);
    assert t.cacts[n] == Image(t.ss[n], t.acts[n], t.ss[n + 1], t.args[n]);
    assert t.cacts[m] == Image(t.ss[m], t.acts[m], t.ss[m + 1], t.args[m]);
    assert C.Steps(t.areas, t.cs[n], t.cacts[n], t.cs[n + 1]);
    C.ContextIsolation(t.areas, t.cs, t.cacts, n, m);
  }

  /** A task that co_create makes and a schedule() picks for the first time enters its function: start,
      with the task block as argument, on a fresh stack. */
  lemma {:induction false} NewTasksStart(t: Trace, i: int, n: nat, m: nat)
    requires Joint(t) && n < m < |t.acts|
    requires t.acts[n].DoCreate? && 0 <= i < NR_TASKS && t.ss[n].tasks[i].None? && Live(t.ss[n + 1], i)
    requires t.acts[m].DoDispatch? && t.ss[m + 1].current == i
    requires Idle(t, i, n + 1, m)
    ensures Cur(t.ss[m + 1]).pc == User && Cur(t.ss[m + 1]).serial < |t.areas|
    ensures var c, area := t.cs[m + 1].cpu, t.areas[Cur(t.ss[m + 1]).serial];
            c.rip == t.args[n] && c.rdi == area.block && c.rsp == area.hi - 1 && X.Load(t.cs[m + 1].mem, c.rsp) == 100
  {
    hide Step, Ready, Inv, X.Load;
    RunKeeps(t.ss, t.acts, m + 1);
    assert Ready(t.ss[n], t.acts[n]) && Step(t.ss[n], t.acts[n]) == Next(t.ss[n + 1]);
    CreatesOne(t.ss[n], i, t.ss[n + 1]);
    NotDisturbed(t, i, n + 1, m);
    assert Ready(t.ss[m], t.acts[m]) && Step(t.ss[m], t.acts[m]) == Next(t.ss[m + 1]);
    DispatchKeepsTask(t.ss[m], t.acts[m], i);
    assert t.cacts[n] == Image(t.ss[n], t.acts[n], t.ss[n + 1], t.args[n]);
    assert t.cacts[m] == Image(t.ss[m], t.acts[m], t.ss[m + 1], t.args[m]);
    C.FirstDispatch(t.areas, t.cs, t.cacts, n, m);
  }

  lemma {:induction false} CreatesOne(s: State, i: int, s': State)
    requires Inv(s) && Ready(s, DoCreate) && Step(s, DoCreate) == Next(s')
    requires 0 <= i < NR_TASKS && s.tasks[i].None? && Live(s', i)
    ensures s'.births > s.births && Get(s', i).serial == s.births && Get(s', i).pc == User
  {
    hide TaskOK, QueuesOK, SerialsOK;
  }
}
