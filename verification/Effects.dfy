/** What each step does, told field by field: an account of the calls that does not lean on the functions
    the steps are made of. */
module Effects {
  import opened Runtime
  import opened Scheduler
  import opened Invariants
  import opened Runs
  import opened Waiters
  import Registrations

  // the C operators by their names in the model

  lemma MeetsIsAnd(a: bv32, b: bv32)
    ensures Meets(a, b) <==> a & b != 0
  {
  }

  lemma WithoutIsAndNot(a: bv32, b: bv32)
    ensures Without(a, b) == a & !b
  {
  }

  lemma WithIsOr(a: bv32, b: bv32)
    ensures With(a, b) == a | b
  {
  }

  /** Outside slot i and the mode nothing has changed. */
  ghost predicate OnlySlot(s: State, s': State, i: int) {
    && |s'.tasks| == |s.tasks| && Live(s, i) && Live(s', i)
    && (forall j :: 0 <= j < |s.tasks| && j != i ==> s'.tasks[j] == s.tasks[j])
    && s' == s.(tasks := s'.tasks, running := s'.running, kernel := s'.kernel, queues := s'.queues)
  }

  /** A block as calloc and the assignments of co_create leave it. */
  ghost predicate IsNew(t: Task, serial: nat) {
    && t.serial == serial && t.status == RUNNING && t.wakeuptime == 0 && t.fds == [] && t.pc == User && t.entry == Fresh
    && |t.events| == |t.revents| == MAX_FD
    && forall fd :: 0 <= fd < MAX_FD ==> t.events[fd] == Interest(0, 0) && t.revents[fd] == 0
  }

  lemma StartEffect()
    ensures var s := Init();
            && |s.tasks| == NR_TASKS && s.tasks[0].Some? && IsNew(s.tasks[0].value, 0)
            && (forall i :: 0 < i < NR_TASKS ==> s.tasks[i].None?)
            && s.count == 1 && s.current == 0 && s.running && s.births == 1 && s.kernel == map[]
            && |s.queues| == MAX_FD && forall f :: 0 <= f < MAX_FD ==> s.queues[f] == []
  {
  }

  // ---------------------------------------------------------------- which step is next

  /** Inside schedule() a dispatch comes next; otherwise the place of the current task decides. */
  lemma {:induction false} WhatComesNext(s: State, a: Action)
    requires Inv(s) && Ready(s, a)
    ensures a.DoDispatch? <==> !s.running
    ensures s.running ==> (a.DoResume? <==> Cur(s).pc.InSleep? || Cur(s).pc.InWait? || Cur(s).pc.InJoin?)
    ensures s.running && !a.DoResume? && !a.DoLoop? ==> Cur(s).pc == User
    ensures a.DoLoop? ==> Cur(s).pc == User || Cur(s).pc == InLoop
  {
  }

  lemma {:induction false} WhatCanCome(s: State, evs: seq<Event>)
    requires Inv(s) && s.running && forall k :: 0 <= k < |evs| ==> 0 <= evs[k].fd < MAX_FD
    ensures Cur(s).pc.InSleep? || Cur(s).pc.InWait? || Cur(s).pc.InJoin? ==> Ready(s, DoResume)
    ensures Cur(s).pc == User || Cur(s).pc == InLoop ==> Ready(s, DoLoop(evs))
    ensures Cur(s).pc == User ==>
              && Ready(s, DoCreate) && (s.current != 0 ==> Ready(s, DoFinish))
              && (forall now, seconds :: Ready(s, DoSleep(now, seconds)))
              && (forall fd :: 0 <= fd < MAX_FD ==> Ready(s, DoBlock(fd, EPOLLIN)) && Ready(s, DoBlock(fd, EPOLLOUT)))
              && (forall cid :: 0 <= cid < NR_TASKS ==> Ready(s, DoJoin(cid)))
    ensures Cur(s).pc != Done
  {
  }

  // ---------------------------------------------------------------- co_create

  /** co_create puts a new block into the lowest free slot, and does nothing if there is none. */
  lemma {:induction false} CreateEffect(s: State, i: nat)
    requires Inv(s) && Ready(s, DoCreate)
    requires i <= NR_TASKS && (forall j :: 0 <= j < i ==> s.tasks[j].Some?) && (i < NR_TASKS ==> s.tasks[i].None?)
    ensures Step(s, DoCreate).Next?
    ensures var s' := Step(s, DoCreate).state;
            if i == NR_TASKS then s' == s
            else && |s'.tasks| == NR_TASKS && s'.tasks[i].Some? && IsNew(s'.tasks[i].value, s.births)
                 && (forall j :: 0 <= j < NR_TASKS && j != i ==> s'.tasks[j] == s.tasks[j])
                 && s' == s.(tasks := s'.tasks, count := s.count + 1, births := s.births + 1)
  {
    hide TaskOK, QueuesOK, SerialsOK;
  }

  // ---------------------------------------------------------------- schedule

  /** The e-th slot after `current`, counting round the table. */
  function Later(current: int, e: int): int {
    (current + e) % NR_TASKS
  }

  /** schedule() picks the first RUNNING slot after the current one, counting round the table, once its
      sweeps have woken exactly the sleepers with a reading past their deadline. */
  lemma {:induction false} DispatchEffect(s: State, sweeps: seq<seq<int>>) returns (d: int)
    requires Inv(s) && Ready(s, DoDispatch(sweeps))
    ensures Step(s, DoDispatch(sweeps)).Next?
    ensures var s' := Step(s, DoDispatch(sweeps)).state;
            && s' == s.(tasks := s'.tasks, current := s'.current, running := true) && |s'.tasks| == NR_TASKS
            && 1 <= d <= NR_TASKS && s'.current == Later(s.current, d) && IsUp(s'.tasks, s'.current)
            && forall e :: 1 <= e < d ==> !IsUp(s'.tasks, Later(s.current, e))
    ensures |sweeps| > 0 && forall k :: 0 <= k < |sweeps| ==> |sweeps[k]| == NR_TASKS
    ensures forall i :: 0 <= i < NR_TASKS ==>
              Step(s, DoDispatch(sweeps)).state.tasks[i] == if Passed(s.tasks[i], sweeps, i) then
                Some(s.tasks[i].value.(status := RUNNING)) else s.tasks[i]
  {
    hide Inv, Scan, IsUp, AnyRunning, Sweeps;
    InvSized(s);
    var tasks := Sweeps(s.tasks, sweeps);
    d := ScanEffect(tasks, s.current);
    SweepsWake(s.tasks, sweeps);
    forall i | 0 <= i < NR_TASKS
      ensures tasks[i] ==
                if Passed(s.tasks[i], sweeps, i) then Some(s.tasks[i].value.(status := RUNNING)) else s.tasks[i]
    {
      assert WokenBy(s.tasks[i], tasks[i], sweeps, i);
    }
  }

  lemma {:induction false} ScanEffect(tasks: seq<Option<Task>>, current: int) returns (d: int)
    requires |tasks| == NR_TASKS && 0 <= current < NR_TASKS && AnyRunning(tasks)
    ensures 1 <= d <= NR_TASKS && Scan(tasks, current, 1) == Later(current, d) && IsUp(tasks, Later(current, d))
    ensures forall e :: 1 <= e < d ==> !IsUp(tasks, Later(current, e))
  {
    hide Scan;
    PickIsFirst(tasks, current);
    var j := Scan(tasks, current, 1);
    d := Distance(current, j);
    SlotsAndDistances(current, j);
    forall e | 1 <= e < d
      ensures !IsUp(tasks, Later(current, e))
    {
      var i := Later(current, e);
      assert IsUp(tasks, i) ==> IsRunning(tasks, i);
      assert Distance(current, i) == e;
    }
  }

  predicate IsUp(tasks: seq<Option<Task>>, i: int) {
    0 <= i < |tasks| && tasks[i].Some? && tasks[i].value.status == RUNNING
  }

  /** A sleeper, and one of its readings of the 32-bit clock that is greater than its deadline. */
  ghost predicate Passed(t: Option<Task>, sweeps: seq<seq<int>>, i: nat)
    requires forall k :: 0 <= k < |sweeps| ==> i < |sweeps[k]|
  {
    t.Some? && t.value.status == SLEEP
    && exists k :: 0 <= k < |sweeps| && sweeps[k][i] % 0x1_0000_0000 > t.value.wakeuptime
  }

  /** Which readings one schedule() makes: it goes on sweeping until somebody is RUNNING, and stops then. */
  lemma {:induction false} DispatchReadyIff(s: State, sweeps: seq<seq<int>>)
    requires Inv(s) && !s.running && |s.tasks| == NR_TASKS && forall k :: 0 <= k < |sweeps| ==> |sweeps[k]| == NR_TASKS
    ensures Ready(s, DoDispatch(sweeps)) <==>
              && |sweeps| > 0
              && (exists i :: 0 <= i < NR_TASKS && (IsUp(s.tasks, i) || Passed(s.tasks[i], sweeps, i)))
              && (|sweeps| > 1 ==> forall i :: 0 <= i < NR_TASKS ==>
                    !IsUp(s.tasks, i) && !Passed(s.tasks[i], sweeps[..|sweeps| - 1], i))
  {
    hide Inv, Sweeps, AnyRunning, Passed, IsUp;
    InvSized(s);
    if |sweeps| > 0 {
      UpAfterIff(s.tasks, sweeps);
      forall k | 0 < k < |sweeps|
        ensures AnyRunning(Sweeps(s.tasks, sweeps[..k])) <==>
                  exists i :: 0 <= i < NR_TASKS && (IsUp(s.tasks, i) || Passed(s.tasks[i], sweeps[..k], i))
        ensures forall i :: 0 <= i < NR_TASKS && Passed(s.tasks[i], sweeps[..k], i) ==>
                  Passed(s.tasks[i], sweeps[..|sweeps| - 1], i)
      {
        UpAfterIff(s.tasks, sweeps[..k]);
        PassedLater(s.tasks, sweeps, k);
      }
    }
  }

  lemma {:induction false} PassedLater(tasks: seq<Option<Task>>, sweeps: seq<seq<int>>, k: nat)
    requires k < |sweeps| && |tasks| == NR_TASKS && forall k :: 0 <= k < |sweeps| ==> |sweeps[k]| == NR_TASKS
    ensures forall i :: 0 <= i < NR_TASKS && Passed(tasks[i], sweeps[..k], i) ==>
              Passed(tasks[i], sweeps[..|sweeps| - 1], i)
  {
    assert forall j :: 0 <= j < k ==> sweeps[..k][j] == sweeps[..|sweeps| - 1][j];
  }

  lemma {:induction false} UpAfterIff(tasks: seq<Option<Task>>, sweeps: seq<seq<int>>)
    requires |tasks| == NR_TASKS && forall k :: 0 <= k < |sweeps| ==> |sweeps[k]| == NR_TASKS
    ensures AnyRunning(Sweeps(tasks, sweeps)) <==>
              exists i :: 0 <= i < NR_TASKS && (IsUp(tasks, i) || Passed(tasks[i], sweeps, i))
  {
    hide Sweeps;
    SweepsWake(tasks, sweeps);
    forall i | 0 <= i < NR_TASKS
      ensures IsRunning(Sweeps(tasks, sweeps), i) <==> IsUp(tasks, i) || Passed(tasks[i], sweeps, i)
    {
      assert WokenBy(tasks[i], Sweeps(tasks, sweeps)[i], sweeps, i);
    }
  }

  // ---------------------------------------------------------------- co_sleep

  /** co_sleep sets the deadline, in 32 bits, and goes to sleep. */
  lemma {:induction false} SleepEffect(s: State, now: int, seconds: int)
    requires Inv(s) && Ready(s, DoSleep(now, seconds))
    ensures Step(s, DoSleep(now, seconds)).Next?
    ensures var s', deadline := Step(s, DoSleep(now, seconds)).state, now + 1000 * seconds;
            && OnlySlot(s, s', s.current) && s' == s.(tasks := s'.tasks, running := false)
            && Cur(s') == Cur(s).(status := SLEEP, wakeuptime := deadline % 0x1_0000_0000, pc := InSleep(deadline))
  {
    hide TaskOK, QueuesOK, SerialsOK;
    Clock.WakeupTimeIsDeadline(now, seconds);
  }

  /** It returns to its caller as soon as its schedule() returns, and does nothing else. */
  lemma {:induction false} SleepReturns(s: State)
    requires Inv(s) && Ready(s, DoResume) && Cur(s).pc.InSleep?
    ensures Step(s, DoResume).Next?
    ensures var s' := Step(s, DoResume).state;
            OnlySlot(s, s', s.current) && s' == s.(tasks := s'.tasks) && Cur(s') == Cur(s).(pc := User)
  {
    hide TaskOK, QueuesOK, SerialsOK;
  }

  // ---------------------------------------------------------------- the blocking calls

  /** The caller in its wait loop, at the end of the queue. */
  ghost predicate Queues(s: State, s': State, fd: int, bit: bv32)
    requires Live(s, s.current) && |s.queues| == MAX_FD && 0 <= fd < MAX_FD
  {
    && OnlySlot(s, s', s.current) && !s'.running
    && Cur(s').status == WAIT && Cur(s').pc == InWait(fd, bit) && Cur(s').entry == Queued
    && s'.queues == s.queues[fd := s.queues[fd] + [s.current]]
  }

  /** The call has failed, and left the status at WAIT. */
  ghost predicate Fails(s: State, s': State)
    requires Live(s, s.current)
  {
    && OnlySlot(s, s', s.current) && s'.running && s'.queues == s.queues && s'.kernel == s.kernel
    && Cur(s').status == WAIT && Cur(s').pc == User && Cur(s').entry == Cur(s).entry
  }

  /** A first call on a descriptor, for whichever bit: EPOLLIN is recorded, and nothing but it; the kernel
      is asked for the bit.  It faults if and only if the list is full. */
  lemma {:induction false} FirstCallEffect(s: State, fd: int, bit: bv32)
    requires Inv(s) && Ready(s, DoBlock(fd, bit)) && Cur(s).events[fd].fd <= 0
    ensures Step(s, DoBlock(fd, bit)).Next? <==> |Cur(s).fds| < MAX_FD
    ensures Step(s, DoBlock(fd, bit)).Next? ==>
              var s', t := Step(s, DoBlock(fd, bit)).state, Cur(s);
              && OnlySlot(s, s', s.current)
              && Cur(s') == t.(status := WAIT, pc := Cur(s').pc, entry := Cur(s').entry, fds := t.fds + [fd],
                               events := t.events[fd := Interest(fd, 1)],
                               revents := t.revents[fd := Without(t.revents[fd], bit)])
              && (fd in s.kernel ==> Fails(s, s'))
              && (fd !in s.kernel ==> Queues(s, s', fd, bit) && s'.kernel == s.kernel[fd := bit])
  {
    hide Inv, Step, Ready, Meets, TaskOK, With, Without, AsksForMore, Fails, Queues;
    InvSized(s);
    CallerIsIdle(s, fd, bit);
    CallEffect(s, fd, bit);
  }

  lemma {:induction false} CallerIsIdle(s: State, fd: int, bit: bv32)
    requires Inv(s) && Ready(s, DoBlock(fd, bit))
    ensures Cur(s).entry != Queued && Cur(s).pc == User && TaskOK(Cur(s)) && 0 <= fd < MAX_FD
  {
  }

  /** A further call: the record gains the bit, and the kernel is asked for the record, if the record was
      another one; if the kernel does not know the descriptor, that fails. */
  lemma {:induction false} FurtherCallEffect(s: State, fd: int, bit: bv32)
    requires Inv(s) && Ready(s, DoBlock(fd, bit)) && Cur(s).events[fd].fd > 0
    ensures Step(s, DoBlock(fd, bit)).Next?
    ensures var s', t, mask := Step(s, DoBlock(fd, bit)).state, Cur(s), Cur(s).events[fd].mask;
            && OnlySlot(s, s', s.current)
            && Cur(s') == t.(status := WAIT, pc := Cur(s').pc, entry := Cur(s').entry,
                             events := t.events[fd := t.events[fd].(mask := With(mask, bit))],
                             revents := t.revents[fd := Without(t.revents[fd], bit)])
            && (mask != bit && fd !in s.kernel ==> Fails(s, s'))
            && (mask == bit || fd in s.kernel ==>
                  && Queues(s, s', fd, bit)
                  && s'.kernel == if mask == bit then s.kernel else s.kernel[fd := With(mask, bit)])
  {
    hide Inv, Step, Ready, Asked, AddQueue, TaskOK, With, Without;
    InvSized(s);
    CallerIsIdle(s, fd, bit);
    FurtherAsks(Cur(s), fd, bit);
    FurtherAdds(s, fd, bit);
    CallEffect(s, fd, bit);
  }

  /** What accepted and refused calls do, told by what add_queue makes of the task. */
  lemma {:induction false} CallEffect(s: State, fd: int, bit: bv32)
    requires Inv(s) && Ready(s, DoBlock(fd, bit))
    ensures Step(s, DoBlock(fd, bit)).Next? <==> !AddQueue(s, fd, bit).FdsOverrun?
    ensures Step(s, DoBlock(fd, bit)).Next? ==>
              var s', t := Step(s, DoBlock(fd, bit)).state, Asked(Cur(s), fd, bit);
              && OnlySlot(s, s', s.current) && Cur(s') == t.(pc := Cur(s').pc, entry := Cur(s').entry)
              && (AddQueue(s, fd, bit).Refused? ==> Fails(s, s'))
              && (AddQueue(s, fd, bit).Added? ==>
                    Queues(s, s', fd, bit) && s'.kernel == AddQueue(s, fd, bit).state.kernel)
  {
    hide TaskOK, QueuesOK, SerialsOK, Asked, AddQueue, Meets;
    AddQueueForm(s, fd, bit);
    AsksToWait(Cur(s), fd, bit);
    if AddQueue(s, fd, bit).Added? {
      AcceptedCallSuspends(s, fd, bit);
    }
  }

  lemma AsksToWait(t: Task, fd: int, bit: bv32)
    requires |t.events| == |t.revents| == MAX_FD && 0 <= fd < MAX_FD
    ensures Asked(t, fd, bit).status == WAIT
  {
  }

  lemma {:induction false} FurtherAsks(t: Task, fd: int, bit: bv32)
    requires TaskOK(t) && t.pc == User && 0 <= fd < MAX_FD && t.events[fd].fd > 0
    ensures Asked(t, fd, bit) == t.(status := WAIT, revents := t.revents[fd := Without(t.revents[fd], bit)],
                                    events := t.events[fd := t.events[fd].(mask := With(t.events[fd].mask, bit))])
  {
    hide With, Without, AsksForMore, Registered;
    FurtherBits(t, fd, bit);
    assert t.events[fd := t.events[fd]] == t.events;
  }

  /** What the kernel is asked for. */
  lemma {:induction false} FurtherAdds(s: State, fd: int, bit: bv32)
    requires Sized(s) && 0 <= fd < MAX_FD && TaskOK(Cur(s)) && Cur(s).pc == User && Cur(s).events[fd].fd > 0
    ensures var mask := Cur(s).events[fd].mask;
            if mask != bit && fd !in s.kernel then AddQueue(s, fd, bit).Refused?
            else && AddQueue(s, fd, bit).Added?
                 && AddQueue(s, fd, bit).state.kernel ==
                      if mask == bit then s.kernel else s.kernel[fd := With(mask, bit)]
  {
    hide TaskOK, With, Without, AsksForMore, Asked;
    FurtherBits(Cur(s), fd, bit);
    FurtherAsks(Cur(s), fd, bit);
  }

  lemma FurtherBits(t: Task, fd: int, bit: bv32)
    requires TaskOK(t) && t.pc == User && 0 <= fd < MAX_FD && t.events[fd].fd > 0
    ensures var mask := t.events[fd].mask;
            && (AsksForMore(mask, bit) <==> mask != bit) && (mask == bit ==> With(mask, bit) == mask)
            && With(bit, With(mask, bit)) == With(mask, bit)
  {
    hide With, Without, AsksForMore, Meets;
    Registrations.ParsedConditionIff(t.events[fd].mask, bit);
    Union(t.events[fd].mask, bit);
  }

  lemma Union(a: bv32, b: bv32)
    ensures With(a, a) == a && With(b, With(a, b)) == With(a, b)
  {
  }

  // ---------------------------------------------------------------- back in a wait loop

  /** A waiter that has not been told of its bit goes back to WAIT; one that has leaves the call, and a
      writer drops EPOLLOUT from its records and from the interest set. */
  lemma {:induction false} WaitEffect(s: State)
    requires Inv(s) && Ready(s, DoResume) && Cur(s).pc.InWait?
    ensures Step(s, DoResume).Next? && 0 <= Cur(s).pc.fd < MAX_FD == |Cur(s).events| == |Cur(s).revents|
    ensures var s', t, fd := Step(s, DoResume).state, Cur(s), Cur(s).pc.fd;
            && OnlySlot(s, s', s.current) && s'.queues == s.queues
            && (!Meets(t.revents[fd], t.pc.bit) ==>
                  Cur(s') == t.(status := WAIT) && !s'.running && s'.kernel == s.kernel)
            && (Meets(t.revents[fd], t.pc.bit) && t.pc.bit == EPOLLIN ==>
                  Cur(s') == t.(pc := User) && s'.running && s'.kernel == s.kernel)
            && (Meets(t.revents[fd], t.pc.bit) && t.pc.bit == EPOLLOUT ==>
                  var mask := Without(t.events[fd].mask, EPOLLOUT);
                  && Cur(s') == t.(pc := User, events := t.events[fd := t.events[fd].(mask := mask)],
                                   revents := t.revents[fd := Without(t.revents[fd], EPOLLOUT)])
                  && s'.running && s'.kernel == if fd in s.kernel then s.kernel[fd := mask] else s.kernel)
  {
    hide Registered, QueuesOK, SerialsOK, Meets, Without;
    assert TaskOK(Cur(s));
  }

  // ---------------------------------------------------------------- co_join

  /** The test of co_join, at the call and after every schedule(). */
  lemma {:induction false} JoinEffect(s: State, a: Action, cid: int)
    requires Inv(s) && Ready(s, a) && 0 <= cid < NR_TASKS == |s.tasks|
    requires a == DoJoin(cid) || (a == DoResume && Cur(s).pc.InJoin? && Cur(s).pc.cid == cid)
    ensures s.tasks[cid].None? ==> Step(s, a) == Fault(NullDereference)
    ensures s.tasks[cid].Some? ==> Step(s, a).Next?
    ensures s.tasks[cid].Some? && s.tasks[cid].value.status != EXIT ==>
              var s', target := Step(s, a).state, if a.DoJoin? then Get(s, cid).serial else Cur(s).pc.target;
              && OnlySlot(s, s', s.current) && s' == s.(tasks := s'.tasks, running := false)
              && Cur(s') == Cur(s).(pc := InJoin(cid, target))
    ensures s.tasks[cid].Some? && s.tasks[cid].value.status == EXIT ==>
              var s' := Step(s, a).state;
              && cid != s.current && |s'.tasks| == NR_TASKS && s'.tasks[cid] == None
              && s'.tasks[s.current] == Some(Cur(s).(pc := User))
              && (forall j :: 0 <= j < NR_TASKS && j != cid && j != s.current ==> s'.tasks[j] == s.tasks[j])
              && s' == s.(tasks := s'.tasks, count := s.count - 1)
  {
    hide Registered, QueuesOK, SerialsOK;
    assert TaskOK(Cur(s));
  }

  // ---------------------------------------------------------------- co_eventloop

  /** One event: the first waiter leaves the queue, and is woken and told only if its recorded mask meets
      what is reported. */
  ghost predicate EventTakes(s: State, ev: Event, s': State)
    requires |s.queues| == MAX_FD && 0 <= ev.fd < MAX_FD
  {
    var q := s.queues[ev.fd];
    && |q| > 0 && OnlySlot(s, s', q[0])
    && s' == s.(tasks := s'.tasks, queues := s.queues[ev.fd := q[1..]])
    && Told(Get(s, q[0]), ev, Get(s', q[0]))
    && Get(s', q[0]).entry == Stale(ev.fd, if |q| > 1 && Live(s, q[1]) then Some(Get(s, q[1]).serial) else None)
  }

  ghost predicate Told(t: Task, ev: Event, t': Task) {
    && 0 <= ev.fd < |t.events| == |t.revents|
    && t' == t.(status := t'.status, revents := t'.revents, entry := t'.entry)
    && if Meets(t.events[ev.fd].mask, ev.events)
       then t'.status == RUNNING && t'.revents == t.revents[ev.fd := ev.events]
       else t'.status == t.status && t'.revents == t.revents
  }

  /** A turn of the loop without events only suspends the caller. */
  lemma {:induction false} IdleEffect(s: State)
    requires Inv(s) && Ready(s, DoLoop([]))
    ensures Step(s, DoLoop([])).Next?
    ensures var s' := Step(s, DoLoop([])).state;
            && OnlySlot(s, s', s.current) && s' == s.(tasks := s'.tasks, running := false)
            && Cur(s') == Cur(s).(pc := InLoop)
  {
    hide TaskOK, QueuesOK, SerialsOK;
  }

  /** And a turn with events takes one after the other. */
  lemma {:induction false} EventEffect(s: State, evs: seq<Event>, ev: Event)
    requires Inv(s) && Ready(s, DoLoop(evs)) && 0 <= ev.fd < MAX_FD
    ensures Ready(s, DoLoop(evs + [ev]))
    ensures Step(s, DoLoop(evs)).Fault? ==> Step(s, DoLoop(evs + [ev])) == Fault(NullDereference)
    ensures Step(s, DoLoop(evs)).Next? ==>
              var s1 := Step(s, DoLoop(evs)).state;
              && |s1.queues| == MAX_FD
              && if |s1.queues[ev.fd]| == 0 then Step(s, DoLoop(evs + [ev])) == Fault(NullDereference)
                 else Step(s, DoLoop(evs + [ev])).Next? && EventTakes(s1, ev, Step(s, DoLoop(evs + [ev])).state)
  {
    hide Inv, Notified, EventTakes;
    assert (evs + [ev])[..|evs|] == evs;
    InvSized(s);
    OnlyNullFaults(s, evs);
    if Events(s, evs).Next? {
      EventsKeep(s, evs);
      var s1 := Events(s, evs).state;
      if |s1.queues[ev.fd]| > 0 {
        TakesAndSuspends(s1, ev);
      }
    }
  }

  lemma {:induction false} TakesAndSuspends(s: State, ev: Event)
    requires Inv(s) && s.running && 0 <= ev.fd < MAX_FD == |s.queues| && |s.queues[ev.fd]| > 0 && Live(s, s.current)
    ensures Sized(s) && EventStep(s, ev).Next? && EventStep(s, ev).state.current == s.current
    ensures Live(EventStep(s, ev).state, s.current)
    ensures var s' := EventStep(s, ev).state;
            EventTakes(Suspend(s, Cur(s).(pc := InLoop)), ev, Suspend(s', Cur(s').(pc := InLoop)))
  {
    hide Inv, Notified, Told;
    CallerIsNotQueued(s, ev.fd);
    NotifiedIsTold(Get(s, s.queues[ev.fd][0]), ev, Second(s, ev.fd));
  }

  lemma {:induction false} OnlyNullFaults(s: State, evs: seq<Event>)
    requires Sized(s) && InRange(evs)
    ensures Events(s, evs).Fault? ==> Events(s, evs) == Fault(NullDereference)
  {
    if |evs| > 0 {
      OnlyNullFaults(s, evs[..|evs| - 1]);
    }
  }

  lemma CallerIsNotQueued(s: State, fd: int)
    requires Inv(s) && s.running && 0 <= fd < MAX_FD
    ensures Sized(s) && forall k :: 0 <= k < |s.queues[fd]| ==> Live(s, s.queues[fd][k]) && s.queues[fd][k] != s.current
  {
    assert forall k :: 0 <= k < |s.queues[fd]| ==> WaitsAt(s.tasks[s.queues[fd][k]].value, fd);
  }

  lemma NotifiedIsTold(t: Task, ev: Event, succ: Option<nat>)
    requires 0 <= ev.fd < |t.events| == |t.revents|
    ensures Told(t, ev, Notified(t, ev, succ)) && Notified(t, ev, succ).entry == Stale(ev.fd, succ)
  {
    hide Meets;
  }

  // ---------------------------------------------------------------- the end of a coroutine

  /** A finished coroutine keeps its block, with status EXIT and an empty list; the interest set loses what
      was on the list, and nothing else changes.  */
  lemma {:induction false} FinishEffect(s: State)
    requires Inv(s) && Ready(s, DoFinish)
    ensures |Cur(s).fds| > 0 && Cur(s).entry == Fresh ==> Step(s, DoFinish) == Fault(NullDereference)
    ensures Step(s, DoFinish).Next? ==>
              var s' := Step(s, DoFinish).state;
              && OnlySlot(s, s', s.current) && s' == s.(tasks := s'.tasks, kernel := s'.kernel, running := false)
              && Cur(s') == Cur(s).(status := EXIT, fds := [], pc := Done)
              && (forall fd :: fd in s'.kernel <==> fd in s.kernel && fd !in Cur(s).fds)
              && (forall fd :: fd in s'.kernel ==> s'.kernel[fd] == s.kernel[fd])
  {
    hide TaskOK, QueuesOK, SerialsOK;
  }
}
