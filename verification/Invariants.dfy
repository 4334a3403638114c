/** What every step of every run keeps, with no assumption on what the coroutines do beyond the
    descriptor and slot ranges of the C arrays. */
module Invariants {
  import opened Clock
  import opened Runtime
  import opened Scheduler

  /** The registration list is the set of registered descriptors: no positive descriptor twice.
      (Descriptor 0 is never seen as registered, so it may be listed many times.)  What is recorded
      for a registered descriptor always includes EPOLLIN. */
  ghost predicate Registered(fds: seq<int>, events: seq<Interest>) {
    && |events| == MAX_FD && |fds| <= MAX_FD
    && (forall fd :: 0 <= fd < MAX_FD && events[fd].fd > 0 ==> Meets(events[fd].mask, EPOLLIN))
    && (forall k :: 0 <= k < |fds| ==> 0 <= fds[k] < MAX_FD && events[fds[k]].fd == fds[k])
    && (forall fd :: 0 <= fd < MAX_FD ==> events[fd].fd == 0 || (events[fd].fd == fd && fd in fds))
    && (forall j, k :: 0 <= j < k < |fds| && fds[j] == fds[k] ==> fds[j] == 0)
  }

  ghost predicate TaskOK(t: Task) {
    && |t.events| == MAX_FD && |t.revents| == MAX_FD
    && (t.pc != Done ==> Registered(t.fds, t.events))
    && (t.status == EXIT <==> t.pc == Done)
    && (t.status == SLEEP ==> t.pc.InSleep?)
    && (t.pc.InSleep? ==> t.wakeuptime == Ms(t.pc.deadline) && (t.status == SLEEP || t.status == RUNNING))
    && (t.pc.InWait? ==>
          && 0 <= t.pc.fd < MAX_FD && t.events[t.pc.fd].fd == t.pc.fd
          && (t.pc.bit == EPOLLIN || t.pc.bit == EPOLLOUT)
          && (t.status == WAIT || t.status == RUNNING))
    && (t.pc.InJoin? ==> 0 <= t.pc.cid < NR_TASKS)
    && (t.entry.Stale? ==> 0 <= t.entry.home < MAX_FD)
  }

  ghost predicate TasksOK(s: State) {
    forall i :: 0 <= i < |s.tasks| && s.tasks[i].Some? ==> TaskOK(s.tasks[i].value)
  }

  ghost predicate SerialsOK(s: State) {
    && (forall i :: 0 <= i < |s.tasks| && s.tasks[i].Some? ==> s.tasks[i].value.serial < s.births)
    && (forall i, j :: 0 <= i < j < |s.tasks| && s.tasks[i].Some? && s.tasks[j].Some?
          ==> s.tasks[i].value.serial != s.tasks[j].value.serial)
  }

  ghost function LiveSlots(tasks: seq<Option<Task>>): set<int> {
    set i | 0 <= i < |tasks| && tasks[i].Some?
  }

  /** A queued task: waiting, for an event on this queue's descriptor, that has not come. */
  ghost predicate WaitsAt(t: Task, f: int) {
    && t.entry == Queued
    && t.status == WAIT
    && t.pc.InWait? && t.pc.fd == f
    && 0 <= f < |t.revents| && !Meets(t.revents[f], t.pc.bit)
  }

  ghost predicate QueuesOK(s: State)
    requires Sized(s)
  {
    && (forall f, k :: 0 <= f < MAX_FD && 0 <= k < |s.queues[f]| ==>
          s.tasks[s.queues[f][k]].Some? && WaitsAt(s.tasks[s.queues[f][k]].value, f))
    && (forall f, j, k :: 0 <= f < MAX_FD && 0 <= j < k < |s.queues[f]| ==> s.queues[f][j] != s.queues[f][k])
    && (forall i :: 0 <= i < NR_TASKS && s.tasks[i].Some? && s.tasks[i].value.entry == Queued ==>
          var pc := s.tasks[i].value.pc;
          pc.InWait? && 0 <= pc.fd < MAX_FD && i in s.queues[pc.fd])
  }

  /** A task that has not started is as co_create left it. */
  ghost predicate NotStarted(s: State) {
    forall i :: 0 <= i < |s.tasks| && i != s.current && s.tasks[i].Some? && s.tasks[i].value.pc == User
      ==> s.tasks[i].value.status == RUNNING && s.tasks[i].value.entry == Fresh
  }

  ghost predicate ModeOK(s: State)
    requires Live(s, s.current)
  {
    && NotStarted(s)
    && Live(s, 0) && Get(s, 0).pc != Done
    && (s.running && Cur(s).pc != User ==> Cur(s).status == RUNNING)
    && (!s.running ==> Cur(s).pc != User)
  }

  ghost predicate Tables(s: State) {
    && Sized(s)
    && TasksOK(s)
    && SerialsOK(s)
    && s.count == |LiveSlots(s.tasks)|
    && QueuesOK(s)
  }

  ghost predicate Inv(s: State) {
    Tables(s) && ModeOK(s)
  }

  lemma {:induction false} NewTaskOK(serial: nat)
    ensures TaskOK(ZeroTask(serial))
  {
  }

  lemma {:induction false} InvInit()
    ensures Inv(Init())
  {
    hide TaskOK;
    var s := Init();
    NewTaskOK(0);
    assert LiveSlots(s.tasks) == {0};
  }

  // ---------------------------------------------------------------- one task changes

  /** Replacing a task that is in no queue, by one that is in no queue. */
  lemma {:induction false} PutKeeps(s: State, i: int, t: Task)
    requires Tables(s)
    requires Live(s, i) && Get(s, i).entry != Queued
    requires TaskOK(t) && t.serial == Get(s, i).serial && t.entry != Queued
    ensures Tables(Put(s, i, t))
  {
    hide Registered;
    var r := Put(s, i, t);
    assert LiveSlots(r.tasks) == LiveSlots(s.tasks);
  }

  lemma {:induction false} EnqueueKeeps(s: State, fd: int, t: Task)
    requires Inv(s) && 0 <= fd < MAX_FD
    requires Cur(s).entry != Queued
    requires TaskOK(t) && t.serial == Cur(s).serial
    requires WaitsAt(t.(entry := Queued), fd)
    ensures Tables(Enqueue(s, fd, t))
  {
    hide Registered;
    var r := Enqueue(s, fd, t);
    assert LiveSlots(r.tasks) == LiveSlots(s.tasks);
    forall f, k | 0 <= f < MAX_FD && 0 <= k < |r.queues[f]|
      ensures r.tasks[r.queues[f][k]].Some? && WaitsAt(r.tasks[r.queues[f][k]].value, f)
    {
      if f == fd && k == |s.queues[f]| {
      } else {
        assert r.queues[f][k] == s.queues[f][k];
      }
    }
  }

  lemma {:induction false} SameTable(s: State, r: State)
    requires Tables(s)
    requires r.tasks == s.tasks && r.queues == s.queues && r.count == s.count && r.births == s.births
    requires Live(r, r.current)
    ensures Tables(r)
  {
    hide TaskOK;
  }

  /** A running task is in no queue: queued tasks are waiting. */
  lemma {:induction false} SuspendKeeps(s: State, t: Task)
    requires Inv(s) && s.running
    requires TaskOK(t) && t.serial == Cur(s).serial && t.entry == Cur(s).entry
    requires t.pc != User && (t.pc == Done ==> s.current != 0)
    ensures Inv(Suspend(s, t))
  {
    hide Registered;
    PutKeeps(s, s.current, t);
    SameTable(PutCur(s, t), Suspend(s, t));
  }

  lemma {:induction false} FillSerials(s: State, id: int, t: Task)
    requires SerialsOK(s) && 0 <= id < |s.tasks| && t.serial == s.births
    ensures SerialsOK(s.(tasks := s.tasks[id := Some(t)], count := s.count + 1, births := s.births + 1))
  {
  }

  lemma {:induction false} FillQueues(s: State, id: int, t: Task)
    requires Sized(s) && QueuesOK(s) && 0 <= id < NR_TASKS && s.tasks[id].None?
    requires |t.events| == |t.revents| == MAX_FD && t.entry == Fresh
    ensures var r := s.(tasks := s.tasks[id := Some(t)], count := s.count + 1, births := s.births + 1);
            Sized(r) && QueuesOK(r)
  {
    forall f, k | 0 <= f < MAX_FD && 0 <= k < |s.queues[f]|
      ensures s.queues[f][k] != id
    {
      assert s.tasks[s.queues[f][k]].Some?;
    }
  }

  lemma {:induction false} FillKeeps(s: State, id: int, t: Task)
    requires Tables(s) && 0 <= id < NR_TASKS && s.tasks[id].None?
    requires TaskOK(t) && t.serial == s.births && t.entry == Fresh
    ensures Tables(s.(tasks := s.tasks[id := Some(t)], count := s.count + 1, births := s.births + 1))
  {
    hide Registered, QueuesOK, SerialsOK;
    var r := s.(tasks := s.tasks[id := Some(t)], count := s.count + 1, births := s.births + 1);
    FillSerials(s, id, t);
    FillQueues(s, id, t);
    assert LiveSlots(r.tasks) == LiveSlots(s.tasks) + {id};
  }

  lemma {:induction false} FreeKeeps(s: State, id: int)
    requires Tables(s) && Live(s, id) && id != s.current && Get(s, id).entry != Queued
    ensures Tables(s.(tasks := s.tasks[id := None], count := s.count - 1))
  {
    hide TaskOK;
    var r := s.(tasks := s.tasks[id := None], count := s.count - 1);
    assert LiveSlots(r.tasks) == LiveSlots(s.tasks) - {id};
    forall f, k | 0 <= f < MAX_FD && 0 <= k < |r.queues[f]|
      ensures r.tasks[r.queues[f][k]] == s.tasks[r.queues[f][k]]
    {
      assert WaitsAt(s.tasks[s.queues[f][k]].value, f);
    }
  }

  // ---------------------------------------------------------------- steps

  lemma {:induction false} CreateKeeps(s: State)
    requires Inv(s) && s.running && Cur(s).pc == User
    ensures Inv(Create(s))
  {
    hide TaskOK;
    var id := FreeSlot(s.tasks, 0);
    NewTaskOK(s.births);
    if id < |s.tasks| {
      FillKeeps(s, id, ZeroTask(s.births));
    }
  }

  lemma {:induction false} SleepKeeps(s: State, now: int, seconds: int)
    requires Inv(s) && s.running && Cur(s).pc == User
    ensures Inv(Sleep(s, now, seconds))
  {
    WakeupTimeIsDeadline(now, seconds);
    SuspendKeeps(s, Cur(s).(wakeuptime := WakeupTime(now, seconds), status := SLEEP,
                            pc := InSleep(now + 1000 * seconds)));
  }

  lemma MaskedOff(r: bv32, e: bv32)
    ensures !Meets(Without(r, e), e)
  {
  }

  /** Registering a descriptor the task has not registered keeps the list and the table in step. */
  lemma {:induction false} RegisterKeeps(fds: seq<int>, events: seq<Interest>, fd: int, mask: bv32)
    requires Registered(fds, events) && 0 <= fd < MAX_FD && events[fd].fd <= 0 && |fds| < MAX_FD
    requires Meets(mask, EPOLLIN)
    ensures Registered(fds + [fd], events[fd := Interest(fd, mask)])
  {
    var fds', events' := fds + [fd], events[fd := Interest(fd, mask)];
    forall g | 0 <= g < MAX_FD && events'[g].fd != 0
      ensures events'[g].fd == g && g in fds'
    {
      assert g != fd ==> g in fds;
      assert fds'[|fds|] == fd;
    }
  }

  lemma {:induction false} PutTwice(s: State, i: int, t: Task, u: Task)
    requires Live(s, i)
    ensures Put(Put(s, i, t), i, u) == Put(s, i, u)
  {
    assert s.tasks[i := Some(t)][i := Some(u)] == s.tasks[i := Some(u)];
  }

  lemma {:induction false} AddQueueForm(s: State, fd: int, bit: bv32)
    requires Sized(s) && 0 <= fd < MAX_FD
    ensures var t := Asked(Cur(s), fd, bit);
            match AddQueue(s, fd, bit)
            case Refused(s') => s' == PutCur(s, t)
            case Added(s') => s' == Enqueue(s, fd, t).(kernel := s'.kernel)
            case FdsOverrun => true
    ensures AddQueue(s, fd, bit).FdsOverrun? <==> Cur(s).events[fd].fd <= 0 && |Cur(s).fds| >= MAX_FD
  {
  }

  /** An accepted call always suspends: the bit was cleared on the way into the queue, so the
      wait loop cannot fall through. */
  lemma {:induction false} AcceptedCallSuspends(s: State, fd: int, bit: bv32)
    requires Sized(s) && 0 <= fd < MAX_FD && AddQueue(s, fd, bit).Added?
    ensures var t := Asked(Cur(s), fd, bit);
            var s' := AddQueue(s, fd, bit).state;
            && !Meets(t.revents[fd], bit)
            && WaitTest(s', fd, bit)
               == Enqueue(s, fd, t.(pc := InWait(fd, bit))).(kernel := s'.kernel, running := false)
  {
    var t := Asked(Cur(s), fd, bit);
    AddQueueForm(s, fd, bit);
    MaskedOff(Cur(s).revents[fd], bit);
    WaitAfterEnqueue(s, fd, t, AddQueue(s, fd, bit).state.kernel, bit);
  }

  lemma {:induction false} WaitAfterEnqueue(s: State, fd: int, t: Task, kernel: map<int, bv32>, bit: bv32)
    requires Sized(s) && 0 <= fd < MAX_FD && |t.events| == |t.revents| == MAX_FD
    requires !Meets(t.revents[fd], bit) && t.status == WAIT
    ensures var s' := Enqueue(s, fd, t).(kernel := kernel);
            && Sized(s')
            && WaitTest(s', fd, bit)
               == Enqueue(s, fd, t.(pc := InWait(fd, bit))).(kernel := kernel, running := false)
  {
    var u := t.(entry := Queued);
    PutTwice(s, s.current, u, u.(pc := InWait(fd, bit)));
  }

  lemma {:induction false} AskedOK(t: Task, fd: int, bit: bv32)
    requires TaskOK(t) && t.pc == User && 0 <= fd < MAX_FD
    requires t.events[fd].fd <= 0 ==> |t.fds| < MAX_FD
    ensures TaskOK(Asked(t, fd, bit))
  {
    var recorded := t.events[fd];
    EpollinStays(recorded.mask, bit);
    hide Registered, With, Without, Meets, AsksForMore;
    if recorded.fd <= 0 {
      RegisterKeeps(t.fds, t.events, fd, EPOLLIN);
    } else {
      IsRecorded(t.fds, t.events, fd);
      RemaskKeeps(t.fds, t.events, fd, With(recorded.mask, bit));
    }
  }

  lemma {:induction false} WaitingOK(t: Task, fd: int, bit: bv32)
    requires TaskOK(t) && t.pc == User && 0 <= fd < MAX_FD && (t.events[fd].fd <= 0 ==> |t.fds| < MAX_FD)
    requires bit == EPOLLIN || bit == EPOLLOUT
    ensures TaskOK(Asked(t, fd, bit).(pc := InWait(fd, bit)))
  {
    hide With, Without, Meets, AsksForMore;
    AskedOK(t, fd, bit);
  }

  lemma EpollinStays(mask: bv32, bit: bv32)
    ensures Meets(EPOLLIN, EPOLLIN)
    ensures Meets(mask, EPOLLIN) ==> Meets(With(mask, bit), EPOLLIN) && Meets(Without(mask, EPOLLOUT), EPOLLIN)
  {
  }

  lemma IsRecorded(fds: seq<int>, events: seq<Interest>, fd: int)
    requires Registered(fds, events) && 0 <= fd < MAX_FD && events[fd].fd > 0
    ensures Meets(events[fd].mask, EPOLLIN)
  {
  }

  lemma {:induction false} BlockKeeps(s: State, fd: int, bit: bv32)
    requires Inv(s) && Ready(s, DoBlock(fd, bit))
    ensures Block(s, fd, bit).Next? ==> Inv(Block(s, fd, bit).state)
  {
    hide TaskOK, SerialsOK, Asked, WaitTest, Enqueue, AsksForMore;
    AddQueueForm(s, fd, bit);
    match AddQueue(s, fd, bit) {
      case Refused(_) =>
        AskedOK(Cur(s), fd, bit);
        PutKeeps(s, s.current, Asked(Cur(s), fd, bit));
      case Added(_) =>
        AcceptedKeeps(s, fd, bit);
      case FdsOverrun =>
    }
  }

  lemma {:induction false} AcceptedKeeps(s: State, fd: int, bit: bv32)
    requires Inv(s) && Ready(s, DoBlock(fd, bit)) && AddQueue(s, fd, bit).Added?
    ensures Inv(WaitTest(AddQueue(s, fd, bit).state, fd, bit))
  {
    hide TaskOK, AddQueue, Asked, Without, Meets;
    var s' := AddQueue(s, fd, bit).state;
    var t := Asked(Cur(s), fd, bit).(pc := InWait(fd, bit));
    AddQueueForm(s, fd, bit);
    WaitingOK(Cur(s), fd, bit);
    AcceptedCallSuspends(s, fd, bit);
    EnqueueKeeps(s, fd, t);
    SameTable(Enqueue(s, fd, t), WaitTest(s', fd, bit));
  }

  lemma {:induction false} EventKeeps(s: State, ev: Event)
    requires Inv(s) && s.running && 0 <= ev.fd < MAX_FD
    ensures EventStep(s, ev).Next? ==> Inv(EventStep(s, ev).state)
  {
    hide Registered;
    var q := s.queues[ev.fd];
    if |q| > 0 {
      var t := Cur(EventStep(s, ev).state.(current := q[0]));
      DequeueKeeps(s, ev.fd, t);
    }
  }

  lemma {:induction false} DequeueKeeps(s: State, fd: int, t: Task)
    requires Tables(s) && 0 <= fd < MAX_FD && |s.queues[fd]| > 0
    requires TaskOK(t) && t.serial == Get(s, s.queues[fd][0]).serial && t.entry != Queued
    ensures Tables(Put(s, s.queues[fd][0], t).(queues := s.queues[fd := s.queues[fd][1..]]))
  {
    DequeueKeepsQueues(s, fd, t);
    hide TaskOK, QueuesOK;
    var r := Put(s, s.queues[fd][0], t).(queues := s.queues[fd := s.queues[fd][1..]]);
    assert LiveSlots(r.tasks) == LiveSlots(s.tasks);
  }

  lemma {:induction false} DequeueKeepsQueues(s: State, fd: int, t: Task)
    requires Sized(s) && QueuesOK(s) && 0 <= fd < MAX_FD && |s.queues[fd]| > 0
    requires |t.events| == |t.revents| == MAX_FD && t.entry != Queued
    ensures Live(s, s.queues[fd][0])
    ensures var r := Put(s, s.queues[fd][0], t).(queues := s.queues[fd := s.queues[fd][1..]]);
            Sized(r) && QueuesOK(r)
  {
    var q, r := s.queues[fd], Put(s, s.queues[fd][0], t).(queues := s.queues[fd := s.queues[fd][1..]]);
    assert WaitsAt(s.tasks[q[0]].value, fd);
    forall f, k | 0 <= f < MAX_FD && 0 <= k < |r.queues[f]|
      ensures r.tasks[r.queues[f][k]].Some? && WaitsAt(r.tasks[r.queues[f][k]].value, f)
    {
      if f == fd {
        assert r.queues[f][k] == q[k + 1];
      }
    }
    forall i | 0 <= i < NR_TASKS && r.tasks[i].Some? && r.tasks[i].value.entry == Queued
      ensures var pc := r.tasks[i].value.pc;
              pc.InWait? && 0 <= pc.fd < MAX_FD && i in r.queues[pc.fd]
    {
      assert i != q[0] && i in s.queues[s.tasks[i].value.pc.fd];
    }
  }

  lemma {:induction false} EventsKeep(s: State, evs: seq<Event>)
    requires Inv(s) && s.running && InRange(evs)
    ensures Events(s, evs).Next? ==>
              Inv(Events(s, evs).state) && Events(s, evs).state.running && Cur(Events(s, evs).state).pc == Cur(s).pc
  {
    if |evs| > 0 {
      EventsKeep(s, evs[..|evs| - 1]);
      if Events(s, evs[..|evs| - 1]).Next? {
        EventKeeps(Events(s, evs[..|evs| - 1]).state, evs[|evs| - 1]);
      }
    }
  }

  lemma {:induction false} LoopKeeps(s: State, evs: seq<Event>)
    requires Inv(s) && Ready(s, DoLoop(evs))
    ensures Loop(s, evs).Next? ==> Inv(Loop(s, evs).state)
  {
    hide Registered;
    EventsKeep(s, evs);
    if Events(s, evs).Next? {
      var s' := Events(s, evs).state;
      SuspendKeeps(s', Cur(s').(pc := InLoop));
    }
  }

  lemma {:induction false} FinishKeeps(s: State)
    requires Inv(s) && Ready(s, DoFinish)
    ensures Finish(s).Next? ==> Inv(Finish(s).state)
  {
    hide Registered;
    if Finish(s).Next? {
      var t := Cur(s).(status := EXIT, fds := [], pc := Done);
      SuspendKeeps(s, t);
      SameTable(Suspend(s, t), Finish(s).state);
    }
  }

  lemma {:induction false} JoinFreesKeeps(s: State, cid: int)
    requires Inv(s) && s.running && (Cur(s).pc == User || Cur(s).pc.InJoin?)
    requires Live(s, cid) && Get(s, cid).status == EXIT
    ensures var s' := PutCur(s, Cur(s).(pc := User));
            Inv(s'.(tasks := s'.tasks[cid := None], count := s.count - 1))
  {
    hide Registered, SerialsOK, LiveSlots;
    var s' := PutCur(s, Cur(s).(pc := User));
    PutKeeps(s, s.current, Cur(s).(pc := User));
    FreeKeeps(s', cid);
  }

  lemma {:induction false} JoinTestKeeps(s: State, cid: int, target: nat)
    requires Inv(s) && s.running && 0 <= cid < NR_TASKS && (Cur(s).pc == User || Cur(s).pc.InJoin?)
    ensures JoinTest(s, cid, target).Next? ==> Inv(JoinTest(s, cid, target).state)
  {
    if Live(s, cid) {
      if Get(s, cid).status != EXIT {
        SuspendKeeps(s, Cur(s).(pc := InJoin(cid, target)));
      } else {
        JoinFreesKeeps(s, cid);
      }
    }
  }

  lemma {:induction false} RemaskKeeps(fds: seq<int>, events: seq<Interest>, fd: int, mask: bv32)
    requires Registered(fds, events) && 0 <= fd < MAX_FD && (events[fd].fd > 0 ==> Meets(mask, EPOLLIN))
    ensures Registered(fds, events[fd := events[fd].(mask := mask)])
  {
  }

  lemma {:induction false} WaitedOK(t: Task, fd: int, bit: bv32)
    requires TaskOK(t) && t.pc == InWait(fd, bit)
    ensures TaskOK(Waited(t, fd, bit))
  {
    EpollinStays(t.events[fd].mask, bit);
    hide Registered, Without, Meets;
    if t.events[fd].fd > 0 {
      IsRecorded(t.fds, t.events, fd);
    }
    RemaskKeeps(t.fds, t.events, fd, Without(t.events[fd].mask, EPOLLOUT));
  }

  lemma {:induction false} WaitTestKeeps(s: State, fd: int, bit: bv32)
    requires Inv(s) && s.running && Cur(s).pc == InWait(fd, bit) && 0 <= fd < MAX_FD
    ensures Inv(WaitTest(s, fd, bit))
  {
    hide TaskOK, Waited, Meets;
    var t := Waited(Cur(s), fd, bit);
    WaitedOK(Cur(s), fd, bit);
    PutKeeps(s, s.current, t);
    SameTable(PutCur(s, t), WaitTest(s, fd, bit));
  }

  lemma {:induction false} ResumeKeeps(s: State)
    requires Inv(s) && Ready(s, DoResume)
    ensures Resume(s).Next? ==> Inv(Resume(s).state)
  {
    match Cur(s).pc
    case InSleep(_) => PutKeeps(s, s.current, Cur(s).(pc := User));
    case InWait(fd, bit) => WaitTestKeeps(s, fd, bit);
    case InJoin(cid, target) => JoinTestKeeps(s, cid, target);
    case _ =>
  }

  /** Waking sleepers disturbs no table: a sleeper is in no queue. */
  lemma {:induction false} SweepKeeps(s: State, sweeps: seq<seq<int>>)
    requires Tables(s) && Samples(sweeps, NR_TASKS)
    ensures Tables(s.(tasks := Sweeps(s.tasks, sweeps)))
  {
    hide Registered;
    var r := s.(tasks := Sweeps(s.tasks, sweeps));
    SweepsWake(s.tasks, sweeps);
    forall i | 0 <= i < NR_TASKS
      ensures r.tasks[i] == s.tasks[i]
              || (s.tasks[i].Some? && s.tasks[i].value.status == SLEEP
                  && r.tasks[i] == Some(s.tasks[i].value.(status := RUNNING)))
    {
      assert WokenBy(s.tasks[i], r.tasks[i], sweeps, i);
    }
    assert LiveSlots(r.tasks) == LiveSlots(s.tasks);
    forall f, k | 0 <= f < MAX_FD && 0 <= k < |r.queues[f]|
      ensures r.tasks[r.queues[f][k]] == s.tasks[r.queues[f][k]]
    {
      assert WaitsAt(s.tasks[s.queues[f][k]].value, f);
    }
  }

  lemma {:induction false} DispatchKeeps(s: State, sweeps: seq<seq<int>>)
    requires Inv(s) && Ready(s, DoDispatch(sweeps))
    ensures Inv(Dispatch(s, sweeps))
  {
    hide TaskOK, QueuesOK, SerialsOK, Sweeps;
    var r := Dispatch(s, sweeps);
    SweepKeeps(s, sweeps);
    PickIsFirst(r.tasks, s.current);
    SameTable(s.(tasks := r.tasks), r);
    SweepsWake(s.tasks, sweeps);
    SleepersHaveSlept(s);
    forall i | 0 <= i < NR_TASKS && r.tasks[i].Some?
      ensures s.tasks[i].Some? && r.tasks[i].value.pc == s.tasks[i].value.pc
      ensures r.tasks[i].value.pc == User ==> r.tasks[i] == s.tasks[i]
    {
      assert WokenBy(s.tasks[i], r.tasks[i], sweeps, i);
    }
    assert WokenBy(s.tasks[0], r.tasks[0], sweeps, 0);
  }

  lemma SleepersHaveSlept(s: State)
    requires TasksOK(s)
    ensures forall i :: 0 <= i < |s.tasks| && s.tasks[i].Some? && s.tasks[i].value.status == SLEEP ==>
              s.tasks[i].value.pc.InSleep?
  {
  }

  /** Every step from a state satisfying the invariant either keeps it or is one of the faults. */
  lemma {:induction false} StepKeeps(s: State, a: Action)
    requires Inv(s) && Ready(s, a)
    ensures Step(s, a).Next? ==> Inv(Step(s, a).state)
  {
    match a
    case DoCreate => CreateKeeps(s);
    case DoSleep(now, seconds) => SleepKeeps(s, now, seconds);
    case DoBlock(fd, bit) => BlockKeeps(s, fd, bit);
    case DoLoop(evs) => LoopKeeps(s, evs);
    case DoFinish => FinishKeeps(s);
    case DoJoin(cid) => JoinTestKeeps(s, cid, if Live(s, cid) then Get(s, cid).serial else 0);
    case DoResume => ResumeKeeps(s);
    case DoDispatch(sweeps) => DispatchKeeps(s, sweeps);
  }

  ghost function Slots(n: nat): (r: set<int>)
    ensures |r| == n && forall i :: i in r <==> 0 <= i < n
  {
    if n == 0 then {} else Slots(n - 1) + {n - 1}
  }

  lemma {:induction false} Occupancy(tasks: seq<Option<Task>>)
    requires |tasks| > 0 && tasks[0].Some?
    ensures 1 <= |LiveSlots(tasks)| <= |tasks|
    ensures |LiveSlots(tasks)| == |tasks| <==> forall i :: 0 <= i < |tasks| ==> tasks[i].Some?
  {
    var live, all := LiveSlots(tasks), Slots(|tasks|);
    assert 0 in live && all == live + (all - live);
    forall i | 0 <= i < |tasks| && tasks[i].None?
      ensures |live| < |tasks|
    {
      assert i in all - live;
    }
    if forall i :: 0 <= i < |tasks| ==> tasks[i].Some? {
      assert live == all;
    }
  }

  /** The table adds up: task_count is the number of occupied slots, at least the main coroutine is
      always there, and co_create fails exactly when the count is NR_TASKS. */
  lemma {:induction false} CountIsRight(s: State)
    requires Inv(s)
    ensures s.count == |LiveSlots(s.tasks)| && 1 <= s.count <= NR_TASKS
    ensures s.count == NR_TASKS <==> Create(s) == s
  {
    hide TaskOK, QueuesOK, SerialsOK;
    Occupancy(s.tasks);
    var id := FreeSlot(s.tasks, 0);
    assert id < NR_TASKS ==> Create(s).count == s.count + 1;
  }
}
