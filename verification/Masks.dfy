/** The epoll interest set against what the tasks have recorded: under which calling discipline the
    two agree, and what that says of queues, links and events. */
module Masks {
  import opened Runtime
  import opened Scheduler
  import opened Invariants
  import opened Runs
  import opened Waiters
  import opened Registrations

  // ---------------------------------------------------------------- agreement

  /** Task `t` is registered for descriptor `fd` (0 is never seen as registered). */
  predicate Owns(t: Task, fd: int) {
    t.pc != Done && 1 <= fd < |t.events| && t.events[fd].fd > 0
  }

  /** The mask a registration should carry: EPOLLIN always, EPOLLOUT while a co_write waits. */
  function Expected(t: Task, fd: int): bv32 {
    if t.pc == InWait(fd, EPOLLOUT) then EPOLLIN | EPOLLOUT else EPOLLIN
  }

  ghost predicate OwnedBy(s: State, fd: int, i: int) {
    0 <= i < |s.tasks| && s.tasks[i].Some? && Owns(s.tasks[i].value, fd)
  }

  /** The kernel's interest set and the tasks' records tell the same story: every registered
      descriptor has one owner and is in the interest set, with the owner's recorded mask, which is
      the expected one; every other positive descriptor is out of it. */
  ghost predicate Agree(s: State) {
    && (forall fd, i, j :: OwnedBy(s, fd, i) && OwnedBy(s, fd, j) ==> i == j)
    && (forall fd, i :: OwnedBy(s, fd, i) ==>
          && fd in s.kernel
          && s.kernel[fd] == s.tasks[i].value.events[fd].mask == Expected(s.tasks[i].value, fd))
    && (forall fd :: fd in s.kernel && fd != 0 ==> exists i :: OwnedBy(s, fd, i))
  }

  /** The calling discipline: a descriptor is first used for reading or accepting, by one task at a
      time. */
  ghost predicate Disciplined(s: State, a: Action)
    requires Sized(s)
  {
    a.DoBlock? && 0 < a.fd < MAX_FD && Cur(s).events[a.fd].fd <= 0 ==> a.bit == EPOLLIN && a.fd !in s.kernel
  }

  /** `t'` makes the same claims as `t`, except possibly for descriptor `but`. */
  ghost predicate SameClaims(t: Task, t': Task, but: int) {
    && |t'.events| == |t.events|
    && forall fd {:trigger Owns(t', fd)} :: 0 <= fd < |t.events| && fd != but ==>
         (Owns(t, fd) <==> Owns(t', fd))
         && (Owns(t, fd) ==> t'.events[fd].mask == t.events[fd].mask && Expected(t', fd) == Expected(t, fd))
  }

  /** Slot by slot, nobody's claims change. */
  ghost predicate SameSlot(o: Option<Task>, o': Option<Task>) {
    match (o, o')
    case (Some(t), Some(t')) => SameClaims(t, t', 0)
    case (Some(t), None) => t.pc == Done
    case (None, Some(t')) => forall fd :: !Owns(t', fd)
    case (None, None) => true
  }

  ghost predicate SameKernel(k: map<int, bv32>, k': map<int, bv32>, but: int) {
    forall fd :: fd != 0 && fd != but ==> (fd in k' <==> fd in k) && (fd in k ==> k'[fd] == k[fd])
  }

  lemma {:induction false} ClaimsStay(s: State, s': State)
    requires Agree(s) && |s'.tasks| == |s.tasks| && SameKernel(s.kernel, s'.kernel, 0)
    requires forall i :: 0 <= i < |s.tasks| ==> SameSlot(s.tasks[i], s'.tasks[i])
    ensures Agree(s')
  {
    forall fd, i
      ensures OwnedBy(s', fd, i) <==> OwnedBy(s, fd, i)
    {
      if 0 <= i < |s.tasks| {
        assert SameSlot(s.tasks[i], s'.tasks[i]);
      }
    }
    forall fd, i | OwnedBy(s', fd, i)
      ensures fd in s'.kernel
              && s'.kernel[fd] == s'.tasks[i].value.events[fd].mask == Expected(s'.tasks[i].value, fd)
    {
      assert SameSlot(s.tasks[i], s'.tasks[i]) && OwnedBy(s, fd, i);
    }
  }

  /** One task's claim on one descriptor changes, record and interest set alike: taken up, or with
      another mask. */
  lemma {:induction false} ClaimMoves(s: State, s': State, i: int, fd: int)
    requires Agree(s) && |s'.tasks| == |s.tasks| && Live(s, i) && Live(s', i) && fd != 0
    requires forall j :: 0 <= j < |s.tasks| && j != i ==> s'.tasks[j] == s.tasks[j]
    requires SameClaims(Get(s, i), Get(s', i), fd) && SameKernel(s.kernel, s'.kernel, fd)
    requires OwnedBy(s, fd, i) || fd !in s.kernel
    requires OwnedBy(s', fd, i) && fd in s'.kernel
    requires s'.kernel[fd] == Get(s', i).events[fd].mask == Expected(Get(s', i), fd)
    ensures Agree(s')
  {
    forall g, j | g != fd || j != i
      ensures OwnedBy(s', g, j) <==> OwnedBy(s, g, j)
    {
    }
    forall g, j, k | OwnedBy(s', g, j) && OwnedBy(s', g, k)
      ensures j == k
    {
      if g == fd {
        assert j != i ==> OwnedBy(s, fd, j);
        assert k != i ==> OwnedBy(s, fd, k);
      }
    }
    forall g | g in s'.kernel && g != 0
      ensures exists j :: OwnedBy(s', g, j)
    {
      if g == fd {
        assert OwnedBy(s', fd, i);
      } else {
        var j :| OwnedBy(s, g, j);
        assert OwnedBy(s', g, j);
      }
    }
  }

  lemma {:induction false} AskedClaims(t: Task, t': Task, fd: int, bit: bv32)
    requires |t.events| == |t.revents| == MAX_FD && 0 <= fd < MAX_FD && t.pc == User
    requires t' == Asked(t, fd, bit) || t' == Asked(t, fd, bit).(pc := InWait(fd, bit), entry := Queued)
    ensures SameClaims(t, t', fd)
    ensures fd != 0 ==> Owns(t', fd)
  {
    forall g | 0 <= g < MAX_FD && g != fd
      ensures t'.events[g] == t.events[g] && Expected(t', g) == Expected(t, g)
    {
    }
  }

  lemma {:induction false} WaitedClaims(t: Task, fd: int, bit: bv32)
    requires |t.events| == |t.revents| == MAX_FD && 0 <= fd < MAX_FD && t.pc == InWait(fd, bit)
    ensures SameClaims(t, Waited(t, fd, bit), if bit == EPOLLOUT && Meets(t.revents[fd], bit) then fd else 0)
  {
    hide Meets, Without;
    var t' := Waited(t, fd, bit);
    forall g | 0 <= g < MAX_FD && (g != fd || bit != EPOLLOUT || !Meets(t.revents[fd], bit))
      ensures t'.events[g] == t.events[g] && Expected(t', g) == Expected(t, g)
    {
    }
  }

  /** The effect of a blocking call on the caller and on the interest set. */
  lemma {:induction false} BlockEffect(s: State, fd: int, bit: bv32)
    requires Sized(s) && Ready(s, DoBlock(fd, bit)) && Block(s, fd, bit).Next?
    ensures var s', t := Block(s, fd, bit).state, Asked(Cur(s), fd, bit);
            && s'.current == s.current && |s'.tasks| == |s.tasks| && Live(s', s.current)
            && (forall i :: 0 <= i < |s.tasks| && i != s.current ==> s'.tasks[i] == s.tasks[i])
            && Cur(s') == (if AddQueue(s, fd, bit).Added? then t.(pc := InWait(fd, bit), entry := Queued) else t)
            && s'.kernel == AddQueue(s, fd, bit).state.kernel && SameKernel(s.kernel, s'.kernel, fd)
  {
    BlockForm(s, fd, bit);
    AddQueueForm(s, fd, bit);
    if AddQueue(s, fd, bit).Added? {
      AcceptedCallSuspends(s, fd, bit);
    }
  }

  /** An owner asking again: the call is accepted, and record and interest set move together. */
  lemma {:induction false} OwnerAsks(s: State, fd: int, bit: bv32)
    requires Sized(s) && Agree(s) && Ready(s, DoBlock(fd, bit)) && Owns(Cur(s), fd)
    ensures AddQueue(s, fd, bit).Added?
    ensures var t, kernel := Asked(Cur(s), fd, bit).(pc := InWait(fd, bit)), AddQueue(s, fd, bit).state.kernel;
            && fd in kernel && kernel[fd] == t.events[fd].mask == Expected(t, fd)
            && SameKernel(s.kernel, kernel, fd)
  {
    assert OwnedBy(s, fd, s.current);
    assert Cur(s).events[fd].mask == EPOLLIN;
  }

  /** A task asking for the first time keeps the agreement exactly when it asks to read and nobody
      holds the descriptor. */
  lemma {:induction false} NewcomerAsks(s: State, fd: int, bit: bv32)
    requires Sized(s) && Agree(s) && Ready(s, DoBlock(fd, bit)) && Block(s, fd, bit).Next?
    requires fd != 0 && Cur(s).events[fd].fd == 0
    ensures Agree(Block(s, fd, bit).state) <==> bit == EPOLLIN && fd !in s.kernel
  {
    var s', t := Block(s, fd, bit).state, Cur(s);
    BlockEffect(s, fd, bit);
    AskedClaims(t, Cur(s'), fd, bit);
    assert OwnedBy(s', fd, s.current) && !OwnedBy(s, fd, s.current);
    if fd in s.kernel {
      var j :| OwnedBy(s, fd, j);
      assert OwnedBy(s', fd, j);
    } else if bit == EPOLLIN {
      assert Expected(Cur(s'), fd) == EPOLLIN;
      ClaimMoves(s, s', s.current, fd);
    } else {
      assert s'.kernel[fd] == EPOLLOUT != Cur(s').events[fd].mask;
    }
  }

  lemma {:induction false} BlockAgreesIff(s: State, fd: int, bit: bv32)
    requires Inv(s) && Agree(s) && Ready(s, DoBlock(fd, bit)) && Block(s, fd, bit).Next?
    ensures Agree(Block(s, fd, bit).state) <==> Disciplined(s, DoBlock(fd, bit))
  {
    hide Agree, Block, QueuesOK, SerialsOK;
    var s', t := Block(s, fd, bit).state, Cur(s);
    assert TaskOK(t);
    BlockEffect(s, fd, bit);
    AskedClaims(t, Cur(s'), fd, bit);
    if fd == 0 {
      assert forall i :: 0 <= i < |s.tasks| ==> SameSlot(s.tasks[i], s'.tasks[i]);
      ClaimsStay(s, s');
    } else if t.events[fd].fd > 0 {
      OwnerAsks(s, fd, bit);
      ClaimMoves(s, s', s.current, fd);
    } else {
      NewcomerAsks(s, fd, bit);
    }
  }

  lemma {:induction false} FinishAgrees(s: State)
    requires Inv(s) && Agree(s) && Ready(s, DoFinish) && Finish(s).Next?
    ensures Agree(Finish(s).state)
  {
    var s', t := Finish(s).state, Cur(s);
    assert TaskOK(t);
    forall fd, i
      ensures OwnedBy(s', fd, i) <==> OwnedBy(s, fd, i) && i != s.current
    {
    }
    forall fd | fd in t.fds && fd != 0
      ensures OwnedBy(s, fd, s.current)
    {
    }
    forall fd, i | OwnedBy(s', fd, i)
      ensures fd in s'.kernel
    {
      assert OwnedBy(s, fd, i) && !OwnedBy(s, fd, s.current);
    }
    forall fd | fd in s'.kernel && fd != 0
      ensures exists i :: OwnedBy(s', fd, i)
    {
      var i :| OwnedBy(s, fd, i);
      assert i != s.current;
      assert OwnedBy(s', fd, i);
    }
  }

  lemma {:induction false} ResumeAgrees(s: State)
    requires Inv(s) && Agree(s) && Ready(s, DoResume) && Resume(s).Next?
    ensures Agree(Resume(s).state)
  {
    hide Agree;
    var s', t := Resume(s).state, Cur(s);
    assert TaskOK(t);
    if t.pc.InWait? && t.pc.fd != 0 && t.pc.bit == EPOLLOUT && Meets(t.revents[t.pc.fd], EPOLLOUT) {
      WriteCompletes(s);
    } else {
      CurrentStays(s, DoResume);
      forall i | 0 <= i < |s.tasks|
        ensures |s'.tasks| == |s.tasks| && SameSlot(s.tasks[i], s'.tasks[i])
      {
        ResumeSlot(s, i);
      }
      ResumeSlot(s, s.current);
      ClaimsStay(s, s');
    }
  }

  lemma {:induction false} ResumeSlot(s: State, i: int)
    requires Inv(s) && Ready(s, DoResume) && Resume(s).Next? && 0 <= i < |s.tasks|
    requires !(Cur(s).pc.InWait? && Cur(s).pc.fd != 0 && Cur(s).pc.bit == EPOLLOUT
               && Meets(Cur(s).revents[Cur(s).pc.fd], EPOLLOUT))
    ensures |Resume(s).state.tasks| == |s.tasks| && SameSlot(s.tasks[i], Resume(s).state.tasks[i])
  {
    var t := Cur(s);
    if i == s.current {
      if t.pc.InWait? {
        WaitedClaims(t, t.pc.fd, t.pc.bit);
      } else {
        if t.pc.InJoin? {
          JoinTestSpares(s, t.pc.cid, t.pc.target);
        }
        SameRecords(t, Cur(Resume(s).state));
      }
    } else if Live(s, i) {
      ResumeFreesOnly(s, i);
    } else {
      EmptySlotStays(s, DoResume, i);
    }
  }

  lemma {:induction false} WriteCompletes(s: State)
    requires Inv(s) && Agree(s) && s.running && Cur(s).pc.InWait? && Cur(s).pc.fd != 0
    requires Cur(s).pc.bit == EPOLLOUT && Meets(Cur(s).revents[Cur(s).pc.fd], EPOLLOUT)
    ensures 0 < Cur(s).pc.fd < MAX_FD && Agree(WaitTest(s, Cur(s).pc.fd, EPOLLOUT))
  {
    var t, fd := Cur(s), Cur(s).pc.fd;
    assert TaskOK(t);
    var s' := WaitTest(s, fd, EPOLLOUT);
    assert OwnedBy(s, fd, s.current);
    assert t.events[fd].mask == EPOLLIN | EPOLLOUT;
    assert Without(EPOLLIN | EPOLLOUT, EPOLLOUT) == EPOLLIN;
    WaitedClaims(t, fd, EPOLLOUT);
    ClaimMoves(s, s', s.current, fd);
  }

  /** Exactly which steps break the agreement: an undisciplined blocking call, that is, a first use
      of a descriptor for writing or of one that is already in the interest set. */
  lemma {:induction false} AgreesIff(s: State, a: Action)
    requires Inv(s) && Agree(s) && Ready(s, a) && Step(s, a).Next?
    ensures Agree(Step(s, a).state) <==> Disciplined(s, a)
  {
    match a
    case DoBlock(fd, bit) => BlockAgreesIff(s, fd, bit);
    case DoFinish => FinishAgrees(s);
    case DoResume => ResumeAgrees(s);
    case _ => OthersAgree(s, a);
  }

  lemma {:induction false} OthersAgree(s: State, a: Action)
    requires Inv(s) && Agree(s) && Ready(s, a) && Step(s, a).Next?
    requires !a.DoBlock? && !a.DoFinish? && !a.DoResume?
    ensures Agree(Step(s, a).state)
  {
    QueuesPart(s);
    hide Agree, Step, Ready, Inv;
    var s' := Step(s, a).state;
    StepKeeps(s, a);
    KernelStays(s, a);
    forall i | 0 <= i < |s.tasks|
      ensures |s'.tasks| == |s.tasks| && SameSlot(s.tasks[i], s'.tasks[i])
    {
      SlotKeepsClaims(s, a, i);
    }
    SlotKeepsClaims(s, a, 0);
    ClaimsStay(s, s');
  }

  lemma {:induction false} SameRecords(t: Task, t': Task)
    requires t'.events == t.events
    requires t'.pc == t.pc || (t.pc != Done && !t.pc.InWait? && t'.pc != Done && !t'.pc.InWait?)
    ensures SameClaims(t, t', 0)
  {
    assert forall fd :: Expected(t', fd) == Expected(t, fd);
  }

  lemma {:induction false} SlotKeepsClaims(s: State, a: Action, i: int)
    requires Inv(s) && Ready(s, a) && Step(s, a).Next? && 0 <= i < |s.tasks|
    requires !a.DoBlock? && !a.DoFinish? && !a.DoResume?
    ensures |Step(s, a).state.tasks| == |s.tasks| && SameSlot(s.tasks[i], Step(s, a).state.tasks[i])
  {
    QueuesPart(s);
    hide Step, Ready, Inv;
    StepKeeps(s, a);
    QueuesPart(Step(s, a).state);
    if Live(s, i) && !(s.running && i == s.current) {
      OthersArePassive(s, a, i);
      PassiveClaims(s, a, i);
    } else if Live(s, i) {
      CallerClaims(s, a);
      SameRecords(Get(s, i), Get(Step(s, a).state, i));
    } else {
      EmptySlotStays(s, a, i);
    }
  }

  lemma {:induction false} PassiveClaims(s: State, a: Action, i: int)
    requires Inv(s) && Live(s, i) && Ready(s, a) && Step(s, a).Next? && |Step(s, a).state.tasks| == |s.tasks|
    requires var s' := Step(s, a).state;
             if Frees(s, a, i) then s'.tasks[i] == None
             else Live(s', i) && Passive(Get(s, i), Get(s', i), a.DoDispatch?)
    ensures SameSlot(s.tasks[i], Step(s, a).state.tasks[i])
  {
    hide Step, Ready;
    assert TaskOK(Get(s, i));
    hide SameClaims;
    if !Frees(s, a, i) {
      SameRecords(Get(s, i), Get(Step(s, a).state, i));
    }
  }

  lemma {:induction false} CallerClaims(s: State, a: Action)
    requires Inv(s) && s.running && Ready(s, a) && Step(s, a).Next?
    requires a.DoCreate? || a.DoSleep? || a.DoLoop? || a.DoJoin?
    ensures var s', t := Step(s, a).state, Cur(s);
            && Live(s', s.current)
            && (t.pc == User || t.pc == InLoop)
            && Get(s', s.current).events == t.events
            && !Get(s', s.current).pc.InWait? && Get(s', s.current).pc != Done
  {
    match a
    case DoLoop(evs) => EventsArePassive(s, evs, s.current);
    case DoJoin(cid) => JoinTestSpares(s, cid, Get(s, cid).serial);
    case DoCreate =>
    case DoSleep(_, _) =>
  }

  lemma {:induction false} KernelStays(s: State, a: Action)
    requires Inv(s) && Ready(s, a) && Step(s, a).Next?
    requires !a.DoBlock? && !a.DoFinish? && !a.DoResume?
    ensures Step(s, a).state.kernel == s.kernel
  {
    if a.DoLoop? {
      EventsArePassive(s, a.evs, s.current);
    }
  }

  // ---------------------------------------------------------------- stale links

  /** In a disciplined run a dequeued task's links lead back to the queue of a descriptor it owns,
      with nobody behind it. */
  ghost predicate TidyTask(t: Task) {
    t.pc != Done ==>
      && 0 !in t.fds
      && (t.pc.InWait? ==> t.pc.fd != 0)
      && (t.entry == Fresh ==> |t.fds| == 0)
      && (t.entry.Stale? ==> t.entry.succ.None? && t.entry.home in t.fds)
  }

  ghost predicate Tidy(s: State) {
    forall i :: 0 <= i < |s.tasks| && s.tasks[i].Some? ==> TidyTask(s.tasks[i].value)
  }

  ghost predicate Strict(s: State, a: Action)
    requires Sized(s)
  {
    Disciplined(s, a) && (a.DoBlock? ==> a.fd != 0)
  }

  /** Disciplined waiters never share a queue. */
  lemma {:induction false} OneWaiterPerQueue(s: State, f: int)
    requires Inv(s) && Agree(s) && Tidy(s) && 0 <= f < MAX_FD
    ensures |s.queues[f]| <= 1
    ensures |s.queues[f]| == 1 ==> OwnedBy(s, f, s.queues[f][0])
  {
    hide Registered;
    var q := s.queues[f];
    assert |q| > 1 ==> q[0] != q[1];
    forall k | 0 <= k < |q|
      ensures OwnedBy(s, f, q[k])
    {
      assert WaitsAt(Get(s, q[k]), f);
      assert TaskOK(Get(s, q[k])) && TidyTask(Get(s, q[k]));
    }
  }

  lemma {:induction false} EventsAgree(s: State, evs: seq<Event>)
    requires Inv(s) && s.running && Agree(s) && InRange(evs) && Events(s, evs).Next?
    ensures Agree(Events(s, evs).state)
  {
    QueuesPart(s);
    hide Inv, Agree;
    var s' := Events(s, evs).state;
    forall i | 0 <= i < NR_TASKS
      ensures SameSlot(s.tasks[i], s'.tasks[i]) && s'.kernel == s.kernel
    {
      if s.tasks[i].Some? {
        EventsArePassive(s, evs, i);
        SameRecords(Get(s, i), Get(s', i));
      } else {
        EventsFillNoSlot(s, evs, i);
        EventsArePassive(s, evs, s.current);
      }
    }
    assert SameSlot(s.tasks[0], s'.tasks[0]);
    ClaimsStay(s, s');
  }

  lemma {:induction false} EventsTidy(s: State, evs: seq<Event>)
    requires Inv(s) && s.running && Agree(s) && Tidy(s) && InRange(evs) && Events(s, evs).Next?
    ensures Tidy(Events(s, evs).state)
  {
    QueuesPart(s);
    hide Inv, Agree;
    if |evs| > 0 {
      var earlier, ev := evs[..|evs| - 1], evs[|evs| - 1];
      EventsTidy(s, earlier);
      EventsKeep(s, earlier);
      EventsAgree(s, earlier);
      EventTidy(Events(s, earlier).state, ev);
    }
  }

  lemma {:induction false} EventTidy(s: State, ev: Event)
    requires Inv(s) && Agree(s) && Tidy(s) && 0 <= ev.fd < MAX_FD && EventStep(s, ev).Next?
    ensures Tidy(EventStep(s, ev).state)
  {
    OneWaiterPerQueue(s, ev.fd);
    var h := s.queues[ev.fd][0];
    assert TaskOK(Get(s, h)) && OwnedBy(s, ev.fd, h) && TidyTask(Get(s, h));
    hide TaskOK, Agree;
    var s' := EventStep(s, ev).state;
    assert TidyTask(Get(s', h));
  }

  lemma {:induction false} BlockAccepted(s: State, fd: int, bit: bv32)
    requires Inv(s) && Agree(s) && Tidy(s) && Ready(s, DoBlock(fd, bit)) && Strict(s, DoBlock(fd, bit))
    ensures AddQueue(s, fd, bit).Added? && Block(s, fd, bit).Next?
  {
    assert TidyTask(Cur(s)) && TaskOK(Cur(s));
    ListNeverOverflows(s, fd, bit);
    if Owns(Cur(s), fd) {
      OwnerAsks(s, fd, bit);
    }
  }

  lemma {:induction false} AskedTidy(t: Task, fd: int, bit: bv32)
    requires TaskOK(t) && TidyTask(t) && t.pc == User && 0 < fd < MAX_FD
    ensures TidyTask(Asked(t, fd, bit).(pc := InWait(fd, bit), entry := Queued))
  {
  }

  lemma {:induction false} BlockTidy(s: State, fd: int, bit: bv32)
    requires Inv(s) && Agree(s) && Tidy(s) && Ready(s, DoBlock(fd, bit)) && Strict(s, DoBlock(fd, bit))
    ensures Block(s, fd, bit).Next? && AddQueue(s, fd, bit).Added? && Tidy(Block(s, fd, bit).state)
  {
    hide Agree, TaskOK, TidyTask, Asked, AddQueue, Block, QueuesOK, SerialsOK;
    BlockAccepted(s, fd, bit);
    BlockEffect(s, fd, bit);
    AskedTidy(Cur(s), fd, bit);
  }

  /** Discipline keeps everything: the agreement, and the links. */
  lemma {:induction false} StrictKeeps(s: State, a: Action)
    requires Inv(s) && Agree(s) && Tidy(s) && Ready(s, a) && Strict(s, a) && Step(s, a).Next?
    ensures Agree(Step(s, a).state) && Tidy(Step(s, a).state)
  {
    AgreesIff(s, a);
    match a
    case DoCreate => assert TidyTask(ZeroTask(s.births));
    case DoSleep(_, _) =>
    case DoBlock(fd, bit) => BlockTidy(s, fd, bit);
    case DoLoop(evs) => LoopTidy(s, evs);
    case DoFinish =>
    case DoJoin(cid) => JoinTidy(s, cid, Get(s, cid).serial);
    case DoResume => ResumeTidy(s);
    case DoDispatch(sweeps) => DispatchTidy(s, sweeps);
  }

  lemma {:induction false} LoopTidy(s: State, evs: seq<Event>)
    requires Inv(s) && Agree(s) && Tidy(s) && Ready(s, DoLoop(evs)) && Loop(s, evs).Next?
    ensures Tidy(Loop(s, evs).state)
  {
    EventsTidy(s, evs);
    EventsKeep(s, evs);
    hide Inv, Agree, EventStep;
    var s1 := Events(s, evs).state;
    assert TidyTask(Cur(s1));
  }

  lemma {:induction false} JoinTidy(s: State, cid: int, target: nat)
    requires Sized(s) && Tidy(s) && Live(s, cid) && JoinTest(s, cid, target).Next? && Cur(s).pc != Done
    ensures Tidy(JoinTest(s, cid, target).state)
  {
    assert TidyTask(Cur(s));
  }

  lemma {:induction false} ResumeTidy(s: State)
    requires Inv(s) && Tidy(s) && Ready(s, DoResume) && Resume(s).Next?
    ensures Tidy(Resume(s).state)
  {
    assert TidyTask(Cur(s));
    hide Inv;
    if Cur(s).pc.InJoin? && Live(s, Cur(s).pc.cid) {
      JoinTidy(s, Cur(s).pc.cid, Cur(s).pc.target);
    }
  }

  lemma {:induction false} DispatchTidy(s: State, sweeps: seq<seq<int>>)
    requires Sized(s) && Tidy(s) && Ready(s, DoDispatch(sweeps))
    ensures Tidy(Dispatch(s, sweeps))
  {
    SweepsWake(s.tasks, sweeps);
    forall i | 0 <= i < NR_TASKS && Dispatch(s, sweeps).tasks[i].Some?
      ensures TidyTask(Dispatch(s, sweeps).tasks[i].value)
    {
      assert WokenBy(s.tasks[i], Dispatch(s, sweeps).tasks[i], sweeps, i);
      assert TidyTask(s.tasks[i].value);
    }
  }

  /** With masks in agreement an event reaches the first waiter if and only if it carries the bit
      that waiter tests for. */
  lemma {:induction false} DeliversIff(s: State, ev: Event)
    requires Inv(s) && Agree(s) && Tidy(s) && 0 <= ev.fd < MAX_FD && |s.queues[ev.fd]| > 0
    ensures var t := Get(s, s.queues[ev.fd][0]);
            t.pc.InWait? && (Delivers(s, ev) <==> Meets(ev.events, t.pc.bit))
  {
    OneWaiterPerQueue(s, ev.fd);
    var t := Get(s, s.queues[ev.fd][0]);
    assert WaitsAt(t, ev.fd) && TaskOK(t);
    ExpectedMeets(ev.events);
  }

  /** Hence a batch on distinct descriptors, in a disciplined run, leaves nobody stuck if and only if
      every event carries the bit that the first waiter of its queue tests for. */
  lemma {:induction false} DisciplinedBatchLosesIff(s: State, evs: seq<Event>)
    requires Inv(s) && s.running && Agree(s) && Tidy(s) && NoneLost(s)
    requires InRange(evs) && DistinctFds(evs) && Events(s, evs).Next?
    ensures forall k :: 0 <= k < |evs| ==> |s.queues[evs[k].fd]| > 0 && Get(s, s.queues[evs[k].fd][0]).pc.InWait?
    ensures NoneLost(Events(s, evs).state) <==>
              forall k :: 0 <= k < |evs| ==> Meets(evs[k].events, Get(s, s.queues[evs[k].fd][0]).pc.bit)
  {
    hide Events, Delivers, NoneLost, Inv, Agree, Tidy, Meets;
    QueuesPart(s);
    BatchLosesIff(s, evs);
    DistinctBatchDelivers(s, evs);
    BatchIsExact(s, evs);
    forall k | 0 <= k < |evs|
      ensures var t := Get(s, s.queues[evs[k].fd][0]);
              t.pc.InWait? && (Delivers(s, evs[k]) <==> Meets(evs[k].events, t.pc.bit))
    {
      DeliversIff(s, evs[k]);
    }
  }

  lemma ExpectedMeets(events: bv32)
    ensures Meets(EPOLLIN, events) <==> Meets(events, EPOLLIN)
    ensures Meets(events, EPOLLOUT) ==> Meets(EPOLLIN | EPOLLOUT, events)
  {
  }

  /** From the start of the thread: as long as every blocking call is disciplined, interest set and
      records agree at every state, whatever else the coroutines do. */
  lemma {:induction false} DisciplinedRunAgrees(ss: seq<State>, acts: seq<Action>, n: nat)
    requires Run(ss, acts) && n < |ss| && ss[0] == Init()
    requires forall k :: 0 <= k < n ==> Strict(ss[k], acts[k])
    ensures Agree(ss[n]) && Tidy(ss[n])
  {
    hide Step, Ready, Inv, Agree, Tidy, Strict;
    if n > 0 {
      DisciplinedRunAgrees(ss, acts, n - 1);
      RunKeeps(ss, acts, n);
      StrictKeeps(ss[n - 1], acts[n - 1]);
    } else {
      InitAgrees();
    }
  }

  lemma {:induction false} InitAgrees()
    ensures Inv(Init()) && Agree(Init()) && Tidy(Init()) && NoneLost(Init())
  {
    InvInit();
    assert TidyTask(ZeroTask(0));
    assert forall fd, i :: !OwnedBy(Init(), fd, i);
  }
}
