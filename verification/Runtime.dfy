/** The coroutine runtime of one thread (`struct thread_env_t`) as a state machine.

    A step is what the current coroutine does between two scheduling points, or the scheduling
    itself.  Every task carries the place where it is suspended (`pc`), which in the C program is
    the return address saved on its stack.  The steps follow the code literally, including what
    it does on refused epoll calls and on events nobody waits for; a step that would dereference
    NULL, overrun `fds[]` or wreck a queue through stale links ends the run with a `Fault`. */
module Runtime {
  import opened Clock

  const NR_TASKS: nat := 10240
  const MAX_FD: nat := 1024
  const EPOLLIN: bv32 := 1
  const EPOLLOUT: bv32 := 4

  datatype Option<+T> = None | Some(value: T)

  datatype Status = RUNNING | SLEEP | WAIT | EXIT

  // `struct epoll_event`, as recorded per task and descriptor
  datatype Interest = Interest(fd: int, mask: bv32)

  // an event reported by epoll_wait
  datatype Event = Event(fd: int, events: bv32)

  // where a task is suspended
  datatype Pc =
    | User                                  // in its own code (or not yet started)
    | InSleep(deadline: int)                // in co_sleep, real deadline
    | InWait(fd: int, bit: bv32)            // in the wait loop of co_accept, co_read or co_write
    | InJoin(cid: int, target: nat)         // in co_join; `target` is the serial found in slot cid
    | InLoop                                // in co_eventloop
    | Done                                  // past its function, in the last schedule() of start

  // the links of a task's `block_entry`
  datatype Entry =
    | Fresh                                 // zeroed by calloc
    | Queued
    | Stale(home: int, succ: Option<nat>)   // taken from queue `home`, in front of task `succ`

  datatype Task = Task(
    serial: nat,                            // identity of the task block
    status: Status,
    wakeuptime: int,
    fds: seq<int>,                          // fds[0..fds_idx)
    events: seq<Interest>,
    revents: seq<bv32>,
    pc: Pc,
    entry: Entry)

  datatype State = State(
    tasks: seq<Option<Task>>,
    count: int,
    current: int,
    queues: seq<seq<int>>,                  // block_queue[], as task ids
    kernel: map<int, bv32>,                 // the interest set of epfd
    running: bool,                          // false while the current task is inside schedule()
    births: nat)                            // serials handed out so far

  datatype Reason = NullDereference | Overrun | WreckedQueue

  datatype Outcome = Next(state: State) | Fault(reason: Reason)

  // ---------------------------------------------------------------- the table

  predicate Live(s: State, i: int) {
    0 <= i < |s.tasks| && s.tasks[i].Some?
  }

  function Get(s: State, i: int): Task
    requires Live(s, i)
  {
    s.tasks[i].value
  }

  function Put(s: State, i: int, t: Task): State
    requires Live(s, i)
  {
    s.(tasks := s.tasks[i := Some(t)])
  }

  function Cur(s: State): Task
    requires Live(s, s.current)
  {
    Get(s, s.current)
  }

  function PutCur(s: State, t: Task): State
    requires Live(s, s.current)
  {
    Put(s, s.current, t)
  }

  // What every step needs to be meaningful; the rest of the invariant is in module Invariants.
  ghost predicate Sized(s: State) {
    && |s.tasks| == NR_TASKS
    && |s.queues| == MAX_FD
    && Live(s, s.current)
    && (forall i :: 0 <= i < NR_TASKS && s.tasks[i].Some? ==>
          |s.tasks[i].value.events| == MAX_FD && |s.tasks[i].value.revents| == MAX_FD)
    && (forall f, k :: 0 <= f < MAX_FD && 0 <= k < |s.queues[f]| ==> Live(s, s.queues[f][k]))
  }

  function ZeroTask(serial: nat): Task {
    Task(serial, RUNNING, 0, [], seq(MAX_FD, _ => Interest(0, 0)), seq(MAX_FD, _ => 0 as bv32), User, Fresh)
  }

  /** co_get_thread_env on first use: the main coroutine in slot 0 and empty queues. */
  function Init(): State {
    State([Some(ZeroTask(0))] + seq(NR_TASKS - 1, _ => None), 1, 0, seq(MAX_FD, _ => []), map[], true, 1)
  }

  // ---------------------------------------------------------------- co_create

  /** The slot the search loop stops at: the first free one at or after `id`, or NR_TASKS. */
  function FreeSlot(tasks: seq<Option<Task>>, id: nat): (slot: nat)
    requires id <= |tasks|
    ensures id <= slot <= |tasks|
    ensures slot < |tasks| ==> tasks[slot].None?
    ensures forall j :: id <= j < slot ==> tasks[j].Some?
    decreases |tasks| - id
  {
    if id == |tasks| || tasks[id].None? then id else FreeSlot(tasks, id + 1)
  }

  function Create(s: State): State {
    var id := FreeSlot(s.tasks, 0);
    if id == |s.tasks| then s
    else s.(tasks := s.tasks[id := Some(ZeroTask(s.births))], count := s.count + 1, births := s.births + 1)
  }

  // ---------------------------------------------------------------- schedule

  function Suspend(s: State, t: Task): State
    requires Live(s, s.current)
  {
    PutCur(s, t).(running := false)
  }

  function Promote(t: Option<Task>, now: int): Option<Task> {
    if t.Some? && t.value.status == SLEEP && Ms(now) > t.value.wakeuptime
    then Some(t.value.(status := RUNNING)) else t
  }

  /** One pass of the first loop of pick.  The clock is read anew at every sleeping slot, so each
      slot has a sample of its own. */
  function Sweep(tasks: seq<Option<Task>>, times: seq<int>): (r: seq<Option<Task>>)
    requires |times| == |tasks|
    ensures |r| == |tasks|
  {
    seq(|tasks|, i requires 0 <= i < |tasks| => Promote(tasks[i], times[i]))
  }

  predicate Samples(sweeps: seq<seq<int>>, n: nat) {
    forall k :: 0 <= k < |sweeps| ==> |sweeps[k]| == n
  }

  function Sweeps(tasks: seq<Option<Task>>, sweeps: seq<seq<int>>): (r: seq<Option<Task>>)
    requires Samples(sweeps, |tasks|)
    ensures |r| == |tasks|
  {
    if |sweeps| == 0 then tasks
    else Sweep(Sweeps(tasks, sweeps[..|sweeps| - 1]), sweeps[|sweeps| - 1])
  }

  predicate IsRunning(tasks: seq<Option<Task>>, i: int) {
    0 <= i < |tasks| && tasks[i].Some? && tasks[i].value.status == RUNNING
  }

  ghost predicate AnyRunning(tasks: seq<Option<Task>>) {
    exists i :: IsRunning(tasks, i)
  }

  /** pick repeats its sweep until something is runnable: `sweeps` are the samples of one call. */
  ghost predicate PickReturns(tasks: seq<Option<Task>>, sweeps: seq<seq<int>>) {
    && |sweeps| > 0
    && Samples(sweeps, |tasks|)
    && AnyRunning(Sweeps(tasks, sweeps))
    && forall k :: 0 < k < |sweeps| ==> !AnyRunning(Sweeps(tasks, sweeps[..k]))
  }

  /** How many slots after `from` slot `i` comes in cyclic order, 1 to NR_TASKS. */
  function Distance(from: int, i: int): int {
    if i > from then i - from else i - from + NR_TASKS
  }

  function SlotAt(from: int, d: int): int {
    if from + d < NR_TASKS then from + d else from + d - NR_TASKS
  }

  /** The second loop of pick, from the `d`-th slot after current on. */
  function Scan(tasks: seq<Option<Task>>, current: int, d: int): int
    requires 0 < d <= NR_TASKS
    decreases NR_TASKS - d
  {
    if d == NR_TASKS || IsRunning(tasks, SlotAt(current, d)) then SlotAt(current, d)
    else Scan(tasks, current, d + 1)
  }

  function Dispatch(s: State, sweeps: seq<seq<int>>): State
    requires Samples(sweeps, |s.tasks|)
  {
    var tasks := Sweeps(s.tasks, sweeps);
    s.(tasks := tasks, current := Scan(tasks, s.current, 1), running := true)
  }

  // ---------------------------------------------------------------- co_sleep

  function Sleep(s: State, now: int, seconds: int): State
    requires Live(s, s.current)
  {
    Suspend(s, Cur(s).(wakeuptime := WakeupTime(now, seconds), status := SLEEP,
                       pc := InSleep(now + 1000 * seconds)))
  }

  // ---------------------------------------------------------------- add_queue and the wait loops

  predicate Meets(a: bv32, b: bv32) {
    a & b != 0
  }

  function Without(a: bv32, b: bv32): bv32 {
    a & !b
  }

  function With(a: bv32, b: bv32): bv32 {
    a | b
  }

  /** C's `a != b`, an int. */
  function NotEqual(a: bv32, b: bv32): bv32 {
    if a != b then 1 else 0
  }

  function Enqueue(s: State, fd: int, t: Task): (r: State)
    requires Sized(s) && 0 <= fd < MAX_FD && |t.events| == |t.revents| == MAX_FD
    ensures Sized(r)
  {
    PutCur(s, t.(entry := Queued)).(queues := s.queues[fd := s.queues[fd] + [s.current]])
  }

  datatype Added = Added(state: State) | Refused(state: State) | FdsOverrun

  /** `events & arg != events` in C: the comparison binds tighter than the mask. */
  predicate AsksForMore(recorded: bv32, events: bv32) {
    recorded & NotEqual(events, recorded) != 0
  }

  /** The task as add_queue leaves it, accepted or not.  A first registration records EPOLLIN
      whatever was asked for. */
  function Asked(t: Task, fd: int, events: bv32): (r: Task)
    requires |t.events| == |t.revents| == MAX_FD && 0 <= fd < MAX_FD
    ensures r.serial == t.serial && r.entry == t.entry && r.pc == t.pc
    ensures |r.events| == |r.revents| == MAX_FD
  {
    var recorded := t.events[fd];
    var t' := t.(status := WAIT, revents := t.revents[fd := Without(t.revents[fd], events)]);
    if recorded.fd <= 0 then t'.(fds := t.fds + [fd], events := t.events[fd := Interest(fd, EPOLLIN)])
    else if AsksForMore(recorded.mask, events) then
      t'.(events := t.events[fd := recorded.(mask := With(recorded.mask, events))])
    else t'
  }

  function AddQueue(s: State, fd: int, events: bv32): (r: Added)
    requires Sized(s) && 0 <= fd < MAX_FD
    ensures !r.FdsOverrun? ==> Sized(r.state)
  {
    var recorded := Cur(s).events[fd];
    var t := Asked(Cur(s), fd, events);
    if recorded.fd <= 0 then
      if |Cur(s).fds| >= MAX_FD then FdsOverrun
      else if fd in s.kernel then Refused(PutCur(s, t))                            // EPOLL_CTL_ADD
      else Added(Enqueue(s.(kernel := s.kernel[fd := events]), fd, t))
    else if AsksForMore(recorded.mask, events) then
      if fd !in s.kernel then Refused(PutCur(s, t))                                // EPOLL_CTL_MOD
      else Added(Enqueue(s.(kernel := s.kernel[fd := With(events, t.events[fd].mask)]), fd, t))
    else Added(Enqueue(s, fd, t))
  }

  /** The task after the test of the wait loop and what follows it: back to waiting, or out of the
      call, co_write withdrawing its interest in EPOLLOUT. */
  function Waited(t: Task, fd: int, bit: bv32): (r: Task)
    requires 0 <= fd < |t.events| == |t.revents|
    ensures r.serial == t.serial && r.entry == t.entry
    ensures |r.events| == |t.events| && |r.revents| == |t.revents|
    ensures r.pc == if !Meets(t.revents[fd], bit) then InWait(fd, bit) else User
  {
    if !Meets(t.revents[fd], bit) then t.(status := WAIT, pc := InWait(fd, bit))
    else if bit == EPOLLOUT then
      t.(pc := User, events := t.events[fd := t.events[fd].(mask := Without(t.events[fd].mask, EPOLLOUT))],
         revents := t.revents[fd := Without(t.revents[fd], EPOLLOUT)])
    else t.(pc := User)
  }

  /** The kernel may refuse the final EPOLL_CTL_MOD of co_write; the task is none the wiser. */
  function WaitTest(s: State, fd: int, bit: bv32): State
    requires Sized(s) && 0 <= fd < MAX_FD
  {
    var t := Waited(Cur(s), fd, bit);
    if !Meets(Cur(s).revents[fd], bit) then Suspend(s, t)
    else if bit == EPOLLOUT && fd in s.kernel then PutCur(s, t).(kernel := s.kernel[fd := t.events[fd].mask])
    else PutCur(s, t)
  }

  /** co_accept and co_read (EPOLLIN), co_write (EPOLLOUT).  When add_queue is refused the call
      returns the error, with the status left at WAIT. */
  function Block(s: State, fd: int, bit: bv32): Outcome
    requires Sized(s) && 0 <= fd < MAX_FD
  {
    match AddQueue(s, fd, bit)
    case Added(s') => Next(WaitTest(s', fd, bit))
    case Refused(s') => Next(s')
    case FdsOverrun => Fault(Overrun)
  }

  // ---------------------------------------------------------------- co_eventloop

  /** The serial of the second waiter of queue `fd`. */
  function Second(s: State, fd: int): Option<nat>
    requires Sized(s) && 0 <= fd < MAX_FD
  {
    if |s.queues[fd]| > 1 then Some(Get(s, s.queues[fd][1]).serial) else None
  }

  /** What one reported event makes of the first waiter: out of the queue in any case, awake and
      told the events only if its recorded mask meets them.  TAILQ_REMOVE does not clear the links:
      the entry keeps pointing at its queue and at the waiter behind it. */
  function Notified(t: Task, ev: Event, succ: Option<nat>): (r: Task)
    requires 0 <= ev.fd < |t.events| == |t.revents|
    ensures r.serial == t.serial && r.entry == Stale(ev.fd, succ)
    ensures |r.events| == |t.events| && |r.revents| == |t.revents|
  {
    var t := t.(entry := Stale(ev.fd, succ));
    if !Meets(t.events[ev.fd].mask, ev.events) then t
    else t.(status := RUNNING, revents := t.revents[ev.fd := ev.events])
  }

  function EventStep(s: State, ev: Event): Outcome
    requires Sized(s) && 0 <= ev.fd < MAX_FD
  {
    var q := s.queues[ev.fd];
    if |q| == 0 then Fault(NullDereference)
    else Next(Put(s, q[0], Notified(Get(s, q[0]), ev, Second(s, ev.fd))).(queues := s.queues[ev.fd := q[1..]]))
  }

  predicate InRange(evs: seq<Event>) {
    forall k :: 0 <= k < |evs| ==> 0 <= evs[k].fd < MAX_FD
  }

  function Events(s: State, evs: seq<Event>): (r: Outcome)
    requires Sized(s) && InRange(evs)
    ensures r.Next? ==> Sized(r.state) && r.state.current == s.current
  {
    if |evs| == 0 then Next(s)
    else
      match Events(s, evs[..|evs| - 1])
      case Next(s') => EventStep(s', evs[|evs| - 1])
      case Fault(reason) => Fault(reason)
  }

  function Loop(s: State, evs: seq<Event>): (r: Outcome)
    requires Sized(s) && InRange(evs)
    ensures r.Next? ==> Sized(r.state)
  {
    match Events(s, evs)
    case Next(s') => Next(Suspend(s', Cur(s').(pc := InLoop)))
    case Fault(reason) => Fault(reason)
  }

  // ---------------------------------------------------------------- start, after co_fn returns

  /** What the cleanup's TAILQ_REMOVE calls do to the queues depends on the stale links of the
      finished task; see BlockQueues.StaleIsHarmless for the same condition on pointers. */
  predicate CleanupIsHarmless(s: State, t: Task)
    requires Sized(s)
  {
    |t.fds| == 0 ||
    (t.entry.Stale? && 0 <= t.entry.home < MAX_FD &&
     var q := s.queues[t.entry.home];
     if t.entry.succ.None? then |q| == 0 && (forall fd :: fd in t.fds ==> fd == t.entry.home)
     else |q| > 0 && Get(s, q[0]).serial == t.entry.succ.value)
  }

  function FdSet(fds: seq<int>): set<int> {
    set fd | fd in fds
  }

  function Finish(s: State): Outcome
    requires Sized(s)
  {
    var t := Cur(s);
    // an entry that was never queued has a NULL tqe_prev
    if |t.fds| > 0 && t.entry == Fresh then Fault(NullDereference)
    else if !CleanupIsHarmless(s, t) then Fault(WreckedQueue)
    else Next(Suspend(s, t.(status := EXIT, fds := [], pc := Done)).(
                kernel := s.kernel - FdSet(t.fds)))
  }

  // ---------------------------------------------------------------- co_join

  function JoinTest(s: State, cid: int, target: nat): Outcome
    requires Live(s, s.current) && 0 <= cid < |s.tasks|
  {
    if s.tasks[cid].None? then Fault(NullDereference)
    else if s.tasks[cid].value.status != EXIT then Next(Suspend(s, Cur(s).(pc := InJoin(cid, target))))
    else
      var s' := PutCur(s, Cur(s).(pc := User));
      Next(s'.(tasks := s'.tasks[cid := None], count := s.count - 1))
  }

  function Join(s: State, cid: int): Outcome
    requires Live(s, s.current) && 0 <= cid < |s.tasks|
  {
    if s.tasks[cid].None? then Fault(NullDereference) else JoinTest(s, cid, s.tasks[cid].value.serial)
  }

  /** What a task does when schedule() returns to it. */
  function Resume(s: State): Outcome
    requires Sized(s) && Ready(s, DoResume)
  {
    match Cur(s).pc
    case InSleep(_) => Next(PutCur(s, Cur(s).(pc := User)))
    case InWait(fd, bit) => Next(WaitTest(s, fd, bit))
    case InJoin(cid, target) => JoinTest(s, cid, target)
    case _ => assert false; Next(s)
  }

  // ---------------------------------------------------------------- steps

  datatype Action =
    | DoCreate
    | DoSleep(now: int, seconds: int)
    | DoBlock(fd: int, bit: bv32)
    | DoLoop(evs: seq<Event>)
    | DoFinish
    | DoJoin(cid: int)
    | DoResume
    | DoDispatch(sweeps: seq<seq<int>>)

  /** Which actions can come next. */
  ghost predicate Ready(s: State, a: Action)
    requires Sized(s)
  {
    var pc := Cur(s).pc;
    match a
    case DoDispatch(sweeps) => !s.running && PickReturns(s.tasks, sweeps)
    case DoResume => s.running &&
      (match pc
       case InSleep(_) => true
       case InWait(fd, _) => 0 <= fd < MAX_FD
       case InJoin(cid, _) => 0 <= cid < NR_TASKS
       case _ => false)
    case DoLoop(evs) => s.running && (pc == User || pc == InLoop) && InRange(evs)
    case DoCreate => s.running && pc == User
    case DoSleep(_, _) => s.running && pc == User
    case DoBlock(fd, bit) => s.running && pc == User && 0 <= fd < MAX_FD && (bit == EPOLLIN || bit == EPOLLOUT)
    // the main coroutine does not run under start()
    case DoFinish => s.running && pc == User && s.current != 0
    case DoJoin(cid) => s.running && pc == User && 0 <= cid < NR_TASKS
  }

  ghost function Step(s: State, a: Action): Outcome
    requires Sized(s) && Ready(s, a)
  {
    match a
    case DoCreate => Next(Create(s))
    case DoSleep(now, seconds) => Next(Sleep(s, now, seconds))
    case DoBlock(fd, bit) => Block(s, fd, bit)
    case DoLoop(evs) => Loop(s, evs)
    case DoFinish => Finish(s)
    case DoJoin(cid) => Join(s, cid)
    case DoResume => Resume(s)
    case DoDispatch(sweeps) => Next(Dispatch(s, sweeps))
  }
}
