/** The runtime as the C program runs it, on task blocks, the task table, linked block queues and a
    clock that is read while the loops run.  Each method is the code between two scheduling points
    and is proved to take the step of the state machine in module Runtime. */
module ThreadEnv {
  import opened Clock
  import opened TailQueue
  import Q = BlockQueues
  import opened Runtime
  import opened Scheduler
  import opened PickTermination
  import opened Invariants

  /** gettimeofday: the real time, in milliseconds, that each successive reading shows. */
  class SystemClock {
    const times: nat -> int
    var readings: nat

    constructor (times: nat -> int)
      ensures this.times == times && readings == 0
    {
      this.times := times;
      readings := 0;
    }

    method GetMsTime() returns (ms: int)
      modifies this
      ensures ms == Ms(times(old(readings))) && readings == old(readings) + 1
    {
      ms := times(readings) % WINDOW;
      readings := readings + 1;
    }
  }

  /** `struct task_struct_t`.  The arrays are part of the structure, so they are values here. */
  class TaskBlock {
    const id: int
    var wakeuptime: int
    var status: Status
    const entry: Link
    var fdsIdx: int
    var fds: seq<int>
    var events: seq<Interest>
    var revents: seq<bv32>
    // not in the C structure: identity, saved program counter, and what the links mean
    ghost const serial: nat
    ghost var pc: Pc
    ghost var links: Entry

    ghost predicate Shaped()
      reads this
    {
      |fds| == MAX_FD && 0 <= fdsIdx <= MAX_FD
    }

    ghost function View(): Task
      reads this
      requires Shaped()
    {
      Task(serial, status, wakeuptime, fds[..fdsIdx], events, revents, pc, links)
    }

    method Ask(fd: int, want: bv32)
      requires Shaped() && |events| == |revents| == MAX_FD && 0 <= fd < MAX_FD
      requires events[fd].fd <= 0 ==> fdsIdx < MAX_FD
      modifies `status, `revents, `fds, `fdsIdx, `events
      ensures Shaped() && View() == Asked(old(View()), fd, want) && status == WAIT
      ensures old(events)[fd].fd <= 0 ==> events == old(events)[fd := Interest(fd, EPOLLIN)]
    {
      hide With, Without, AsksForMore;
      status := WAIT;
      revents := revents[fd := Without(revents[fd], want)];
      if events[fd].fd <= 0 {
        assert fds[fdsIdx := fd][..fdsIdx + 1] == fds[..fdsIdx] + [fd];
        fds, fdsIdx := fds[fdsIdx := fd], fdsIdx + 1;
        events := events[fd := Interest(fd, EPOLLIN)];
      } else if AsksForMore(events[fd].mask, want) {
        events := events[fd := events[fd].(mask := With(events[fd].mask, want))];
      }
    }

    /** The test of a wait loop, and what co_write does to its records after the loop. */
    method Wait(fd: int, bit: bv32) returns (over: bool)
      requires Shaped() && |events| == |revents| == MAX_FD && 0 <= fd < MAX_FD
      modifies `status, `revents, `events, `pc
      ensures Shaped() && View() == Waited(old(View()), fd, bit)
      ensures over == Meets(old(revents)[fd], bit)
      ensures !over ==> status == WAIT && revents == old(revents) && events == old(events)
    {
      hide Meets, Without;
      over := Meets(revents[fd], bit);
      if !over {
        status := WAIT;
        pc := InWait(fd, bit);
        return;
      }
      if bit == EPOLLOUT {
        events := events[fd := events[fd].(mask := Without(events[fd].mask, EPOLLOUT))];
        revents := revents[fd := Without(revents[fd], EPOLLOUT)];
      }
      pc := User;
    }

    /** The event loop's treatment of a task it has just dequeued. */
    method Notify(ev: Event)
      requires Shaped() && |events| == |revents| == MAX_FD && 0 <= ev.fd < MAX_FD
      modifies `status, `revents
      ensures Shaped() && forall succ :: links == Stale(ev.fd, succ) ==> View() == Notified(old(View()), ev, succ)
      ensures if Meets(events[ev.fd].mask, ev.events)
              then status == RUNNING && revents == old(revents)[ev.fd := ev.events]
              else status == old(status) && revents == old(revents)
    {
      hide Meets;
      if Meets(events[ev.fd].mask, ev.events) {
        status := RUNNING;
        revents := revents[ev.fd := ev.events];
      }
    }

    /** calloc, and the assignments of co_create or co_get_thread_env. */
    constructor (id: int, ghost serial: nat)
      ensures Shaped() && View() == ZeroTask(serial) && this.id == id && this.serial == serial
      ensures fresh(entry) && entry.owner == id && entry.stamp == serial && entry.nxt == null && entry.bck == null
    {
      this.id := id;
      wakeuptime := 0;
      status := RUNNING;
      entry := new Link(id, serial);
      fdsIdx := 0;
      fds := seq(MAX_FD, _ => 0);
      events := seq(MAX_FD, _ => Interest(0, 0));
      revents := seq(MAX_FD, _ => 0 as bv32);
      this.serial := serial;
      pc := User;
      links := Fresh;
    }
  }

  /** The links of `list` are the entries of the tasks `ids`. */
  ghost predicate Matches(entries: seq<Link>, tasks: seq<Option<Task>>, list: seq<Link>, ids: seq<int>) {
    && |list| == |ids|
    && forall k :: 0 <= k < |ids| ==>
         && 0 <= ids[k] < |tasks| && tasks[ids[k]].Some? && tasks[ids[k]].value.serial < |entries|
         && list[k] == entries[tasks[ids[k]].value.serial]
  }

  /** Only the serials matter. */
  lemma StillMatches(entries: seq<Link>, tasks: seq<Option<Task>>, list: seq<Link>, ids: seq<int>, i: int, t: Task)
    requires Matches(entries, tasks, list, ids)
    requires 0 <= i < |tasks| && tasks[i].Some? && t.serial == tasks[i].value.serial
    ensures Matches(entries, tasks[i := Some(t)], list, ids)
  {
  }

  class Env {
    const task: array<TaskBlock?>
    var taskCount: int
    var current: TaskBlock
    const queues: Q.BlockQueues
    var kernel: map<int, bv32>
    ghost var m: State
    ghost var entries: seq<Link>   // the entry of every task ever created, by serial

    /** Slot i of the table is slot i of the model. */
    ghost predicate RepSlot(i: int)
      requires task.Length == |m.tasks| && 0 <= i < task.Length
      reads `m, `entries, task, task[i]
    {
      match m.tasks[i]
      case None => task[i] == null
      case Some(t) =>
        && task[i] != null && task[i].id == i
        && task[i].Shaped() && task[i].View() == t
        && t.serial < |entries| && task[i].entry == entries[t.serial]
        && task[i].entry.owner == i
    }

    /** What the links of slot i's entry hold while it is in no queue. */
    ghost predicate RepLinks(i: int)
      requires Live(m, i)
      reads `m, `entries, entries
    {
      Get(m, i).serial < |entries| &&
      var e := entries[Get(m, i).serial];
      match Get(m, i).entry
      case Fresh => e.nxt == null && e.bck == null
      case Queued => true
      case Stale(home, succ) =>
        && 0 <= home < |queues.heads| && e.bck == queues.heads[home]
        && (match succ
            case None => e.nxt == null
            case Some(n) => n < |entries| && n != Get(m, i).serial && e.nxt == entries[n])
    }

    ghost predicate RepQueue(f: int)
      requires |queues.lists| == |m.queues| && 0 <= f < |m.queues|
      reads `m, `entries, queues`lists
    {
      Matches(entries, m.tasks, queues.lists[f], m.queues[f])
    }

    ghost predicate Rep()
      reads *
    {
      && task.Length == NR_TASKS && |queues.heads| == |queues.lists| == MAX_FD && queues.Valid()
      && Sized(m) && |entries| == m.births
      && (forall k :: 0 <= k < |entries| ==> entries[k].stamp == k)
      && (forall i :: 0 <= i < NR_TASKS ==> RepSlot(i))
      && task[m.current] == current
      && taskCount == m.count && kernel == m.kernel
      && (forall i :: 0 <= i < NR_TASKS && m.tasks[i].Some? ==> RepLinks(i))
      && (forall f :: 0 <= f < MAX_FD ==> RepQueue(f))
    }

    ghost function OtherBlocks(i: int): set<TaskBlock>
      requires task.Length == NR_TASKS && 0 <= i < NR_TASKS
      reads task
    {
      set j | 0 <= j < NR_TASKS && task[j] != null && task[j] != task[i] :: task[j]
    }

    /** `Rep` but for the contents of task block i, the interest set and `current`: what still holds
        while that block is being changed. */
    ghost predicate RepBut(i: int)
      requires task.Length == NR_TASKS && 0 <= i < NR_TASKS
      reads `m, `entries, `taskCount, task, OtherBlocks(i), queues, queues.heads, queues.links, entries
    {
      && |queues.heads| == |queues.lists| == MAX_FD && queues.Valid()
      && Sized(m) && |entries| == m.births && taskCount == m.count
      && (forall k :: 0 <= k < |entries| ==> entries[k].stamp == k)
      && Live(m, i) && task[i] != null && task[i].id == i
      && Get(m, i).serial < |entries| && task[i].entry == entries[Get(m, i).serial] && task[i].entry.owner == i
      && (forall j :: 0 <= j < NR_TASKS && j != i ==> (task[j] != null ==> task[j] != task[i]) && RepSlot(j))
      && (forall j :: 0 <= j < NR_TASKS && m.tasks[j].Some? ==> RepLinks(j))
      && (forall f :: 0 <= f < MAX_FD ==> RepQueue(f))
    }

    lemma {:induction false} Open(i: int)
      requires Rep() && Live(m, i)
      ensures task.Length == NR_TASKS && 0 <= i < NR_TASKS && RepBut(i)
      ensures task[i] != null && task[i] !in OtherBlocks(i)
      ensures Sized(m) && task[m.current] == current && kernel == m.kernel
      ensures task[i].Shaped() && task[i].View() == Get(m, i)
    {
      hide Q.BlockQueues.Valid;
      assert RepSlot(i);
      forall j | 0 <= j < NR_TASKS && j != i
        ensures task[j] != null ==> task[j] != task[i]
      {
        assert RepSlot(j);
      }
    }

    /** The model catches up with task block i. */
    ghost method Close(i: int, s: State)
      requires task.Length == NR_TASKS && 0 <= i < NR_TASKS && RepBut(i)
      requires task[i] != null && task[i].Shaped() && |task[i].events| == |task[i].revents| == MAX_FD
      requires task[i].View().serial == Get(m, i).serial && task[i].View().entry == Get(m, i).entry
      requires s == m.(tasks := m.tasks[i := Some(task[i].View())], kernel := kernel,
                       current := s.current, running := s.running)
      requires Live(s, s.current) && task[s.current] == current
      modifies `m
      ensures Rep() && m == s
    {
      hide Q.BlockQueues.Valid, Matches;
      ghost var tasks, t := m.tasks, task[i].View();
      forall f | 0 <= f < MAX_FD
        ensures Matches(entries, s.tasks, queues.lists[f], s.queues[f])
      {
        assert RepQueue(f);
        StillMatches(entries, tasks, queues.lists[f], m.queues[f], i, t);
      }
      m := s;
      forall j | 0 <= j < NR_TASKS
        ensures RepSlot(j) && (m.tasks[j].Some? ==> RepLinks(j))
      {
        assert (j != i ==> old(RepSlot(j))) && (m.tasks[j].Some? ==> old(RepLinks(j)));
      }
    }

    // -------------------------------------------------------------- co_get_thread_env

    constructor ()
      ensures Rep() && m == Runtime.Init()
    {
      hide Q.BlockQueues.Valid, IsQueue;
      task := new TaskBlock?[NR_TASKS](_ => null);
      var init := new TaskBlock(0, 0);
      queues := new Q.BlockQueues(MAX_FD);
      taskCount := 1;
      current := init;
      kernel := map[];
      m := Runtime.Init();
      entries := [init.entry];
      new;
      task[0] := init;
    }

    // -------------------------------------------------------------- co_create

    /** The search loop. */
    method FindSlot() returns (id: int)
      requires Rep()
      ensures id == FreeSlot(m.tasks, 0)
    {
      id := 0;
      while id < NR_TASKS && task[id] != null
        invariant 0 <= id <= NR_TASKS
        invariant FreeSlot(m.tasks, id) == FreeSlot(m.tasks, 0)
      {
        assert RepSlot(id);
        id := id + 1;
      }
      assert id < NR_TASKS ==> RepSlot(id);
    }

    /** co_create.  The slot handed out is the lowest free one; without one the call fails and
        nothing happens. */
    method CoCreate() returns (ret: int, cid: int)
      requires Rep()
      modifies this`taskCount, this`m, this`entries, task
      ensures Rep() && m == Create(old(m))
      ensures if ret == 0 then cid == FreeSlot(old(m).tasks, 0) < NR_TASKS
              else ret == -1 && FreeSlot(old(m).tasks, 0) == NR_TASKS
    {
      hide Q.BlockQueues.Valid, FreeSlot;
      var id := FindSlot();
      if id == NR_TASKS {
        return -1, -1;
      }
      var tsk := new TaskBlock(id, m.births);
      assert RepSlot(id);
      task[id] := tsk;
      taskCount := taskCount + 1;
      m, entries := Create(m), entries + [tsk.entry];
      ret, cid := 0, id;
      forall i | 0 <= i < NR_TASKS
        ensures RepSlot(i)
      {
        assert old(RepSlot(i));
      }
      forall i | 0 <= i < NR_TASKS && m.tasks[i].Some?
        ensures RepLinks(i)
      {
        assert i != id ==> old(RepLinks(i));
      }
      forall f | 0 <= f < MAX_FD
        ensures RepQueue(f)
      {
        assert old(RepQueue(f));
      }
    }

    // -------------------------------------------------------------- co_sleep

    /** co_sleep, up to its call of schedule(). */
    method CoSleep(clock: SystemClock, seconds: int)
      requires Rep() && Inv(m) && m.running && Cur(m).pc == User
      modifies this`m, current, clock
      ensures Rep() && m == Sleep(old(m), clock.times(old(clock.readings)), seconds)
    {
      hide Rep, RepBut, Inv;
      RepSized();
      ghost var i, t := m.current, clock.times(clock.readings);
      Open(i);
      var now := clock.GetMsTime();
      current.wakeuptime := (now + 1000 * seconds) % WINDOW;
      current.status := SLEEP;
      current.pc := InSleep(t + 1000 * seconds);
      Close(i, Sleep(m, t, seconds));
    }

    // -------------------------------------------------------------- schedule

    ghost function Blocks(): set<TaskBlock>
      requires task.Length == NR_TASKS
      reads task
    {
      set i | 0 <= i < NR_TASKS && task[i] != null :: task[i]
    }

    /** The body of pick's first loop: the clock is read only if the slot holds a sleeper.  `sample`
        is what was read, or what the next reading would show. */
    method WakeSlot(i: int, clock: SystemClock) returns (ghost sample: int)
      requires Rep() && 0 <= i < NR_TASKS
      modifies this`m, clock, if task[i] != null then {task[i]} else {}
      ensures Rep() && m == old(m).(tasks := old(m).tasks[i := Promote(old(m).tasks[i], sample)])
      ensures sample == clock.times(old(clock.readings))
      ensures clock.readings == old(clock.readings) +
                (if Live(old(m), i) && Get(old(m), i).status == SLEEP then 1 else 0)
    {
      sample := clock.times(clock.readings);
      assert RepSlot(i);
      if task[i] != null && task[i].status == SLEEP {
        var now := clock.GetMsTime();
        if now > task[i].wakeuptime {
          Wake(i);
          return;
        }
      }
      assert m.tasks == m.tasks[i := Promote(m.tasks[i], sample)];
    }

    method Wake(i: int)
      requires Rep() && Live(m, i)
      modifies this`m, if task[i] != null then {task[i]} else {}
      ensures Rep() && m == Put(old(m), i, Get(old(m), i).(status := RUNNING))
    {
      hide Rep, RepBut;
      Open(i);
      task[i].status := RUNNING;
      Close(i, Put(m, i, Get(m, i).(status := RUNNING)));
    }

    /** pick's first loop: one clock reading per sleeper, in slot order. */
    method SweepTable(clock: SystemClock) returns (ghost row: seq<int>)
      requires Rep()
      modifies this`m, clock, Blocks()
      ensures Rep() && |row| == |old(m).tasks| == NR_TASKS && m == old(m).(tasks := Sweep(old(m).tasks, row))
      ensures forall i :: 0 <= i < |row| ==> row[i] == clock.times(old(clock.readings) + Asleep(old(m).tasks, i))
      ensures clock.readings == old(clock.readings) + Asleep(old(m).tasks, |row|)
    {
      hide Rep, Asleep, SweptPart, Promote;
      row := [];
      RepSized();
      ghost var tasks, from := m.tasks, clock.readings;
      AsleepNext(tasks, 0);
      SweptNothing(tasks, clock.times, from);
      for i := 0 to NR_TASKS
        invariant Rep() && |row| == i && |tasks| == |m.tasks| == NR_TASKS
        invariant m == old(m).(tasks := m.tasks) && SweptPart(tasks, m.tasks, row, clock.times, from)
        invariant clock.readings == from + Asleep(tasks, |row|)
      {
        AsleepNext(tasks, i);
        SweptSame(tasks, m.tasks, row, clock.times, from);
        ghost var before := m.tasks;
        ghost var sample := WakeSlot(i, clock);
        SweptNext(tasks, before, row, clock.times, from, sample);
        row := row + [sample];
      }
      SweptAll(tasks, m.tasks, row, clock.times, from);
    }

    /** pick's second loop; null stands for `goto repeat`. */
    method ScanTable() returns (next: TaskBlock?)
      requires Rep()
      ensures next != null <==> IsRunning(m.tasks, Scan(m.tasks, m.current, 1))
      ensures next != null ==> 0 <= Scan(m.tasks, m.current, 1) < NR_TASKS && next == task[Scan(m.tasks, m.current, 1)]
    {
      hide Q.BlockQueues.Valid, RepLinks, RepQueue;
      assert RepSlot(m.current);
      var currentId := current.id;
      var i := currentId;
      ghost var d := 0;
      while true
        invariant 0 <= d < NR_TASKS && i == SlotAt(m.current, d)
        invariant Scan(m.tasks, m.current, d + 1) == Scan(m.tasks, m.current, 1)
        decreases NR_TASKS - d
      {
        i, d := (i + 1) % NR_TASKS, d + 1;
        assert RepSlot(i);
        if i == currentId {
          if current.status == RUNNING {
            return current;
          }
          return null;
        }
        if task[i] != null && task[i].status == RUNNING {
          return task[i];
        }
      }
    }

    /** One round of pick: sweep, then scan. */
    method Round(clock: SystemClock) returns (candidate: TaskBlock?, ghost row: seq<int>)
      requires Rep()
      modifies this`m, clock, Blocks()
      ensures Rep() && |row| == |old(m).tasks| == NR_TASKS && m == old(m).(tasks := Sweep(old(m).tasks, row))
      ensures forall i :: 0 <= i < |row| ==> row[i] == clock.times(old(clock.readings) + Asleep(old(m).tasks, i))
      ensures clock.readings == old(clock.readings) + Asleep(old(m).tasks, |row|)
      ensures candidate != null <==> AnyRunning(m.tasks)
      ensures candidate != null ==>
                0 <= Scan(m.tasks, m.current, 1) < NR_TASKS && candidate == task[Scan(m.tasks, m.current, 1)]
    {
      hide Rep, Asleep, Sweep, Scan;
      row := SweepTable(clock);
      RepSized();
      candidate := ScanTable();
      if AnyRunning(m.tasks) {
        PickIsFirst(m.tasks, m.current);
      }
    }

    /** pick.  It is asked for an end exactly when it has one: see Scheduler.PickReturnsIff, and
        Scheduler.PickEndsIff for what that means on a running clock. */
    method Pick(clock: SystemClock) returns (next: TaskBlock, ghost sweeps: seq<seq<int>>)
      requires Rep() && PickEnds(m.tasks, clock.times, clock.readings)
      modifies this`m, clock, Blocks()
      ensures Rep() && PickReturns(old(m).tasks, sweeps)
      ensures m == old(m).(tasks := Sweeps(old(m).tasks, sweeps))
      ensures 0 <= Scan(m.tasks, m.current, 1) < NR_TASKS && next == task[Scan(m.tasks, m.current, 1)]
      ensures sweeps == Rounds(clock.times, old(clock.readings), old(m).tasks, |sweeps|)
    {
      hide Rep, Sweep, Sweeps, AnyRunning, Scan, Reads, Asleep, IsRound, Ends, Rounds, ReadingsOf, PickEnds,
        PickReturns, FoundNothing;
      sweeps := [];
      RepSized();
      ghost var tasks, from := m.tasks, clock.readings;
      ghost var i, last := Runnable(tasks, clock.times, from);
      NoRounds(clock.times, from, tasks);
      NoSweeps(tasks);
      while true
        invariant Rep() && |tasks| == NR_TASKS && m == old(m) && |sweeps| <= last
        invariant sweeps == Rounds(clock.times, from, tasks, |sweeps|) && FoundNothing(tasks, sweeps)
        invariant clock.readings == from + ReadingsOf(|sweeps|, Asleep(tasks, |tasks|))
        decreases last - |sweeps|
      {
        ghost var row;
        var candidate;
        candidate, row := Round(clock);
        RowIsRound(clock.times, from, tasks, |sweeps|, row);
        OneMore(clock.times, from, tasks, sweeps, row);
        SweepAgain(tasks, sweeps, row);
        if candidate != null {
          return candidate, sweeps + [row];
        }
        NotTheLast(clock.times, from, tasks, i, last, |sweeps|, row);
        sweeps := sweeps + [row];
      }
    }

    lemma RepSized()
      requires Rep()
      ensures Sized(m)
    {
    }

    method CoSwitchTo(next: TaskBlock, ghost id: int)
      requires Rep() && Live(m, id) && next == task[id]
      modifies this`current, this`m
      ensures Rep() && m == old(m).(current := id, running := true)
    {
      hide Rep, RepBut;
      Open(id);
      if current != next {
        current := next;
      }
      assert m.tasks == m.tasks[id := m.tasks[id]];
      Close(id, m.(current := id, running := true));
    }

    /** schedule(): pick, then co_switch_to. */
    method Schedule(clock: SystemClock) returns (ghost sweeps: seq<seq<int>>)
      requires Rep() && PickEnds(m.tasks, clock.times, clock.readings)
      modifies this`m, this`current, clock, Blocks()
      ensures Rep() && PickReturns(old(m).tasks, sweeps) && m == Dispatch(old(m), sweeps)
      ensures sweeps == Rounds(clock.times, old(clock.readings), old(m).tasks, |sweeps|)
    {
      hide PickEnds, Rounds;
      var next;
      RepSized();
      next, sweeps := Pick(clock);
      RepSized();
      PickIsFirst(m.tasks, m.current);
      hide Rep, Sweeps, Scan;
      CoSwitchTo(next, Scan(m.tasks, m.current, 1));
    }

    // -------------------------------------------------------------- add_queue and the wait loops

    /** What the queue operations rely on: serials tell tasks apart, and queued tasks know it. */
    ghost predicate Orderly()
      requires Sized(m)
      reads this
    {
      && SerialsOK(m)
      && forall f, k :: 0 <= f < MAX_FD && 0 <= k < |m.queues[f]| ==> Get(m, m.queues[f][k]).entry == Queued
    }

    /** The entry of a task that is in no queue is not among the linked ones. */
    lemma {:induction false} NotLinked(i: int, f: int)
      requires Rep() && Orderly() && Live(m, i) && Get(m, i).entry != Queued && 0 <= f < MAX_FD
      ensures Get(m, i).serial < |entries|
      ensures entries[Get(m, i).serial] !in queues.lists[f] && entries[Get(m, i).serial] !in queues.heads
    {
      hide IsQueue;
      assert RepSlot(i) && RepQueue(f);
      var e := entries[Get(m, i).serial];
      forall k | 0 <= k < |m.queues[f]|
        ensures queues.lists[f][k] != e
      {
        assert queues.lists[f][k].stamp == Get(m, m.queues[f][k]).serial;
      }
    }

    lemma {:induction false} OwnEntry(i: int, j: int)
      requires Rep() && Orderly() && Live(m, i) && Live(m, j) && i != j
      ensures Get(m, i).serial < |entries| && task[j] != null && entries[Get(m, i).serial] != task[j].entry
    {
      hide Q.BlockQueues.Valid;
      assert RepSlot(i) && RepSlot(j);
      assert Get(m, i).serial != Get(m, j).serial;
      assert entries[Get(m, i).serial].stamp == Get(m, i).serial;
      assert task[j].entry.stamp == Get(m, j).serial;
    }

    /** TAILQ_INSERT_TAIL of the current task, on the heap. */
    method LinkLast(fd: int)
      requires Rep() && Orderly() && 0 <= fd < MAX_FD && Cur(m).entry != Queued
      modifies queues`lists, queues`links,
               {current.entry, Before(queues.heads[fd], queues.lists[fd], |queues.lists[fd]|)}`nxt,
               {current.entry, queues.heads[fd]}`bck, current.entry`home
      ensures queues.Valid()
      ensures queues.lists == old(queues.lists)[fd := old(queues.lists)[fd] + [current.entry]]
      ensures forall i :: 0 <= i < NR_TASKS ==> RepSlot(i)
      ensures forall i :: 0 <= i < NR_TASKS && i != m.current && m.tasks[i].Some? && m.tasks[i].value.entry != Queued
                ==> RepLinks(i)
    {
      hide Q.BlockQueues.Valid;
      forall i, f | 0 <= i < NR_TASKS && m.tasks[i].Some? && m.tasks[i].value.entry != Queued && 0 <= f < MAX_FD
        ensures m.tasks[i].value.serial < |entries|
        ensures entries[m.tasks[i].value.serial] !in queues.lists[f]
        ensures entries[m.tasks[i].value.serial] !in queues.heads
      {
        NotLinked(i, f);
      }
      forall i | 0 <= i < NR_TASKS && m.tasks[i].Some? && i != m.current
        ensures entries[m.tasks[i].value.serial] != current.entry
      {
        OwnEntry(i, m.current);
      }
      assert RepSlot(m.current);
      queues.InsertTail(fd, current.entry);
      forall i | 0 <= i < NR_TASKS && m.tasks[i].Some? && m.tasks[i].value.entry != Queued && i != m.current
        ensures RepLinks(i)
      {
        assert old(RepLinks(i));
        assert unchanged(entries[m.tasks[i].value.serial]);
      }
    }

    method Enqueue(fd: int)
      requires Rep() && Orderly() && 0 <= fd < MAX_FD && Cur(m).entry != Queued
      modifies this`m, current`links, queues`lists, queues`links,
               {current.entry, Before(queues.heads[fd], queues.lists[fd], |queues.lists[fd]|)}`nxt,
               {current.entry, queues.heads[fd]}`bck, current.entry`home
      ensures Rep() && m == Runtime.Enqueue(old(m), fd, Cur(old(m)))
    {
      hide Q.BlockQueues.Valid, Orderly, Before;
      LinkLast(fd);
      assert RepSlot(m.current);
      label Linked:
      current.links := Queued;
      m := Runtime.Enqueue(m, fd, Cur(m));
      forall i | 0 <= i < NR_TASKS
        ensures RepSlot(i) && (m.tasks[i].Some? ==> RepLinks(i))
      {
        assert old@Linked(RepSlot(i));
        assert i != m.current && m.tasks[i].Some? && m.tasks[i].value.entry != Queued ==> old@Linked(RepLinks(i));
      }
      forall f | 0 <= f < MAX_FD
        ensures RepQueue(f)
      {
        assert old(RepQueue(f));
      }
    }

    /** The part of add_queue that touches the task block only. */
    method AskBlock(fd: int, events: bv32)
      requires Rep() && 0 <= fd < MAX_FD && (Cur(m).events[fd].fd <= 0 ==> |Cur(m).fds| < MAX_FD)
      modifies this`m, current
      ensures Rep() && m == PutCur(old(m), Asked(Cur(old(m)), fd, events))
    {
      hide Rep, RepBut, Asked;
      RepSized();
      Open(m.current);
      current.Ask(fd, events);
      Close(m.current, PutCur(m, Asked(Cur(m), fd, events)));
    }

    /** add_queue.  A first registration that finds fds[] full would write past it. */
    method AddQueue(fd: int, events: bv32) returns (ret: int)
      requires Rep() && Orderly() && Cur(m).entry != Queued && 0 <= fd < MAX_FD
      requires !Runtime.AddQueue(m, fd, events).FdsOverrun?
      modifies this`m, this`kernel, current
      modifies queues`lists, queues`links,
               {current.entry, Before(queues.heads[fd], queues.lists[fd], |queues.lists[fd]|)}`nxt,
               {current.entry, queues.heads[fd]}`bck, current.entry`home
      ensures Rep() && current == old(current) && !Runtime.AddQueue(old(m), fd, events).FdsOverrun?
      ensures m == Runtime.AddQueue(old(m), fd, events).state
      ensures ret == if Runtime.AddQueue(old(m), fd, events).Added? then 0 else -1
    {
      hide Asked, Rep, Runtime.AddQueue, Runtime.Enqueue, AsksForMore, With;
      KernelIs();
      CurrentIs();
      ghost var t := Asked(Cur(m), fd, events);
      AddQueueIs(m, fd, events);
      var first := current.events[fd].fd <= 0;
      var more := AsksForMore(current.events[fd].mask, events);
      AskBlock(fd, events);
      KernelIs();
      CurrentIs();
      if first {
        if fd in kernel {
          return -1;                                         // EPOLL_CTL_ADD
        }
        Control(fd, events);
      } else if more {
        if fd !in kernel {
          return -1;                                         // EPOLL_CTL_MOD
        }
        Control(fd, With(events, current.events[fd].mask));
      }
      KernelIs();
      assert m == PutCur(old(m), t).(kernel := kernel) && Cur(m) == t;
      OrderlyStays(old(m), t);
      Enqueue(fd);
      EnqueueAfterPut(old(m), fd, t, kernel);
      return 0;
    }

    lemma EnqueueAfterPut(s: State, fd: int, t: Task, kernel: map<int, bv32>)
      requires Sized(s) && 0 <= fd < MAX_FD && |t.events| == |t.revents| == MAX_FD
      ensures Runtime.Enqueue(PutCur(s, t).(kernel := kernel), fd, t)
              == Runtime.Enqueue(s.(kernel := kernel), fd, t)
    {
      PutTwice(s, s.current, t, t.(entry := Queued));
    }

    lemma AddQueueIs(s: State, fd: int, events: bv32)
      requires Sized(s) && 0 <= fd < MAX_FD
      ensures var recorded, t := Cur(s).events[fd], Asked(Cur(s), fd, events);
              Runtime.AddQueue(s, fd, events) ==
                if recorded.fd <= 0 then
                  if |Cur(s).fds| >= MAX_FD then FdsOverrun
                  else if fd in s.kernel then Refused(PutCur(s, t))
                  else Added(Runtime.Enqueue(s.(kernel := s.kernel[fd := events]), fd, t))
                else if AsksForMore(recorded.mask, events) then
                  if fd !in s.kernel then Refused(PutCur(s, t))
                  else Added(Runtime.Enqueue(s.(kernel := s.kernel[fd := With(events, t.events[fd].mask)]), fd, t))
                else Added(Runtime.Enqueue(s, fd, t))
    {
    }

    /** A successful epoll_ctl ADD or MOD. */
    method Control(fd: int, mask: bv32)
      requires Rep()
      modifies this`m, this`kernel
      ensures Rep() && m == old(m).(kernel := old(m).kernel[fd := mask])
    {
      hide Rep, RepBut;
      RepSized();
      Open(m.current);
      kernel := kernel[fd := mask];
      assert m.tasks == m.tasks[m.current := Some(Cur(m))];
      Close(m.current, m.(kernel := kernel));
    }

    lemma KernelIs()
      requires Rep()
      ensures kernel == m.kernel && Sized(m) && queues.Valid()
    {
    }

    lemma CurrentIs()
      requires Rep()
      ensures Live(m, m.current) && current.Shaped() && current.View() == Cur(m)
    {
      assert RepSlot(m.current);
    }

    lemma OrderlyStays(m0: State, t: Task)
      requires Sized(m0) && Sized(m) && SerialsOK(m0)
      requires forall f, k :: 0 <= f < MAX_FD && 0 <= k < |m0.queues[f]| ==> Get(m0, m0.queues[f][k]).entry == Queued
      requires m.queues == m0.queues && m.births == m0.births && m.current == m0.current
      requires t.serial == Cur(m0).serial && t.entry == Cur(m0).entry && m.tasks == m0.tasks[m0.current := Some(t)]
      ensures Orderly()
    {
    }

    /** The test of the wait loop for the current task; false means it goes (back) to schedule(). */
    method WaitTest(fd: int, bit: bv32) returns (over: bool)
      requires Rep() && 0 <= fd < MAX_FD
      modifies this`m, this`kernel, current
      ensures Rep() && m == Runtime.WaitTest(old(m), fd, bit)
      ensures over == Meets(Cur(old(m)).revents[fd], bit)
    {
      hide Rep, Waited, Meets, Without;
      KernelIs();
      CurrentIs();
      over := WaitBlock(fd, bit);
      KernelIs();
      CurrentIs();
      if !over {
        Pause();
      } else if bit == EPOLLOUT && fd in kernel {
        Control(fd, current.events[fd].mask);                // EPOLL_CTL_MOD
      }
    }

    method WaitBlock(fd: int, bit: bv32) returns (over: bool)
      requires Rep() && 0 <= fd < MAX_FD
      modifies this`m, current
      ensures Rep() && m == PutCur(old(m), Waited(Cur(old(m)), fd, bit))
      ensures over == Meets(Cur(old(m)).revents[fd], bit)
    {
      hide Rep, RepBut, Waited, Meets;
      RepSized();
      Open(m.current);
      over := current.Wait(fd, bit);
      Close(m.current, PutCur(m, Waited(Cur(m), fd, bit)));
    }

    /** The current task is about to call schedule(). */
    ghost method Pause()
      requires Rep()
      modifies this`m
      ensures Rep() && m == old(m).(running := false)
    {
      hide Rep, RepBut;
      RepSized();
      Open(m.current);
      assert m.tasks == m.tasks[m.current := Some(Cur(m))];
      Close(m.current, m.(running := false));
    }

    /** co_accept, co_read and co_write, up to schedule() or the return. */
    method CoBlock(fd: int, bit: bv32) returns (ret: int)
      requires Rep() && Inv(m) && Ready(m, DoBlock(fd, bit)) && Block(m, fd, bit).Next?
      modifies this`m, this`kernel, current
      modifies queues`lists, queues`links,
               {current.entry, Before(queues.heads[fd], queues.lists[fd], |queues.lists[fd]|)}`nxt,
               {current.entry, queues.heads[fd]}`bck, current.entry`home
      ensures Rep() && m == Block(old(m), fd, bit).state
      ensures ret < 0 <==> Runtime.AddQueue(old(m), fd, bit).Refused?
    {
      hide Rep, Asked, Waited, Meets;
      OrderlyNow();
      ret := AddQueue(fd, bit);
      if ret < 0 {
        return;
      }
      var over := WaitTest(fd, bit);
    }

    lemma {:induction false} OrderlyNow()
      requires Inv(m)
      ensures Orderly() && TaskOK(Cur(m)) && (m.running ==> Cur(m).entry != Queued)
    {
      forall f, k | 0 <= f < MAX_FD && 0 <= k < |m.queues[f]|
        ensures Get(m, m.queues[f][k]).entry == Queued
      {
        assert WaitsAt(Get(m, m.queues[f][k]), f);
      }
    }

    // -------------------------------------------------------------- co_eventloop

    ghost function Waiter(fd: int): set<TaskBlock>
      requires Sized(m) && 0 <= fd < MAX_FD && task.Length == NR_TASKS
      reads this, task
    {
      if |m.queues[fd]| > 0 && task[m.queues[fd][0]] != null then {task[m.queues[fd][0]]} else {}
    }

    /** TAILQ_FIRST and TAILQ_REMOVE.  On an empty queue TAILQ_REMOVE would dereference NULL. */
    method UnlinkFirst(fd: int) returns (e: Link)
      requires Rep() && Orderly() && 0 <= fd < MAX_FD && |m.queues[fd]| > 0
      modifies queues`lists, {queues.heads[fd]}`nxt, {After(queues.heads[fd], queues.lists[fd], 0)}`bck
      ensures queues.Valid() && |old(queues.lists)[fd]| > 0
      ensures queues.lists == old(queues.lists)[fd := old(queues.lists)[fd][1..]]
      ensures e == old(queues.lists)[fd][0] && e.bck == queues.heads[fd]
      ensures e.nxt == if |old(queues.lists)[fd]| > 1 then old(queues.lists)[fd][1] else null
      ensures forall f :: 0 <= f < MAX_FD ==>
                Matches(entries, m.tasks, queues.lists[f], m.queues[fd := m.queues[fd][1..]][f])
      ensures task.Length == NR_TASKS && |queues.heads| == |queues.lists| == MAX_FD && |entries| == m.births
      ensures forall k :: 0 <= k < |entries| ==> entries[k].stamp == k
      ensures kernel == m.kernel && taskCount == m.count && task[m.current] == current
      ensures forall i :: 0 <= i < NR_TASKS ==> RepSlot(i)
      ensures forall i :: 0 <= i < NR_TASKS && m.tasks[i].Some? && m.tasks[i].value.entry != Queued ==> RepLinks(i)
    {
      hide Q.BlockQueues.Valid;
      assert RepQueue(fd);
      forall i | 0 <= i < NR_TASKS && m.tasks[i].Some? && m.tasks[i].value.entry != Queued
        ensures m.tasks[i].value.serial < |entries|
        ensures entries[m.tasks[i].value.serial] != queues.heads[fd]
        ensures entries[m.tasks[i].value.serial] != After(queues.heads[fd], queues.lists[fd], 0)
      {
        NotLinked(i, fd);
      }
      hide Orderly, After, IsQueue;
      e := queues.TakeFirst(fd);
      forall f | 0 <= f < MAX_FD
        ensures Matches(entries, m.tasks, queues.lists[f], m.queues[fd := m.queues[fd][1..]][f])
      {
        assert old(RepQueue(f));
      }
      forall i | 0 <= i < NR_TASKS && m.tasks[i].Some? && m.tasks[i].value.entry != Queued
        ensures RepLinks(i)
      {
        assert old(RepLinks(i));
        var o := entries[m.tasks[i].value.serial];
        assert o.nxt == old(o.nxt) && o.bck == old(o.bck);
      }
    }

    method TakeWaiter(fd: int) returns (tsk: TaskBlock)
      requires Rep() && Orderly() && 0 <= fd < MAX_FD && |m.queues[fd]| > 0
      modifies this`m, queues`lists, {queues.heads[fd]}`nxt, {After(queues.heads[fd], queues.lists[fd], 0)}`bck
      modifies Waiter(fd)`links
      ensures var q := old(m).queues[fd];
              && Rep() && 0 <= q[0] < NR_TASKS && tsk == task[q[0]]
              && m == Put(old(m), q[0], Get(old(m), q[0]).(entry := Stale(fd, Second(old(m), fd)))).(
                        queues := old(m).queues[fd := q[1..]])
    {
      hide Q.BlockQueues.Valid, Orderly, After, Second, IsQueue, Rep, RepLinks, RepQueue;
      RepSized();
      FirstIs(fd);
      SecondIs(fd);
      ghost var s, first, succ := m, m.queues[fd][0], Second(m, fd);
      ghost var t := Get(s, first).(entry := Stale(fd, succ));
      var e := UnlinkFirst(fd);
      tsk := task[e.owner];
      forall f | 0 <= f < MAX_FD
        ensures Matches(entries, s.tasks[first := Some(t)], queues.lists[f], s.queues[fd := s.queues[fd][1..]][f])
      {
        StillMatches(entries, s.tasks, queues.lists[f], s.queues[fd := s.queues[fd][1..]][f], first, t);
      }
      MarkTaken(tsk, first, fd, succ);
      TakenRep(s, first, fd, t);
    }

    /** The model's side of the removal: what the entry of the dequeued task i still points at. */
    ghost method MarkTaken(tsk: TaskBlock, i: int, fd: int, succ: Option<nat>)
      requires task.Length == NR_TASKS && |queues.heads| == MAX_FD && Sized(m)
      requires forall j :: 0 <= j < NR_TASKS ==> RepSlot(j)
      requires forall j :: 0 <= j < NR_TASKS && m.tasks[j].Some? && m.tasks[j].value.entry != Queued ==> RepLinks(j)
      requires 0 <= fd < MAX_FD && |m.queues[fd]| > 0 && i == m.queues[fd][0]
      requires Live(m, i) && tsk == task[i] && tsk.entry.bck == queues.heads[fd]
      requires match succ
               case None => tsk.entry.nxt == null
               case Some(n) => n < |entries| && n != Get(m, i).serial && tsk.entry.nxt == entries[n]
      modifies this`m, tsk`links
      ensures m == Put(old(m), i, Get(old(m), i).(entry := Stale(fd, succ))).(
                       queues := old(m).queues[fd := old(m).queues[fd][1..]])
      ensures forall j :: 0 <= j < NR_TASKS ==> RepSlot(j) && (m.tasks[j].Some? ==> RepLinks(j))
    {
      assert RepSlot(i);
      tsk.links := Stale(fd, succ);
      m := Put(m, i, Get(m, i).(entry := Stale(fd, succ))).(queues := m.queues[fd := m.queues[fd][1..]]);
      forall j | 0 <= j < NR_TASKS
        ensures RepSlot(j) && (m.tasks[j].Some? ==> RepLinks(j))
      {
        assert old(RepSlot(j));
        assert j != i && m.tasks[j].Some? && m.tasks[j].value.entry != Queued ==> old(RepLinks(j));
      }
    }

    lemma TakenRep(s: State, i: int, fd: int, t: Task)
      requires task.Length == NR_TASKS && |queues.heads| == |queues.lists| == MAX_FD && queues.Valid()
      requires Sized(s) && |entries| == s.births && taskCount == s.count && kernel == s.kernel
      requires task[s.current] == current
      requires forall k :: 0 <= k < |entries| ==> entries[k].stamp == k
      requires 0 <= fd < MAX_FD && |s.queues[fd]| > 0 && Live(s, i) && |t.events| == |t.revents| == MAX_FD
      requires m == Put(s, i, t).(queues := s.queues[fd := s.queues[fd][1..]])
      requires forall j :: 0 <= j < NR_TASKS ==> RepSlot(j) && (m.tasks[j].Some? ==> RepLinks(j))
      requires forall f :: 0 <= f < MAX_FD ==> Matches(entries, m.tasks, queues.lists[f], m.queues[f])
      ensures Rep()
    {
      hide Q.BlockQueues.Valid, RepSlot, RepLinks, Matches;
    }

    lemma {:induction false} FirstIs(fd: int)
      requires Rep() && 0 <= fd < MAX_FD && |m.queues[fd]| > 0
      ensures task.Length == NR_TASKS && 0 <= fd < |queues.heads| == |queues.lists|
      ensures var i := m.queues[fd][0];
              && 0 <= i < NR_TASKS && Live(m, i) && task[i] != null
              && |queues.lists[fd]| > 0 && queues.lists[fd][0] == task[i].entry && task[i].entry.owner == i
    {
      assert RepQueue(fd) && RepSlot(m.queues[fd][0]);
    }

    lemma {:induction false} SecondIs(fd: int)
      requires Rep() && Orderly() && 0 <= fd < MAX_FD && |m.queues[fd]| > 0
      ensures match Second(m, fd)
              case None => |queues.lists[fd]| == 1
              case Some(n) => |queues.lists[fd]| > 1 && n < |entries| && queues.lists[fd][1] == entries[n]
                              && n != Get(m, m.queues[fd][0]).serial
    {
      assert RepQueue(fd);
    }

    /** The dequeued task is told of the event if its recorded mask meets it. */
    method Deliver(tsk: TaskBlock, ghost i: int, ev: Event, ghost succ: Option<nat>)
      requires Rep() && Live(m, i) && tsk == task[i]
      requires 0 <= ev.fd < MAX_FD && Get(m, i).entry == Stale(ev.fd, succ)
      modifies this`m, tsk`status, tsk`revents
      ensures Rep() && m == Put(old(m), i, Notified(Get(old(m), i), ev, succ))
    {
      hide Rep, RepBut, Notified;
      Open(i);
      tsk.Notify(ev);
      Close(i, Put(m, i, Notified(Get(m, i), ev, succ)));
    }

    /** One turn of the batch loop of co_eventloop. */
    method OneEvent(ev: Event)
      requires Rep() && Orderly() && 0 <= ev.fd < MAX_FD && EventStep(m, ev).Next?
      modifies this`m, queues`lists, {queues.heads[ev.fd]}`nxt, {After(queues.heads[ev.fd], queues.lists[ev.fd], 0)}`bck
      modifies Waiter(ev.fd)
      ensures Rep() && m == EventStep(old(m), ev).state
    {
      RepSized();
      hide Rep, Second, After, Orderly;
      ghost var s := m;
      ghost var i, succ := s.queues[ev.fd][0], Second(s, ev.fd);
      var tsk := TakeWaiter(ev.fd);
      Deliver(tsk, i, ev, succ);
      NotifiedTwice(Get(s, i), ev, succ);
      PutTwice(s, i, Get(s, i).(entry := Stale(ev.fd, succ)), Notified(Get(s, i), ev, succ));
    }

    lemma {:induction false} NotifiedTwice(t: Task, ev: Event, succ: Option<nat>)
      requires 0 <= ev.fd < |t.events| == |t.revents|
      ensures Notified(t.(entry := Stale(ev.fd, succ)), ev, succ) == Notified(t, ev, succ)
    {
      hide Meets;
    }

    /** The batch loop: every event finds a waiter, or the loop would dereference NULL. */
    method DispatchEvents(evs: seq<Event>)
      requires Rep() && Inv(m) && m.running && InRange(evs) && Events(m, evs).Next?
      modifies this`m, queues`lists, queues.heads`nxt, queues.heads`bck, queues.links`bck, Blocks()
      ensures Rep() && Inv(m) && m == Events(old(m), evs).state
    {
      hide Rep, Inv, Tables, Sized, Orderly, Second, Notified, TaskOK;
      RepSized();
      ghost var s := m;
      for k := 0 to |evs|
        invariant Rep() && Events(s, evs[..k]) == Next(m)
        invariant queues.links == old(queues.links)
      {
        EventsPrefix(s, evs, k + 1);
        EventsKeep(s, evs[..k]);
        assert evs[..k + 1][..k] == evs[..k];
        InReach(evs[k].fd);
        OrderlyNow();
        OneEvent(evs[k]);
      }
      assert evs[..|evs|] == evs;
      EventsKeep(s, evs);
    }

    /** Where one turn of the loop writes. */
    lemma {:induction false} InReach(fd: int)
      requires Rep() && 0 <= fd < MAX_FD
      ensures queues.heads[fd] in queues.heads && Waiter(fd) <= Blocks()
      ensures After(queues.heads[fd], queues.lists[fd], 0) in queues.links
              || After(queues.heads[fd], queues.lists[fd], 0) in queues.heads
    {
    }

    lemma {:induction false} EventsPrefix(s: State, evs: seq<Event>, k: nat)
      requires Sized(s) && InRange(evs) && k <= |evs| && Events(s, evs).Next?
      ensures Events(s, evs[..k]).Next?
    {
      if k < |evs| {
        assert evs[..|evs| - 1][..k] == evs[..k];
        EventsPrefix(s, evs[..|evs| - 1], k);
      } else {
        assert evs[..k] == evs;
      }
    }

    /** One turn of co_eventloop, from epoll_wait's return to schedule(). */
    method LoopTurn(evs: seq<Event>)
      requires Rep() && Inv(m) && Ready(m, DoLoop(evs)) && Loop(m, evs).Next?
      modifies this`m, queues`lists, queues.heads`nxt, queues.heads`bck, queues.links`bck, Blocks()
      ensures Rep() && m == Loop(old(m), evs).state
    {
      DispatchEvents(evs);
      Leave(InLoop);
    }

    /** The current task records where it is and is about to call schedule(). */
    ghost method Leave(pc: Pc)
      requires Rep()
      modifies this`m, current`pc
      ensures Rep() && m == Suspend(old(m), Cur(old(m)).(pc := pc))
    {
      hide Rep, RepBut;
      RepSized();
      Open(m.current);
      current.pc := pc;
      Close(m.current, Suspend(m, Cur(m).(pc := pc)));
    }

    // -------------------------------------------------------------- start, after co_fn returns

    /** What the stale removals of the current task meet: its entry, last taken from queue `home`. */
    ghost predicate StaleEntry(home: int)
      reads this, current.entry, queues
    {
      && 0 <= home < |queues.heads| && NoDup(queues.heads)
      && current.entry !in queues.heads && current.entry.bck == queues.heads[home] && current.entry.nxt != current.entry
      && (current.entry.nxt != null ==> current.entry.nxt !in queues.heads)
    }

    /** One turn of the cleanup loop of start; the descriptors in `done` have been released. */
    method ReleaseOne(ghost home: int, ghost done: seq<int>) returns (fd: int)
      requires 0 < current.fdsIdx <= |current.fds| && 0 <= current.fds[current.fdsIdx - 1] < |queues.heads|
      requires StaleEntry(home) && Q.InArray(done, |queues.heads|) && queues.Damaged(done, current.entry, home)
      modifies this`kernel, current`fdsIdx
      modifies queues.heads`nxt, queues.heads`bck, (if current.entry.nxt != null then {current.entry.nxt} else {})`bck
      ensures current.fdsIdx == old(current.fdsIdx) - 1 && fd == current.fds[current.fdsIdx]
      ensures kernel == old(kernel) - {fd}
      ensures StaleEntry(home) && current.entry.nxt == old(current.entry.nxt)
      ensures Q.InArray([fd] + done, |queues.heads|) && queues.Damaged([fd] + done, current.entry, home)
      ensures old(queues.Valid()) && Q.StaleIsHarmless(queues.lists, [fd], home, current.entry.nxt) ==>
                queues.Valid() && unchanged(queues.heads) &&
                (current.entry.nxt != null ==> unchanged(current.entry.nxt))
    {
      hide Q.BlockQueues.Valid, Q.BlockQueues.Damaged, IsQueue, NoDup;
      current.fdsIdx := current.fdsIdx - 1;
      fd := current.fds[current.fdsIdx];
      kernel := kernel - {fd};                               // EPOLL_CTL_DEL
      queues.UnlinkStale(fd, current.entry, home, done);
    }

    /** The cleanup loop of start.  `crashed` stands for the NULL dereference in the TAILQ_REMOVE of an
        entry that was never queued. */
    method Release(ghost home: int) returns (crashed: bool)
      requires queues.Valid() && current.Shaped() && Q.InArray(current.fds[..current.fdsIdx], |queues.heads|)
      requires current.fdsIdx > 0 && current.entry.bck != null ==> StaleEntry(home)
      modifies this`kernel, current`fdsIdx
      modifies queues.heads`nxt, queues.heads`bck, (if current.entry.nxt != null then {current.entry.nxt} else {})`bck
      ensures crashed <==> old(current.fdsIdx) > 0 && old(current.entry.bck) == null
      ensures !crashed ==> current.Shaped() && current.fdsIdx == 0
      ensures var fds, next := old(current.fds[..current.fdsIdx]), old(current.entry.nxt);
              !crashed ==>
                && kernel == old(kernel) - FdSet(fds)
                && (queues.Valid() <==> Q.StaleIsHarmless(queues.lists, fds, home, next))
                && (queues.Valid() ==> unchanged(queues.heads) && (next != null ==> unchanged(next)))
                && (|fds| > 0 ==> current.entry.nxt == next)
    {
      if current.fdsIdx > 0 && current.entry.bck == null {
        return true;
      }
      ReleaseAll(home);
      return false;
    }

    method ReleaseAll(ghost home: int)
      requires queues.Valid() && current.Shaped() && Q.InArray(current.fds[..current.fdsIdx], |queues.heads|)
      requires current.fdsIdx > 0 ==> StaleEntry(home)
      modifies this`kernel, current`fdsIdx
      modifies queues.heads`nxt, queues.heads`bck, (if current.entry.nxt != null then {current.entry.nxt} else {})`bck
      ensures current.Shaped() && current.fdsIdx == 0
      ensures var fds, next := old(current.fds[..current.fdsIdx]), old(current.entry.nxt);
              && kernel == old(kernel) - FdSet(fds)
              && (queues.Valid() <==> Q.StaleIsHarmless(queues.lists, fds, home, next))
              && (queues.Valid() ==> unchanged(queues.heads) && (next != null ==> unchanged(next)))
              && (|fds| > 0 ==> current.entry.nxt == next)
    {
      hide Q.BlockQueues.Valid, Q.BlockQueues.Damaged, Q.StaleIsHarmless, IsQueue, FdSet, NoDup;
      ghost var fds, e, next := current.fds[..current.fdsIdx], current.entry, current.entry.nxt;
      ghost var harmless := Q.StaleIsHarmless(queues.lists, fds, home, next);
      ghost var done: seq<int> := [];
      NothingDone(e, home, next);
      while current.fdsIdx > 0
        invariant 0 <= current.fdsIdx <= |fds| && done == fds[current.fdsIdx..]
        invariant kernel == old(kernel) - FdSet(done) && Q.InArray(done, |queues.heads|)
        invariant |fds| > 0 ==> StaleEntry(home) && e.nxt == next && queues.Damaged(done, e, home)
        invariant harmless ==> queues.Valid() && unchanged(queues.heads) && (next != null ==> unchanged(next))
      {
        ghost var idx := current.fdsIdx - 1;
        HarmlessEach(fds, idx, home, next);
        var fd := ReleaseOne(home, done);
        assert fds[idx..] == [fd] + done;
        OneLess(old(kernel), fd, done);
        done := fds[idx..];
      }
      assert done == fds;
      if |fds| > 0 && queues.Valid() {
        queues.DamageShows(fds, e, home);
      }
      assert queues.Valid() <==> harmless;
    }

    lemma HarmlessEach(fds: seq<int>, k: nat, home: int, next: Link?)
      requires k < |fds|
      ensures Q.StaleIsHarmless(queues.lists, fds, home, next) ==>
                Q.StaleIsHarmless(queues.lists, [fds[k]], home, next)
    {
      assert fds[k] in fds;
    }

    lemma OneLess(kernel: map<int, bv32>, fd: int, rest: seq<int>)
      ensures kernel - FdSet(rest) - {fd} == kernel - FdSet([fd] + rest)
    {
    }

    lemma NothingDone(e: Link, home: int, next: Link?)
      ensures Q.InArray([], |queues.heads|) && Q.StaleIsHarmless(queues.lists, [], home, next)
      ensures 0 <= home < |queues.heads| ==> queues.Damaged([], e, home)
      ensures kernel == kernel - FdSet([])
    {
    }

    /** The links of the current task, and the two ways to say that its cleanup is harmless. */
    lemma {:induction false} StaleIsKnown(home: int)
      requires Rep() && Orderly() && TaskOK(Cur(m)) && Cur(m).pc == User && Cur(m).entry != Queued
      requires Cur(m).entry.Stale? ==> Cur(m).entry.home == home
      ensures current.Shaped() && current.fds[..current.fdsIdx] == Cur(m).fds
      ensures Q.InArray(Cur(m).fds, |queues.heads|)
      // with links as calloc left them, a TAILQ_REMOVE would dereference NULL
      ensures Cur(m).entry == Fresh ==> current.entry.bck == null
      ensures Cur(m).entry.Stale? ==> StaleEntry(home)
      ensures Cur(m).entry.Stale? || |Cur(m).fds| == 0 ==>
                (Q.StaleIsHarmless(queues.lists, Cur(m).fds, home, current.entry.nxt) <==> CleanupIsHarmless(m, Cur(m)))
    {
      assert RepSlot(m.current) && RepLinks(m.current);
      if Cur(m).entry.Stale? {
        assert RepQueue(home);
        if Cur(m).entry.succ.Some? && |m.queues[home]| > 0 {
          assert queues.lists[home][0].stamp == Get(m, m.queues[home][0]).serial;
        }
      }
    }

    lemma FinishForm(s: State)
      requires Sized(s) && Cur(s).entry != Queued
      ensures Finish(s) ==
                if |Cur(s).fds| > 0 && Cur(s).entry == Fresh then Fault(NullDereference)
                else if !CleanupIsHarmless(s, Cur(s)) then Fault(WreckedQueue)
                else Next(Suspend(s, Cur(s).(status := EXIT, fds := [], pc := Done)).(
                            kernel := s.kernel - FdSet(Cur(s).fds)))
    {
    }

    method CleanUp(ghost home: int) returns (crashed: bool)
      requires task.Length == NR_TASKS && 0 <= m.current < NR_TASKS && RepBut(m.current)
      requires Live(m, m.current) && current !in OtherBlocks(m.current)
      requires queues.Valid() && current.Shaped() && current.View() == Cur(m)
      requires Q.InArray(Cur(m).fds, |queues.heads|)
      requires |Cur(m).fds| > 0 && current.entry.bck != null ==> StaleEntry(home)
      modifies this`kernel, current`status, current`fdsIdx, current`pc
      modifies queues.heads`nxt, queues.heads`bck, (if current.entry.nxt != null then {current.entry.nxt} else {})`bck
      ensures crashed <==> |Cur(m).fds| > 0 && old(current.entry.bck) == null
      ensures !crashed ==>
                (queues.Valid() <==> Q.StaleIsHarmless(queues.lists, Cur(m).fds, home, old(current.entry.nxt)))
      ensures !crashed && queues.Valid() ==>
                && RepBut(m.current) && kernel == old(kernel) - FdSet(Cur(m).fds)
                && current.Shaped() && current.View() == Cur(m).(status := EXIT, fds := [], pc := Done)
    {
      hide RepBut, Q.BlockQueues.Valid, Q.StaleIsHarmless, FdSet, StaleEntry;
      current.status := EXIT;
      current.pc := Done;
      crashed := Release(home);
    }

    /** What start does after co_fn returns, up to its last schedule(): the machine's finish step, its
        faults included.  A wrecked queue is one that is no longer well formed. */
    method Exit() returns (crashed: bool)
      requires Rep() && Inv(m) && m.running && Cur(m).pc == User
      modifies this`m, this`kernel, current`status, current`fdsIdx, current`pc
      modifies queues.heads`nxt, queues.heads`bck, (if current.entry.nxt != null then {current.entry.nxt} else {})`bck
      ensures crashed <==> Finish(old(m)) == Fault(NullDereference)
      ensures !crashed && !queues.Valid() <==> Finish(old(m)) == Fault(WreckedQueue)
      ensures Finish(old(m)).Next? ==> Rep() && m == Finish(old(m)).state
    {
      hide Rep, RepBut, Q.BlockQueues.Valid, Q.StaleIsHarmless, Inv, Orderly, FdSet, Finish, TaskOK, StaleEntry,
        CleanupIsHarmless;
      KernelIs();
      OrderlyNow();
      ghost var home := if Cur(m).entry.Stale? then Cur(m).entry.home else 0;
      FinishForm(m);
      StaleIsKnown(home);
      Open(m.current);
      crashed := CleanUp(home);
      if !crashed && queues.Valid() {
        Close(m.current, Finish(m).state);
      }
    }

    // -------------------------------------------------------------- co_join

    /** The loop test of co_join: back to schedule(), or out of the loop and free the slot. */
    method JoinTest(cid: int, ghost target: nat) returns (freed: bool)
      requires Rep() && Inv(m) && m.running && (Cur(m).pc == User || Cur(m).pc.InJoin?) && Live(m, cid)
      modifies this`m, this`taskCount, task, current`pc
      ensures Rep() && m == Runtime.JoinTest(old(m), cid, target).state
      ensures freed <==> Get(old(m), cid).status == EXIT
    {
      hide Rep, Inv;
      RepSized();
      IsTask(cid);
      if task[cid].status != EXIT {
        Leave(InJoin(cid, target));
        return false;
      }
      JoinFreesKeeps(m, cid);
      NotFreed(cid);
      Come();
      Free(cid);
      return true;
    }

    lemma IsTask(i: int)
      requires Rep() && Live(m, i)
      ensures task.Length == NR_TASKS && 0 <= i < NR_TASKS && task[i] != null && task[i].status == Get(m, i).status
    {
      assert RepSlot(i);
    }

    /** A finished task is neither the running one nor queued. */
    lemma {:induction false} NotFreed(cid: int)
      requires Inv(m) && m.running && (Cur(m).pc == User || Cur(m).pc.InJoin?)
      requires Live(m, cid) && Get(m, cid).status == EXIT
      ensures cid != m.current
      ensures forall f, k :: 0 <= f < MAX_FD && 0 <= k < |m.queues[f]| ==> m.queues[f][k] != cid
    {
      forall f, k | 0 <= f < MAX_FD && 0 <= k < |m.queues[f]|
        ensures m.queues[f][k] != cid
      {
        assert WaitsAt(Get(m, m.queues[f][k]), f);
      }
    }

    /** The current task returns from a call. */
    ghost method Come()
      requires Rep()
      modifies `m, current`pc
      ensures Rep() && m == PutCur(old(m), Cur(old(m)).(pc := User))
    {
      hide Rep, RepBut;
      RepSized();
      Open(m.current);
      current.pc := User;
      Close(m.current, PutCur(m, Cur(m).(pc := User)));
    }

    /** free, and the slot becomes empty. */
    method Free(cid: int)
      requires Rep() && Live(m, cid) && cid != m.current
      requires forall f, k :: 0 <= f < MAX_FD && 0 <= k < |m.queues[f]| ==> m.queues[f][k] != cid
      modifies this`m, this`taskCount, task
      ensures Rep() && m == old(m).(tasks := old(m).tasks[cid := None], count := old(m).count - 1)
    {
      hide Q.BlockQueues.Valid;
      assert RepSlot(cid) && RepSlot(m.current);
      task[cid] := null;
      taskCount := taskCount - 1;
      m := m.(tasks := m.tasks[cid := None], count := m.count - 1);
      forall j | 0 <= j < NR_TASKS
        ensures RepSlot(j) && (m.tasks[j].Some? ==> RepLinks(j))
      {
        assert old(RepSlot(j)) && (m.tasks[j].Some? ==> old(RepLinks(j)));
      }
      forall f | 0 <= f < MAX_FD
        ensures RepQueue(f)
      {
        assert old(RepQueue(f));
      }
    }
  }
}
