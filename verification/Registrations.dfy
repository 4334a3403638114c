/** What one task records about its descriptors: the condition under which add_queue asks epoll for a
    change, and the registration list fds[]. */
module Registrations {
  import opened Runtime
  import opened Invariants

  // ---------------------------------------------------------------- add_queue's condition

  /** C reads `recorded & events != recorded` as `recorded & (events != recorded)`, which is the
      value of the comparison as long as bit 0 of the record, EPOLLIN, is set; with that bit clear
      it never asks for anything. */
  lemma ParsedConditionIff(recorded: bv32, events: bv32)
    ensures AsksForMore(recorded, events) <==> Meets(recorded, EPOLLIN) && events != recorded
  {
  }

  /** Every registered descriptor records EPOLLIN, on every run (Invariants.Registered).  So the
      condition is the comparison of the masks, and an EPOLL_CTL_MOD that the record calls for,
      because some asked bit is not in it, is never missed. */
  lemma {:induction false} NoMissedChange(s: State, fd: int, bit: bv32)
    requires Inv(s) && Ready(s, DoBlock(fd, bit)) && Cur(s).events[fd].fd > 0
    ensures AsksForMore(Cur(s).events[fd].mask, bit) <==> Cur(s).events[fd].mask != bit
    ensures Without(bit, Cur(s).events[fd].mask) != 0 ==> AsksForMore(Cur(s).events[fd].mask, bit)
  {
    var recorded := Cur(s).events[fd].mask;
    assert TaskOK(Cur(s));
    IsRecorded(Cur(s).fds, Cur(s).events, fd);
    ParsedConditionIff(recorded, bit);
    NothingMissing(bit);
  }

  lemma NothingMissing(mask: bv32)
    ensures Without(mask, mask) == 0
  {
  }

  // ---------------------------------------------------------------- the registration list

  ghost function Positive(n: nat): (r: set<int>)
    ensures forall fd :: fd in r <==> 1 <= fd < n
  {
    if n <= 1 then {} else Positive(n - 1) + {n - 1}
  }

  lemma {:induction false} PositiveSize(n: nat)
    requires n > 0
    ensures |Positive(n)| == n - 1
  {
    if n > 1 {
      PositiveSize(n - 1);
    }
  }

  lemma {:induction false} CardinalityBound(a: set<int>, b: set<int>)
    requires a <= b
    ensures |a| <= |b|
  {
    assert b == a + (b - a);
  }

  function Zeros(fds: seq<int>): nat {
    if |fds| == 0 then 0 else Zeros(fds[..|fds| - 1]) + (if fds[|fds| - 1] == 0 then 1 else 0)
  }

  /** The positive descriptors a task is registered for. */
  function Listed(events: seq<Interest>): set<int> {
    set fd | 1 <= fd < |events| && events[fd].fd > 0
  }

  function Members(fds: seq<int>): set<int> {
    set fd | fd in fds && fd != 0
  }

  lemma {:induction false} CountMembers(fds: seq<int>)
    requires forall j, k :: 0 <= j < k < |fds| && fds[j] == fds[k] ==> fds[j] == 0
    ensures |fds| == Zeros(fds) + |Members(fds)|
  {
    if |fds| > 0 {
      var last := |fds| - 1;
      CountMembers(fds[..last]);
      OneMoreMember(fds[..last], fds[last]);
      assert fds[..last] + [fds[last]] == fds;
    }
  }

  lemma OneMoreMember(fds: seq<int>, fd: int)
    ensures Members(fds + [fd]) == Members(fds) + (if fd == 0 then {} else {fd})
  {
  }

  /** How long the list is: one entry per call on descriptor 0, one per other descriptor. */
  lemma {:induction false} ListLength(fds: seq<int>, events: seq<Interest>)
    requires Registered(fds, events)
    ensures |fds| == Zeros(fds) + |Listed(events)|
  {
    CountMembers(fds);
    assert Members(fds) == Listed(events);
  }

  /** Exactly when a blocking call writes past fds[]: the descriptor is not registered, and entries
      for 0 and registered descriptors together fill the list. */
  lemma {:induction false} OverrunsIff(s: State, fd: int, bit: bv32)
    requires Inv(s) && Ready(s, DoBlock(fd, bit))
    ensures Block(s, fd, bit) == Fault(Overrun) <==> Block(s, fd, bit).Fault?
    ensures Block(s, fd, bit).Fault? <==>
              Cur(s).events[fd].fd <= 0 && Zeros(Cur(s).fds) + |Listed(Cur(s).events)| == MAX_FD
  {
    assert TaskOK(Cur(s));
    ListLength(Cur(s).fds, Cur(s).events);
    AddQueueForm(s, fd, bit);
  }

  lemma ListedIsShort(events: seq<Interest>)
    requires |events| == MAX_FD
    ensures |Listed(events)| < MAX_FD
  {
    PositiveSize(MAX_FD);
    CardinalityBound(Listed(events), Positive(MAX_FD));
  }

  lemma {:induction false} NoZeros(fds: seq<int>)
    requires 0 !in fds
    ensures Zeros(fds) == 0
  {
    if |fds| > 0 {
      NoZeros(fds[..|fds| - 1]);
    }
  }

  /** fds[] never overflows, however many blocking calls a task makes, as long as it never uses
      descriptor 0: each positive descriptor is listed once. */
  lemma {:induction false} ListNeverOverflows(s: State, fd: int, bit: bv32)
    requires Inv(s) && Ready(s, DoBlock(fd, bit)) && 0 !in Cur(s).fds
    ensures |Cur(s).fds| < MAX_FD && !AddQueue(s, fd, bit).FdsOverrun?
  {
    assert TaskOK(Cur(s));
    ListLength(Cur(s).fds, Cur(s).events);
    NoZeros(Cur(s).fds);
    ListedIsShort(Cur(s).events);
  }
}
