/** What it takes to lose a descriptor, and with it a flock lock: any run of calls of any
    processes keeps it unless one of them is a call that drops it. */
module Survival {
  import opened Basics
  import opened KernelState
  import opened Kernel
  import opened KernelProps
  import opened KernelFrame
  import opened KernelOwnership
  import opened Descriptors

  /** The call can take fd away from pid: a process that shares pid's table closes it or dups
      over it, or pid itself exits, or execs with fd marked close-on-exec. */
  predicate Endangers(s: State, q: nat, c: Call, pid: nat, fd: nat) {
    pid in s.procs && q in s.procs &&
    ((s.procs[q] == s.procs[pid] && Drops(c, fd)) ||
     (q == pid && (c.Exit? || (c.Exec? && Unmarked(Lookup(s, pid, fd)).None?))))
  }

  lemma ReachesIsLookup(s: State, pid: nat, fd: nat, o: nat)
    ensures Reaches(s, pid, fd, o) <==> Lookup(s, pid, fd).Some? && Lookup(s, pid, fd).value.ofd == o
  {
  }

  lemma StepKeepsDescriptor(s: State, q: nat, c: Call, pid: nat, fd: nat, o: nat)
    requires Inv(s) && Reaches(s, pid, fd, o) && !Endangers(s, q, c, pid, fd)
    ensures Reaches(Apply(s, q, c).0, pid, fd, o)
  {
    hide Inv, Apply, SameTable, KeepsOwn, Spreads;
    var r, tab := Apply(s, q, c).0, s.procs[pid];
    ReachesIsLookup(s, pid, fd, o);
    ReachesIsLookup(r, pid, fd, o);
    TabOf(s, pid);
    if q in s.procs && c.Exec? {
      ExecClosesMarked(s, q);
      if q != pid { assert Lookup(r, pid, fd) == Lookup(s, pid, fd); }
    } else if q in s.procs && c.Exit? {
      ExitReleases(s, q);
    } else if q in s.procs && s.procs[q] == tab {
      StepSpreads(s, q, c);
      StepKeepsTable(s, q, c, pid);
      OwnKept(s, r, pid, fd, c);
    } else {
      OtherTables(s, q, c, tab);
      TableKept(s, r, pid, fd);
    }
  }

  lemma OwnKept(s: State, r: State, pid: nat, fd: nat, c: Call)
    requires pid in s.procs && pid in r.procs && r.procs[pid] == s.procs[pid]
    requires KeepsOwn(s, r, s.procs[pid], c) && !Drops(c, fd) && Lookup(s, pid, fd).Some?
    ensures Lookup(r, pid, fd).Some? && Lookup(r, pid, fd).value.ofd == Lookup(s, pid, fd).value.ofd
  {
  }

  lemma TableKept(s: State, r: State, pid: nat, fd: nat)
    requires pid in s.procs && pid in r.procs && r.procs[pid] == s.procs[pid] && SameTable(s, r, s.procs[pid])
    ensures Lookup(r, pid, fd) == Lookup(s, pid, fd)
  {
  }

  /** No call of the run endangers the descriptor when it is made. */
  ghost predicate Spared(s: State, calls: seq<(nat, Call)>, pid: nat, fd: nat)
    requires Inv(s)
    decreases |calls|
  {
    calls == [] ||
    (ApplyInv(s, calls[0].0, calls[0].1);
     !Endangers(s, calls[0].0, calls[0].1, pid, fd) &&
     Spared(Apply(s, calls[0].0, calls[0].1).0, calls[1..], pid, fd))
  }

  /** A descriptor leads to its description through any run that spares it. */
  lemma {:induction false} DescriptorSurvives(s: State, calls: seq<(nat, Call)>, pid: nat, fd: nat, o: nat)
    requires Inv(s) && Reaches(s, pid, fd, o) && Spared(s, calls, pid, fd)
    ensures Reaches(Run(s, calls), pid, fd, o)
    decreases |calls|
  {
    hide Inv, Apply, Reaches, Endangers;
    if calls != [] {
      ApplyInv(s, calls[0].0, calls[0].1);
      StepKeepsDescriptor(s, calls[0].0, calls[0].1, pid, fd, o);
      DescriptorSurvives(Apply(s, calls[0].0, calls[0].1).0, calls[1..], pid, fd, o);
    }
  }

  /** So does a lock, through any run that spares one descriptor of the description and has no
      flock through it: the owner may itself fork, clone, dup, open, close other descriptors,
      exec, read and write. */
  lemma {:induction false} LockSurvives(s: State, calls: seq<(nat, Call)>, pid: nat, fd: nat, o: nat)
    requires Inv(s) && Reaches(s, pid, fd, o) && o in s.ofds
    requires Spared(s, calls, pid, fd) && NotRelocked(s, calls, o)
    ensures var r := Run(s, calls); Reaches(r, pid, fd, o) && o in r.ofds && r.ofds[o].lock == s.ofds[o].lock
  {
    hide Inv, Run, Spared, NotRelocked;
    DescriptorSurvives(s, calls, pid, fd, o);
    LockKeptUntilLastClose(s, calls, o);
  }

  /** A run without flock calls relocks nothing. */
  lemma {:induction false} NoFlockNoRelock(s: State, calls: seq<(nat, Call)>, o: nat)
    requires Inv(s) && forall i | 0 <= i < |calls| :: !calls[i].1.Flock?
    ensures NotRelocked(s, calls, o)
    decreases |calls|
  {
    hide Inv, Apply;
    if calls != [] {
      ApplyInv(s, calls[0].0, calls[0].1);
      NoFlockNoRelock(Apply(s, calls[0].0, calls[0].1).0, calls[1..], o);
    }
  }

  /** Nothing others do endangers a descriptor in a table of one's own. */
  lemma {:induction false} OthersSpare(s: State, calls: seq<(nat, Call)>, pid: nat, tab: nat, fd: nat)
    requires Inv(s) && Sole(s, pid, tab) && ByOthers(calls, pid)
    ensures Spared(s, calls, pid, fd)
    decreases |calls|
  {
    hide Inv, Apply;
    if calls != [] {
      ApplyInv(s, calls[0].0, calls[0].1);
      OthersLeaveTable(s, pid, tab, calls[0].0, calls[0].1);
      OthersSpare(Apply(s, calls[0].0, calls[0].1).0, calls[1..], pid, tab, fd);
    }
  }

  /** The parent's table stays its own across its own fork, and so is the child's. */
  lemma ForkKeepsSole(s: State, pid: nat, tab: nat, child: nat)
    requires Inv(s) && Sole(s, pid, tab)
    ensures Sole(Apply(s, pid, Fork(child)).0, pid, tab)
    ensures child !in s.procs ==> Sole(Apply(s, pid, Fork(child)).0, child, s.next)
  {
    hide Inv, DoFork;
    UsersPositive(s, pid);
    ForkOf(s, tab, child, tab);
    if child !in s.procs { ForkShares(s, pid, child); }
  }

  /** The owner of a lock forks; then whatever the child and others do, their exits included,
      leaves the lock where it is, unless they call flock through the inherited description. */
  lemma LockSurvivesFork(s: State, pid: nat, tab: nat, fd: nat, o: nat, child: nat, calls: seq<(nat, Call)>)
    requires Inv(s) && Sole(s, pid, tab) && Reaches(s, pid, fd, o) && o in s.ofds
    requires ByOthers(calls, pid) && NotRelocked(s, [(pid, Fork(child))] + calls, o)
    ensures var r := Run(s, [(pid, Fork(child))] + calls);
      Reaches(r, pid, fd, o) && o in r.ofds && r.ofds[o].lock == s.ofds[o].lock
  {
    hide Inv, Apply, Run, Sole, NotRelocked;
    var all := [(pid, Fork(child))] + calls;
    ApplyInv(s, pid, Fork(child));
    ForkKeepsSole(s, pid, tab, child);
    assert all[1..] == calls;
    OthersSpare(Apply(s, pid, Fork(child)).0, calls, pid, tab, fd);
    assert Spared(s, all, pid, fd);
    LockSurvives(s, all, pid, fd, o);
  }

  // Losing a descriptor for good.

  /** A call that endangers a descriptor and succeeds does take it away; a dup3 over it does
      unless it brings the same description back. */
  lemma EndangeredIsLost(s: State, q: nat, c: Call, pid: nat, fd: nat, o: nat)
    requires Inv(s) && Reaches(s, pid, fd, o) && Endangers(s, q, c, pid, fd)
    requires c.Dup3? ==> c.fd != fd && fd < OPEN_MAX && Lookup(s, q, c.fd).Some? && Lookup(s, q, c.fd).value.ofd != o
    ensures !Reaches(Apply(s, q, c).0, pid, fd, o)
  {
    hide Inv, Apply;
    if c.Exec? { ExecClosesMarked(s, pid); }
    else if c.Exit? { ExitReleases(s, pid); }
    else if c.Close? {
      CloseAnswers(s, q, fd, o);
      assert OneDescriptor(s, q, fd, pid, fd);
      assert Lookup(Apply(s, q, c).0, pid, fd) == None;
    }
    else {
      Dup3Shares(s, q, c.fd, fd, c.cloexec);
      StepKeepsTable(s, q, c, pid);
      StepKeepsTable(s, q, c, q);
    }
  }

  /** close of an open descriptor answers 0, also if it is the last of its description, and then
      the number is free in every process that shares the table; nothing else closes. */
  lemma CloseAnswers(s: State, pid: nat, fd: nat, o: nat)
    requires Inv(s) && Reaches(s, pid, fd, o)
    ensures var (r, a) := Apply(s, pid, Close(fd));
      && a == Val(0) && r.procs == s.procs
      && (forall q: nat, n: nat :: Lookup(r, q, n) == if OneDescriptor(s, pid, fd, q, n) then None else Lookup(s, q, n))
  {
    hide Inv, Remove;
    SlotFacts(s, Key(s.procs[pid], fd));
    RemoveKeeps(s, Key(s.procs[pid], fd));
  }

  predicate TakesDescriptor(c: Call) {
    UsesDescription(c) || c.Dup? || c.Dup3? || c.DupFd? || c.SetFd? || c.Close?
  }

  /** Every call through a number that is not open answers EBADF and changes nothing. */
  lemma NotOpenIsBad(s: State, pid: nat, c: Call)
    requires Inv(s) && pid in s.procs && TakesDescriptor(c) && Lookup(s, pid, c.fd).None?
    ensures Apply(s, pid, c) == (s, Err(EBADF))
  {
    hide Inv;
  }

  /** The call can open number fd again: a process that shares pid's table asks for a new
      descriptor, or dups to that very number. */
  predicate Reopens(s: State, q: nat, c: Call, pid: nat, fd: nat) {
    pid in s.procs && q in s.procs && s.procs[q] == s.procs[pid] &&
    (c.Pipe2? || c.Open? || c.Dup? || c.DupFd? || (c.Dup3? && c.newfd == fd))
  }

  lemma StepKeepsClosed(s: State, q: nat, c: Call, pid: nat, fd: nat)
    requires Inv(s) && pid in s.procs && Lookup(s, pid, fd).None? && !Reopens(s, q, c, pid, fd)
    requires !(q == pid && c.Exit?)
    ensures pid in Apply(s, q, c).0.procs && Lookup(Apply(s, q, c).0, pid, fd).None?
  {
    hide Inv, Apply, SameTable, Spreads, KeepsOwn;
    var r, tab := Apply(s, q, c).0, s.procs[pid];
    TabOf(s, pid);
    if q !in s.procs || s.procs[q] != tab {
      OtherTables(s, q, c, tab);
      TableKept(s, r, pid, fd);
    } else if c.Exec? {
      ExecClosesMarked(s, q);
      ExecKeepsProcesses(s, q);
    } else if c.Exit? {
      ExitReleases(s, q);
    } else {
      StepKeepsTable(s, q, c, pid);
      OwnStaysClosed(s, q, c, fd);
    }
  }

  lemma ExecKeepsProcesses(s: State, q: nat)
    requires Inv(s) && q in s.procs
    ensures Apply(s, q, Exec).0.procs.Keys == s.procs.Keys
  {
    hide Inv, Keeps, Unshare;
    UsersPositive(s, q);
    var s1 := if s.users[s.procs[q]] > 1 then Unshare(s, q) else s;
    if s.users[s.procs[q]] > 1 { UnshareShares(s, q); }
    CloseBelowSpec(s1, s1.procs[q], OPEN_MAX, false);
  }

  lemma OwnStaysClosed(s: State, q: nat, c: Call, fd: nat)
    requires Inv(s) && q in s.procs && Key(s.procs[q], fd) !in s.slots && !Reopens(s, q, c, q, fd)
    requires !c.Exec? && !c.Exit?
    ensures Key(s.procs[q], fd) !in Apply(s, q, c).0.slots
  {
    hide Inv, Keeps, DoFork, DoDup3, Remove, UsesDescription;
    if Used(s, q, c).Some? {
      UsedTables(s, q, c);
    } else if c.Fork? {
      TabOf(s, q);
      if c.child !in s.procs { ForkEffect(s, q, c.child); } else { ForkFails(s, q, c.child); }
    } else if c.Dup3? || c.Close? || c.SetFd? {
      var k := Key(s.procs[q], c.fd);
      if k in s.slots {
        if c.Close? { RemoveKeeps(s, k); }
        else if c.Dup3? && c.newfd != c.fd && c.newfd < OPEN_MAX { Dup3Slots(s, k, c.newfd, c.cloexec); }
        else if c.Dup3? { Dup3Refused(s, k, c.newfd, c.cloexec); }
      }
    } else if !c.CloneFiles? {
      NotOpenChangesNothing(s, q, c);
    }
  }

  lemma ForkFails(s: State, q: nat, child: nat)
    requires Inv(s) && q in s.procs && child in s.procs
    ensures Apply(s, q, Fork(child)).0 == s
  {
    hide Inv;
  }

  lemma Dup3Refused(s: State, k: Key, newfd: nat, cloexec: bool)
    requires Inv(s) && k in s.slots && (newfd == k.fd || newfd >= OPEN_MAX)
    ensures DoDup3(s, k, newfd, cloexec) == (s, Err(if newfd == k.fd then EINVAL else EBADF))
  {
    hide Inv;
  }

  lemma NotOpenChangesNothing(s: State, q: nat, c: Call)
    requires Inv(s) && q in s.procs && UsesDescription(c) && Used(s, q, c).None?
    ensures Apply(s, q, c).0 == s
  {
    NotOpenIsBad(s, q, c);
  }

  /** No call of the run opens the number again, and pid stays. */
  ghost predicate LeftClosed(s: State, calls: seq<(nat, Call)>, pid: nat, fd: nat)
    requires Inv(s)
    decreases |calls|
  {
    calls == [] ||
    (ApplyInv(s, calls[0].0, calls[0].1);
     !Reopens(s, calls[0].0, calls[0].1, pid, fd) && !(calls[0].0 == pid && calls[0].1.Exit?) &&
     LeftClosed(Apply(s, calls[0].0, calls[0].1).0, calls[1..], pid, fd))
  }

  lemma {:induction false} StaysClosed(s: State, calls: seq<(nat, Call)>, pid: nat, fd: nat)
    requires Inv(s) && pid in s.procs && Lookup(s, pid, fd).None? && LeftClosed(s, calls, pid, fd)
    ensures pid in Run(s, calls).procs && Lookup(Run(s, calls), pid, fd).None?
    decreases |calls|
  {
    hide Inv, Apply, Reopens;
    if calls != [] {
      ApplyInv(s, calls[0].0, calls[0].1);
      StepKeepsClosed(s, calls[0].0, calls[0].1, pid, fd);
      StaysClosed(Apply(s, calls[0].0, calls[0].1).0, calls[1..], pid, fd);
    }
  }

  /** After a close, every later call through that number answers EBADF, a second close among
      them, over any run of any processes that does not open the number again. */
  lemma ClosedStaysBad(s: State, pid: nat, fd: nat, o: nat, calls: seq<(nat, Call)>, c: Call)
    requires Inv(s) && Reaches(s, pid, fd, o) && TakesDescriptor(c) && c.fd == fd
    requires Inv(Apply(s, pid, Close(fd)).0) && LeftClosed(Apply(s, pid, Close(fd)).0, calls, pid, fd)
    ensures Apply(s, pid, Close(fd)).1 == Val(0)
    ensures var r := Run(Apply(s, pid, Close(fd)).0, calls); Apply(r, pid, c) == (r, Err(EBADF))
  {
    hide Inv, Apply, Run, LeftClosed;
    CloseAnswers(s, pid, fd, o);
    StaysClosed(Apply(s, pid, Close(fd)).0, calls, pid, fd);
    NotOpenIsBad(Run(Apply(s, pid, Close(fd)).0, calls), pid, c);
  }
}
