/** Who can change what: a process that shares its descriptor table with nobody keeps every
    descriptor through anything others do, and a flock lock belongs to the open file
    description, whoever holds descriptors of it. */
module KernelOwnership {
  import opened Basics
  import opened KernelState
  import opened Kernel
  import opened KernelProps
  import opened KernelFrame

  ghost predicate SameTable(s: State, r: State, tab: nat) {
    forall k: Key | k.tab == tab :: (k in s.slots <==> k in r.slots) && (k in s.slots ==> s.slots[k] == r.slots[k])
  }

  /** Table tab is used by pid and nobody else. */
  ghost predicate Sole(s: State, pid: nat, tab: nat) {
    pid in s.procs && s.procs[pid] == tab && tab < s.next && forall q | q in s.procs && q != pid :: s.procs[q] != tab
  }

  lemma UnshareOf(s: State, pid: nat, tab: nat)
    requires Inv(s) && pid in s.procs && s.procs[pid] != tab && tab < s.next
    requires s.procs[pid] in s.users && s.users[s.procs[pid]] > 1
    ensures var r := Unshare(s, pid);
      SameTable(s, r, tab) && r.procs == s.procs[pid := s.next] && s.next < r.next
  {
    hide Inv, Keeps;
    var mine := s.procs[pid];
    TableNumber(s, mine);
    LeaveInv(s, pid);
    NewTableInv(Leave(s, pid), pid);
    CopyBelowSpec(NewTable(Leave(s, pid), pid), mine, s.next, OPEN_MAX);
  }

  lemma ExecOf(s: State, pid: nat, tab: nat)
    requires Inv(s) && pid in s.procs && s.procs[pid] != tab && tab < s.next
    ensures var r := DoExec(s, pid);
      SameTable(s, r, tab) && r.procs.Keys == s.procs.Keys && s.next <= r.next &&
      (forall q | q in s.procs && q != pid :: r.procs[q] == s.procs[q]) && r.procs[pid] != tab
  {
    hide Inv, Keeps, Unshare;
    var mine := s.procs[pid];
    UsersPositive(s, pid);
    var s1 := if s.users[mine] > 1 then Unshare(s, pid) else s;
    if s.users[mine] > 1 { UnshareOf(s, pid, tab); }
    CloseBelowSpec(s1, s1.procs[pid], OPEN_MAX, false);
  }

  lemma ExitOf(s: State, pid: nat, tab: nat)
    requires Inv(s) && pid in s.procs && s.procs[pid] != tab
    ensures var r := DoExit(s, pid);
      SameTable(s, r, tab) && r.procs == s.procs - {pid} && r.next == s.next
  {
    hide Inv, Keeps;
    UsersPositive(s, pid);
    CloseBelowSpec(s, s.procs[pid], OPEN_MAX, true);
  }

  lemma ForkOf(s: State, mine: nat, child: nat, tab: nat)
    requires Inv(s) && mine in s.users && tab < s.next
    ensures var r := DoFork(s, mine, child).0;
      SameTable(s, r, tab) && s.next <= r.next &&
      (r.procs == s.procs || (child !in s.procs && r.procs == s.procs[child := s.next]))
  {
    hide Inv, Keeps;
    if child !in s.procs {
      NewTableInv(s, child);
      TableNumber(s, mine);
      CopyBelowSpec(NewTable(s, child), mine, s.next, OPEN_MAX);
    }
  }

  lemma OnDescriptorOf(s: State, k: Key, c: Call, tab: nat)
    requires Inv(s) && k in s.slots && k.tab != tab && !UsesDescription(c)
    ensures var r := OnDescriptor(s, k, c).0;
      SameTable(s, r, tab) && r.procs == s.procs && r.next == s.next
  {
    hide Inv, Keeps, DoDup, DoDup3, Remove, SameTable;
    SlotFacts(s, k);
    TableOnly(s, OnDescriptor(s, k, c).0, k, tab);
    if c.Dup? { DupOf(s, k, 0, false, tab); }
    else if c.DupFd? { DupOf(s, k, c.min, c.cloexec, tab); }
    else if c.Dup3? { Dup3Of(s, k, c.newfd, c.cloexec, tab); }
    else if c.Close? { RemoveKeeps(s, k); }
  }

  /** No slot changes, or only one of another table. */
  lemma TableOnly(s: State, r: State, k: Key, tab: nat)
    requires k.tab != tab
    ensures r.slots == s.slots || r.slots == s.slots - {k} ==> SameTable(s, r, tab)
    ensures k in r.slots && r.slots == s.slots[k := r.slots[k]] ==> SameTable(s, r, tab)
  {
  }

  lemma DupOf(s: State, k: Key, min: nat, cloexec: bool, tab: nat)
    requires Inv(s) && k in s.slots && k.tab != tab
    ensures var r := DoDup(s, k, min, cloexec).0;
      SameTable(s, r, tab) && r.procs == s.procs && r.next == s.next
  {
    hide Inv;
    SlotFacts(s, k);
  }

  lemma Dup3Of(s: State, k: Key, newfd: nat, cloexec: bool, tab: nat)
    requires Inv(s) && k in s.slots && k.tab != tab
    ensures var r := DoDup3(s, k, newfd, cloexec).0;
      SameTable(s, r, tab) && r.procs == s.procs && r.next == s.next
  {
    hide Inv, Keeps, Remove;
    SlotFacts(s, k);
    var k' := Key(k.tab, newfd);
    if k' in s.slots && newfd != k.fd {
      SlotFacts(s, k');
      RemoveInv(s, k');
      RemoveKeeps(s, k');
      SlotFacts(Remove(s, k'), k);
    }
  }

  lemma CreateOf(s: State, k: Key, t: Target, access: Access, nonblock: bool, append: bool, cloexec: bool, tab: nat)
    requires k.tab != tab
    ensures var r := Create(s, k, t, access, nonblock, append, cloexec);
      SameTable(s, r, tab) && r.procs == s.procs && s.next < r.next
  {
  }

  lemma Pipe2Of(s: State, mine: nat, cap: nat, nonblock: bool, cloexec: bool, tab: nat)
    requires Inv(s) && mine != tab
    ensures var r := DoPipe2(s, mine, cap, nonblock, cloexec).0;
      SameTable(s, r, tab) && r.procs == s.procs && s.next <= r.next
  {
    hide Inv, Create;
    var r, p := LowestFree(s, mine, 0), s.next;
    var s0 := NewPipe(s, cap);
    CreateOf(s0, Key(mine, r), ReadEnd(p), RdOnly, nonblock, false, cloexec, tab);
    var s1 := Create(s0, Key(mine, r), ReadEnd(p), RdOnly, nonblock, false, cloexec);
    CreateOf(s1, Key(mine, LowestFree(s1, mine, 0)), WriteEnd(p), WrOnly, nonblock, false, cloexec, tab);
  }

  lemma OpenOf(s: State, mine: nat, c: Call, tab: nat)
    requires Inv(s) && mine != tab && c.Open?
    ensures var r := DoOpen(s, mine, c).0;
      SameTable(s, r, tab) && r.procs == s.procs && s.next <= r.next
  {
    hide Inv;
  }

  /** A call leaves every table but the caller's alone, and lets nobody into it. */
  lemma OtherTables(s: State, q: nat, c: Call, tab: nat)
    requires Inv(s) && (q in s.procs ==> s.procs[q] != tab) && tab < s.next
    ensures var r := Apply(s, q, c).0;
      && SameTable(s, r, tab) && s.next <= r.next
      && (forall p | p in s.procs && p != q :: p in r.procs && r.procs[p] == s.procs[p])
      && (forall p | p in r.procs && r.procs[p] == tab :: p in s.procs && s.procs[p] == tab)
  {
    hide Inv, Keeps, DoExec, DoExit, DoFork, OnDescriptor, DoPipe2, DoOpen, SameTable;
    SameSlotsTable(s, Apply(s, q, c).0, tab);
    if Used(s, q, c).Some? {
      UsedTables(s, q, c);
    } else if q in s.procs {
      UsersPositive(s, q);
      var mine := s.procs[q];
      if c.Exec? { ExecOf(s, q, tab); }
      else if c.Exit? { ExitOf(s, q, tab); }
      else if c.Fork? { ForkOf(s, mine, c.child, tab); }
      else if c.Pipe2? { Pipe2Of(s, mine, c.cap, c.nonblock, c.cloexec, tab); }
      else if c.Open? { OpenOf(s, mine, c, tab); }
      else if !c.CloneFiles? && Key(mine, c.fd) in s.slots { OnDescriptorOf(s, Key(mine, c.fd), c, tab); }
    }
  }

  lemma SameSlotsTable(s: State, r: State, tab: nat)
    ensures r.slots == s.slots ==> SameTable(s, r, tab)
  {
  }

  lemma UsedTables(s: State, q: nat, c: Call)
    requires Inv(s) && Used(s, q, c).Some?
    ensures var r := Apply(s, q, c).0; r.slots == s.slots && r.procs == s.procs && r.next == s.next
  {
    hide Inv, Apply;
    UsedStep(s, q, c, Used(s, q, c).value);
  }

  /** A call of a process with another table leaves this one alone, and nobody new gets in. */
  lemma OthersLeaveTable(s: State, pid: nat, tab: nat, q: nat, c: Call)
    requires Inv(s) && Sole(s, pid, tab) && q != pid
    ensures SameTable(s, Apply(s, q, c).0, tab) && Sole(Apply(s, q, c).0, pid, tab)
  {
    hide Inv, Apply, SameTable;
    OtherTables(s, q, c, tab);
  }

  // Where new descriptors come from, and which calls take one away.

  /** Some descriptor of table tab leads to o. */
  ghost predicate Leads(s: State, tab: nat, o: nat) {
    exists fd: nat :: Key(tab, fd) in s.slots && s.slots[Key(tab, fd)].ofd == o
  }

  /** Every descriptor of r was there, or leads to something new, or to something the table
      mine led to. */
  ghost predicate Spreads(s: State, r: State, mine: nat) {
    forall k | k in r.slots ::
      (k in s.slots && r.slots[k].ofd == s.slots[k].ofd) || s.next <= r.slots[k].ofd || Leads(s, mine, r.slots[k].ofd)
  }

  /** The call, made by a process that uses the table of fd, closes or replaces it. */
  predicate Drops(c: Call, fd: nat) {
    c == Close(fd) || (c.Dup3? && c.newfd == fd)
  }

  /** The descriptors of table mine that c does not drop lead where they led. */
  ghost predicate KeepsOwn(s: State, r: State, mine: nat, c: Call) {
    forall fd | Key(mine, fd) in s.slots && !Drops(c, fd) ::
      Key(mine, fd) in r.slots && r.slots[Key(mine, fd)].ofd == s.slots[Key(mine, fd)].ofd
  }

  lemma SameSlotsSpread(s: State, r: State, mine: nat, c: Call)
    requires r.slots == s.slots
    ensures Spreads(s, r, mine) && KeepsOwn(s, r, mine, c)
  {
  }

  lemma DescriptorSpreads(s: State, k: Key, c: Call)
    requires Inv(s) && k in s.slots && (c.Dup? || c.DupFd? || c.Dup3? || c.Close? || c.SetFd?) && c.fd == k.fd
    ensures var r := OnDescriptor(s, k, c).0; Spreads(s, r, k.tab) && KeepsOwn(s, r, k.tab, c)
  {
    hide Inv, Keeps, Remove, DoDup, DoDup3;
    SlotFacts(s, k);
    assert Leads(s, k.tab, s.slots[k].ofd);
    if c.Close? { RemoveKeeps(s, k); }
    if c.Dup? { DupSpreads(s, k, 0, false, c); }
    if c.DupFd? { DupSpreads(s, k, c.min, c.cloexec, c); }
    if c.Dup3? { Dup3Spreads(s, k, c); }
  }

  lemma DupSpreads(s: State, k: Key, min: nat, cloexec: bool, c: Call)
    requires Inv(s) && k in s.slots
    ensures var r := DoDup(s, k, min, cloexec).0; Spreads(s, r, k.tab) && KeepsOwn(s, r, k.tab, c)
  {
    hide Inv;
    SlotFacts(s, k);
    assert Leads(s, k.tab, s.slots[k].ofd);
  }

  lemma Dup3Spreads(s: State, k: Key, c: Call)
    requires Inv(s) && k in s.slots && c.Dup3?
    ensures var r := DoDup3(s, k, c.newfd, c.cloexec).0; Spreads(s, r, k.tab) && KeepsOwn(s, r, k.tab, c)
  {
    hide Inv, Keeps, Remove;
    SlotFacts(s, k);
    assert Leads(s, k.tab, s.slots[k].ofd);
    if Key(k.tab, c.newfd) in s.slots && c.newfd != k.fd && c.newfd < OPEN_MAX {
      var k' := Key(k.tab, c.newfd);
      SlotFacts(s, k');
      RemoveInv(s, k');
      RemoveKeeps(s, k');
      SlotFacts(Remove(s, k'), k);
    }
  }

  lemma CopySpreads(a: State, s: State, r: State, mine: nat, dst: nat, n: nat, c: Call)
    requires a.slots == s.slots && a.next == s.next && Copied(s.slots, r.slots, mine, dst, n)
    ensures Spreads(a, r, mine) && KeepsOwn(a, r, mine, c)
  {
    forall k | k in r.slots && k !in s.slots ensures Leads(a, mine, r.slots[k].ofd) {
      assert Key(mine, k.fd) in a.slots;
    }
  }

  lemma ForkSpreads(s: State, mine: nat, c: Call)
    requires Inv(s) && mine in s.users && c.Fork?
    ensures var r := DoFork(s, mine, c.child).0; Spreads(s, r, mine) && KeepsOwn(s, r, mine, c)
  {
    hide Inv, Keeps, Copied, Spreads, KeepsOwn;
    SameSlotsSpread(s, s, mine, c);
    if c.child !in s.procs {
      NewTableInv(s, c.child);
      TableNumber(s, mine);
      var s1 := NewTable(s, c.child);
      CopyBelowSpec(s1, mine, s.next, OPEN_MAX);
      CopySpreads(s, s1.(next := s.next), CopyBelow(s1, mine, s.next, OPEN_MAX), mine, s.next, OPEN_MAX, c);
    }
  }

  lemma ExecSpreads(s: State, pid: nat)
    requires Inv(s) && pid in s.procs
    ensures Spreads(s, DoExec(s, pid), s.procs[pid])
  {
    hide Inv, Keeps, Unshare, Spreads;
    var mine := s.procs[pid];
    UsersPositive(s, pid);
    var s1 := if s.users[mine] > 1 then Unshare(s, pid) else s;
    if s.users[mine] > 1 { UnshareSpreads(s, pid); } else { SameSlotsSpread(s, s, mine, Exec); }
    CloseBelowSpec(s1, s1.procs[pid], OPEN_MAX, false);
    FewerSpread(s, s1, DoExec(s, pid), mine);
  }

  lemma UnshareSpreads(s: State, pid: nat)
    requires Inv(s) && pid in s.procs && s.procs[pid] in s.users && s.users[s.procs[pid]] > 1
    ensures Spreads(s, Unshare(s, pid), s.procs[pid])
  {
    hide Inv, Keeps, Copied, Spreads;
    var mine := s.procs[pid];
    TableNumber(s, mine);
    LeaveInv(s, pid);
    NewTableInv(Leave(s, pid), pid);
    var s1 := NewTable(Leave(s, pid), pid);
    CopyBelowSpec(s1, mine, s.next, OPEN_MAX);
    CopySpreads(s, s1.(next := s.next), CopyBelow(s1, mine, s.next, OPEN_MAX), mine, s.next, OPEN_MAX, Exec);
  }

  lemma FewerSpread(s: State, s1: State, r: State, mine: nat)
    requires Spreads(s, s1, mine) && forall k | k in r.slots :: k in s1.slots && r.slots[k] == s1.slots[k]
    ensures Spreads(s, r, mine)
  {
  }

  lemma ExitSpreads(s: State, pid: nat)
    requires Inv(s) && pid in s.procs
    ensures Spreads(s, DoExit(s, pid), s.procs[pid])
  {
    hide Inv, Keeps, Spreads;
    UsersPositive(s, pid);
    SameSlotsSpread(s, s, s.procs[pid], Exit);
    CloseBelowSpec(s, s.procs[pid], OPEN_MAX, true);
    FewerSpread(s, s, DoExit(s, pid), s.procs[pid]);
  }

  lemma CreateSpreads(s: State, k: Key, t: Target, access: Access, nonblock: bool, append: bool, cloexec: bool)
    ensures var r := Create(s, k, t, access, nonblock, append, cloexec);
      r.slots == s.slots[k := Slot(s.next, cloexec)] && s.next < r.next
  {
  }

  lemma Pipe2Spreads(s: State, mine: nat, c: Call)
    requires Inv(s) && c.Pipe2?
    ensures var r := DoPipe2(s, mine, c.cap, c.nonblock, c.cloexec).0; Spreads(s, r, mine) && KeepsOwn(s, r, mine, c)
  {
    hide Inv, Create;
    var r, p := LowestFree(s, mine, 0), s.next;
    var s0 := NewPipe(s, c.cap);
    CreateSpreads(s0, Key(mine, r), ReadEnd(p), RdOnly, c.nonblock, false, c.cloexec);
    var s1 := Create(s0, Key(mine, r), ReadEnd(p), RdOnly, c.nonblock, false, c.cloexec);
    CreateSpreads(s1, Key(mine, LowestFree(s1, mine, 0)), WriteEnd(p), WrOnly, c.nonblock, false, c.cloexec);
  }

  lemma OpenSpreads(s: State, mine: nat, c: Call)
    requires Inv(s) && c.Open?
    ensures var r := DoOpen(s, mine, c).0; Spreads(s, r, mine) && KeepsOwn(s, r, mine, c)
  {
    hide Inv;
  }

  /** Descriptors come only from the caller's table or lead to something new; and of its own
      table a call other than exec and exit takes away only what it names. */
  lemma StepSpreads(s: State, q: nat, c: Call)
    requires Inv(s) && q in s.procs
    ensures Spreads(s, Apply(s, q, c).0, s.procs[q])
    ensures !c.Exec? && !c.Exit? ==> KeepsOwn(s, Apply(s, q, c).0, s.procs[q], c)
  {
    hide Inv, DoExec, DoExit, DoFork, OnDescriptor, DoPipe2, DoOpen, Spreads, KeepsOwn;
    var mine := s.procs[q];
    UsersPositive(s, q);
    if Used(s, q, c).Some? {
      UsedTables(s, q, c);
      SameSlotsSpread(s, Apply(s, q, c).0, mine, c);
    }
    else if c.Exec? { ExecSpreads(s, q); }
    else if c.Exit? { ExitSpreads(s, q); }
    else if c.Fork? { ForkSpreads(s, mine, c); }
    else if c.Pipe2? { Pipe2Spreads(s, mine, c); }
    else if c.Open? { OpenSpreads(s, mine, c); }
    else if c.CloneFiles? { SameSlotsSpread(s, Apply(s, q, c).0, mine, c); }
    else if Key(mine, c.fd) in s.slots { DescriptorSpreads(s, Key(mine, c.fd), c); }
    else { SameSlotsSpread(s, s, mine, c); }
  }

  /** A description's lock changes only by a flock call through one of its descriptors. */
  lemma LockChangesByFlock(s: State, pid: nat, c: Call, o: nat)
    requires Inv(s) && o in s.ofds && o in Apply(s, pid, c).0.ofds
    requires !(c.Flock? && Used(s, pid, c) == Some(o))
    ensures Apply(s, pid, c).0.ofds[o].lock == s.ofds[o].lock
  {
    hide Inv, Apply;
    if Used(s, pid, c).Some? { UsedStep(s, pid, c, Used(s, pid, c).value); } else { CalmStep(s, pid, c); }
  }

  /** No call of the run is a flock through a descriptor of o. */
  ghost predicate NotRelocked(s: State, calls: seq<(nat, Call)>, o: nat)
    requires Inv(s)
    decreases |calls|
  {
    calls == [] ||
    (ApplyInv(s, calls[0].0, calls[0].1);
     !(calls[0].1.Flock? && Used(s, calls[0].0, calls[0].1) == Some(o)) &&
     NotRelocked(Apply(s, calls[0].0, calls[0].1).0, calls[1..], o))
  }

  /** Closed descriptions do not come back. */
  lemma {:induction false} GoneForGood(s: State, calls: seq<(nat, Call)>, o: nat)
    requires Inv(s) && o !in s.ofds && o < s.next
    ensures o !in Run(s, calls).ofds
    decreases |calls|
  {
    hide Inv, Apply;
    if calls != [] {
      ApplyInv(s, calls[0].0, calls[0].1);
      StepEvolves(s, calls[0].0, calls[0].1);
      GoneForGood(Apply(s, calls[0].0, calls[0].1).0, calls[1..], o);
    }
  }

  /** Over any run without a flock through its own descriptors, a description keeps its lock
      for exactly as long as some live process has a descriptor of it: forks, exits,
      dups and the closing of other descriptors do not release it. */
  lemma {:induction false} LockKeptUntilLastClose(s: State, calls: seq<(nat, Call)>, o: nat)
    requires Inv(s) && o in s.ofds && NotRelocked(s, calls, o)
    ensures var r := Run(s, calls);
      && (o in r.ofds ==> r.ofds[o].lock == s.ofds[o].lock)
      && (o in r.ofds <==> exists pid, fd :: Reaches(r, pid, fd, o))
    decreases |calls|
  {
    LockKept(s, calls, o);
    LiveIffPresent(Run(s, calls), o);
  }

  lemma LiveIffPresent(s: State, o: nat)
    requires Inv(s)
    ensures o in s.ofds <==> exists pid, fd :: Reaches(s, pid, fd, o)
  {
    hide RefsOk, EndsOk, LocksOk, TargetsOk, BuffersOk, TablesOk;
    if o in s.ofds { DescriptionIsLive(s, o); }
  }

  lemma {:induction false} LockKept(s: State, calls: seq<(nat, Call)>, o: nat)
    requires Inv(s) && o in s.ofds && NotRelocked(s, calls, o)
    ensures o in Run(s, calls).ofds ==> Run(s, calls).ofds[o].lock == s.ofds[o].lock
    decreases |calls|
  {
    hide Inv, Apply;
    NumbersBounded(s);
    if calls != [] {
      var (pid, c) := calls[0];
      ApplyInv(s, pid, c);
      StepEvolves(s, pid, c);
      var s' := Apply(s, pid, c).0;
      if o in s'.ofds {
        LockChangesByFlock(s, pid, c, o);
        LockKept(s', calls[1..], o);
      } else {
        GoneForGood(s', calls[1..], o);
      }
    }
  }

  ghost predicate ByOthers(calls: seq<(nat, Call)>, pid: nat) {
    forall i | 0 <= i < |calls| :: calls[i].0 != pid
  }

  /** A process that does nothing itself keeps its descriptors through any calls of others. */
  lemma {:induction false} OthersLeaveDescriptors(s: State, pid: nat, tab: nat, calls: seq<(nat, Call)>)
    requires Inv(s) && Sole(s, pid, tab) && ByOthers(calls, pid)
    ensures SameTable(s, Run(s, calls), tab) && Sole(Run(s, calls), pid, tab)
    decreases |calls|
  {
    hide Inv, Apply, Sole;
    if calls != [] {
      ApplyInv(s, calls[0].0, calls[0].1);
      OthersLeaveTable(s, pid, tab, calls[0].0, calls[0].1);
      OthersLeaveDescriptors(Apply(s, calls[0].0, calls[0].1).0, pid, tab, calls[1..]);
    }
  }

  /** The lock a process took survives whatever its children and others do and their exits,
      as long as nobody calls flock through the shared description itself. */
  lemma LockSurvivesOthers(s: State, pid: nat, tab: nat, fd: nat, o: nat, calls: seq<(nat, Call)>)
    requires Inv(s) && Sole(s, pid, tab) && Reaches(s, pid, fd, o) && o in s.ofds
    requires ByOthers(calls, pid) && NotRelocked(s, calls, o)
    ensures var r := Run(s, calls); Reaches(r, pid, fd, o) && o in r.ofds && r.ofds[o].lock == s.ofds[o].lock
  {
    hide Inv, Run;
    OthersLeaveDescriptors(s, pid, tab, calls);
    LockKeptUntilLastClose(s, calls, o);
  }

  /** In every reachable state, two descriptions of one file never hold clashing locks: one
      exclusive holder, or only shared ones. */
  lemma FlockExclusion(calls: seq<(nat, Call)>, a: nat, b: nat)
    requires a in Reached(calls).ofds && b in Reached(calls).ofds && a != b
    requires InodeOf(Reached(calls).ofds[a].target) == InodeOf(Reached(calls).ofds[b].target)
    ensures Reached(calls).ofds[a].lock == Exclusive ==> Reached(calls).ofds[b].lock == Unlocked
  {
    hide RefsOk, EndsOk, TargetsOk, BuffersOk, TablesOk, Reached;
    var s := Reached(calls);
    assert !LocksClash(s.ofds[a].lock, s.ofds[b].lock);
  }
}
