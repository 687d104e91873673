/** A pipe whose two ends only one process can reach: nobody else can ever free a writer of it
    that waits because the pipe is full. */
module Enclosure {
  import opened Basics
  import opened KernelState
  import opened Kernel
  import opened KernelProps
  import opened KernelFrame
  import opened KernelRuns
  import opened KernelOwnership

  predicate EndOf(s: State, k: Key, p: nat) {
    k in s.slots && s.slots[k].ofd in s.ofds &&
    (s.ofds[s.slots[k].ofd].target == ReadEnd(p) || s.ofds[s.slots[k].ofd].target == WriteEnd(p))
  }

  /** Every descriptor of an end of pipe p is in table tab. */
  ghost predicate Within(s: State, tab: nat, p: nat) {
    forall k :: EndOf(s, k, p) ==> k.tab == tab
  }

  /** fd of pid, whose table nobody shares, is a blocking write end of a full pipe with a
      reader, and no other table has an end of it. */
  ghost predicate Enclosed(s: State, pid: nat, tab: nat, fd: nat, o: nat, p: nat) {
    && Inv(s) && Sole(s, pid, tab) && Within(s, tab, p)
    && Reaches(s, pid, fd, o) && o in s.ofds && s.ofds[o].target == WriteEnd(p) && !s.ofds[o].nonblock
    && p in s.pipes && s.pipes[p].readers > 0 && |s.pipes[p].buf| == s.pipes[p].cap
  }

  /** Nobody else can work on an end of the pipe. */
  lemma OthersCannotUse(s: State, pid: nat, tab: nat, p: nat, q: nat, c: Call)
    requires Sole(s, pid, tab) && Within(s, tab, p) && q != pid
    ensures !ActsOn(s, q, c, ReadEnd(p)) && !ActsOn(s, q, c, WriteEnd(p))
  {
    if q in s.procs && UsesDescription(c) {
      var k := Key(s.procs[q], c.fd);
      assert EndOf(s, k, p) ==> k.tab == tab;
    }
  }

  /** And nobody else comes by one. */
  lemma StaysWithin(s: State, pid: nat, tab: nat, p: nat, q: nat, c: Call)
    requires Inv(s) && Sole(s, pid, tab) && Within(s, tab, p) && q != pid && q in s.procs && p < s.next
    ensures Within(Apply(s, q, c).0, tab, p)
  {
    hide Inv, Apply, Leads;
    var r := Apply(s, q, c).0;
    StepSpreads(s, q, c);
    StepEvolves(s, q, c);
    NumbersBounded(s);
    forall k | EndOf(r, k, p) ensures k.tab == tab {
      var o := r.slots[k].ofd;
      if k in s.slots { SlotFacts(s, k); }
      if Leads(s, s.procs[q], o) { LeadsWithin(s, tab, p, s.procs[q], o); }
      assert k in s.slots && s.slots[k].ofd == o ==> EndOf(s, k, p);
    }
  }

  lemma LeadsWithin(s: State, tab: nat, p: nat, mine: nat, o: nat)
    requires Inv(s) && Within(s, tab, p) && Leads(s, mine, o)
    ensures o in s.ofds && (s.ofds[o].target == ReadEnd(p) || s.ofds[o].target == WriteEnd(p)) ==> mine == tab
  {
    hide Inv;
    var fd: nat :| Key(mine, fd) in s.slots && s.slots[Key(mine, fd)].ofd == o;
    var k := Key(mine, fd);
    assert EndOf(s, k, p) ==> k.tab == tab;
  }

  /** A reader that was there is still there. */
  lemma ReaderStays(s: State, pid: nat, tab: nat, p: nat, q: nat, c: Call)
    requires Inv(s) && Sole(s, pid, tab) && Within(s, tab, p) && q != pid
    requires p in s.pipes && s.pipes[p].readers > 0 && p in Apply(s, q, c).0.pipes
    ensures Apply(s, q, c).0.pipes[p].readers > 0
  {
    hide Inv, Apply, SameTable;
    var r := Apply(s, q, c).0;
    ApplyInv(s, q, c);
    EmptyIffUnheld(s, p);
    EmptyIffUnheld(r, p);
    var pid', fd, o :| Reaches(s, pid', fd, o) && o in s.ofds && s.ofds[o].target == ReadEnd(p);
    assert EndOf(s, Key(s.procs[pid'], fd), p);
    OthersLeaveTable(s, pid, tab, q, c);
    KeptInTable(s, r, pid, tab, fd, o);
    SlotFacts(r, Key(tab, fd));
    StepEvolves(s, q, c);
    assert Reaches(r, pid, fd, o);
  }

  lemma KeptInTable(s: State, r: State, pid: nat, tab: nat, fd: nat, o: nat)
    requires SameTable(s, r, tab) && Sole(r, pid, tab) && Key(tab, fd) in s.slots && s.slots[Key(tab, fd)].ofd == o
    ensures Reaches(r, pid, fd, o) && Key(tab, fd) in r.slots && r.slots[Key(tab, fd)].ofd == o
  {
  }

  lemma StepKeepsEnclosed(s: State, pid: nat, tab: nat, fd: nat, o: nat, p: nat, q: nat, c: Call)
    requires Enclosed(s, pid, tab, fd, o, p) && q != pid
    ensures Enclosed(Apply(s, q, c).0, pid, tab, fd, o, p)
  {
    hide Inv, Apply, SameTable, Within, ActsOn;
    var r := Apply(s, q, c).0;
    ApplyInv(s, q, c);
    NumbersBounded(s);
    OthersLeaveTable(s, pid, tab, q, c);
    KeptInTable(s, r, pid, tab, fd, o);
    SlotFacts(r, Key(tab, fd));
    StepEvolves(s, q, c);
    OthersCannotUse(s, pid, tab, p, q, c);
    StepConserves(s, q, c, p);
    ReaderStays(s, pid, tab, p, q, c);
    if q in s.procs { StaysWithin(s, pid, tab, p, q, c); } else { NobodyThere(s, q, c); }
    FlagStays(s, q, c, o, p);
  }

  lemma NobodyThere(s: State, q: nat, c: Call)
    requires Inv(s) && q !in s.procs
    ensures Apply(s, q, c).0 == s
  {
    hide Inv;
  }

  /** A description nobody works on keeps its flags. */
  lemma FlagStays(s: State, q: nat, c: Call, o: nat, p: nat)
    requires Inv(s) && o in s.ofds && s.ofds[o].target == WriteEnd(p) && !ActsOn(s, q, c, WriteEnd(p))
    requires o in Apply(s, q, c).0.ofds
    ensures Apply(s, q, c).0.ofds[o].nonblock == s.ofds[o].nonblock
  {
    hide Inv, Apply;
    if Used(s, q, c).Some? { UsedStep(s, q, c, Used(s, q, c).value); } else { CalmStep(s, q, c); }
  }

  lemma {:induction false} RunKeepsEnclosed(s: State, pid: nat, tab: nat, fd: nat, o: nat, p: nat,
      calls: seq<(nat, Call)>)
    requires Enclosed(s, pid, tab, fd, o, p) && ByOthers(calls, pid)
    ensures Enclosed(Run(s, calls), pid, tab, fd, o, p)
    decreases |calls|
  {
    hide Inv, Apply, Within, Reaches, Sole;
    if calls != [] {
      ApplyInv(s, calls[0].0, calls[0].1);
      StepKeepsEnclosed(s, pid, tab, fd, o, p, calls[0].0, calls[0].1);
      RunKeepsEnclosed(Apply(s, calls[0].0, calls[0].1).0, pid, tab, fd, o, p, calls[1..]);
    }
  }

  /** A write through fd waits now and after any run of calls of other processes. */
  ghost predicate WaitsForEver(s: State, pid: nat, fd: nat)
    requires Inv(s)
  {
    forall calls: seq<(nat, Call)> | ByOthers(calls, pid) :: Waits(Run(s, calls), pid, fd)
  }

  /** Whatever the data, however much of it is taken, and whether or not some was before. */
  ghost predicate Waits(s: State, pid: nat, fd: nat)
    requires Inv(s)
  {
    forall data: seq<byte>, k: nat, rest: bool | data != [] :: Apply(s, pid, Write(fd, data, k, rest)) == (s, Block)
  }

  lemma EnclosedWaits(s: State, pid: nat, tab: nat, fd: nat, o: nat, p: nat)
    requires Enclosed(s, pid, tab, fd, o, p)
    ensures WaitsForEver(s, pid, fd)
  {
    hide Inv, Apply, Run, Within, Reaches, Sole;
    forall calls: seq<(nat, Call)> | ByOthers(calls, pid) ensures Waits(Run(s, calls), pid, fd) {
      RunKeepsEnclosed(s, pid, tab, fd, o, p, calls);
      var r := Run(s, calls);
      forall data: seq<byte>, k: nat, rest: bool | data != []
        ensures Apply(r, pid, Write(fd, data, k, rest)) == (r, Block)
      {
        OnOpenDescriptor(r, pid, Write(fd, data, k, rest), o);
      }
    }
  }
}
