/** Exact counts in every run of the kernel model, and what follows from them: end of file and
    broken pipes are reported exactly when the last opposite end is gone. */
module KernelProps {
  import opened Basics
  import opened KernelState
  import opened Kernel

  /** One process with an empty descriptor table. */
  const BOOT := State(map[1 := 0], map[0 := 1], map[], map[], map[], map[], 1)

  lemma BootInv()
    ensures Inv(BOOT)
  {
    assert Sharing(BOOT.procs, 0) == {1};
  }

  /** A live process has a descriptor for description o. */
  ghost predicate Reaches(s: State, pid: nat, fd: nat, o: nat) {
    pid in s.procs && Key(s.procs[pid], fd) in s.slots && s.slots[Key(s.procs[pid], fd)].ofd == o
  }

  /** The descriptions of pipe end t that live processes can use. */
  ghost function LiveEnds(s: State, t: Target): set<nat> {
    set o | o in s.ofds && s.ofds[o].target == t && exists pid, fd :: Reaches(s, pid, fd, o)
  }

  /** Some live process has end t of a pipe open. */
  ghost predicate HeldOpen(s: State, t: Target) {
    exists pid, fd, o :: Reaches(s, pid, fd, o) && o in s.ofds && s.ofds[o].target == t
  }

  lemma DescriptionIsLive(s: State, o: nat)
    requires Inv(s) && o in s.ofds
    ensures exists pid, fd :: Reaches(s, pid, fd, o)
  {
    assert |Refs(s.slots, o)| > 0;
    var k :| k in Refs(s.slots, o);
    assert k in s.slots && s.slots[k].ofd == o && k.tab in s.users;
    assert |Sharing(s.procs, k.tab)| > 0;
    var pid :| pid in Sharing(s.procs, k.tab);
    assert Reaches(s, pid, k.fd, o);
  }

  lemma LiveEndsAreHolders(s: State, t: Target)
    requires Inv(s)
    ensures LiveEnds(s, t) == Holders(s.ofds, t)
    ensures HeldOpen(s, t) <==> Holders(s.ofds, t) != {}
  {
    hide Inv, Reaches;
    forall o | o in Holders(s.ofds, t) ensures o in LiveEnds(s, t) { DescriptionIsLive(s, o); }
    if HeldOpen(s, t) {
      var pid, fd, o :| Reaches(s, pid, fd, o) && o in s.ofds && s.ofds[o].target == t;
      assert o in Holders(s.ofds, t);
    }
    if Holders(s.ofds, t) != {} {
      var o :| o in Holders(s.ofds, t);
      assert o in LiveEnds(s, t);
    }
  }

  function Reached(calls: seq<(nat, Call)>): (s: State)
    ensures Inv(s)
  {
    BootInv();
    Run(BOOT, calls)
  }

  /** In every state of every run, each pipe's kept counts are the numbers of descriptions of
      its ends that live processes can still reach. */
  lemma CountsExact(calls: seq<(nat, Call)>, p: nat)
    requires p in Reached(calls).pipes
    ensures var s := Reached(calls);
      && s.pipes[p].readers == |LiveEnds(s, ReadEnd(p))|
      && s.pipes[p].writers == |LiveEnds(s, WriteEnd(p))|
      && (s.pipes[p].readers == 0 <==> !HeldOpen(s, ReadEnd(p)))
      && (s.pipes[p].writers == 0 <==> !HeldOpen(s, WriteEnd(p)))
  {
    hide Reached, RefsOk, LocksOk, TargetsOk, BuffersOk, TablesOk, LiveEnds, HeldOpen;
    var s := Reached(calls);
    LiveEndsAreHolders(s, ReadEnd(p));
    LiveEndsAreHolders(s, WriteEnd(p));
    EmptyIffUnheld(s, p);
  }

  lemma EmptyIffUnheld(s: State, p: nat)
    requires Inv(s) && p in s.pipes
    ensures s.pipes[p].readers == 0 <==> !HeldOpen(s, ReadEnd(p))
    ensures s.pipes[p].writers == 0 <==> !HeldOpen(s, WriteEnd(p))
  {
    hide RefsOk, LocksOk, TargetsOk, BuffersOk, TablesOk, LiveEnds, HeldOpen;
    LiveEndsAreHolders(s, ReadEnd(p));
    LiveEndsAreHolders(s, WriteEnd(p));
    assert s.pipes[p].readers == |Holders(s.ofds, ReadEnd(p))|;
    assert s.pipes[p].writers == |Holders(s.ofds, WriteEnd(p))|;
  }

  /** Read and write on an open descriptor act on its description. */
  lemma OnOpenDescriptor(s: State, pid: nat, c: Call, o: nat)
    requires Inv(s) && (c.Read? || c.Write?) && Reaches(s, pid, c.fd, o)
    ensures o in s.ofds && TargetOk(s.ofds[o].target, s.pipes, s.files)
    ensures c.Read? ==> Apply(s, pid, c) == DoRead(s, o, c.n, c.k)
    ensures c.Write? ==> Apply(s, pid, c) == DoWrite(s, o, c.data, c.k, c.rest)
  {
    hide RefsOk, EndsOk, LocksOk, BuffersOk, TablesOk, TargetOk, DoRead, DoWrite;
  }

  lemma PipeRead(s: State, o: nat, p: nat, n: nat, k: nat)
    requires Inv(s) && o in s.ofds && s.ofds[o].target == ReadEnd(p) && p in s.pipes && n > 0
    ensures var r := DoRead(s, o, n, k).1;
      && (r == Data([]) <==> s.pipes[p].buf == [] && s.pipes[p].writers == 0)
      && (r == Block || r == Err(EAGAIN) <==> s.pipes[p].buf == [] && s.pipes[p].writers != 0)
      && (s.pipes[p].buf != [] ==> r.Data? && 1 <= |r.bytes| <= n && r.bytes <= s.pipes[p].buf)
  {
    hide Inv;
  }

  lemma PipeWrite(s: State, o: nat, p: nat, data: seq<byte>, k: nat, rest: bool)
    requires Inv(s) && o in s.ofds && s.ofds[o].target == WriteEnd(p) && p in s.pipes && data != []
    ensures DoWrite(s, o, data, k, rest).1 == Err(EPIPE) <==> s.pipes[p].readers == 0
  {
    hide RefsOk, EndsOk, LocksOk, TablesOk, TargetsOk, SlotsOk;
  }

  /** A read of at least one byte reports end of file exactly when the pipe is empty and no
      live process has its write end; with a writer left, an empty pipe makes the caller
      wait, or fail with EAGAIN if it asked not to wait. */
  lemma ReadOutcome(s: State, pid: nat, fd: nat, o: nat, p: nat, n: nat, k: nat)
    requires Inv(s) && Reaches(s, pid, fd, o) && n > 0
    requires o in s.ofds && s.ofds[o].target == ReadEnd(p) && p in s.pipes
    ensures var r := Apply(s, pid, Read(fd, n, k)).1;
      && (r == Data([]) <==> s.pipes[p].buf == [] && !HeldOpen(s, WriteEnd(p)))
      && (r == Block || r == Err(EAGAIN) <==> s.pipes[p].buf == [] && HeldOpen(s, WriteEnd(p)))
      && (s.pipes[p].buf != [] ==> r.Data? && 1 <= |r.bytes| <= n && r.bytes <= s.pipes[p].buf)
  {
    hide Inv, HeldOpen, Apply, DoRead, Reaches;
    OnOpenDescriptor(s, pid, Read(fd, n, k), o);
    PipeRead(s, o, p, n, k);
    EmptyIffUnheld(s, p);
  }

  /** A write of at least one byte fails with EPIPE exactly when no live process has the
      read end. */
  lemma WriteBroken(s: State, pid: nat, fd: nat, o: nat, p: nat, data: seq<byte>, k: nat, rest: bool)
    requires Inv(s) && Reaches(s, pid, fd, o) && data != []
    requires o in s.ofds && s.ofds[o].target == WriteEnd(p) && p in s.pipes
    ensures Apply(s, pid, Write(fd, data, k, rest)).1 == Err(EPIPE) <==> !HeldOpen(s, ReadEnd(p))
  {
    hide Inv, HeldOpen, Apply, DoWrite, Reaches;
    OnOpenDescriptor(s, pid, Write(fd, data, k, rest), o);
    PipeWrite(s, o, p, data, k, rest);
    EmptyIffUnheld(s, p);
  }
}
