/** flock on regular files, mode by mode: readers share, a writer excludes, and only
    descriptions of the same file count. */
module FlockModes {
  import opened KernelState
  import opened Kernel
  import opened KernelProps
  import opened Descriptors

  /** flock on a file, mode by mode.  Many may share, one may exclude, anyone may unlock; only
      descriptions of the same file count. */
  lemma FlockOnFile(s: State, pid: nat, fd: nat, o: nat, i: nat, nb: bool)
    requires Inv(s) && Reaches(s, pid, fd, o) && o in s.ofds && s.ofds[o].target == File(i)
    ensures Apply(s, pid, Flock(fd, Unlocked, nb)).1 == Val(0)
    ensures Apply(s, pid, Flock(fd, Shared, nb)).1 == Val(0) <==>
      forall q | q in s.ofds && q != o && s.ofds[q].target == File(i) :: s.ofds[q].lock != Exclusive
    ensures Apply(s, pid, Flock(fd, Exclusive, nb)).1 == Val(0) <==>
      forall q | q in s.ofds && q != o && s.ofds[q].target == File(i) :: s.ofds[q].lock == Unlocked
  {
    hide Inv, Apply, Reaches;
    FlockOutcome(s, pid, fd, o, Unlocked, nb);
    FlockOutcome(s, pid, fd, o, Shared, nb);
    FlockOutcome(s, pid, fd, o, Exclusive, nb);
  }

  /** Two descriptions of a file nobody excludes can both be locked shared. */
  lemma TwoReaders(s: State, pid: nat, i: nat, fd: nat, o: nat, fd2: nat, o2: nat)
    requires Inv(s) && Reaches(s, pid, fd, o) && Reaches(s, pid, fd2, o2) && o != o2 && o in s.ofds && o2 in s.ofds
    requires s.ofds[o].target == s.ofds[o2].target == File(i)
    requires forall q | q in s.ofds && s.ofds[q].target == File(i) :: s.ofds[q].lock != Exclusive
    ensures var (r, a) := Apply(s, pid, Flock(fd, Shared, false));
      Inv(r) && a == Val(0) && Apply(r, pid, Flock(fd2, Shared, true)).1 == Val(0)
    ensures var t := Run(s, [(pid, Flock(fd, Shared, false)), (pid, Flock(fd2, Shared, true))]);
      && o in t.ofds && o2 in t.ofds && t.ofds[o].target == t.ofds[o2].target == File(i)
      && t.ofds[o].lock == t.ofds[o2].lock == Shared
  {
    hide Inv, Apply, Run;
    var r := Apply(s, pid, Flock(fd, Shared, false)).0;
    FlockOutcome(s, pid, fd, o, Shared, false);
    FlockOnFile(s, pid, fd, o, i, false);
    ApplyInv(s, pid, Flock(fd, Shared, false));
    FlockOutcome(r, pid, fd2, o2, Shared, true);
    FlockOnFile(r, pid, fd2, o2, i, true);
    RunTwo(s, pid, Flock(fd, Shared, false), Flock(fd2, Shared, true));
  }

  lemma RunTwo(s: State, pid: nat, c: Call, d: Call)
    requires Inv(s)
    ensures Inv(Apply(s, pid, c).0) && Run(s, [(pid, c), (pid, d)]) == Apply(Apply(s, pid, c).0, pid, d).0
  {
    hide Inv, Apply;
    var calls: seq<(nat, Call)> := [(pid, c), (pid, d)];
    ApplyInv(s, pid, c);
    ApplyInv(Apply(s, pid, c).0, pid, d);
    var r := Apply(s, pid, c).0;
    assert calls[1..] == [(pid, d)] && [(pid, d)][1..] == [];
    assert Run(r, [(pid, d)]) == Run(Apply(r, pid, d).0, []);
  }

  /** An open gets the lowest unused number and the next description. */
  lemma OpenGets(s: State, pid: nat, c: Call, n: nat)
    requires Inv(s) && c.Open? && pid in s.procs && (c.ino in s.files || c.creat) && n < OPEN_MAX
    requires Lookup(s, pid, n).None? && forall f: nat | f < n :: Lookup(s, pid, f).Some?
    ensures Apply(s, pid, c).1 == Val(n) && Apply(s, pid, c).0.next == s.next + 1 && Apply(s, pid, c).0.procs == s.procs
  {
    hide Inv;
    LowestIs(s, pid, n, LowestFree(s, s.procs[pid], 0));
  }

  lemma LowestIs(s: State, pid: nat, n: nat, fd: nat)
    requires pid in s.procs && n < OPEN_MAX && (fd < OPEN_MAX ==> Key(s.procs[pid], fd) !in s.slots)
    requires forall f | 0 <= f < fd :: Key(s.procs[pid], f) in s.slots
    requires Lookup(s, pid, n).None? && forall f: nat | f < n :: Lookup(s, pid, f).Some?
    ensures fd == n
  {
    var k := Key(s.procs[pid], n);
    assert n < fd ==> k in s.slots;
    assert fd < n ==> Lookup(s, pid, fd).Some?;
  }

  function TwoOpens(i: nat): seq<(nat, Call)> {
    [(1, Open(i, true, false, RdWr, false, false)), (1, Open(i, false, false, RdWr, false, false))]
  }

  /** The state after process 1 has opened file i twice. */
  lemma OpenedTwice(i: nat)
    ensures var s := Reached(TwoOpens(i));
      && Reaches(s, 1, 0, 1) && Reaches(s, 1, 1, 2) && s.ofds.Keys == {1, 2}
      && s.ofds[1].target == s.ofds[2].target == File(i) && s.ofds[1].lock == s.ofds[2].lock == Unlocked
  {
    BootInv();
    hide Inv, Apply, Run;
    var c, d := Open(i, true, false, RdWr, false, false), Open(i, false, false, RdWr, false, false);
    RunTwo(BOOT, 1, c, d);
    OpenGets(BOOT, 1, c, 0);
    OpenSeparate(BOOT, 1, c);
    var s1 := Apply(BOOT, 1, c).0;
    OpenGets(s1, 1, d, 1);
    OpenSeparate(s1, 1, d);
  }

  /** So a state with two shared holders of one file is reachable. */
  lemma TwoReadersReachable(i: nat)
    ensures exists calls: seq<(nat, Call)> :: TwoShare(Reached(calls), i)
  {
    hide Inv, Apply, Run;
    var opens := TwoOpens(i);
    var locks := [(1, Flock(0, Shared, false)), (1, Flock(1, Shared, true))];
    BootInv();
    OpenedTwice(i);
    TwoReaders(Reached(opens), 1, i, 0, 1, 1, 2);
    RunConcat(BOOT, opens, locks);
    assert SharesFile(Reached(opens + locks), 1, i) && SharesFile(Reached(opens + locks), 2, i);
  }

  ghost predicate TwoShare(s: State, i: nat) {
    exists a, b :: a != b && SharesFile(s, a, i) && SharesFile(s, b, i)
  }

  predicate SharesFile(s: State, o: nat, i: nat) {
    o in s.ofds && s.ofds[o].target == File(i) && s.ofds[o].lock == Shared
  }

  lemma {:induction false} RunConcat(s: State, a: seq<(nat, Call)>, b: seq<(nat, Call)>)
    requires Inv(s)
    ensures Run(s, a + b) == Run(Run(s, a), b)
    decreases |a|
  {
    hide Inv, Apply;
    if a == [] {
      assert a + b == b;
    } else {
      ApplyInv(s, a[0].0, a[0].1);
      assert (a + b)[1..] == a[1..] + b;
      RunConcat(Apply(s, a[0].0, a[0].1).0, a[1..], b);
    }
  }
}
