/** The two-process F_SETLKW protocol: parent and child each take a write lock on the
    whole file, hold it, give it back; the parent then waits for the child.  The sleeps
    are steps that may be scheduled at any time, so every order of arrival is covered. */
module LockProtocol {
  import opened Basics
  import opened RecordLocks

  datatype Pc = Asking | Holding | Released | Finished

  datatype Side = Parent | Child

  datatype State = State(table: Table, parent: nat, child: nat, p: Pc, c: Pc)

  function Other(who: Side): Side {
    if who == Parent then Child else Parent
  }

  function Pid(s: State, who: Side): nat {
    if who == Parent then s.parent else s.child
  }

  function PcOf(s: State, who: Side): Pc {
    if who == Parent then s.p else s.c
  }

  function Whole(r: Request): Flk {
    Flk(r, 0, 0)
  }

  /** The state after fork: record locks are not copied, so the table is the parent's. */
  function Forked(t: Table, parent: nat, child: nat): State {
    State(t, parent, child, Asking, Asking)
  }

  /** One step of one process; None when it is blocked or finished.  F_SETLKW is blocked
      exactly while F_SETLK would be refused. */
  function Next(s: State, who: Side): Option<State> {
    var pid := Pid(s, who);
    match PcOf(s, who)
    case Asking =>
      var (t, r) := SetLk(s.table, pid, Whole(Lock(WriteLock)));
      if r.Ok? then Some(Move(s, who, t, Holding)) else None
    case Holding => Some(Move(s, who, SetLk(s.table, pid, Whole(Unlock)).0, Released))
    case Released =>
      if who == Child then Some(Move(s, who, Release(s.table, pid), Finished))
      else if s.c == Finished then Some(Move(s, who, s.table, Finished))
      else None
    case Finished => None
  }

  function Move(s: State, who: Side, t: Table, pc: Pc): State {
    match who
    case Parent => s.(table := t, p := pc)
    case Child => s.(table := t, c := pc)
  }

  function Run(s: State, schedule: seq<Side>): Option<State>
    decreases |schedule|
  {
    if schedule == [] then Some(s)
    else match Next(s, schedule[0])
      case None => None
      case Some(s') => Run(s', schedule[1..])
  }

  ghost predicate Unlocked(t: Table) {
    WellFormed(t) && forall q: nat, b: nat :: ModeAt(t, q, b) == None
  }

  /** The lock the program counters say process q has on byte b. */
  function Expected(s: State, q: nat, b: nat): Option<Mode> {
    if b <= OFFSET_MAX && ((q == s.parent && s.p == Holding) || (q == s.child && s.c == Holding))
    then Some(WriteLock) else None
  }

  /** The table says exactly what the program counters say. */
  ghost predicate Inv(s: State) {
    && s.parent != s.child
    && WellFormed(s.table)
    && (forall q: nat, b: nat :: ModeAt(s.table, q, b) == Expected(s, q, b))
    && !(s.p == Holding && s.c == Holding)
    && (s.p == Finished ==> s.c == Finished)
  }

  function StepsLeft(pc: Pc): nat {
    match pc
    case Asking => 3
    case Holding => 2
    case Released => 1
    case Finished => 0
  }

  ghost predicate Stuck(s: State) {
    forall who: Side :: Next(s, who).None?
  }

  /** What a whole-file request does when the table is the one of the invariant. */
  lemma WholeFileRequest(s: State, who: Side, r: Request)
    requires Inv(s) && r != Lock(ReadLock)
    ensures WellFormed(SetLk(s.table, Pid(s, who), Whole(r)).0)
    ensures SetLk(s.table, Pid(s, who), Whole(r)).1.Ok? <==> !(r.Lock? && PcOf(s, Other(who)) == Holding)
    ensures SetLk(s.table, Pid(s, who), Whole(r)).1.Ok? ==> forall q: nat, b: nat ::
      ModeAt(SetLk(s.table, Pid(s, who), Whole(r)).0, q, b) ==
        if q == Pid(s, who) && b <= OFFSET_MAX then Requested(r) else Expected(s, q, b)
  {
    var pid := Pid(s, who);
    SetLkRefines(s.table, pid, Whole(r));
    var q := Pid(s, Other(who));
    assert ModeAt(s.table, q, 0) == Expected(s, q, 0);
  }

  lemma NextKeepsInv(s: State, who: Side)
    requires Inv(s) && Next(s, who).Some?
    ensures Inv(Next(s, who).value)
    ensures StepsLeft(Next(s, who).value.p) + StepsLeft(Next(s, who).value.c) + 1 == StepsLeft(s.p) + StepsLeft(s.c)
  {
    var s' := Next(s, who).value;
    match PcOf(s, who) {
      case Asking => WholeFileRequest(s, who, Lock(WriteLock));
      case Holding => WholeFileRequest(s, who, Unlock);
      case Released => ReleaseSpec(s.table, s.child);
    }
  }

  /** Whoever is first, at most one process is inside; a state from which nobody can move
      is the final one, with both processes finished and no byte locked. */
  lemma StuckIsFinal(s: State)
    requires Inv(s)
    ensures Stuck(s) <==> s.p == Finished && s.c == Finished
    ensures Stuck(s) ==> Unlocked(s.table)
  {
    WholeFileRequest(s, Parent, Lock(WriteLock));
    WholeFileRequest(s, Child, Lock(WriteLock));
    if Stuck(s) {
      assert Next(s, Parent).None? && Next(s, Child).None?;
    }
  }

  lemma {:induction false} RunInv(s: State, schedule: seq<Side>)
    requires Inv(s) && Run(s, schedule).Some?
    ensures Inv(Run(s, schedule).value)
    ensures StepsLeft(Run(s, schedule).value.p) + StepsLeft(Run(s, schedule).value.c) + |schedule| ==
      StepsLeft(s.p) + StepsLeft(s.c)
    decreases |schedule|
  {
    if schedule != [] {
      NextKeepsInv(s, schedule[0]);
      RunInv(Next(s, schedule[0]).value, schedule[1..]);
    }
  }

  /** Every schedule of the protocol keeps mutual exclusion, and every schedule that
      cannot be extended has exactly six steps and ends with both processes finished and
      the file unlocked: F_SETLKW returns in both, in every order. */
  lemma {:induction false} EveryScheduleFinishes(t: Table, parent: nat, child: nat, schedule: seq<Side>)
    requires Unlocked(t) && parent != child
    requires Run(Forked(t, parent, child), schedule).Some?
    ensures var s := Run(Forked(t, parent, child), schedule).value;
      && !(s.p == Holding && s.c == Holding)
      && Exclusion(s.table)
      && |schedule| <= 6
      && (Stuck(s) <==> |schedule| == 6)
      && (Stuck(s) ==> s.p == Finished && s.c == Finished && Unlocked(s.table))
  {
    RunInv(Forked(t, parent, child), schedule);
    StuckIsFinal(Run(Forked(t, parent, child), schedule).value);
  }

  /** The parent's lock and unlock of [0, n) before the fork leave no byte locked, so the
      protocol starts from an unlocked table. */
  lemma ParentReleasedBeforeFork(t: Table, parent: nat, n: nat)
    requires Unlocked(t) && 0 < n <= OFFSET_MAX
    ensures var (t1, r1) := SetLk(t, parent, Flk(Lock(WriteLock), 0, n));
      var (t2, r2) := SetLk(t1, parent, Flk(Unlock, 0, n));
      r1.Ok? && r2.Ok? && Unlocked(t2)
  {
    SetLkRefines(t, parent, Flk(Lock(WriteLock), 0, n));
    var t1 := SetLk(t, parent, Flk(Lock(WriteLock), 0, n)).0;
    SetLkRefines(t1, parent, Flk(Unlock, 0, n));
  }

  /** While the parent still holds [0, n), a child's F_SETLK of the same range is refused. */
  lemma ConflictAcrossFork(t: Table, parent: nat, child: nat, n: nat)
    requires Unlocked(t) && parent != child && 0 < n <= OFFSET_MAX
    ensures var t1 := SetLk(t, parent, Flk(Lock(WriteLock), 0, n)).0;
      SetLk(t1, child, Flk(Lock(WriteLock), 0, n)) == (t1, Fail(EAGAIN))
  {
    SetLkRefines(t, parent, Flk(Lock(WriteLock), 0, n));
    var t1 := SetLk(t, parent, Flk(Lock(WriteLock), 0, n)).0;
    SetLkRefines(t1, child, Flk(Lock(WriteLock), 0, n));
    assert ModeAt(t1, parent, 0) == Some(WriteLock);
  }
}
