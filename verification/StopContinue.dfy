/** The stop/continue sequence: a child stops itself and later exits; the parent waits for the
    stop, continues it, waits asking for the continue report, and waits once more. */
module StopContinue {
  import opened Basics

  /** What the kernel knows of the child; `told` says whether a wait has reported it. */
  datatype Child = Running | Stopped(told: bool) | Continued(told: bool) | Zombie | Collected

  datatype Report = StoppedReport | ContinuedReport | ExitedReport | NoChild

  datatype ParentPc = WaitStop | SendCont | WaitCont | WaitExit | Done

  /** status keeps the last status a wait stored; a wait that fails leaves it alone. */
  datatype State = State(c: Child, p: ParentPc, reports: seq<Report>, status: Option<Report>)

  datatype Side = ParentSide | ChildSide

  const START := State(Running, WaitStop, [], None)

  /** waitpid: an exit is always reported, stops and continues when asked for and not yet
      told; None while it has to wait. */
  function Wait(c: Child, untraced: bool, continued: bool): Option<(Child, Report)> {
    match c
    case Zombie => Some((Collected, ExitedReport))
    case Collected => Some((Collected, NoChild))
    case Stopped(told) => if untraced && !told then Some((Stopped(true), StoppedReport)) else None
    case Continued(told) => if continued && !told then Some((Continued(true), ContinuedReport)) else None
    case Running => None
  }

  /** A stop or a continue is told to one wait only, and to none that did not ask for it. */
  lemma ToldOnce(c: Child, untraced: bool, continued: bool)
    ensures Wait(c, untraced, continued).Some? && (c.Stopped? || c.Continued?) ==>
      Wait(Wait(c, untraced, continued).value.0, untraced, continued).None?
    ensures c == Stopped(false) ==> (Wait(c, untraced, continued).Some? <==> untraced)
    ensures c == Continued(false) ==> (Wait(c, untraced, continued).Some? <==> continued)
    ensures Wait(Zombie, untraced, continued) == Some((Collected, ExitedReport))
    ensures Wait(Collected, untraced, continued) == Some((Collected, NoChild))
  {
  }

  function AfterWait(s: State, untraced: bool, continued: bool, after: ParentPc): Option<State> {
    match Wait(s.c, untraced, continued)
    case None => None
    case Some((c, r)) =>
      Some(State(c, after, s.reports + [r], if r == NoChild then s.status else Some(r)))
  }

  function Next(s: State, who: Side): Option<State> {
    match who
    case ChildSide =>
      (match s.c
       case Running => Some(s.(c := Stopped(false)))
       case Continued(_) => Some(s.(c := Zombie))
       case _ => None)
    case ParentSide =>
      match s.p
      case WaitStop => AfterWait(s, true, false, SendCont)
      case SendCont => Some(s.(p := WaitCont, c := if s.c.Stopped? then Continued(false) else s.c))
      case WaitCont => AfterWait(s, false, true, WaitExit)
      case WaitExit => AfterWait(s, false, false, Done)
      case Done => None
  }

  function Run(schedule: seq<Side>): Option<State>
    decreases |schedule|
  {
    if schedule == [] then Some(START)
    else match Run(schedule[..|schedule| - 1])
      case None => None
      case Some(s) => Next(s, schedule[|schedule| - 1])
  }

  function Count(schedule: seq<Side>, who: Side): nat {
    if schedule == [] then 0
    else Count(schedule[..|schedule| - 1], who) + (if schedule[|schedule| - 1] == who then 1 else 0)
  }

  /** The parent's steps that come before the child's exit (the child's second step). */
  function ParentStepsBeforeExit(schedule: seq<Side>): nat {
    if schedule == [] then 0
    else
      var before := schedule[..|schedule| - 1];
      ParentStepsBeforeExit(before) +
      (if schedule[|schedule| - 1] == ParentSide && Count(before, ChildSide) < 2 then 1 else 0)
  }

  function Steps(p: ParentPc): nat {
    match p case WaitStop => 0 case SendCont => 1 case WaitCont => 2 case WaitExit => 3 case Done => 4
  }

  const LATE: seq<Report> := [StoppedReport, ContinuedReport, ExitedReport]
  const EARLY: seq<Report> := [StoppedReport, ExitedReport, NoChild]

  ghost predicate Inv(s: State, schedule: seq<Side>) {
    var before, exits := ParentStepsBeforeExit(schedule), Count(schedule, ChildSide);
    && exits <= 2 && before <= Steps(s.p) && Count(schedule, ParentSide) == Steps(s.p)
    && (exits < 2 ==> before == Steps(s.p))
    && (match s.p
        case WaitStop => s.reports == [] && (s.c == Running || s.c == Stopped(false))
        case SendCont => s.reports == LATE[..1] && s.c == Stopped(true)
        case WaitCont => s.reports == LATE[..1] && (s.c == Continued(false) || s.c == Zombie) &&
          (s.c == Zombie ==> before == 2)
        case WaitExit =>
          (s.reports == LATE[..2] && (s.c == Continued(true) || s.c == Zombie) && before == 3) ||
          (s.reports == EARLY[..2] && s.c == Collected && before == 2)
        case Done =>
          (s.reports == LATE && s.c == Collected && before == 3) ||
            (s.reports == EARLY && s.c == Collected && before == 2))
    && (exits == 0 <==> s.c == Running)
    && (exits == 1 <==> s.c.Stopped? || s.c.Continued?)
    && (s.reports != [] ==>
        s.status == Some(if s.reports[|s.reports| - 1] == NoChild then ExitedReport else s.reports[|s.reports| - 1]))
  }

  lemma {:induction false} RunInv(schedule: seq<Side>)
    requires Run(schedule).Some?
    ensures Inv(Run(schedule).value, schedule)
    decreases |schedule|
  {
    if schedule != [] {
      RunInv(schedule[..|schedule| - 1]);
      assert LATE[..1] == EARLY[..1] == [StoppedReport];
      assert LATE[..2] == [StoppedReport, ContinuedReport] && EARLY[..2] == [StoppedReport, ExitedReport];
    }
  }

  ghost predicate Stuck(s: State) {
    forall who: Side :: Next(s, who).None?
  }

  predicate Prefix(a: seq<Report>, b: seq<Report>) {
    a <= b
  }

  /** In every schedule the waits report stopped, optionally continued, then exited; the exit
      is reported by exactly one wait; no wait blocks for ever; and the continue check holds
      exactly when the second wait precedes the child's exit.  The last check holds even when
      the exit was reported one wait too early: the failing wait left the status alone. */
  lemma {:induction false} ReportsInOrder(schedule: seq<Side>)
    requires Run(schedule).Some?
    ensures var s := Run(schedule).value;
      && (Prefix(s.reports, LATE) || Prefix(s.reports, EARLY))
      && (Stuck(s) <==> s.p == Done)
      && (s.p == Done ==> |schedule| == 6 && s.c == Collected && s.status == Some(ExitedReport))
      && (s.p == Done ==> s.reports == if ParentStepsBeforeExit(schedule) >= 3 then LATE else EARLY)
      && (s.p == Done ==> (s.reports[1] == ContinuedReport <==> ParentStepsBeforeExit(schedule) >= 3))
  {
    RunInv(schedule);
    Lengths(schedule);
    var s := Run(schedule).value;
    if Stuck(s) {
      assert Next(s, ParentSide).None? && Next(s, ChildSide).None?;
    }
  }

  lemma {:induction false} Lengths(schedule: seq<Side>)
    ensures Count(schedule, ParentSide) + Count(schedule, ChildSide) == |schedule|
  {
    if schedule != [] { Lengths(schedule[..|schedule| - 1]); }
  }

  /** Both outcomes of the continue check occur: the exit can come before the second wait, and
      after it. */
  lemma BothOrders()
    ensures var r := Run([ChildSide, ParentSide, ParentSide, ChildSide, ParentSide, ParentSide]);
      r.Some? && r.value.p == Done && r.value.reports == EARLY && r.value.status == Some(ExitedReport)
    ensures var r := Run([ChildSide, ParentSide, ParentSide, ParentSide, ChildSide, ParentSide]);
      r.Some? && r.value.p == Done && r.value.reports == LATE && r.value.status == Some(ExitedReport)
  {
    var c, p := ChildSide, ParentSide;
    var none: seq<Report> := [];
    assert none + [StoppedReport] == [StoppedReport] && LATE[..1] == [StoppedReport];
    assert [StoppedReport] + [ExitedReport] == EARLY[..2] && EARLY[..2] + [NoChild] == EARLY;
    assert [StoppedReport] + [ContinuedReport] == LATE[..2] && LATE[..2] + [ExitedReport] == LATE;
    var s3 := State(Continued(false), WaitCont, [StoppedReport], Some(StoppedReport));
    assert [c][..0] == [] && [c, p][..1] == [c] && [c, p, p][..2] == [c, p];
    assert Run([c]) == Some(State(Stopped(false), WaitStop, [], None));
    assert Run([c, p]) == Some(State(Stopped(true), SendCont, [StoppedReport], Some(StoppedReport)));
    assert Run([c, p, p]) == Some(s3);
    assert [c, p, p, c][..3] == [c, p, p] && [c, p, p, c, p][..4] == [c, p, p, c];
    assert [c, p, p, c, p, p][..5] == [c, p, p, c, p];
    assert Run([c, p, p, c]) == Some(s3.(c := Zombie));
    assert Run([c, p, p, c, p]) == Some(State(Collected, WaitExit, EARLY[..2], Some(ExitedReport)));
    assert [c, p, p, p][..3] == [c, p, p] && [c, p, p, p, c][..4] == [c, p, p, p];
    assert [c, p, p, p, c, p][..5] == [c, p, p, p, c];
    assert Run([c, p, p, p]) == Some(State(Continued(true), WaitExit, LATE[..2], Some(ContinuedReport)));
    assert Run([c, p, p, p, c]) == Some(State(Zombie, WaitExit, LATE[..2], Some(ContinuedReport)));
  }
}
