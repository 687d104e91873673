/** Waiting for a signal without losing it: the sigsuspend protocol between a parent and its
    child, and the alarm/pause pair, in every interleaving. */
module Wakeup {
  import opened Basics
  import opened Signals

  /* ---- sigsuspend ---- */

  datatype ParentPc = AboutToKill | AboutToWait | Reaped

  datatype ChildPc = AboutToReset | AboutToSuspend | InSuspend | Gone

  /** code is the child's exit status once it is gone. */
  datatype World = World(sig: nat, child: Proc, p: ParentPc, c: ChildPc, code: nat)

  /** Who moves: the parent, the child's program, or the kernel delivering the signal. */
  datatype Mover = Parent | Child | Kernel

  /** After fork: the child has the parent's mask and dispositions and nothing pending. */
  function Start(parent: Proc, sig: nat): World {
    World(sig, Forked(parent), AboutToKill, AboutToReset, 0)
  }

  function Next(s: World, who: Mover): Option<World> {
    match who
    case Parent =>
      (match s.p
       case AboutToKill => Some(s.(child := if s.c == Gone then s.child else Send(s.child, s.sig), p := AboutToWait))
       case AboutToWait => if s.c == Gone then Some(s.(p := Reaped)) else None
       case Reaped => None)
    case Kernel =>
      if s.c != Gone && Deliverable(s.child, s.sig) then Some(s.(child := Deliver(s.child, s.sig))) else None
    case Child =>
      (match s.c
       case AboutToReset => Some(s.(child := s.child.(caught := 0), c := AboutToSuspend))
       case AboutToSuspend => Some(s.(child := Suspend(s.child, {}), c := InSuspend))
       case InSuspend =>
         if s.child.status == Running then Some(s.(c := Gone, code := if s.child.caught == s.sig then 0 else 1))
           else None
       case Gone => None)
  }

  function Run(s: World, schedule: seq<Mover>): Option<World>
    decreases |schedule|
  {
    if schedule == [] then Some(s)
    else match Run(s, schedule[..|schedule| - 1])
      case None => None
      case Some(t) => Next(t, schedule[|schedule| - 1])
  }

  ghost predicate Stuck(s: World) {
    forall who: Mover :: Next(s, who).None?
  }

  predicate Finished(s: World) {
    s.p == Reaped && s.c == Gone && s.code == 0
  }

  function Count(schedule: seq<Mover>, who: Mover): nat {
    if schedule == [] then 0
    else Count(schedule[..|schedule| - 1], who) + (if schedule[|schedule| - 1] == who then 1 else 0)
  }

  /** The child's own steps before the signal is delivered; all of them if it never is. */
  function StepsBeforeDelivery(schedule: seq<Mover>): nat {
    if schedule == [] then 0
    else
      var before := schedule[..|schedule| - 1];
      StepsBeforeDelivery(before) +
      (if schedule[|schedule| - 1] == Child && Count(before, Kernel) == 0 then 1 else 0)
  }

  function Reach(c: ChildPc): nat {
    match c case AboutToReset => 0 case AboutToSuspend => 1 case InSuspend => 2 case Gone => 3
  }

  function Done(p: ParentPc): nat {
    match p case AboutToKill => 0 case AboutToWait => 1 case Reaped => 2
  }

  /** What is known of the child after a schedule, with the signal blocked at fork or not. */
  ghost predicate Inv(parent: Proc, s: World, schedule: seq<Mover>) {
    var d := Count(schedule, Kernel);
    var early := d > 0 && StepsBeforeDelivery(schedule) < 2;
    && s.child.disp == parent.disp
    && |schedule| == Done(s.p) + Reach(s.c) + d
    && d <= 1
    && StepsBeforeDelivery(schedule) <= Reach(s.c)
    && (d == 0 ==> StepsBeforeDelivery(schedule) == Reach(s.c))
    && (s.p == AboutToKill ==> s.child.pending == {} && d == 0 && s.c != Gone)
    && (s.p != AboutToKill ==> s.child.pending == if d == 0 then {s.sig} else {})
    && (s.c == AboutToReset || s.c == AboutToSuspend ==> s.child.status == Running && s.child.blocked == parent.blocked)
    && (s.c == InSuspend && (d == 0 || early) ==> s.child.status == Suspended(parent.blocked) && s.child.blocked == {})
    && (s.c == InSuspend && d == 1 && !early ==> s.child.status == Running && s.child.caught == s.sig)
    && (s.c == Gone ==> d == 1 && !early && s.code == 0)
    && (s.p == Reaped ==> s.c == Gone)
    && (early ==> s.sig !in parent.blocked)
  }

  lemma {:induction false} RunInv(parent: Proc, sig: nat, schedule: seq<Mover>)
    requires parent.status == Running && Action(parent, sig) == Handler
    requires Run(Start(parent, sig), schedule).Some?
    ensures Run(Start(parent, sig), schedule).value.sig == sig
    ensures Inv(parent, Run(Start(parent, sig), schedule).value, schedule)
    decreases |schedule|
  {
    if schedule != [] {
      var before := schedule[..|schedule| - 1];
      RunInv(parent, sig, before);
      var s := Run(Start(parent, sig), before).value;
      assert Inv(parent, s, before);
      assert {sig} - {sig} == {} && {} + {sig} == {sig};
    }
  }

  /** The protocol with the signal blocked before fork loses no wakeup: whenever nobody can
      move, the child has exited 0 and been reaped, whatever the moment of the kill.
      Without the block, a run that cannot go on has succeeded exactly when the
      delivery came after the child entered sigsuspend. */
  lemma {:induction false} NoLostWakeup(parent: Proc, sig: nat, schedule: seq<Mover>)
    requires parent.status == Running && Action(parent, sig) == Handler
    requires Run(Start(parent, sig), schedule).Some?
    ensures var s := Run(Start(parent, sig), schedule).value;
      && |schedule| <= 6
      && (s.c == Gone ==> s.code == 0)
      && (sig in parent.blocked ==> (Stuck(s) <==> Finished(s)))
      && (Stuck(s) ==> (Finished(s) <==> StepsBeforeDelivery(schedule) >= 2))
  {
    RunInv(parent, sig, schedule);
    var s := Run(Start(parent, sig), schedule).value;
    if Stuck(s) {
      assert Next(s, Parent).None? && Next(s, Child).None? && Next(s, Kernel).None?;
    }
  }

  /** Without the block there is such a losing run: kill, delivery, and only then the
      child's reset and sigsuspend. */
  lemma LostWithoutBlock(parent: Proc, sig: nat)
    requires parent.status == Running && Action(parent, sig) == Handler && sig !in parent.blocked
    ensures var r := Run(Start(parent, sig), [Parent, Kernel, Child, Child]);
      r.Some? && Stuck(r.value) && !Finished(r.value)
  {
    var s0 := Start(parent, sig);
    assert [Parent][..0] == [] && [Parent, Kernel][..1] == [Parent] && [Parent, Kernel, Child][..2] == [Parent, Kernel]
      && [Parent, Kernel, Child, Child][..3] == [Parent, Kernel, Child];
    assert Run(s0, []) == Some(s0);
    var s1 := Next(s0, Parent).value;
    assert Run(s0, [Parent]) == Some(s1);
    var s2 := Next(s1, Kernel).value;
    assert Run(s0, [Parent, Kernel]) == Some(s2);
    var s3 := Next(s2, Child).value;
    assert Run(s0, [Parent, Kernel, Child]) == Some(s3);
  }

  /* ---- alarm and pause ---- */

  datatype AlarmPc = AboutToArm | AboutToPause | InPause | Returned

  datatype Sleeper = Sleeper(sig: nat, proc: Proc, pc: AlarmPc, fired: bool)

  datatype Tick = Program | Timer | Arrival

  function AlarmNext(s: Sleeper, t: Tick): Option<Sleeper> {
    match t
    case Timer =>
      if s.pc != AboutToArm && !s.fired then Some(s.(proc := Send(s.proc, s.sig), fired := true)) else None
    case Arrival =>
      if Deliverable(s.proc, s.sig) then Some(s.(proc := Deliver(s.proc, s.sig))) else None
    case Program =>
      (match s.pc
       case AboutToArm => Some(s.(proc := s.proc.(caught := 0), pc := AboutToPause))
       case AboutToPause => Some(s.(proc := s.proc.(status := Paused), pc := InPause))
       case InPause => if s.proc.status == Running then Some(s.(pc := Returned)) else None
       case Returned => None)
  }

  function AlarmRun(s: Sleeper, ticks: seq<Tick>): Option<Sleeper>
    decreases |ticks|
  {
    if ticks == [] then Some(s)
    else match AlarmRun(s, ticks[..|ticks| - 1])
      case None => None
      case Some(t) => AlarmNext(t, ticks[|ticks| - 1])
  }

  ghost predicate AlarmStuck(s: Sleeper) {
    forall t: Tick :: AlarmNext(s, t).None?
  }

  function CountTicks(ticks: seq<Tick>, t: Tick): nat {
    if ticks == [] then 0
    else CountTicks(ticks[..|ticks| - 1], t) + (if ticks[|ticks| - 1] == t then 1 else 0)
  }

  /** The program's steps before the delivery; all of them if there is none. */
  function ProgramBeforeDelivery(ticks: seq<Tick>): nat {
    if ticks == [] then 0
    else
      var before := ticks[..|ticks| - 1];
      ProgramBeforeDelivery(before) +
      (if ticks[|ticks| - 1] == Program && CountTicks(before, Arrival) == 0 then 1 else 0)
  }

  function AlarmReach(pc: AlarmPc): nat {
    match pc case AboutToArm => 0 case AboutToPause => 1 case InPause => 2 case Returned => 3
  }

  ghost predicate AlarmInv(p: Proc, s: Sleeper, ticks: seq<Tick>) {
    var d := CountTicks(ticks, Arrival);
    var early := d > 0 && ProgramBeforeDelivery(ticks) < 2;
    && s.proc.disp == p.disp && s.proc.blocked == p.blocked && d <= 1
    && |ticks| == AlarmReach(s.pc) + (if s.fired then 1 else 0) + d
    && ProgramBeforeDelivery(ticks) <= AlarmReach(s.pc)
    && (d == 0 ==> ProgramBeforeDelivery(ticks) == AlarmReach(s.pc))
    && (d == 1 ==> s.fired && s.sig !in p.blocked)
    && (s.fired ==> s.pc != AboutToArm)
    && (s.proc.pending == if s.fired && d == 0 then {s.sig} else {})
    && (s.pc == AboutToArm || s.pc == AboutToPause ==> s.proc.status == Running)
    && (s.pc == InPause && (d == 0 || early) ==> s.proc.status == Paused)
    && (s.pc == InPause && d == 1 && !early ==> s.proc.status == Running)
    && (s.pc == Returned ==> d == 1 && !early)
    && (s.pc != AboutToArm ==> s.proc.caught == if d == 1 then s.sig else 0)
  }

  lemma {:induction false} AlarmRunInv(p: Proc, sig: nat, ticks: seq<Tick>)
    requires p.status == Running && p.pending == {} && Action(p, sig) == Handler
    requires AlarmRun(Sleeper(sig, p, AboutToArm, false), ticks).Some?
    ensures AlarmRun(Sleeper(sig, p, AboutToArm, false), ticks).value.sig == sig
    ensures AlarmInv(p, AlarmRun(Sleeper(sig, p, AboutToArm, false), ticks).value, ticks)
    decreases |ticks|
  {
    if ticks != [] {
      var before := ticks[..|ticks| - 1];
      AlarmRunInv(p, sig, before);
      var s := AlarmRun(Sleeper(sig, p, AboutToArm, false), before).value;
      assert AlarmInv(p, s, before);
      assert {sig} - {sig} == {} && {} + {sig} == {sig};
    }
  }

  /** alarm then pause: no run has more than five steps.  One that cannot go on has returned
      from pause, with the handler run, exactly when the delivery came after the process
      entered pause; otherwise pause never returns: the signal was caught too early, or it is
      blocked and stays pending. */
  lemma {:induction false} AlarmPauseCanMiss(p: Proc, sig: nat, ticks: seq<Tick>)
    requires p.status == Running && p.pending == {} && Action(p, sig) == Handler
    requires AlarmRun(Sleeper(sig, p, AboutToArm, false), ticks).Some?
    ensures var s := AlarmRun(Sleeper(sig, p, AboutToArm, false), ticks).value;
      && |ticks| <= 5
      && (s.pc == Returned ==> AlarmStuck(s) && s.proc.caught == sig)
      && (AlarmStuck(s) ==>
          && (s.pc == Returned <==> sig !in p.blocked && ProgramBeforeDelivery(ticks) >= 2)
          && (s.pc != Returned ==> s.pc == InPause && s.proc.status == Paused)
          && (sig !in p.blocked ==> s.proc.caught == sig && s.proc.pending == {})
          && (sig in p.blocked ==> s.proc.caught == 0 && s.proc.pending == {sig}))
  {
    AlarmRunInv(p, sig, ticks);
    var s := AlarmRun(Sleeper(sig, p, AboutToArm, false), ticks).value;
    if AlarmStuck(s) {
      assert AlarmNext(s, Program).None? && AlarmNext(s, Timer).None? && AlarmNext(s, Arrival).None?;
    }
  }

  /** Both outcomes occur. */
  lemma AlarmOutcomes(p: Proc, sig: nat)
    requires p.status == Running && p.pending == {} && Action(p, sig) == Handler && sig !in p.blocked
    ensures var r := AlarmRun(Sleeper(sig, p, AboutToArm, false), [Program, Timer, Arrival, Program]);
      r.Some? && AlarmStuck(r.value) && r.value.pc == InPause
    ensures var r := AlarmRun(Sleeper(sig, p, AboutToArm, false), [Program, Program, Timer, Arrival, Program]);
      r.Some? && AlarmStuck(r.value) && r.value.pc == Returned
  {
    var s0 := Sleeper(sig, p, AboutToArm, false);
    assert [Program][..0] == [] && [Program, Timer][..1] == [Program] &&
      [Program, Timer, Arrival][..2] == [Program, Timer]
      && [Program, Timer, Arrival, Program][..3] == [Program, Timer, Arrival];
    assert AlarmRun(s0, []) == Some(s0);
    var s1 := AlarmNext(s0, Program).value;
    assert AlarmRun(s0, [Program]) == Some(s1);
    var s2 := AlarmNext(s1, Timer).value;
    assert AlarmRun(s0, [Program, Timer]) == Some(s2);
    var s3 := AlarmNext(s2, Arrival).value;
    assert AlarmRun(s0, [Program, Timer, Arrival]) == Some(s3);
    assert [Program, Program][..1] == [Program] && [Program, Program, Timer][..2] == [Program, Program]
      && [Program, Program, Timer, Arrival][..3] == [Program, Program, Timer]
      && [Program, Program, Timer, Arrival, Program][..4] == [Program, Program, Timer, Arrival];
    var t2 := AlarmNext(s1, Program).value;
    assert AlarmRun(s0, [Program, Program]) == Some(t2);
    var t3 := AlarmNext(t2, Timer).value;
    assert AlarmRun(s0, [Program, Program, Timer]) == Some(t3);
    var t4 := AlarmNext(t3, Arrival).value;
    assert AlarmRun(s0, [Program, Program, Timer, Arrival]) == Some(t4);
  }
}
