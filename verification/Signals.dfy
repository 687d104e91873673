/** Signals of one process: mask, pending set, dispositions, delivery. */
module Signals {
  import opened Basics

  datatype Disposition = Default | Ignore | Handler

  /** sigsuspend remembers the mask to put back; pause waits with the mask as it is. */
  datatype Status = Running | Suspended(saved: set<nat>) | Paused | Killed(sig: nat)

  /** caught is the global the handlers write. */
  datatype Proc = Proc(blocked: set<nat>, pending: set<nat>, disp: map<nat, Disposition>, caught: nat, status: Status)

  function Action(p: Proc, sig: nat): Disposition {
    if sig in p.disp then p.disp[sig] else Default
  }

  /** kill: an ignored signal is discarded unless blocked; others become pending, once. */
  function Send(p: Proc, sig: nat): Proc {
    if p.status.Killed? || (Action(p, sig) == Ignore && sig !in p.blocked) then p
    else p.(pending := p.pending + {sig})
  }

  predicate Deliverable(p: Proc, sig: nat) {
    sig in p.pending && sig !in p.blocked && !p.status.Killed?
  }

  /** Delivery of one pending, unblocked signal.  Running a handler ends sigsuspend, which
      puts the old mask back, and pause. */
  function Deliver(p: Proc, sig: nat): Proc
    requires Deliverable(p, sig)
  {
    var q := p.(pending := p.pending - {sig});
    match Action(p, sig)
    case Ignore => q
    case Default => q.(status := Killed(sig))
    case Handler =>
      q.(caught := sig, status := Running, blocked := if p.status.Suspended? then p.status.saved else p.blocked)
  }

  function Mask(p: Proc, mask: set<nat>): Proc {
    p.(blocked := mask)
  }

  /** sigsuspend replaces the mask and waits in one step. */
  function Suspend(p: Proc, mask: set<nat>): Proc {
    p.(blocked := mask, status := Suspended(p.blocked))
  }

  /** fork: mask and dispositions are inherited, pending signals are not. */
  function Forked(p: Proc): Proc {
    p.(pending := {}, status := Running)
  }

  /* ---- nothing is lost, nothing is delivered twice ---- */

  datatype Event = Kill(sig: nat) | Delivery(sig: nat) | Block(sigs: set<nat>) | Unblock(sigs: set<nat>)

  function Step(p: Proc, e: Event): Option<Proc> {
    match e
    case Kill(sig) => Some(Send(p, sig))
    case Delivery(sig) => if Deliverable(p, sig) then Some(Deliver(p, sig)) else None
    case Block(sigs) => Some(Mask(p, p.blocked + sigs))
    case Unblock(sigs) => Some(Mask(p, p.blocked - sigs))
  }

  function Run(p: Proc, events: seq<Event>): Option<Proc>
    decreases |events|
  {
    if events == [] then Some(p)
    else match Run(p, events[..|events| - 1])
      case None => None
      case Some(q) => Step(q, events[|events| - 1])
  }

  /** Of the kills and deliveries of sig, the last is a kill. */
  predicate Outstanding(events: seq<Event>, sig: nat)
    decreases |events|
  {
    events != [] &&
    var e := events[|events| - 1];
    (e == Kill(sig) || (e != Delivery(sig) && Outstanding(events[..|events| - 1], sig)))
  }

  /** The signal last delivered to a handler; the initial value if none was. */
  function LastDelivered(events: seq<Event>, first: nat): nat
    decreases |events|
  {
    if events == [] then first
    else if events[|events| - 1].Delivery? then events[|events| - 1].sig
    else LastDelivered(events[..|events| - 1], first)
  }

  predicate Catches(p: Proc, e: Event) {
    e.Kill? || e.Delivery? ==> Action(p, e.sig) == Handler
  }

  /** In every run of a process that catches its signals, a signal is pending exactly when it
      has been sent since it was last delivered, however often and under whatever masks; and
      the global holds the signal delivered last. */
  lemma {:induction false} PendingExact(p: Proc, events: seq<Event>, sig: nat)
    requires p.status == Running && p.pending == {}
    requires forall i | 0 <= i < |events| :: Catches(p, events[i])
    requires Run(p, events).Some?
    ensures var q := Run(p, events).value;
      && (sig in q.pending <==> Outstanding(events, sig))
      && q.caught == LastDelivered(events, p.caught)
      && q.status == Running && q.disp == p.disp
    decreases |events|
  {
    if events != [] {
      var before := events[..|events| - 1];
      assert forall i | 0 <= i < |before| :: Catches(p, before[i]) by {
        assert forall i | 0 <= i < |before| :: before[i] == events[i];
      }
      PendingExact(p, before, sig);
      assert Catches(p, events[|events| - 1]);
    }
  }

  /** A block followed by n kills. */
  function BlockThenKill(sig: nat, n: nat): seq<Event> {
    if n == 0 then [Block({sig})] else BlockThenKill(sig, n - 1) + [Kill(sig)]
  }

  /** A blocked signal stays pending through any number of kills and is caught, once, when it
      is unblocked. */
  lemma {:induction false} BlockedUntilUnblocked(p: Proc, sig: nat, n: nat)
    requires p.status == Running && p.pending == {} && Action(p, sig) == Handler
    ensures Run(p, BlockThenKill(sig, n)) ==
      Some(p.(blocked := p.blocked + {sig}, pending := if n == 0 then {} else {sig}))
    ensures n > 0 ==>
      var q := p.(blocked := p.blocked + {sig}, pending := {sig});
      var u := Mask(q, q.blocked - {sig});
      !Deliverable(q, sig) && Deliverable(u, sig) && Deliver(u, sig).caught == sig && Deliver(u, sig).pending == {}
    decreases n
  {
    var events := BlockThenKill(sig, n);
    if n == 0 {
      assert events[..|events| - 1] == [];
    } else {
      assert events[..|events| - 1] == BlockThenKill(sig, n - 1);
      BlockedUntilUnblocked(p, sig, n - 1);
      assert events[|events| - 1] == Kill(sig);
      assert {} + {sig} == {sig} && {sig} + {sig} == {sig};
    }
  }

  /** What a kill of a running process comes to, disposition by disposition: a handler runs
      once, an ignored signal leaves no trace, the default action ends the process. */
  lemma {:induction false} KillByDisposition(p: Proc, sig: nat)
    requires p.status == Running && sig !in p.blocked && sig !in p.pending
    ensures sig in p.disp && p.disp[sig] == Handler ==> Run(p, [Kill(sig), Delivery(sig)]) == Some(p.(caught := sig))
    ensures sig in p.disp && p.disp[sig] == Ignore ==>
      Run(p, [Kill(sig)]) == Some(p) && Run(p, [Kill(sig), Delivery(sig)]) == None
    ensures (sig !in p.disp || p.disp[sig] == Default) ==>
      Run(p, [Kill(sig), Delivery(sig)]) == Some(p.(status := Killed(sig)))
  {
    assert [Kill(sig)][..0] == [] && [Kill(sig), Delivery(sig)][..1] == [Kill(sig)];
    assert Run(p, [Kill(sig)]) == Step(p, Kill(sig));
    assert p.pending + {sig} - {sig} == p.pending;
  }

  /** sigsuspend waits under its own mask and hands the old one back: a signal that mask lets
      through is caught once, and then the process is as it was before the call. */
  lemma SuspendGivesMaskBack(p: Proc, mask: set<nat>, sig: nat)
    requires p.status == Running && p.pending == {} && sig in p.disp && p.disp[sig] == Handler
    ensures var w := Send(Suspend(p, mask), sig);
      && (Deliverable(w, sig) <==> sig !in mask)
      && (sig !in mask ==> Deliver(w, sig) == p.(caught := sig))
  {
    assert {} + {sig} - {sig} == {};
  }

  /** A killed process stays killed: nothing is sent to it or delivered any more. */
  lemma KilledIsFinal(p: Proc, sig: nat)
    requires p.status.Killed?
    ensures Step(p, Kill(sig)) == Some(p) && Step(p, Delivery(sig)) == None
  {
  }

  /** While all signals sent are ignored, whatever the masks, the process runs on and the global
      the handlers write keeps its value. */
  lemma {:induction false} IgnoredLeavesNoTrace(p: Proc, events: seq<Event>)
    requires p.status == Running && Run(p, events).Some?
    requires forall i | 0 <= i < |events| && (events[i].Kill? || events[i].Delivery?) ::
      events[i].sig in p.disp && p.disp[events[i].sig] == Ignore
    ensures var q := Run(p, events).value; q.status == Running && q.caught == p.caught && q.disp == p.disp
    decreases |events|
  {
    if events != [] {
      var before := events[..|events| - 1];
      assert forall i | 0 <= i < |before| :: before[i] == events[i];
      IgnoredLeavesNoTrace(p, before);
    }
  }

  lemma SubsetIffNothingLeft(a: set<nat>, b: set<nat>)
    ensures a <= b <==> a - b == {}
  {
    if a - b == {} {
      forall x | x in a ensures x in b { assert x !in a - b; }
    }
  }

  /* ---- the calls, as the test program makes them on itself ---- */

  class Process {
    var p: Proc

    constructor ()
      ensures p == Proc({}, {}, map[], 0, Running)
    {
      p := Proc({}, {}, map[], 0, Running);
    }

    /** Every deliverable signal is delivered, in any order, before a call returns. */
    method DeliverAll()
      requires p.status == Running
      requires forall sig | sig in p.pending && sig !in p.blocked :: Action(p, sig) == Handler
      modifies this
      ensures p == old(p).(pending := old(p.pending) * old(p.blocked), caught := p.caught)
      ensures if old(p.pending) <= old(p.blocked) then p.caught == old(p.caught)
        else p.caught in old(p.pending) - old(p.blocked)
    {
      ghost var done: set<nat> := {};
      while exists sig :: sig in p.pending && sig !in p.blocked
        invariant done <= old(p.pending) - old(p.blocked)
        invariant p == old(p).(pending := old(p.pending) - done, caught := p.caught)
        invariant if done == {} then p.caught == old(p.caught) else p.caught in done
        decreases |p.pending|
      {
        var sig :| sig in p.pending && sig !in p.blocked;
        p := Deliver(p, sig);
        assert p.pending == old(p.pending) - (done + {sig});
        done := done + {sig};
      }
      assert p.pending == old(p.pending) * old(p.blocked);
    }

    /** kill of the process itself. */
    method Kill(sig: nat)
      requires p.status == Running && Action(p, sig) == Handler && p.pending <= p.blocked
      modifies this
      ensures p == if sig in old(p.blocked) then old(p).(pending := old(p.pending) + {sig}) else old(p).(caught := sig)
    {
      p := Send(p, sig);
      DeliverAll();
      assert sig !in old(p.blocked) ==> p.pending == old(p.pending);
      assert sig in old(p.blocked) ==> p.pending == old(p.pending) + {sig};
    }

    method Unblock(sigs: set<nat>)
      requires p.status == Running && p.pending <= p.blocked
      requires forall sig | sig in p.pending && sig in sigs :: Action(p, sig) == Handler
      modifies this
      ensures p == old(p).(blocked := old(p.blocked) - sigs, pending := old(p.pending) - sigs, caught := p.caught)
      ensures if old(p.pending) * sigs == {} then p.caught == old(p.caught) else p.caught in old(p.pending) * sigs
    {
      p := Mask(p, p.blocked - sigs);
      assert p.pending - p.blocked == p.pending * sigs;
      SubsetIffNothingLeft(p.pending, p.blocked);
      DeliverAll();
      assert p.pending == old(p.pending) - sigs;
    }

    /** Block, send, look, unblock: the handler runs exactly when the mask lets it. */
    method MaskTest(sig: nat, times: nat) returns (quiet: bool, waiting: bool, caughtAfter: bool)
      requires p.status == Running && p.pending <= p.blocked && sig !in p.pending && Action(p, sig) == Handler
      requires sig != 0 && times > 0
      modifies this
      ensures quiet && waiting && caughtAfter
      ensures p == old(p).(blocked := old(p.blocked) - {sig}, caught := sig)
    {
      p := Mask(p, p.blocked + {sig});
      p := p.(caught := 0);
      for i := 0 to times
        invariant p == old(p).(blocked := old(p.blocked) + {sig}, caught := 0, pending := p.pending)
        invariant p.pending == if i == 0 then old(p.pending) else old(p.pending) + {sig}
      {
        Kill(sig);
      }
      quiet := p.caught == 0;
      waiting := sig in p.pending;
      assert p.pending * {sig} == {sig};
      Unblock({sig});
      caughtAfter := p.caught == sig;
      assert old(p.blocked) + {sig} - {sig} == old(p.blocked) - {sig};
      assert old(p.pending) + {sig} - {sig} == old(p.pending);
    }
  }
}
