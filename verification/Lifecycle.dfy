/** Children: exit and wait in any order, and the stop/continue/exit reports. */
module Lifecycle {
  import opened Basics

  /** An unreaped child: still running, or exited with a code nobody has collected. */
  datatype Child = Alive | Zombie(code: nat)

  type Kids = map<nat, Child>

  /* ---- runs: children exit, the parent waits, in any order ---- */

  datatype Event = Exits(pid: nat, code: nat) | Reaps(pid: nat, code: nat)

  function Step(k: Kids, e: Event): Option<Kids> {
    match e
    case Exits(pid, code) => if pid in k && k[pid] == Alive then Some(k[pid := Zombie(code)]) else None
    case Reaps(pid, code) => if pid in k && k[pid] == Zombie(code) then Some(k - {pid}) else None
  }

  function Run(k: Kids, events: seq<Event>): Option<Kids>
    decreases |events|
  {
    if events == [] then Some(k)
    else match Step(k, events[0])
      case None => None
      case Some(k') => Run(k', events[1..])
  }

  /** The pids wait returned, in order. */
  function Reaped(events: seq<Event>): seq<nat> {
    if events == [] then []
    else if events[0].Reaps? then [events[0].pid] + Reaped(events[1..])
    else Reaped(events[1..])
  }

  ghost predicate Distinct(s: seq<nat>) {
    forall i, j | 0 <= i < j < |s| :: s[i] != s[j]
  }

  ghost function SetOf(s: seq<nat>): set<nat> {
    set x | x in s
  }

  lemma {:induction false} RunReaps(k: Kids, events: seq<Event>)
    requires Run(k, events).Some?
    ensures Distinct(Reaped(events))
    ensures forall x | x in Reaped(events) :: x in k
    ensures forall x :: x in Run(k, events).value <==> x in k && x !in Reaped(events)
    decreases |events|
  {
    if events != [] {
      RunReaps(Step(k, events[0]).value, events[1..]);
    }
  }

  lemma {:induction false} DistinctCount(s: seq<nat>)
    requires Distinct(s)
    ensures |SetOf(s)| == |s|
  {
    if s != [] {
      DistinctCount(s[1..]);
      assert SetOf(s) == {s[0]} + SetOf(s[1..]);
    }
  }

  /** In every run the pids returned by wait are distinct children, and exactly the others are
      left; so when as many waits as there were children have returned, every child has been
      reaped and the next wait has no child. */
  lemma ReapedExactlyOnce(k: Kids, events: seq<Event>)
    requires Run(k, events).Some?
    ensures Distinct(Reaped(events)) && SetOf(Reaped(events)) <= k.Keys
    ensures Run(k, events).value.Keys == k.Keys - SetOf(Reaped(events))
    ensures |Reaped(events)| == |k| <==> Run(k, events).value == map[]
  {
    hide Run, Reaped;
    RunReaps(k, events);
    DistinctCount(Reaped(events));
    var left := Run(k, events).value;
    assert left.Keys == k.Keys - SetOf(Reaped(events));
    assert |k.Keys - SetOf(Reaped(events))| == |k.Keys| - |SetOf(Reaped(events))|;
    assert |left.Keys| == |left| && |k.Keys| == |k|;
  }

  lemma SubsetSize(all: set<nat>, part: set<nat>)
    requires part <= all
    ensures |part| < |all| ==> all - part != {}
    ensures |part| == |all| ==> part == all
  {
    assert |all - part| == |all| - |part|;
    if |part| == |all| {
      forall x | x in all ensures x in part { assert x !in all - part; }
    }
  }

  /* ---- the reap loop ---- */

  datatype Waited = NoChild | Child(pid: nat, code: nat)

  /** The calling process's children as the kernel keeps them.  Children exit by themselves:
      each wait may find that any more of them have. */
  class Family {
    var kids: Kids
    const fate: nat -> nat            // the code a pid will exit with

    constructor (fate: nat -> nat)
      ensures kids == map[] && this.fate == fate
    {
      kids := map[];
      this.fate := fate;
    }

    ghost predicate Valid()
      reads this
    {
      forall p | p in kids :: kids[p] == Alive || kids[p] == Zombie(fate(p))
    }

    /** fork: some new pid. */
    method Fork() returns (pid: nat)
      requires Valid()
      modifies this
      ensures Valid() && pid !in old(kids) && pid > 0 && kids == old(kids)[pid := Alive]
    {
      pid := Fresh(kids);
      kids := kids[pid := Alive];
    }

    /** Any unused number. */
    static method Fresh(k: Kids) returns (pid: nat)
      ensures pid !in k && pid > 0
    {
      var guess: int := *;
      if guess > 0 && guess !in k { return guess; }
      pid := 1;
      var todo := k.Keys;
      while todo != {}
        invariant todo <= k.Keys && pid > 0
        invariant forall p | p in k && p !in todo :: p < pid
        decreases |todo|
      {
        var p :| p in todo;
        if p >= pid { pid := p + 1; }
        todo := todo - {p};
      }
    }

    /** waitpid(-1, ., 0): waits until some child is a zombie and reaps one, any one. */
    method WaitAny() returns (w: Waited)
      requires Valid()
      modifies this
      ensures Valid()
      ensures w.NoChild? <==> old(kids) == map[]
      ensures w.Child? ==> w.pid in old(kids) && w.code == fate(w.pid)
      ensures kids.Keys == if w.Child? then old(kids).Keys - {w.pid} else {}
    {
      if kids == map[] { return NoChild; }
      ExitSome();
      var pid: nat :| pid in kids && kids[pid].Zombie?;
      w := Child(pid, kids[pid].code);
      kids := kids - {pid};
    }

    /** Any number of children exit; at least one has when a wait returns. */
    method ExitSome()
      requires Valid() && kids != map[]
      modifies this
      ensures Valid() && kids.Keys == old(kids).Keys
      ensures exists p :: p in kids && kids[p].Zombie?
    {
      var first: nat :| first in kids;
      kids := kids[first := Zombie(fate(first))];
      var todo := kids.Keys;
      while todo != {}
        invariant todo <= kids.Keys && kids.Keys == old(kids).Keys && Valid()
        invariant first in kids && kids[first].Zombie?
        decreases |todo|
      {
        var p :| p in todo;
        var exits: bool := *;
        if exits { kids := kids[p := Zombie(fate(p))]; }
        todo := todo - {p};
      }
    }

    method ForkAll(children: array<nat>)
      requires Valid() && kids == map[]
      modifies this, children
      ensures Valid() && Distinct(children[..]) && kids.Keys == SetOf(children[..])
    {
      var i := 0;
      while i < children.Length
        invariant 0 <= i <= children.Length && Valid()
        invariant Distinct(children[..i]) && kids.Keys == SetOf(children[..i])
      {
        var pid := Fork();
        ghost var before := children[..i];
        children[i] := pid;
        assert children[..i + 1] == before + [pid];
        assert SetOf(before + [pid]) == SetOf(before) + {pid};
        i := i + 1;
      }
      assert children[..children.Length] == children[..];
    }

    ghost predicate Recorded(children: array<nat>, codes: array<int>, reaped: set<nat>)
      reads this, children, codes
    {
      codes.Length == children.Length &&
      forall j | 0 <= j < codes.Length :: codes[j] == if children[j] in reaped then fate(children[j]) else -1
    }

    /** One turn of the loop: one more child reaped and recorded. */
    method ReapOne(children: array<nat>, codes: array<int>, ghost reaped: set<nat>) returns (got: bool, ghost pid: nat)
      requires Valid() && Distinct(children[..]) && kids.Keys == SetOf(children[..]) - reaped && kids.Keys != {}
      requires Recorded(children, codes, reaped)
      modifies this, codes
      ensures Valid() && got && pid in old(kids)
      ensures kids.Keys == SetOf(children[..]) - (reaped + {pid})
      ensures Recorded(children, codes, reaped + {pid})
    {
      var w := WaitAny();
      got, pid := w.Child?, 0;
      if w.Child? {
        Match(children, codes, w.pid, w.code);
        pid := w.pid;
      }
    }

    /** Waits as often as there are children, matching each returned pid against them.  Every
        wait returns a child, and every slot ends with its own child's code, whatever the
        order of exits. */
    method ReapAll(children: array<nat>, codes: array<int>) returns (count: nat)
      requires Valid() && Distinct(children[..]) && kids.Keys == SetOf(children[..])
      requires codes.Length == children.Length && forall i | 0 <= i < codes.Length :: codes[i] == -1
      modifies this, codes
      ensures Valid() && kids == map[]
      ensures count == children.Length
      ensures forall i | 0 <= i < codes.Length :: codes[i] == fate(children[i])
    {
      ghost var all := SetOf(children[..]);
      ghost var reaped: set<nat> := {};
      DistinctCount(children[..]);
      count := 0;
      var i := 0;
      while i < children.Length
        invariant 0 <= i <= children.Length && Valid() && count == i
        invariant reaped <= all && |reaped| == i && kids.Keys == all - reaped && |all| == children.Length
        invariant Recorded(children, codes, reaped)
      {
        SubsetSize(all, reaped);
        var got, pid := ReapOne(children, codes, reaped);
        if got { count := count + 1; }
        reaped := reaped + {pid};
        i := i + 1;
      }
      SubsetSize(all, reaped);
      forall j | 0 <= j < codes.Length ensures children[j] in reaped {
        assert children[..][j] in all;
      }
    }

    /** The whole sequence for n children: afterwards the next wait has no child. */
    method ForkAndReap(n: nat) returns (children: array<nat>, codes: array<int>, count: nat, next: Waited)
      requires Valid() && kids == map[]
      modifies this
      ensures Valid() && kids == map[] && next == NoChild
      ensures children.Length == codes.Length == count == n && Distinct(children[..])
      ensures forall i | 0 <= i < n :: codes[i] == fate(children[i])
    {
      children := new nat[n];
      codes := new int[n](_ => -1);
      ForkAll(children);
      count := ReapAll(children, codes);
      next := WaitAny();
    }

    /** The inner loop: find the child, record its code, stop. */
    method Match(children: array<nat>, codes: array<int>, pid: nat, code: nat)
      requires children.Length == codes.Length && Distinct(children[..]) && pid in children[..]
      modifies codes
      ensures forall j | 0 <= j < codes.Length :: codes[j] == if children[j] == pid then code else old(codes[j])
    {
      var j := 0;
      while j < children.Length
        invariant 0 <= j <= children.Length
        invariant pid !in children[..j]
        invariant forall l | 0 <= l < codes.Length :: codes[l] == old(codes[l])
      {
        if children[j] == pid {
          codes[j] := code;
          assert forall l | 0 <= l < children.Length && l != j :: children[..][l] != children[..][j];
          break;
        }
        j := j + 1;
      }
    }
  }
}
