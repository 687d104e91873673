/** FIFO conservation: the bytes of every pipe, over whole runs of the kernel model. */
module KernelRuns {
  import opened Basics
  import opened FlatFile
  import opened KernelState
  import opened Kernel
  import opened KernelFrame
  import opened KernelProps

  function Contents(s: State, p: nat): seq<byte> {
    if p in s.pipes then s.pipes[p].buf else []
  }

  predicate ActsOn(s: State, pid: nat, c: Call, t: Target) {
    var o := Used(s, pid, c);
    o.Some? && o.value in s.ofds && s.ofds[o.value].target == t
  }

  /** The bytes a call takes out of pipe p and gives to its caller. */
  function TakenBy(s: State, pid: nat, c: Call, p: nat): seq<byte>
    requires Inv(s)
  {
    if c.Read? && ActsOn(s, pid, c, ReadEnd(p)) && Apply(s, pid, c).1.Data? then Apply(s, pid, c).1.bytes else []
  }

  /** The bytes of its caller a call reports written to pipe p. */
  function GivenBy(s: State, pid: nat, c: Call, p: nat): seq<byte>
    requires Inv(s)
  {
    if c.Write? && ActsOn(s, pid, c, WriteEnd(p)) && Apply(s, pid, c).1.Val? && Apply(s, pid, c).1.n <= |c.data|
    then c.data[..Apply(s, pid, c).1.n] else []
  }

  lemma ReadMoves(s: State, o: nat, n: nat, k: nat, p: nat)
    requires Inv(s) && o in s.ofds
    ensures var (r, a) := DoRead(s, o, n, k);
      && (s.ofds[o].target == ReadEnd(p) && a.Data? ==> Contents(s, p) == a.bytes + Contents(r, p))
      && (s.ofds[o].target != ReadEnd(p) || !a.Data? ==> Contents(r, p) == Contents(s, p))
  {
    hide Inv;
    TargetFacts(s, o);
  }

  lemma WriteMoves(s: State, o: nat, data: seq<byte>, k: nat, rest: bool, p: nat)
    requires Inv(s) && o in s.ofds
    ensures var (r, a) := DoWrite(s, o, data, k, rest);
      && (a.Val? ==> a.n <= |data|)
      && (s.ofds[o].target == WriteEnd(p) && a.Val? ==> Contents(r, p) == Contents(s, p) + data[..a.n])
      && (s.ofds[o].target != WriteEnd(p) || !a.Val? ==> Contents(r, p) == Contents(s, p))
  {
    hide Inv, Overwrite;
    TargetFacts(s, o);
    BufferFits(s, s.ofds[o].target);
  }

  /** One call of one process: what was in the pipe followed by what it gives is what it
      takes followed by what is left. */
  lemma StepConserves(s: State, pid: nat, c: Call, p: nat)
    requires Inv(s)
    ensures Contents(s, p) + GivenBy(s, pid, c, p) == TakenBy(s, pid, c, p) + Contents(Apply(s, pid, c).0, p)
  {
    hide Inv, Apply, DoRead, DoWrite, Calm, Contents;
    if Used(s, pid, c).Some? {
      var o := Used(s, pid, c).value;
      UsedStep(s, pid, c, o);
      if c.Read? {
        OnOpenDescriptor(s, pid, c, o);
        ReadMoves(s, o, c.n, c.k, p);
      } else if c.Write? {
        OnOpenDescriptor(s, pid, c, o);
        WriteMoves(s, o, c.data, c.k, c.rest, p);
      } else {
        SameContents(s, Apply(s, pid, c).0, p);
      }
    } else {
      CalmStep(s, pid, c);
      CalmContents(s, Apply(s, pid, c).0, Opened(c), p);
    }
  }

  lemma CalmContents(s: State, r: State, file: Option<nat>, p: nat)
    requires Calm(s, r, file)
    ensures Contents(r, p) == Contents(s, p)
  {
  }

  lemma SameContents(s: State, r: State, p: nat)
    requires r.pipes == s.pipes
    ensures Contents(r, p) == Contents(s, p)
  {
  }

  function Taken(s: State, calls: seq<(nat, Call)>, p: nat): seq<byte>
    requires Inv(s)
    decreases |calls|
  {
    if calls == [] then []
    else
      ApplyInv(s, calls[0].0, calls[0].1);
      TakenBy(s, calls[0].0, calls[0].1, p) + Taken(Apply(s, calls[0].0, calls[0].1).0, calls[1..], p)
  }

  function Given(s: State, calls: seq<(nat, Call)>, p: nat): seq<byte>
    requires Inv(s)
    decreases |calls|
  {
    if calls == [] then []
    else
      ApplyInv(s, calls[0].0, calls[0].1);
      GivenBy(s, calls[0].0, calls[0].1, p) + Given(Apply(s, calls[0].0, calls[0].1).0, calls[1..], p)
  }

  lemma {:induction false} RunConserves(s: State, calls: seq<(nat, Call)>, p: nat)
    requires Inv(s)
    ensures Contents(s, p) + Given(s, calls, p) == Taken(s, calls, p) + Contents(Run(s, calls), p)
    decreases |calls|
  {
    hide Inv, Apply, TakenBy, GivenBy, Contents;
    if calls != [] {
      var (pid, c) := calls[0];
      ApplyInv(s, pid, c);
      var s' := Apply(s, pid, c).0;
      StepConserves(s, pid, c, p);
      RunConserves(s', calls[1..], p);
      calc {
        Contents(s, p) + Given(s, calls, p);
        Contents(s, p) + (GivenBy(s, pid, c, p) + Given(s', calls[1..], p));
        (Contents(s, p) + GivenBy(s, pid, c, p)) + Given(s', calls[1..], p);
        (TakenBy(s, pid, c, p) + Contents(s', p)) + Given(s', calls[1..], p);
        TakenBy(s, pid, c, p) + (Contents(s', p) + Given(s', calls[1..], p));
        TakenBy(s, pid, c, p) + (Taken(s', calls[1..], p) + Contents(Run(s, calls), p));
        Taken(s, calls, p) + Contents(Run(s, calls), p);
      }
    }
  }

  /** FIFO conservation in every run, with any number of readers and writers: the bytes read
      so far followed by the bytes buffered are the bytes accepted so far, in order, and
      the buffer is within capacity. */
  lemma FifoConservation(calls: seq<(nat, Call)>, p: nat)
    ensures Inv(BOOT)
    ensures Taken(BOOT, calls, p) + Contents(Run(BOOT, calls), p) == Given(BOOT, calls, p)
    ensures p in Run(BOOT, calls).pipes ==> |Contents(Run(BOOT, calls), p)| <= Run(BOOT, calls).pipes[p].cap
  {
    BootInv();
    hide RefsOk, EndsOk, LocksOk, TargetsOk, TablesOk, SlotsOk, Run;
    RunConserves(BOOT, calls, p);
    assert Contents(BOOT, p) == [];
  }
}
