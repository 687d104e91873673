/** The fork-and-pipe exchange: the parent makes a pipe and forks; the parent closes its read
    end, writes a payload, closes its write end and waits; the child closes its write end,
    reads into a 256-byte buffer until a read returns 0, and exits 0 if it holds the
    payload.  Both run on the kernel model, in any interleaving and with any chunking of
    the reads.  `closes` says whether the child closes its own write end. */
module ForkPipe {
  import opened Basics
  import opened KernelState
  import opened Kernel
  import opened KernelProps
  import opened Descriptors

  const BUF_SIZE: nat := 256

  datatype ParentPc = CloseRead | WriteAll | CloseWrite | Wait | Reaped

  datatype ChildPc = CloseOwnWrite | ReadLoop | CloseOwnRead | Leave | Gone

  /** r, w: the descriptors pipe2 returned; the remaining fields name the kernel objects. */
  datatype Setup = Setup(
    parent: nat, child: nat, r: nat, w: nat, data: seq<byte>, closes: bool,
    ptab: nat, ctab: nat, rofd: nat, wofd: nat, pipe: nat)

  datatype World = World(k: State, p: ParentPc, c: ChildPc, got: seq<byte>, code: nat)

  datatype Side = Parent | Child

  /** One call of one process; None when it would block or the process is finished. */
  function Next(x: Setup, s: World, who: Side, chunk: nat): Option<World>
    requires Inv(s.k)
  {
    match who
    case Parent => ParentNext(x, s, chunk)
    case Child => ChildNext(x, s, chunk)
  }

  function ParentNext(x: Setup, s: World, chunk: nat): Option<World>
    requires Inv(s.k)
  {
    match s.p
    case CloseRead => Some(s.(k := Apply(s.k, x.parent, Close(x.r)).0, p := WriteAll))
    case WriteAll =>
      var (k, a) := Apply(s.k, x.parent, Write(x.w, x.data, chunk, false));
      if a == Block then None else Some(s.(k := k, p := CloseWrite))
    case CloseWrite => Some(s.(k := Apply(s.k, x.parent, Close(x.w)).0, p := Wait))
    case Wait => if s.c == Gone then Some(s.(p := Reaped)) else None
    case Reaped => None
  }

  function ChildNext(x: Setup, s: World, chunk: nat): Option<World>
    requires Inv(s.k)
  {
    match s.c
    case CloseOwnWrite =>
      Some(s.(k := if x.closes then Apply(s.k, x.child, Close(x.w)).0 else s.k, c := ReadLoop))
    case ReadLoop =>
      if |s.got| > BUF_SIZE then None
      else
        var (k, a) := Apply(s.k, x.child, Read(x.r, BUF_SIZE - |s.got|, chunk));
        if a == Block then None
        else if a.Data? && a.bytes != [] then Some(s.(k := k, got := s.got + a.bytes))
        else Some(s.(k := k, c := CloseOwnRead))
    case CloseOwnRead => Some(s.(k := Apply(s.k, x.child, Close(x.r)).0, c := Leave))
    case Leave =>
      Some(s.(k := Apply(s.k, x.child, Exit).0, c := Gone, code := if s.got == x.data then 0 else 1))
    case Gone => None
  }

  predicate ParentHasRead(s: World) { s.p == CloseRead }
  predicate ParentHasWrite(s: World) { s.p == CloseRead || s.p == WriteAll || s.p == CloseWrite }
  predicate ChildHasRead(s: World) { s.c == CloseOwnWrite || s.c == ReadLoop || s.c == CloseOwnRead }
  predicate ChildHasWrite(x: Setup, s: World) { s.c == CloseOwnWrite || (!x.closes && s.c != Gone) }

  /** The program counters say which descriptors lead to the two ends of the pipe. */
  ghost predicate Ends(x: Setup, s: World) {
    && x.ptab != x.ctab && x.r != x.w && x.rofd != x.wofd
    && (forall k | k in s.k.slots :: s.k.slots[k].ofd == x.rofd <==>
        (k == Key(x.ptab, x.r) && ParentHasRead(s)) || (k == Key(x.ctab, x.r) && ChildHasRead(s)))
    && (forall k | k in s.k.slots :: s.k.slots[k].ofd == x.wofd <==>
        (k == Key(x.ptab, x.w) && ParentHasWrite(s)) || (k == Key(x.ctab, x.w) && ChildHasWrite(x, s)))
    && (ParentHasRead(s) ==> Key(x.ptab, x.r) in s.k.slots)
    && (ParentHasWrite(s) ==> Key(x.ptab, x.w) in s.k.slots)
    && (ChildHasRead(s) ==> Key(x.ctab, x.r) in s.k.slots)
    && (ChildHasWrite(x, s) ==> Key(x.ctab, x.w) in s.k.slots)
  }

  /** No other description leads to the pipe. */
  ghost predicate OnlyEnds(x: Setup, s: World) {
    && x.pipe in s.k.pipes
    && (forall o | o in s.k.ofds :: s.k.ofds[o].target == ReadEnd(x.pipe) <==> o == x.rofd)
    && (forall o | o in s.k.ofds :: s.k.ofds[o].target == WriteEnd(x.pipe) <==> o == x.wofd)
    && (x.rofd in s.k.ofds ==> !s.k.ofds[x.rofd].nonblock)
    && (x.wofd in s.k.ofds ==> !s.k.ofds[x.wofd].nonblock)
  }

  ghost predicate Procs(x: Setup, s: World) {
    && x.parent != x.child
    && x.parent in s.k.procs && s.k.procs[x.parent] == x.ptab
    && (s.c != Gone ==> x.child in s.k.procs && s.k.procs[x.child] == x.ctab)
    && (s.c != Gone ==> x.ctab in s.k.users && s.k.users[x.ctab] == 1)
  }

  predicate Written(s: World) { s.p != CloseRead && s.p != WriteAll }

  /** Where the bytes are. */
  ghost predicate Bytes(x: Setup, s: World) {
    && x.pipe in s.k.pipes && |x.data| <= PIPE_BUF && |s.got| <= BUF_SIZE
    && (!Written(s) ==> s.k.pipes[x.pipe].buf == [] && s.got == [] && (s.c == CloseOwnWrite || s.c == ReadLoop))
    && (Written(s) ==> s.got + s.k.pipes[x.pipe].buf == x.data)
    && (s.c == CloseOwnWrite ==> s.got == [])
    && (s.c == CloseOwnRead || s.c == Leave || s.c == Gone ==> s.got == x.data[..Min(BUF_SIZE, |x.data|)])
    && (s.c == CloseOwnRead || s.c == Leave || s.c == Gone ==> x.closes || |x.data| >= BUF_SIZE)
    && (s.c == Gone ==> s.code == if |x.data| <= BUF_SIZE then 0 else 1)
    && (s.p == Reaped ==> s.c == Gone)
  }

  ghost predicate Good(x: Setup, s: World) {
    Inv(s.k) && Ends(x, s) && OnlyEnds(x, s) && Procs(x, s) && Bytes(x, s)
  }

  /* ---- what the kernel does in a good state ---- */

  lemma PresentIffReferred(k: State, o: nat)
    requires Inv(k)
    ensures o in k.ofds <==> exists key :: key in k.slots && k.slots[key].ofd == o
  {
    hide EndsOk, LocksOk, BuffersOk, TablesOk, TargetsOk;
    if o in k.ofds {
      assert |Refs(k.slots, o)| > 0;
      var key :| key in Refs(k.slots, o);
      assert key in k.slots && k.slots[key].ofd == o;
    }
  }

  lemma HolderCount(k: State, t: Target, id: nat)
    requires forall o | o in k.ofds :: k.ofds[o].target == t <==> o == id
    ensures |Holders(k.ofds, t)| == 0 <==> id !in k.ofds
  {
    assert Holders(k.ofds, t) == if id in k.ofds then {id} else {};
  }

  lemma EndCounts(k: State, p: nat)
    requires Inv(k) && p in k.pipes
    ensures k.pipes[p].readers == |Holders(k.ofds, ReadEnd(p))|
    ensures k.pipes[p].writers == |Holders(k.ofds, WriteEnd(p))|
    ensures |k.pipes[p].buf| <= k.pipes[p].cap && PIPE_BUF <= k.pipes[p].cap
  {
    hide RefsOk, LocksOk, TablesOk, TargetsOk, SlotsOk, Holders;
  }

  /** The kept counts, read off the program counters. */
  lemma WhoIsLeft(x: Setup, s: World)
    requires Good(x, s)
    ensures s.k.pipes[x.pipe].writers == 0 <==> !ParentHasWrite(s) && !ChildHasWrite(x, s)
    ensures s.k.pipes[x.pipe].readers == 0 <==> !ParentHasRead(s) && !ChildHasRead(s)
  {
    hide Inv, Holders, Bytes;
    EndCounts(s.k, x.pipe);
    HolderCount(s.k, WriteEnd(x.pipe), x.wofd);
    HolderCount(s.k, ReadEnd(x.pipe), x.rofd);
    PresentIffReferred(s.k, x.wofd);
    PresentIffReferred(s.k, x.rofd);
  }

  lemma CloseEffect(k: State, pid: nat, fd: nat)
    requires Inv(k) && pid in k.procs && Key(k.procs[pid], fd) in k.slots
    ensures var r := Apply(k, pid, Close(fd)).0;
      Inv(r) && Keeps(k, r) && r.ofds.Keys <= k.ofds.Keys && r.slots == k.slots - {Key(k.procs[pid], fd)} &&
      r.procs == k.procs && r.users == k.users
  {
    hide Inv, Keeps, Remove;
    SlotFacts(k, Key(k.procs[pid], fd));
    RemoveKeeps(k, Key(k.procs[pid], fd));
    RemoveInv(k, Key(k.procs[pid], fd));
  }

  lemma ExitEffect(k: State, pid: nat)
    requires Inv(k) && pid in k.procs && k.procs[pid] in k.users && k.users[k.procs[pid]] == 1
    ensures var r := Apply(k, pid, Exit).0;
      Inv(r) && Keeps(k, r) && r.ofds.Keys <= k.ofds.Keys &&
      (forall key :: key in r.slots <==> key in k.slots && key.tab != k.procs[pid]) &&
      (forall key | key in r.slots :: r.slots[key] == k.slots[key]) &&
      r.procs == k.procs - {pid}
  {
    hide Inv, Keeps;
    ExitInv(k, pid);
    CloseBelowSpec(k, k.procs[pid], OPEN_MAX, true);
    KeepsCore(k, CloseBelow(k, k.procs[pid], OPEN_MAX, true), Apply(k, pid, Exit).0);
    forall key | key in k.slots ensures key.fd < OPEN_MAX { SlotFacts(k, key); }
  }

  lemma KeepsCore(a: State, b: State, c: State)
    requires Keeps(a, b) && c.ofds == b.ofds && c.pipes == b.pipes
    ensures Keeps(a, c)
  {
  }

  lemma ReadEffect(x: Setup, s: World, n: nat, chunk: nat)
    requires Good(x, s) && ChildHasRead(s)
    ensures var (r, a) := Apply(s.k, x.child, Read(x.r, n, chunk));
      var buf := s.k.pipes[x.pipe].buf;
      && Inv(r)
      && (n == 0 ==> a == Data([]) && r == s.k)
      && (n > 0 && buf != [] ==>
        a.Data? && 1 <= |a.bytes| <= n && a.bytes <= buf && r == WithBuf(s.k, x.pipe, buf[|a.bytes|..]))
      && (n > 0 && buf == [] ==> r == s.k && a == if ParentHasWrite(s) || ChildHasWrite(x, s) then Block else Data([]))
  {
    hide Inv, Apply, Bytes;
    WhoIsLeft(x, s);
    PresentIffReferred(s.k, x.rofd);
    ApplyInv(s.k, x.child, Read(x.r, n, chunk));
    OnOpenDescriptor(s.k, x.child, Read(x.r, n, chunk), x.rofd);
  }

  lemma WriteEffect(x: Setup, s: World, chunk: nat)
    requires Good(x, s) && s.p == WriteAll
    ensures var (r, a) := Apply(s.k, x.parent, Write(x.w, x.data, chunk, false));
      Inv(r) && a == Val(|x.data|) && r == if x.data == [] then s.k else WithBuf(s.k, x.pipe, x.data)
  {
    hide Inv, Apply;
    WhoIsLeft(x, s);
    PresentIffReferred(s.k, x.wofd);
    EndCounts(s.k, x.pipe);
    ApplyInv(s.k, x.parent, Write(x.w, x.data, chunk, false));
    OnOpenDescriptor(s.k, x.parent, Write(x.w, x.data, chunk, false), x.wofd);
    assert s.k.pipes[x.pipe].buf + x.data == x.data;
  }

  /* ---- every step keeps the invariant ---- */

  /** Descriptors only go away, as the counters say; the pipe itself is untouched. */
  lemma AfterClose(x: Setup, s: World, s': World)
    requires OnlyEnds(x, s) && Keeps(s.k, s'.k) && s'.k.ofds.Keys <= s.k.ofds.Keys
    ensures OnlyEnds(x, s') && s'.k.pipes[x.pipe].buf == s.k.pipes[x.pipe].buf
  {
  }

  lemma WriteKeepsGood(x: Setup, s: World, chunk: nat)
    requires Good(x, s) && s.p == WriteAll
    ensures ParentNext(x, s, chunk).Some? && Good(x, ParentNext(x, s, chunk).value)
  {
    hide Inv, Apply;
    WriteEffect(x, s, chunk);
  }

  lemma ParentKeepsGood(x: Setup, s: World, chunk: nat)
    requires Good(x, s) && ParentNext(x, s, chunk).Some?
    ensures Good(x, ParentNext(x, s, chunk).value)
  {
    hide Inv, Keeps, Apply;
    var s' := ParentNext(x, s, chunk).value;
    if s.p == CloseRead {
      CloseEffect(s.k, x.parent, x.r);
      AfterClose(x, s, s');
    } else if s.p == WriteAll {
      WriteKeepsGood(x, s, chunk);
    } else if s.p == CloseWrite {
      CloseEffect(s.k, x.parent, x.w);
      AfterClose(x, s, s');
    }
  }

  /** A transfer touches the buffer only. */
  lemma BufKeeps(x: Setup, s: World, s': World, buf: seq<byte>)
    requires Ends(x, s) && OnlyEnds(x, s) && Procs(x, s) && s'.k == WithBuf(s.k, x.pipe, buf) && s'.p == s.p &&
      s'.c == s.c
    ensures Ends(x, s') && OnlyEnds(x, s') && Procs(x, s') && s'.k.pipes[x.pipe].buf == buf
  {
  }

  lemma ReadKeepsGood(x: Setup, s: World, chunk: nat)
    requires Good(x, s) && s.c == ReadLoop && ChildNext(x, s, chunk).Some?
    ensures Good(x, ChildNext(x, s, chunk).value)
  {
    hide Inv, Keeps, Apply, Ends, OnlyEnds, WithBuf, Bytes;
    var s' := ChildNext(x, s, chunk).value;
    BytesBound(x, s);
    ReadEffect(x, s, BUF_SIZE - |s.got|, chunk);
    if s'.c == ReadLoop {
      var bytes := s'.got[|s.got|..];
      BufKeeps(x, s, s', s.k.pipes[x.pipe].buf[|bytes|..]);
      BytesAfterRead(x, s, s', bytes);
    } else {
      StopKeeps(x, s, s');
      BytesAtEof(x, s, s');
    }
  }

  lemma BytesBound(x: Setup, s: World)
    requires Bytes(x, s)
    ensures |s.got| <= BUF_SIZE && x.pipe in s.k.pipes
  {
  }

  lemma BytesAfterRead(x: Setup, s: World, s': World, bytes: seq<byte>)
    requires Bytes(x, s) && s.c == ReadLoop && s'.c == s.c && s'.p == s.p && s'.got == s.got + bytes
    requires bytes != [] && |s.got| + |bytes| <= BUF_SIZE && bytes <= s.k.pipes[x.pipe].buf
    requires x.pipe in s'.k.pipes && s'.k.pipes[x.pipe].buf == s.k.pipes[x.pipe].buf[|bytes|..]
    ensures Bytes(x, s')
  {
    var buf := s.k.pipes[x.pipe].buf;
    assert buf == bytes + buf[|bytes|..];
    assert s.got + (bytes + buf[|bytes|..]) == (s.got + bytes) + buf[|bytes|..];
  }

  lemma BytesAtEof(x: Setup, s: World, s': World)
    requires Bytes(x, s) && s.c == ReadLoop && s' == s.(c := CloseOwnRead)
    requires |s.got| == BUF_SIZE || (s.k.pipes[x.pipe].buf == [] && !ParentHasWrite(s) && !ChildHasWrite(x, s))
    ensures Bytes(x, s')
  {
    var buf := s.k.pipes[x.pipe].buf;
    assert Written(s);
    assert |s.got| + |buf| == |x.data|;
    assert x.data[..|s.got|] == s.got;
  }

  lemma StopKeeps(x: Setup, s: World, s': World)
    requires Ends(x, s) && OnlyEnds(x, s) && s.c == ReadLoop && s' == s.(c := CloseOwnRead)
    ensures Ends(x, s') && OnlyEnds(x, s')
  {
  }

  lemma LeaveKeepsGood(x: Setup, s: World, chunk: nat)
    requires Good(x, s) && s.c == Leave
    ensures Good(x, ChildNext(x, s, chunk).value)
  {
    hide Inv, Keeps, Apply;
    ExitEffect(s.k, x.child);
    AfterClose(x, s, ChildNext(x, s, chunk).value);
  }

  lemma ChildCloseKeepsGood(x: Setup, s: World, chunk: nat)
    requires Good(x, s) && (s.c == CloseOwnWrite || s.c == CloseOwnRead)
    ensures Good(x, ChildNext(x, s, chunk).value)
  {
    hide Inv, Keeps, Apply;
    var s' := ChildNext(x, s, chunk).value;
    if s.c == CloseOwnWrite && x.closes {
      CloseEffect(s.k, x.child, x.w);
      AfterClose(x, s, s');
    } else if s.c == CloseOwnRead {
      CloseEffect(s.k, x.child, x.r);
      AfterClose(x, s, s');
    }
  }

  /** Calls still to be made, at most: every read that returns data shortens what is left. */
  function StepsLeft(x: Setup, s: World): nat {
    (match s.p case CloseRead => 4 case WriteAll => 3 case CloseWrite => 2 case Wait => 1 case Reaped => 0) +
    (match s.c
     case CloseOwnWrite => |x.data| + 4
     case ReadLoop => (if |s.got| <= |x.data| then |x.data| - |s.got| else 0) + 3
     case CloseOwnRead => 2 case Leave => 1 case Gone => 0)
  }

  lemma NextKeepsGood(x: Setup, s: World, who: Side, chunk: nat)
    requires Good(x, s) && Next(x, s, who, chunk).Some?
    ensures Good(x, Next(x, s, who, chunk).value)
    ensures StepsLeft(x, Next(x, s, who, chunk).value) < StepsLeft(x, s)
  {
    hide Inv, Keeps, Apply, Ends, OnlyEnds, Procs;
    if who == Parent {
      ParentKeepsGood(x, s, chunk);
    } else if s.c == ReadLoop {
      ReadKeepsGood(x, s, chunk);
      ReadEffect(x, s, BUF_SIZE - |s.got|, chunk);
      var s' := ChildNext(x, s, chunk).value;
      assert |s'.got| <= |x.data|;
    } else if s.c == Leave {
      LeaveKeepsGood(x, s, chunk);
    } else {
      ChildCloseKeepsGood(x, s, chunk);
    }
  }

  /** No process can make a call. */
  ghost predicate Stuck(x: Setup, s: World)
    requires Inv(s.k)
  {
    forall who: Side, chunk: nat :: Next(x, s, who, chunk).None?
  }

  /** Where every run must end. */
  predicate Finished(x: Setup, s: World) {
    s.p == Reaped && s.c == Gone && s.got == x.data[..Min(BUF_SIZE, |x.data|)] &&
    s.code == if |x.data| <= BUF_SIZE then 0 else 1
  }

  predicate WaitingForEver(x: Setup, s: World) {
    s.p == Wait && s.c == ReadLoop && s.got == x.data
  }

  lemma StuckStates(x: Setup, s: World)
    requires Good(x, s)
    ensures Stuck(x, s) <==>
      if x.closes || |x.data| >= BUF_SIZE then Finished(x, s) else WaitingForEver(x, s)
  {
    hide Inv, Keeps, Apply, Ends, OnlyEnds, Procs;
    if s.p == WriteAll { WriteEffect(x, s, 0); }
    if s.c == ReadLoop {
      forall chunk: nat
        ensures Next(x, s, Child, chunk).None? <==>
          |s.got| < BUF_SIZE && s.k.pipes[x.pipe].buf == [] && (ParentHasWrite(s) || ChildHasWrite(x, s))
      {
        ReadEffect(x, s, BUF_SIZE - |s.got|, chunk);
      }
    }
    assert Stuck(x, s) ==> Next(x, s, Parent, 0).None? && Next(x, s, Child, 0).None?;
  }

  /* ---- whole runs ---- */

  lemma NextInv(x: Setup, s: World, who: Side, chunk: nat)
    requires Inv(s.k) && Next(x, s, who, chunk).Some?
    ensures Inv(Next(x, s, who, chunk).value.k)
  {
    hide Inv, Apply;
    forall pid: nat, c: Call ensures Inv(Apply(s.k, pid, c).0) { ApplyInv(s.k, pid, c); }
  }

  /** The state after a schedule; None if it schedules a process that cannot move. */
  function Run(x: Setup, s: World, schedule: seq<(Side, nat)>): (r: Option<World>)
    requires Inv(s.k)
    ensures r.Some? ==> Inv(r.value.k)
    decreases |schedule|
  {
    if schedule == [] then Some(s)
    else
      var t := Next(x, s, schedule[0].0, schedule[0].1);
      if t.None? then None
      else
        NextInv(x, s, schedule[0].0, schedule[0].1);
        Run(x, t.value, schedule[1..])
  }

  lemma {:induction false} RunGood(x: Setup, s: World, schedule: seq<(Side, nat)>)
    requires Good(x, s) && Run(x, s, schedule).Some?
    ensures Good(x, Run(x, s, schedule).value)
    ensures StepsLeft(x, Run(x, s, schedule).value) + |schedule| <= StepsLeft(x, s)
    decreases |schedule|
  {
    hide Inv, Next;
    if schedule != [] {
      NextKeepsGood(x, s, schedule[0].0, schedule[0].1);
      RunGood(x, Next(x, s, schedule[0].0, schedule[0].1).value, schedule[1..]);
    }
  }

  /** The kernel state and the names of its objects after pipe2 and fork. */
  function Start(k: State, parent: nat, child: nat, cap: nat, data: seq<byte>, closes: bool):
    (r: Option<(Setup, World)>)
    requires Inv(k)
    ensures r.Some? ==> Inv(r.value.1.k)
  {
    var (k1, a) := Apply(k, parent, Pipe2(cap, false, false));
    ApplyInv(k, parent, Pipe2(cap, false, false));
    if !a.Two? || child in k1.procs || parent !in k1.procs then None
    else
      ApplyInv(k1, parent, Fork(child));
      var k2 := Apply(k1, parent, Fork(child)).0;
      Some((Setup(parent, child, a.r, a.w, data, closes, k.procs[parent], k1.next, k.next + 1, k.next + 2, k.next),
            World(k2, CloseRead, CloseOwnWrite, [], 0)))
  }

  lemma Fresh(k: State)
    requires Inv(k)
    ensures forall key | key in k.slots :: k.slots[key].ofd < k.next
    ensures forall o | o in k.ofds ::
      o < k.next && (k.ofds[o].target.ReadEnd? || k.ofds[o].target.WriteEnd? ==> k.ofds[o].target.pipe < k.next)
    ensures forall t | t in k.users :: t < k.next
  {
    hide RefsOk, EndsOk, LocksOk, BuffersOk, TablesOk;
  }

  lemma StartIsGood(k: State, parent: nat, child: nat, cap: nat, data: seq<byte>, closes: bool)
    requires Inv(k) && |data| <= PIPE_BUF && Start(k, parent, child, cap, data, closes).Some?
    ensures Good(Start(k, parent, child, cap, data, closes).value.0, Start(k, parent, child, cap, data, closes).value.1)
  {
    hide Inv, Apply, Keeps, Copied, Ends, OnlyEnds;
    var (k1, a) := Apply(k, parent, Pipe2(cap, false, false));
    ApplyInv(k, parent, Pipe2(cap, false, false));
    KnownCaller(k, parent, cap);
    Pipe2Effect(k, parent, cap, false, false);
    Fresh(k);
    ApplyInv(k1, parent, Fork(child));
    ForkEffect(k1, parent, child);
    var (x, s) := Start(k, parent, child, cap, data, closes).value;
    EndsAtStart(k, k1, x, s);
    OnlyEndsAtStart(k, k1, x, s);
    SameBuffer(k1, s.k, x.pipe);
  }

  lemma SameBuffer(a: State, b: State, p: nat)
    requires Keeps(a, b) && p in a.pipes
    ensures p in b.pipes && b.pipes[p].buf == a.pipes[p].buf
  {
  }

  lemma EndsAtStart(k: State, k1: State, x: Setup, s: World)
    requires s.p == CloseRead && s.c == CloseOwnWrite && x.ptab < x.ctab && x.r != x.w && x.rofd == k.next + 1 &&
      x.wofd == k.next + 2
    requires forall key | key in k.slots :: k.slots[key].ofd < k.next
    requires forall key | key in k1.slots :: key.tab != x.ctab
    requires Key(x.ptab, x.r) !in k.slots && Key(x.ptab, x.w) !in k.slots
    requires k1.slots == k.slots[Key(x.ptab, x.r) := Slot(x.rofd, false)][Key(x.ptab, x.w) := Slot(x.wofd, false)]
    requires Copied(k1.slots, s.k.slots, x.ptab, x.ctab, OPEN_MAX) && forall key | key in k1.slots :: key.fd < OPEN_MAX
    ensures Ends(x, s)
  {
  }

  lemma OnlyEndsAtStart(k: State, k1: State, x: Setup, s: World)
    requires x.pipe == k.next && x.rofd == k.next + 1 && x.wofd == k.next + 2 && x.pipe in k1.pipes && Keeps(k1, s.k)
    requires forall o | o in k.ofds ::
      o < k.next && (k.ofds[o].target.ReadEnd? || k.ofds[o].target.WriteEnd? ==> k.ofds[o].target.pipe < k.next)
    requires k1.ofds == k.ofds[x.rofd := Ofd(ReadEnd(x.pipe), 1, RdOnly, false, false, 0, Unlocked)]
                              [x.wofd := Ofd(WriteEnd(x.pipe), 1, WrOnly, false, false, 0, Unlocked)]
    requires s.k.ofds.Keys == k1.ofds.Keys
    ensures OnlyEnds(x, s)
  {
    forall o | o in s.k.ofds
      ensures s.k.ofds[o].target == k1.ofds[o].target && s.k.ofds[o].nonblock == k1.ofds[o].nonblock {}
  }

  lemma KnownCaller(k: State, parent: nat, cap: nat)
    requires Inv(k) && Apply(k, parent, Pipe2(cap, false, false)).1.Two?
    ensures parent in k.procs
  {
    hide Inv;
  }

  /** The exchange, for every payload written atomically, every interleaving and every split
      into reads.  With the child closing its own write end, a run that cannot go on has
      ended: the child gone with exit code 0 exactly when the payload fits its buffer (and
      then holding exactly the payload), the parent having reaped it; no run is longer than
      |data| + 8 calls.  Without that close, this still holds for payloads of 256 bytes or
      more, but for every shorter one every run ends with the child blocked for ever in read,
      holding the whole payload, and the parent waiting for it. */
  lemma {:induction false} Exchange(k: State, parent: nat, child: nat, cap: nat, data: seq<byte>, closes: bool,
      schedule: seq<(Side, nat)>)
    requires Inv(k) && |data| <= PIPE_BUF && Start(k, parent, child, cap, data, closes).Some?
    requires Run(Start(k, parent, child, cap, data, closes).value.0,
      Start(k, parent, child, cap, data, closes).value.1, schedule).Some?
    ensures var (x, s0) := Start(k, parent, child, cap, data, closes).value;
      var s := Run(x, s0, schedule).value;
      && Good(x, s)
      && |schedule| <= |data| + 8
      && s.got <= data
      && (s.c == Gone ==> (s.code == 0 <==> |data| <= BUF_SIZE) && (s.code == 0 ==> s.got == data))
      && (Stuck(x, s) <==> if closes || |data| >= BUF_SIZE then Finished(x, s) else WaitingForEver(x, s))
  {
    hide Inv, Start, Run;
    var (x, s0) := Start(k, parent, child, cap, data, closes).value;
    StartIs(k, parent, child, cap, data, closes);
    StartIsGood(k, parent, child, cap, data, closes);
    RunGood(x, s0, schedule);
    StuckStates(x, Run(x, s0, schedule).value);
  }

  lemma StartIs(k: State, parent: nat, child: nat, cap: nat, data: seq<byte>, closes: bool)
    requires Inv(k) && Start(k, parent, child, cap, data, closes).Some?
    ensures var (x, s) := Start(k, parent, child, cap, data, closes).value;
      x.data == data && x.closes == closes && s.p == CloseRead && s.c == CloseOwnWrite && s.got == []
  {
    hide Inv;
  }

  /** The exchange can start wherever two descriptors are free and the child's number is new. */
  lemma StartExists(k: State, parent: nat, child: nat, cap: nat, data: seq<byte>, closes: bool, f: nat, g: nat)
    requires Inv(k) && parent in k.procs && child !in k.procs && f < g < OPEN_MAX
    requires Key(k.procs[parent], f) !in k.slots && Key(k.procs[parent], g) !in k.slots
    ensures Start(k, parent, child, cap, data, closes).Some?
  {
    hide Inv;
    var tab := k.procs[parent];
    var r := LowestFree(k, tab, 0);
    assert r <= f;
    var s1 := Create(NewPipe(k, cap), Key(tab, r), ReadEnd(k.next), RdOnly, false, false, false);
    assert LowestFree(s1, tab, 0) <= g;
  }

  /** Every good state leads, by some schedule, to one where nobody can move. */
  lemma {:induction false} CanGetStuck(x: Setup, s: World) returns (schedule: seq<(Side, nat)>)
    requires Good(x, s)
    ensures Run(x, s, schedule).Some? && Stuck(x, Run(x, s, schedule).value)
    decreases StepsLeft(x, s)
  {
    hide Inv, Next, Ends, OnlyEnds, Procs, Bytes;
    schedule := [];
    if !Stuck(x, s) {
      var who: Side, chunk: nat :| Next(x, s, who, chunk).Some?;
      NextKeepsGood(x, s, who, chunk);
      var rest := CanGetStuck(x, Next(x, s, who, chunk).value);
      schedule := [(who, chunk)] + rest;
      assert schedule[1..] == rest;
    }
  }
}
