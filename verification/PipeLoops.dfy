/** The single-process pipe tests, step by step on the kernel model: end of file, broken pipe,
    the loop that fills a non-blocking pipe and the one that writes and drains a big buffer. */
module PipeLoops {
  import opened Basics
  import opened KernelState
  import opened Kernel
  import opened KernelProps
  import opened KernelFrame
  import opened KernelOwnership
  import opened Descriptors
  import opened Enclosure

  /** The kernel as a process sees it: each call changes it in place. */
  class Machine {
    var s: State

    constructor ()
      ensures Inv(s) && s == BOOT
    {
      BootInv();
      s := BOOT;
    }

    method Call(pid: nat, c: Kernel.Call) returns (a: Result)
      requires Inv(s)
      modifies this
      ensures Inv(s) && s == Apply(old(s), pid, c).0 && a == Apply(old(s), pid, c).1
    {
      ApplyInv(s, pid, c);
      var r := Apply(s, pid, c);
      s := r.0;
      a := r.1;
    }
  }

  /** Descriptor fd of pid is the end t of pipe p. */
  ghost predicate IsEnd(s: State, pid: nat, fd: nat, o: nat, t: Target, p: nat) {
    Inv(s) && Reaches(s, pid, fd, o) && o in s.ofds && s.ofds[o].target == t && p in s.pipes &&
      (t == ReadEnd(p) || t == WriteEnd(p))
  }

  /** Everything a write to a pipe with a reader can do. */
  lemma WriteToPipe(s: State, pid: nat, fd: nat, o: nat, p: nat, data: seq<byte>, k: nat, rest: bool)
    requires IsEnd(s, pid, fd, o, WriteEnd(p), p) && s.pipes[p].readers > 0 && data != []
    ensures |s.pipes[p].buf| <= s.pipes[p].cap && PIPE_BUF <= s.pipes[p].cap
    ensures var (r, a) := Apply(s, pid, Write(fd, data, k, rest));
      var buf, room := s.pipes[p].buf, s.pipes[p].cap - |s.pipes[p].buf|;
      if |data| <= room then r == WithBuf(s, p, buf + data) && a == Val(|data|)
      else if (|data| <= PIPE_BUF && !rest) || room == 0 then
        r == s && a == if s.ofds[o].nonblock then Err(EAGAIN) else Block
      else a.Val? && 1 <= a.n <= room && r == WithBuf(s, p, buf + data[..a.n])
  {
    hide RefsOk, EndsOk, LocksOk, TargetsOk, TablesOk, SlotsOk, Apply;
    OnOpenDescriptor(s, pid, Write(fd, data, k, rest), o);
  }

  lemma ReadFromPipe(s: State, pid: nat, fd: nat, o: nat, p: nat, n: nat, k: nat)
    requires IsEnd(s, pid, fd, o, ReadEnd(p), p)
    ensures var (r, a) := Apply(s, pid, Read(fd, n, k));
      var buf := s.pipes[p].buf;
      if n == 0 then r == s && a == Data([])
      else if buf != [] then a.Data? && 1 <= |a.bytes| <= n && a.bytes <= buf && r == WithBuf(s, p, buf[|a.bytes|..])
      else
        r == s && a == if s.pipes[p].writers == 0 then Data([]) else if s.ofds[o].nonblock then Err(EAGAIN) else Block
  {
    hide Inv, Apply;
    OnOpenDescriptor(s, pid, Read(fd, n, k), o);
  }

  /** Any split can happen: a read may hand out any number of the bytes there are, up to what is
      asked for, and a write that does not fit may be taken in any part of the room. */
  lemma AnySplit(s: State, pid: nat, fd: nat, o: nat, p: nat, n: nat, k: nat)
    requires IsEnd(s, pid, fd, o, ReadEnd(p), p) && 1 <= k <= n && k <= |s.pipes[p].buf|
    ensures Apply(s, pid, Read(fd, n, k)) == (WithBuf(s, p, s.pipes[p].buf[k..]), Data(s.pipes[p].buf[..k]))
  {
    hide Inv, Apply;
    OnOpenDescriptor(s, pid, Read(fd, n, k), o);
  }

  lemma AnyPart(s: State, pid: nat, fd: nat, o: nat, p: nat, data: seq<byte>, k: nat, rest: bool)
    requires IsEnd(s, pid, fd, o, WriteEnd(p), p) && s.pipes[p].readers > 0 && (|data| > PIPE_BUF || rest)
    requires 1 <= k && |s.pipes[p].buf| + k <= s.pipes[p].cap < |s.pipes[p].buf| + |data|
    ensures Apply(s, pid, Write(fd, data, k, rest)) == (WithBuf(s, p, s.pipes[p].buf + data[..k]), Val(k))
  {
    hide Inv, Apply;
    OnOpenDescriptor(s, pid, Write(fd, data, k, rest), o);
  }

  /** The ends are one-way, and neither has an offset. */
  lemma EndsAreOneWay(s: State, pid: nat, fd: nat, o: nat, t: Target, p: nat, c: Call)
    requires IsEnd(s, pid, fd, o, t, p) && (c.Read? || c.Write? || c.Lseek?) && c.fd == fd
    ensures c.Lseek? ==> Apply(s, pid, c) == (s, Err(ESPIPE))
    ensures c.Read? && t == WriteEnd(p) ==> Apply(s, pid, c) == (s, Err(EBADF))
    ensures c.Write? && t == ReadEnd(p) ==> Apply(s, pid, c) == (s, Err(EBADF))
  {
    hide Inv, Apply;
    if c.Lseek? { LseekOnDescriptor(s, pid, c, o); } else { OnOpenDescriptor(s, pid, c, o); }
  }

  /** Changing a buffer leaves descriptors alone. */
  lemma BufOnly(s: State, p: nat, a: seq<byte>, b: seq<byte>)
    requires p in s.pipes
    ensures WithBuf(WithBuf(s, p, a), p, b) == WithBuf(s, p, b)
    ensures WithBuf(s, p, s.pipes[p].buf) == s
  {
  }

  /** A state that differs only in the buffer has the same ends. */
  lemma EndKept(s: State, pid: nat, fd: nat, o: nat, t: Target, p: nat, buf: seq<byte>)
    requires IsEnd(s, pid, fd, o, t, p) && Inv(WithBuf(s, p, buf))
    ensures var r := WithBuf(s, p, buf);
      && IsEnd(r, pid, fd, o, t, p)
      && r.pipes[p] == s.pipes[p].(buf := buf)
      && r.ofds == s.ofds
  {
    hide Inv;
  }

  function Repeat(x: byte, n: nat): (r: seq<byte>)
    ensures |r| == n
  {
    seq(n, _ => x)
  }

  /** Writes 4096 bytes at a time until the kernel says EAGAIN.  For every capacity the loop
      ends, no write is ever accepted in part, and what was written is the largest multiple of
      4096 that fits. */
  method FillUntilFull(m: Machine, pid: nat, fd: nat, x: byte, ghost o: nat, ghost p: nat)
    returns (total: nat, last: Result)
    requires IsEnd(m.s, pid, fd, o, WriteEnd(p), p) && m.s.pipes[p].readers > 0 && m.s.ofds[o].nonblock
    requires m.s.pipes[p].buf == []
    modifies m
    ensures last == Err(EAGAIN)
    ensures total % PIPE_BUF == 0 && total <= old(m.s.pipes[p].cap) < total + PIPE_BUF
    ensures m.s == WithBuf(old(m.s), p, Repeat(x, total)) && Inv(m.s)
  {
    hide Inv, Kernel.Apply, WithBuf, Reaches;
    total := 0;
    BufOnly(m.s, p, [], []);
    while true
      invariant total % PIPE_BUF == 0 && total <= old(m.s.pipes[p].cap)
      invariant Inv(m.s) && m.s == WithBuf(old(m.s), p, Repeat(x, total))
      decreases old(m.s.pipes[p].cap) - total
    {
      EndKept(old(m.s), pid, fd, o, WriteEnd(p), p, Repeat(x, total));
      WriteToPipe(m.s, pid, fd, o, p, Repeat(x, PIPE_BUF), 0, false);
      BufOnly(old(m.s), p, Repeat(x, total), Repeat(x, total) + Repeat(x, PIPE_BUF));
      last := m.Call(pid, Write(fd, Repeat(x, PIPE_BUF), 0, false));
      if !last.Val? { break; }
      assert Repeat(x, total) + Repeat(x, PIPE_BUF) == Repeat(x, total + PIPE_BUF);
      total := total + last.n;
    }
  }

  lemma NewEnds(s0: State, s1: State, pid: nat, cap: nat, nonblock: bool, a: Result)
    requires Inv(s0) && Inv(s1) && pid in s0.procs && a.Two? && a.r != a.w
    requires s1.slots ==
      s0.slots[Key(s0.procs[pid], a.r) := Slot(s0.next + 1, false)][Key(s0.procs[pid], a.w) := Slot(s0.next + 2, false)]
    requires s1.procs == s0.procs && s1.pipes == s0.pipes[s0.next := Pipe([], Max(cap, PIPE_BUF), 1, 1)]
    requires s1.ofds == s0.ofds[s0.next + 1 := Ofd(ReadEnd(s0.next), 1, RdOnly, nonblock, false, 0, Unlocked)]
                               [s0.next + 2 := Ofd(WriteEnd(s0.next), 1, WrOnly, nonblock, false, 0, Unlocked)]
    ensures IsEnd(s1, pid, a.r, s0.next + 1, ReadEnd(s0.next), s0.next)
    ensures IsEnd(s1, pid, a.w, s0.next + 2, WriteEnd(s0.next), s0.next)
  {
    hide Inv;
  }

  datatype Outcome =
    | NoPipe
    | BlockedInWrite(accepted: nat, fd: nat)
    | Finished(written: nat, totalRead: nat, lastRequest: nat, same: bool)

  /** A write of any size that waits until everything is accepted; in a process alone with the
      pipe, waiting on a full pipe lasts for ever (done is false). */
  method WriteAll(m: Machine, pid: nat, fd: nat, data: seq<byte>, ghost o: nat, ghost p: nat)
    returns (n: nat, done: bool)
    requires IsEnd(m.s, pid, fd, o, WriteEnd(p), p) && m.s.pipes[p].readers > 0 && !m.s.ofds[o].nonblock
    requires m.s.pipes[p].buf == []
    modifies m
    ensures n <= |data| && m.s == WithBuf(old(m.s), p, data[..n])
    ensures done <==> |data| <= old(m.s.pipes[p].cap)
    ensures done ==> n == |data|
    ensures !done ==> n == old(m.s.pipes[p].cap) < |data|
    ensures Inv(m.s)
  {
    hide Inv, Kernel.Apply, WithBuf, Reaches;
    n := 0;
    assert data[..0] == [];
    BufOnly(m.s, p, [], []);
    var k: nat := *;
    while n < |data|
      invariant n <= |data| && n <= old(m.s.pipes[p].cap)
      invariant Inv(m.s) && m.s == WithBuf(old(m.s), p, data[..n])
      decreases |data| - n
    {
      EndKept(old(m.s), pid, fd, o, WriteEnd(p), p, data[..n]);
      WriteToPipe(m.s, pid, fd, o, p, data[n..], k, n > 0);
      var a := m.Call(pid, Write(fd, data[n..], k, n > 0));
      if !a.Val? {
        return n, false;
      }
      assert data[..n] + data[n..][..a.n] == data[..n + a.n];
      assert data[..n] + data[n..] == data[..|data|];
      BufOnly(old(m.s), p, data[..n], data[..n + a.n]);
      n := n + a.n;
      k := *;
    }
    done := true;
  }

  /** Reads until a read returns nothing, into buf from the front. */
  method Drain(m: Machine, pid: nat, fd: nat, buf: array<byte>, ghost o: nat, ghost p: nat)
    returns (total: nat, lastRequest: nat)
    requires IsEnd(m.s, pid, fd, o, ReadEnd(p), p) && m.s.pipes[p].writers > 0
    requires buf.Length == |m.s.pipes[p].buf|
    modifies m, buf
    ensures Inv(m.s) && m.s == WithBuf(old(m.s), p, [])
    ensures total == buf.Length && buf[..] == old(m.s.pipes[p].buf)
    ensures lastRequest == 0
  {
    hide Inv, Kernel.Apply, WithBuf, Reaches;
    ghost var content := m.s.pipes[p].buf;
    total := 0;
    BufOnly(m.s, p, [], []);
    assert content[0..] == content;
    var k: nat := *;
    while true
      invariant total <= buf.Length
      invariant Inv(m.s) && m.s == WithBuf(old(m.s), p, content[total..])
      invariant buf[..total] == content[..total]
      decreases buf.Length - total
    {
      EndKept(old(m.s), pid, fd, o, ReadEnd(p), p, content[total..]);
      ReadFromPipe(m.s, pid, fd, o, p, buf.Length - total, k);
      lastRequest := buf.Length - total;
      var a := m.Call(pid, Read(fd, lastRequest, k));
      if !a.Data? || a.bytes == [] { break; }
      var n := |a.bytes|;
      assert content[total..][n..] == content[total + n..];
      BufOnly(old(m.s), p, content[total..], content[total + n..]);
      Store(buf, total, a.bytes);
      total := total + n;
      k := *;
    }
    assert buf[..total] == buf[..];
  }

  method Store(a: array<byte>, at: nat, bytes: seq<byte>)
    requires at + |bytes| <= a.Length
    modifies a
    ensures a[..] == old(a[..at]) + bytes + old(a[at + |bytes|..])
  {
    forall i | 0 <= i < |bytes| { a[at + i] := bytes[i]; }
  }

  /** A full new pipe of a process with a table of its own is enclosed in it. */
  lemma FullPipeWaits(s0: State, s1: State, s2: State, pid: nat, cap: nat, a: Result, buf: seq<byte>)
    requires Inv(s0) && Inv(s1) && pid in s0.procs && Sole(s0, pid, s0.procs[pid])
    requires (s1, a) == Apply(s0, pid, Pipe2(cap, false, false)) && a.Two?
    requires s0.next in s1.pipes && s2 == WithBuf(s1, s0.next, buf) && Inv(s2) && |buf| == s1.pipes[s0.next].cap
    ensures WaitsForEver(s2, pid, a.w)
  {
    hide Inv, Kernel.Apply, Run;
    var tab, p := s0.procs[pid], s0.next;
    Pipe2Effect(s0, pid, cap, false, false);
    NumbersBounded(s0);
    forall k | EndOf(s2, k, p) ensures k.tab == tab {
      if k in s0.slots {
        SlotFacts(s0, k);
        TargetFacts(s0, s0.slots[k].ofd);
      }
    }
    assert Enclosed(s2, pid, tab, a.w, p + 2, p);
    EnclosedWaits(s2, pid, tab, a.w, p + 2, p);
  }

  /** The capacity test for a pipe of any capacity and a buffer of any size n.  It finishes
      exactly when the pipe can hold n bytes, and then everything read back is what was
      written; otherwise it stays blocked in write with the pipe full, and if nobody shares its
      descriptor table nothing other processes do can ever free it.  When it finishes, the
      drain loop has stopped only because its last request was for no bytes: the write end is
      still open and a further request would have blocked. */
  method CapacityTest(m: Machine, pid: nat, cap: nat, n: nat) returns (r: Outcome)
    requires Inv(m.s) && pid in m.s.procs
    modifies m
    ensures Inv(m.s)
    ensures r == NoPipe <==> !Apply(old(m.s), pid, Pipe2(cap, false, false)).1.Two?
    ensures r != NoPipe ==> (r.Finished? <==> n <= Max(cap, PIPE_BUF))
    ensures r.Finished? ==> r == Finished(n, n, 0, true)
    ensures r.BlockedInWrite? ==> r.accepted == Max(cap, PIPE_BUF)
    ensures r.BlockedInWrite? && old(Sole(m.s, pid, m.s.procs[pid])) ==> WaitsForEver(m.s, pid, r.fd)
    ensures r.Finished? ==> old(m.s).next in m.s.pipes
    ensures r.Finished? ==> m.s.pipes[old(m.s).next].writers > 0 && m.s.pipes[old(m.s).next].buf == []
  {
    hide Inv, Kernel.Apply, WithBuf, Reaches, Sole, WaitsForEver;
    ghost var p := m.s.next;
    var big := new byte[n];
    FillPattern(big, 0);
    ghost var s0 := m.s;
    var ends := m.Call(pid, Pipe2(cap, false, false));
    if !ends.Two? { return NoPipe; }
    Pipe2Effect(s0, pid, cap, false, false);
    ghost var s1 := m.s;
    NewEnds(s0, s1, pid, cap, false, ends);
    var written, done := WriteAll(m, pid, ends.w, big[..], p + 2, p);
    EndKept(s1, pid, ends.r, p + 1, ReadEnd(p), p, big[..][..written]);
    EndKept(s1, pid, ends.w, p + 2, WriteEnd(p), p, big[..][..written]);
    if !done {
      if Sole(s0, pid, s0.procs[pid]) { FullPipeWaits(s0, s1, m.s, pid, cap, ends, big[..][..written]); }
      return BlockedInWrite(written, ends.w);
    }
    var back := new byte[n];
    assert big[..][..written] == big[..];
    ghost var s2 := m.s;
    var total, last := Drain(m, pid, ends.r, back, p + 1, p);
    EndKept(s2, pid, ends.w, p + 2, WriteEnd(p), p, []);
    r := Finished(written, total, last, big[..] == back[..]);
  }

  /** Closing the only descriptor of one end leaves the other end open, with nobody opposite. */
  lemma CloseOnlyEnd(s: State, pid: nat, fd: nat, o: nat, t: Target, fd2: nat, o2: nat, t2: Target, p: nat)
    requires IsEnd(s, pid, fd, o, t, p) && IsEnd(s, pid, fd2, o2, t2, p) && t != t2
    requires s.ofds[o].refs == 1 && s.pipes[p].readers == s.pipes[p].writers == 1
    ensures var r := Apply(s, pid, Close(fd)).0;
      IsEnd(r, pid, fd2, o2, t2, p) &&
        r.pipes[p] == if t == ReadEnd(p) then s.pipes[p].(readers := 0) else s.pipes[p].(writers := 0)
  {
    hide Inv, Remove;
    var k := Key(s.procs[pid], fd);
    ApplyInv(s, pid, Close(fd));
    SlotFacts(s, k);
    assert Apply(s, pid, Close(fd)).0 == Remove(s, k);
    RemoveLast(s, k, t, p);
  }

  lemma RemoveLast(s: State, k: Key, t: Target, p: nat)
    requires k in s.slots && s.slots[k].ofd in s.ofds && s.ofds[s.slots[k].ofd].refs == 1 &&
      s.ofds[s.slots[k].ofd].target == t
    requires p in s.pipes && (t == ReadEnd(p) || t == WriteEnd(p)) && s.pipes[p].readers == s.pipes[p].writers == 1
    ensures var r := Remove(s, k);
      && r.slots == s.slots - {k} && r.ofds == s.ofds - {s.slots[k].ofd} && r.procs == s.procs && p in r.pipes
      && r.pipes[p] == if t == ReadEnd(p) then s.pipes[p].(readers := 0) else s.pipes[p].(writers := 0)
  {
  }

  /** With the only write end closed, a read of the empty pipe returns 0 and does not wait. */
  method EofTest(m: Machine, pid: nat, cap: nat, n: nat) returns (made: bool, a: Result)
    requires Inv(m.s) && pid in m.s.procs && n > 0
    modifies m
    ensures Inv(m.s) && (made <==> Apply(old(m.s), pid, Pipe2(cap, false, false)).1.Two?)
    ensures made ==> a == Data([])
  {
    hide Inv, Kernel.Apply, Reaches;
    ghost var s0 := m.s;
    a := m.Call(pid, Pipe2(cap, false, false));
    if !a.Two? { return false, a; }
    Pipe2Effect(s0, pid, cap, false, false);
    NewEnds(s0, m.s, pid, cap, false, a);
    CloseOnlyEnd(m.s, pid, a.w, s0.next + 2, WriteEnd(s0.next), a.r, s0.next + 1, ReadEnd(s0.next), s0.next);
    var c := m.Call(pid, Close(a.w));
    var k: nat := *;
    ReadFromPipe(m.s, pid, a.r, s0.next + 1, s0.next, n, k);
    a := m.Call(pid, Read(a.r, n, k));
    made := true;
  }

  /** With the only read end closed, a write fails with EPIPE. */
  method BrokenPipeTest(m: Machine, pid: nat, cap: nat, data: seq<byte>) returns (made: bool, a: Result)
    requires Inv(m.s) && pid in m.s.procs && data != []
    modifies m
    ensures Inv(m.s) && (made <==> Apply(old(m.s), pid, Pipe2(cap, false, false)).1.Two?)
    ensures made ==> a == Err(EPIPE)
  {
    hide Inv, Kernel.Apply, Reaches;
    ghost var s0 := m.s;
    a := m.Call(pid, Pipe2(cap, false, false));
    if !a.Two? { return false, a; }
    Pipe2Effect(s0, pid, cap, false, false);
    NewEnds(s0, m.s, pid, cap, false, a);
    CloseOnlyEnd(m.s, pid, a.r, s0.next + 1, ReadEnd(s0.next), a.w, s0.next + 2, WriteEnd(s0.next), s0.next);
    var c := m.Call(pid, Close(a.r));
    PipeWrite(m.s, s0.next + 2, s0.next, data, 0, false);
    OnOpenDescriptor(m.s, pid, Write(a.w, data, 0, false), s0.next + 2);
    a := m.Call(pid, Write(a.w, data, 0, false));
    made := true;
  }

  /** The non-blocking part: the empty pipe refuses a read with EAGAIN, then the fill loop. */
  method NonblockTest(m: Machine, pid: nat, cap: nat, n: nat, x: byte) returns (made: bool, a: Result, total: nat)
    requires Inv(m.s) && pid in m.s.procs && n > 0
    modifies m
    ensures Inv(m.s) && (made <==> Apply(old(m.s), pid, Pipe2(cap, true, false)).1.Two?)
    ensures made ==> a == Err(EAGAIN) && total % PIPE_BUF == 0 && total <= Max(cap, PIPE_BUF) < total + PIPE_BUF
    ensures made ==> old(m.s).next in m.s.pipes && m.s.pipes[old(m.s).next].buf == Repeat(x, total)
  {
    hide Inv, Kernel.Apply, Reaches;
    ghost var s0 := m.s;
    var ends := m.Call(pid, Pipe2(cap, true, false));
    if !ends.Two? { return false, ends, 0; }
    Pipe2Effect(s0, pid, cap, true, false);
    NewEnds(s0, m.s, pid, cap, true, ends);
    var k: nat := *;
    ReadFromPipe(m.s, pid, ends.r, s0.next + 1, s0.next, n, k);
    a := m.Call(pid, Read(ends.r, n, k));
    var last;
    ghost var s1 := m.s;
    total, last := FillUntilFull(m, pid, ends.w, x, s0.next + 2, s0.next);
    made := true;
  }
}
