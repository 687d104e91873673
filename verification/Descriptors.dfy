/** What the descriptor calls promise about sharing: which description a descriptor leads to,
    who shares its offset, and what closing or exec takes away. */
module Descriptors {
  import opened Basics
  import opened FlatFile
  import opened KernelState
  import opened Kernel
  import opened KernelProps
  import opened KernelFrame
  import opened KernelOwnership

  /** Where a process's descriptor leads. */
  function Lookup(s: State, pid: nat, fd: nat): Option<Slot> {
    if pid in s.procs && Key(s.procs[pid], fd) in s.slots then Some(s.slots[Key(s.procs[pid], fd)]) else None
  }

  function DescriptionOf(s: State, o: nat): Option<Ofd> {
    if o in s.ofds then Some(s.ofds[o]) else None
  }

  /** What exec leaves of a descriptor. */
  function Unmarked(slot: Option<Slot>): Option<Slot> {
    if slot.Some? && slot.value.cloexec then None else slot
  }

  /** F_DUPFD, and dup as F_DUPFD from 0: the lowest unused number not below min, leading to the
      very same description, or EMFILE exactly when every such number is taken. */
  lemma DupShares(s: State, pid: nat, fd: nat, min: nat, cloexec: bool)
    requires Inv(s) && Lookup(s, pid, fd).Some? && min < OPEN_MAX
    ensures var (r, a) := Apply(s, pid, DupFd(fd, min, cloexec));
      var o := Lookup(s, pid, fd).value.ofd;
      && (a == Err(EMFILE) <==> forall n: nat | min <= n < OPEN_MAX :: Lookup(s, pid, n).Some?)
      && (a == Err(EMFILE) ==> r == s)
      && (a != Err(EMFILE) ==>
          && a.Val? && min <= a.n < OPEN_MAX
          && (forall n: nat | min <= n < a.n :: Lookup(s, pid, n).Some?)
          && Lookup(s, pid, a.n).None? && Lookup(r, pid, a.n) == Some(Slot(o, cloexec))
          && (forall n: nat | n != a.n :: Lookup(r, pid, n) == Lookup(s, pid, n))
          && DescriptionOf(s, o).Some? &&
            DescriptionOf(r, o) == Some(DescriptionOf(s, o).value.(refs := DescriptionOf(s, o).value.refs + 1)))
  {
    hide Inv, Keeps;
    var k := Key(s.procs[pid], fd);
    SlotFacts(s, k);
    var n := LowestFree(s, k.tab, min);
    InstallKeeps(s, Key(k.tab, n), Slot(s.slots[k].ofd, cloexec));
    assert n >= OPEN_MAX ==> forall m: nat | min <= m < OPEN_MAX :: Key(k.tab, m) in s.slots;
    assert n < OPEN_MAX ==> Lookup(s, pid, n).None?;
  }

  /** Numbers beyond the table are refused, and nothing changes: EINVAL for F_DUPFD, EBADF for
      dup3. */
  lemma NumbersBeyondTable(s: State, pid: nat, fd: nat, n: nat, cloexec: bool)
    requires Inv(s) && Lookup(s, pid, fd).Some? && n >= OPEN_MAX
    ensures Apply(s, pid, DupFd(fd, n, cloexec)) == (s, Err(EINVAL))
    ensures Apply(s, pid, Dup3(fd, n, cloexec)) == (s, Err(EBADF))
  {
    hide Inv;
    SlotFacts(s, Key(s.procs[pid], fd));
  }

  lemma DupIsDupFd(s: State, pid: nat, fd: nat)
    requires Inv(s)
    ensures Apply(s, pid, Dup(fd)) == Apply(s, pid, DupFd(fd, 0, false))
  {
    hide Inv, DoDup;
  }

  /** dup3 to another number: afterwards newfd leads to fd's description, whatever it was
      before, every other descriptor is as it was, and a description remains exactly if some
      live process still has a descriptor of it. */
  lemma Dup3Shares(s: State, pid: nat, fd: nat, newfd: nat, cloexec: bool)
    requires Inv(s) && Lookup(s, pid, fd).Some? && newfd < OPEN_MAX
    ensures var (r, a) := Apply(s, pid, Dup3(fd, newfd, cloexec));
      && (a == Err(EINVAL) <==> newfd == fd)
      && (newfd == fd ==> r == s)
      && (newfd != fd ==>
          && a == Val(newfd)
          && Lookup(r, pid, newfd) == Some(Slot(Lookup(s, pid, fd).value.ofd, cloexec))
          && (forall n: nat | n != newfd :: Lookup(r, pid, n) == Lookup(s, pid, n))
          && (forall o: nat :: DescriptionOf(r, o).Some? <==> exists q: nat, n: nat :: Reaches(r, q, n, o)))
  {
    hide Inv, Keeps, Remove, DoDup3;
    var k := Key(s.procs[pid], fd);
    var r := Apply(s, pid, Dup3(fd, newfd, cloexec)).0;
    SlotFacts(s, k);
    if newfd == fd { Dup3Self(s, k, cloexec); } else { Dup3Slots(s, k, newfd, cloexec); }
    ApplyInv(s, pid, Dup3(fd, newfd, cloexec));
    forall o: nat ensures DescriptionOf(r, o).Some? <==> exists q: nat, n: nat :: Reaches(r, q, n, o) {
      LiveIffPresent(r, o);
    }
  }

  lemma Dup3Self(s: State, k: Key, cloexec: bool)
    requires Inv(s) && k in s.slots
    ensures DoDup3(s, k, k.fd, cloexec) == (s, Err(EINVAL))
  {
    hide Inv;
  }

  lemma Dup3Slots(s: State, k: Key, newfd: nat, cloexec: bool)
    requires Inv(s) && k in s.slots && newfd < OPEN_MAX && newfd != k.fd
    ensures var (r, a) := DoDup3(s, k, newfd, cloexec);
      a == Val(newfd) && r.procs == s.procs && r.slots == s.slots[Key(k.tab, newfd) := Slot(s.slots[k].ofd, cloexec)]
  {
    hide Inv, Keeps, Remove;
    SlotFacts(s, k);
    var k' := Key(k.tab, newfd);
    if k' in s.slots {
      SlotFacts(s, k');
      RemoveInv(s, k');
      RemoveKeeps(s, k');
      SlotFacts(Remove(s, k'), k);
      assert (s.slots - {k'})[k' := Slot(s.slots[k].ofd, cloexec)] == s.slots[k' := Slot(s.slots[k].ofd, cloexec)];
    }
  }

  /** pipe2 returns two new, different descriptors of two new descriptions, the two ends of
      one new, empty pipe with one reader and one writer. */
  lemma Pipe2Effect(s: State, pid: nat, cap: nat, nonblock: bool, cloexec: bool)
    requires Inv(s) && pid in s.procs && Apply(s, pid, Pipe2(cap, nonblock, cloexec)).1.Two?
    ensures var (r, a) := Apply(s, pid, Pipe2(cap, nonblock, cloexec));
      var tab := s.procs[pid];
      && a.r != a.w && Key(tab, a.r) !in s.slots && Key(tab, a.w) !in s.slots
      && r.slots == s.slots[Key(tab, a.r) := Slot(s.next + 1, cloexec)][Key(tab, a.w) := Slot(s.next + 2, cloexec)]
      && r.ofds == s.ofds[s.next + 1 := Ofd(ReadEnd(s.next), 1, RdOnly, nonblock, false, 0, Unlocked)]
                         [s.next + 2 := Ofd(WriteEnd(s.next), 1, WrOnly, nonblock, false, 0, Unlocked)]
      && r.pipes == s.pipes[s.next := Pipe([], Max(cap, PIPE_BUF), 1, 1)]
      && r.procs == s.procs && r.users == s.users && r.files == s.files && r.next == s.next + 3
  {
    hide Inv;
    var tab := s.procs[pid];
    var f := LowestFree(s, tab, 0);
    var s0 := NewPipe(s, cap);
    var s1 := Create(s0, Key(tab, f), ReadEnd(s.next), RdOnly, nonblock, false, cloexec);
    var w := LowestFree(s1, tab, 0);
    assert f < OPEN_MAX && w < OPEN_MAX;
    assert Key(tab, w) !in s1.slots;
    assert s1.pipes == s.pipes[s.next := Pipe([], Max(cap, PIPE_BUF), 1, 0)];
    assert Apply(s, pid, Pipe2(cap, nonblock, cloexec)).0.pipes ==
      s.pipes[s.next := Pipe([], Max(cap, PIPE_BUF), 1, 1)];
  }

  /** pipe2 succeeds exactly when two numbers are free; otherwise it is EMFILE and nothing changes. */
  lemma {:induction false} Pipe2NeedsTwo(s: State, pid: nat, cap: nat, nonblock: bool, cloexec: bool)
    requires Inv(s) && pid in s.procs
    ensures var (r, a) := Apply(s, pid, Pipe2(cap, nonblock, cloexec));
      && (a.Two? <==> exists f: nat, g: nat | f < g < OPEN_MAX :: Lookup(s, pid, f).None? && Lookup(s, pid, g).None?)
      && (!a.Two? ==> (r, a) == (s, Err(EMFILE)))
  {
    hide Inv, DoPipe2;
    assert Apply(s, pid, Pipe2(cap, nonblock, cloexec)) == DoPipe2(s, s.procs[pid], cap, nonblock, cloexec);
    PipeInTable(s, pid, cap, nonblock, cloexec);
  }

  lemma PipeInTable(s: State, pid: nat, cap: nat, nonblock: bool, cloexec: bool)
    requires pid in s.procs
    ensures var (r, a) := DoPipe2(s, s.procs[pid], cap, nonblock, cloexec);
      && (a.Two? <==> exists f: nat, g: nat | f < g < OPEN_MAX :: Lookup(s, pid, f).None? && Lookup(s, pid, g).None?)
      && (!a.Two? ==> (r, a) == (s, Err(EMFILE)))
  {
    hide NewPipe, Create, Lookup;
    var tab := s.procs[pid];
    var f := LowestFree(s, tab, 0);
    var s1 := Create(NewPipe(s, cap), Key(tab, f), ReadEnd(s.next), RdOnly, nonblock, false, cloexec);
    OneMore(s, cap, Key(tab, f), nonblock, cloexec);
    TwoFree(s, s1, pid, f, LowestFree(s1, tab, 0), Slot(s.next + 1, cloexec));
  }

  lemma OneMore(s: State, cap: nat, k: Key, nonblock: bool, cloexec: bool)
    ensures Create(NewPipe(s, cap), k, ReadEnd(s.next), RdOnly, nonblock, false, cloexec).slots ==
      s.slots[k := Slot(s.next + 1, cloexec)]
  {
  }

  /** f is the lowest free number of s, w that of s1, where f is taken. */
  lemma TwoFree(s: State, s1: State, pid: nat, f: nat, w: nat, slot: Slot)
    requires pid in s.procs && s1.slots == s.slots[Key(s.procs[pid], f) := slot]
    requires f < OPEN_MAX ==> Key(s.procs[pid], f) !in s.slots
    requires forall n | 0 <= n < f :: Key(s.procs[pid], n) in s.slots
    requires w < OPEN_MAX ==> Key(s.procs[pid], w) !in s1.slots
    requires forall n | 0 <= n < w :: Key(s.procs[pid], n) in s1.slots
    ensures f < OPEN_MAX && w < OPEN_MAX <==>
      exists x: nat, y: nat | x < y < OPEN_MAX :: Lookup(s, pid, x).None? && Lookup(s, pid, y).None?
  {
    var tab := s.procs[pid];
    if f < OPEN_MAX && w < OPEN_MAX {
      assert Lookup(s, pid, f).None? && Lookup(s, pid, w).None? && f != w;
    }
    if x: nat, y: nat :| x < y < OPEN_MAX && Lookup(s, pid, x).None? && Lookup(s, pid, y).None? {
      var k, k' := Key(tab, x), Key(tab, y);
      assert k !in s.slots && k' !in s.slots;
      assert f <= x && (f == x ==> w <= y) && (f < x ==> w <= x);
    }
  }

  /** Closing one descriptor changes nothing another descriptor of the same description, in
      any process, can observe. */
  lemma CloseLeavesCopies(s: State, pid: nat, fd: nat, q: nat, fd2: nat, o: nat)
    requires Inv(s) && Reaches(s, pid, fd, o) && Reaches(s, q, fd2, o) && Key(s.procs[pid], fd) != Key(s.procs[q], fd2)
    requires o in s.ofds
    ensures var (r, a) := Apply(s, pid, Close(fd));
      a == Val(0) && Reaches(r, q, fd2, o) && !(Key(s.procs[pid], fd) in r.slots) &&
      o in r.ofds && SameButRefs(s.ofds[o], r.ofds[o]) && r.files == s.files &&
      (s.ofds[o].target.ReadEnd? || s.ofds[o].target.WriteEnd? ==>
        s.ofds[o].target.pipe in s.pipes && s.ofds[o].target.pipe in r.pipes &&
        r.pipes[s.ofds[o].target.pipe] == s.pipes[s.ofds[o].target.pipe])
  {
    hide RefsOk, EndsOk, LocksOk, BuffersOk, TablesOk;
    var k := Key(s.procs[pid], fd);
    TwoRefs(s, k, Key(s.procs[q], fd2));
  }

  lemma TwoRefs(s: State, k: Key, k': Key)
    requires Inv(s) && k in s.slots && k' in s.slots && k != k' && s.slots[k].ofd == s.slots[k'].ofd
    ensures s.slots[k].ofd in s.ofds && s.ofds[s.slots[k].ofd].refs > 1
  {
    hide EndsOk, LocksOk, BuffersOk, TablesOk, TargetsOk;
    var r := Refs(s.slots, s.slots[k].ofd);
    assert {k, k'} <= r;
    assert |r - {k, k'}| == |r| - 2;
  }

  /** After fork the child's descriptors lead exactly where the parent's do, to the same
      descriptions: offsets, flags and locks are shared, not copied. */
  lemma ForkShares(s: State, pid: nat, child: nat)
    requires Inv(s) && pid in s.procs && child !in s.procs
    ensures var (r, a) := Apply(s, pid, Fork(child));
      && a == Val(child)
      && (forall fd: nat :: Lookup(r, child, fd) == Lookup(s, pid, fd))
      && (forall q: nat, fd: nat | q in s.procs :: Lookup(r, q, fd) == Lookup(s, q, fd))
      && (forall o: nat :: DescriptionOf(r, o).Some? <==> DescriptionOf(s, o).Some?)
      && (forall o: nat | DescriptionOf(s, o).Some? ::
        SameButRefs(DescriptionOf(s, o).value, DescriptionOf(r, o).value))
      && r.pipes == s.pipes && r.files == s.files
      && Sole(r, child, s.next)
  {
    hide Inv, Apply, Keeps, Copied, Lookup, Sole, SameButRefs;
    var r := Apply(s, pid, Fork(child)).0;
    ForkEffect(s, pid, child);
    TablesBounded(s);
    CopiedLookups(s, r, pid, child);
    KeptDescriptions(s, r);
    NewIsSole(s, r, child);
  }

  /** What fork does to each part of the state. */
  lemma ForkEffect(s: State, pid: nat, child: nat)
    requires Inv(s) && pid in s.procs && child !in s.procs
    ensures var (r, a) := Apply(s, pid, Fork(child));
      && a == Val(child)
      && Keeps(s, r) && r.ofds.Keys == s.ofds.Keys && r.pipes == s.pipes && r.files == s.files
      && r.procs == s.procs[child := s.next] && r.users == s.users[s.next := 1] && s.next < r.next
      && s.procs[pid] < s.next && (forall k | k in s.slots :: k.tab != s.next && k.fd < OPEN_MAX)
      && Copied(s.slots, r.slots, s.procs[pid], s.next, OPEN_MAX)
  {
    hide Inv, Keeps, Copied;
    TabOf(s, pid);
    NewTableInv(s, child);
    var s0 := NewTable(s, child);
    CopyBelowSpec(s0, s.procs[pid], s.next, OPEN_MAX);
    forall k | k in s.slots ensures k.fd < OPEN_MAX { SlotFacts(s, k); }
    KeepsFrom(s, s0, CopyBelow(s0, s.procs[pid], s.next, OPEN_MAX));
  }

  lemma KeepsFrom(a: State, b: State, c: State)
    requires Keeps(b, c) && a.ofds == b.ofds && a.pipes == b.pipes
    ensures Keeps(a, c)
  {
  }

  lemma TablesBounded(s: State)
    requires Inv(s)
    ensures forall q | q in s.procs :: s.procs[q] < s.next
  {
    hide RefsOk, EndsOk, LocksOk, BuffersOk, TargetsOk, SlotsOk;
  }

  lemma CopiedLookups(s: State, r: State, pid: nat, child: nat)
    requires pid in s.procs && child !in s.procs && r.procs == s.procs[child := s.next]
    requires Copied(s.slots, r.slots, s.procs[pid], s.next, OPEN_MAX)
    requires forall k | k in s.slots :: k.tab != s.next && k.fd < OPEN_MAX
    requires forall q | q in s.procs :: s.procs[q] < s.next
    ensures forall fd: nat :: Lookup(r, child, fd) == Lookup(s, pid, fd)
    ensures forall q: nat, fd: nat | q in s.procs :: Lookup(r, q, fd) == Lookup(s, q, fd)
  {
  }

  lemma KeptDescriptions(s: State, r: State)
    requires Keeps(s, r) && r.ofds.Keys == s.ofds.Keys
    ensures forall o: nat :: DescriptionOf(r, o).Some? <==> DescriptionOf(s, o).Some?
    ensures forall o: nat | DescriptionOf(s, o).Some? ::
      SameButRefs(DescriptionOf(s, o).value, DescriptionOf(r, o).value)
  {
  }

  lemma NewIsSole(s: State, r: State, child: nat)
    requires child !in s.procs && r.procs == s.procs[child := s.next] && s.next < r.next
    requires forall q | q in s.procs :: s.procs[q] < s.next
    ensures Sole(r, child, s.next)
  {
  }

  lemma TabOf(s: State, pid: nat)
    requires Inv(s) && pid in s.procs
    ensures s.procs[pid] in s.users && s.procs[pid] < s.next
  {
    hide RefsOk, EndsOk, LocksOk, BuffersOk, TargetsOk, SlotsOk;
  }

  /** exec closes exactly the descriptors marked close-on-exec, for this process only. */
  lemma ExecClosesMarked(s: State, pid: nat)
    requires Inv(s) && pid in s.procs
    ensures var r := Apply(s, pid, Exec).0;
      && (forall fd: nat :: Lookup(r, pid, fd) == Unmarked(Lookup(s, pid, fd)))
      && (forall q: nat, fd: nat | q in s.procs && q != pid :: Lookup(r, q, fd) == Lookup(s, q, fd))
  {
    hide Inv, Keeps, Unshare, Lookup, Unmarked, Closes;
    TabOf(s, pid);
    var s1 := if s.users[s.procs[pid]] > 1 then Unshare(s, pid) else s;
    if s.users[s.procs[pid]] > 1 {
      UnshareShares(s, pid);
    } else {
      SoleUser(s, pid);
    }
    CloseBelowSpec(s1, s1.procs[pid], OPEN_MAX, false);
    forall k | k in s1.slots ensures k.fd < OPEN_MAX { SlotFacts(s1, k); }
    MarkedGone(s1, Apply(s, pid, Exec).0, pid);
  }

  lemma MarkedGone(s: State, r: State, pid: nat)
    requires pid in s.procs && r.procs == s.procs && forall q | q in s.procs && q != pid :: s.procs[q] != s.procs[pid]
    requires forall k :: k in r.slots <==> k in s.slots && !Closes(s, k, s.procs[pid], OPEN_MAX, false)
    requires forall k | k in r.slots :: r.slots[k] == s.slots[k]
    requires forall k | k in s.slots :: k.fd < OPEN_MAX
    ensures forall fd: nat :: Lookup(r, pid, fd) == Unmarked(Lookup(s, pid, fd))
    ensures forall q: nat, fd: nat | q in s.procs && q != pid :: Lookup(r, q, fd) == Lookup(s, q, fd)
  {
  }

  lemma UnshareShares(s: State, pid: nat)
    requires Inv(s) && pid in s.procs && s.procs[pid] in s.users && s.users[s.procs[pid]] > 1
    ensures var r := Unshare(s, pid);
      && r.procs == s.procs[pid := s.next]
      && (forall q | q in r.procs && q != pid :: r.procs[q] != s.next)
      && (forall q: nat, fd: nat | q in s.procs :: Lookup(r, q, fd) == Lookup(s, q, fd))
  {
    hide Inv, Keeps, Copied, Lookup;
    TabOf(s, pid);
    TablesBounded(s);
    LeaveInv(s, pid);
    NewTableInv(Leave(s, pid), pid);
    CopyBelowSpec(NewTable(Leave(s, pid), pid), s.procs[pid], s.next, OPEN_MAX);
    forall k | k in s.slots ensures k.fd < OPEN_MAX && k.tab != s.next { SlotFacts(s, k); }
    MovedLookups(s, Unshare(s, pid), pid);
  }

  lemma MovedLookups(s: State, r: State, pid: nat)
    requires pid in s.procs && r.procs == s.procs[pid := s.next]
    requires Copied(s.slots, r.slots, s.procs[pid], s.next, OPEN_MAX)
    requires forall k | k in s.slots :: k.tab != s.next && k.fd < OPEN_MAX
    requires forall q | q in s.procs :: s.procs[q] < s.next
    ensures forall q: nat, fd: nat | q in s.procs :: Lookup(r, q, fd) == Lookup(s, q, fd)
  {
  }

  lemma SoleUser(s: State, pid: nat)
    requires Inv(s) && pid in s.procs && s.users[s.procs[pid]] <= 1
    ensures forall q | q in s.procs && q != pid :: s.procs[q] != s.procs[pid]
  {
    hide RefsOk, EndsOk, LocksOk, BuffersOk, TargetsOk, SlotsOk;
    var users := Sharing(s.procs, s.procs[pid]);
    assert pid in users && |users| == 1;
    forall q | q in s.procs && q != pid ensures s.procs[q] != s.procs[pid] {
      assert |users - {pid}| == 0;
      assert q !in users - {pid};
    }
  }

  /** read, write and lseek on a file move only the offset of the description used: every
      descriptor of that description sees the move, no other description does. */
  lemma OffsetBelongsToDescription(s: State, pid: nat, c: Call, o: nat)
    requires Inv(s) && (c.Read? || c.Write? || c.Lseek?) && Reaches(s, pid, c.fd, o)
    requires o in s.ofds && s.ofds[o].target.File? && s.ofds[o].target.ino in s.files
    ensures var (r, a) := Apply(s, pid, c);
      var i, f := s.ofds[o].target.ino, s.files[s.ofds[o].target.ino];
      && r.slots == s.slots && r.procs == s.procs && r.pipes == s.pipes
      && r.ofds.Keys == s.ofds.Keys && (forall q | q in s.ofds && q != o :: r.ofds[q] == s.ofds[q])
      && r.ofds[o] == s.ofds[o].(offset := r.ofds[o].offset)
      && r.files.Keys == s.files.Keys && (forall j | j in s.files && j != i :: r.files[j] == s.files[j])
      && (!c.Write? ==> r.files == s.files)
      && (a.Err? ==> r == s)
      && (c.Read? ==>
          if s.ofds[o].access == WrOnly then a == Err(EBADF)
          else a == Data(Slice(f, s.ofds[o].offset, c.n)) && r.ofds[o].offset == s.ofds[o].offset + |a.bytes|)
      && (c.Write? ==>
          if s.ofds[o].access == RdOnly then a == Err(EBADF)
          else
            var pos := if s.ofds[o].append && c.data != [] then |f| else s.ofds[o].offset;
            a == Val(|c.data|) && r.files[i] == Overwrite(f, pos, c.data) && r.ofds[o].offset == pos + |c.data|)
      && (c.Lseek? ==>
          var to := match c.whence
            case SeekSet => c.off case SeekCur => s.ofds[o].offset + c.off case SeekEnd => |f| + c.off;
          if to < 0 then a == Err(EINVAL) else a == Val(to) && r.ofds[o].offset == to)
  {
    hide Inv, Apply, Overwrite, Slice, DoRead, DoWrite, DoLseek;
    if c.Lseek? {
      LseekOnDescriptor(s, pid, c, o);
      FileSeek(s, o, c.whence, c.off);
    } else {
      OnOpenDescriptor(s, pid, c, o);
      if c.Read? { FileRead(s, o, c.n, c.k); } else { FileWrite(s, o, c.data, c.k, c.rest); }
    }
  }

  /** What a read of a file hands out: the bytes from the offset, as many as asked for or as
      there are left; so none exactly if none was asked for or the offset is at or past the
      end. */
  lemma ReadsWhatIsThere(s: State, pid: nat, fd: nat, n: nat, k: nat, o: nat)
    requires Inv(s) && Reaches(s, pid, fd, o) && o in s.ofds && s.ofds[o].access != WrOnly
    requires s.ofds[o].target.File? && s.ofds[o].target.ino in s.files
    ensures var (a, at, f) := (Apply(s, pid, Read(fd, n, k)).1, s.ofds[o].offset, s.files[s.ofds[o].target.ino]);
      && a.Data?
      && |a.bytes| == (if at >= |f| then 0 else if at + n <= |f| then n else |f| - at)
      && (forall i | 0 <= i < |a.bytes| :: a.bytes[i] == f[at + i])
      && (a.bytes == [] <==> n == 0 || at >= |f|)
  {
    hide Inv, Apply;
    OffsetBelongsToDescription(s, pid, Read(fd, n, k), o);
  }

  lemma LseekOnDescriptor(s: State, pid: nat, c: Call, o: nat)
    requires Inv(s) && c.Lseek? && Reaches(s, pid, c.fd, o) && o in s.ofds
    ensures Apply(s, pid, c) == DoLseek(s, o, c.whence, c.off)
  {
    hide Inv, DoLseek;
  }

  lemma FileRead(s: State, o: nat, n: nat, k: nat)
    requires Inv(s) && o in s.ofds && s.ofds[o].target.File? && s.ofds[o].target.ino in s.files
    ensures var d := Slice(s.files[s.ofds[o].target.ino], s.ofds[o].offset, n);
      DoRead(s, o, n, k) == if s.ofds[o].access == WrOnly then (s, Err(EBADF))
        else (WithOfd(s, o, s.ofds[o].(offset := s.ofds[o].offset + |d|)), Data(d))
  {
    hide Inv, Slice;
  }

  lemma FileWrite(s: State, o: nat, data: seq<byte>, k: nat, rest: bool)
    requires Inv(s) && o in s.ofds && s.ofds[o].target.File? && s.ofds[o].target.ino in s.files
    ensures var i, f := s.ofds[o].target.ino, s.files[s.ofds[o].target.ino];
      var pos := if s.ofds[o].append && data != [] then |f| else s.ofds[o].offset;
      DoWrite(s, o, data, k, rest) == if s.ofds[o].access == RdOnly then (s, Err(EBADF))
        else
          (WithOfd(s.(files := s.files[i := Overwrite(f, pos, data)]), o, s.ofds[o].(offset := pos + |data|)),
           Val(|data|))
  {
    hide Inv;
    var i := s.ofds[o].target.ino;
    assert s.files[i := s.files[i]] == s.files && s.ofds[o := s.ofds[o]] == s.ofds;
  }

  lemma FileSeek(s: State, o: nat, whence: Whence, off: int)
    requires Inv(s) && o in s.ofds && s.ofds[o].target.File? && s.ofds[o].target.ino in s.files
    ensures var to := match whence
        case SeekSet => off
        case SeekCur => s.ofds[o].offset + off
        case SeekEnd => |s.files[s.ofds[o].target.ino]| + off;
      DoLseek(s, o, whence, off) ==
        if to < 0 then (s, Err(EINVAL)) else (WithOfd(s, o, s.ofds[o].(offset := to)), Val(to))
  {
    hide Inv;
  }

  /** Only a process's own exec or exit changes which table it uses. */
  lemma StepKeepsTable(s: State, q: nat, c: Call, pid: nat)
    requires Inv(s) && pid in s.procs && !(q == pid && (c.Exec? || c.Exit?))
    ensures pid in Apply(s, q, c).0.procs && Apply(s, q, c).0.procs[pid] == s.procs[pid]
  {
    hide Inv, Keeps, DoExec, DoExit, DoFork, OnDescriptor, DoPipe2, DoOpen, SameTable;
    if Used(s, q, c).Some? {
      UsedTables(s, q, c);
    } else if q in s.procs {
      UsersPositive(s, q);
      TabOf(s, q);
      var mine := s.procs[q];
      if c.Exec? { ExecTables(s, q); }
      else if c.Exit? { ExitOf(s, q, mine + 1); }
      else if c.Fork? { ForkOf(s, mine, c.child, mine); }
      else if c.Pipe2? { Pipe2Of(s, mine, c.cap, c.nonblock, c.cloexec, mine + 1); }
      else if c.Open? { OpenOf(s, mine, c, mine + 1); }
      else if !c.CloneFiles? && Key(mine, c.fd) in s.slots { OnDescriptorOf(s, Key(mine, c.fd), c, mine + 1); }
    }
  }

  lemma ExecTables(s: State, pid: nat)
    requires Inv(s) && pid in s.procs
    ensures forall q | q in s.procs && q != pid :: q in DoExec(s, pid).procs && DoExec(s, pid).procs[q] == s.procs[q]
  {
    hide Inv, Keeps, Unshare;
    TabOf(s, pid);
    var s1 := if s.users[s.procs[pid]] > 1 then Unshare(s, pid) else s;
    if s.users[s.procs[pid]] > 1 { UnshareShares(s, pid); }
    CloseBelowSpec(s1, s1.procs[pid], OPEN_MAX, false);
  }

  ghost predicate NeitherLeaves(calls: seq<(nat, Call)>, a: nat, b: nat) {
    forall i | 0 <= i < |calls| :: (calls[i].0 == a || calls[i].0 == b) ==> !calls[i].1.Exec? && !calls[i].1.Exit?
  }

  lemma {:induction false} TablesKept(s: State, a: nat, b: nat, calls: seq<(nat, Call)>)
    requires Inv(s) && a in s.procs && b in s.procs && NeitherLeaves(calls, a, b)
    ensures a in Run(s, calls).procs && Run(s, calls).procs[a] == s.procs[a]
    ensures b in Run(s, calls).procs && Run(s, calls).procs[b] == s.procs[b]
    decreases |calls|
  {
    hide Inv, Apply;
    if calls != [] {
      ApplyInv(s, calls[0].0, calls[0].1);
      StepKeepsTable(s, calls[0].0, calls[0].1, a);
      StepKeepsTable(s, calls[0].0, calls[0].1, b);
      TablesKept(Apply(s, calls[0].0, calls[0].1).0, a, b, calls[1..]);
    }
  }

  /** After a clone with CLONE_FILES parent and child have one table between them: whatever
      either of them or anyone else opens, dups or closes later, both see the same
      descriptors, until one of them execs or exits. */
  lemma {:induction false} CloneFilesShares(s: State, pid: nat, child: nat, calls: seq<(nat, Call)>)
    requires Inv(s) && pid in s.procs && child !in s.procs && NeitherLeaves(calls, pid, child)
    ensures var (r, a) := Apply(s, pid, CloneFiles(child));
      Inv(r) && a == Val(child) && r.ofds == s.ofds && r.pipes == s.pipes &&
      forall fd: nat :: Lookup(Run(r, calls), pid, fd) == Lookup(Run(r, calls), child, fd)
  {
    ApplyInv(s, pid, CloneFiles(child));
    hide Inv, Run;
    TablesKept(Apply(s, pid, CloneFiles(child)).0, pid, child, calls);
  }

  /** Another description of o's file is exclusive and want is shared, or locked and want exclusive. */
  ghost predicate LockInTheWay(s: State, o: nat, want: Lock)
    requires o in s.ofds
  {
    exists q: nat :: q in s.ofds && q != o && InodeOf(s.ofds[q].target) == InodeOf(s.ofds[o].target) &&
      ((want == Shared && s.ofds[q].lock == Exclusive) || (want == Exclusive && s.ofds[q].lock != Unlocked))
  }

  /** flock succeeds exactly when no other description of the file is in the way, and then the
      description holds what was asked for; otherwise the caller waits, or is refused if it
      asked not to wait, and what the description held is given up unless it was the same.
      No other description, no descriptor, no offset and no byte changes. */
  lemma FlockOutcome(s: State, pid: nat, fd: nat, o: nat, want: Lock, nb: bool)
    requires Inv(s) && Reaches(s, pid, fd, o) && o in s.ofds
    ensures var (r, a) := Apply(s, pid, Flock(fd, want, nb));
      && (a == Val(0) <==> !LockInTheWay(s, o, want))
      && (a != Val(0) ==> a == if nb then Err(EAGAIN) else Block)
      && r == WithOfd(s, o, s.ofds[o].(lock := if a == Val(0) then want else Unlocked))
  {
    hide Inv, LockRefused, LockInTheWay, DoFlock;
    FlockOnDescriptor(s, pid, fd, o, want, nb);
    FlockOfd(s, o, want, nb);
  }

  lemma FlockOnDescriptor(s: State, pid: nat, fd: nat, o: nat, want: Lock, nb: bool)
    requires Inv(s) && Reaches(s, pid, fd, o) && o in s.ofds
    ensures Apply(s, pid, Flock(fd, want, nb)) == DoFlock(s, o, want, nb)
  {
    hide Inv, DoFlock;
  }

  lemma FlockOfd(s: State, o: nat, want: Lock, nb: bool)
    requires Inv(s) && o in s.ofds
    ensures var (r, a) := DoFlock(s, o, want, nb);
      && (a == Val(0) <==> !LockInTheWay(s, o, want))
      && (a != Val(0) ==> a == if nb then Err(EAGAIN) else Block)
      && r == WithOfd(s, o, s.ofds[o].(lock := if a == Val(0) then want else Unlocked))
  {
    hide RefsOk, EndsOk, TargetsOk, BuffersOk, TablesOk, LocksOk, LockRefused, LockInTheWay;
    RefusedIsInTheWay(s, o, want);
    assert s.ofds[o := s.ofds[o]] == s.ofds;
    if want == s.ofds[o].lock { NeverInOwnWay(s, o); }
  }

  lemma RefusedIsInTheWay(s: State, o: nat, want: Lock)
    requires o in s.ofds
    ensures LockRefused(s, o, want) <==> LockInTheWay(s, o, want)
  {
  }

  lemma NeverInOwnWay(s: State, o: nat)
    requires LocksOk(s.ofds) && o in s.ofds
    ensures !LockInTheWay(s, o, s.ofds[o].lock)
  {
  }

  /** open makes a description of its own: offset 0, no lock, shared with nobody; the contents
      go exactly if it truncates or creates. */
  lemma OpenSeparate(s: State, pid: nat, c: Call)
    requires Inv(s) && c.Open? && pid in s.procs
    ensures var (r, a) := Apply(s, pid, c);
      var o := s.next;
      && (a == Err(ENOENT) <==> c.ino !in s.files && !c.creat)
      && (a == Err(EMFILE) <==>
        (c.ino in s.files || c.creat) && forall n: nat | n < OPEN_MAX :: Lookup(s, pid, n).Some?)
      && (!a.Val? ==> r == s && (a == Err(ENOENT) || a == Err(EMFILE)))
      && (a.Val? ==>
          && Lookup(s, pid, a.n).None? && Lookup(r, pid, a.n) == Some(Slot(o, c.cloexec))
          && (forall n: nat | n != a.n :: Lookup(r, pid, n) == Lookup(s, pid, n))
          && (forall q: nat, n: nat :: Reaches(r, q, n, o) ==> Key(r.procs[q], n) == Key(s.procs[pid], a.n))
          && r.ofds == s.ofds[o := Ofd(File(c.ino), 1, c.access, false, c.append, 0, Unlocked)]
          && r.files == s.files[c.ino := if c.ino in s.files && !c.trunc then s.files[c.ino] else []]
          && r.pipes == s.pipes)
  {
    hide Inv, Lookup, Reaches;
    var tab := s.procs[pid];
    var fd := LowestFree(s, tab, 0);
    SlotsBelowNext(s);
    var (r, a) := Apply(s, pid, c);
    NoneFree(s, pid, fd);
    if a.Val? { NewSlot(s, r, pid, fd, c.cloexec); }
  }

  lemma NoneFree(s: State, pid: nat, fd: nat)
    requires pid in s.procs && fd == LowestFree(s, s.procs[pid], 0)
    ensures fd < OPEN_MAX ==> Lookup(s, pid, fd).None?
    ensures fd >= OPEN_MAX <==> forall n: nat | n < OPEN_MAX :: Lookup(s, pid, n).Some?
  {
    assert fd >= OPEN_MAX ==> forall n: nat | n < OPEN_MAX :: Key(s.procs[pid], n) in s.slots;
  }

  lemma NewSlot(s: State, r: State, pid: nat, fd: nat, cloexec: bool)
    requires pid in s.procs && r.procs == s.procs && r.slots == s.slots[Key(s.procs[pid], fd) := Slot(s.next, cloexec)]
    requires forall k | k in s.slots :: s.slots[k].ofd < s.next
    ensures Lookup(r, pid, fd) == Some(Slot(s.next, cloexec))
    ensures forall n: nat | n != fd :: Lookup(r, pid, n) == Lookup(s, pid, n)
    ensures forall q: nat, n: nat :: Reaches(r, q, n, s.next) ==> Key(r.procs[q], n) == Key(s.procs[pid], fd)
  {
  }

  lemma SlotsBelowNext(s: State)
    requires Inv(s)
    ensures forall k | k in s.slots :: s.slots[k].ofd < s.next
  {
    hide RefsOk, EndsOk, LocksOk, TargetsOk, BuffersOk, TablesOk;
  }

  lemma FlagCalls(s: State, pid: nat, fd: nat, o: nat, nonblock: bool, append: bool, cloexec: bool)
    requires Inv(s) && Reaches(s, pid, fd, o) && o in s.ofds
    ensures Apply(s, pid, SetFl(fd, nonblock, append)) ==
      (WithOfd(s, o, s.ofds[o].(nonblock := nonblock, append := append)), Val(0))
    ensures Apply(s, pid, SetFd(fd, cloexec)) ==
      (s.(slots := s.slots[Key(s.procs[pid], fd) := Slot(o, cloexec)]), Val(0))
  {
    hide Inv;
  }

  /** The status flags F_GETFL shows through a descriptor. */
  function FlagsSeen(s: State, pid: nat, fd: nat): Option<(bool, bool)> {
    match Lookup(s, pid, fd)
    case None => None
    case Some(slot) => if slot.ofd in s.ofds then Some((s.ofds[slot.ofd].nonblock, s.ofds[slot.ofd].append)) else None
  }

  /** Two processes' descriptors that are one: the same number in one table. */
  predicate OneDescriptor(s: State, p: nat, fd: nat, q: nat, n: nat) {
    p in s.procs && q in s.procs && s.procs[p] == s.procs[q] && fd == n
  }

  /** F_SETFL shows through every descriptor of the description, in every process, and through
      no other; no close-on-exec mark moves, nor does the offset or the lock. */
  lemma StatusFlagsShared(s: State, pid: nat, fd: nat, o: nat, nonblock: bool, append: bool)
    requires Inv(s) && Reaches(s, pid, fd, o) && o in s.ofds
    ensures var (r, a) := Apply(s, pid, SetFl(fd, nonblock, append));
      && a == Val(0)
      && (forall q: nat, n: nat | Reaches(s, q, n, o) :: FlagsSeen(r, q, n) == Some((nonblock, append)))
      && (forall q: nat, n: nat | !Reaches(s, q, n, o) :: FlagsSeen(r, q, n) == FlagsSeen(s, q, n))
      && (forall q: nat, n: nat :: Lookup(r, q, n) == Lookup(s, q, n))
      && o in r.ofds && r.ofds[o].offset == s.ofds[o].offset && r.ofds[o].lock == s.ofds[o].lock
  {
    hide Inv, Apply;
    FlagCalls(s, pid, fd, o, nonblock, append, false);
  }

  /** F_SETFD moves the mark of the one descriptor and of no copy of it, and no status flag. */
  lemma MarkIsPrivate(s: State, pid: nat, fd: nat, o: nat, cloexec: bool)
    requires Inv(s) && Reaches(s, pid, fd, o) && o in s.ofds
    ensures var (r, a) := Apply(s, pid, SetFd(fd, cloexec));
      && a == Val(0)
      && (forall q: nat, n: nat | OneDescriptor(s, pid, fd, q, n) :: Lookup(r, q, n) == Some(Slot(o, cloexec)))
      && (forall q: nat, n: nat | !OneDescriptor(s, pid, fd, q, n) :: Lookup(r, q, n) == Lookup(s, q, n))
      && (forall q: nat, n: nat :: FlagsSeen(r, q, n) == FlagsSeen(s, q, n))
  {
    hide Inv, Apply;
    FlagCalls(s, pid, fd, o, false, false, cloexec);
  }

  /** exit takes the process away, with its descriptors unless others share its table; nobody
      else loses any, and a description goes exactly if no live process reaches it any more. */
  lemma ExitReleases(s: State, pid: nat)
    requires Inv(s) && pid in s.procs
    ensures var r := Apply(s, pid, Exit).0;
      && r.procs == s.procs - {pid}
      && (forall q: nat, fd: nat | q != pid :: Lookup(r, q, fd) == Lookup(s, q, fd))
      && (forall k | k in r.slots :: exists q: nat :: q in r.procs && r.procs[q] == k.tab)
      && (forall o: nat :: DescriptionOf(r, o).Some? <==> exists q: nat, n: nat :: Reaches(r, q, n, o))
      && r.files == s.files
  {
    hide Inv, Lookup, Reaches, DoExit;
    ApplyInv(s, pid, Exit);
    ExitSlots(s, pid);
    var r := Apply(s, pid, Exit).0;
    forall k | k in r.slots ensures exists q: nat :: q in r.procs && r.procs[q] == k.tab {
      SlotFacts(r, k);
      TableInUse(r, k.tab);
    }
    forall o: nat ensures DescriptionOf(r, o).Some? <==> exists q: nat, n: nat :: Reaches(r, q, n, o) {
      LiveIffPresent(r, o);
    }
  }

  lemma ExitSlots(s: State, pid: nat)
    requires Inv(s) && pid in s.procs
    ensures var r := Apply(s, pid, Exit).0;
      && r.procs == s.procs - {pid} && r.files == s.files
      && (forall q: nat, fd: nat | q != pid :: Lookup(r, q, fd) == Lookup(s, q, fd))
  {
    hide Inv, Keeps;
    UsersPositive(s, pid);
    CloseBelowSpec(s, s.procs[pid], OPEN_MAX, true);
    if s.users[s.procs[pid]] <= 1 { SoleUser(s, pid); }
  }

  lemma TableInUse(s: State, tab: nat)
    requires Inv(s) && tab in s.users
    ensures exists q: nat :: q in s.procs && s.procs[q] == tab
  {
    hide RefsOk, EndsOk, LocksOk, BuffersOk, TargetsOk, SlotsOk;
    assert |Sharing(s.procs, tab)| > 0;
    var q :| q in Sharing(s.procs, tab);
    assert q in s.procs && s.procs[q] == tab;
  }
}
