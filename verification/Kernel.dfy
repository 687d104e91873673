/** The system calls, on the state of KernelState.  `Apply` is one call of one process;
    `Run` is any interleaving of calls of any processes. */
module Kernel {
  import opened Basics
  import opened FlatFile
  import opened KernelState

  datatype Call =
    | Pipe2(cap: nat, nonblock: bool, cloexec: bool)
    | Open(ino: nat, creat: bool, trunc: bool, access: Access, append: bool, cloexec: bool)
    | Dup(fd: nat)
    | Dup3(fd: nat, newfd: nat, cloexec: bool)
    | DupFd(fd: nat, min: nat, cloexec: bool)
    | SetFd(fd: nat, cloexec: bool)
    | SetFl(fd: nat, nonblock: bool, append: bool)
    | Close(fd: nat)
    | Fork(child: nat)
    | CloneFiles(child: nat)
    | Exec
    | Exit
    | Read(fd: nat, n: nat, k: nat)           // k: how much the kernel hands over this time
    | Write(fd: nat, data: seq<byte>, k: nat, rest: bool)
      // k: how much of a large write is taken this time; rest: the caller is still inside a
      // larger write and this is what remains of it
    | Lseek(fd: nat, whence: Whence, off: int)
    | Flock(fd: nat, want: Lock, nb: bool)

  datatype Result =
    | Val(n: nat)
    | Two(r: nat, w: nat)
    | Data(bytes: seq<byte>)
    | Err(e: Errno)
    | Block

  /** Descriptions that were there keep everything but their count; pipes keep their bytes. */
  ghost predicate Keeps(s: State, r: State) {
    && (forall o | o in r.ofds && o in s.ofds :: r.ofds[o] == s.ofds[o].(refs := r.ofds[o].refs))
    && s.pipes.Keys == r.pipes.Keys
    && (forall p | p in s.pipes :: r.pipes[p].buf == s.pipes[p].buf && r.pipes[p].cap == s.pipes[p].cap)
  }

  predicate Closes(s: State, k: Key, tab: nat, n: nat, all: bool)
    requires k in s.slots
  {
    k.tab == tab && k.fd < n && (all || s.slots[k].cloexec)
  }

  /** Closes the descriptors below n of one table, all of them or the close-on-exec ones. */
  function CloseBelow(s: State, tab: nat, n: nat, all: bool): (r: State)
    requires Inv(s)
    ensures Inv(r)
    decreases n
  {
    if n == 0 then s
    else
      var k := Key(tab, n - 1);
      if k in s.slots && (all || s.slots[k].cloexec) then
        RemoveInv(s, k);
        CloseBelow(Remove(s, k), tab, n - 1, all)
      else CloseBelow(s, tab, n - 1, all)
  }

  lemma SlotFacts(s: State, k: Key)
    requires Inv(s) && k in s.slots
    ensures s.slots[k].ofd in s.ofds && k.tab in s.users && k.fd < OPEN_MAX
  {
    hide RefsOk, EndsOk, LocksOk, TargetsOk, BuffersOk, TablesOk;
  }

  lemma RemoveKeeps(s: State, k: Key)
    requires Inv(s) && k in s.slots
    ensures var r := Remove(s, k);
      && Keeps(s, r) && r.ofds.Keys <= s.ofds.Keys && r.slots == s.slots - {k}
      && r.procs == s.procs && r.users == s.users && r.files == s.files && r.next == s.next
  {
    hide Inv, Keeps, EndReleased;
    SlotFacts(s, k);
    EndsKept(s.pipes, s.ofds[s.slots[k].ofd].target);
    FewerKeeps(s, Remove(s, k), s.slots[k].ofd);
  }

  lemma EndsKept(pipes: map<nat, Pipe>, t: Target)
    ensures var r := EndReleased(pipes, t);
      r.Keys == pipes.Keys && forall p | p in pipes :: r[p].buf == pipes[p].buf && r[p].cap == pipes[p].cap
  {
  }

  lemma FewerKeeps(s: State, r: State, id: nat)
    requires id in s.ofds && (r.ofds == s.ofds - {id} || (id in r.ofds && r.ofds == s.ofds[id := r.ofds[id]]))
    requires id in r.ofds ==> r.ofds[id] == s.ofds[id].(refs := r.ofds[id].refs)
    requires r.pipes.Keys == s.pipes.Keys
    requires forall p | p in s.pipes :: r.pipes[p].buf == s.pipes[p].buf && r.pipes[p].cap == s.pipes[p].cap
    ensures Keeps(s, r)
  {
  }

  lemma KeepsTrans(a: State, b: State, c: State)
    requires Keeps(a, b) && Keeps(b, c) && c.ofds.Keys <= b.ofds.Keys
    ensures Keeps(a, c)
  {
  }

  /** Everything CloseBelow does: it closes what it names, keeps every other descriptor,
      and what survives of descriptions and pipes keeps its contents. */
  lemma {:induction false} CloseBelowSpec(s: State, tab: nat, n: nat, all: bool)
    requires Inv(s)
    ensures var r := CloseBelow(s, tab, n, all);
      && Keeps(s, r) && r.ofds.Keys <= s.ofds.Keys
      && r.procs == s.procs && r.users == s.users && r.files == s.files && r.next == s.next
      && (forall k :: k in r.slots <==> k in s.slots && !Closes(s, k, tab, n, all))
      && (forall k | k in r.slots :: r.slots[k] == s.slots[k])
    decreases n
  {
    hide Inv, Remove, Keeps;
    if n == 0 {
      KeepsSelf(s);
    } else {
      var k := Key(tab, n - 1);
      if k in s.slots && (all || s.slots[k].cloexec) {
        SlotFacts(s, k);
        RemoveInv(s, k);
        RemoveKeeps(s, k);
        CloseBelowSpec(Remove(s, k), tab, n - 1, all);
        KeepsTrans(s, Remove(s, k), CloseBelow(Remove(s, k), tab, n - 1, all));
      } else {
        CloseBelowSpec(s, tab, n - 1, all);
      }
    }
  }

  lemma KeepsSelf(s: State)
    ensures Keeps(s, s)
  {
  }

  /** Copies the descriptors below n of table src into table dst: same descriptions. */
  function CopyBelow(s: State, src: nat, dst: nat, n: nat): (r: State)
    requires Inv(s) && dst in s.users && dst != src
    requires forall k | k in s.slots && k.tab == dst :: n <= k.fd
    ensures Inv(r)
    decreases n
  {
    if n == 0 then s
    else
      var k := Key(src, n - 1);
      if k in s.slots then
        InstallInv(s, Key(dst, n - 1), s.slots[k]);
        CopyBelow(Install(s, Key(dst, n - 1), s.slots[k]), src, dst, n - 1)
      else CopyBelow(s, src, dst, n - 1)
  }

  lemma InstallKeeps(s: State, k: Key, slot: Slot)
    requires Inv(s) && slot.ofd in s.ofds
    ensures var r := Install(s, k, slot);
      && Keeps(s, r) && r.ofds.Keys == s.ofds.Keys && r.slots == s.slots[k := slot] && r.pipes == s.pipes
      && r.procs == s.procs && r.users == s.users && r.files == s.files && r.next == s.next
  {
    hide RefsOk, EndsOk, LocksOk, TargetsOk, BuffersOk, TablesOk;
  }

  /** r is a with the descriptors below n of table src copied into table dst. */
  ghost predicate Copied(a: map<Key, Slot>, r: map<Key, Slot>, src: nat, dst: nat, n: nat) {
    && (forall k :: k in r <==> k in a || (k.tab == dst && k.fd < n && Key(src, k.fd) in a))
    && (forall k | k in r :: r[k] == if k in a then a[k] else a[Key(src, k.fd)])
  }

  lemma CopiedNone(a: map<Key, Slot>, src: nat, dst: nat)
    ensures Copied(a, a, src, dst, 0)
  {
  }

  lemma CopiedStep(a: map<Key, Slot>, r: map<Key, Slot>, src: nat, dst: nat, n: nat)
    requires n > 0 && dst != src && Key(dst, n - 1) !in a
    requires forall k | k in a && k.tab == dst :: n <= k.fd
    ensures Key(src, n - 1) in a && Copied(a[Key(dst, n - 1) := a[Key(src, n - 1)]], r, src, dst, n - 1) ==>
      Copied(a, r, src, dst, n)
    ensures Key(src, n - 1) !in a && Copied(a, r, src, dst, n - 1) ==> Copied(a, r, src, dst, n)
  {
  }

  lemma {:induction false} CopyBelowSpec(s: State, src: nat, dst: nat, n: nat)
    requires Inv(s) && dst in s.users && dst != src
    requires forall k | k in s.slots && k.tab == dst :: n <= k.fd
    ensures var r := CopyBelow(s, src, dst, n);
      && Keeps(s, r) && r.ofds.Keys == s.ofds.Keys && r.pipes == s.pipes
      && r.procs == s.procs && r.users == s.users && r.files == s.files && r.next == s.next
      && Copied(s.slots, r.slots, src, dst, n)
    decreases n
  {
    hide Inv, Install, Keeps, Copied;
    if n == 0 {
      KeepsSelf(s);
      CopiedNone(s.slots, src, dst);
    } else {
      var k := Key(src, n - 1);
      CopiedStep(s.slots, CopyBelow(s, src, dst, n).slots, src, dst, n);
      if k in s.slots {
        var k' := Key(dst, n - 1);
        SlotFacts(s, k);
        InstallInv(s, k', s.slots[k]);
        InstallKeeps(s, k', s.slots[k]);
        CopyBelowSpec(Install(s, k', s.slots[k]), src, dst, n - 1);
        KeepsTrans(s, Install(s, k', s.slots[k]), CopyBelow(Install(s, k', s.slots[k]), src, dst, n - 1));
      } else {
        CopyBelowSpec(s, src, dst, n - 1);
      }
    }
  }

  /** The lowest unused descriptor not below min; OPEN_MAX when there is none. */
  function LowestFree(s: State, tab: nat, min: nat): (fd: nat)
    ensures fd < OPEN_MAX ==> min <= fd && Key(tab, fd) !in s.slots
    ensures forall f | min <= f < fd :: Key(tab, f) in s.slots
    ensures fd <= OPEN_MAX || fd == min
    decreases OPEN_MAX - min
  {
    if min >= OPEN_MAX || Key(tab, min) !in s.slots then min else LowestFree(s, tab, min + 1)
  }

  /* ---- system calls ---- */

  function DoPipe2(s: State, tab: nat, cap: nat, nonblock: bool, cloexec: bool): (State, Result) {
    var r := LowestFree(s, tab, 0);
    if r >= OPEN_MAX then (s, Err(EMFILE))
    else
      var p := s.next;
      var s0 := NewPipe(s, cap);
      var s1 := Create(s0, Key(tab, r), ReadEnd(p), RdOnly, nonblock, false, cloexec);
      var w := LowestFree(s1, tab, 0);
      if w >= OPEN_MAX then (s, Err(EMFILE))
      else (Create(s1, Key(tab, w), WriteEnd(p), WrOnly, nonblock, false, cloexec), Two(r, w))
  }

  function DoOpen(s: State, tab: nat, c: Call): (State, Result)
    requires c.Open?
  {
    var fd := LowestFree(s, tab, 0);
    if c.ino !in s.files && !c.creat then (s, Err(ENOENT))
    else if fd >= OPEN_MAX then (s, Err(EMFILE))
    else
      var content := if c.ino in s.files && !c.trunc then s.files[c.ino] else [];
      var s1 := s.(files := s.files[c.ino := content]);
      (Create(s1, Key(tab, fd), File(c.ino), c.access, false, c.append, c.cloexec), Val(fd))
  }

  function DoDup(s: State, k: Key, min: nat, cloexec: bool): (State, Result)
    requires Inv(s) && k in s.slots
  {
    if min >= OPEN_MAX then (s, Err(EINVAL))
    else
      var fd := LowestFree(s, k.tab, min);
      if fd >= OPEN_MAX then (s, Err(EMFILE))
      else (Install(s, Key(k.tab, fd), Slot(s.slots[k].ofd, cloexec)), Val(fd))
  }

  /** An open newfd is closed first. */
  function DoDup3(s: State, k: Key, newfd: nat, cloexec: bool): (State, Result)
    requires Inv(s) && k in s.slots
  {
    hide RefsOk, EndsOk, LocksOk, TargetsOk, BuffersOk, TablesOk, Remove, Install;
    if newfd == k.fd then (s, Err(EINVAL))
    else if newfd >= OPEN_MAX then (s, Err(EBADF))
    else
      var k' := Key(k.tab, newfd);
      var s1 := if k' in s.slots then RemoveInv(s, k'); RemoveKeeps(s, k'); Remove(s, k') else s;
      (Install(s1, k', s1.slots[k].(cloexec := cloexec)), Val(newfd))
  }

  function DoFork(s: State, tab: nat, child: nat): (State, Result)
    requires Inv(s) && tab in s.users
  {
    hide RefsOk, EndsOk, LocksOk;
    if child in s.procs then (s, Err(EAGAIN))
    else
      NewTableInv(s, child);
      (CopyBelow(NewTable(s, child), tab, s.next, OPEN_MAX), Val(child))
  }

  function DoClone(s: State, tab: nat, child: nat): (State, Result)
    requires tab in s.users
  {
    hide RefsOk, EndsOk, LocksOk;
    if child in s.procs then (s, Err(EAGAIN))
    else (s.(procs := s.procs[child := tab], users := s.users[tab := s.users[tab] + 1]), Val(child))
  }

  /** exec: a shared table is copied first, then close-on-exec descriptors go. */
  function DoExec(s: State, pid: nat): State
    requires Inv(s) && pid in s.procs
  {
    hide RefsOk, EndsOk, LocksOk;
    var s1 := if s.users[s.procs[pid]] > 1 then Unshare(s, pid) else s;
    CloseBelow(s1, s1.procs[pid], OPEN_MAX, false)
  }

  /** The process leaves a shared table, taking a copy of it. */
  function Unshare(s: State, pid: nat): (r: State)
    requires Inv(s) && pid in s.procs && s.users[s.procs[pid]] > 1
    ensures Inv(r) && pid in r.procs && r.users[r.procs[pid]] == 1
  {
    hide RefsOk, EndsOk, LocksOk;
    var tab := s.procs[pid];
    LeaveInv(s, pid);
    NewTableInv(Leave(s, pid), pid);
    CopyBelowSpec(NewTable(Leave(s, pid), pid), tab, s.next, OPEN_MAX);
    CopyBelow(NewTable(Leave(s, pid), pid), tab, s.next, OPEN_MAX)
  }

  function DoExit(s: State, pid: nat): State
    requires Inv(s) && pid in s.procs
  {
    hide RefsOk, EndsOk, LocksOk;
    var tab := s.procs[pid];
    if s.users[tab] > 1 then Leave(s, pid)
    else
      var s1 := CloseBelow(s, tab, OPEN_MAX, true);
      s1.(procs := s1.procs - {pid}, users := s1.users - {tab})
  }

  function DoRead(s: State, id: nat, n: nat, k: nat): (State, Result)
    requires Inv(s) && id in s.ofds
  {
    hide RefsOk, EndsOk, LocksOk, TablesOk;
    var o := s.ofds[id];
    match o.target
    case WriteEnd(_) => (s, Err(EBADF))
    case ReadEnd(p) =>
      if n == 0 then (s, Data([]))
      else
        var buf := s.pipes[p].buf;
        if buf != [] then
          var m := if 1 <= k <= Min(n, |buf|) then k else Min(n, |buf|);
          (WithBuf(s, p, buf[m..]), Data(buf[..m]))
        else if s.pipes[p].writers == 0 then (s, Data([]))
        else (s, if o.nonblock then Err(EAGAIN) else Block)
    case File(i) =>
      if o.access == WrOnly then (s, Err(EBADF))
      else
        var d := Slice(s.files[i], o.offset, n);
        (WithOfd(s, id, o.(offset := o.offset + |d|)), Data(d))
  }

  /** At most PIPE_BUF bytes are written all or not at all.  A larger write may be accepted in
      several pieces; a blocking caller is then still inside write with the rest. */
  function DoWrite(s: State, id: nat, data: seq<byte>, k: nat, rest: bool): (State, Result)
    requires Inv(s) && id in s.ofds
  {
    hide RefsOk, EndsOk, LocksOk, TablesOk;
    var o := s.ofds[id];
    match o.target
    case ReadEnd(_) => (s, Err(EBADF))
    case WriteEnd(p) =>
      if data == [] then (s, Val(0))
      else if s.pipes[p].readers == 0 then (s, Err(EPIPE))
      else
        var buf, room := s.pipes[p].buf, s.pipes[p].cap - |s.pipes[p].buf|;
        if |data| <= room then (WithBuf(s, p, buf + data), Val(|data|))
        else if (|data| <= PIPE_BUF && !rest) || room == 0 then (s, if o.nonblock then Err(EAGAIN) else Block)
        else
          var m := if 1 <= k <= room then k else room;
          (WithBuf(s, p, buf + data[..m]), Val(m))
    case File(i) =>
      if o.access == RdOnly then (s, Err(EBADF))
      else if data == [] then (s, Val(0))
      else
        var pos := if o.append then |s.files[i]| else o.offset;
        var s1 := s.(files := s.files[i := Overwrite(s.files[i], pos, data)]);
        (WithOfd(s1, id, o.(offset := pos + |data|)), Val(|data|))
  }

  function DoLseek(s: State, id: nat, whence: Whence, off: int): (State, Result)
    requires Inv(s) && id in s.ofds
  {
    hide RefsOk, EndsOk, LocksOk, TablesOk;
    var o := s.ofds[id];
    if !o.target.File? then (s, Err(ESPIPE))
    else
      var base := match whence case SeekSet => 0 case SeekCur => o.offset case SeekEnd => |s.files[o.target.ino]|;
      if base + off < 0 then (s, Err(EINVAL))
      else (WithOfd(s, id, o.(offset := base + off)), Val(base + off))
  }

  /** Another description of the same file holds a clashing lock. */
  predicate LockRefused(s: State, id: nat, want: Lock)
    requires id in s.ofds
  {
    exists q | q in s.ofds ::
      q != id && InodeOf(s.ofds[q].target) == InodeOf(s.ofds[id].target) && LocksClash(s.ofds[q].lock, want)
  }

  /** A conversion first gives up the lock already held, and does not get it back if the
      new one is refused. */
  function DoFlock(s: State, id: nat, want: Lock, nb: bool): (State, Result)
    requires id in s.ofds
  {
    var o := s.ofds[id];
    if want == o.lock then (s, Val(0))
    else if LockRefused(s, id, want) then
      (WithOfd(s, id, o.(lock := Unlocked)), if nb then Err(EAGAIN) else Block)
    else (WithOfd(s, id, o.(lock := want)), Val(0))
  }

  function Apply(s: State, pid: nat, c: Call): (State, Result)
    requires Inv(s)
  {
    hide RefsOk, EndsOk, LocksOk;
    if pid !in s.procs then (s, Err(ESRCH))
    else
      var tab := s.procs[pid];
      match c
      case Pipe2(cap, nonblock, cloexec) => DoPipe2(s, tab, cap, nonblock, cloexec)
      case Open(_, _, _, _, _, _) => DoOpen(s, tab, c)
      case Fork(child) => DoFork(s, tab, child)
      case CloneFiles(child) => DoClone(s, tab, child)
      case Exec => (DoExec(s, pid), Val(0))
      case Exit => (DoExit(s, pid), Val(0))
      case _ =>
        var k := Key(tab, c.fd);
        if k !in s.slots then (s, Err(EBADF))
        else OnDescriptor(s, k, c)
  }

  /** The calls that take a descriptor, on an open one. */
  function OnDescriptor(s: State, k: Key, c: Call): (State, Result)
    requires Inv(s) && k in s.slots
  {
    hide RefsOk, EndsOk, LocksOk, TablesOk;
    var id := s.slots[k].ofd;
    match c
    case Dup(_) => DoDup(s, k, 0, false)
    case Dup3(_, newfd, cloexec) => DoDup3(s, k, newfd, cloexec)
    case DupFd(_, min, cloexec) => DoDup(s, k, min, cloexec)
    case SetFd(_, cloexec) => (s.(slots := s.slots[k := Slot(id, cloexec)]), Val(0))
    case SetFl(_, nonblock, append) => (WithOfd(s, id, s.ofds[id].(nonblock := nonblock, append := append)), Val(0))
    case Close(_) => (Remove(s, k), Val(0))
    case Read(_, n, m) => DoRead(s, id, n, m)
    case Write(_, data, m, rest) => DoWrite(s, id, data, m, rest)
    case Lseek(_, whence, off) => DoLseek(s, id, whence, off)
    case Flock(_, want, nb) => DoFlock(s, id, want, nb)
    case _ => (s, Err(EINVAL))
  }

  /* ---- every call keeps every count exact ---- */

  lemma Pipe2Inv(s: State, tab: nat, cap: nat, nonblock: bool, cloexec: bool)
    requires Inv(s) && tab in s.users
    ensures Inv(DoPipe2(s, tab, cap, nonblock, cloexec).0)
  {
    hide RefsOk, EndsOk, LocksOk, TargetsOk, BuffersOk, TablesOk, SlotsOk, NumbersOk;
    var r, p := LowestFree(s, tab, 0), s.next;
    if r < OPEN_MAX {
      NewPipeInv(s, cap);
      var s0 := NewPipe(s, cap);
      CreateInv(s0, Key(tab, r), ReadEnd(p), RdOnly, nonblock, false, cloexec);
      var s1 := Create(s0, Key(tab, r), ReadEnd(p), RdOnly, nonblock, false, cloexec);
      var w := LowestFree(s1, tab, 0);
      if w < OPEN_MAX {
        CreateInv(s1, Key(tab, w), WriteEnd(p), WrOnly, nonblock, false, cloexec);
      }
    }
  }

  lemma OpenInv(s: State, tab: nat, c: Call)
    requires Inv(s) && tab in s.users && c.Open?
    ensures Inv(DoOpen(s, tab, c).0)
  {
    hide Inv, Create;
    var fd := LowestFree(s, tab, 0);
    if (c.ino in s.files || c.creat) && fd < OPEN_MAX {
      var content := if c.ino in s.files && !c.trunc then s.files[c.ino] else [];
      FilesInv(s, c.ino, content);
      CreateInv(s.(files := s.files[c.ino := content]), Key(tab, fd), File(c.ino), c.access, false, c.append,
        c.cloexec);
    }
  }

  lemma ForkInv(s: State, tab: nat, child: nat)
    requires Inv(s) && tab in s.users
    ensures Inv(DoFork(s, tab, child).0)
  {
    hide Inv;
    if child !in s.procs {
      TableNumber(s, tab);
      NewTableInv(s, child);
    }
  }

  lemma TableNumber(s: State, tab: nat)
    requires Inv(s) && tab in s.users
    ensures tab < s.next
  {
    hide RefsOk, EndsOk, LocksOk, TargetsOk, BuffersOk, TablesOk, SlotsOk;
  }

  lemma ExecInv(s: State, pid: nat)
    requires Inv(s) && pid in s.procs
    ensures Inv(DoExec(s, pid))
  {
    hide Inv, Unshare;
    UsersPositive(s, pid);
  }

  lemma DupInv(s: State, k: Key, min: nat, cloexec: bool)
    requires Inv(s) && k in s.slots
    ensures Inv(DoDup(s, k, min, cloexec).0)
  {
    var fd := LowestFree(s, k.tab, min);
    if min < OPEN_MAX && fd < OPEN_MAX {
      InstallInv(s, Key(k.tab, fd), Slot(s.slots[k].ofd, cloexec));
    }
  }

  lemma Dup3Inv(s: State, k: Key, newfd: nat, cloexec: bool)
    requires Inv(s) && k in s.slots
    ensures Inv(DoDup3(s, k, newfd, cloexec).0)
  {
    hide RefsOk, EndsOk, LocksOk, TargetsOk, BuffersOk, TablesOk, Remove, Install;
    if newfd != k.fd && newfd < OPEN_MAX {
      var k' := Key(k.tab, newfd);
      if k' in s.slots {
        RemoveInv(s, k');
        RemoveKeeps(s, k');
      }
      var s1 := if k' in s.slots then Remove(s, k') else s;
      InstallInv(s1, k', s1.slots[k].(cloexec := cloexec));
    }
  }

  lemma SetFdInv(s: State, k: Key, cloexec: bool)
    requires Inv(s) && k in s.slots
    ensures Inv(s.(slots := s.slots[k := Slot(s.slots[k].ofd, cloexec)]))
  {
    hide EndsOk, LocksOk, TablesOk, TargetsOk, BuffersOk;
    var slots' := s.slots[k := Slot(s.slots[k].ofd, cloexec)];
    forall o ensures Refs(slots', o) == Refs(s.slots, o) {}
  }

  lemma ReadInv(s: State, id: nat, n: nat, k: nat)
    requires Inv(s) && id in s.ofds
    ensures Inv(DoRead(s, id, n, k).0)
  {
    hide EndsOk, LocksOk, TablesOk, RefsOk;
    match s.ofds[id].target
    case ReadEnd(p) =>
      var buf := s.pipes[p].buf;
      if buf != [] && n > 0 {
        var m := if 1 <= k <= Min(n, |buf|) then k else Min(n, |buf|);
        WithBufInv(s, p, buf[m..]);
      }
    case WriteEnd(_) =>
    case File(i) =>
      WithOfdInv(s, id, s.ofds[id].(offset := s.ofds[id].offset + |Slice(s.files[i], s.ofds[id].offset, n)|));
  }

  lemma WriteInv(s: State, id: nat, data: seq<byte>, k: nat, rest: bool)
    requires Inv(s) && id in s.ofds
    ensures Inv(DoWrite(s, id, data, k, rest).0)
  {
    hide EndsOk, LocksOk, TablesOk, RefsOk;
    var o := s.ofds[id];
    match o.target
    case ReadEnd(_) =>
    case WriteEnd(p) =>
      var buf, room := s.pipes[p].buf, s.pipes[p].cap - |s.pipes[p].buf|;
      var m := if 1 <= k <= room then k else room;
      if |data| <= room { WithBufInv(s, p, buf + data); }
      else { WithBufInv(s, p, buf + data[..m]); }
    case File(i) =>
      var pos := if o.append then |s.files[i]| else o.offset;
      var s1 := s.(files := s.files[i := Overwrite(s.files[i], pos, data)]);
      FilesInv(s, i, Overwrite(s.files[i], pos, data));
      WithOfdInv(s1, id, o.(offset := pos + |data|));
  }

  lemma LseekInv(s: State, id: nat, whence: Whence, off: int)
    requires Inv(s) && id in s.ofds
    ensures Inv(DoLseek(s, id, whence, off).0)
  {
    hide Inv;
    var r := DoLseek(s, id, whence, off).1;
    if r.Val? { WithOfdInv(s, id, s.ofds[id].(offset := r.n)); }
  }

  lemma FlockInv(s: State, id: nat, want: Lock, nb: bool)
    requires Inv(s) && id in s.ofds
    ensures Inv(DoFlock(s, id, want, nb).0)
  {
    hide TablesOk, RefsOk, BuffersOk, EndsOk, TargetsOk;
    WithOfdInv(s, id, s.ofds[id].(lock := Unlocked));
    if !LockRefused(s, id, want) { GrantInv(s, id, want); }
  }

  lemma GrantInv(s: State, id: nat, want: Lock)
    requires Inv(s) && id in s.ofds && !LockRefused(s, id, want)
    ensures Inv(WithOfd(s, id, s.ofds[id].(lock := want)))
  {
    hide RefsOk, EndsOk, TargetsOk, BuffersOk, TablesOk;
    LockOk(s.slots, s.ofds, s.pipes, s.files, id, want);
  }

  lemma ExitInv(s: State, pid: nat)
    requires Inv(s) && pid in s.procs
    ensures Inv(DoExit(s, pid))
  {
    hide RefsOk, EndsOk, LocksOk, TargetsOk, BuffersOk, TablesOk;
    var tab := s.procs[pid];
    UsersPositive(s, pid);
    if s.users[tab] > 1 { LeaveInv(s, pid); }
    else {
      CloseBelowSpec(s, tab, OPEN_MAX, true);
      LastLeaveInv(CloseBelow(s, tab, OPEN_MAX, true), pid);
    }
  }

  lemma UsersPositive(s: State, pid: nat)
    requires Inv(s) && pid in s.procs
    ensures s.procs[pid] in s.users && s.users[s.procs[pid]] > 0
  {
  }

  lemma ApplyInv(s: State, pid: nat, c: Call)
    requires Inv(s)
    ensures Inv(Apply(s, pid, c).0)
  {
    hide Inv, DoPipe2, DoOpen, DoFork, DoExec, DoExit, OnDescriptor;
    if pid in s.procs {
      var tab := s.procs[pid];
      UsersPositive(s, pid);
      match c {
        case Pipe2(cap, nonblock, cloexec) => Pipe2Inv(s, tab, cap, nonblock, cloexec);
        case Open(_, _, _, _, _, _) => OpenInv(s, tab, c);
        case Fork(child) => ForkInv(s, tab, child);
        case CloneFiles(child) => if child !in s.procs { JoinInv(s, child, tab); }
        case Exec => ExecInv(s, pid);
        case Exit => ExitInv(s, pid);
        case _ => if Key(tab, c.fd) in s.slots { OnDescriptorInv(s, Key(tab, c.fd), c); }
      }
    }
  }

  lemma OnDescriptorInv(s: State, k: Key, c: Call)
    requires Inv(s) && k in s.slots
    ensures Inv(OnDescriptor(s, k, c).0)
  {
    hide Inv, DoRead, DoWrite, DoFlock, DoDup, DoDup3, DoLseek, Remove;
    SlotFacts(s, k);
    var id := s.slots[k].ofd;
    match c {
      case Dup(_) => DupInv(s, k, 0, false);
      case Dup3(_, newfd, cloexec) => Dup3Inv(s, k, newfd, cloexec);
      case DupFd(_, min, cloexec) => DupInv(s, k, min, cloexec);
      case SetFd(_, cloexec) => SetFdInv(s, k, cloexec);
      case SetFl(_, nonblock, append) => WithOfdInv(s, id, s.ofds[id].(nonblock := nonblock, append := append));
      case Close(_) => RemoveInv(s, k);
      case Read(_, n, m) => ReadInv(s, id, n, m);
      case Write(_, data, m, rest) => WriteInv(s, id, data, m, rest);
      case Lseek(_, whence, off) => LseekInv(s, id, whence, off);
      case Flock(_, want, nb) => FlockInv(s, id, want, nb);
      case _ =>
    }
  }

  function Run(s: State, calls: seq<(nat, Call)>): (r: State)
    requires Inv(s)
    ensures Inv(r)
    decreases |calls|
  {
    if calls == [] then s
    else
      ApplyInv(s, calls[0].0, calls[0].1);
      Run(Apply(s, calls[0].0, calls[0].1).0, calls[1..])
  }
}
