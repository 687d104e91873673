/** What a call leaves alone: everything but the description it works on, the buffer or file
    behind it, and the descriptors it names. */
module KernelFrame {
  import opened Basics
  import opened FlatFile
  import opened KernelState
  import opened Kernel

  predicate UsesDescription(c: Call) {
    c.Read? || c.Write? || c.Lseek? || c.SetFl? || c.Flock?
  }

  /** The description a call works on, if it works on one and its descriptor is open. */
  function Used(s: State, pid: nat, c: Call): Option<nat> {
    if UsesDescription(c) && pid in s.procs && Key(s.procs[pid], c.fd) in s.slots
    then Some(s.slots[Key(s.procs[pid], c.fd)].ofd) else None
  }

  /** The file a call opens. */
  function Opened(c: Call): Option<nat> {
    if c.Open? then Some(c.ino) else None
  }

  /** The same description but for the number of its descriptors. */
  predicate SameButRefs(a: Ofd, b: Ofd) {
    b == a.(refs := b.refs)
  }

  /** What a new description leads to: the file opened or a new pipe. */
  predicate NewTarget(t: Target, next: nat, file: Option<nat>) {
    match t
    case File(i) => file == Some(i)
    case ReadEnd(p) => next <= p
    case WriteEnd(p) => next <= p
  }

  /** Descriptions and pipes that stay are what they were, new ones have new numbers, and no
      file but the one opened is touched. */
  ghost predicate Calm(s: State, r: State, file: Option<nat>) {
    && s.next <= r.next
    && (forall o | o in r.ofds && o in s.ofds :: SameButRefs(s.ofds[o], r.ofds[o]))
    && (forall o | o in r.ofds && o !in s.ofds :: s.next <= o && NewTarget(r.ofds[o].target, s.next, file))
    && (forall p | p in s.pipes :: p in r.pipes && r.pipes[p].buf == s.pipes[p].buf && r.pipes[p].cap == s.pipes[p].cap)
    && (forall p | p in r.pipes && p !in s.pipes :: r.pipes[p].buf == [])
    && (forall i | i in s.files && file != Some(i) :: i in r.files && r.files[i] == s.files[i])
    && (forall i | i in r.files && file != Some(i) :: i in s.files)
  }

  lemma NumbersBounded(s: State)
    requires Inv(s)
    ensures forall o | o in s.ofds :: o < s.next
    ensures forall p | p in s.pipes :: p < s.next
  {
    hide RefsOk, EndsOk, LocksOk, TargetsOk, BuffersOk, TablesOk, SlotsOk;
  }

  lemma TargetFacts(s: State, o: nat)
    requires Inv(s) && o in s.ofds
    ensures TargetOk(s.ofds[o].target, s.pipes, s.files)
  {
    hide RefsOk, EndsOk, LocksOk, BuffersOk, TablesOk, SlotsOk;
  }

  lemma BufferFits(s: State, t: Target)
    requires Inv(s)
    ensures t.WriteEnd? && t.pipe in s.pipes ==> |s.pipes[t.pipe].buf| <= s.pipes[t.pipe].cap
  {
    hide RefsOk, EndsOk, LocksOk, TargetsOk, TablesOk, SlotsOk;
  }

  lemma CalmSelf(s: State, file: Option<nat>)
    ensures Calm(s, s, file)
  {
  }

  lemma CalmTrans(a: State, b: State, c: State, file: Option<nat>)
    requires Calm(a, b, file) && Calm(b, c, file) && forall o | o in a.ofds :: o < a.next
    ensures Calm(a, c, file)
  {
    forall o | o in c.ofds && o in a.ofds ensures o in b.ofds { assert o < b.next; }
  }

  lemma KeepsIsCalm(s: State, r: State)
    requires Keeps(s, r) && r.ofds.Keys <= s.ofds.Keys && s.next <= r.next && r.files == s.files
    ensures Calm(s, r, None)
  {
  }

  lemma TablesAreCalm(s: State, r: State)
    requires r.ofds == s.ofds && r.pipes == s.pipes && r.files == s.files && s.next <= r.next
    ensures Calm(s, r, None)
  {
  }

  lemma CreateCalm(s: State, k: Key, t: Target, access: Access, nonblock: bool, append: bool, cloexec: bool)
    requires t.File? && forall o | o in s.ofds :: o < s.next
    ensures Calm(s, Create(s, k, t, access, nonblock, append, cloexec), Some(t.ino))
  {
  }

  /** Two new descriptions of a new pipe. */
  lemma NewEndsCalm(s: State, r: State, p: nat, a: Ofd, b: Ofd)
    requires s.next <= p && p !in s.pipes && s.next <= r.next && r.files == s.files
    requires r.ofds == s.ofds[p + 1 := a][p + 2 := b]
    requires p + 1 !in s.ofds && p + 2 !in s.ofds && a.target == ReadEnd(p) && b.target == WriteEnd(p)
    requires p in r.pipes && r.pipes == s.pipes[p := r.pipes[p]] && r.pipes[p].buf == []
    ensures Calm(s, r, None)
  {
  }

  lemma Pipe2Calm(s: State, tab: nat, cap: nat, nonblock: bool, cloexec: bool)
    requires Inv(s)
    ensures Calm(s, DoPipe2(s, tab, cap, nonblock, cloexec).0, None)
  {
    hide Inv, Calm;
    NumbersBounded(s);
    CalmSelf(s, None);
    var (r, a) := DoPipe2(s, tab, cap, nonblock, cloexec);
    if a.Two? {
      var p := s.next;
      assert r.pipes == s.pipes[p := r.pipes[p]];
      NewEndsCalm(s, r, p, r.ofds[p + 1], r.ofds[p + 2]);
    }
  }

  lemma OpenCalm(s: State, tab: nat, c: Call)
    requires Inv(s) && c.Open?
    ensures Calm(s, DoOpen(s, tab, c).0, Some(c.ino))
  {
    hide Inv, Create, Calm;
    NumbersBounded(s);
    CalmSelf(s, Some(c.ino));
    var fd := LowestFree(s, tab, 0);
    var content := if c.ino in s.files && !c.trunc then s.files[c.ino] else [];
    var s1 := s.(files := s.files[c.ino := content]);
    NewContentCalm(s, c.ino, content);
    CreateCalm(s1, Key(tab, fd), File(c.ino), c.access, false, c.append, c.cloexec);
    CalmTrans(s, s1, Create(s1, Key(tab, fd), File(c.ino), c.access, false, c.append, c.cloexec), Some(c.ino));
  }

  lemma NewContentCalm(s: State, i: nat, content: seq<byte>)
    ensures Calm(s, s.(files := s.files[i := content]), Some(i))
  {
  }

  lemma ForkCalm(s: State, tab: nat, child: nat)
    requires Inv(s) && tab in s.users
    ensures Calm(s, DoFork(s, tab, child).0, None)
  {
    hide Inv, Keeps, Calm, Copied;
    NumbersBounded(s);
    CalmSelf(s, None);
    if child !in s.procs {
      TableNumber(s, tab);
      NewTableInv(s, child);
      var s1 := NewTable(s, child);
      CopyBelowSpec(s1, tab, s.next, OPEN_MAX);
      TablesAreCalm(s, s1);
      KeepsIsCalm(s1, CopyBelow(s1, tab, s.next, OPEN_MAX));
      CalmTrans(s, s1, CopyBelow(s1, tab, s.next, OPEN_MAX), None);
    }
  }

  lemma UnshareCalm(s: State, pid: nat)
    requires Inv(s) && pid in s.procs && s.procs[pid] in s.users && s.users[s.procs[pid]] > 1
    ensures Calm(s, Unshare(s, pid), None)
  {
    hide Inv, Keeps, Calm, Copied;
    var tab := s.procs[pid];
    NumbersBounded(s);
    TableNumber(s, tab);
    LeaveInv(s, pid);
    NewTableInv(Leave(s, pid), pid);
    var s1 := NewTable(Leave(s, pid), pid);
    CopyBelowSpec(s1, tab, s.next, OPEN_MAX);
    TablesAreCalm(s, s1);
    KeepsIsCalm(s1, CopyBelow(s1, tab, s.next, OPEN_MAX));
    CalmTrans(s, s1, CopyBelow(s1, tab, s.next, OPEN_MAX), None);
  }

  lemma ExecCalm(s: State, pid: nat)
    requires Inv(s) && pid in s.procs
    ensures Calm(s, DoExec(s, pid), None)
  {
    hide Inv, Keeps, Calm, Unshare;
    UsersPositive(s, pid);
    NumbersBounded(s);
    CalmSelf(s, None);
    var s1 := if s.users[s.procs[pid]] > 1 then Unshare(s, pid) else s;
    if s.users[s.procs[pid]] > 1 { UnshareCalm(s, pid); }
    CloseBelowSpec(s1, s1.procs[pid], OPEN_MAX, false);
    KeepsIsCalm(s1, CloseBelow(s1, s1.procs[pid], OPEN_MAX, false));
    CalmTrans(s, s1, CloseBelow(s1, s1.procs[pid], OPEN_MAX, false), None);
  }

  lemma ExitCalm(s: State, pid: nat)
    requires Inv(s) && pid in s.procs
    ensures Calm(s, DoExit(s, pid), None)
  {
    hide Inv, Keeps, Calm;
    UsersPositive(s, pid);
    NumbersBounded(s);
    var tab := s.procs[pid];
    if s.users[tab] > 1 {
      TablesAreCalm(s, DoExit(s, pid));
    } else {
      var s1 := CloseBelow(s, tab, OPEN_MAX, true);
      CloseBelowSpec(s, tab, OPEN_MAX, true);
      KeepsIsCalm(s, s1);
      TablesAreCalm(s1, DoExit(s, pid));
      CalmTrans(s, s1, DoExit(s, pid), None);
    }
  }

  lemma DupCalm(s: State, k: Key, min: nat, cloexec: bool)
    requires Inv(s) && k in s.slots
    ensures Calm(s, DoDup(s, k, min, cloexec).0, None)
  {
    hide Inv, Keeps, Calm, Install;
    CalmSelf(s, None);
    SlotFacts(s, k);
    var fd := LowestFree(s, k.tab, min);
    if min < OPEN_MAX && fd < OPEN_MAX {
      InstallKeeps(s, Key(k.tab, fd), Slot(s.slots[k].ofd, cloexec));
      KeepsIsCalm(s, Install(s, Key(k.tab, fd), Slot(s.slots[k].ofd, cloexec)));
    }
  }

  lemma Dup3Calm(s: State, k: Key, newfd: nat, cloexec: bool)
    requires Inv(s) && k in s.slots
    ensures Calm(s, DoDup3(s, k, newfd, cloexec).0, None)
  {
    hide Inv, Keeps, Calm, Install, Remove;
    NumbersBounded(s);
    CalmSelf(s, None);
    SlotFacts(s, k);
    if newfd != k.fd && newfd < OPEN_MAX {
      var k' := Key(k.tab, newfd);
      if k' in s.slots {
        SlotFacts(s, k');
        RemoveInv(s, k');
        RemoveKeeps(s, k');
        KeepsIsCalm(s, Remove(s, k'));
      }
      var s1 := if k' in s.slots then Remove(s, k') else s;
      SlotFacts(s1, k);
      InstallKeeps(s1, k', s1.slots[k].(cloexec := cloexec));
      KeepsIsCalm(s1, Install(s1, k', s1.slots[k].(cloexec := cloexec)));
      CalmTrans(s, s1, Install(s1, k', s1.slots[k].(cloexec := cloexec)), None);
    }
  }

  lemma DescriptorCalm(s: State, k: Key, c: Call)
    requires Inv(s) && k in s.slots && !UsesDescription(c)
    ensures Calm(s, OnDescriptor(s, k, c).0, None)
  {
    hide Inv, Keeps, Calm, DoDup, DoDup3, Remove;
    CalmSelf(s, None);
    SlotFacts(s, k);
    if c.Dup? { DupCalm(s, k, 0, false); }
    else if c.DupFd? { DupCalm(s, k, c.min, c.cloexec); }
    else if c.Dup3? { Dup3Calm(s, k, c.newfd, c.cloexec); }
    else if c.SetFd? { TablesAreCalm(s, OnDescriptor(s, k, c).0); }
    else if c.Close? {
      RemoveKeeps(s, k);
      KeepsIsCalm(s, Remove(s, k));
    }
  }

  /** A call that works on no description changes none, no buffer, and no file but one it opens. */
  lemma CalmStep(s: State, pid: nat, c: Call)
    requires Inv(s) && Used(s, pid, c).None?
    ensures Calm(s, Apply(s, pid, c).0, Opened(c))
  {
    hide Inv, Calm, DoFork, DoExec, DoExit, DoPipe2, DoOpen, OnDescriptor;
    CalmSelf(s, Opened(c));
    if pid in s.procs {
      var tab := s.procs[pid];
      UsersPositive(s, pid);
      if c.Pipe2? { Pipe2Calm(s, tab, c.cap, c.nonblock, c.cloexec); }
      else if c.Open? { OpenCalm(s, tab, c); }
      else if c.Fork? { ForkCalm(s, tab, c.child); }
      else if c.CloneFiles? { TablesAreCalm(s, Apply(s, pid, c).0); }
      else if c.Exec? { ExecCalm(s, pid); }
      else if c.Exit? { ExitCalm(s, pid); }
      else if Key(tab, c.fd) in s.slots { DescriptorCalm(s, Key(tab, c.fd), c); }
    }
  }

  /** r is s but for the description o, the contents of pipes and the contents of files. */
  ghost predicate OnlyUses(s: State, r: State, o: nat) {
    && r.slots == s.slots && r.procs == s.procs && r.users == s.users && r.next == s.next
    && o in s.ofds && o in r.ofds && r.ofds == s.ofds[o := r.ofds[o]]
    && r.ofds[o].target == s.ofds[o].target && r.ofds[o].refs == s.ofds[o].refs
    && r.ofds[o].access == s.ofds[o].access
    && r.pipes.Keys == s.pipes.Keys && (forall p | p in s.pipes :: r.pipes[p] == s.pipes[p].(buf := r.pipes[p].buf))
    && r.files.Keys == s.files.Keys
  }

  lemma OnlyUsesOfd(s: State, files: map<nat, seq<byte>>, o: nat, d: Ofd)
    requires o in s.ofds && d.target == s.ofds[o].target && d.refs == s.ofds[o].refs && d.access == s.ofds[o].access
    requires files.Keys == s.files.Keys
    ensures OnlyUses(s, WithOfd(s.(files := files), o, d), o)
  {
  }

  lemma OnlyUsesBuf(s: State, p: nat, buf: seq<byte>, o: nat)
    requires o in s.ofds && p in s.pipes
    ensures OnlyUses(s, WithBuf(s, p, buf), o)
  {
  }

  lemma OnlyUsesSelf(s: State, o: nat)
    requires o in s.ofds
    ensures OnlyUses(s, s, o)
  {
    assert s.ofds[o := s.ofds[o]] == s.ofds;
  }

  lemma ReadUses(s: State, o: nat, n: nat, k: nat)
    requires Inv(s) && o in s.ofds
    ensures OnlyUses(s, DoRead(s, o, n, k).0, o) && DoRead(s, o, n, k).0.files == s.files
    ensures o in DoRead(s, o, n, k).0.ofds && DoRead(s, o, n, k).0.ofds[o].lock == s.ofds[o].lock
  {
    hide Inv, OnlyUses;
    TargetFacts(s, o);
    OnlyUsesSelf(s, o);
    var t, r := s.ofds[o].target, DoRead(s, o, n, k).0;
    if t.ReadEnd? {
      OnlyUsesBuf(s, t.pipe, r.pipes[t.pipe].buf, o);
    } else if t.File? {
      OnlyUsesOfd(s, s.files, o, r.ofds[o]);
    }
  }

  lemma WriteUses(s: State, o: nat, data: seq<byte>, k: nat, rest: bool)
    requires Inv(s) && o in s.ofds
    ensures o in DoWrite(s, o, data, k, rest).0.ofds && DoWrite(s, o, data, k, rest).0.ofds[o].lock == s.ofds[o].lock
    ensures var r := DoWrite(s, o, data, k, rest).0;
      OnlyUses(s, r, o) &&
      forall i | i in s.files && s.ofds[o].target != File(i) :: i in r.files && r.files[i] == s.files[i]
  {
    hide Inv, OnlyUses, Overwrite;
    TargetFacts(s, o);
    BufferFits(s, s.ofds[o].target);
    OnlyUsesSelf(s, o);
    var t, r := s.ofds[o].target, DoWrite(s, o, data, k, rest).0;
    if t.WriteEnd? {
      OnlyUsesBuf(s, t.pipe, r.pipes[t.pipe].buf, o);
    } else if t.File? {
      OnlyUsesOfd(s, r.files, o, r.ofds[o]);
    }
  }

  /** A call that works on a description changes no other. */
  lemma UsedStep(s: State, pid: nat, c: Call, o: nat)
    requires Inv(s) && Used(s, pid, c) == Some(o)
    ensures o in s.ofds && OnlyUses(s, Apply(s, pid, c).0, o)
    ensures forall i | i in s.files && !(c.Write? && s.ofds[o].target == File(i)) ::
      i in Apply(s, pid, c).0.files && Apply(s, pid, c).0.files[i] == s.files[i]
    ensures !c.Read? && !c.Write? ==> Apply(s, pid, c).0.pipes == s.pipes
    ensures !c.Flock? ==> Apply(s, pid, c).0.ofds[o].lock == s.ofds[o].lock
  {
    hide Inv, OnlyUses, DoRead, DoWrite, LockRefused;
    var k := Key(s.procs[pid], c.fd);
    SlotFacts(s, k);
    OnlyUsesSelf(s, o);
    var d := s.ofds[o];
    var r := OnDescriptor(s, k, c).0;
    assert r == Apply(s, pid, c).0;
    if c.Read? { ReadUses(s, o, c.n, c.k); }
    else if c.Write? { WriteUses(s, o, c.data, c.k, c.rest); }
    else if c.Lseek? { if r != s { OnlyUsesOfd(s, s.files, o, d.(offset := r.ofds[o].offset)); } }
    else if c.SetFl? { OnlyUsesOfd(s, s.files, o, d.(nonblock := c.nonblock, append := c.append)); }
    else if c.Flock? { if r != s { OnlyUsesOfd(s, s.files, o, d.(lock := r.ofds[o].lock)); } }
  }

  /** Whatever a call does, numbers are not used again and targets do not change. */
  lemma StepEvolves(s: State, pid: nat, c: Call)
    requires Inv(s)
    ensures var r := Apply(s, pid, c).0;
      && s.next <= r.next
      && (forall o | o in r.ofds && o in s.ofds :: r.ofds[o].target == s.ofds[o].target)
      && (forall o | o in r.ofds && o !in s.ofds :: s.next <= o && NewTarget(r.ofds[o].target, s.next, Opened(c)))
      && (forall p | p in s.pipes :: p in r.pipes && r.pipes[p].cap == s.pipes[p].cap)
  {
    hide Inv, Apply;
    if Used(s, pid, c).Some? { UsedStep(s, pid, c, Used(s, pid, c).value); } else { CalmStep(s, pid, c); }
  }
}
