/** Processes, descriptor tables, open file descriptions, pipes.

    process -> descriptor table -> open file description -> pipe end or file.  Every link is
    counted the way a kernel counts it: a table knows how many processes use it, a
    description how many descriptors refer to it, a pipe how many descriptions hold each
    of its ends.  `Inv` says that all these kept counts are exact. */
module KernelState {
  import opened Basics

  const OPEN_MAX: nat := 1024
  /** Writes of at most this many bytes are atomic. */
  const PIPE_BUF: nat := 4096

  /** One descriptor: a number in a table. */
  datatype Key = Key(tab: nat, fd: nat)

  datatype Slot = Slot(ofd: nat, cloexec: bool)

  datatype Access = RdOnly | WrOnly | RdWr

  datatype Target = ReadEnd(pipe: nat) | WriteEnd(pipe: nat) | File(ino: nat)

  datatype Inode = PipeNode(pipe: nat) | FileNode(ino: nat)

  datatype Lock = Unlocked | Shared | Exclusive

  /** An open file description. */
  datatype Ofd = Ofd(target: Target, refs: nat, access: Access, nonblock: bool, append: bool, offset: nat, lock: Lock)

  datatype Pipe = Pipe(buf: seq<byte>, cap: nat, readers: nat, writers: nat)

  datatype State = State(
    procs: map<nat, nat>,         // process -> its table
    users: map<nat, nat>,         // table -> number of processes using it
    slots: map<Key, Slot>,        // descriptors of all tables
    ofds: map<nat, Ofd>,
    pipes: map<nat, Pipe>,
    files: map<nat, seq<byte>>,   // inode -> contents
    next: nat)                    // tables, descriptions and pipes are numbered from here

  /* ---- the invariant: every kept count is the number of things it counts ---- */

  ghost function Sharing(procs: map<nat, nat>, t: nat): set<nat> {
    set p | p in procs && procs[p] == t
  }

  ghost function Refs(slots: map<Key, Slot>, o: nat): set<Key> {
    set k | k in slots && slots[k].ofd == o
  }

  ghost function Holders(ofds: map<nat, Ofd>, t: Target): set<nat> {
    set o | o in ofds && ofds[o].target == t
  }

  ghost predicate TablesOk(procs: map<nat, nat>, users: map<nat, nat>) {
    && (forall p | p in procs :: procs[p] in users)
    && (forall t | t in users :: 0 < users[t] == |Sharing(procs, t)|)
  }

  ghost predicate SlotsOk(slots: map<Key, Slot>, users: map<nat, nat>, ofds: map<nat, Ofd>) {
    forall k | k in slots :: k.tab in users && k.fd < OPEN_MAX && slots[k].ofd in ofds
  }

  ghost predicate RefsOk(slots: map<Key, Slot>, ofds: map<nat, Ofd>) {
    forall o | o in ofds :: 0 < ofds[o].refs == |Refs(slots, o)|
  }

  ghost predicate EndsOk(ofds: map<nat, Ofd>, pipes: map<nat, Pipe>) {
    forall p | p in pipes ::
      && pipes[p].readers == |Holders(ofds, ReadEnd(p))|
      && pipes[p].writers == |Holders(ofds, WriteEnd(p))|
  }

  ghost predicate BuffersOk(pipes: map<nat, Pipe>) {
    forall p | p in pipes :: |pipes[p].buf| <= pipes[p].cap && PIPE_BUF <= pipes[p].cap
  }

  predicate TargetOk(t: Target, pipes: map<nat, Pipe>, files: map<nat, seq<byte>>) {
    match t
    case File(i) => i in files
    case ReadEnd(p) => p in pipes
    case WriteEnd(p) => p in pipes
  }

  ghost predicate TargetsOk(ofds: map<nat, Ofd>, pipes: map<nat, Pipe>, files: map<nat, seq<byte>>) {
    forall o | o in ofds :: TargetOk(ofds[o].target, pipes, files)
  }

  function InodeOf(t: Target): Inode {
    match t
    case ReadEnd(p) => PipeNode(p)
    case WriteEnd(p) => PipeNode(p)
    case File(i) => FileNode(i)
  }

  predicate LocksClash(a: Lock, b: Lock) {
    (a == Exclusive && b != Unlocked) || (b == Exclusive && a != Unlocked)
  }

  /** Two descriptions of one file never hold clashing flock locks. */
  ghost predicate LocksOk(ofds: map<nat, Ofd>) {
    forall a, b | a in ofds && b in ofds && a != b && InodeOf(ofds[a].target) == InodeOf(ofds[b].target) ::
      !LocksClash(ofds[a].lock, ofds[b].lock)
  }

  ghost predicate NumbersOk(s: State) {
    && (forall t | t in s.users :: t < s.next)
    && (forall o | o in s.ofds :: o < s.next)
    && (forall p | p in s.pipes :: p < s.next)
  }

  ghost predicate Inv(s: State) {
    && TablesOk(s.procs, s.users)
    && SlotsOk(s.slots, s.users, s.ofds)
    && RefsOk(s.slots, s.ofds)
    && EndsOk(s.ofds, s.pipes)
    && BuffersOk(s.pipes)
    && TargetsOk(s.ofds, s.pipes, s.files)
    && LocksOk(s.ofds)
    && NumbersOk(s)
  }

  /* ---- elementary changes ---- */

  function Install(s: State, k: Key, slot: Slot): State
    requires slot.ofd in s.ofds
  {
    var o := s.ofds[slot.ofd];
    s.(slots := s.slots[k := slot], ofds := s.ofds[slot.ofd := o.(refs := o.refs + 1)])
  }

  function Pred(n: nat): nat {
    if n == 0 then 0 else n - 1
  }

  function EndOpened(pipes: map<nat, Pipe>, t: Target): map<nat, Pipe> {
    match t
    case ReadEnd(p) => if p in pipes then pipes[p := pipes[p].(readers := pipes[p].readers + 1)] else pipes
    case WriteEnd(p) => if p in pipes then pipes[p := pipes[p].(writers := pipes[p].writers + 1)] else pipes
    case File(_) => pipes
  }

  function EndReleased(pipes: map<nat, Pipe>, t: Target): map<nat, Pipe> {
    match t
    case ReadEnd(p) => if p in pipes then pipes[p := pipes[p].(readers := Pred(pipes[p].readers))] else pipes
    case WriteEnd(p) => if p in pipes then pipes[p := pipes[p].(writers := Pred(pipes[p].writers))] else pipes
    case File(_) => pipes
  }

  /** A new description with its first descriptor. */
  function Create(s: State, k: Key, t: Target, access: Access, nonblock: bool, append: bool, cloexec: bool): State {
    s.(slots := s.slots[k := Slot(s.next, cloexec)],
       ofds := s.ofds[s.next := Ofd(t, 1, access, nonblock, append, 0, Unlocked)],
       pipes := EndOpened(s.pipes, t),
       next := s.next + 1)
  }

  /** Drops one descriptor; the last one takes the description with it. */
  function Remove(s: State, k: Key): State
    requires k in s.slots && s.slots[k].ofd in s.ofds
  {
    var id := s.slots[k].ofd;
    var o := s.ofds[id];
    if o.refs > 1 then
      s.(slots := s.slots - {k}, ofds := s.ofds[id := o.(refs := o.refs - 1)])
    else
      s.(slots := s.slots - {k}, ofds := s.ofds - {id}, pipes := EndReleased(s.pipes, o.target))
  }

  function WithOfd(s: State, id: nat, o: Ofd): State {
    s.(ofds := s.ofds[id := o])
  }

  function WithBuf(s: State, p: nat, buf: seq<byte>): State
    requires p in s.pipes
  {
    s.(pipes := s.pipes[p := s.pipes[p].(buf := buf)])
  }

  /** A fresh, empty table for one process. */
  function NewTable(s: State, pid: nat): State {
    s.(procs := s.procs[pid := s.next], users := s.users[s.next := 1], next := s.next + 1)
  }

  /** A pipe nobody has opened yet. */
  function NewPipe(s: State, cap: nat): State {
    s.(pipes := s.pipes[s.next := Pipe([], Max(cap, PIPE_BUF), 0, 0)], next := s.next + 1)
  }

  /** The process goes; its table stays, with one user fewer. */
  function Leave(s: State, pid: nat): State
    requires pid in s.procs && s.procs[pid] in s.users
  {
    var t := s.procs[pid];
    s.(procs := s.procs - {pid}, users := s.users[t := Pred(s.users[t])])
  }

  /* ---- each elementary change keeps the counts exact ---- */

  /** Locks play no part in the counts; a lock nobody objects to can be granted. */
  lemma LockOk(slots: map<Key, Slot>, ofds: map<nat, Ofd>, pipes: map<nat, Pipe>, files: map<nat, seq<byte>>,
      id: nat, want: Lock)
    requires RefsOk(slots, ofds) && EndsOk(ofds, pipes) && TargetsOk(ofds, pipes, files) && LocksOk(ofds) && id in ofds
    requires forall q | q in ofds && q != id && InodeOf(ofds[q].target) == InodeOf(ofds[id].target) ::
      !LocksClash(ofds[q].lock, want)
    ensures var ofds' := ofds[id := ofds[id].(lock := want)];
      RefsOk(slots, ofds') && EndsOk(ofds', pipes) && TargetsOk(ofds', pipes, files) && LocksOk(ofds')
  {
    RelabelCounts(slots, ofds, pipes, files, id, want);
    hide RefsOk, EndsOk, TargetsOk, LocksClash;
    var ofds' := ofds[id := ofds[id].(lock := want)];
    forall a, b | a in ofds' && b in ofds' && a != b && InodeOf(ofds'[a].target) == InodeOf(ofds'[b].target)
      ensures !LocksClash(ofds'[a].lock, ofds'[b].lock)
    {
      ClashSymmetric(ofds'[a].lock, ofds'[b].lock);
    }
  }

  lemma RelabelCounts(slots: map<Key, Slot>, ofds: map<nat, Ofd>, pipes: map<nat, Pipe>,
      files: map<nat, seq<byte>>, id: nat, want: Lock)
    requires RefsOk(slots, ofds) && EndsOk(ofds, pipes) && TargetsOk(ofds, pipes, files) && id in ofds
    ensures var ofds' := ofds[id := ofds[id].(lock := want)];
      RefsOk(slots, ofds') && EndsOk(ofds', pipes) && TargetsOk(ofds', pipes, files)
  {
    hide Refs;
    var ofds' := ofds[id := ofds[id].(lock := want)];
    forall p | p in pipes
      ensures pipes[p].readers == |Holders(ofds', ReadEnd(p))| && pipes[p].writers == |Holders(ofds', WriteEnd(p))|
    {
      assert Holders(ofds', ReadEnd(p)) == Holders(ofds, ReadEnd(p));
      assert Holders(ofds', WriteEnd(p)) == Holders(ofds, WriteEnd(p));
    }
  }

  lemma ClashSymmetric(a: Lock, b: Lock)
    ensures LocksClash(a, b) <==> LocksClash(b, a)
  {
  }

  lemma RefsAdd(slots: map<Key, Slot>, ofds: map<nat, Ofd>, k: Key, slot: Slot, ofds': map<nat, Ofd>)
    requires RefsOk(slots, ofds) && k !in slots && slot.ofd in ofds
    requires ofds' == ofds[slot.ofd := ofds[slot.ofd].(refs := ofds[slot.ofd].refs + 1)]
    ensures RefsOk(slots[k := slot], ofds')
  {
    forall o | o in ofds' ensures 0 < ofds'[o].refs == |Refs(slots[k := slot], o)| {
      assert Refs(slots[k := slot], o) == if o == slot.ofd then Refs(slots, o) + {k} else Refs(slots, o);
    }
  }

  lemma RefsDrop(slots: map<Key, Slot>, ofds: map<nat, Ofd>, k: Key, ofds': map<nat, Ofd>)
    requires RefsOk(slots, ofds) && k in slots && slots[k].ofd in ofds
    requires var id := slots[k].ofd;
      ofds' == if ofds[id].refs > 1 then ofds[id := ofds[id].(refs := ofds[id].refs - 1)] else ofds - {id}
    ensures RefsOk(slots - {k}, ofds')
    ensures forall k' | k' in slots && k' != k && slots[k'].ofd in ofds :: slots[k'].ofd in ofds'
  {
    var id := slots[k].ofd;
    assert k in Refs(slots, id);
    forall o | o in ofds' ensures 0 < ofds'[o].refs == |Refs(slots - {k}, o)| {
      assert Refs(slots - {k}, o) == if o == id then Refs(slots, o) - {k} else Refs(slots, o);
    }
    if ofds[id].refs == 1 {
      assert |Refs(slots, id) - {k}| == 0;
      forall k' | k' in slots && k' != k ensures slots[k'].ofd != id {
        assert k' !in Refs(slots, id) - {k};
      }
    }
  }

  lemma RefsNew(slots: map<Key, Slot>, ofds: map<nat, Ofd>, k: Key, id: nat, cloexec: bool, o: Ofd)
    requires RefsOk(slots, ofds) && k !in slots && id !in ofds && o.refs == 1
    requires forall k' | k' in slots :: slots[k'].ofd in ofds
    ensures RefsOk(slots[k := Slot(id, cloexec)], ofds[id := o])
  {
    var slots', ofds' := slots[k := Slot(id, cloexec)], ofds[id := o];
    forall q | q in ofds' ensures 0 < ofds'[q].refs == |Refs(slots', q)| {
      assert Refs(slots', q) == if q == id then {k} else Refs(slots, q);
    }
  }

  /** Same descriptions, same targets, no lock that was not there. */
  ghost predicate Similar(a: map<nat, Ofd>, b: map<nat, Ofd>) {
    a.Keys == b.Keys && forall o | o in a ::
      a[o].target == b[o].target && (b[o].lock == a[o].lock || b[o].lock == Unlocked)
  }

  lemma SimilarOk(a: map<nat, Ofd>, b: map<nat, Ofd>, pipes: map<nat, Pipe>, files: map<nat, seq<byte>>)
    requires Similar(a, b) && EndsOk(a, pipes) && TargetsOk(a, pipes, files) && LocksOk(a)
    ensures EndsOk(b, pipes) && TargetsOk(b, pipes, files) && LocksOk(b)
  {
    hide EndsOk, LocksOk;
    SimilarEnds(a, b, pipes);
    SimilarLocks(a, b);
  }

  lemma SimilarEnds(a: map<nat, Ofd>, b: map<nat, Ofd>, pipes: map<nat, Pipe>)
    requires Similar(a, b) && EndsOk(a, pipes)
    ensures EndsOk(b, pipes)
  {
    forall p | p in pipes
      ensures pipes[p].readers == |Holders(b, ReadEnd(p))| && pipes[p].writers == |Holders(b, WriteEnd(p))|
    {
      assert Holders(b, ReadEnd(p)) == Holders(a, ReadEnd(p));
      assert Holders(b, WriteEnd(p)) == Holders(a, WriteEnd(p));
    }
  }

  lemma SimilarLocks(a: map<nat, Ofd>, b: map<nat, Ofd>)
    requires Similar(a, b) && LocksOk(a)
    ensures LocksOk(b)
  {
  }

  lemma HoldersAdd(ofds: map<nat, Ofd>, id: nat, o: Ofd, t: Target)
    requires id !in ofds
    ensures |Holders(ofds[id := o], t)| == |Holders(ofds, t)| + if o.target == t then 1 else 0
  {
    assert Holders(ofds[id := o], t) == if o.target == t then Holders(ofds, t) + {id} else Holders(ofds, t);
  }

  lemma HoldersDrop(ofds: map<nat, Ofd>, id: nat, t: Target)
    requires id in ofds
    ensures |Holders(ofds, t)| == |Holders(ofds - {id}, t)| + if ofds[id].target == t then 1 else 0
  {
    assert Holders(ofds, t) == if ofds[id].target == t then Holders(ofds - {id}, t) + {id} else Holders(ofds - {id}, t);
  }

  lemma EndsAdd(ofds: map<nat, Ofd>, pipes: map<nat, Pipe>, id: nat, o: Ofd)
    requires EndsOk(ofds, pipes) && id !in ofds
    ensures EndsOk(ofds[id := o], EndOpened(pipes, o.target))
  {
    hide Holders;
    var pipes' := EndOpened(pipes, o.target);
    forall p | p in pipes
      ensures pipes'[p].readers == |Holders(ofds[id := o], ReadEnd(p))| &&
        pipes'[p].writers == |Holders(ofds[id := o], WriteEnd(p))|
    {
      HoldersAdd(ofds, id, o, ReadEnd(p));
      HoldersAdd(ofds, id, o, WriteEnd(p));
    }
  }

  lemma EndsDrop(ofds: map<nat, Ofd>, pipes: map<nat, Pipe>, id: nat)
    requires EndsOk(ofds, pipes) && id in ofds
    ensures EndsOk(ofds - {id}, EndReleased(pipes, ofds[id].target))
  {
    hide Holders;
    var pipes' := EndReleased(pipes, ofds[id].target);
    forall p | p in pipes
      ensures pipes'[p].readers == |Holders(ofds - {id}, ReadEnd(p))| &&
        pipes'[p].writers == |Holders(ofds - {id}, WriteEnd(p))|
    {
      HoldersDrop(ofds, id, ReadEnd(p));
      HoldersDrop(ofds, id, WriteEnd(p));
    }
  }

  lemma LastDrop(ofds: map<nat, Ofd>, pipes: map<nat, Pipe>, files: map<nat, seq<byte>>, id: nat)
    requires id in ofds && EndsOk(ofds, pipes) && TargetsOk(ofds, pipes, files) && LocksOk(ofds) && BuffersOk(pipes)
    ensures var ofds', pipes' := ofds - {id}, EndReleased(pipes, ofds[id].target);
      pipes'.Keys == pipes.Keys && EndsOk(ofds', pipes') && TargetsOk(ofds', pipes', files) && LocksOk(ofds') &&
        BuffersOk(pipes')
  {
    hide EndsOk;
    EndsDrop(ofds, pipes, id);
  }

  lemma InstallInv(s: State, k: Key, slot: Slot)
    requires Inv(s) && k !in s.slots && k.tab in s.users && k.fd < OPEN_MAX && slot.ofd in s.ofds
    ensures Inv(Install(s, k, slot))
  {
    hide RefsOk, EndsOk, LocksOk, TargetsOk, BuffersOk, TablesOk;
    var s' := Install(s, k, slot);
    RefsAdd(s.slots, s.ofds, k, slot, s'.ofds);
    SimilarOk(s.ofds, s'.ofds, s.pipes, s.files);
  }

  lemma WithOfdInv(s: State, id: nat, o: Ofd)
    requires Inv(s) && id in s.ofds && o.refs == s.ofds[id].refs && o.target == s.ofds[id].target
    requires o.lock == s.ofds[id].lock || o.lock == Unlocked
    ensures Inv(WithOfd(s, id, o))
  {
    hide TablesOk, EndsOk, LocksOk, TargetsOk, BuffersOk, Refs;
    SimilarOk(s.ofds, s.ofds[id := o], s.pipes, s.files);
  }

  lemma CreateInv(s: State, k: Key, t: Target, access: Access, nonblock: bool, append: bool, cloexec: bool)
    requires Inv(s) && k !in s.slots && k.tab in s.users && k.fd < OPEN_MAX && TargetOk(t, s.pipes, s.files)
    ensures Inv(Create(s, k, t, access, nonblock, append, cloexec))
  {
    hide TablesOk, EndsOk, RefsOk, LocksOk, TargetsOk, BuffersOk;
    var o := Ofd(t, 1, access, nonblock, append, 0, Unlocked);
    RefsNew(s.slots, s.ofds, k, s.next, cloexec, o);
    EndsAdd(s.ofds, s.pipes, s.next, o);
    NewOfdOk(s.ofds, s.pipes, s.files, s.next, o);
  }

  /** A new, unlocked description of something that is there. */
  lemma NewOfdOk(ofds: map<nat, Ofd>, pipes: map<nat, Pipe>, files: map<nat, seq<byte>>, id: nat, o: Ofd)
    requires TargetsOk(ofds, pipes, files) && LocksOk(ofds) && BuffersOk(pipes)
    requires id !in ofds && TargetOk(o.target, pipes, files) && o.lock == Unlocked
    ensures var pipes' := EndOpened(pipes, o.target);
      pipes'.Keys == pipes.Keys && TargetsOk(ofds[id := o], pipes', files) && LocksOk(ofds[id := o]) &&
        BuffersOk(pipes')
  {
  }

  /** New contents for one file. */
  lemma FilesInv(s: State, i: nat, content: seq<byte>)
    requires Inv(s)
    ensures Inv(s.(files := s.files[i := content]))
  {
    hide RefsOk, EndsOk, LocksOk, BuffersOk, TablesOk, SlotsOk;
  }

  lemma RemoveInv(s: State, k: Key)
    requires Inv(s) && k in s.slots
    ensures Inv(Remove(s, k))
  {
    hide TablesOk, EndsOk, TargetsOk, LocksOk, BuffersOk, Refs;
    var s' := Remove(s, k);
    var id := s.slots[k].ofd;
    RefsDrop(s.slots, s.ofds, k, s'.ofds);
    if s.ofds[id].refs > 1 {
      SimilarOk(s.ofds, s'.ofds, s.pipes, s.files);
    } else {
      LastDrop(s.ofds, s.pipes, s.files, id);
    }
  }

  lemma WithBufInv(s: State, p: nat, buf: seq<byte>)
    requires Inv(s) && p in s.pipes && |buf| <= s.pipes[p].cap
    ensures Inv(WithBuf(s, p, buf))
  {
    hide RefsOk, LocksOk, TablesOk, Holders;
  }

  lemma NewTableInv(s: State, pid: nat)
    requires Inv(s) && pid !in s.procs
    ensures Inv(NewTable(s, pid))
    ensures forall k | k in s.slots :: k.tab != s.next
  {
    hide RefsOk, EndsOk, LocksOk, TargetsOk, BuffersOk, TablesOk, SlotsOk;
    TablesNew(s.procs, s.users, pid, s.next);
    SlotsMoreTables(s.slots, s.users, s.ofds, s.next);
  }

  lemma TablesNew(procs: map<nat, nat>, users: map<nat, nat>, pid: nat, t: nat)
    requires TablesOk(procs, users) && pid !in procs && t !in users
    ensures TablesOk(procs[pid := t], users[t := 1])
  {
    var procs', users' := procs[pid := t], users[t := 1];
    forall u | u in users' ensures 0 < users'[u] == |Sharing(procs', u)| {
      assert Sharing(procs', u) == if u == t then {pid} else Sharing(procs, u);
    }
  }

  lemma SlotsMoreTables(slots: map<Key, Slot>, users: map<nat, nat>, ofds: map<nat, Ofd>, t: nat)
    requires SlotsOk(slots, users, ofds) && t !in users
    ensures SlotsOk(slots, users[t := 1], ofds)
    ensures forall k | k in slots :: k.tab != t
  {
  }

  lemma SharingDrop(procs: map<nat, nat>, pid: nat, t: nat)
    requires pid in procs
    ensures |Sharing(procs, t)| == |Sharing(procs - {pid}, t)| + if procs[pid] == t then 1 else 0
  {
    assert Sharing(procs, t) == if procs[pid] == t then Sharing(procs - {pid}, t) + {pid}
      else Sharing(procs - {pid}, t);
  }

  lemma SharingEmpty(procs: map<nat, nat>, t: nat, p: nat)
    requires |Sharing(procs, t)| == 0 && p in procs
    ensures procs[p] != t
  {
    assert p !in Sharing(procs, t);
  }

  /** One more process on an existing table. */
  lemma JoinInv(s: State, pid: nat, t: nat)
    requires Inv(s) && pid !in s.procs && t in s.users
    ensures Inv(s.(procs := s.procs[pid := t], users := s.users[t := s.users[t] + 1]))
  {
    hide RefsOk, EndsOk, LocksOk, TargetsOk, BuffersOk, Sharing;
    var procs', users' := s.procs[pid := t], s.users[t := s.users[t] + 1];
    assert procs' - {pid} == s.procs;
    forall u | u in users' ensures 0 < users'[u] == |Sharing(procs', u)| { SharingDrop(procs', pid, u); }
  }

  lemma LeaveInv(s: State, pid: nat)
    requires Inv(s) && pid in s.procs && s.users[s.procs[pid]] > 1
    ensures Inv(Leave(s, pid))
  {
    hide RefsOk, EndsOk, LocksOk, TargetsOk, BuffersOk, Sharing;
    var s' := Leave(s, pid);
    forall t | t in s'.users ensures 0 < s'.users[t] == |Sharing(s'.procs, t)| { SharingDrop(s.procs, pid, t); }
  }

  /** The last user of a table may go once the table is empty. */
  lemma LastLeaveInv(s: State, pid: nat)
    requires Inv(s) && pid in s.procs && s.users[s.procs[pid]] == 1
    requires forall k | k in s.slots :: k.tab != s.procs[pid]
    ensures Inv(s.(procs := s.procs - {pid}, users := s.users - {s.procs[pid]}))
  {
    hide RefsOk, EndsOk, LocksOk, TargetsOk, BuffersOk, Sharing;
    var tab, procs', users' := s.procs[pid], s.procs - {pid}, s.users - {s.procs[pid]};
    forall t | t in users' ensures 0 < users'[t] == |Sharing(procs', t)| { SharingDrop(s.procs, pid, t); }
    forall p | p in procs' ensures procs'[p] in users' {
      SharingDrop(s.procs, pid, tab);
      SharingEmpty(procs', tab, p);
    }
  }

  lemma NewPipeInv(s: State, cap: nat)
    requires Inv(s)
    ensures Inv(NewPipe(s, cap))
  {
    hide RefsOk, EndsOk, LocksOk, TargetsOk, BuffersOk, TablesOk, SlotsOk;
    PipesNew(s.ofds, s.pipes, s.files, s.next, cap);
  }

  /** A new pipe nobody has a description of. */
  lemma PipesNew(ofds: map<nat, Ofd>, pipes: map<nat, Pipe>, files: map<nat, seq<byte>>, id: nat, cap: nat)
    requires EndsOk(ofds, pipes) && TargetsOk(ofds, pipes, files) && BuffersOk(pipes) && id !in pipes
    ensures var pipes' := pipes[id := Pipe([], Max(cap, PIPE_BUF), 0, 0)];
      EndsOk(ofds, pipes') && TargetsOk(ofds, pipes', files) && BuffersOk(pipes')
  {
    assert Holders(ofds, ReadEnd(id)) == {} && Holders(ofds, WriteEnd(id)) == {};
    hide Holders;
  }
}
