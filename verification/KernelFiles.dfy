/** Regular files in whole runs of the kernel model: what any processes do to one file, through
    descriptors made by open, dup, dup3, F_DUPFD, fork, clone or kept by exec, is what FileRuns
    does, with one index for each open file description. */
module KernelFiles {
  import opened Basics
  import opened FlatFile
  import opened KernelState
  import opened Kernel
  import opened KernelProps
  import opened KernelFrame
  import opened Descriptors
  import FileRuns

  function IndexOf(ids: seq<nat>, o: nat): (j: nat)
    ensures j <= |ids| && (j < |ids| ==> ids[j] == o) && (o in ids ==> j < |ids|)
  {
    if ids == [] || ids[0] == o then 0 else 1 + IndexOf(ids[1..], o)
  }

  /** Whether the call is an open of file i that succeeds. */
  predicate Opens(s: State, pid: nat, c: Call, i: nat)
    requires Inv(s)
  {
    c.Open? && c.ino == i && Apply(s, pid, c).1.Val?
  }

  /** What the call does to file i: nothing, or one operation on the description with the
      index of the one its descriptor leads to.  All copies of a descriptor have one index. */
  function Project(s: State, pid: nat, c: Call, i: nat, ids: seq<nat>): seq<FileRuns.Op>
    requires Inv(s)
  {
    if Opens(s, pid, c, i) then [FileRuns.OpOpen(c.append, c.trunc)]
    else
      var o := Used(s, pid, c);
      if o.None? || o.value !in s.ofds || s.ofds[o.value].target != File(i) then []
      else OnFile(c, s.ofds[o.value].access, IndexOf(ids, o.value))
  }

  /** A description opened write-only cannot be read, nor a read-only one written. */
  function OnFile(c: Call, access: Access, j: nat): seq<FileRuns.Op> {
    if c.Read? && access != WrOnly then [FileRuns.OpRead(j, c.n)]
    else if c.Write? && access != RdOnly then [FileRuns.OpWrite(j, c.data)]
    else if c.Lseek? then [FileRuns.OpSeek(j, c.whence, c.off)]
    else if c.SetFl? then [FileRuns.OpFlags(j, c.append)]
    else []
  }

  function NewIds(s: State, pid: nat, c: Call, i: nat, ids: seq<nat>): seq<nat>
    requires Inv(s)
  {
    if Opens(s, pid, c, i) then ids + [s.next] else ids
  }

  /** The flat state f shows file i of s: the same bytes, and for every description of it that
      is still open the same offset and append flag. */
  ghost predicate Mirrors(s: State, i: nat, f: FileRuns.Flat, ids: seq<nat>) {
    && |f.at| == |ids|
    && f.bytes == (if i in s.files then s.files[i] else [])
    && (forall j | 0 <= j < |ids| :: ids[j] < s.next)
    && (forall o | o in s.ofds && s.ofds[o].target == File(i) :: o in ids)
    && (forall j | 0 <= j < |ids| && ids[j] in s.ofds :: Standing(s.ofds[ids[j]], f.at[j], i))
    && (forall j, k | 0 <= j < k < |ids| :: ids[j] != ids[k])
  }

  predicate Standing(o: Ofd, p: FileRuns.Position, i: nat) {
    o.target == File(i) && p == FileRuns.Position(o.offset, o.append)
  }

  function After(f: FileRuns.Flat, ops: seq<FileRuns.Op>): FileRuns.Flat {
    if ops == [] then f else FileRuns.Step(f, ops[0]).0
  }

  /** A call that works on no description and opens something else. */
  lemma CalmMirrors(s: State, r: State, file: Option<nat>, i: nat, f: FileRuns.Flat, ids: seq<nat>)
    requires Mirrors(s, i, f, ids) && Calm(s, r, file) && file != Some(i) && forall o | o in s.ofds :: o < s.next
    ensures Mirrors(r, i, f, ids)
  {
    forall o | o in r.ofds && r.ofds[o].target == File(i) ensures o in ids {
      assert o !in s.ofds ==> NewTarget(r.ofds[o].target, s.next, file);
    }
  }

  lemma OpenMirrors(s: State, r: State, i: nat, f: FileRuns.Flat, ids: seq<nat>, o: Ofd, trunc: bool)
    requires Mirrors(s, i, f, ids) && r.next == s.next + 1 && s.next !in s.ofds
    requires r.ofds == s.ofds[s.next := o] && o.target == File(i) && o.offset == 0
    requires r.files == s.files[i := if i in s.files && !trunc then s.files[i] else []]
    ensures Mirrors(r, i, FileRuns.Step(f, FileRuns.OpOpen(o.append, trunc)).0, ids + [s.next])
  {
    var ids' := ids + [s.next];
    assert forall q | q in ids :: q in ids';
    assert ids'[|ids|] == s.next;
  }

  /** One description of file i changes, and the file with it. */
  lemma UsedMirrors(s: State, r: State, i: nat, f: FileRuns.Flat, g: FileRuns.Flat, ids: seq<nat>, o: nat)
    requires Mirrors(s, i, f, ids) && o in s.ofds && s.ofds[o].target == File(i)
    requires o in r.ofds && r.ofds == s.ofds[o := r.ofds[o]] && r.next == s.next && i in r.files
    requires IndexOf(ids, o) < |f.at| == |g.at| && g.at == f.at[IndexOf(ids, o) := g.at[IndexOf(ids, o)]]
    requires g.bytes == r.files[i] && Standing(r.ofds[o], g.at[IndexOf(ids, o)], i)
    ensures Mirrors(r, i, g, ids)
  {
  }

  /** A description of something else changes. */
  lemma ElsewhereMirrors(s: State, r: State, i: nat, f: FileRuns.Flat, ids: seq<nat>, o: nat)
    requires Mirrors(s, i, f, ids) && o in s.ofds && s.ofds[o].target != File(i)
    requires o in r.ofds && r.ofds == s.ofds[o := r.ofds[o]] && r.ofds[o].target == s.ofds[o].target && r.next == s.next
    requires (i in r.files <==> i in s.files) && (i in s.files ==> r.files[i] == s.files[i])
    ensures Mirrors(r, i, f, ids)
  {
  }

  lemma StepOpens(s: State, pid: nat, c: Call, i: nat, f: FileRuns.Flat, ids: seq<nat>)
    requires Inv(s) && Mirrors(s, i, f, ids) && Opens(s, pid, c, i)
    ensures Mirrors(Apply(s, pid, c).0, i, FileRuns.Step(f, FileRuns.OpOpen(c.append, c.trunc)).0, ids + [s.next])
  {
    hide Inv, Apply, Mirrors;
    NumbersBounded(s);
    if pid !in s.procs { NoProcess(s, pid, c); }
    OpenSeparate(s, pid, c);
    OpenNumber(s, pid, c);
    OpenMirrors(s, Apply(s, pid, c).0, i, f, ids, Ofd(File(i), 1, c.access, false, c.append, 0, Unlocked), c.trunc);
  }

  lemma NoProcess(s: State, pid: nat, c: Call)
    requires Inv(s) && pid !in s.procs
    ensures Apply(s, pid, c) == (s, Err(ESRCH))
  {
    hide Inv;
  }

  lemma OpenNumber(s: State, pid: nat, c: Call)
    requires Inv(s) && c.Open? && pid in s.procs && Apply(s, pid, c).1.Val?
    ensures Apply(s, pid, c).0.next == s.next + 1
  {
    hide Inv;
  }

  /** A call on a description of file i does to it what its projection does to the flat state,
      and a read hands out the same bytes. */
  lemma StepUses(s: State, pid: nat, c: Call, i: nat, f: FileRuns.Flat, ids: seq<nat>, o: nat)
    requires Inv(s) && Mirrors(s, i, f, ids) && Used(s, pid, c) == Some(o) && o in s.ofds && s.ofds[o].target == File(i)
    ensures Mirrors(Apply(s, pid, c).0, i, After(f, OnFile(c, s.ofds[o].access, IndexOf(ids, o))), ids)
    ensures c.Read? && s.ofds[o].access != WrOnly ==>
      Apply(s, pid, c).1 == Data(FileRuns.Step(f, FileRuns.OpRead(IndexOf(ids, o), c.n)).1)
  {
    hide Inv, Apply, Slice, OnFile, FileRuns.Step;
    TargetFacts(s, o);
    UsedStep(s, pid, c, o);
    UsedReaches(s, pid, c, o);
    var r, j := Apply(s, pid, c).0, IndexOf(ids, o);
    var g := After(f, OnFile(c, s.ofds[o].access, j));
    if c.SetFl? || c.Flock? { FlagsMatch(s, pid, c, i, f, o, j); } else { OffsetsMatch(s, pid, c, i, f, o, j); }
    UsedMirrors(s, r, i, f, g, ids, o);
  }

  lemma FlagsMatch(s: State, pid: nat, c: Call, i: nat, f: FileRuns.Flat, o: nat, j: nat)
    requires Inv(s) && (c.SetFl? || c.Flock?) && Reaches(s, pid, c.fd, o) && o in s.ofds
    requires j < |f.at| && Standing(s.ofds[o], f.at[j], i)
    ensures var (r, g) := (Apply(s, pid, c).0, After(f, OnFile(c, s.ofds[o].access, j)));
      && r.files == s.files && g.bytes == f.bytes && o in r.ofds
      && |g.at| == |f.at| && g.at == f.at[j := g.at[j]] && Standing(r.ofds[o], g.at[j], i)
  {
    hide Inv, Apply;
    assert f.at[j := f.at[j]] == f.at;
    if c.SetFl? { FlagCalls(s, pid, c.fd, o, c.nonblock, c.append, false); }
    else { FlockOutcome(s, pid, c.fd, o, c.want, c.nb); }
  }

  lemma OffsetsMatch(s: State, pid: nat, c: Call, i: nat, f: FileRuns.Flat, o: nat, j: nat)
    requires Inv(s) && (c.Read? || c.Write? || c.Lseek?) && Reaches(s, pid, c.fd, o) && o in s.ofds
    requires j < |f.at| && Standing(s.ofds[o], f.at[j], i) && i in s.files && f.bytes == s.files[i]
    ensures var (r, g) := (Apply(s, pid, c).0, After(f, OnFile(c, s.ofds[o].access, j)));
      && i in r.files && g.bytes == r.files[i] && o in r.ofds
      && |g.at| == |f.at| && g.at == f.at[j := g.at[j]] && Standing(r.ofds[o], g.at[j], i)
    ensures c.Read? && s.ofds[o].access != WrOnly ==>
      Apply(s, pid, c).1 == Data(FileRuns.Step(f, FileRuns.OpRead(j, c.n)).1)
  {
    hide Inv, Apply, Slice;
    assert f.at[j := f.at[j]] == f.at;
    OffsetBelongsToDescription(s, pid, c, o);
  }

  lemma UsedReaches(s: State, pid: nat, c: Call, o: nat)
    requires Used(s, pid, c) == Some(o)
    ensures UsesDescription(c) && Reaches(s, pid, c.fd, o)
  {
  }

  lemma StepMirrors(s: State, pid: nat, c: Call, i: nat, f: FileRuns.Flat, ids: seq<nat>)
    requires Inv(s) && Mirrors(s, i, f, ids)
    ensures Mirrors(Apply(s, pid, c).0, i, After(f, Project(s, pid, c, i, ids)), NewIds(s, pid, c, i, ids))
  {
    hide Inv, Apply, Mirrors;
    NumbersBounded(s);
    var o := Used(s, pid, c);
    if Opens(s, pid, c, i) {
      StepOpens(s, pid, c, i, f, ids);
    } else if o.Some? {
      UsedStep(s, pid, c, o.value);
      if s.ofds[o.value].target == File(i) { StepUses(s, pid, c, i, f, ids, o.value); }
      else { ElsewhereMirrors(s, Apply(s, pid, c).0, i, f, ids, o.value); }
    } else if c.Open? && c.ino == i {
      if pid in s.procs { OpenSeparate(s, pid, c); } else { NoProcess(s, pid, c); }
    } else {
      CalmStep(s, pid, c);
      CalmMirrors(s, Apply(s, pid, c).0, Opened(c), i, f, ids);
    }
  }

  /** The bytes a projected call hands its caller. */
  function HandedOut(s: State, pid: nat, c: Call, i: nat, ids: seq<nat>): seq<seq<byte>>
    requires Inv(s)
  {
    if Project(s, pid, c, i, ids) == [] then []
    else if c.Read? && Apply(s, pid, c).1.Data? then [Apply(s, pid, c).1.bytes]
    else [[]]
  }

  lemma StepHandsOut(s: State, pid: nat, c: Call, i: nat, f: FileRuns.Flat, ids: seq<nat>)
    requires Inv(s) && Mirrors(s, i, f, ids)
    ensures var ops := Project(s, pid, c, i, ids);
      |ops| <= 1 && HandedOut(s, pid, c, i, ids) == if ops == [] then [] else [FileRuns.Step(f, ops[0]).1]
  {
    hide Inv, Apply, Mirrors, Slice, Overwrite;
    var o := Used(s, pid, c);
    if o.Some? && !c.Open? && o.value in s.ofds && s.ofds[o.value].target == File(i) {
      StepUses(s, pid, c, i, f, ids, o.value);
    }
  }

  /** The operations of a run on file i, the bytes they hand out, and the descriptions opened. */
  function Projected(s: State, calls: seq<(nat, Call)>, i: nat, ids: seq<nat>):
    (seq<FileRuns.Op>, seq<seq<byte>>, seq<nat>)
    requires Inv(s)
    decreases |calls|
  {
    if calls == [] then ([], [], ids)
    else
      var (pid, c) := calls[0];
      ApplyInv(s, pid, c);
      var (ops, outs, all) := Projected(Apply(s, pid, c).0, calls[1..], i, NewIds(s, pid, c, i, ids));
      (Project(s, pid, c, i, ids) + ops, HandedOut(s, pid, c, i, ids) + outs, all)
  }

  lemma {:induction false} RunMirrors(s: State, calls: seq<(nat, Call)>, i: nat, f: FileRuns.Flat, ids: seq<nat>)
    requires Inv(s) && Mirrors(s, i, f, ids)
    ensures var (ops, outs, all) := Projected(s, calls, i, ids);
      Mirrors(Run(s, calls), i, FileRuns.Run(f, ops), all) && outs == FileRuns.Outputs(f, ops)
    decreases |calls|
  {
    hide Inv, Apply, Mirrors, Project, HandedOut, NewIds, FileRuns.Step;
    if calls != [] {
      var (pid, c) := calls[0];
      var ops := Project(s, pid, c, i, ids);
      ApplyInv(s, pid, c);
      StepMirrors(s, pid, c, i, f, ids);
      StepHandsOut(s, pid, c, i, f, ids);
      var s', g, ids' := Apply(s, pid, c).0, After(f, ops), NewIds(s, pid, c, i, ids);
      RunMirrors(s', calls[1..], i, g, ids');
      var rest := Projected(s', calls[1..], i, ids').0;
      if ops == [] {
        assert ops + rest == rest;
      } else {
        assert ops == [ops[0]];
        FileRuns.RunFromFront(f, ops[0], rest);
      }
    }
  }

  /** Every run of any processes: the contents of file i, the offsets and append flags of all
      its descriptions and the bytes its reads return are those of the flat reference on the
      run's operations, where a description has one index however many descriptors of it dup
      and fork have made. */
  lemma {:induction false} FileRefinesFlat(calls: seq<(nat, Call)>, i: nat)
    ensures Inv(BOOT)
    ensures var (ops, outs, ids) := Projected(BOOT, calls, i, []);
      Mirrors(Run(BOOT, calls), i, FileRuns.Run(FileRuns.Flat([], []), ops), ids) &&
      outs == FileRuns.Outputs(FileRuns.Flat([], []), ops)
  {
    BootInv();
    hide Inv;
    RunMirrors(BOOT, calls, i, FileRuns.Flat([], []), []);
  }

  /** So in every run every byte of every file is the one last written there since the file was
      last truncated, zero if none was. */
  lemma {:induction false} FileBytesLastWritten(calls: seq<(nat, Call)>, i: nat, k: nat)
    ensures Inv(BOOT)
    ensures i in Run(BOOT, calls).files ==>
      ByteAt(Run(BOOT, calls).files[i], k) ==
        FileRuns.LastWritten(FileRuns.Flat([], []), Projected(BOOT, calls, i, []).0, k)
  {
    FileRefinesFlat(calls, i);
    hide Inv, Run, Projected;
    FileRuns.BytesAreLastWritten(FileRuns.Flat([], []), Projected(BOOT, calls, i, []).0, k);
  }
}
