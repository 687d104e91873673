/** Any sequence of opens, reads, writes, seeks and flag changes on one file, through any number of
    separate open descriptions: the sparse file and its Description objects do what a flat
    byte sequence with a list of positions does. */
module FileRuns {
  import opened Basics
  import opened FlatFile
  import opened Files

  datatype Op =
    | OpOpen(append: bool, truncate: bool)
    | OpRead(i: nat, n: nat)
    | OpWrite(i: nat, data: seq<byte>)
    | OpSeek(i: nat, whence: Whence, off: int)
    | OpFlags(i: nat, append: bool)

  datatype Position = Position(offset: nat, append: bool)

  /** The flat reference: the bytes of the file and where each description stands. */
  datatype Flat = Flat(bytes: seq<byte>, at: seq<Position>)

  function Target(p: Position, whence: Whence, size: nat, off: int): int {
    off + match whence case SeekSet => 0 case SeekCur => p.offset case SeekEnd => size
  }

  /** Where a write of data lands. */
  function Place(s: Flat, i: nat, data: seq<byte>): nat
    requires i < |s.at|
  {
    if s.at[i].append && data != [] then |s.bytes| else s.at[i].offset
  }

  /** The new flat state and the bytes the call hands out; an unknown description is refused
      and changes nothing. */
  function Step(s: Flat, op: Op): (Flat, seq<byte>) {
    match op {
      case OpOpen(append, truncate) => (Flat(if truncate then [] else s.bytes, s.at + [Position(0, append)]), [])
      case OpRead(i, n) =>
        if i >= |s.at| then (s, [])
        else
          var d := Slice(s.bytes, s.at[i].offset, n);
          (s.(at := s.at[i := s.at[i].(offset := s.at[i].offset + |d|)]), d)
      case OpWrite(i, data) =>
        if i >= |s.at| then (s, [])
        else
          var pos := Place(s, i, data);
          (Flat(Overwrite(s.bytes, pos, data), s.at[i := s.at[i].(offset := pos + |data|)]), [])
      case OpSeek(i, whence, off) =>
        if i >= |s.at| || Target(s.at[i], whence, |s.bytes|, off) < 0 then (s, [])
        else (s.(at := s.at[i := s.at[i].(offset := Target(s.at[i], whence, |s.bytes|, off))]), [])
      case OpFlags(i, append) => if i >= |s.at| then (s, []) else (s.(at := s.at[i := s.at[i].(append := append)]), [])
    }
  }

  /** The state after ops. */
  function Run(s: Flat, ops: seq<Op>): Flat {
    if ops == [] then s else Step(Run(s, ops[..|ops| - 1]), ops[|ops| - 1]).0
  }

  /** What the last of ops hands out. */
  function Outputs(s: Flat, ops: seq<Op>): seq<seq<byte>> {
    if ops == [] then [] else Outputs(s, ops[..|ops| - 1]) + [Step(Run(s, ops[..|ops| - 1]), ops[|ops| - 1]).1]
  }

  // The objects.

  ghost predicate Linked(file: SparseFile, ds: seq<Description>)
    reads file
  {
    file.Valid() && (forall i | 0 <= i < |ds| :: ds[i].file == file) &&
    forall i, j | 0 <= i < j < |ds| :: ds[i] != ds[j]
  }

  ghost predicate Shows(s: Flat, file: SparseFile, ds: seq<Description>)
    reads file, ds
  {
    s.bytes == file.Contents() && |s.at| == |ds| &&
    forall i | 0 <= i < |ds| :: s.at[i].offset == ds[i].offset && s.at[i].append == ds[i].append
  }

  method Perform(file: SparseFile, ds: seq<Description>, op: Op, ghost s: Flat)
    returns (ds': seq<Description>, out: seq<byte>)
    requires Linked(file, ds) && Shows(s, file, ds)
    modifies file, ds
    ensures |ds'| >= |ds| && ds'[..|ds|] == ds && forall i | |ds| <= i < |ds'| :: fresh(ds'[i])
    ensures Linked(file, ds') && Shows(Step(s, op).0, file, ds') && out == Step(s, op).1
  {
    ds', out := ds, [];
    match op {
      case OpOpen(append, truncate) =>
        if truncate { file.Truncate(); }
        var d := new Description(file, append);
        ds' := ds + [d];
      case OpRead(i, n) =>
        if i < |ds| { out := ds[i].Read(n); }
      case OpWrite(i, data) =>
        if i < |ds| { var n := ds[i].Write(data); }
      case OpSeek(i, whence, off) =>
        if i < |ds| { var r := ds[i].Lseek(whence, off); }
      case OpFlags(i, append) =>
        if i < |ds| { ds[i].SetFlags(append); }
    }
  }

  /** Refinement over whole runs, from an empty file. */
  method PerformAll(ops: seq<Op>) returns (file: SparseFile, ds: seq<Description>, outs: seq<seq<byte>>)
    ensures Linked(file, ds) && Shows(Run(Flat([], []), ops), file, ds) && outs == Outputs(Flat([], []), ops)
  {
    file := new SparseFile();
    ds, outs := [], [];
    var k := 0;
    while k < |ops|
      invariant k <= |ops| && Linked(file, ds) && fresh(file) && forall i | 0 <= i < |ds| :: fresh(ds[i])
      invariant Shows(Run(Flat([], []), ops[..k]), file, ds) && outs == Outputs(Flat([], []), ops[..k])
    {
      var out;
      ds, out := Perform(file, ds, ops[k], Run(Flat([], []), ops[..k]));
      outs := outs + [out];
      assert ops[..k + 1][..k] == ops[..k];
      k := k + 1;
    }
    assert ops[..|ops|] == ops;
  }

  // Runs taken from the front.

  lemma {:induction false} RunFromFront(s: Flat, op: Op, ops: seq<Op>)
    ensures Run(s, [op] + ops) == Run(Step(s, op).0, ops)
    ensures Outputs(s, [op] + ops) == [Step(s, op).1] + Outputs(Step(s, op).0, ops)
  {
    var all := [op] + ops;
    if ops == [] {
      assert all == [op] && all[..0] == [];
    } else {
      assert all[..|all| - 1] == [op] + ops[..|ops| - 1];
      RunFromFront(s, op, ops[..|ops| - 1]);
    }
  }

  // What the flat reference promises.

  /** A call on one description leaves where the others stand. */
  lemma OthersStay(s: Flat, op: Op, j: nat)
    requires j < |s.at| && (op.OpOpen? || op.i != j)
    ensures j < |Step(s, op).0.at| && Step(s, op).0.at[j] == s.at[j]
  {
  }

  /** Whether op, made in s, writes byte k. */
  predicate Writes(s: Flat, op: Op, k: nat) {
    op.OpWrite? && op.i < |s.at| && Place(s, op.i, op.data) <= k < Place(s, op.i, op.data) + |op.data|
  }

  /** The value last written to byte k since the file was last truncated, zero if none. */
  function LastWritten(s: Flat, ops: seq<Op>, k: nat): byte {
    if ops == [] then ByteAt(s.bytes, k)
    else
      var was, op := Run(s, ops[..|ops| - 1]), ops[|ops| - 1];
      if op.OpOpen? && op.truncate then 0
      else if Writes(was, op, k) then op.data[k - Place(was, op.i, op.data)]
      else LastWritten(s, ops[..|ops| - 1], k)
  }

  /** Every byte of the file is the one last written there, and zero where none was: holes
      read as zeros whatever else the run did. */
  lemma {:induction false} BytesAreLastWritten(s: Flat, ops: seq<Op>, k: nat)
    ensures ByteAt(Run(s, ops).bytes, k) == LastWritten(s, ops, k)
  {
    if ops != [] {
      var was, op := Run(s, ops[..|ops| - 1]), ops[|ops| - 1];
      BytesAreLastWritten(s, ops[..|ops| - 1], k);
      if op.OpWrite? && op.i < |was.at| && op.data != [] {
        OverwriteBytes(was.bytes, Place(was, op.i, op.data), op.data);
      }
    }
  }

  /** What all writes of ops carried, in order. */
  function Carried(ops: seq<Op>): seq<byte> {
    if ops == [] then []
    else Carried(ops[..|ops| - 1]) + if ops[|ops| - 1].OpWrite? then ops[|ops| - 1].data else []
  }

  predicate Appends(s: Flat) {
    forall i | 0 <= i < |s.at| :: s.at[i].append
  }

  function Opens(ops: seq<Op>): nat {
    if ops == [] then 0 else Opens(ops[..|ops| - 1]) + if ops[|ops| - 1].OpOpen? then 1 else 0
  }

  /** Every open appends and none truncates, no flag change ends that, and writes name
      descriptions that are open by then. */
  predicate AppendOnly(known: nat, ops: seq<Op>)
    decreases |ops|
  {
    ops == [] ||
    (AppendOnly(known, ops[..|ops| - 1]) &&
     match ops[|ops| - 1]
     case OpOpen(append, truncate) => append && !truncate
     case OpWrite(i, data) => i < known + Opens(ops[..|ops| - 1])
     case OpRead(i, n) => true
     case OpSeek(i, whence, off) => true
     case OpFlags(i, append) => append)
  }

  /** Through any number of appending descriptions, with reads and seeks in between, the file
      ends as what it held followed by everything written, in order. */
  lemma {:induction false} AppendsConcatenate(s: Flat, ops: seq<Op>)
    requires Appends(s) && AppendOnly(|s.at|, ops)
    ensures Run(s, ops).bytes == s.bytes + Carried(ops)
    ensures Appends(Run(s, ops)) && |Run(s, ops).at| == |s.at| + Opens(ops)
  {
    if ops != [] {
      AppendsConcatenate(s, ops[..|ops| - 1]);
    }
  }
}
