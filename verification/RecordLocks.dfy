/** Byte-range record locks of one file (F_SETLK, F_GETLK).

    A lock belongs to a process.  The kernel-side representation is one ordered list of
    segments per owner; its meaning is `ModeAt`, the lock a process holds on one byte. */
module RecordLocks {
  import opened Basics
  import opened Intervals

  /** The largest offset; l_len == 0 reaches it. */
  const OFFSET_MAX: nat := 0x7fff_ffff_ffff_ffff

  datatype Mode = ReadLock | WriteLock

  datatype Request = Lock(mode: Mode) | Unlock

  /** struct flock with l_whence == SEEK_SET. */
  datatype Flk = Flk(request: Request, start: int, len: int)

  type Table = map<nat, seq<Seg<Mode>>>

  /** The bytes [lo, hi) a request names, or the error fcntl reports for it. */
  function Range(f: Flk): Outcome<(nat, nat)> {
    var lo := if f.len < 0 then f.start + f.len else f.start;
    var hi := if f.len > 0 then f.start + f.len
              else if f.len == 0 then OFFSET_MAX + 1 else f.start;
    if f.start < 0 || lo < 0 then Fail(EINVAL)
    else if hi > OFFSET_MAX + 1 || lo > OFFSET_MAX then Fail(EOVERFLOW)
    else Ok((lo, hi))
  }

  predicate Clashes(a: Mode, b: Mode) {
    a.WriteLock? || b.WriteLock?
  }

  function Against(mode: Mode): Mode -> bool {
    (m: Mode) => Clashes(m, mode)
  }

  function Held(t: Table, pid: nat): seq<Seg<Mode>> {
    if pid in t then t[pid] else []
  }

  function ModeAt(t: Table, pid: nat, b: nat): Option<Mode> {
    At(Held(t, pid), b)
  }

  predicate Blocked(t: Table, pid: nat, lo: nat, hi: nat, mode: Mode) {
    exists q | q in t && q != pid :: Find(t[q], lo, hi, Against(mode)).Some?
  }

  function SetLk(t: Table, pid: nat, f: Flk): (Table, Outcome<()>) {
    match Range(f)
    case Fail(e) => (t, Fail(e))
    case Ok((lo, hi)) =>
      match f.request
      case Unlock => (t[pid := Carve(Held(t, pid), lo, hi)], Ok(()))
      case Lock(mode) =>
        if Blocked(t, pid, lo, hi, mode) then (t, Fail(EAGAIN))
        else (t[pid := Put(Held(t, pid), lo, hi, mode)], Ok(()))
  }

  /** The mode a byte of the range is left in. */
  function Requested(r: Request): Option<Mode> {
    match r
    case Lock(m) => Some(m)
    case Unlock => None
  }

  /** Closing any descriptor of the file, or exiting, drops all the process's locks. */
  function Release(t: Table, pid: nat): Table {
    t - {pid}
  }

  ghost predicate WellFormed(t: Table) {
    forall q | q in t :: Sorted(t[q], 0)
  }

  /** A byte of [lo, hi) that another process locks in a clashing mode. */
  ghost predicate ByteBlocked(t: Table, pid: nat, lo: nat, hi: nat, mode: Mode) {
    exists q: nat, b: nat | q != pid && lo <= b < hi && ModeAt(t, q, b).Some? ::
      ModeAt(t, q, b) == Some(WriteLock) || mode == WriteLock
  }

  /** Two processes lock one byte only if both lock it for reading. */
  ghost predicate Exclusion(t: Table) {
    forall p: nat, q: nat, b: nat | p != q && ModeAt(t, p, b).Some? && ModeAt(t, q, b).Some? ::
      ModeAt(t, p, b) == Some(ReadLock) && ModeAt(t, q, b) == Some(ReadLock)
  }

  lemma BlockedIsByteBlocked(t: Table, pid: nat, lo: nat, hi: nat, mode: Mode)
    requires WellFormed(t) && lo < hi
    ensures Blocked(t, pid, lo, hi, mode) <==> ByteBlocked(t, pid, lo, hi, mode)
  {
    forall q | q in t ensures Find(t[q], lo, hi, Against(mode)).None? <==> Clear(t[q], lo, hi, Against(mode)) {
      FindSpec(t[q], 0, lo, hi, Against(mode));
    }
    if Blocked(t, pid, lo, hi, mode) {
      var q :| q in t && q != pid && Find(t[q], lo, hi, Against(mode)).Some?;
      var b: nat :| lo <= b < hi && !(At(t[q], b).None? || !Against(mode)(At(t[q], b).value));
      assert ModeAt(t, q, b).Some? && Clashes(ModeAt(t, q, b).value, mode);
    }
    if ByteBlocked(t, pid, lo, hi, mode) {
      var q: nat, b: nat :| q != pid && lo <= b < hi && ModeAt(t, q, b).Some? && Clashes(ModeAt(t, q, b).value, mode);
      assert q in t;
      assert Against(mode)(At(t[q], b).value);
    }
  }

  /** The list algorithm refines the per-byte owner map: a request with a valid range
      fails exactly when some byte of it is locked in a clashing mode by another process;
      otherwise it replaces the caller's mode on exactly the bytes named. */
  lemma SetLkRefines(t: Table, pid: nat, f: Flk)
    requires WellFormed(t) && Range(f).Ok?
    ensures WellFormed(SetLk(t, pid, f).0)
    ensures var (lo, hi) := Range(f).value;
      SetLk(t, pid, f).1 ==
        if f.request.Lock? && ByteBlocked(t, pid, lo, hi, f.request.mode) then Fail(EAGAIN) else Ok(())
    ensures var (lo, hi) := Range(f).value; var (t', r) := SetLk(t, pid, f);
      forall q: nat, b: nat :: ModeAt(t', q, b) ==
        if r.Ok? && q == pid && lo <= b < hi then Requested(f.request) else ModeAt(t, q, b)
  {
    var (lo, hi) := Range(f).value;
    CarveSpec(Held(t, pid), 0, lo, hi);
    if f.request.Lock? {
      BlockedIsByteBlocked(t, pid, lo, hi, f.request.mode);
      PutSpec(Held(t, pid), lo, hi, f.request.mode);
    }
  }

  /** The bytes a request names. */
  lemma RangeIs(f: Flk)
    ensures Range(f) == Fail(EINVAL) <==> f.start < 0 || f.start + f.len < 0
    ensures Range(f).Fail? ==> Range(f) == Fail(EINVAL) || Range(f) == Fail(EOVERFLOW)
    ensures Range(f) == Fail(EOVERFLOW) <==>
      (f.start >= 0 && f.start + f.len >= 0 &&
       if f.len > 0 then f.start + f.len - 1 > OFFSET_MAX
       else if f.len == 0 then f.start > OFFSET_MAX else f.start - 1 > OFFSET_MAX)
    ensures Range(f).Ok? ==>
      Range(f).value.0 < Range(f).value.1 &&
      if f.len > 0 then Range(f).value == (f.start, f.start + f.len)
      else if f.len == 0 then Range(f).value == (f.start, OFFSET_MAX + 1)
      else Range(f).value == (f.start + f.len, f.start)
  {
  }

  /** Another process keeps pid from locking the bytes of f: it writes one of them, or holds one
      that pid wants to write. */
  ghost predicate Obstructed(t: Table, pid: nat, f: Flk) {
    f.request.Lock? && exists q: nat, b: nat | q != pid && ModeAt(t, q, b).Some? ::
      (ModeAt(t, q, b) == Some(WriteLock) || f.request.mode == WriteLock) &&
      if f.len > 0 then f.start <= b < f.start + f.len
      else if f.len == 0 then f.start <= b <= OFFSET_MAX else f.start + f.len <= b < f.start
  }

  lemma ObstructedIs(t: Table, pid: nat, f: Flk)
    requires Range(f).Ok?
    ensures Obstructed(t, pid, f) <==>
      f.request.Lock? && ByteBlocked(t, pid, Range(f).value.0, Range(f).value.1, f.request.mode)
  {
    RangeIs(f);
    var (lo, hi) := Range(f).value;
    if Obstructed(t, pid, f) {
      var q: nat, b: nat :| q != pid && ModeAt(t, q, b).Some? &&
        (ModeAt(t, q, b) == Some(WriteLock) || f.request.mode == WriteLock) &&
        if f.len > 0 then f.start <= b < f.start + f.len
        else if f.len == 0 then f.start <= b <= OFFSET_MAX else f.start + f.len <= b < f.start;
      assert lo <= b < hi;
    }
  }

  /** F_SETLK byte by byte, from the numbers in the request: l_len > 0 counts from l_start,
      l_len 0 goes to the largest offset, l_len < 0 ends before l_start.  EINVAL exactly when
      that starts below 0, EOVERFLOW exactly when it ends past the largest offset. */
  lemma SetLkBytes(t: Table, pid: nat, f: Flk)
    requires WellFormed(t)
    ensures SetLk(t, pid, f).1 == Fail(EINVAL) <==> f.start < 0 || f.start + f.len < 0
    ensures SetLk(t, pid, f).1 == Fail(EOVERFLOW) <==>
      (f.start >= 0 && f.start + f.len >= 0 &&
       if f.len > 0 then f.start + f.len - 1 > OFFSET_MAX
       else if f.len == 0 then f.start > OFFSET_MAX else f.start - 1 > OFFSET_MAX)
    ensures SetLk(t, pid, f).1 == Fail(EAGAIN) <==>
      SetLk(t, pid, f).1 != Fail(EINVAL) && SetLk(t, pid, f).1 != Fail(EOVERFLOW) && Obstructed(t, pid, f)
    ensures SetLk(t, pid, f).1.Fail? ==>
      SetLk(t, pid, f).0 == t && SetLk(t, pid, f).1.error in {EINVAL, EOVERFLOW, EAGAIN}
    ensures SetLk(t, pid, f).1.Ok? ==> forall q: nat, b: nat ::
      ModeAt(SetLk(t, pid, f).0, q, b) == if q == pid && (if f.len > 0 then f.start <= b < f.start + f.len
                      else if f.len == 0 then f.start <= b <= OFFSET_MAX else f.start + f.len <= b < f.start)
      then (match f.request case Lock(m) => Some(m) case Unlock => None)
      else ModeAt(t, q, b)
  {
    RangeIs(f);
    if Range(f).Ok? {
      SetLkRefines(t, pid, f);
      ObstructedIs(t, pid, f);
    }
  }

  /** Two processes can read-lock the same bytes of a file; then neither can write-lock any of
      them, and neither can a third. */
  lemma ReadersCoexist(t: Table, p: nat, q: nat, r: nat, start: nat, len: nat, b: nat)
    requires WellFormed(t) && p != q && 0 < len && start + len <= OFFSET_MAX && start <= b < start + len
    requires forall x: nat, c: nat :: ModeAt(t, x, c) == None
    ensures var (t1, r1) := SetLk(t, p, Flk(Lock(ReadLock), start, len));
      var (t2, r2) := SetLk(t1, q, Flk(Lock(ReadLock), start, len));
      && r1.Ok? && r2.Ok? && ModeAt(t2, p, b) == Some(ReadLock) && ModeAt(t2, q, b) == Some(ReadLock)
      && SetLk(t2, r, Flk(Lock(WriteLock), b, 1)).1 == Fail(EAGAIN)
  {
    var f, w := Flk(Lock(ReadLock), start, len), Flk(Lock(WriteLock), b, 1);
    SetLkBytes(t, p, f);
    SetLkRefines(t, p, f);
    var t1 := SetLk(t, p, f).0;
    SetLkBytes(t1, q, f);
    SetLkRefines(t1, q, f);
    var t2 := SetLk(t1, q, f).0;
    SetLkBytes(t2, r, w);
    assert Obstructed(t2, r, w) by {
      assert ModeAt(t2, p, b).Some? && ModeAt(t2, q, b).Some?;
    }
  }

  lemma ExclusionAt(t: Table, p: nat, q: nat, b: nat)
    requires Exclusion(t) && p != q && ModeAt(t, p, b).Some? && ModeAt(t, q, b).Some?
    ensures ModeAt(t, p, b) == ModeAt(t, q, b) == Some(ReadLock)
  {
  }

  lemma FreeAt(t: Table, pid: nat, lo: nat, hi: nat, mode: Mode, q: nat, b: nat)
    requires !ByteBlocked(t, pid, lo, hi, mode) && q != pid && lo <= b < hi && ModeAt(t, q, b).Some?
    ensures ModeAt(t, q, b) == Some(ReadLock) && mode == ReadLock
  {
    assert ModeAt(t, q, b).value.ReadLock? || ModeAt(t, q, b) == Some(WriteLock);
  }

  /** F_SETLK never creates a clash. */
  lemma SetLkKeepsExclusion(t: Table, pid: nat, f: Flk)
    requires WellFormed(t) && Exclusion(t)
    ensures WellFormed(SetLk(t, pid, f).0) && Exclusion(SetLk(t, pid, f).0)
  {
    if Range(f).Ok? {
      hide WellFormed, SetLk, Range, ByteBlocked, ModeAt;
      SetLkRefines(t, pid, f);
      var (lo, hi) := Range(f).value;
      var (t', r) := SetLk(t, pid, f);
      forall p: nat, q: nat, b: nat | p != q && ModeAt(t', p, b).Some? && ModeAt(t', q, b).Some?
        ensures ModeAt(t', p, b) == Some(ReadLock) && ModeAt(t', q, b) == Some(ReadLock)
      {
        if r.Ok? && lo <= b < hi && (p == pid || q == pid) {
          FreeAt(t, pid, lo, hi, f.request.mode, if p == pid then q else p, b);
        } else {
          ExclusionAt(t, p, q, b);
        }
      }
    }
  }

  lemma ReleaseSpec(t: Table, pid: nat)
    requires WellFormed(t)
    ensures WellFormed(Release(t, pid))
    ensures forall q: nat, b: nat :: ModeAt(Release(t, pid), q, b) == if q == pid then None else ModeAt(t, q, b)
    ensures Exclusion(t) ==> Exclusion(Release(t, pid))
  {
    var t' := Release(t, pid);
    forall q: nat, b: nat ensures ModeAt(t', q, b) == if q == pid then None else ModeAt(t, q, b) {}
    if Exclusion(t) {
      forall p: nat, q: nat, b: nat | p != q && ModeAt(t', p, b).Some? && ModeAt(t', q, b).Some?
        ensures ModeAt(t', p, b) == Some(ReadLock) && ModeAt(t', q, b) == Some(ReadLock)
      {
        assert ModeAt(t, p, b).Some? && ModeAt(t, q, b).Some?;
      }
    }
  }

  datatype Event = Set(pid: nat, f: Flk) | CloseOrExit(pid: nat)

  function Run(t: Table, events: seq<Event>): Table
    decreases |events|
  {
    if events == [] then t
    else
      var t' := match events[0]
        case Set(pid, f) => SetLk(t, pid, f).0
        case CloseOrExit(pid) => Release(t, pid);
      Run(t', events[1..])
  }

  /** Safety of every run: lists stay sorted and disjoint, no two processes ever hold
      clashing locks. */
  lemma {:induction false} RunKeepsExclusion(t: Table, events: seq<Event>)
    requires WellFormed(t) && Exclusion(t)
    ensures WellFormed(Run(t, events)) && Exclusion(Run(t, events))
    decreases |events|
  {
    if events != [] {
      match events[0]
      case Set(pid, f) =>
        SetLkKeepsExclusion(t, pid, f);
        RunKeepsExclusion(SetLk(t, pid, f).0, events[1..]);
      case CloseOrExit(pid) =>
        ReleaseSpec(t, pid);
        RunKeepsExclusion(Release(t, pid), events[1..]);
    }
  }

  lemma InitiallyExclusive(events: seq<Event>)
    ensures Exclusion(Run(map[], events))
  {
    RunKeepsExclusion(map[], events);
  }

  lemma BlockedIsRefused(t: Table, pid: nat, f: Flk)
    ensures Range(f).Fail? ==> SetLk(t, pid, f).1 == Fail(Range(f).error)
    ensures Range(f).Ok? && f.request.Lock? ==>
      (SetLk(t, pid, f).1.Ok? <==> !Blocked(t, pid, Range(f).value.0, Range(f).value.1, f.request.mode))
  {
  }

  /** What the search reports is a lock that is held, meets the range and is in the way. */
  lemma FoundIsHeld(t: Table, q: nat, lo: nat, hi: nat, mode: Mode)
    requires WellFormed(t) && q in t && lo < hi && Find(t[q], lo, hi, Against(mode)).Some?
    ensures var s := Find(t[q], lo, hi, Against(mode)).value;
      && s.lo < hi && lo < s.hi && (s.val == WriteLock || mode == WriteLock)
      && forall b: nat | s.lo <= b < s.hi :: ModeAt(t, q, b) == Some(s.val)
  {
    FindSpec(t[q], 0, lo, hi, Against(mode));
  }

  /** The lock table as fcntl changes it. */
  class LockTable {
    var held: Table

    ghost predicate Valid()
      reads this
    {
      WellFormed(held) && Exclusion(held)
    }

    constructor ()
      ensures Valid() && forall q: nat, b: nat :: ModeAt(held, q, b) == None
    {
      held := map[];
    }

    /** F_SETLK: all of the effect in terms of bytes. */
    method Set(pid: nat, f: Flk) returns (r: Outcome<()>)
      requires Valid()
      modifies this
      ensures Valid()
      ensures r == Fail(EINVAL) <==> f.start < 0 || f.start + f.len < 0
      ensures r == Fail(EOVERFLOW) <==>
        (f.start >= 0 && f.start + f.len >= 0 &&
         if f.len > 0 then f.start + f.len - 1 > OFFSET_MAX
         else if f.len == 0 then f.start > OFFSET_MAX else f.start - 1 > OFFSET_MAX)
      ensures r == Fail(EAGAIN) <==> r != Fail(EINVAL) && r != Fail(EOVERFLOW) && Obstructed(old(held), pid, f)
      ensures r.Fail? ==> held == old(held) && r.error in {EINVAL, EOVERFLOW, EAGAIN}
      ensures r.Ok? ==> forall q: nat, b: nat ::
        ModeAt(held, q, b) == if q == pid && (if f.len > 0 then f.start <= b < f.start + f.len
                        else if f.len == 0 then f.start <= b <= OFFSET_MAX else f.start + f.len <= b < f.start)
        then (match f.request case Lock(m) => Some(m) case Unlock => None)
        else ModeAt(old(held), q, b)
    {
      hide Sorted, Carve, Put, Obstructed;
      SetLkKeepsExclusion(held, pid, f);
      SetLkBytes(held, pid, f);
      match Range(f) {
        case Fail(e) => return Fail(e);
        case Ok((lo, hi)) =>
          match f.request {
            case Unlock =>
              held := held[pid := Carve(Held(held, pid), lo, hi)];
            case Lock(mode) =>
              if Blocked(held, pid, lo, hi, mode) { return Fail(EAGAIN); }
              held := held[pid := Put(Held(held, pid), lo, hi, mode)];
          }
          return Ok(());
      }
    }

    /** F_GETLK: scans the owners.  None is F_UNLCK, and it is the answer exactly when the
        same F_SETLK would succeed; otherwise a lock that really is in the way is reported. */
    method Get(pid: nat, mode: Mode, start: int, len: int) returns (r: Outcome<Option<(nat, Seg<Mode>)>>)
      requires Valid()
      ensures r.Fail? <==> Range(Flk(Lock(mode), start, len)).Fail?
      ensures r.Fail? ==> SetLk(held, pid, Flk(Lock(mode), start, len)).1 == Fail(r.error)
      ensures r.Ok? ==> (r.value.None? <==> SetLk(held, pid, Flk(Lock(mode), start, len)).1.Ok?)
      ensures r.Ok? && r.value.Some? ==>
        var (q, s) := r.value.value;
        var (lo, hi) := Range(Flk(Lock(mode), start, len)).value;
        q != pid && s.lo < hi && lo < s.hi && (s.val == WriteLock || mode == WriteLock) &&
        forall b: nat | s.lo <= b < s.hi :: ModeAt(held, q, b) == Some(s.val)
    {
      hide WellFormed, Exclusion, Find, ModeAt, Against, SetLk;
      var range := Range(Flk(Lock(mode), start, len));
      BlockedIsRefused(held, pid, Flk(Lock(mode), start, len));
      if range.Fail? { return Fail(range.error); }
      var (lo, hi) := range.value;
      var todo := held.Keys - {pid};
      while todo != {}
        invariant todo <= held.Keys - {pid}
        invariant forall q | q in held && q != pid && q !in todo :: Find(held[q], lo, hi, Against(mode)).None?
        decreases |todo|
      {
        var q :| q in todo;
        var found := Find(held[q], lo, hi, Against(mode));
        if found.Some? {
          FoundIsHeld(held, q, lo, hi, mode);
          return Ok(Some((q, found.value)));
        }
        todo := todo - {q};
      }
      return Ok(None);
    }

    method ReleaseAll(pid: nat)
      requires Valid()
      modifies this
      ensures Valid()
      ensures forall q: nat, b: nat :: ModeAt(held, q, b) == if q == pid then None else ModeAt(old(held), q, b)
    {
      ReleaseSpec(held, pid);
      held := held - {pid};
    }
  }
}
