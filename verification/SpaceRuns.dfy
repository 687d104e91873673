/** Any sequence of mmap and munmap calls: the ordered list of ranges does what a plain map
    from pages to mappings does. */
module SpaceRuns {
  import opened Basics
  import opened Intervals
  import opened AddressSpace

  /** The reference: each mapped page on its own. */
  type PageMap = map<nat, Backing>

  datatype Op = OpMap(place: Place, len: nat, src: Source) | OpUnmap(addr: nat, len: nat)

  datatype Out = Mapped(addr: nat) | Unmapped | Refused(e: Errno)

  /** The pages of [lo, hi), all mapped to b. */
  function Uniform(lo: nat, hi: nat, b: Backing): (m: PageMap)
    ensures forall p: nat :: p in m <==> lo <= p < hi
    ensures forall p | p in m :: m[p] == b
    decreases hi
  {
    if hi <= lo then map[] else Uniform(lo, hi - 1, b)[hi - 1 := b]
  }

  ghost predicate Taken(m: PageMap, lo: nat, hi: nat) {
    exists p: nat | lo <= p < hi :: p in m
  }

  ghost predicate Hole(m: PageMap, p: nat, n: nat) {
    p + n <= LIMIT && !Taken(m, p, p + n)
  }

  function After(m: PageMap, op: Op, out: Out): PageMap {
    if op.OpMap? && out.Mapped? then
      m + Uniform(out.addr / PAGE, out.addr / PAGE + PagesOf(op.len), BackingAt(op.src, out.addr / PAGE))
    else if op.OpUnmap? && out.Unmapped? then
      m - Uniform(op.addr / PAGE, op.addr / PAGE + PagesOf(op.len), Anonymous).Keys
    else m
  }

  /** The answers the reference allows: one, or any free place for a request without one. */
  ghost predicate Legal(m: PageMap, op: Op, out: Out) {
    match op
    case OpUnmap(addr, len) => out == if addr % PAGE != 0 || len == 0 then Refused(EINVAL) else Unmapped
    case OpMap(place, len, src) =>
      var n := PagesOf(len);
      if len == 0 || (src.FromFile? && src.offset % PAGE != 0) then out == Refused(EINVAL)
      else match place
        case Fixed(addr) =>
          out == if addr % PAGE != 0 then Refused(EINVAL)
                 else if addr + len > LIMIT * PAGE then Refused(ENOMEM) else Mapped(addr)
        case FixedNoReplace(addr) =>
          out == if addr % PAGE != 0 then Refused(EINVAL)
                 else if addr + len > LIMIT * PAGE then Refused(ENOMEM)
                 else if Taken(m, addr / PAGE, addr / PAGE + n) then Refused(EEXIST) else Mapped(addr)
        case Anywhere =>
          if exists p: nat :: Hole(m, p, n)
          then out.Mapped? && out.addr % PAGE == 0 && Hole(m, out.addr / PAGE, n)
          else out == Refused(ENOMEM)
  }

  ghost predicate Shows(m: PageMap, maps: seq<Seg<Backing>>) {
    forall p: nat :: At(maps, p) == if p in m then Some(m[p]) else None
  }

  lemma TakenIsOccupied(m: PageMap, maps: seq<Seg<Backing>>, lo: nat, hi: nat)
    requires Shows(m, maps)
    ensures Taken(m, lo, hi) <==> Occupied(maps, lo, hi)
  {
    if Taken(m, lo, hi) {
      var p: nat :| lo <= p < hi && p in m;
      assert At(maps, p).Some?;
    }
  }

  lemma GapIsHole(m: PageMap, maps: seq<Seg<Backing>>, p: nat, n: nat)
    requires Shows(m, maps)
    ensures Gap(maps, p, n) <==> Hole(m, p, n)
  {
    if !Gap(maps, p, n) && p + n <= LIMIT {
      var q: nat :| p <= q < p + n && At(maps, q) != None;
      assert q in m;
    }
  }

  method Perform(space: Space, op: Op, ghost m: PageMap) returns (out: Out)
    requires space.Valid() && Shows(m, space.maps)
    modifies space
    ensures space.Valid() && space.files == old(space.files)
    ensures Legal(m, op, out) && Shows(After(m, op, out), space.maps)
  {
    hide Sorted, At, Peek, Gap, Occupied, Taken;
    match op {
      case OpUnmap(addr, len) =>
        var r := space.Unmap(addr, len);
        out := if r.Fail? then Refused(r.error) else Unmapped;
      case OpMap(place, len, src) =>
        ghost var maps := space.maps;
        var r := space.Map(place, len, src);
        out := if r.Fail? then Refused(r.error) else Mapped(r.value);
        MapIsLegal(m, maps, place, len, src, out);
    }
  }

  /** The answers of Space.Map, in terms of the page map. */
  lemma MapIsLegal(m: PageMap, maps: seq<Seg<Backing>>, place: Place, len: nat, src: Source, out: Out)
    requires Shows(m, maps) && !out.Unmapped?
    requires out.Refused? ==> out.e == EINVAL || out.e == ENOMEM || out.e == EEXIST
    requires out == Refused(EINVAL) <==>
      len == 0 || (src.FromFile? && src.offset % PAGE != 0) || (!place.Anywhere? && place.addr % PAGE != 0)
    requires place.Anywhere? && out != Refused(EINVAL) ==>
      (out == Refused(ENOMEM) <==> !exists p: nat :: Gap(maps, p, PagesOf(len)))
    requires !place.Anywhere? && out != Refused(EINVAL) ==>
      (out == Refused(ENOMEM) <==> place.addr + len > LIMIT * PAGE)
    requires out == Refused(EEXIST) <==>
      out != Refused(EINVAL) && out != Refused(ENOMEM) && place.FixedNoReplace? &&
      Occupied(maps, place.addr / PAGE, place.addr / PAGE + PagesOf(len))
    requires out.Mapped? ==> out.addr % PAGE == 0 && (!place.Anywhere? ==> out.addr == place.addr)
    requires out.Mapped? ==> out.addr / PAGE + PagesOf(len) <= LIMIT
    requires out.Mapped? && !place.Fixed? ==> !Occupied(maps, out.addr / PAGE, out.addr / PAGE + PagesOf(len))
    ensures Legal(m, OpMap(place, len, src), out)
  {
    hide Sorted, At, Taken, Occupied, Shows, Gap;
    var n := PagesOf(len);
    if place.Anywhere? {
      forall p: nat ensures Gap(maps, p, n) <==> Hole(m, p, n) { GapIsHole(m, maps, p, n); }
      if out.Mapped? { TakenIsOccupied(m, maps, out.addr / PAGE, out.addr / PAGE + n); }
    } else {
      TakenIsOccupied(m, maps, place.addr / PAGE, place.addr / PAGE + n);
    }
  }

  /** The reference after calls that were answered so. */
  function Run(ops: seq<Op>, outs: seq<Out>): PageMap
    requires |ops| == |outs|
  {
    if ops == [] then map[]
    else After(Run(ops[..|ops| - 1], outs[..|ops| - 1]), ops[|ops| - 1], outs[|ops| - 1])
  }

  /** Every answer is one the reference allows in its place. */
  ghost predicate Lawful(ops: seq<Op>, outs: seq<Out>)
    requires |ops| == |outs|
  {
    ops == [] ||
    (Lawful(ops[..|ops| - 1], outs[..|ops| - 1]) &&
     Legal(Run(ops[..|ops| - 1], outs[..|ops| - 1]), ops[|ops| - 1], outs[|ops| - 1]))
  }

  /** Refinement over whole runs: every answer is one the page map allows, and the list of
      ranges, always sorted and disjoint, shows exactly its pages. */
  method PerformAll(ops: seq<Op>, files: map<nat, seq<byte>>) returns (space: Space, outs: seq<Out>)
    ensures |outs| == |ops| && space.Valid() && space.files == files
    ensures Lawful(ops, outs) && Shows(Run(ops, outs), space.maps)
  {
    hide Legal, After, At, Sorted;
    space := new Space(files);
    outs := [];
    var k := 0;
    while k < |ops|
      invariant k == |outs| <= |ops| && fresh(space) && space.Valid() && space.files == files
      invariant Lawful(ops[..k], outs) && Shows(Run(ops[..k], outs), space.maps)
    {
      var out := Perform(space, ops[k], Run(ops[..k], outs));
      assert ops[..k + 1][..k] == ops[..k] && (outs + [out])[..k] == outs;
      outs := outs + [out];
      k := k + 1;
    }
    assert ops[..|ops|] == ops;
  }

  // What the reference promises.

  predicate InRange(p: nat, addr: nat, len: nat) {
    addr / PAGE <= p < addr / PAGE + PagesOf(len)
  }

  /** The call neither unmaps page p nor places a MAP_FIXED mapping over it. */
  predicate Spares(op: Op, p: nat) {
    match op
    case OpUnmap(addr, len) => !InRange(p, addr, len)
    case OpMap(place, len, _) => place.Fixed? ==> !InRange(p, place.addr, len)
  }

  predicate Spared(ops: seq<Op>, from: nat, p: nat) {
    |ops| <= from || (Spared(ops[..|ops| - 1], from, p) && Spares(ops[|ops| - 1], p))
  }

  /** A mapped page keeps its mapping through any calls, whatever they are answered, that
      neither unmap it nor cover it with MAP_FIXED. */
  lemma {:induction false} MappingsStay(ops: seq<Op>, outs: seq<Out>, from: nat, p: nat)
    requires |ops| == |outs| && from <= |ops| && Lawful(ops, outs) && Spared(ops, from, p)
    requires p in Run(ops[..from], outs[..from])
    ensures p in Run(ops, outs) && Run(ops, outs)[p] == Run(ops[..from], outs[..from])[p]
    decreases |ops|
  {
    hide Legal, After, Spares;
    if from == |ops| {
      assert ops[..from] == ops && outs[..from] == outs;
    } else {
      var n := |ops| - 1;
      assert ops[..n][..from] == ops[..from] && outs[..n][..from] == outs[..from];
      MappingsStay(ops[..n], outs[..n], from, p);
      LegalStays(Run(ops[..n], outs[..n]), ops[n], outs[n], p);
    }
  }

  lemma LegalStays(m: PageMap, op: Op, out: Out, p: nat)
    requires p in m && Legal(m, op, out) && Spares(op, p)
    ensures p in After(m, op, out) && After(m, op, out)[p] == m[p]
  {
    if op.OpMap? && out.Mapped? && !op.place.Fixed? {
      assert !Taken(m, out.addr / PAGE, out.addr / PAGE + PagesOf(op.len));
    }
  }
}
