/** The address space of a process: mmap, MAP_FIXED, MAP_FIXED_NOREPLACE, munmap, loads and
    stores.

    The representation is an ordered list of page ranges, split and replaced the way the
    kernel's list of mappings is; its meaning is the page map `At(maps, page)` and, byte by
    byte, `Load`. */
module AddressSpace {
  import opened Basics
  import opened FlatFile
  import opened Intervals

  const PAGE: nat := 4096
  /** Pages of a 47-bit user address space. */
  const LIMIT: nat := 0x8_0000_0000

  /** What a page shows: zeros, or page `page + delta` of a file. */
  datatype Backing = Anonymous | OfFile(ino: nat, delta: int, shared: bool)

  datatype Place = Anywhere | Fixed(addr: nat) | FixedNoReplace(addr: nat)

  datatype Source = Zeroed | FromFile(ino: nat, offset: nat, shared: bool)

  /** The fewest pages that hold len bytes. */
  function PagesOf(len: nat): (n: nat)
    ensures len <= n * PAGE < len + PAGE
  {
    (len + PAGE - 1) / PAGE
  }

  function BackingAt(src: Source, page: nat): Backing {
    match src
    case Zeroed => Anonymous
    case FromFile(ino, offset, shared) => OfFile(ino, offset / PAGE - page, shared)
  }

  predicate Any(b: Backing) { true }

  predicate Free(maps: seq<Seg<Backing>>, lo: nat, hi: nat) {
    Find(maps, lo, hi, Any).None?
  }

  predicate RoomAt(maps: seq<Seg<Backing>>, p: nat, n: nat) {
    p + n <= LIMIT && Free(maps, p, p + n)
  }

  function FileByte(files: map<nat, seq<byte>>, ino: nat, pos: int): byte {
    if ino in files && 0 <= pos then ByteAt(files[ino], pos) else 0
  }

  /** The byte of a shared file that address a stands for, if there is one. */
  function SharedByte(maps: seq<Seg<Backing>>, files: map<nat, seq<byte>>, a: nat): Option<(nat, nat)> {
    var m := At(maps, a / PAGE);
    if m.Some? && m.value.OfFile? && m.value.shared && m.value.ino in files &&
      0 <= a + m.value.delta * PAGE < |files[m.value.ino]|
    then Some((m.value.ino, a + m.value.delta * PAGE))
    else None
  }

  /** The byte at an address; None is a fault. */
  function Peek(maps: seq<Seg<Backing>>, mem: map<nat, byte>, files: map<nat, seq<byte>>, a: nat): Option<byte> {
    var m, f := At(maps, a / PAGE), SharedByte(maps, files, a);
    if m.None? then None
    else if f.Some? then Some(files[f.value.0][f.value.1])
    else if a in mem then Some(mem[a])
    else match m.value
      case Anonymous => Some(0)
      case OfFile(ino, delta, _) => Some(FileByte(files, ino, a + delta * PAGE))
  }

  /** What a fresh mapping of src at page lo shows at address a. */
  function Fresh(files: map<nat, seq<byte>>, src: Source, lo: nat, a: nat): byte {
    match src
    case Zeroed => 0
    case FromFile(ino, offset, _) => FileByte(files, ino, a + (offset / PAGE - lo) * PAGE)
  }

  function Outside(mem: map<nat, byte>, lo: nat, hi: nat): map<nat, byte> {
    map a | a in mem && !(lo <= a / PAGE < hi) :: mem[a]
  }

  /** What loads see depends only on the page's mapping and the byte stored there. */
  lemma PeekSame(maps: seq<Seg<Backing>>, mem: map<nat, byte>, maps': seq<Seg<Backing>>, mem': map<nat, byte>,
      files: map<nat, seq<byte>>, a: nat)
    requires At(maps', a / PAGE) == At(maps, a / PAGE)
    requires (a in mem' <==> a in mem) && (a in mem ==> mem'[a] == mem[a])
    ensures Peek(maps', mem', files, a) == Peek(maps, mem, files, a)
  {
  }

  /** A new byte in a file leaves what a shared mapping shows of its other bytes. */
  lemma OtherByteStays(maps: seq<Seg<Backing>>, mem: map<nat, byte>, files: map<nat, seq<byte>>, ino: nat, pos: nat,
      v: byte, a: nat)
    requires ino in files && pos < |files[ino]| && At(maps, a / PAGE).Some?
    requires var m := At(maps, a / PAGE).value;
      m.OfFile? && m.shared && (m.ino == ino ==> a + m.delta * PAGE != pos)
    ensures Peek(maps, mem, files[ino := files[ino][pos := v]], a) == Peek(maps, mem, files, a)
  {
  }

  lemma PutLoads(maps: seq<Seg<Backing>>, mem: map<nat, byte>, files: map<nat, seq<byte>>, lo: nat, hi: nat,
      src: Source)
    requires Sorted(maps, 0) && lo < hi
    ensures forall a: nat ::
      Peek(Put(maps, lo, hi, BackingAt(src, lo)), Outside(mem, lo, hi), files, a) ==
        if lo <= a / PAGE < hi then Some(Fresh(files, src, lo, a)) else Peek(maps, mem, files, a)
  {
    hide Put;
    PutSpec(maps, lo, hi, BackingAt(src, lo));
    var maps', mem' := Put(maps, lo, hi, BackingAt(src, lo)), Outside(mem, lo, hi);
    forall a: nat | !(lo <= a / PAGE < hi) ensures Peek(maps', mem', files, a) == Peek(maps, mem, files, a) {
      PeekSame(maps, mem, maps', mem', files, a);
    }
  }

  lemma CarveLoads(maps: seq<Seg<Backing>>, mem: map<nat, byte>, files: map<nat, seq<byte>>, lo: nat, hi: nat)
    requires Sorted(maps, 0) && lo < hi
    ensures forall a: nat ::
      Peek(Carve(maps, lo, hi), Outside(mem, lo, hi), files, a) ==
        if lo <= a / PAGE < hi then None else Peek(maps, mem, files, a)
  {
    hide Carve;
    CarveSpec(maps, 0, lo, hi);
    var maps', mem' := Carve(maps, lo, hi), Outside(mem, lo, hi);
    forall a: nat | !(lo <= a / PAGE < hi) ensures Peek(maps', mem', files, a) == Peek(maps, mem, files, a) {
      PeekSame(maps, mem, maps', mem', files, a);
    }
  }

  /** In a mapping placed at address addr, byte k of it is byte offset + k of the file. */
  lemma FreshBytes(files: map<nat, seq<byte>>, src: Source, addr: nat, a: nat)
    requires addr % PAGE == 0 && addr <= a && (src.FromFile? ==> src.offset % PAGE == 0)
    ensures src.Zeroed? ==> Fresh(files, src, addr / PAGE, a) == 0
    ensures src.FromFile? && src.ino in files ==>
      Fresh(files, src, addr / PAGE, a) == ByteAt(files[src.ino], src.offset + (a - addr))
  {
  }

  lemma InPages(lo: nat, n: nat)
    ensures forall a: nat :: lo <= a / PAGE < lo + n <==> lo * PAGE <= a < lo * PAGE + n * PAGE
  {
  }

  /** Some page of [lo, hi) is mapped. */
  ghost predicate Occupied(maps: seq<Seg<Backing>>, lo: nat, hi: nat) {
    exists p: nat :: lo <= p < hi && At(maps, p).Some?
  }

  /** n pages from page p that exist and are all free. */
  ghost predicate Gap(maps: seq<Seg<Backing>>, p: nat, n: nat) {
    p + n <= LIMIT && forall q: nat | p <= q < p + n :: At(maps, q) == None
  }

  lemma RoomIsGap(maps: seq<Seg<Backing>>, p: nat, n: nat)
    requires Sorted(maps, 0) && n > 0
    ensures RoomAt(maps, p, n) <==> Gap(maps, p, n)
    ensures Gap(maps, p, n) ==> p < LIMIT && !Occupied(maps, p, p + n)
  {
    FindSpec(maps, 0, p, p + n, Any);
  }

  /** Where a request goes, or why it fails. */
  method Choose(maps: seq<Seg<Backing>>, place: Place, n: nat) returns (r: Outcome<nat>)
    requires Sorted(maps, 0) && n > 0
    ensures place.Anywhere? ==>
      if exists p: nat :: Gap(maps, p, n) then r.Ok? && Gap(maps, r.value, n) else r == Fail(ENOMEM)
    ensures place.Fixed? ==> r == if place.addr / PAGE + n > LIMIT then Fail(ENOMEM) else Ok(place.addr / PAGE)
    ensures place.FixedNoReplace? ==>
      r == if place.addr / PAGE + n > LIMIT then Fail(ENOMEM)
           else if Occupied(maps, place.addr / PAGE, place.addr / PAGE + n) then Fail(EEXIST)
           else Ok(place.addr / PAGE)
  {
    match place {
      case Anywhere =>
        forall p: nat ensures RoomAt(maps, p, n) <==> Gap(maps, p, n) { RoomIsGap(maps, p, n); }
        forall p: nat ensures Gap(maps, p, n) ==> p < LIMIT { RoomIsGap(maps, p, n); }
        if !(exists p: nat :: p < LIMIT && RoomAt(maps, p, n)) { return Fail(ENOMEM); }
        var lo: nat :| lo < LIMIT && RoomAt(maps, lo, n);
        return Ok(lo);
      case Fixed(addr) =>
        return if addr / PAGE + n > LIMIT then Fail(ENOMEM) else Ok(addr / PAGE);
      case FixedNoReplace(addr) =>
        var lo := addr / PAGE;
        if lo + n > LIMIT { return Fail(ENOMEM); }
        FindSpec(maps, 0, lo, lo + n, Any);
        return if Free(maps, lo, lo + n) then Ok(lo) else Fail(EEXIST);
    }
  }

  class Space {
    var maps: seq<Seg<Backing>>
    var mem: map<nat, byte>           // bytes stored, other than to a shared file
    var files: map<nat, seq<byte>>

    ghost predicate Valid()
      reads this
    {
      Sorted(maps, 0) && forall p: nat | LIMIT <= p :: At(maps, p) == None
    }

    constructor (files: map<nat, seq<byte>>)
      ensures Valid() && this.files == files
      ensures forall p: nat :: At(maps, p) == None
    {
      maps := [];
      mem := map[];
      this.files := files;
    }

    function Load(a: nat): Option<byte>
      reads this
    {
      Peek(maps, mem, files, a)
    }

    /** mmap.  EINVAL, ENOMEM and EEXIST exactly when the manual says so, with nothing changed;
        otherwise the pages of the range, and only they, show zeros or the bytes of the file. */
    method Map(place: Place, len: nat, src: Source) returns (r: Outcome<nat>)
      requires Valid()
      modifies this`maps, this`mem
      ensures Valid()
      ensures r.Fail? ==> maps == old(maps) && mem == old(mem)
      ensures r.Fail? ==> r.error == EINVAL || r.error == ENOMEM || r.error == EEXIST
      ensures r == Fail(EINVAL) <==>
        len == 0 || (src.FromFile? && src.offset % PAGE != 0) || (!place.Anywhere? && place.addr % PAGE != 0)
      ensures place.Anywhere? && r != Fail(EINVAL) ==>
        (r == Fail(ENOMEM) <==> !exists p: nat :: Gap(old(maps), p, PagesOf(len)))
      ensures !place.Anywhere? && r != Fail(EINVAL) ==> (r == Fail(ENOMEM) <==> place.addr + len > LIMIT * PAGE)
      ensures r == Fail(EEXIST) <==>
        r != Fail(EINVAL) && r != Fail(ENOMEM) && place.FixedNoReplace? &&
        Occupied(old(maps), place.addr / PAGE, place.addr / PAGE + PagesOf(len))
      ensures r.Ok? ==> r.value % PAGE == 0 && r.value + len <= LIMIT * PAGE
      ensures r.Ok? && !place.Anywhere? ==> r.value == place.addr
      ensures r.Ok? && !place.Fixed? ==> !Occupied(old(maps), r.value / PAGE, r.value / PAGE + PagesOf(len))
      ensures r.Ok? ==> var lo, hi := r.value / PAGE, r.value / PAGE + PagesOf(len);
        && hi <= LIMIT
        && (forall p: nat :: At(maps, p) == if lo <= p < hi then Some(BackingAt(src, lo)) else At(old(maps), p))
        && (forall a: nat | !(lo <= a / PAGE < hi) :: Load(a) == old(Load(a)))
      ensures r.Ok? && src.Zeroed? ==>
        forall a: nat | r.value <= a < r.value + PagesOf(len) * PAGE :: Load(a) == Some(0)
      ensures r.Ok? && src.FromFile? && src.ino in files ==>
        forall a: nat | r.value <= a < r.value + PagesOf(len) * PAGE ::
          Load(a) == Some(ByteAt(files[src.ino], src.offset + (a - r.value)))
    {
      hide Put, Peek, Find, Free, Sorted, At, Gap, Occupied, Fresh;
      if len == 0 || (src.FromFile? && src.offset % PAGE != 0) || (!place.Anywhere? && place.addr % PAGE != 0) {
        return Fail(EINVAL);
      }
      var n := PagesOf(len);
      var c := Choose(maps, place, n);
      if c.Fail? { return c; }
      var lo := c.value;
      if place.Anywhere? { RoomIsGap(maps, lo, n); }
      PutSpec(maps, lo, lo + n, BackingAt(src, lo));
      PutLoads(maps, mem, files, lo, lo + n, src);
      maps := Put(maps, lo, lo + n, BackingAt(src, lo));
      mem := Outside(mem, lo, lo + n);
      r := Ok(lo * PAGE);
      InPages(lo, n);
      forall a: nat | lo * PAGE <= a { FreshBytes(files, src, lo * PAGE, a); }
    }

    /** munmap: exactly the pages of the range go; an empty range is no error and nothing
        changes. */
    method Unmap(addr: nat, len: nat) returns (r: Outcome<()>)
      requires Valid()
      modifies this`maps, this`mem
      ensures Valid()
      ensures r == if addr % PAGE != 0 || len == 0 then Fail(EINVAL) else Ok(())
      ensures r.Fail? ==> maps == old(maps) && mem == old(mem)
      ensures r.Ok? ==> var lo, hi := addr / PAGE, addr / PAGE + PagesOf(len);
        && (forall p: nat :: At(maps, p) == if lo <= p < hi then None else At(old(maps), p))
        && (forall a: nat :: Load(a) == if lo <= a / PAGE < hi then None else old(Load(a)))
        && (!Occupied(old(maps), lo, hi) ==> maps == old(maps))
    {
      hide Carve, Peek, Outside;
      if addr % PAGE != 0 || len == 0 { return Fail(EINVAL); }
      var lo, hi := addr / PAGE, addr / PAGE + PagesOf(len);
      CarveSpec(maps, 0, lo, hi);
      CarveLoads(maps, mem, files, lo, hi);
      if !Occupied(maps, lo, hi) { CarveEmptyRange(maps, 0, lo, hi); }
      maps := Carve(maps, lo, hi);
      mem := Outside(mem, lo, hi);
      r := Ok(());
    }

    /** A store to a mapped byte changes that byte.  In a shared mapping it changes the byte of
        the file, so that every other view of it changes too; otherwise no file. */
    method Store(a: nat, v: byte)
      requires Valid() && Load(a).Some?
      modifies this`mem, this`files
      ensures Load(a) == Some(v)
      ensures var m := old(At<Backing>(maps, a / PAGE));
        if m.Some? && m.value.OfFile? && m.value.shared && m.value.ino in old(files) &&
          0 <= a + m.value.delta * PAGE < |old(files)[m.value.ino]|
        then
          mem == old(mem) &&
          files == old(files)[m.value.ino := old(files)[m.value.ino][a + m.value.delta * PAGE := v]]
        else
          files == old(files) && mem == old(mem)[a := v] && forall b: nat | b != a :: Load(b) == old(Load(b))
      ensures forall b: nat | b != a && (At(maps, b / PAGE) == Some(Anonymous) || At(maps, b / PAGE) == None) ::
        Load(b) == old(Load(b))
    {
      var f := SharedByte(maps, files, a);
      if f.Some? {
        files := files[f.value.0 := files[f.value.0][f.value.1 := v]];
      } else {
        mem := mem[a := v];
      }
    }

    /** Map a file from any page of it, store a byte and look: it is read back, every other byte
        of the mapping is the file's, and the file itself changes, in that one byte, exactly if
        the mapping is shared. */
    method FileMapTest(ino: nat, offset: nat, len: nat, k: nat, v: byte, shared: bool) returns (r: Outcome<nat>)
      requires Valid() && ino in files && offset % PAGE == 0 && k < len && offset + k < |files[ino]|
      modifies this
      ensures Valid()
      ensures r.Fail? ==> r == Fail(ENOMEM) && files == old(files)
      ensures r.Ok? ==> Load(r.value + k) == Some(v)
      ensures r.Ok? ==> forall a: nat | r.value <= a < r.value + PagesOf(len) * PAGE && a != r.value + k ::
        Load(a) == Some(ByteAt(old(files[ino]), offset + (a - r.value)))
      ensures r.Ok? ==> files == if shared then old(files)[ino := old(files[ino])[offset + k := v]] else old(files)
    {
      hide Sorted, Occupied, At, Peek, Gap;
      r := Map(Anywhere, len, FromFile(ino, offset, shared));
      if r.Fail? { return; }
      var addr := r.value;
      ghost var files', mem' := files, mem;
      InPages(addr / PAGE, PagesOf(len));
      forall a: nat | addr <= a < addr + PagesOf(len) * PAGE
        ensures Peek(maps, mem', files', a) == Some(ByteAt(files'[ino], offset + (a - addr)))
      {
        assert Load(a) == Some(ByteAt(files[ino], offset + (a - addr)));
      }
      Store(addr + k, v);
      forall a: nat | addr <= a < addr + PagesOf(len) * PAGE && a != addr + k
        ensures Load(a) == Some(ByteAt(files'[ino], offset + (a - addr)))
      {
        if shared { OtherByteStays(maps, mem', files', ino, offset + k, v, a); }
      }
    }

    /** Touch every page of a fresh mapping of n pages, unmap pages [i, j) of it twice, and look:
        the other pages still hold what was stored, the unmapped ones are gone, and the second
        munmap succeeds. */
    method PartialUnmapTest(n: nat, i: nat, j: nat, v: nat -> byte) returns (r: Outcome<nat>, again: Outcome<()>)
      requires Valid() && i < j <= n
      modifies this
      ensures Valid() && files == old(files)
      ensures r.Ok? ==> again == Ok(())
      ensures r.Ok? ==> forall k: nat | k < n :: Load(PageAddr(r.value, k)) == if i <= k < j then None else Some(v(k))
    {
      hide Peek, Sorted, Occupied, RoomAt, At;
      r := Map(Anywhere, n * PAGE, Zeroed);
      again := Fail(ENOMEM);
      if r.Fail? { return; }
      var addr := r.value;
      Pages(addr, n);
      var k := 0;
      while k < n
        invariant k <= n && Valid() && files == old(files)
        invariant forall p: nat | addr / PAGE <= p < addr / PAGE + n :: At(maps, p) == Some(Anonymous)
        invariant forall q: nat | q < n :: Load(PageAddr(addr, q)) == Some(if q < k then v(q) else 0)
      {
        Store(PageAddr(addr, k), v(k));
        k := k + 1;
      }
      Pages(PageAddr(addr, i), j - i);
      again := Unmap(PageAddr(addr, i), (j - i) * PAGE);
      again := Unmap(PageAddr(addr, i), (j - i) * PAGE);
    }
  }

  function PageAddr(addr: nat, k: nat): nat {
    addr + k * PAGE
  }

  /** Page arithmetic. */
  lemma Pages(addr: nat, n: nat)
    requires addr % PAGE == 0
    ensures PagesOf(n * PAGE) == n
    ensures forall k: nat :: PageAddr(addr, k) / PAGE == addr / PAGE + k && PageAddr(addr, k) % PAGE == 0
  {
  }
}
