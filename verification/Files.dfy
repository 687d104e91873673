/** Regular files as block maps with holes, and open descriptions of them.

    A file keeps only the blocks that were written; its meaning is the flat byte sequence
    `Contents()`, which every operation changes exactly as FlatFile says. */
module Files {
  import opened Basics
  import opened FlatFile

  const BLOCK: nat := 4096

  /** The byte a block map holds at k; a missing block is a hole and reads as zero. */
  function ByteIn(blocks: map<nat, seq<byte>>, k: nat): byte {
    var b, o := k / BLOCK, k % BLOCK;
    if b in blocks && o < |blocks[b]| then blocks[b][o] else 0
  }

  ghost predicate FullBlocks(blocks: map<nat, seq<byte>>) {
    forall b | b in blocks :: |blocks[b]| == BLOCK
  }

  /** Storing part of one block. */
  function Patch(blocks: map<nat, seq<byte>>, b: nat, o: nat, data: seq<byte>): map<nat, seq<byte>>
    requires FullBlocks(blocks) && o + |data| <= BLOCK
  {
    var was := if b in blocks then blocks[b] else Zeros(BLOCK);
    blocks[b := was[..o] + data + was[o + |data|..]]
  }

  /** The byte at k once data lies at pos over what the blocks hold. */
  function Patched(blocks: map<nat, seq<byte>>, pos: nat, data: seq<byte>, k: nat): byte {
    if pos <= k < pos + |data| then data[k - pos] else ByteIn(blocks, k)
  }

  lemma PatchBytes(blocks: map<nat, seq<byte>>, b: nat, o: nat, data: seq<byte>)
    requires FullBlocks(blocks) && o + |data| <= BLOCK
    ensures FullBlocks(Patch(blocks, b, o, data))
    ensures forall k: nat :: ByteIn(Patch(blocks, b, o, data), k) == Patched(blocks, b * BLOCK + o, data, k)
  {
    forall k: nat ensures ByteIn(Patch(blocks, b, o, data), k) == Patched(blocks, b * BLOCK + o, data, k) {
      if k / BLOCK == b {
        assert k % BLOCK == k - b * BLOCK;
      }
    }
  }

  /** Block b has a byte of the n bytes from pos. */
  predicate Touches(pos: nat, n: nat, b: nat) {
    pos < (b + 1) * BLOCK && b * BLOCK < pos + n
  }

  class SparseFile {
    var blocks: map<nat, seq<byte>>
    var size: nat

    /** Blocks are whole and nothing but zeros lies past the end. */
    ghost predicate Valid()
      reads this
    {
      FullBlocks(blocks) && forall k: nat | size <= k :: ByteIn(blocks, k) == 0
    }

    ghost function Contents(): (f: seq<byte>)
      reads this
      ensures |f| == size && forall i | 0 <= i < size :: f[i] == ByteIn(blocks, i)
    {
      var held := blocks;
      seq(size, i requires 0 <= i => ByteIn(held, i))
    }

    constructor ()
      ensures Valid() && Contents() == []
    {
      blocks, size := map[], 0;
    }

    /** O_TRUNC. */
    method Truncate()
      modifies this
      ensures Valid() && Contents() == []
    {
      blocks, size := map[], 0;
    }

    /** pwrite: block by block; blocks in a gap stay missing. */
    method WriteAt(pos: nat, data: seq<byte>)
      requires Valid()
      modifies this
      ensures Valid() && Contents() == Overwrite(old(Contents()), pos, data)
      ensures forall b | b in blocks :: b in old(blocks) || Touches(pos, |data|, b)
    {
      if data == [] { return; }
      ghost var was := blocks;
      var i := 0;
      while i < |data|
        invariant i <= |data| && FullBlocks(blocks) && size == old(size)
        invariant forall b | b in blocks :: b in was || Touches(pos, |data|, b)
        invariant forall k: nat :: ByteIn(blocks, k) == Patched(was, pos, data[..i], k)
        decreases |data| - i
      {
        var b, o := (pos + i) / BLOCK, (pos + i) % BLOCK;
        var n := Min(BLOCK - o, |data| - i);
        PatchBytes(blocks, b, o, data[i..i + n]);
        blocks := Patch(blocks, b, o, data[i..i + n]);
        i := i + n;
      }
      assert data[..|data|] == data;
      size := Max(size, pos + |data|);
      Compare(was, old(size), pos, data);
    }

    lemma Compare(was: map<nat, seq<byte>>, oldSize: nat, pos: nat, data: seq<byte>)
      requires data != [] && size == Max(oldSize, pos + |data|)
      requires forall k: nat | oldSize <= k :: ByteIn(was, k) == 0
      requires forall k: nat :: ByteIn(blocks, k) == Patched(was, pos, data, k)
      ensures forall f: seq<byte> | |f| == oldSize && (forall i | 0 <= i < oldSize :: f[i] == ByteIn(was, i)) ::
        Contents() == Overwrite(f, pos, data)
    {
      forall f: seq<byte> | |f| == oldSize && (forall i | 0 <= i < oldSize :: f[i] == ByteIn(was, i))
        ensures Contents() == Overwrite(f, pos, data)
      {
        OverwriteBytes(f, pos, data);
        forall k: nat ensures ByteAt(Contents(), k) == ByteAt(Overwrite(f, pos, data), k) {
          assert ByteAt(f, k) == ByteIn(was, k);
          assert ByteAt(Contents(), k) == ByteIn(blocks, k);
        }
        SameBytes(Contents(), Overwrite(f, pos, data));
      }
    }

    /** pread: block by block, holes as zeros, short at the end of the file. */
    method ReadAt(pos: nat, n: nat) returns (d: seq<byte>)
      requires Valid()
      ensures d == Slice(Contents(), pos, n)
      ensures |d| == if pos >= size then 0 else if pos + n <= size then n else size - pos
      ensures forall i | 0 <= i < |d| :: d[i] == Contents()[pos + i]
    {
      if pos >= size { return []; }
      var want := Min(n, size - pos);
      d := [];
      while |d| < want
        invariant |d| <= want
        invariant forall i | 0 <= i < |d| :: d[i] == ByteIn(blocks, pos + i)
        decreases want - |d|
      {
        var b, o := (pos + |d|) / BLOCK, (pos + |d|) % BLOCK;
        var m := Min(BLOCK - o, want - |d|);
        var block := if b in blocks then blocks[b] else Zeros(BLOCK);
        var part := block[o..o + m];
        forall j | 0 <= j < m ensures part[j] == ByteIn(blocks, pos + |d| + j) {
          assert (pos + |d| + j) / BLOCK == b && (pos + |d| + j) % BLOCK == o + j;
        }
        d := d + part;
      }
    }
  }

  /** An open file description.  Descriptors made by dup or fork are references to one
      Description; separate opens of a file are separate Descriptions of one SparseFile. */
  class Description {
    const file: SparseFile
    var offset: nat
    var append: bool

    constructor (file: SparseFile, append: bool)
      ensures this.file == file && offset == 0 && this.append == append
    {
      this.file := file;
      this.offset := 0;
      this.append := append;
    }

    method Write(data: seq<byte>) returns (n: nat)
      requires file.Valid()
      modifies this`offset, file
      ensures file.Valid() && n == |data|
      ensures var pos := if append && data != [] then |old(file.Contents())| else old(offset);
        file.Contents() == Overwrite(old(file.Contents()), pos, data) && offset == pos + |data|
    {
      if data == [] { return 0; }
      if append { offset := file.size; }
      file.WriteAt(offset, data);
      offset := offset + |data|;
      n := |data|;
    }

    method Read(n: nat) returns (d: seq<byte>)
      requires file.Valid()
      modifies this`offset
      ensures d == Slice(file.Contents(), old(offset), n) && offset == old(offset) + |d|
      ensures |d| == if old(offset) >= file.size then 0
                     else if old(offset) + n <= file.size then n else file.size - old(offset)
      ensures forall i | 0 <= i < |d| :: d[i] == file.Contents()[old(offset) + i]
    {
      d := file.ReadAt(offset, n);
      offset := offset + |d|;
    }

    /** pwrite leaves the offset alone. */
    method Pwrite(data: seq<byte>, pos: nat) returns (n: nat)
      requires file.Valid()
      modifies file
      ensures file.Valid() && n == |data| && file.Contents() == Overwrite(old(file.Contents()), pos, data)
    {
      file.WriteAt(pos, data);
      n := |data|;
    }

    /** F_SETFL, as far as a regular file minds it. */
    method SetFlags(append: bool)
      modifies this`append
      ensures this.append == append
    {
      this.append := append;
    }

    method Lseek(whence: Whence, off: int) returns (r: Outcome<nat>)
      modifies this`offset
      ensures var base := match whence case SeekSet => 0 case SeekCur => old(offset) case SeekEnd => |file.Contents()|;
        if base + off < 0 then r == Fail(EINVAL) && offset == old(offset)
        else r == Ok(base + off) && offset == base + off
    {
      var base := match whence case SeekSet => 0 case SeekCur => offset case SeekEnd => file.size;
      if base + off < 0 { return Fail(EINVAL); }
      offset := base + off;
      r := Ok(offset);
    }
  }

  function Concat(chunks: seq<seq<byte>>): seq<byte> {
    if chunks == [] then [] else Concat(chunks[..|chunks| - 1]) + chunks[|chunks| - 1]
  }

  /** Chunks written one after another, through a description that appends and whose offset is
      moved back to 0 before each write: they come out as their concatenation at the end of
      the file, and read back so. */
  method AppendChunks(d: Description, chunks: seq<seq<byte>>) returns (back: seq<byte>)
    requires d.file.Valid() && d.append
    modifies d, d.file
    ensures d.file.Valid() && d.file.Contents() == old(d.file.Contents()) + Concat(chunks)
    ensures back == d.file.Contents()
  {
    var i := 0;
    assert chunks[..0] == [];
    while i < |chunks|
      invariant i <= |chunks| && d.file.Valid() && d.append
      invariant d.file.Contents() == old(d.file.Contents()) + Concat(chunks[..i])
    {
      var r := d.Lseek(SeekSet, 0);
      var n := d.Write(chunks[i]);
      assert chunks[..i + 1][..i] == chunks[..i];
      i := i + 1;
    }
    assert chunks[..|chunks|] == chunks;
    var r := d.Lseek(SeekSet, 0);
    back := d.Read(d.file.size);
  }

  /** The same chunk written again and again from the end of a file by a description that does
      not append: each write starts where the last one ended. */
  method WriteLoop(d: Description, chunk: seq<byte>, times: nat)
    requires d.file.Valid() && !d.append && d.offset == d.file.size
    modifies d, d.file
    ensures d.file.Valid() && d.file.Contents() == old(d.file.Contents()) + Concat(seq(times, _ => chunk))
    ensures d.offset == d.file.size == old(d.file.size) + times * |chunk|
  {
    var i := 0;
    assert seq(0, _ => chunk) == [];
    while i < times
      invariant i <= times && d.file.Valid() && !d.append
      invariant d.offset == d.file.size == old(d.file.size) + i * |chunk|
      invariant d.file.Contents() == old(d.file.Contents()) + Concat(seq(i, _ => chunk))
    {
      var n := d.Write(chunk);
      assert seq(i + 1, _ => chunk)[..i] == seq(i, _ => chunk);
      i := i + 1;
    }
  }

  /** A write past the end leaves a hole: everything between reads as zero, what was there
      before and what was written read back unchanged. */
  method HoleTest(d: Description, head: seq<byte>, gap: nat, tail: seq<byte>)
    returns (before: seq<byte>, between: seq<byte>, after: seq<byte>)
    requires d.file.Valid() && !d.append && d.offset == d.file.size == 0 && tail != []
    modifies d, d.file
    ensures d.file.Valid() && d.file.size == |head| + gap + |tail|
    ensures before == head && between == Zeros(gap) && after == tail
  {
    var n := d.Write(head);
    var r := d.Lseek(SeekCur, gap);
    n := d.Write(tail);
    ghost var f := d.file.Contents();
    assert f == head + Zeros(gap) + tail;
    r := d.Lseek(SeekSet, 0);
    before := d.Read(|head|);
    between := d.Read(gap);
    after := d.Read(|tail|);
    assert f[|head|..|head| + gap] == Zeros(gap);
  }
}
