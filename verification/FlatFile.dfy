/** The contents of a regular file as a flat byte sequence: the reference meaning of
    read, write and holes. */
module FlatFile {
  import opened Basics

  function Zeros(n: nat): (z: seq<byte>)
    ensures |z| == n && forall i | 0 <= i < n :: z[i] == 0
  {
    seq(n, _ => 0)
  }

  /** At most n bytes from pos; none at or past the end. */
  function Slice(f: seq<byte>, pos: nat, n: nat): (r: seq<byte>)
    ensures |r| == if pos >= |f| then 0 else if pos + n <= |f| then n else |f| - pos
    ensures forall i | 0 <= i < |r| :: r[i] == f[pos + i]
  {
    if pos >= |f| then [] else f[pos..Min(pos + n, |f|)]
  }

  /** Writes data at pos; a gap between the end and pos becomes zeros.  Writing no bytes
      changes nothing. */
  function Overwrite(f: seq<byte>, pos: nat, data: seq<byte>): seq<byte> {
    if data == [] then f
    else
      (if pos <= |f| then f[..pos] else f + Zeros(pos - |f|)) + data +
      (if pos + |data| < |f| then f[pos + |data|..] else [])
  }

  /** The byte at i, zero past the end. */
  function ByteAt(f: seq<byte>, i: nat): byte {
    if i < |f| then f[i] else 0
  }

  lemma OverwriteBytes(f: seq<byte>, pos: nat, data: seq<byte>)
    requires data != []
    ensures |Overwrite(f, pos, data)| == Max(|f|, pos + |data|)
    ensures forall i: nat ::
      ByteAt(Overwrite(f, pos, data), i) == if pos <= i < pos + |data| then data[i - pos] else ByteAt(f, i)
  {
  }

  /** Files are determined by their length and their bytes. */
  lemma SameBytes(f: seq<byte>, g: seq<byte>)
    requires |f| == |g| && forall i: nat :: ByteAt(f, i) == ByteAt(g, i)
    ensures f == g
  {
    forall i | 0 <= i < |f| ensures f[i] == g[i] {
      assert ByteAt(f, i) == ByteAt(g, i);
    }
  }
}
