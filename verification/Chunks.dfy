/**
 Chunk geometry of the transfer protocol: how a file is cut, and how slices
 written at their offsets build the file up again.
 */
module Chunks {
  import opened Basics

  type Byte = b: int | 0 <= b < 256

  type Bytes = seq<Byte>

  /** The number of values a `u32` takes. */
  const U32: nat := 0x1_0000_0000

  function DivCeil(a: nat, b: nat): nat
    requires b > 0
  {
    if a % b == 0 then a / b else a / b + 1
  }

  /** An empty file still has one, empty, chunk; the count is cut to 32 bits. */
  function ComputeChunks(size: nat, chunkSize: nat): nat
    requires size > 0 ==> chunkSize > 0
  {
    if size == 0 then 1 else DivCeil(size, chunkSize) % U32
  }

  function ChunkLen(size: nat, chunkSize: nat, i: nat): nat {
    var offset := i * chunkSize;
    if size < offset then 0 else Min(chunkSize, size - offset)
  }

  /** The `i`-th slice a client cuts off a file. */
  function Slice(f: Bytes, chunkSize: nat, i: nat): (s: Bytes)
    ensures |s| == ChunkLen(|f|, chunkSize, i)
  {
    Cut(f, i * chunkSize, chunkSize)
  }

  /** Up to `len` bytes from `offset` on. */
  function Cut(f: Bytes, offset: nat, len: nat): Bytes {
    if |f| < offset then [] else f[offset..offset + Min(len, |f| - offset)]
  }

  /** The chunk a byte position belongs to. */
  function IndexOf(p: nat, chunkSize: nat): nat
    requires chunkSize > 0
  {
    p / chunkSize
  }

  // ----- Tiling -----

  lemma ChunkOf(p: nat, cs: nat, i: nat)
    requires cs > 0
    ensures IndexOf(p, cs) == i <==> i * cs <= p < i * cs + cs
  {
    var q := p / cs;
    assert q * cs <= p < q * cs + cs;
    if q < i {
      assert (q + 1) * cs <= i * cs by { MulMonotone(q + 1, i, cs); }
    } else if q > i {
      assert (i + 1) * cs <= q * cs by { MulMonotone(i + 1, q, cs); }
    }
  }

  lemma MulMonotone(a: nat, b: nat, c: nat)
    requires a <= b
    ensures a * c <= b * c
  {
  }

  lemma LastChunk(size: nat, cs: nat)
    requires size > 0 && cs > 0
    ensures var n := DivCeil(size, cs);
            n > 0 && (n - 1) * cs < size <= n * cs
  {
    var q := size / cs;
    assert size == q * cs + size % cs;
  }

  predicate InChunk(p: nat, size: nat, cs: nat, i: nat) {
    i * cs <= p < i * cs + ChunkLen(size, cs, i)
  }

  /** Every byte position lies in exactly one chunk below the chunk count, and no such chunk is empty. */
  lemma ChunksTile(size: nat, cs: nat)
    requires size > 0 && cs > 0
    ensures forall p: nat :: p < size ==> IndexOf(p, cs) < DivCeil(size, cs)
    ensures forall p: nat, i: nat :: p < size ==> (InChunk(p, size, cs, i) <==> i == IndexOf(p, cs))
    ensures forall i: nat :: i < DivCeil(size, cs) ==> 0 < ChunkLen(size, cs, i)
  {
    var n := DivCeil(size, cs);
    LastChunk(size, cs);
    forall p: nat | p < size ensures IndexOf(p, cs) < n {
      ChunkOf(p, cs, p / cs);
      if p / cs >= n { MulMonotone(n, p / cs, cs); }
    }
    forall p: nat, i: nat ensures p < size ==> (InChunk(p, size, cs, i) <==> i == IndexOf(p, cs)) {
      if p < size { ChunkOf(p, cs, i); }
    }
    forall i: nat | i < n ensures 0 < ChunkLen(size, cs, i) {
      MulMonotone(i, n - 1, cs);
    }
  }

  /** The first `k` slices in order. */
  function Joined(f: Bytes, cs: nat, k: nat): Bytes {
    if k == 0 then [] else Joined(f, cs, k - 1) + Slice(f, cs, k - 1)
  }

  lemma CutExtendsPrefix(f: Bytes, offset: nat, len: nat)
    ensures f[..Min(offset, |f|)] + Cut(f, offset, len) == f[..Min(offset + len, |f|)]
  {
  }

  lemma {:induction false} JoinedIsPrefix(f: Bytes, cs: nat, k: nat)
    ensures Joined(f, cs, k) == f[..Min(k * cs, |f|)]
  {
    hide Cut;
    if k > 0 {
      JoinedIsPrefix(f, cs, k - 1);
      CutExtendsPrefix(f, (k - 1) * cs, cs);
      assert k * cs == (k - 1) * cs + cs;
    }
  }

  /** Slices in index order, up to the chunk count, concatenate to the file. */
  lemma SlicesJoinToFile(f: Bytes, cs: nat)
    requires |f| > 0 && cs > 0
    ensures Joined(f, cs, DivCeil(|f|, cs)) == f
  {
    LastChunk(|f|, cs);
    JoinedIsPrefix(f, cs, DivCeil(|f|, cs));
    assert f[..|f|] == f;
  }

  // ----- Writing at offsets -----

  function Zeros(n: nat): Bytes { seq(n, _ => 0) }

  /** Seek and write: a gap before the offset fills with zeros, nothing is cut off. */
  function WriteAt(file: Bytes, offset: nat, data: Bytes): Bytes {
    if data == [] then file else
      var padded := if |file| < offset then file + Zeros(offset - |file|) else file;
      padded[..offset] + data + if offset + |data| < |padded| then padded[offset + |data|..] else []
  }

  /** `temp` has the file's length, and its bytes wherever a chunk is done. */
  ghost predicate Agrees(temp: Bytes, f: Bytes, cs: nat, done: seq<bool>)
    requires cs > 0
  {
    && |temp| == |f|
    && forall p: nat :: p < |f| && IndexOf(p, cs) < |done| && done[IndexOf(p, cs)] ==> temp[p] == f[p]
  }

  lemma WriteInside(file: Bytes, offset: nat, data: Bytes)
    requires offset + |data| <= |file|
    ensures var file' := WriteAt(file, offset, data);
            && |file'| == |file|
            && forall p: nat :: p < |file| ==>
                 file'[p] == if offset <= p < offset + |data| then data[p - offset] else file[p]
  {
  }

  lemma WritingKeepsAgreement(
      temp: Bytes, f: Bytes, cs: nat, done: seq<bool>, i: nat, offset: nat, slice: Bytes, part: nat)
    requires cs > 0 && i < |done| && Agrees(temp, f, cs, done)
    requires part <= |slice| && offset + |slice| <= |f|
    requires forall p: nat :: p < |f| ==> (IndexOf(p, cs) == i <==> offset <= p < offset + |slice|)
    requires forall p: nat :: offset <= p < offset + |slice| ==> slice[p - offset] == f[p]
    ensures var temp' := WriteAt(temp, offset, slice[..part]);
            && Agrees(temp', f, cs, done)
            && (part == |slice| ==> Agrees(temp', f, cs, done[i := true]))
  {
    hide IndexOf;
    WriteInside(temp, offset, slice[..part]);
    hide WriteAt;
  }

  /** Writing a slice, or the part of it that got through, keeps what agrees; the whole slice adds its chunk. */
  lemma WritingSliceKeepsAgreement(temp: Bytes, f: Bytes, cs: nat, done: seq<bool>, i: nat, part: nat)
    requires cs > 0 && i < |done| && Agrees(temp, f, cs, done)
    requires part <= |Slice(f, cs, i)| && i * cs <= |f|
    ensures var temp' := WriteAt(temp, i * cs, Slice(f, cs, i)[..part]);
            && Agrees(temp', f, cs, done)
            && (part == |Slice(f, cs, i)| ==> Agrees(temp', f, cs, done[i := true]))
  {
    forall p: nat | p < |f| ensures IndexOf(p, cs) == i <==> i * cs <= p < i * cs + |Slice(f, cs, i)| {
      ChunkOf(p, cs, i);
    }
    hide Agrees;
    hide WriteAt;
    WritingKeepsAgreement(temp, f, cs, done, i, i * cs, Slice(f, cs, i), part);
  }

  /** Once every chunk is done the temp file is the file. */
  lemma AllDoneIsFile(temp: Bytes, f: Bytes, cs: nat, done: seq<bool>)
    requires cs > 0 && |f| > 0 && |done| == DivCeil(|f|, cs)
    requires Agrees(temp, f, cs, done) && forall i :: 0 <= i < |done| ==> done[i]
    ensures temp == f
  {
    ChunksTile(|f|, cs);
  }

  // ----- Files that slices can still turn into the right one -----

  /** What a reader sees at `p` once the file is long enough: gaps fill with zeros. */
  function Seen(g: Bytes, p: nat): Byte { if p < |g| then g[p] else 0 }

  /** The last chunk is yet to come if the file is short, and what is seen in done chunks is right. */
  ghost predicate Mends(g: Bytes, f: Bytes, cs: nat, done: seq<bool>)
    requires cs > 0 && done != []
  {
    && |g| <= |f| && (|g| < |f| ==> !done[|done| - 1])
    && forall p: nat :: p < |f| && IndexOf(p, cs) < |done| && done[IndexOf(p, cs)] ==> Seen(g, p) == f[p]
  }

  lemma AgreesIsMends(g: Bytes, f: Bytes, cs: nat, done: seq<bool>)
    requires cs > 0 && done != []
    ensures Agrees(g, f, cs, done) <==> Mends(g, f, cs, done) && |g| == |f|
  {
  }

  lemma WriteSeen(g: Bytes, offset: nat, data: Bytes)
    ensures var g' := WriteAt(g, offset, data);
            && |g'| == (if data == [] then |g| else Max(|g|, offset + |data|))
            && forall p: nat :: Seen(g', p) == if offset <= p < offset + |data| then data[p - offset] else Seen(g, p)
  {
  }

  lemma SliceEnds(f: Bytes, cs: nat, i: nat)
    requires |f| > 0 && cs > 0 && i < DivCeil(|f|, cs)
    ensures i * cs < |f| && Slice(f, cs, i) != [] && i * cs + |Slice(f, cs, i)| <= |f|
    ensures i * cs + |Slice(f, cs, i)| == |f| <==> i == DivCeil(|f|, cs) - 1
  {
    var n := DivCeil(|f|, cs);
    LastChunk(|f|, cs);
    MulMonotone(i, n - 1, cs);
    if i < n - 1 {
      MulMonotone(i + 1, n - 1, cs);
      assert (i + 1) * cs == i * cs + cs;
    } else {
      assert n * cs == i * cs + cs;
    }
  }

  lemma WritingMends(
      g: Bytes, f: Bytes, cs: nat, done: seq<bool>, i: nat, offset: nat, slice: Bytes, part: nat)
    requires cs > 0 && i < |done|
    requires part <= |slice| && slice != [] && offset + |slice| <= |f|
    requires offset + |slice| == |f| <==> i == |done| - 1
    requires forall p: nat :: p < |f| ==> (IndexOf(p, cs) == i <==> offset <= p < offset + |slice|)
    requires forall p: nat :: offset <= p < offset + |slice| ==> slice[p - offset] == f[p]
    ensures var g' := WriteAt(g, offset, slice[..part]);
            && (Mends(g, f, cs, done) ==> Mends(g', f, cs, done))
            && (part == |slice| && Mends(g, f, cs, done) ==> Mends(g', f, cs, done[i := true]))
            && (part == |slice| && !done[i] && Mends(g', f, cs, done[i := true]) ==> Mends(g, f, cs, done))
            && (|g| == |f| ==> |g'| == |f|)
  {
    WriteSeen(g, offset, slice[..part]);
    hide IndexOf, WriteAt, Seen;
  }

  /** A slice keeps a file mendable; a whole slice of a chunk not done makes none mendable that was not. */
  lemma WritingSliceMends(g: Bytes, f: Bytes, cs: nat, done: seq<bool>, i: nat, part: nat)
    requires |f| > 0 && cs > 0 && |done| == DivCeil(|f|, cs) && i < |done| && part <= |Slice(f, cs, i)|
    ensures var g' := WriteAt(g, i * cs, Slice(f, cs, i)[..part]);
            && (Mends(g, f, cs, done) ==> Mends(g', f, cs, done))
            && (part == |Slice(f, cs, i)| && Mends(g, f, cs, done) ==> Mends(g', f, cs, done[i := true]))
            && (part == |Slice(f, cs, i)| && !done[i] && Mends(g', f, cs, done[i := true]) ==> Mends(g, f, cs, done))
            && (|g| == |f| ==> |g'| == |f|)
  {
    SliceEnds(f, cs, i);
    forall p: nat | p < |f| ensures IndexOf(p, cs) == i <==> i * cs <= p < i * cs + |Slice(f, cs, i)| {
      ChunkOf(p, cs, i);
    }
    assert forall p: nat :: i * cs <= p < i * cs + |Slice(f, cs, i)| ==> Slice(f, cs, i)[p - i * cs] == f[p];
    hide Mends, WriteAt, Slice, IndexOf, DivCeil;
    WritingMends(g, f, cs, done, i, i * cs, Slice(f, cs, i), part);
  }

  /** With every chunk done only the file itself is mendable. */
  lemma AllDoneMends(g: Bytes, f: Bytes, cs: nat, done: seq<bool>)
    requires cs > 0 && |f| > 0 && |done| == DivCeil(|f|, cs) && forall i :: 0 <= i < |done| ==> done[i]
    ensures done != [] && (Mends(g, f, cs, done) <==> g == f)
  {
    LastChunk(|f|, cs);
    ChunksTile(|f|, cs);
    hide DivCeil, ChunkLen, IndexOf;
    if Mends(g, f, cs, done) {
      assert |g| == |f|;
      assert forall p: nat :: p < |f| ==> Seen(g, p) == f[p];
    }
  }
}
