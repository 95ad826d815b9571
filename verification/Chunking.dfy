/** How a file is cut into chunks and put together again (static/app.js, src/http_handler.cpp). */
module Chunking {
  import opened Common

  /** Math.ceil(size / chunk). */
  function CeilDiv(size: nat, chunk: nat): nat
    requires chunk > 0
  {
    (size + chunk - 1) / chunk
  }

  lemma CeilDivBounds(size: nat, chunk: nat)
    requires chunk > 0
    ensures CeilDiv(size, chunk) * chunk >= size
    ensures size > 0 ==> CeilDiv(size, chunk) > 0 && (CeilDiv(size, chunk) - 1) * chunk < size
    ensures size == 0 ==> CeilDiv(size, chunk) == 0
  {
    var n := CeilDiv(size, chunk);
    assert size + chunk - 1 == n * chunk + (size + chunk - 1) % chunk;
    assert (n - 1) * chunk == n * chunk - chunk;
    ProductOrder(n, 0, chunk);
    ProductOrder(1, n, chunk);
  }

  /** The only number of pieces that covers a size with a non-empty last piece. */
  lemma CeilDivUnique(size: nat, chunk: nat, n: nat)
    requires chunk > 0 && n > 0
    requires (n - 1) * chunk < size <= n * chunk
    ensures CeilDiv(size, chunk) == n
  {
    CeilDivBounds(size, chunk);
    var m := CeilDiv(size, chunk);
    ProductOrder(m, n - 1, chunk);
    ProductOrder(n, m - 1, chunk);
  }

  /** Where slice i starts and ends: chunkIndex * CHUNK_SIZE, clamped to the file. */
  function SliceEnd(size: nat, chunk: nat, i: nat): nat
  {
    if (i + 1) * chunk < size then (i + 1) * chunk else size
  }

  lemma SliceBounds(size: nat, chunk: nat, i: nat)
    requires chunk > 0 && i < CeilDiv(size, chunk)
    ensures i * chunk < SliceEnd(size, chunk, i) <= size
    ensures SliceEnd(size, chunk, i) - i * chunk <= chunk
  {
    CeilDivBounds(size, chunk);
    var n := CeilDiv(size, chunk);
    assert i * chunk <= (n - 1) * chunk;
    assert (i + 1) * chunk == i * chunk + chunk;
  }

  /** The bytes the client sends for chunk i. */
  function Slice(file: seq<byte>, chunk: nat, i: nat): (r: seq<byte>)
    requires chunk > 0 && i < CeilDiv(|file|, chunk)
    ensures 0 < |r| <= chunk
  {
    SliceBounds(|file|, chunk, i);
    file[i * chunk..SliceEnd(|file|, chunk, i)]
  }

  function Slices(file: seq<byte>, chunk: nat): seq<seq<byte>>
    requires chunk > 0
  {
    seq(CeilDiv(|file|, chunk), i requires 0 <= i < CeilDiv(|file|, chunk) => Slice(file, chunk, i))
  }

  function Concat(parts: seq<seq<byte>>): seq<byte> {
    if parts == [] then [] else parts[0] + Concat(parts[1..])
  }

  /** What is left of the file from slice i on. */
  function Rest(file: seq<byte>, chunk: nat, i: nat): seq<byte> {
    if i * chunk <= |file| then file[i * chunk..] else []
  }

  lemma RestStep(file: seq<byte>, chunk: nat, i: nat)
    requires chunk > 0 && i < CeilDiv(|file|, chunk)
    ensures Rest(file, chunk, i) == Slice(file, chunk, i) + Rest(file, chunk, i + 1)
  {
    SliceBounds(|file|, chunk, i);
    var from, to := i * chunk, SliceEnd(|file|, chunk, i);
    assert file[from..] == file[from..to] + file[to..];
  }

  lemma {:induction false} SlicesFrom(file: seq<byte>, chunk: nat, i: nat)
    requires chunk > 0 && i <= CeilDiv(|file|, chunk)
    ensures Concat(Slices(file, chunk)[i..]) == Rest(file, chunk, i)
    decreases CeilDiv(|file|, chunk) - i
  {
    var all := Slices(file, chunk);
    if i < |all| {
      RestStep(file, chunk, i);
      SlicesFrom(file, chunk, i + 1);
      assert all[i..][0] == Slice(file, chunk, i);
      assert all[i..][1..] == all[i + 1..];
    } else {
      CeilDivBounds(|file|, chunk);
    }
  }

  /** Cutting a file and concatenating the slices gives the file back. */
  lemma SlicesTileTheFile(file: seq<byte>, chunk: nat)
    requires chunk > 0
    ensures Concat(Slices(file, chunk)) == file
  {
    SlicesFrom(file, chunk, 0);
    assert Slices(file, chunk)[0..] == Slices(file, chunk);
  }

  /** The chunk size the server advertises, (total_size + total_chunks - 1) / total_chunks, never
      exceeds the client's own, and cutting by it gives exactly the declared number of chunks. */
  lemma AdvertisedChunkSize(size: nat, chunk: nat)
    requires size > 0 && chunk > 0
    ensures var n := CeilDiv(size, chunk);
            && n > 0
            && 0 < CeilDiv(size, n) <= chunk
            && CeilDiv(size, CeilDiv(size, n)) == n
            && forall i: nat | i < n :: i * CeilDiv(size, n) < SliceEnd(size, CeilDiv(size, n), i)
  {
    var n := CeilDiv(size, chunk);
    CeilDivBounds(size, chunk);
    var c := CeilDiv(size, n);
    CeilDivBounds(size, n);
    ProductOrder(chunk, c - 1, n);
    ProductOrder(c, chunk, n - 1);
    CeilDivUnique(size, c, n);
    forall i: nat | i < n ensures i * c < SliceEnd(size, c, i) {
      SliceBounds(size, c, i);
    }
  }
}
