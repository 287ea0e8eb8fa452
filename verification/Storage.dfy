/** Chunk I/O: short reads and writes, hash verification, and what a write leaves untouched. */
module Storage {
  import opened Wrappers
  import opened Chunks

  datatype StorageError =
    | Io
    | UnexpectedEof(offset: nat)
    | WriteZero(offset: nat)
    | LengthMismatch(index: nat, declared: nat, actual: nat)
    | HashMismatch(index: nat)

  datatype VerifiedChunk = VerifiedChunk(spec: ChunkSpec, digest: Bytes, bytes: Bytes)

  function Zeros(n: nat): Bytes {
    seq(n, _ => 0)
  }

  /** File contents after `piece` has been written at `offset`; a gap past the end reads as zeros. */
  function Patch(data: Bytes, offset: nat, piece: Bytes): Bytes {
    if piece == [] then data
    else
      var base := if |data| < offset + |piece| then data + Zeros(offset + |piece| - |data|) else data;
      base[..offset] + piece + base[offset + |piece|..]
  }

  /** Every byte inside the written range comes from the piece, every other byte is kept. */
  lemma PatchBytes(data: Bytes, offset: nat, piece: Bytes, p: nat)
    requires offset + |piece| <= |data| && p < |data|
    ensures |Patch(data, offset, piece)| == |data|
    ensures Patch(data, offset, piece)[p]
            == if offset <= p < offset + |piece| then piece[p - offset] else data[p]
  {
  }

  lemma PatchNothing(data: Bytes, offset: nat)
    ensures Patch(data, offset, []) == data
  {
  }

  /** Byte `p` of a patched file, also where the file grew. */
  function PatchedByte(data: Bytes, offset: nat, piece: Bytes, p: nat): Byte {
    if offset <= p < offset + |piece| then piece[p - offset] else if p < |data| then data[p] else 0
  }

  lemma PatchIsPatched(data: Bytes, offset: nat, piece: Bytes)
    requires piece != []
    ensures var r := Patch(data, offset, piece);
            && |r| == (if |data| < offset + |piece| then offset + |piece| else |data|)
            && forall p: nat | p < |r| :: r[p] == PatchedByte(data, offset, piece, p)
  {
    var base := if |data| < offset + |piece| then data + Zeros(offset + |piece| - |data|) else data;
    assert |base| >= offset + |piece|;
  }

  lemma PatchInTwo(data: Bytes, offset: nat, piece: Bytes, k: nat)
    requires k <= |piece|
    ensures Patch(Patch(data, offset, piece[..k]), offset + k, piece[k..]) == Patch(data, offset, piece)
  {
    hide Patch;
    if k == 0 {
      PatchNothing(data, offset);
      assert piece[..k] == [] && piece[k..] == piece;
    } else if k == |piece| {
      PatchNothing(Patch(data, offset, piece), offset + k);
      assert piece[..k] == piece && piece[k..] == [];
    } else {
      var first := Patch(data, offset, piece[..k]);
      var second, whole := Patch(first, offset + k, piece[k..]), Patch(data, offset, piece);
      PatchIsPatched(data, offset, piece[..k]);
      PatchIsPatched(first, offset + k, piece[k..]);
      PatchIsPatched(data, offset, piece);
      assert |second| == |whole|;
      forall p: nat | p < |whole|
        ensures second[p] == whole[p]
      {
        assert second[p] == PatchedByte(first, offset + k, piece[k..], p);
        if p < |first| {
          assert first[p] == PatchedByte(data, offset, piece[..k], p);
        }
        assert whole[p] == PatchedByte(data, offset, piece, p);
      }
      assert second == whole;
    }
  }

  /** One open file. The two positioned calls may transfer less than asked; they fail, or write nothing, only on a file
      that is not `healthy`. */
  class DiskFile {
    var data: Bytes
    var cursor: nat
    const healthy: bool

    constructor (data: Bytes, healthy: bool)
      ensures this.data == data && cursor == 0 && this.healthy == healthy
    {
      this.data := data;
      cursor := 0;
      this.healthy := healthy;
    }

    /** `set_len`: cuts the file or extends it with zeros. */
    method SetLen(size: nat)
      modifies this`data
      ensures data == Resized(old(data), size)
    {
      data := Resized(data, size);
    }

    method PositionedWrite(buffer: Bytes, offset: nat) returns (r: Result<nat, StorageError>)
      modifies this`data
      ensures r.Ok? ==> r.value <= |buffer| && data == Patch(old(data), offset, buffer[..r.value])
      ensures r.Err? ==> r.error == Io && data == old(data)
      ensures healthy ==> r.Ok? && (buffer != [] ==> r.value > 0)
    {
      var fails: bool := *;
      if fails && !healthy {
        return Err(Io);
      }
      var written: nat :| written <= |buffer| && (healthy && buffer != [] ==> written > 0) by {
        var all: nat := |buffer|;
        assert all <= |buffer| && (healthy && buffer != [] ==> all > 0);
      }
      data := Patch(data, offset, buffer[..written]);
      return Ok(written);
    }

    /** Reads into `buffer[from..]`; zero bytes are returned only at or past the end of the file. */
    method PositionedRead(buffer: array<Byte>, from: nat, offset: nat) returns (r: Result<nat, StorageError>)
      requires from < buffer.Length
      modifies buffer
      ensures r.Ok? ==> from + r.value <= buffer.Length && (r.value == 0 <==> offset >= |data|)
      ensures r.Ok? && r.value > 0 ==> offset + r.value <= |data|
      ensures r.Ok? && r.value > 0 ==>
                buffer[..] == old(buffer[..from]) + data[offset..offset + r.value] + old(buffer[from + r.value..])
      ensures r.Ok? && r.value == 0 ==> buffer[..] == old(buffer[..])
      ensures r.Err? ==> r.error == Io && !healthy
    {
      var fails: bool := *;
      if fails && !healthy {
        return Err(Io);
      }
      if offset >= |data| {
        return Ok(0);
      }
      var available := Min(|data| - offset, buffer.Length - from);
      var got: nat :| 0 < got <= available;
      forall i | 0 <= i < got {
        buffer[from + i] := data[offset + i];
      }
      return Ok(got);
    }

    method WriteAllAt(buffer: Bytes, offset: nat) returns (r: Result<(), StorageError>)
      modifies this`data
      ensures r.Ok? ==> data == Patch(old(data), offset, buffer)
      ensures r.Err? ==> !healthy && (r.error.Io? || r.error.WriteZero?)
      ensures r.Err? ==>
                exists k: nat | k < |buffer| ::
                  data == Patch(old(data), offset, buffer[..k]) && (r.error.WriteZero? ==> r.error.offset == offset + k)
    {
      hide Patch;
      assert Patch(data, offset, buffer[..0]) == data by {
        PatchNothing(data, offset);
      }
      var rest, at := buffer, offset;
      ghost var done := 0;
      while rest != []
        invariant done <= |buffer| && rest == buffer[done..] && at == offset + done
        invariant data == Patch(old(data), offset, buffer[..done])
        decreases |rest|
      {
        ghost var before := data;
        var written := PositionedWrite(rest, at);
        if written.Err? {
          assert done < |buffer|;
          return Err(written.error);
        }
        if written.value == 0 {
          PatchNothing(before, at);
          assert rest[..0] == [];
          assert Patch(old(data), offset, buffer[..done]) == data && done < |buffer|;
          return Err(WriteZero(at));
        }
        var n := written.value;
        PatchInTwo(old(data), offset, buffer[..done + n], done);
        assert buffer[..done + n][..done] == buffer[..done];
        assert buffer[..done + n][done..] == rest[..n];
        at := at + n;
        rest := rest[n..];
        done := done + n;
      }
      assert buffer[..done] == buffer;
      return Ok(());
    }

    /** Fills the whole buffer or fails; it can hit the end of the file only when the range leaves it. */
    method ReadExactAt(buffer: array<Byte>, offset: nat) returns (r: Result<(), StorageError>)
      modifies buffer
      ensures r.Ok? && buffer.Length > 0 ==>
                offset + buffer.Length <= |data| && buffer[..] == data[offset..offset + buffer.Length]
      ensures r.Err? ==> (r.error.Io? && !healthy) || (r.error.UnexpectedEof? && offset + buffer.Length > |data|)
      ensures r.Err? && r.error.UnexpectedEof? ==> r.error.offset >= |data|
    {
      var done := 0;
      while done < buffer.Length
        invariant done <= buffer.Length
        invariant done > 0 ==> offset + done <= |data| && buffer[..done] == data[offset..offset + done]
        decreases buffer.Length - done
      {
        var got := PositionedRead(buffer, done, offset + done);
        if got.Err? {
          return Err(got.error);
        }
        if got.value == 0 {
          return Err(UnexpectedEof(offset + done));
        }
        done := done + got.value;
      }
      assert buffer[..done] == buffer[..];
      return Ok(());
    }

    /** `read_chunk`: the declared range together with its digest. */
    method ReadChunk(hash: Bytes -> Bytes, spec: ChunkSpec) returns (r: Result<VerifiedChunk, StorageError>)
      ensures r.Ok? && spec.length > 0 ==>
                spec.End() <= |data| && r.value == VerifiedChunk(spec, hash(Slice(data, spec)), Slice(data, spec))
      ensures r.Err? ==> (r.error.Io? && !healthy) || (r.error.UnexpectedEof? && spec.End() > |data|)
    {
      var buffer := new Byte[spec.length](_ => 0);
      var read := ReadExactAt(buffer, spec.offset);
      if read.Err? {
        return Err(read.error);
      }
      return Ok(VerifiedChunk(spec, hash(buffer[..]), buffer[..]));
    }

    /** `write_verified_chunk`: nothing reaches the file unless length and digest are right. */
    method WriteVerifiedChunk(hash: Bytes -> Bytes, chunk: VerifiedChunk) returns (r: Result<(), StorageError>)
      modifies this`data
      ensures |chunk.bytes| != chunk.spec.length || hash(chunk.bytes) != chunk.digest ==>
                r.Err? && data == old(data) && !r.error.Io? && !r.error.WriteZero?
      ensures r.Ok? ==>
                && |chunk.bytes| == chunk.spec.length && hash(chunk.bytes) == chunk.digest
                && data == Patch(old(data), chunk.spec.offset, chunk.bytes)
      ensures healthy && |chunk.bytes| == chunk.spec.length && hash(chunk.bytes) == chunk.digest ==> r.Ok?
      ensures r.Err? ==>
                exists k: nat | k <= |chunk.bytes| :: data == Patch(old(data), chunk.spec.offset, chunk.bytes[..k])
    {
      var verified := VerifyChunk(hash, chunk);
      if verified.Err? {
        assert data == Patch(old(data), chunk.spec.offset, chunk.bytes[..0]);
        return Err(verified.error);
      }
      r := WriteAllAt(chunk.bytes, chunk.spec.offset);
    }

    /** `read_sequential_chunk`: takes the next bytes at the cursor whatever offset the spec names. */
    method ReadSequentialChunk(hash: Bytes -> Bytes, spec: ChunkSpec) returns (r: Result<VerifiedChunk, StorageError>)
      modifies this`cursor
      ensures r.Ok? ==>
                && old(cursor) + spec.length <= |data| && cursor == old(cursor) + spec.length
                && r.value.spec == spec && r.value.bytes == data[old(cursor)..cursor]
                && r.value.digest == hash(r.value.bytes)
      ensures old(cursor) + spec.length > |data| ==> r.Err?
      ensures healthy && old(cursor) + spec.length <= |data| ==> r.Ok?
    {
      var fails: bool := *;
      if fails && !healthy {
        return Err(Io);
      }
      if cursor + spec.length > |data| {
        return Err(UnexpectedEof(cursor));
      }
      var bytes := data[cursor..cursor + spec.length];
      cursor := cursor + spec.length;
      return Ok(VerifiedChunk(spec, hash(bytes), bytes));
    }

    /** `write_sequential_verified_chunk`: the verified bytes land at the cursor. */
    method WriteSequentialChunk(hash: Bytes -> Bytes, chunk: VerifiedChunk) returns (r: Result<(), StorageError>)
      modifies this
      ensures r.Err? && (r.error.HashMismatch? || r.error.LengthMismatch?) ==>
                |chunk.bytes| != chunk.spec.length || hash(chunk.bytes) != chunk.digest
      ensures |chunk.bytes| != chunk.spec.length || hash(chunk.bytes) != chunk.digest ==>
                r.Err? && data == old(data) && cursor == old(cursor)
      ensures r.Ok? ==>
                && |chunk.bytes| == chunk.spec.length && hash(chunk.bytes) == chunk.digest
                && data == Patch(old(data), old(cursor), chunk.bytes)
                && cursor == old(cursor) + |chunk.bytes|
      ensures healthy && |chunk.bytes| == chunk.spec.length && hash(chunk.bytes) == chunk.digest ==> r.Ok?
      ensures r.Err? ==>
                exists k: nat | k <= |chunk.bytes| :: data == Patch(old(data), old(cursor), chunk.bytes[..k])
    {
      var verified := VerifyChunk(hash, chunk);
      if verified.Err? {
        assert data == Patch(old(data), cursor, chunk.bytes[..0]);
        return Err(verified.error);
      }
      var written := WriteAllAt(chunk.bytes, cursor);
      if written.Ok? {
        cursor := cursor + |chunk.bytes|;
      }
      return written;
    }
  }

  /** What is there stays, up to the size; what is added is zeros. */
  function Resized(data: Bytes, size: nat): (r: Bytes)
    ensures |r| == size
    ensures forall p | 0 <= p < size :: r[p] == if p < |data| then data[p] else 0
  {
    if |data| >= size then data[..size] else data + Zeros(size - |data|)
  }

  lemma ResizedKeeps(data: Bytes)
    ensures Resized(data, |data|) == data
  {
  }

  lemma ResizedFromNothing(size: nat)
    ensures Resized([], size) == Zeros(size)
  {
  }

  function VerifyChunk(hash: Bytes -> Bytes, chunk: VerifiedChunk): (r: Result<(), StorageError>)
    ensures r.Ok? <==> |chunk.bytes| == chunk.spec.length && hash(chunk.bytes) == chunk.digest
  {
    if |chunk.bytes| != chunk.spec.length then
      Err(LengthMismatch(chunk.spec.index, chunk.spec.length, |chunk.bytes|))
    else if hash(chunk.bytes) != chunk.digest then
      Err(HashMismatch(chunk.spec.index))
    else
      Ok(())
  }

  // ----- interleaved writers -----

  /** One short write by the writer of chunk `owner`, `at` bytes into that chunk. */
  datatype ShortWrite = ShortWrite(owner: nat, at: nat, piece: Bytes)

  predicate InsideOwner(plan: ChunkPlan, w: ShortWrite)
    requires plan.Valid()
  {
    w.owner < plan.chunkCount && w.at + |w.piece| <= plan.At(w.owner).length
  }

  function Replay(plan: ChunkPlan, data: Bytes, writes: seq<ShortWrite>): Bytes
    requires plan.Valid() && forall w | w in writes :: InsideOwner(plan, w)
    decreases |writes|
  {
    if writes == [] then data
    else
      var last := writes[|writes| - 1];
      assert InsideOwner(plan, last);
      Patch(Replay(plan, data, writes[..|writes| - 1]), plan.At(last.owner).offset + last.at, last.piece)
  }

  function Only(writes: seq<ShortWrite>, owner: nat): (r: seq<ShortWrite>)
    ensures forall w | w in r :: w in writes
    decreases |writes|
  {
    if writes == [] then []
    else
      var rest := Only(writes[..|writes| - 1], owner);
      if writes[|writes| - 1].owner == owner then rest + [writes[|writes| - 1]] else rest
  }

  /** One more short write: the watched chunk changes only when it owns the write. */
  lemma OneMoreWrite(plan: ChunkPlan, all: Bytes, own: Bytes, w: ShortWrite, chunk: nat)
    requires plan.Valid() && |all| == |own| == plan.fileSize && chunk < plan.chunkCount
    requires InsideOwner(plan, w) && plan.At(chunk).End() <= plan.fileSize
    requires Slice(all, plan.At(chunk)) == Slice(own, plan.At(chunk))
    ensures var offset := plan.At(w.owner).offset + w.at;
            var all', own' := Patch(all, offset, w.piece), if w.owner == chunk then Patch(own, offset, w.piece)
                else own;
            |all'| == |own'| == plan.fileSize && Slice(all', plan.At(chunk)) == Slice(own', plan.At(chunk))
  {
    var offset := plan.At(w.owner).offset + w.at;
    ChunksAbut(plan, w.owner);
    if w.owner == chunk {
      SamePatchSameSlice(all, own, offset, w.piece, plan.At(chunk));
    } else {
      if w.owner < chunk {
        ChunksDisjoint(plan, w.owner, chunk);
      } else {
        ChunksDisjoint(plan, chunk, w.owner);
      }
      PatchElsewhere(all, offset, w.piece, plan.At(chunk));
    }
  }

  /** However the short writes of all chunks interleave, each chunk ends up as if only its own writer had run. */
  lemma {:induction false} WritersDoNotDisturb(plan: ChunkPlan, data: Bytes, writes: seq<ShortWrite>, chunk: nat)
    requires plan.Valid() && |data| == plan.fileSize && chunk < plan.chunkCount
    requires forall w | w in writes :: InsideOwner(plan, w)
    ensures |Replay(plan, data, writes)| == |Replay(plan, data, Only(writes, chunk))| == plan.fileSize
    ensures plan.At(chunk).End() <= plan.fileSize
    ensures Slice(Replay(plan, data, writes), plan.At(chunk))
            == Slice(Replay(plan, data, Only(writes, chunk)), plan.At(chunk))
    decreases |writes|
  {
    if writes == [] {
      ChunksAbut(plan, chunk);
    } else {
      var init, last := writes[..|writes| - 1], writes[|writes| - 1];
      assert InsideOwner(plan, last);
      WritersDoNotDisturb(plan, data, init, chunk);
      OneMoreWrite(plan, Replay(plan, data, init), Replay(plan, data, Only(init, chunk)), last, chunk);
      if last.owner == chunk {
        var mine := Only(init, chunk) + [last];
        assert mine[..|mine| - 1] == Only(init, chunk);
      }
    }
  }

  lemma PatchElsewhere(data: Bytes, offset: nat, piece: Bytes, spec: ChunkSpec)
    requires offset + |piece| <= |data| && spec.End() <= |data|
    requires offset + |piece| <= spec.offset || spec.End() <= offset
    ensures |Patch(data, offset, piece)| == |data|
    ensures Slice(Patch(data, offset, piece), spec) == Slice(data, spec)
  {
  }

  lemma SamePatchSameSlice(a: Bytes, b: Bytes, offset: nat, piece: Bytes, spec: ChunkSpec)
    requires |a| == |b| && offset + |piece| <= |a| && spec.End() <= |a|
    requires Slice(a, spec) == Slice(b, spec)
    ensures |Patch(a, offset, piece)| == |Patch(b, offset, piece)| == |a|
    ensures Slice(Patch(a, offset, piece), spec) == Slice(Patch(b, offset, piece), spec)
  {
    var x, y := Patch(a, offset, piece), Patch(b, offset, piece);
    forall p | spec.offset <= p < spec.End()
      ensures x[p] == y[p]
    {
      assert Slice(a, spec)[p - spec.offset] == Slice(b, spec)[p - spec.offset];
    }
  }
}
