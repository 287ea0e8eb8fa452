/** The chunk plan of one file: how `[0, file_size)` is cut into fixed-size chunks. */
module Chunks {
  import opened Wrappers

  const DEFAULT_CHUNK_SIZE: nat := 4 * 1024 * 1024
  const MAX_DATA_CHANNELS: nat := 4

  datatype ChunkSpec = ChunkSpec(index: nat, offset: nat, length: nat) {
    function End(): nat {
      offset + length
    }
  }

  datatype ChunkError =
    | ZeroChunkSize
    | TooManyChunks(count: nat)
    | IndexOutOfRange(index: nat, count: nat)
    | ResumeMapMismatch(expected: nat, actual: nat)
    | InvalidBitmapLength(expected: nat, actual: nat)

  function DivCeil(a: nat, b: nat): nat
    requires b > 0
  {
    if a % b == 0 then a / b else a / b + 1
  }

  datatype ChunkPlan = ChunkPlan(fileSize: nat, chunkSize: nat, chunkCount: nat) {

    /** What `New` establishes for a u64 size and a u32 chunk size. */
    predicate Valid() {
      && fileSize <= U64_MAX
      && 0 < chunkSize <= U32_MAX
      && chunkCount == DivCeil(fileSize, chunkSize)
      && chunkCount <= U32_MAX
    }

    /** The chunk at an index known to be in range. */
    function At(index: nat): ChunkSpec
      requires Valid() && index < chunkCount
    {
      OffsetInside(this, index);
      var offset := index * chunkSize;
      ChunkSpec(index, offset, Min(fileSize - offset, chunkSize))
    }

    function Chunk(index: nat): Result<ChunkSpec, ChunkError>
      requires Valid()
    {
      if index >= chunkCount then Err(IndexOutOfRange(index, chunkCount)) else Ok(At(index))
    }
  }

  function NewPlan(fileSize: nat, chunkSize: nat): Result<ChunkPlan, ChunkError>
  {
    if chunkSize == 0 then
      Err(ZeroChunkSize)
    else
      var count := DivCeil(fileSize, chunkSize);
      if count > U32_MAX then Err(TooManyChunks(count)) else Ok(ChunkPlan(fileSize, chunkSize, count))
  }

  /** A plan exists exactly for a non-zero chunk size and a file of at most u32::MAX such chunks. */
  lemma PlanExists(fileSize: nat, chunkSize: nat)
    requires fileSize <= U64_MAX && chunkSize <= U32_MAX
    ensures NewPlan(fileSize, chunkSize).Ok? <==> 0 < chunkSize && fileSize <= U32_MAX * chunkSize
    ensures NewPlan(fileSize, chunkSize).Ok? ==> NewPlan(fileSize, chunkSize).value.Valid()
  {
    if chunkSize > 0 {
      var count := DivCeil(fileSize, chunkSize);
      DivCeilBounds(fileSize, chunkSize);
      if count > U32_MAX {
        MulMonotone(U32_MAX, count - 1, chunkSize);
        assert count * chunkSize == (count - 1) * chunkSize + chunkSize;
      } else {
        MulMonotone(count, U32_MAX, chunkSize);
      }
    }
  }

  // ----- the plan tiles the file -----

  lemma DivCeilBounds(a: nat, b: nat)
    requires b > 0
    ensures a <= DivCeil(a, b) * b < a + b
  {
    assert a == (a / b) * b + a % b;
  }

  lemma OffsetInside(plan: ChunkPlan, index: nat)
    requires plan.Valid() && index < plan.chunkCount
    ensures index * plan.chunkSize < plan.fileSize
  {
    DivCeilBounds(plan.fileSize, plan.chunkSize);
    MulMonotone(index, plan.chunkCount - 1, plan.chunkSize);
  }

  lemma MulMonotone(a: nat, b: nat, c: nat)
    requires a <= b
    ensures a * c <= b * c
  {
  }

  /** No chunk is empty or longer than the chunk size, the chunks follow one another without gap or
      overlap, the first starts at zero, the last ends the file, and no offset leaves u64. */
  lemma ChunksAbut(plan: ChunkPlan, index: nat)
    requires plan.Valid() && index < plan.chunkCount
    ensures var spec := plan.At(index);
            && 0 < spec.length <= plan.chunkSize
            && (index == 0 ==> spec.offset == 0)
            && (index + 1 < plan.chunkCount ==>
                spec.length == plan.chunkSize && spec.End() == plan.At(index + 1).offset)
            && (index + 1 == plan.chunkCount ==> spec.End() == plan.fileSize)
            && spec.End() <= plan.fileSize <= U64_MAX
  {
    OffsetInside(plan, index);
    DivCeilBounds(plan.fileSize, plan.chunkSize);
    if index + 1 < plan.chunkCount {
      OffsetInside(plan, index + 1);
    }
    assert (index + 1) * plan.chunkSize == index * plan.chunkSize + plan.chunkSize;
  }

  /** Two different chunks never share a byte. */
  lemma ChunksDisjoint(plan: ChunkPlan, i: nat, j: nat)
    requires plan.Valid() && i < j < plan.chunkCount
    ensures plan.At(i).End() <= plan.At(j).offset
  {
    ChunksAbut(plan, i);
    MulMonotone(i + 1, j, plan.chunkSize);
    assert (i + 1) * plan.chunkSize == i * plan.chunkSize + plan.chunkSize;
  }

  /** The chunk a byte position belongs to. */
  function Owner(plan: ChunkPlan, position: nat): nat
    requires plan.Valid()
  {
    position / plan.chunkSize
  }

  /** Every byte of the file lies in exactly one planned chunk. */
  lemma EveryByteHasOneChunk(plan: ChunkPlan, position: nat)
    requires plan.Valid() && position < plan.fileSize
    ensures Owner(plan, position) < plan.chunkCount
    ensures forall i: nat | i < plan.chunkCount ::
              (plan.At(i).offset <= position < plan.At(i).End()) <==> i == Owner(plan, position)
  {
    var size := plan.chunkSize;
    var o := Owner(plan, position);
    DivCeilBounds(plan.fileSize, size);
    assert position == o * size + position % size;
    if o >= plan.chunkCount {
      MulMonotone(plan.chunkCount, o, size);
    }
    ChunksAbut(plan, o);
    assert (o + 1) * size == o * size + size;
    forall i: nat | i < plan.chunkCount
      ensures (plan.At(i).offset <= position < plan.At(i).End()) <==> i == o
    {
      ChunksAbut(plan, i);
      if i < o {
        ChunksDisjoint(plan, i, o);
      } else if i > o {
        ChunksDisjoint(plan, o, i);
      }
    }
  }

  function Slice(file: Bytes, spec: ChunkSpec): Bytes
    requires spec.End() <= |file|
  {
    file[spec.offset..spec.End()]
  }

  /** A file is determined by its planned chunks. */
  lemma SlicesDetermineFile(plan: ChunkPlan, a: Bytes, b: Bytes)
    requires plan.Valid() && |a| == |b| == plan.fileSize
    requires forall i: nat | i < plan.chunkCount ::
               plan.At(i).End() <= plan.fileSize && Slice(a, plan.At(i)) == Slice(b, plan.At(i))
    ensures a == b
  {
    forall p: nat | p < |a|
      ensures a[p] == b[p]
    {
      EveryByteHasOneChunk(plan, p);
      var spec := plan.At(Owner(plan, p));
      assert Slice(a, spec)[p - spec.offset] == a[p];
      assert Slice(b, spec)[p - spec.offset] == b[p];
    }
  }

  // ----- resume arithmetic on sets of chunk indices -----

  /** The plan's chunks from `from` on whose index is outside `done`, in index order. */
  function MissingFrom(plan: ChunkPlan, done: set<nat>, from: nat): seq<ChunkSpec>
    requires plan.Valid() && from <= plan.chunkCount
    decreases plan.chunkCount - from
  {
    if from == plan.chunkCount then []
    else if from in done then MissingFrom(plan, done, from + 1)
    else [plan.At(from)] + MissingFrom(plan, done, from + 1)
  }

  /** Total length of the chunks from `from` on whose index is in `done`. */
  function BytesFrom(plan: ChunkPlan, done: set<nat>, from: nat): nat
    requires plan.Valid() && from <= plan.chunkCount
    decreases plan.chunkCount - from
  {
    if from == plan.chunkCount then 0
    else (if from in done then plan.At(from).length else 0) + BytesFrom(plan, done, from + 1)
  }

  function SumLengths(specs: seq<ChunkSpec>): nat {
    if specs == [] then 0 else specs[0].length + SumLengths(specs[1..])
  }

  /** Completed bytes and the lengths of the missing chunks always add up to the file size. */
  lemma {:induction false} CompletedPlusMissing(plan: ChunkPlan, done: set<nat>, from: nat)
    requires plan.Valid() && from <= plan.chunkCount
    ensures BytesFrom(plan, done, from) + SumLengths(MissingFrom(plan, done, from))
            == if from == plan.chunkCount then 0 else plan.fileSize - plan.At(from).offset
    decreases plan.chunkCount - from
  {
    if from < plan.chunkCount {
      CompletedPlusMissing(plan, done, from + 1);
      ChunksAbut(plan, from);
    }
  }

  lemma CompletedPlusMissingIsFileSize(plan: ChunkPlan, done: set<nat>)
    requires plan.Valid()
    ensures BytesFrom(plan, done, 0) + SumLengths(MissingFrom(plan, done, 0)) == plan.fileSize
  {
    CompletedPlusMissing(plan, done, 0);
    DivCeilBounds(plan.fileSize, plan.chunkSize);
    if plan.chunkCount > 0 {
      ChunksAbut(plan, 0);
    }
  }

  /** A list of exactly the planned chunks from `from` on outside `done`, once each and in index order. */
  ghost predicate ExactlyMissing(plan: ChunkPlan, done: set<nat>, from: nat, m: seq<ChunkSpec>)
    requires plan.Valid()
  {
    && (forall k | 0 <= k < |m| ::
          from <= m[k].index < plan.chunkCount && m[k].index !in done && m[k] == plan.At(m[k].index))
    && (forall k, l | 0 <= k < l < |m| :: m[k].index < m[l].index)
    && (forall i: nat | from <= i < plan.chunkCount && i !in done :: plan.At(i) in m)
  }

  lemma IndexOfAt(plan: ChunkPlan, k: nat)
    requires plan.Valid() && k < plan.chunkCount
    ensures plan.At(k).index == k
  {
  }

  lemma MissingPrepends(plan: ChunkPlan, done: set<nat>, from: nat, rest: seq<ChunkSpec>)
    requires plan.Valid() && from < plan.chunkCount && from !in done && ExactlyMissing(plan, done, from + 1, rest)
    ensures ExactlyMissing(plan, done, from, [plan.At(from)] + rest)
  {
    hide ChunkPlan.Valid, ChunkPlan.At;
    IndexOfAt(plan, from);
    var m := [plan.At(from)] + rest;
    assert m[0] == plan.At(from);
    assert forall k | 0 < k < |m| :: m[k] == rest[k - 1];
    forall i: nat | from <= i < plan.chunkCount && i !in done
      ensures plan.At(i) in m
    {
      if i != from {
        assert plan.At(i) in rest;
      }
    }
  }

  lemma {:induction false} MissingExactly(plan: ChunkPlan, done: set<nat>, from: nat)
    requires plan.Valid() && from <= plan.chunkCount
    ensures ExactlyMissing(plan, done, from, MissingFrom(plan, done, from))
    decreases plan.chunkCount - from
  {
    hide ChunkPlan.Valid, ChunkPlan.At;
    if from < plan.chunkCount {
      MissingExactly(plan, done, from + 1);
      if from !in done {
        MissingPrepends(plan, done, from, MissingFrom(plan, done, from + 1));
      }
    }
  }

  /** How many of the indices `from..n` are in `done`. */
  function CountFrom(done: set<nat>, n: nat, from: nat): nat
    requires from <= n
    decreases n - from
  {
    if from == n then 0 else (if from in done then 1 else 0) + CountFrom(done, n, from + 1)
  }

  lemma {:induction false} CountIgnores(done: set<nat>, passed: nat, n: nat, from: nat)
    requires passed < from <= n
    ensures CountFrom(done - {passed}, n, from) == CountFrom(done, n, from)
    decreases n - from
  {
    if from < n {
      CountIgnores(done, passed, n, from + 1);
    }
  }

  lemma {:induction false} CountFromIsSize(done: set<nat>, n: nat, from: nat)
    requires from <= n && forall i :: i in done ==> from <= i < n
    ensures CountFrom(done, n, from) == |done|
    decreases n - from
  {
    if from == n {
      assert done == {};
    } else {
      CountFromIsSize(done - {from}, n, from + 1);
      CountIgnores(done, from, n, from + 1);
    }
  }

  lemma {:induction false} MissingCountFrom(plan: ChunkPlan, done: set<nat>, from: nat)
    requires plan.Valid() && from <= plan.chunkCount
    ensures |MissingFrom(plan, done, from)| + CountFrom(done, plan.chunkCount, from) == plan.chunkCount - from
    decreases plan.chunkCount - from
  {
    if from < plan.chunkCount {
      MissingCountFrom(plan, done, from + 1);
    }
  }

  lemma MissingCount(plan: ChunkPlan, done: set<nat>)
    requires plan.Valid() && done <= Below(plan.chunkCount)
    ensures |MissingFrom(plan, done, 0)| == plan.chunkCount - |done|
  {
    MissingCountFrom(plan, done, 0);
    CountFromIsSize(done, plan.chunkCount, 0);
  }

  /** Marking one more chunk adds exactly that chunk's length. */
  lemma {:induction false} BytesAddOne(plan: ChunkPlan, done: set<nat>, index: nat, from: nat)
    requires plan.Valid() && from <= plan.chunkCount && index < plan.chunkCount && index !in done
    ensures BytesFrom(plan, done + {index}, from)
            == BytesFrom(plan, done, from) + if from <= index then plan.At(index).length else 0
    decreases plan.chunkCount - from
  {
    if from < plan.chunkCount {
      BytesAddOne(plan, done, index, from + 1);
    }
  }

  /** A full set of indices accounts for the whole file. */
  lemma FullBytes(plan: ChunkPlan, done: set<nat>)
    requires plan.Valid() && Below(plan.chunkCount) <= done
    ensures BytesFrom(plan, done, 0) == plan.fileSize
  {
    CompletedPlusMissingIsFileSize(plan, done);
    MissingExactly(plan, done, 0);
    assert MissingFrom(plan, done, 0) == [];
  }
}
