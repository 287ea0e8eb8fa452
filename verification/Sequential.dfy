/** Files that cannot be written or read at an offset: one channel, a resume map that starts empty, and reads and writes
    at the file's cursor. In index order, appending is the same as positioned I/O. */
module Sequential {
  import opened Wrappers
  import opened Chunks
  import opened ResumeMaps
  import opened Storage
  import opened Jobs
  import opened WorkQueue

  // ----- what order the chunks of one file come in -----

  /** The chunks of file `f` among a list of jobs, in the order of the list. */
  function SpecsOf(jobs: seq<ChunkJob>, f: nat): seq<ChunkSpec>
    decreases |jobs|
  {
    if jobs == [] then []
    else if jobs[0].entryIndex == f then [jobs[0].spec] + SpecsOf(jobs[1..], f)
    else SpecsOf(jobs[1..], f)
  }

  lemma {:induction false} SpecsOfConcat(a: seq<ChunkJob>, b: seq<ChunkJob>, f: nat)
    ensures SpecsOf(a + b, f) == SpecsOf(a, f) + SpecsOf(b, f)
  {
    if a == [] {
      assert a + b == b;
    } else {
      assert (a + b)[1..] == a[1..] + b;
      SpecsOfConcat(a[1..], b, f);
    }
  }

  lemma {:induction false} SpecsOfTag(entryIndex: nat, specs: seq<ChunkSpec>, f: nat)
    ensures SpecsOf(Tag(entryIndex, specs), f) == if entryIndex == f then specs else []
  {
    if specs != [] {
      assert Tag(entryIndex, specs)[1..] == Tag(entryIndex, specs[1..]);
      SpecsOfTag(entryIndex, specs[1..], f);
    }
  }

  lemma {:induction false} SpecsOfMissing(plans: seq<ChunkPlan>, done: seq<set<nat>>, i: nat, f: nat)
    requires ValidPlans(plans) && |done| == |plans| && i <= |plans| && f < |plans|
    ensures SpecsOf(MissingJobs(plans, done, i), f) == if i <= f then MissingFrom(plans[f], done[f], 0) else []
    decreases |plans| - i
  {
    hide ChunkPlan.Valid, ChunkPlan.At, MissingFrom, Tag, SpecsOf;
    if i < |plans| {
      SpecsOfMissing(plans, done, i + 1, f);
      SpecsOfTag(i, MissingFrom(plans[i], done[i], 0), f);
      SpecsOfConcat(Tag(i, MissingFrom(plans[i], done[i], 0)), MissingJobs(plans, done, i + 1), f);
    } else {
      NoSpecs(f);
    }
  }

  lemma NoSpecs(f: nat)
    ensures SpecsOf([], f) == []
  {
  }

  /** With nothing done, the missing chunks are all chunks in index order. */
  lemma {:induction false} AllMissingInOrder(plan: ChunkPlan, from: nat)
    requires plan.Valid() && from <= plan.chunkCount
    ensures |MissingFrom(plan, {}, from)| == plan.chunkCount - from
    ensures forall i: nat | i < plan.chunkCount - from :: MissingFrom(plan, {}, from)[i] == plan.At(from + i)
    decreases plan.chunkCount - from
  {
    hide ChunkPlan.Valid, ChunkPlan.At;
    if from < plan.chunkCount {
      AllMissingInOrder(plan, from + 1);
      forall i: nat | i < plan.chunkCount - from
        ensures MissingFrom(plan, {}, from)[i] == plan.At(from + i)
      {
        if i > 0 {
          assert MissingFrom(plan, {}, from)[i] == MissingFrom(plan, {}, from + 1)[i - 1];
        }
      }
    }
  }

  /** The first chunks of a plan, in order and without a gap. */
  ghost predicate InOrder(plan: ChunkPlan, specs: seq<ChunkSpec>)
    requires plan.Valid()
  {
    |specs| <= plan.chunkCount && forall i: nat | i < |specs| :: specs[i] == plan.At(i)
  }

  /** Whatever a single channel has written so far, the chunks of each file came first to last; when it leaves its
      loop, all of them did. */
  lemma SingleChannelSendsInOrder(plans: seq<ChunkPlan>, none: seq<set<nat>>, moves: seq<Move>, f: nat)
    requires ValidPlans(plans) && |none| == |plans| && (forall i | 0 <= i < |none| :: none[i] == {}) && f < |plans|
    requires Run(Start(MissingJobs(plans, none, 0), 1), moves).Some?
    ensures var end := Run(Start(MissingJobs(plans, none, 0), 1), moves).value;
            && |end.channels| == 1
            && InOrder(plans[f], SpecsOf(end.channels[0].sent, f))
            && (end.channels[0].phase.Exited? ==> |SpecsOf(end.channels[0].sent, f)| == plans[f].chunkCount)
  {
    hide ChunkPlan.Valid, ChunkPlan.At, MissingFrom, MissingJobs, Run, SpecsOf, InOrder, Taken, Total;
    var jobs := MissingJobs(plans, none, 0);
    SingleChannelInOrder(jobs, moves);
    RunConserves(jobs, 1, moves);
    var end := Run(Start(jobs, 1), moves).value;
    var ch := end.channels[0];
    var rest := InHand(ch) + InSlot(ch) + end.queue;
    SentFirst(ch, end.queue);
    SpecsOfConcat(ch.sent, rest, f);
    SpecsOfMissing(plans, none, 0, f);
    AllInOrder(plans[f]);
    PrefixInOrder(plans[f], SpecsOf(ch.sent, f), SpecsOf(rest, f));
    if ch.phase.Exited? {
      assert rest == [];
      NoSpecs(f);
    }
  }

  lemma SentFirst<J(!new)>(ch: Channel<J>, queue: seq<J>)
    ensures Taken(ch) + queue == ch.sent + (InHand(ch) + InSlot(ch) + queue)
  {
  }

  lemma AllInOrder(plan: ChunkPlan)
    requires plan.Valid()
    ensures |MissingFrom(plan, {}, 0)| == plan.chunkCount && InOrder(plan, MissingFrom(plan, {}, 0))
  {
    hide ChunkPlan.Valid, ChunkPlan.At;
    AllMissingInOrder(plan, 0);
  }

  lemma PrefixInOrder(plan: ChunkPlan, a: seq<ChunkSpec>, b: seq<ChunkSpec>)
    requires plan.Valid() && InOrder(plan, a + b)
    ensures InOrder(plan, a)
  {
    hide ChunkPlan.Valid, ChunkPlan.At;
    assert forall i: nat | i < |a| :: (a + b)[i] == a[i];
  }

  // ----- appending is positioned writing -----

  /** The file after each chunk was written at its own offset. */
  function Positioned(data: Bytes, chunks: seq<VerifiedChunk>): Bytes
    decreases |chunks|
  {
    if chunks == [] then data
    else
      var last := chunks[|chunks| - 1];
      Patch(Positioned(data, chunks[..|chunks| - 1]), last.spec.offset, last.bytes)
  }

  /** Chunks whose headers are the plan's first ones, in order, and whose payloads have the declared lengths. */
  ghost predicate InOrderChunks(plan: ChunkPlan, chunks: seq<VerifiedChunk>)
    requires plan.Valid()
  {
    && |chunks| <= plan.chunkCount
    && forall i: nat | i < |chunks| :: chunks[i].spec == plan.At(i) && |chunks[i].bytes| == chunks[i].spec.length
  }

  /** Where the first `n` chunks of a plan end. */
  function EndOf(plan: ChunkPlan, n: nat): nat
    requires plan.Valid() && n <= plan.chunkCount
  {
    if n == plan.chunkCount then plan.fileSize else plan.At(n).offset
  }

  lemma EndsMeet(plan: ChunkPlan, n: nat)
    requires plan.Valid() && n < plan.chunkCount
    ensures EndOf(plan, n) == plan.At(n).offset && EndOf(plan, n + 1) == plan.At(n).End()
  {
    ChunksAbut(plan, n);
  }

  lemma StartsAtZero(plan: ChunkPlan)
    requires plan.Valid()
    ensures EndOf(plan, 0) == 0
  {
    DivCeilBounds(plan.fileSize, plan.chunkSize);
  }

  /** Source chunks written in order into an empty file make up the source so far, and the whole source at the end. */
  lemma {:induction false} InOrderBuildsTheSource(plan: ChunkPlan, source: Bytes, chunks: seq<VerifiedChunk>)
    requires plan.Valid() && |source| == plan.fileSize && InOrderChunks(plan, chunks)
    requires forall i: nat | i < |chunks| ::
              plan.At(i).End() <= |source| && chunks[i].bytes == Slice(source, plan.At(i))
    ensures EndOf(plan, |chunks|) <= |source| && Positioned([], chunks) == source[..EndOf(plan, |chunks|)]
    ensures |chunks| == plan.chunkCount ==> Positioned([], chunks) == source
    decreases |chunks|
  {
    hide ChunkPlan.Valid, ChunkPlan.At, Patch;
    if chunks == [] {
      StartsAtZero(plan);
    } else {
      var n := |chunks| - 1;
      InOrderBuildsTheSource(plan, source, chunks[..n]);
      EndsMeet(plan, n);
      AppendSlice(source, plan.At(n), chunks[n].bytes);
    }
  }

  lemma AppendSlice(source: Bytes, spec: ChunkSpec, bytes: Bytes)
    requires spec.End() <= |source| && bytes == Slice(source, spec)
    ensures Patch(source[..spec.offset], spec.offset, bytes) == source[..spec.End()]
  {
  }

  // ----- the receiving loop of a file without random access -----

  /** One chunk under the write lock: a chunk already marked is only verified, any other is appended at the cursor and
      marked. While the marked chunks are the first `k`, the cursor is where chunk `k` belongs. */
  method TakeChunk(hash: Bytes -> Bytes, file: DiskFile, resume: ResumeMap, plan: ChunkPlan, chunk: VerifiedChunk,
                   k: nat)
    returns (r: Result<(), StorageError>)
    requires plan.Valid() && k <= plan.chunkCount && file.cursor == EndOf(plan, k)
    requires resume.Valid() && resume.chunkCount == plan.chunkCount && resume.Contents() == Below(k)
    requires chunk.spec.index <= k && chunk.spec.index < plan.chunkCount && chunk.spec == plan.At(chunk.spec.index)
    modifies file, resume, resume.words
    ensures resume.Valid()
    ensures r.Ok? && chunk.spec.index < k ==>
              file.data == old(file.data) && file.cursor == old(file.cursor) && resume.Contents() == Below(k)
    ensures r.Ok? && chunk.spec.index == k ==>
              && Sound(hash, chunk) && file.data == Patch(old(file.data), chunk.spec.offset, chunk.bytes)
              && file.cursor == EndOf(plan, k + 1) && resume.Contents() == Below(k + 1)
    ensures r.Err? ==> resume.Contents() == Below(k)
    ensures file.healthy ==>
              (r.Ok? <==> if chunk.spec.index < k then hash(chunk.bytes) == chunk.digest else Sound(hash, chunk))
    ensures r.Err? ==>
              exists n: nat | n <= |chunk.bytes| ::
                  file.data == Patch(old(file.data), old(file.cursor), chunk.bytes[..n])
    ensures r.Err? && (r.error.HashMismatch? || r.error.LengthMismatch?) ==>
              file.data == old(file.data) && !Sound(hash, chunk)
  {
    hide ChunkPlan.Valid, ChunkPlan.At, Patch, DivCeil, Bit, ResumeMap.Contents, EndOf;
    if resume.Contains(chunk.spec.index) {
      if hash(chunk.bytes) != chunk.digest {
        PatchNothing(file.data, file.cursor);
        assert chunk.bytes[..0] == [];
        return Err(HashMismatch(chunk.spec.index));
      }
      return Ok(());
    }
    EndsMeet(plan, k);
    var written := file.WriteSequentialChunk(hash, chunk);
    if written.Err? {
      return Err(written.error);
    }
    var marked := resume.MarkComplete(chunk.spec.index);
    assert Below(k + 1) == Below(k) + {k};
    return Ok(());
  }

  /** In index order, appending at the cursor leaves what positioned writes would have left. */
  method ReceiveSequential(hash: Bytes -> Bytes, file: DiskFile, resume: ResumeMap, plan: ChunkPlan,
                           chunks: seq<VerifiedChunk>)
    returns (r: Result<(), StorageError>, done: nat)
    requires plan.Valid() && file.cursor == 0
    requires resume.Valid() && resume.chunkCount == plan.chunkCount && resume.Contents() == {}
    requires |chunks| <= plan.chunkCount && forall i: nat | i < |chunks| :: chunks[i].spec == plan.At(i)
    modifies file, resume, resume.words
    ensures resume.Valid() && done <= |chunks| && resume.Contents() == Below(done)
    ensures forall i: nat | i < done :: Sound(hash, chunks[i])
    ensures r.Ok? ==> done == |chunks| && file.data == Positioned(old(file.data), chunks)
    ensures r.Ok? ==> file.cursor == EndOf(plan, done)
    ensures r.Err? && (r.error.HashMismatch? || r.error.LengthMismatch?) ==>
              done < |chunks| && file.data == Positioned(old(file.data), chunks[..done]) && !Sound(hash, chunks[done])
    ensures file.healthy && (forall i: nat | i < |chunks| :: Sound(hash, chunks[i])) ==> r.Ok?
  {
    hide ChunkPlan.Valid, ChunkPlan.At, Patch, DivCeil, Bit, ResumeMap.Contents, Positioned, EndOf, Sound,
         PaddingClear, Below;
    StartsAtZero(plan);
    NothingWritten(file.data);
    done := 0;
    while done < |chunks|
      invariant done <= |chunks| && resume.Valid() && resume.Contents() == Below(done)
      invariant forall i: nat | i < done :: Sound(hash, chunks[i])
      invariant file.data == Positioned(old(file.data), chunks[..done]) && file.cursor == EndOf(plan, done)
    {
      IndexOfAt(plan, done);
      r := TakeChunk(hash, file, resume, plan, chunks[done], done);
      if r.Err? {
        return r, done;
      }
      WrittenNext(old(file.data), chunks, done);
      done := done + 1;
    }
    assert chunks[..done] == chunks;
    return Ok(()), done;
  }

  /** The declared length and digest are those of the payload. */
  predicate Sound(hash: Bytes -> Bytes, chunk: VerifiedChunk) {
    |chunk.bytes| == chunk.spec.length && hash(chunk.bytes) == chunk.digest
  }

  lemma NothingWritten(data: Bytes)
    ensures Positioned(data, []) == data
  {
  }

  lemma WrittenNext(data: Bytes, chunks: seq<VerifiedChunk>, n: nat)
    requires n < |chunks|
    ensures Positioned(data, chunks[..n + 1])
              == Patch(Positioned(data, chunks[..n]), chunks[n].spec.offset, chunks[n].bytes)
  {
    assert chunks[..n + 1][..n] == chunks[..n];
  }

  // ----- the sending side of a source without random access -----

  /** A fresh source read from its cursor in index order yields the chunks a positioned read would have yielded. */
  method ReadSequential(hash: Bytes -> Bytes, source: DiskFile, plan: ChunkPlan, specs: seq<ChunkSpec>)
    returns (r: Result<(), StorageError>, chunks: seq<VerifiedChunk>)
    requires plan.Valid() && InOrder(plan, specs) && source.cursor == 0 && |source.data| == plan.fileSize
    modifies source`cursor
    ensures r.Ok? ==> |chunks| == |specs| && InOrderChunks(plan, chunks)
    ensures source.healthy ==> r.Ok?
    ensures forall i: nat | i < |chunks| ::
              && i < |specs| && specs[i].End() <= |source.data|
              && chunks[i] == VerifiedChunk(specs[i], hash(Slice(source.data, specs[i])), Slice(source.data, specs[i]))
  {
    hide ChunkPlan.Valid, ChunkPlan.At, DivCeil;
    StartsAtZero(plan);
    chunks := [];
    while |chunks| < |specs|
      invariant |chunks| <= |specs| && source.cursor == EndOf(plan, |chunks|)
      invariant InOrderChunks(plan, chunks)
      invariant forall i: nat | i < |chunks| ::
                  && specs[i].End() <= |source.data|
                  && chunks[i].spec == specs[i] && chunks[i].bytes == Slice(source.data, specs[i])
                  && chunks[i].digest == hash(chunks[i].bytes)
    {
      var n := |chunks|;
      EndsMeet(plan, n);
      ChunksAbut(plan, n);
      var read := source.ReadSequentialChunk(hash, specs[n]);
      if read.Err? {
        return Err(read.error), chunks;
      }
      chunks := chunks + [read.value];
    }
    return Ok(()), chunks;
  }

  /** End to end for one such file: read in order, received in order, the target is the source. */
  method CopySequential(hash: Bytes -> Bytes, source: DiskFile, target: DiskFile, resume: ResumeMap, plan: ChunkPlan)
    returns (r: Result<(), StorageError>)
    requires plan.Valid() && source != target && source.cursor == 0 && |source.data| == plan.fileSize
    requires target.cursor == 0 && target.data == []
    requires resume.Valid() && resume.chunkCount == plan.chunkCount && resume.Contents() == {}
    modifies source`cursor, target, resume, resume.words
    ensures r.Ok? ==> target.data == source.data && resume.Valid() && resume.Contents() == Below(plan.chunkCount)
    ensures source.healthy && target.healthy ==> r.Ok?
  {
    hide ChunkPlan.Valid, ChunkPlan.At, DivCeil, Bit, ResumeMap.Contents;
    AllInOrder(plan);
    var specs := MissingFrom(plan, {}, 0);
    var read, chunks := ReadSequential(hash, source, plan, specs);
    if read.Err? {
      return Err(read.error);
    }
    InOrderBuildsTheSource(plan, source.data, chunks);
    var done;
    r, done := ReceiveSequential(hash, target, resume, plan, chunks);
  }

  // ----- when reading at the cursor is right -----

  /** A chunk as read from a source that stands at `at`: the chunk's own offset plays no part, and its digest always
      fits. */
  predicate ReadAt(hash: Bytes -> Bytes, data: Bytes, at: nat, spec: ChunkSpec, chunk: VerifiedChunk) {
    && at + spec.length <= |data|
    && chunk == VerifiedChunk(spec, hash(data[at..at + spec.length]), data[at..at + spec.length])
  }

  /** Read one after another from `start` on, every chunk gets its own range of the source. */
  ghost predicate ReadsRight(source: Bytes, start: nat, specs: seq<ChunkSpec>) {
    forall k: nat | k < |specs| :: RightAt(source, start + SumLengths(specs[..k]), specs[k])
  }

  predicate RightAt(source: Bytes, at: nat, spec: ChunkSpec) {
    && at + spec.length <= |source| && spec.End() <= |source|
    && source[at..at + spec.length] == Slice(source, spec)
  }

  /** No chunk the receiver has lies between two it misses. */
  ghost predicate NoGap(plan: ChunkPlan, done: set<nat>) {
    forall a: nat, b: nat, c: nat | a < b < c < plan.chunkCount && a !in done && c !in done :: b !in done
  }

  /** The source stands at the first missing chunk, and nothing is to be skipped after it. */
  ghost predicate StandsRight(plan: ChunkPlan, done: set<nat>, start: nat)
    requires plan.Valid()
  {
    var missing := MissingFrom(plan, done, 0);
    missing == [] || (start == missing[0].offset && NoGap(plan, done))
  }

  predicate AtOwnOffsets(start: nat, specs: seq<ChunkSpec>) {
    forall k: nat | k < |specs| :: start + SumLengths(specs[..k]) == specs[k].offset
  }

  predicate Consecutive(specs: seq<ChunkSpec>) {
    forall k: nat | k + 1 < |specs| :: specs[k + 1].index == specs[k].index + 1
  }

  /** Reading at the cursor is right for every source exactly if the source stands at the first missing chunk and no
      chunk the receiver has lies between two it misses. */
  lemma ReadsRightExactly(plan: ChunkPlan, done: set<nat>, start: nat)
    requires plan.Valid()
    ensures (forall source: Bytes | |source| == plan.fileSize :: ReadsRight(source, start, MissingFrom(plan, done, 0)))
            <==> StandsRight(plan, done, start)
  {
    hide ChunkPlan.Valid, ChunkPlan.At, MissingFrom, ReadsRight, AtOwnOffsets, Consecutive, NoGap;
    var missing := MissingFrom(plan, done, 0);
    MissingExactly(plan, done, 0);
    NoGapIsConsecutive(plan, done, missing);
    OffsetsAbut(plan, done, start, missing);
    if AtOwnOffsets(start, missing) {
      forall source: Bytes | |source| == plan.fileSize
        ensures ReadsRight(source, start, missing)
      {
        OwnOffsetsAreRight(plan, done, source, start, missing);
      }
    } else {
      var source := WrongOffsetIsWrong(plan, done, start, missing);
    }
  }

  lemma {:induction false} SumAppend(specs: seq<ChunkSpec>, spec: ChunkSpec)
    ensures SumLengths(specs + [spec]) == SumLengths(specs) + spec.length
  {
    if specs == [] {
      assert [spec][1..] == [];
    } else {
      assert (specs + [spec])[1..] == specs[1..] + [spec];
      SumAppend(specs[1..], spec);
    }
  }

  lemma SumOneMore(specs: seq<ChunkSpec>, k: nat)
    requires k < |specs|
    ensures SumLengths(specs[..k + 1]) == SumLengths(specs[..k]) + specs[k].length
  {
    assert specs[..k + 1] == specs[..k] + [specs[k]];
    SumAppend(specs[..k], specs[k]);
  }

  lemma OwnOffsetsAreRight(plan: ChunkPlan, done: set<nat>, source: Bytes, start: nat, specs: seq<ChunkSpec>)
    requires plan.Valid() && |source| == plan.fileSize && ExactlyMissing(plan, done, 0, specs)
              && AtOwnOffsets(start, specs)
    ensures ReadsRight(source, start, specs)
  {
    hide ChunkPlan.Valid, ChunkPlan.At;
    forall k: nat | k < |specs|
      ensures RightAt(source, start + SumLengths(specs[..k]), specs[k])
    {
      ChunksAbut(plan, specs[k].index);
    }
  }

  /** A file with a single byte set tells any other offset apart. */
  lemma WrongOffsetIsWrong(plan: ChunkPlan, done: set<nat>, start: nat, specs: seq<ChunkSpec>) returns (source: Bytes)
    requires plan.Valid() && ExactlyMissing(plan, done, 0, specs) && !AtOwnOffsets(start, specs)
    ensures |source| == plan.fileSize && !ReadsRight(source, start, specs)
  {
    hide ChunkPlan.Valid, ChunkPlan.At;
    var k: nat :| k < |specs| && start + SumLengths(specs[..k]) != specs[k].offset;
    ChunksAbut(plan, specs[k].index);
    var at, spec := start + SumLengths(specs[..k]), specs[k];
    source := seq(plan.fileSize, p => if p == spec.offset then 1 else 0);
    if at + spec.length <= |source| {
      assert Slice(source, spec)[0] == 1 && source[at..at + spec.length][0] == 0;
    }
    assert !RightAt(source, at, spec);
  }

  /** The reads fall on the chunks' own offsets exactly if the first does and each chunk ends where the next begins. */
  lemma OffsetsAbut(plan: ChunkPlan, done: set<nat>, start: nat, specs: seq<ChunkSpec>)
    requires plan.Valid() && ExactlyMissing(plan, done, 0, specs)
    ensures AtOwnOffsets(start, specs) <==> specs == [] || (start == specs[0].offset && Consecutive(specs))
  {
    hide ChunkPlan.Valid, ChunkPlan.At;
    forall k: nat | k + 1 < |specs|
      ensures specs[k].End() == specs[k + 1].offset <==> specs[k + 1].index == specs[k].index + 1
    {
      NextOrFurther(plan, specs[k].index, specs[k + 1].index);
    }
    if specs != [] && AtOwnOffsets(start, specs) {
      assert start + SumLengths(specs[..0]) == specs[0].offset;
      forall k: nat | k + 1 < |specs|
        ensures specs[k + 1].index == specs[k].index + 1
      {
        SumOneMore(specs, k);
      }
    }
    if specs != [] && start == specs[0].offset && Consecutive(specs) {
      forall k: nat | k < |specs|
        ensures start + SumLengths(specs[..k]) == specs[k].offset
      {
        ConsecutiveOffsets(start, specs, k);
      }
    }
  }

  lemma {:induction false} ConsecutiveOffsets(start: nat, specs: seq<ChunkSpec>, k: nat)
    requires k < |specs| && start == specs[0].offset
    requires forall i: nat | i + 1 < |specs| :: specs[i].End() == specs[i + 1].offset
    ensures start + SumLengths(specs[..k]) == specs[k].offset
  {
    if k > 0 {
      ConsecutiveOffsets(start, specs, k - 1);
      SumOneMore(specs, k - 1);
      assert specs[k - 1].End() == specs[k - 1 + 1].offset;
    }
  }

  lemma NextOrFurther(plan: ChunkPlan, i: nat, j: nat)
    requires plan.Valid() && i < j < plan.chunkCount
    ensures plan.At(i).End() == plan.At(j).offset <==> j == i + 1
  {
    hide ChunkPlan.Valid, ChunkPlan.At;
    ChunksAbut(plan, i);
    ChunksAbut(plan, i + 1);
    if i + 1 < j {
      ChunksDisjoint(plan, i + 1, j);
    }
  }

  /** Where a planned chunk outside `done` stands in the list. */
  lemma PlaceOf(plan: ChunkPlan, done: set<nat>, specs: seq<ChunkSpec>, k: nat) returns (i: nat)
    requires plan.Valid() && ExactlyMissing(plan, done, 0, specs) && k < plan.chunkCount && k !in done
    ensures i < |specs| && specs[i].index == k
  {
    hide ChunkPlan.Valid;
    assert plan.At(k) in specs;
    i :| i < |specs| && specs[i] == plan.At(k);
  }

  lemma SameOrder(plan: ChunkPlan, done: set<nat>, specs: seq<ChunkSpec>, i: nat, j: nat)
    requires plan.Valid() && ExactlyMissing(plan, done, 0, specs) && i < |specs| && j < |specs|
    ensures i < j <==> specs[i].index < specs[j].index
  {
    hide ChunkPlan.Valid, ChunkPlan.At;
  }

  lemma GapFreeIsConsecutive(plan: ChunkPlan, done: set<nat>, specs: seq<ChunkSpec>, k: nat)
    requires plan.Valid() && ExactlyMissing(plan, done, 0, specs) && NoGap(plan, done) && k + 1 < |specs|
    ensures specs[k + 1].index == specs[k].index + 1
  {
    hide ChunkPlan.Valid, ChunkPlan.At;
    var b := specs[k].index + 1;
    if b < specs[k + 1].index {
      assert b !in done;
      var l := PlaceOf(plan, done, specs, b);
      SameOrder(plan, done, specs, l, k);
      SameOrder(plan, done, specs, l, k + 1);
    }
  }

  lemma ConsecutiveIsGapFree(plan: ChunkPlan, done: set<nat>, specs: seq<ChunkSpec>, a: nat, b: nat, c: nat)
    requires plan.Valid() && ExactlyMissing(plan, done, 0, specs) && Consecutive(specs)
    requires a < b < c < plan.chunkCount && a !in done && c !in done
    ensures b !in done
  {
    hide ChunkPlan.Valid, ChunkPlan.At, Consecutive;
    var i := PlaceOf(plan, done, specs, a);
    var j := PlaceOf(plan, done, specs, c);
    SameOrder(plan, done, specs, i, j);
    ConsecutiveIndex(specs, i, j - i);
    ConsecutiveIndex(specs, i, b - a);
  }

  /** Without a gap, the missing chunks have consecutive indices, and the other way round. */
  lemma NoGapIsConsecutive(plan: ChunkPlan, done: set<nat>, specs: seq<ChunkSpec>)
    requires plan.Valid() && ExactlyMissing(plan, done, 0, specs)
    ensures NoGap(plan, done) <==> Consecutive(specs)
  {
    hide ChunkPlan.Valid, ChunkPlan.At, ExactlyMissing;
    if NoGap(plan, done) {
      forall k: nat | k + 1 < |specs|
        ensures specs[k + 1].index == specs[k].index + 1
      {
        GapFreeIsConsecutive(plan, done, specs, k);
      }
    }
    if Consecutive(specs) {
      forall a: nat, b: nat, c: nat | a < b < c < plan.chunkCount && a !in done && c !in done
        ensures b !in done
      {
        ConsecutiveIsGapFree(plan, done, specs, a, b, c);
      }
    }
  }

  lemma {:induction false} ConsecutiveIndex(specs: seq<ChunkSpec>, i: nat, t: nat)
    requires i + t < |specs| && Consecutive(specs)
    ensures specs[i + t].index == specs[i].index + t
  {
    if t > 0 {
      ConsecutiveIndex(specs, i, t - 1);
      assert specs[i + t - 1 + 1].index == specs[i + t - 1].index + 1;
    }
  }

  /** A file of two chunks of which the receiver has the first, in a source without random access: the sender puts the
      first chunk's bytes under the second chunk's header, and the digest it declares fits them. */
  lemma ResumedReadIsWrong(hash: Bytes -> Bytes)
    ensures var plan := ChunkPlan(2 * DEFAULT_CHUNK_SIZE, DEFAULT_CHUNK_SIZE, 2);
            && plan.Valid() && MissingFrom(plan, {0}, 0) == [plan.At(1)]
            && exists source: Bytes, chunk: VerifiedChunk ::
                 && |source| == plan.fileSize && ReadAt(hash, source, 0, plan.At(1), chunk)
                 && Sound(hash, chunk) && chunk.bytes != Slice(source, plan.At(1))
  {
    var plan := ChunkPlan(2 * DEFAULT_CHUNK_SIZE, DEFAULT_CHUNK_SIZE, 2);
    assert DivCeil(plan.fileSize, plan.chunkSize) == 2;
    assert MissingFrom(plan, {0}, 2) == [];
    assert MissingFrom(plan, {0}, 1) == [plan.At(1)];
    var source: Bytes := seq(plan.fileSize, p => if p == DEFAULT_CHUNK_SIZE then 1 else 0);
    var bytes := source[0..DEFAULT_CHUNK_SIZE];
    var chunk := VerifiedChunk(plan.At(1), hash(bytes), bytes);
    assert bytes[0] == 0 && Slice(source, plan.At(1))[0] == 1;
    assert ReadAt(hash, source, 0, plan.At(1), chunk);
  }
}
