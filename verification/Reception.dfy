/** The receiver's two loops in their own form, run by one thread: taking chunks of a file in any order, repeated or
    not, and moving the finished files to their final names. `Session` has the same work cut into interleaved steps. */
module Reception {
  import opened Wrappers
  import opened Chunks
  import opened ResumeMaps
  import opened Storage
  import opened Preparation
  import opened Sequential

  datatype ReceiveError = Rejected(error: StorageError) | NotRecorded

  /** What a file of the receiving context satisfies between two chunks. */
  ghost predicate Ready(file: IncomingFile)
    reads file, file.resume, file.resume.words, file.target
  {
    && file.plan.Valid() && file.resume.Valid() && file.resume.chunkCount == file.plan.chunkCount
    && |file.target.data| == file.plan.fileSize
  }

  predicate Planned(file: IncomingFile, chunk: VerifiedChunk)
    requires file.plan.Valid()
  {
    chunk.spec.index < file.plan.chunkCount && chunk.spec == file.plan.At(chunk.spec.index)
  }

  /** The file after the first `n` bytes of a chunk's payload have been written. */
  predicate PartlyWritten(before: Bytes, after: Bytes, chunk: VerifiedChunk, n: nat)
    requires n <= |chunk.bytes|
  {
    after == Patch(before, chunk.spec.offset, chunk.bytes[..n])
  }

  lemma NothingYet(data: Bytes, chunk: VerifiedChunk)
    ensures PartlyWritten(data, data, chunk, 0)
  {
    assert chunk.bytes[..0] == [];
  }

  /** One chunk of a file with random access: a chunk already marked is only verified; any other is written at its
      offset, marked, recorded and taken off the counter. A failed write or record leaves what the earlier steps did. */
  method TakePositioned(hash: Bytes -> Bytes, file: IncomingFile, chunk: VerifiedChunk, rows: set<nat>, remaining: nat,
                        records: bool)
    returns (r: Result<(), ReceiveError>, rows': set<nat>, remaining': nat)
    requires Ready(file) && Planned(file, chunk)
    requires remaining + |file.resume.Contents()| >= file.plan.chunkCount
    modifies file.target, file.resume, file.resume.words
    ensures Ready(file)
    ensures chunk.spec.index in old(file.resume.Contents()) ==>
              && (r.Ok? <==> hash(chunk.bytes) == chunk.digest)
              && file.target.data == old(file.target.data) && file.resume.Contents() == old(file.resume.Contents())
              && rows' == rows && remaining' == remaining
    ensures chunk.spec.index !in old(file.resume.Contents()) && r.Ok? ==>
              && Sound(hash, chunk) && file.target.data == Patch(old(file.target.data), chunk.spec.offset, chunk.bytes)
              && file.resume.Contents() == old(file.resume.Contents()) + {chunk.spec.index}
              && rows' == rows + {chunk.spec.index} && remaining' == remaining - 1
    ensures file.target.healthy && records ==>
              (r.Ok? <==> if chunk.spec.index in old(file.resume.Contents()) then hash(chunk.bytes) == chunk.digest
                          else Sound(hash, chunk))
    ensures r.Err? ==> rows' == rows && remaining' == remaining
    ensures r.Err? && r.error.Rejected? ==> file.resume.Contents() == old(file.resume.Contents())
    ensures r.Err? && r.error.NotRecorded? ==>
              && Sound(hash, chunk) && file.target.data == Patch(old(file.target.data), chunk.spec.offset, chunk.bytes)
              && file.resume.Contents() == old(file.resume.Contents()) + {chunk.spec.index}
    ensures chunk.spec.index !in old(file.resume.Contents()) ==>
              exists n: nat | n <= |chunk.bytes| && n <= chunk.spec.length ::
                && PartlyWritten(old(file.target.data), file.target.data, chunk, n)
                && (file.resume.Contents() != old(file.resume.Contents()) ==> n == |chunk.bytes|)
    ensures r.Err? && r.error.Rejected? && !Sound(hash, chunk) ==> file.target.data == old(file.target.data)
    ensures remaining' + |file.resume.Contents()| >= file.plan.chunkCount
  {
    hide ChunkPlan.Valid, ChunkPlan.At, DivCeil, Patch, IndexSet, PaddingClear, Below;
    rows', remaining' := rows, remaining;
    NothingYet(file.target.data, chunk);
    if file.resume.Contains(chunk.spec.index) {
      if hash(chunk.bytes) != chunk.digest {
        return Err(Rejected(HashMismatch(chunk.spec.index))), rows', remaining';
      }
      return Ok(()), rows', remaining';
    }
    InsidePlan(file.plan, chunk.spec.index);
    PatchInsideKeepsLength(file.target.data, chunk);
    var written := file.target.WriteVerifiedChunk(hash, chunk);
    if written.Err? {
      ghost var n: nat :| n <= |chunk.bytes|
        && file.target.data == Patch(old(file.target.data), chunk.spec.offset, chunk.bytes[..n]);
      assert PartlyWritten(old(file.target.data), file.target.data, chunk, n);
      return Err(Rejected(written.error)), rows', remaining';
    }
    assert chunk.bytes[..|chunk.bytes|] == chunk.bytes;
    assert PartlyWritten(old(file.target.data), file.target.data, chunk, |chunk.bytes|);
    OneMoreFits(file.resume, chunk.spec.index);
    var marked := file.resume.MarkComplete(chunk.spec.index);
    var recorded: bool := *;
    if !recorded && !records {
      return Err(NotRecorded), rows', remaining';
    }
    rows', remaining' := rows + {chunk.spec.index}, remaining - 1;
    return Ok(()), rows', remaining';
  }

  lemma InsidePlan(plan: ChunkPlan, k: nat)
    requires plan.Valid() && k < plan.chunkCount
    ensures plan.At(k).End() <= plan.fileSize && plan.At(k).index == k
  {
    ChunksAbut(plan, k);
  }

  lemma PatchInsideKeepsLength(data: Bytes, chunk: VerifiedChunk)
    requires chunk.spec.End() <= |data|
    ensures forall n: nat | n <= |chunk.bytes| && n <= chunk.spec.length ::
              |Patch(data, chunk.spec.offset, chunk.bytes[..n])| == |data|
  {
  }

  /** A chunk outside the map is still part of what is missing. */
  lemma OneMoreFits(resume: ResumeMap, k: nat)
    requires resume.Valid() && k < resume.chunkCount && k !in resume.Contents()
    ensures |resume.Contents() + {k}| == |resume.Contents()| + 1 <= resume.chunkCount
  {
    SubsetSize(resume.Contents() + {k}, Below(resume.chunkCount));
  }

  // ----- any order, any repetition -----

  /** The chunks among `chunks` that a map holding `done` has not seen, as indices. */
  function NewIndices(done: set<nat>, chunks: seq<VerifiedChunk>): (r: set<nat>)
    ensures r !! done
    decreases |chunks|
  {
    if chunks == [] then {}
    else
      var k := chunks[|chunks| - 1].spec.index;
      NewIndices(done, chunks[..|chunks| - 1]) + if k in done then {} else {k}
  }

  /** The chunks in `done` are the source's. */
  ghost predicate HoldsSource(plan: ChunkPlan, data: Bytes, source: Bytes, done: set<nat>)
    requires plan.Valid()
  {
    && |data| == |source| == plan.fileSize
    && forall k | k in done && k < plan.chunkCount ::
         plan.At(k).End() <= |source| && Slice(data, plan.At(k)) == Slice(source, plan.At(k))
  }

  /** Writing part of a chunk touches no other chunk. */
  lemma OthersStay(plan: ChunkPlan, before: Bytes, after: Bytes, chunk: VerifiedChunk, n: nat, k: nat)
    requires plan.Valid() && |before| == plan.fileSize && k < plan.chunkCount
    requires chunk.spec.index < plan.chunkCount && chunk.spec == plan.At(chunk.spec.index) && k != chunk.spec.index
    requires n <= |chunk.bytes| && n <= chunk.spec.length && PartlyWritten(before, after, chunk, n)
    ensures plan.At(k).End() <= |before| == |after| && Slice(after, plan.At(k)) == Slice(before, plan.At(k))
  {
    hide ChunkPlan.Valid, ChunkPlan.At, Patch;
    ChunksAbut(plan, chunk.spec.index);
    ChunksAbut(plan, k);
    if k < chunk.spec.index {
      ChunksDisjoint(plan, k, chunk.spec.index);
    } else {
      ChunksDisjoint(plan, chunk.spec.index, k);
    }
    PatchElsewhere(before, chunk.spec.offset, chunk.bytes[..n], plan.At(k));
  }

  lemma PatchedSlice(before: Bytes, after: Bytes, chunk: VerifiedChunk)
    requires chunk.spec.End() <= |before| && |chunk.bytes| == chunk.spec.length
    requires PartlyWritten(before, after, chunk, |chunk.bytes|)
    ensures |after| == |before| && Slice(after, chunk.spec) == chunk.bytes
  {
    assert chunk.bytes[..|chunk.bytes|] == chunk.bytes;
  }

  /** What a chunk taken, refused or given up half-way leaves of the source bytes that were there. */
  lemma TakeHolds(plan: ChunkPlan, before: Bytes, after: Bytes, source: Bytes, done: set<nat>, chunk: VerifiedChunk,
                  n: nat)
    requires plan.Valid() && HoldsSource(plan, before, source, done)
    requires chunk.spec.index < plan.chunkCount && chunk.spec == plan.At(chunk.spec.index)
    requires n <= |chunk.bytes| && n <= chunk.spec.length && PartlyWritten(before, after, chunk, n)
    requires chunk.spec.index !in done
    ensures HoldsSource(plan, after, source, done)
    ensures n == |chunk.bytes| == chunk.spec.length && chunk.spec.End() <= |source|
              && chunk.bytes == Slice(source, chunk.spec)
            ==> HoldsSource(plan, after, source, done + {chunk.spec.index})
  {
    hide ChunkPlan.Valid, ChunkPlan.At, DivCeil, Patch, Slice, PartlyWritten;
    PartKeepsLength(plan, before, after, chunk, n);
    forall k | k in done && k < plan.chunkCount
      ensures plan.At(k).End() <= |source| && Slice(after, plan.At(k)) == Slice(source, plan.At(k))
    {
      OthersStay(plan, before, after, chunk, n, k);
    }
    if n == |chunk.bytes| == chunk.spec.length && chunk.spec.End() <= |source| {
      PatchedSlice(before, after, chunk);
    }
  }

  lemma PartKeepsLength(plan: ChunkPlan, before: Bytes, after: Bytes, chunk: VerifiedChunk, n: nat)
    requires plan.Valid() && |before| == plan.fileSize
    requires chunk.spec.index < plan.chunkCount && chunk.spec == plan.At(chunk.spec.index)
    requires n <= |chunk.bytes| && n <= chunk.spec.length && PartlyWritten(before, after, chunk, n)
    ensures |after| == |before|
  {
    hide ChunkPlan.Valid, ChunkPlan.At;
    ChunksAbut(plan, chunk.spec.index);
  }

  /** A chunk of the source, if it is sound. */
  predicate SourceIfSound(hash: Bytes -> Bytes, source: Bytes, chunk: VerifiedChunk) {
    Sound(hash, chunk) ==> chunk.spec.End() <= |source| && chunk.bytes == Slice(source, chunk.spec)
  }

  /** Taking one chunk, sound or not, keeps what is marked equal to the source, whatever fails on the way. */
  method TakeSource(hash: Bytes -> Bytes, file: IncomingFile, ghost source: Bytes, chunk: VerifiedChunk,
                    rows: set<nat>, remaining: nat, records: bool)
    returns (r: Result<(), ReceiveError>, rows': set<nat>, remaining': nat)
    requires Ready(file) && HoldsSource(file.plan, file.target.data, source, file.resume.Contents())
    requires Planned(file, chunk) && SourceIfSound(hash, source, chunk)
    requires remaining + |file.resume.Contents()| >= file.plan.chunkCount
    modifies file.target, file.resume, file.resume.words
    ensures Ready(file) && HoldsSource(file.plan, file.target.data, source, file.resume.Contents())
    ensures r.Ok? ==>
              var isNew := chunk.spec.index !in old(file.resume.Contents());
              && file.resume.Contents() == old(file.resume.Contents()) + {chunk.spec.index}
              && rows' == (if isNew then rows + {chunk.spec.index} else rows)
              && remaining' == (if isNew then remaining - 1 else remaining)
    ensures file.target.healthy && records && Sound(hash, chunk) ==> r.Ok?
    ensures remaining' + |file.resume.Contents()| >= file.plan.chunkCount
  {
    hide ChunkPlan.Valid, ChunkPlan.At, DivCeil, Patch, IndexSet, PaddingClear, Below, HoldsSource, PartlyWritten,
         Slice;
    ghost var before, done := file.target.data, file.resume.Contents();
    r, rows', remaining' := TakePositioned(hash, file, chunk, rows, remaining, records);
    if chunk.spec.index !in done {
      ghost var n: nat :| n <= |chunk.bytes| && n <= chunk.spec.length
        && PartlyWritten(before, file.target.data, chunk, n)
                          && (file.resume.Contents() != done ==> n == |chunk.bytes|);
      TakeHolds(file.plan, before, file.target.data, source, done, chunk, n);
    }
  }

  /** A full map makes the file the source. */
  lemma FullMapIsSource(file: IncomingFile, source: Bytes)
    requires Ready(file) && HoldsSource(file.plan, file.target.data, source, Below(file.plan.chunkCount))
    ensures file.target.data == source
  {
    hide ChunkPlan.Valid, ChunkPlan.At, DivCeil, IndexSet, PaddingClear, Slice;
    SlicesDetermineFile(file.plan, file.target.data, source);
  }

  /** One more chunk in the sums over all chunks taken. */
  lemma OneMoreCounted(done: set<nat>, chunks: seq<VerifiedChunk>, i: nat, contents: set<nat>, found: set<nat>,
                       rows: set<nat>)
    requires i < |chunks|
    requires contents == done + NewIndices(done, chunks[..i]) && rows == found + NewIndices(done, chunks[..i])
    ensures var k, after := chunks[i].spec.index, NewIndices(done, chunks[..i + 1]);
            && contents + {k} == done + after
            && (if k in contents then rows else rows + {k}) == found + after
            && |after| == |NewIndices(done, chunks[..i])| + if k in contents then 0 else 1
  {
    hide NewIndices;
    OneMoreIndex(done, chunks, i);
  }

  lemma OneMoreIndex(done: set<nat>, chunks: seq<VerifiedChunk>, i: nat)
    requires i < |chunks|
    ensures var k := chunks[i].spec.index;
            var before, after := NewIndices(done, chunks[..i]), NewIndices(done, chunks[..i + 1]);
            && done + after == done + before + {k}
            && after == (if k in done + before then before else before + {k})
            && |after| == |before| + (if k in done + before then 0 else 1)
  {
    assert chunks[..i + 1][..i] == chunks[..i];
  }

  /** Chunks of one file in any order and with any repetition: if those that verify are source chunks, then whatever
      fails, what is marked holds the source; when all are taken the counter has gone down once for each new chunk, and
      a full map makes the file the source. */
  method TakeAll(hash: Bytes -> Bytes, file: IncomingFile, ghost source: Bytes, chunks: seq<VerifiedChunk>,
                 rows: set<nat>, remaining: nat, records: bool)
    returns (r: Result<(), ReceiveError>, rows': set<nat>, remaining': nat)
    requires Ready(file) && HoldsSource(file.plan, file.target.data, source, file.resume.Contents())
    requires forall chunk | chunk in chunks :: Planned(file, chunk) && SourceIfSound(hash, source, chunk)
    requires remaining + |file.resume.Contents()| >= file.plan.chunkCount
    modifies file.target, file.resume, file.resume.words
    ensures Ready(file) && HoldsSource(file.plan, file.target.data, source, file.resume.Contents())
    ensures r.Ok? ==>
              var added := NewIndices(old(file.resume.Contents()), chunks);
              && file.resume.Contents() == old(file.resume.Contents()) + added
              && rows' == rows + added && remaining' == remaining - |added|
    ensures r.Ok? && file.resume.Contents() == Below(file.plan.chunkCount) ==> file.target.data == source
    ensures file.target.healthy && records && (forall chunk | chunk in chunks :: Sound(hash, chunk)) ==> r.Ok?
  {
    hide ChunkPlan.Valid, ChunkPlan.At, DivCeil, IndexSet, PaddingClear, Below, HoldsSource, NewIndices, SourceIfSound,
         Planned, Patch, Slice, ResumeMap.Contents;
    rows', remaining' := rows, remaining;
    ghost var done, added: set<nat> := file.resume.Contents(), {};
    NoIndices(done);
    var i := 0;
    while i < |chunks|
      invariant i <= |chunks| && Ready(file) && HoldsSource(file.plan, file.target.data, source, file.resume.Contents())
      invariant added == NewIndices(done, chunks[..i])
      invariant file.resume.Contents() == done + added && rows' == rows + added && remaining' == remaining - |added|
      invariant remaining' + |file.resume.Contents()| >= file.plan.chunkCount
    {
      OneMoreCounted(done, chunks, i, file.resume.Contents(), rows, rows');
      r, rows', remaining' := TakeSource(hash, file, source, chunks[i], rows', remaining', records);
      if r.Err? {
        return r, rows', remaining';
      }
      i := i + 1;
      added := NewIndices(done, chunks[..i]);
    }
    assert chunks[..i] == chunks;
    if file.resume.Contents() == Below(file.plan.chunkCount) {
      FullMapIsSource(file, source);
    }
    return Ok(()), rows', remaining';
  }

  lemma NoIndices(done: set<nat>)
    ensures NewIndices(done, []) == {}
  {
  }

  // ----- finalizing -----

  /** A file about to be finalized: what its part file holds, whether its map is full, and where it goes. */
  datatype Part = Part(finalPath: string, contents: Bytes, complete: bool)

  datatype FinalizeError = Incomplete | TargetAppeared | SyncFailed | RenameFailed | RowsNotCleared

  /** The directory after the first parts have been renamed into it. */
  function Moved(directory: map<string, Bytes>, parts: seq<Part>): map<string, Bytes>
    decreases |parts|
  {
    if parts == [] then directory
    else Moved(directory, parts[..|parts| - 1])[parts[|parts| - 1].finalPath := parts[|parts| - 1].contents]
  }

  /** Every part is complete and has a place of its own. */
  ghost predicate Movable(directory: map<string, Bytes>, parts: seq<Part>) {
    && (forall i | 0 <= i < |parts| :: parts[i].complete && parts[i].finalPath !in directory)
    && (forall i, j | 0 <= i < j < |parts| :: parts[i].finalPath != parts[j].finalPath)
  }

  lemma MovedNext(directory: map<string, Bytes>, parts: seq<Part>, n: nat)
    requires n < |parts|
    ensures Moved(directory, parts[..n + 1]) == Moved(directory, parts[..n])[parts[n].finalPath := parts[n].contents]
  {
    assert parts[..n + 1][..n] == parts[..n];
  }

  lemma NothingMoved(directory: map<string, Bytes>)
    ensures Moved(directory, []) == directory
  {
  }

  /** `finalize_incoming`: complete part files are renamed one by one, never over a file that is there; the recorded
      chunks are cleared only after the last rename, so an error leaves some parts renamed and every record in place. */
  method FinalizeIncoming(directory: map<string, Bytes>, parts: seq<Part>, works: bool)
    returns (r: Result<(), FinalizeError>, directory': map<string, Bytes>, renamed: nat, rowsCleared: bool)
    ensures renamed <= |parts| && directory' == Moved(directory, parts[..renamed])
    ensures forall i | 0 <= i < renamed ::
              parts[i].finalPath in directory' && directory'[parts[i].finalPath] == parts[i].contents
    ensures forall path | path in directory' ::
              path in directory || exists i | 0 <= i < renamed :: parts[i].finalPath == path
    ensures forall path | path in directory :: path in directory' && directory'[path] == directory[path]
    ensures forall i | 0 <= i < renamed :: parts[i].complete
    ensures rowsCleared <==> r.Ok?
    ensures r.Ok? ==> renamed == |parts|
    ensures r == Err(Incomplete) ==> renamed < |parts| && !parts[renamed].complete
    ensures r == Err(TargetAppeared) ==> renamed < |parts| && parts[renamed].finalPath in directory'
    ensures Movable(directory, parts) && r.Err? ==> !r.error.Incomplete? && !r.error.TargetAppeared?
    ensures works && Movable(directory, parts) ==> r.Ok?
  {
    hide Moved;
    NothingMoved(directory);
    directory', renamed, rowsCleared := directory, 0, false;
    while renamed < |parts|
      invariant renamed <= |parts| && directory' == Moved(directory, parts[..renamed])
      invariant forall i | 0 <= i < renamed ::
                  parts[i].finalPath in directory' && directory'[parts[i].finalPath] == parts[i].contents
      invariant forall path | path in directory' ::
                  path in directory || exists i | 0 <= i < renamed :: parts[i].finalPath == path
      invariant forall path | path in directory :: path in directory' && directory'[path] == directory[path]
      invariant forall i | 0 <= i < renamed :: parts[i].complete
    {
      var part := parts[renamed];
      if !part.complete {
        return Err(Incomplete), directory', renamed, false;
      }
      var synced: bool := *;
      if !synced && !works {
        return Err(SyncFailed), directory', renamed, false;
      }
      if part.finalPath in directory' {
        return Err(TargetAppeared), directory', renamed, false;
      }
      var moved: bool := *;
      if !moved && !works {
        return Err(RenameFailed), directory', renamed, false;
      }
      MovedNext(directory, parts, renamed);
      directory' := directory'[part.finalPath := part.contents];
      renamed := renamed + 1;
    }
    var cleared: bool := *;
    if !cleared && !works {
      return Err(RowsNotCleared), directory', renamed, false;
    }
    return Ok(()), directory', renamed, true;
  }
}
