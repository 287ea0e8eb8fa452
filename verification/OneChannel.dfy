/** A transfer over one channel, end to end: read in the order of the jobs, through the channel's byte stream, written
    in that order. This is how a transfer runs in which some file, on either side, is without random access; its other
    files are read or written at their offsets on the same channel. */
module OneChannel {
  import opened Wrappers
  import opened Chunks
  import opened ResumeMaps
  import opened Storage
  import opened Jobs
  import opened WorkQueue
  import opened Sequential
  import opened Preparation
  import opened Reception
  import opened Framing

  /** The files of one transfer in manifest order, what the receiver has of them, and the items each side reads or
      writes at an offset. */
  datatype Deal = Deal(transferId: string, items: seq<string>, plans: seq<ChunkPlan>, done: seq<set<nat>>,
                       readAtOffset: set<string>, writtenAtOffset: set<string>)
  {
    /** A target written in order starts from nothing. */
    predicate Valid() {
      && |items| == |plans| && ValidPlans(plans) && Fits(plans, done)
      && (forall f, g | 0 <= f < g < |items| :: items[f] != items[g])
      && (forall f | 0 <= f < |plans| :: plans[f].chunkSize == DEFAULT_CHUNK_SIZE)
      && (forall f | 0 <= f < |items| :: items[f] !in writtenAtOffset ==> done[f] == {})
    }
  }

  /** The jobs name files of the deal, and those of each file are its missing chunks, first to last. */
  ghost predicate InTurn(deal: Deal, jobs: seq<ChunkJob>)
    requires deal.Valid()
  {
    && (forall n | 0 <= n < |jobs| :: jobs[n].entryIndex < |deal.plans|)
    && (forall f | 0 <= f < |deal.plans| :: SpecsOf(jobs, f) == MissingFrom(deal.plans[f], deal.done[f], 0))
  }

  lemma AllInTurn(deal: Deal)
    requires deal.Valid()
    ensures var jobs := MissingJobs(deal.plans, deal.done, 0);
            InTurn(deal, jobs) && |jobs| == Remaining(deal.plans, deal.done, 0)
  {
    hide ChunkPlan.Valid, ChunkPlan.At, MissingFrom, MissingJobs, SpecsOf, Remaining, StrictlyOrdered;
    JobsExactly(deal.plans, deal.done, 0);
    JobSums(deal.plans, deal.done, 0);
    forall f | 0 <= f < |deal.plans|
      ensures SpecsOf(MissingJobs(deal.plans, deal.done, 0), f) == MissingFrom(deal.plans[f], deal.done[f], 0)
    {
      SpecsOfMissing(deal.plans, deal.done, 0, f);
    }
  }

  /** What a single channel has sent when it leaves its loop, whatever it prefetched. */
  lemma ExitedInTurn(deal: Deal, moves: seq<Move>)
    requires deal.Valid() && Run(Start(MissingJobs(deal.plans, deal.done, 0), 1), moves).Some?
    ensures var end := Run(Start(MissingJobs(deal.plans, deal.done, 0), 1), moves).value;
            && |end.channels| == 1
            && (end.channels[0].phase.Exited? ==>
                  InTurn(deal, end.channels[0].sent) && |end.channels[0].sent| == Remaining(deal.plans, deal.done, 0))
  {
    hide ChunkPlan.Valid, MissingJobs, Run, Taken, Total, Remaining, InTurn;
    var jobs := MissingJobs(deal.plans, deal.done, 0);
    AllInTurn(deal);
    SingleChannelInOrder(jobs, moves);
    RunConserves(jobs, 1, moves);
    var end := Run(Start(jobs, 1), moves).value;
    SentFirst(end.channels[0], end.queue);
    if end.channels[0].phase.Exited? {
      assert InHand(end.channels[0]) + InSlot(end.channels[0]) + end.queue == [];
      assert end.channels[0].sent == jobs;
    }
  }

  // ----- the next job -----

  /** The chunks of file `f` among the first `n` jobs. */
  function SoFar(jobs: seq<ChunkJob>, n: nat, f: nat): seq<ChunkSpec>
    requires n <= |jobs|
  {
    SpecsOf(jobs[..n], f)
  }

  lemma SoFarNext(jobs: seq<ChunkJob>, n: nat, f: nat)
    requires n < |jobs|
    ensures SoFar(jobs, n + 1, f) == SoFar(jobs, n, f) + if jobs[n].entryIndex == f then [jobs[n].spec] else []
    ensures SoFar(jobs, n + 1, f) <= SpecsOf(jobs, f)
    ensures |SpecsOf(jobs, f)| <= |SoFar(jobs, n, f)| + |jobs| - n
  {
    assert jobs[..n + 1] == jobs[..n] + [jobs[n]];
    SpecsOfConcat(jobs[..n], [jobs[n]], f);
    assert [jobs[n]][1..] == [];
    assert jobs == jobs[..n + 1] + jobs[n + 1..] == jobs[..n] + jobs[n..];
    SpecsOfConcat(jobs[..n + 1], jobs[n + 1..], f);
    SpecsOfConcat(jobs[..n], jobs[n..], f);
    SpecsOfLength(jobs[n..], f);
  }

  lemma {:induction false} SpecsOfLength(jobs: seq<ChunkJob>, f: nat)
    ensures |SpecsOf(jobs, f)| <= |jobs|
  {
    if jobs != [] {
      SpecsOfLength(jobs[1..], f);
    }
  }

  /** The chunk at position `k` among those a file misses. */
  lemma MissingAt(plan: ChunkPlan, done: set<nat>, k: nat)
    requires plan.Valid() && k < |MissingFrom(plan, done, 0)|
    ensures var all := MissingFrom(plan, done, 0);
            && all[k].index < plan.chunkCount && all[k] == plan.At(all[k].index) && all[k].index !in done
            && (forall i | 0 <= i < k :: all[i].index < all[k].index) && (done == {} ==> all[k].index == k)
  {
    hide ChunkPlan.Valid, ChunkPlan.At, MissingFrom;
    MissingExactly(plan, done, 0);
    if done == {} {
      AllMissingInOrder(plan, 0);
      IndexOfAt(plan, k);
    }
  }

  /** The next job is a planned chunk of its file that the receiver has not; in a file without resumed chunks it is the
      one right behind those that came before. */
  lemma NextInTurn(deal: Deal, jobs: seq<ChunkJob>, n: nat)
    requires deal.Valid() && InTurn(deal, jobs) && n < |jobs|
    ensures var e, spec := jobs[n].entryIndex, jobs[n].spec;
            && e < |deal.plans| && spec.index < deal.plans[e].chunkCount && spec == deal.plans[e].At(spec.index)
            && spec.index !in deal.done[e] && (forall s | s in SoFar(jobs, n, e) :: s.index < spec.index)
            && (deal.done[e] == {} ==> spec.index == |SoFar(jobs, n, e)|)
  {
    hide ChunkPlan.Valid, ChunkPlan.At, SpecsOf, SoFar, MissingFrom;
    var e := jobs[n].entryIndex;
    var k := |SoFar(jobs, n, e)|;
    SoFarNext(jobs, n, e);
    MissingAt(deal.plans[e], deal.done[e], k);
    assert forall i | 0 <= i < k :: SoFar(jobs, n, e)[i] == MissingFrom(deal.plans[e], deal.done[e], 0)[i];
  }

  // ----- the sender -----

  /** A chunk as the source holds it. */
  function SourceChunk(hash: Bytes -> Bytes, source: Bytes, spec: ChunkSpec): VerifiedChunk
    requires spec.End() <= |source|
  {
    VerifiedChunk(spec, hash(Slice(source, spec)), Slice(source, spec))
  }

  /** A source read in order stands behind what has been read of it. */
  ghost predicate Stands(source: DiskFile, data: Bytes, atOffset: bool, start: nat, read: seq<ChunkSpec>)
    reads source
  {
    source.data == data && (!atOffset ==> source.cursor == start + SumLengths(read))
  }

  ghost predicate ReadUpTo(deal: Deal, sources: seq<DiskFile>, data: seq<Bytes>, starts: seq<nat>,
                           jobs: seq<ChunkJob>, n: nat)
    requires deal.Valid() && |data| == |starts| == |sources| == |deal.plans| && n <= |jobs|
    reads sources
  {
    forall f | 0 <= f < |sources| ::
      Stands(sources[f], data[f], deal.items[f] in deal.readAtOffset, starts[f], SoFar(jobs, n, f))
  }

  /** Where job `n` is read. */
  function Position(deal: Deal, starts: seq<nat>, jobs: seq<ChunkJob>, n: nat): nat
    requires deal.Valid() && |starts| == |deal.plans| && n < |jobs| && jobs[n].entryIndex < |starts|
  {
    var e := jobs[n].entryIndex;
    if deal.items[e] in deal.readAtOffset then jobs[n].spec.offset else starts[e] + SumLengths(SoFar(jobs, n, e))
  }

  /** What is read for the first jobs, each under its file's item. */
  ghost predicate ReadFrom(hash: Bytes -> Bytes, deal: Deal, data: seq<Bytes>, starts: seq<nat>, jobs: seq<ChunkJob>,
                           read: seq<Delivery>)
    requires deal.Valid() && |data| == |starts| == |deal.plans|
  {
    && |read| <= |jobs|
    && forall n | 0 <= n < |read| :: ReadFor(hash, deal, data, starts, jobs, n, read[n])
  }

  ghost predicate ReadFor(hash: Bytes -> Bytes, deal: Deal, data: seq<Bytes>, starts: seq<nat>, jobs: seq<ChunkJob>,
                          n: nat, d: Delivery)
    requires deal.Valid() && |data| == |starts| == |deal.plans| && n < |jobs|
  {
    var e := jobs[n].entryIndex;
    && e < |data| && d.itemId == deal.items[e]
    && ReadAt(hash, data[e], Position(deal, starts, jobs, n), jobs[n].spec, d.chunk)
  }

  /** One job: read at its offset, or at the cursor. */
  method ReadJob(hash: Bytes -> Bytes, source: DiskFile, atOffset: bool, spec: ChunkSpec)
    returns (r: Result<VerifiedChunk, StorageError>)
    requires spec.length > 0
    modifies source`cursor
    ensures r.Ok? ==> ReadAt(hash, source.data, if atOffset then spec.offset else old(source.cursor), spec, r.value)
    ensures r.Ok? && !atOffset ==> source.cursor == old(source.cursor) + spec.length
    ensures source.healthy && (if atOffset then spec.offset else old(source.cursor)) + spec.length <= |source.data| ==>
              r.Ok?
  {
    if atOffset {
      r := source.ReadChunk(hash, spec);
    } else {
      r := source.ReadSequentialChunk(hash, spec);
    }
  }

  lemma SumNext(jobs: seq<ChunkJob>, n: nat, f: nat)
    requires n < |jobs|
    ensures SumLengths(SoFar(jobs, n + 1, f))
            == SumLengths(SoFar(jobs, n, f)) + if jobs[n].entryIndex == f then jobs[n].spec.length else 0
  {
    SoFarNext(jobs, n, f);
    SumAppend(SoFar(jobs, n, f), jobs[n].spec);
    assert SoFar(jobs, n, f) + [] == SoFar(jobs, n, f);
  }

  lemma NextNotEmpty(deal: Deal, jobs: seq<ChunkJob>, n: nat)
    requires deal.Valid() && InTurn(deal, jobs) && n < |jobs|
    ensures jobs[n].entryIndex < |deal.plans| && jobs[n].spec.length > 0
  {
    hide ChunkPlan.Valid, ChunkPlan.At, SoFar, SpecsOf, MissingFrom, Fits;
    NextInTurn(deal, jobs, n);
    ChunksAbut(deal.plans[jobs[n].entryIndex], jobs[n].spec.index);
  }

  /** The sending loop's reads, up to the first that fails: each job at its offset or wherever its source stands. */
  method ReadAll(hash: Bytes -> Bytes, deal: Deal, sources: seq<DiskFile>, ghost data: seq<Bytes>,
                 ghost starts: seq<nat>, jobs: seq<ChunkJob>)
    returns (r: Result<(), StorageError>, read: seq<Delivery>)
    requires deal.Valid() && InTurn(deal, jobs) && |data| == |starts| == |sources| == |deal.plans|
    requires forall f, g | 0 <= f < g < |sources| :: sources[f] != sources[g]
    requires ReadUpTo(deal, sources, data, starts, jobs, 0)
    modifies sources
    ensures forall f | 0 <= f < |sources| :: sources[f].data == data[f]
    ensures ReadFrom(hash, deal, data, starts, jobs, read) && (r.Ok? ==> |read| == |jobs|)
    ensures (forall f | 0 <= f < |sources| :: sources[f].healthy) && AllStandRight(deal, data, starts) ==> r.Ok?
  {
    hide ChunkPlan.Valid, ChunkPlan.At, SoFar, MissingFrom, SpecsOf, SumLengths, ReadAt, Fits, InTurn;
    read := [];
    while |read| < |jobs|
      invariant |read| <= |jobs| && ReadUpTo(deal, sources, data, starts, jobs, |read|)
      invariant ReadFrom(hash, deal, data, starts, jobs, read)
    {
      ghost var n := |read|;
      var e, spec := jobs[|read|].entryIndex, jobs[|read|].spec;
      NextNotEmpty(deal, jobs, n);
      if AllStandRight(deal, data, starts) {
        ReadsInRange(deal, data, starts, jobs, n);
      }
      assert Stands(sources[e], data[e], deal.items[e] in deal.readAtOffset, starts[e], SoFar(jobs, n, e));
      var chunk := ReadJob(hash, sources[e], deal.items[e] in deal.readAtOffset, spec);
      if chunk.Err? {
        return Err(chunk.error), read;
      }
      var next := Delivery(deal.items[e], chunk.value);
      assert ReadFor(hash, deal, data, starts, jobs, n, next);
      read := read + [next];
      forall f | 0 <= f < |sources|
        ensures Stands(sources[f], data[f], deal.items[f] in deal.readAtOffset, starts[f], SoFar(jobs, n + 1, f))
      {
        SumNext(jobs, n, f);
      }
    }
    return Ok(()), read;
  }

  /** Where every source stands right, no read leaves its file. */
  lemma ReadsInRange(deal: Deal, data: seq<Bytes>, starts: seq<nat>, jobs: seq<ChunkJob>, n: nat)
    requires deal.Valid() && InTurn(deal, jobs) && |data| == |starts| == |deal.plans| && n < |jobs|
    requires AllStandRight(deal, data, starts)
    ensures var e := jobs[n].entryIndex;
            e < |data| && Position(deal, starts, jobs, n) + jobs[n].spec.length <= |data[e]|
  {
    hide ChunkPlan.Valid, ChunkPlan.At, SoFar, SpecsOf, MissingFrom, SumLengths, StandsRight;
    var e := jobs[n].entryIndex;
    NextInTurn(deal, jobs, n);
    SoFarNext(jobs, n, e);
    ChunksAbut(deal.plans[e], jobs[n].spec.index);
    if deal.items[e] !in deal.readAtOffset {
      RightPrefix(deal.plans[e], deal.done[e], starts[e], data[e], SoFar(jobs, n, e), jobs[n].spec);
    }
  }

  /** What is sent for a list of jobs: the source's chunks, each under its file's item. */
  ghost predicate FromSources(hash: Bytes -> Bytes, deal: Deal, data: seq<Bytes>, jobs: seq<ChunkJob>,
                              sent: seq<Delivery>)
    requires deal.Valid() && |data| == |deal.plans|
  {
    && |sent| <= |jobs|
    && forall n | 0 <= n < |sent| :: SentFor(hash, deal, data, jobs[n], sent[n])
  }

  ghost predicate SentFor(hash: Bytes -> Bytes, deal: Deal, data: seq<Bytes>, job: ChunkJob, d: Delivery)
    requires deal.Valid() && |data| == |deal.plans|
  {
    && job.entryIndex < |data| && job.spec.End() <= |data[job.entryIndex]|
    && d == Delivery(deal.items[job.entryIndex], SourceChunk(hash, data[job.entryIndex], job.spec))
  }

  lemma RightPrefix(plan: ChunkPlan, done: set<nat>, start: nat, source: Bytes, before: seq<ChunkSpec>, spec: ChunkSpec)
    requires plan.Valid() && StandsRight(plan, done, start) && |source| == plan.fileSize
    requires before + [spec] <= MissingFrom(plan, done, 0)
    ensures RightAt(source, start + SumLengths(before), spec)
  {
    hide ChunkPlan.Valid, ChunkPlan.At, MissingFrom, SumLengths, StandsRight, RightAt;
    ReadsRightExactly(plan, done, start);
    var missing, k := MissingFrom(plan, done, 0), |before|;
    assert ReadsRight(source, start, missing);
    assert missing[..k] == (before + [spec])[..k] == before && missing[k] == (before + [spec])[k] == spec;
  }

  /** If every source read in order stands right, what is read is what positioned reads would have yielded. */
  lemma ReadIsSource(hash: Bytes -> Bytes, deal: Deal, data: seq<Bytes>, starts: seq<nat>, jobs: seq<ChunkJob>,
                     n: nat, d: Delivery)
    requires deal.Valid() && InTurn(deal, jobs) && |data| == |starts| == |deal.plans| && n < |jobs|
    requires ReadFor(hash, deal, data, starts, jobs, n, d)
    requires var e := jobs[n].entryIndex;
             && |data[e]| == deal.plans[e].fileSize
             && (deal.items[e] !in deal.readAtOffset ==> StandsRight(deal.plans[e], deal.done[e], starts[e]))
    ensures SentFor(hash, deal, data, jobs[n], d)
  {
    hide ChunkPlan.Valid, ChunkPlan.At, SoFar, SpecsOf, MissingFrom, SumLengths, StandsRight;
    var e := jobs[n].entryIndex;
    NextInTurn(deal, jobs, n);
    SoFarNext(jobs, n, e);
    ChunksAbut(deal.plans[e], jobs[n].spec.index);
    if deal.items[e] !in deal.readAtOffset {
      RightPrefix(deal.plans[e], deal.done[e], starts[e], data[e], SoFar(jobs, n, e), jobs[n].spec);
    }
  }

  // ----- the receiver -----

  /** A target holds the source's bytes of its marked chunks; one written in order holds the source up to its cursor and
      nothing else. */
  ghost predicate Holds(file: IncomingFile, atOffset: bool, source: Bytes)
    reads file, file.resume, file.resume.words, file.target
  {
    && file.plan.Valid() && file.resume.Valid() && file.resume.chunkCount == file.plan.chunkCount
    && |source| == file.plan.fileSize
    && if atOffset then HoldsSource(file.plan, file.target.data, source, file.resume.Contents())
       else Appended(file, source, |file.resume.Contents()|)
  }

  ghost predicate Appended(file: IncomingFile, source: Bytes, count: nat)
    requires file.plan.Valid() && file.resume.Valid()
    reads file, file.resume, file.resume.words, file.target
  {
    && count <= file.plan.chunkCount && file.resume.Contents() == Below(count)
    && EndOf(file.plan, count) <= |source| && file.target.cursor == EndOf(file.plan, count)
    && file.target.data == source[..EndOf(file.plan, count)]
  }

  /** What is marked is the source's, whatever else the target holds. */
  ghost predicate MarkedHold(file: IncomingFile, source: Bytes)
    reads file, file.resume, file.resume.words, file.target
  {
    && file.plan.Valid() && file.resume.Valid() && file.resume.chunkCount == file.plan.chunkCount
    && forall k | k in file.resume.Contents() && k < file.plan.chunkCount ::
        HeldChunk(file.plan, file.target.data, source, k)
  }

  predicate HeldChunk(plan: ChunkPlan, data: Bytes, source: Bytes, k: nat)
    requires plan.Valid() && k < plan.chunkCount
  {
    && plan.At(k).End() <= |data| && plan.At(k).End() <= |source|
    && Slice(data, plan.At(k)) == Slice(source, plan.At(k))
  }

  lemma {:induction false} EndsAscend(plan: ChunkPlan, k: nat, n: nat)
    requires plan.Valid() && k < n <= plan.chunkCount
    ensures plan.At(k).End() <= EndOf(plan, n)
    decreases n
  {
    hide ChunkPlan.Valid, ChunkPlan.At, EndOf;
    if k + 1 < n {
      EndsAscend(plan, k, n - 1);
      EndsMeet(plan, n - 1);
    } else {
      EndsMeet(plan, k);
    }
  }

  /** A common prefix holds the chunks that end in it. */
  lemma PrefixHolds(plan: ChunkPlan, data: Bytes, source: Bytes, n: nat, k: nat)
    requires plan.Valid() && k < n <= plan.chunkCount && EndOf(plan, n) <= |data| && EndOf(plan, n) <= |source|
    requires data[..EndOf(plan, n)] == source[..EndOf(plan, n)]
    ensures HeldChunk(plan, data, source, k)
  {
    hide ChunkPlan.Valid, ChunkPlan.At, EndOf;
    EndsAscend(plan, k, n);
    var spec, end := plan.At(k), EndOf(plan, n);
    assert Slice(data, spec) == data[..end][spec.offset..spec.End()];
    assert Slice(source, spec) == source[..end][spec.offset..spec.End()];
  }

  lemma HoldingIsMarked(file: IncomingFile, atOffset: bool, source: Bytes)
    requires Holds(file, atOffset, source)
    ensures MarkedHold(file, source)
  {
    hide ChunkPlan.Valid, ChunkPlan.At, DivCeil, IndexSet, PaddingClear, Slice, EndOf, HeldChunk;
    forall k | k in file.resume.Contents() && k < file.plan.chunkCount
      ensures HeldChunk(file.plan, file.target.data, source, k)
    {
      if atOffset {
        HeldInPlace(file.plan, file.target.data, source, file.resume.Contents(), k);
      } else {
        PrefixHolds(file.plan, file.target.data, source, |file.resume.Contents()|, k);
      }
    }
  }

  lemma HeldInPlace(plan: ChunkPlan, data: Bytes, source: Bytes, done: set<nat>, k: nat)
    requires plan.Valid() && HoldsSource(plan, data, source, done) && k in done && k < plan.chunkCount
    ensures HeldChunk(plan, data, source, k)
  {
  }

  /** A write at the end that fails part-way leaves what was there. */
  lemma AppendedPart(file: IncomingFile, source: Bytes, count: nat, before: Bytes, piece: Bytes)
    requires file.plan.Valid() && file.resume.Valid() && file.resume.chunkCount == file.plan.chunkCount
    requires count <= file.plan.chunkCount && file.resume.Contents() == Below(count)
    requires EndOf(file.plan, count) <= |source| && before == source[..EndOf(file.plan, count)]
    requires file.target.data == Patch(before, |before|, piece)
    ensures MarkedHold(file, source)
  {
    hide ChunkPlan.Valid, ChunkPlan.At, DivCeil, IndexSet, PaddingClear, EndOf, HeldChunk;
    assert file.target.data[..|before|] == before;
    forall k | k in file.resume.Contents() && k < file.plan.chunkCount
      ensures HeldChunk(file.plan, file.target.data, source, k)
    {
      PrefixHolds(file.plan, file.target.data, source, count, k);
    }
  }

  /** One chunk under the lock of its file: written where its kind of file takes it, marked, recorded, counted down. */
  method Take(hash: Bytes -> Bytes, file: IncomingFile, atOffset: bool, ghost source: Bytes, chunk: VerifiedChunk,
              rows: set<nat>, remaining: nat, records: bool)
    returns (r: Result<(), ReceiveError>, rows': set<nat>, remaining': nat)
    requires Holds(file, atOffset, source) && Planned(file, chunk)
    requires chunk.spec.End() <= |source| && chunk == SourceChunk(hash, source, chunk.spec)
    requires chunk.spec.index !in file.resume.Contents()
    requires !atOffset ==> chunk.spec.index == |file.resume.Contents()|
    requires remaining + |file.resume.Contents()| >= file.plan.chunkCount
    modifies file.target, file.resume, file.resume.words
    ensures MarkedHold(file, source) && (r.Ok? ==> Holds(file, atOffset, source))
    ensures r.Ok? ==> file.resume.Contents() == old(file.resume.Contents()) + {chunk.spec.index}
    ensures r.Ok? ==> rows' == rows + {chunk.spec.index} && remaining' == remaining - 1
    ensures file.target.healthy && records ==> r.Ok?
  {
    assert atOffset ==> Reception.Ready(file);
    hide ChunkPlan.Valid, ChunkPlan.At, DivCeil, Patch, IndexSet, PaddingClear, Below, HoldsSource, EndOf, Bit,
         MarkedHold;
    OneMoreFits(file.resume, chunk.spec.index);
    if atOffset {
      r, rows', remaining' := TakeSource(hash, file, source, chunk, rows, remaining, records);
      HoldingIsMarked(file, atOffset, source);
      return;
    }
    rows', remaining' := rows, remaining;
    ghost var k, before := |file.resume.Contents()|, file.target.data;
    EndsMeet(file.plan, k);
    AppendSlice(source, chunk.spec, chunk.bytes);
    var taken := TakeChunk(hash, file.target, file.resume, file.plan, chunk, chunk.spec.index);
    if taken.Err? {
      ghost var n: nat :| n <= |chunk.bytes| && file.target.data == Patch(before, |before|, chunk.bytes[..n]);
      AppendedPart(file, source, k, before, chunk.bytes[..n]);
      return Err(Rejected(taken.error)), rows', remaining';
    }
    HoldingIsMarked(file, atOffset, source);
    var recorded: bool := *;
    if !recorded && !records {
      return Err(NotRecorded), rows', remaining';
    }
    rows', remaining' := rows + {chunk.spec.index}, remaining - 1;
    return Ok(()), rows', remaining';
  }

  /** A full map makes the target the source, however it was written. */
  lemma FullHoldsSource(file: IncomingFile, atOffset: bool, source: Bytes)
    requires Holds(file, atOffset, source) && file.resume.Contents() == Below(file.plan.chunkCount)
    ensures file.target.data == source
  {
    hide ChunkPlan.Valid, ChunkPlan.At, DivCeil, IndexSet, PaddingClear, Slice;
    if atOffset {
      FullMapIsSource(file, source);
    }
  }

  function Indices(specs: seq<ChunkSpec>): set<nat> {
    set s | s in specs :: s.index
  }

  /** No two files of a context share a target or a map. */
  ghost predicate Separate(files: map<string, IncomingFile>)
    reads files.Values
  {
    forall a, b | a in files && b in files && a != b ::
      && files[a] != files[b] && files[a].target != files[b].target
      && files[a].resume != files[b].resume && files[a].resume.words != files[b].resume.words
  }

  /** A file that has taken `specs` on top of what it had. */
  ghost predicate HasTaken(file: IncomingFile, atOffset: bool, source: Bytes, had: set<nat>, specs: seq<ChunkSpec>)
    reads file, file.resume, file.resume.words, file.target
  {
    && Holds(file, atOffset, source)
    && file.resume.Contents() == had + Indices(specs) && |file.resume.Contents()| == |had| + |specs|
  }

  ghost predicate TakenUpTo(deal: Deal, files: map<string, IncomingFile>, data: seq<Bytes>, jobs: seq<ChunkJob>, n: nat)
    requires deal.Valid() && |data| == |deal.plans| && n <= |jobs| && forall id | id in deal.items :: id in files
    reads files.Values, Footprint(files)
  {
    forall f | 0 <= f < |data| ::
      var id := deal.items[f];
      && files[id].plan == deal.plans[f]
      && HasTaken(files[id], id in deal.writtenAtOffset, data[f], deal.done[f], SoFar(jobs, n, f))
  }

  /** The rows of every file's first chunks, on top of those found. */
  ghost predicate RecordedUpTo(deal: Deal, found: map<string, set<nat>>, rows: map<string, set<nat>>,
                               jobs: seq<ChunkJob>, n: nat)
    requires deal.Valid() && n <= |jobs| && forall id | id in deal.items :: id in found && id in rows
  {
    forall f | 0 <= f < |deal.items| :: rows[deal.items[f]] == found[deal.items[f]] + Indices(SoFar(jobs, n, f))
  }

  lemma NothingRecorded(deal: Deal, found: map<string, set<nat>>, jobs: seq<ChunkJob>)
    requires deal.Valid() && forall id | id in deal.items :: id in found
    ensures RecordedUpTo(deal, found, found, jobs, 0)
  {
    hide ChunkPlan.Valid, Fits;
    assert forall f | 0 <= f < |deal.items| :: SoFar(jobs, 0, f) == [];
  }

  lemma OneMoreRecorded(deal: Deal, found: map<string, set<nat>>, rows: map<string, set<nat>>, jobs: seq<ChunkJob>,
                        n: nat)
    requires deal.Valid() && n < |jobs| && jobs[n].entryIndex < |deal.items|
    requires forall id | id in deal.items :: id in found && id in rows
    requires RecordedUpTo(deal, found, rows, jobs, n)
    ensures var id := deal.items[jobs[n].entryIndex];
            RecordedUpTo(deal, found, rows[id := rows[id] + {jobs[n].spec.index}], jobs, n + 1)
  {
    hide ChunkPlan.Valid, Fits, SoFar;
    var id := deal.items[jobs[n].entryIndex];
    var rows' := rows[id := rows[id] + {jobs[n].spec.index}];
    forall f | 0 <= f < |deal.items|
      ensures rows'[deal.items[f]] == found[deal.items[f]] + Indices(SoFar(jobs, n + 1, f))
    {
      SoFarNext(jobs, n, f);
      OneMoreIndices(SoFar(jobs, n, f), jobs[n].spec);
      assert f != jobs[n].entryIndex ==> deal.items[f] != id;
    }
  }

  lemma OneMoreIndices(specs: seq<ChunkSpec>, spec: ChunkSpec)
    ensures Indices(specs + [spec]) == Indices(specs) + {spec.index}
    ensures specs + [] == specs
  {
    assert forall s | s in specs + [spec] :: s in specs || s == spec;
    assert spec in specs + [spec];
    assert forall s | s in specs :: s in specs + [spec];
  }

  /** The next chunk of a file is one it has not taken, the next in order where nothing was resumed, and still
      counted. */
  lemma NotTakenYet(deal: Deal, jobs: seq<ChunkJob>, n: nat, contents: set<nat>)
    requires deal.Valid() && InTurn(deal, jobs) && n < |jobs|
    requires var e := jobs[n].entryIndex;
             && contents == deal.done[e] + Indices(SoFar(jobs, n, e))
             && |contents| == |deal.done[e]| + |SoFar(jobs, n, e)|
    ensures var e, k := jobs[n].entryIndex, jobs[n].spec.index;
            && k !in contents && (deal.done[e] == {} ==> k == |contents|)
            && |jobs| - n + |contents| >= deal.plans[e].chunkCount
  {
    hide ChunkPlan.Valid, ChunkPlan.At, SpecsOf, SoFar, MissingFrom, Below;
    var e := jobs[n].entryIndex;
    NextInTurn(deal, jobs, n);
    SoFarNext(jobs, n, e);
    MissingCount(deal.plans[e], deal.done[e]);
  }

  lemma OneMoreTaken(contents: set<nat>, had: set<nat>, specs: seq<ChunkSpec>, spec: ChunkSpec)
    requires contents == had + Indices(specs) && |contents| == |had| + |specs| && spec.index !in contents
    ensures contents + {spec.index} == had + Indices(specs + [spec])
    ensures |contents + {spec.index}| == |had| + |specs + [spec]|
  {
    OneMoreIndices(specs, spec);
  }

  /** Taking the next chunk a channel delivers. */
  method TakeNext(hash: Bytes -> Bytes, deal: Deal, file: IncomingFile, ghost data: seq<Bytes>,
                  ghost jobs: seq<ChunkJob>, ghost n: nat, d: Delivery, rows: set<nat>, remaining: nat, records: bool)
    returns (r: Result<(), ReceiveError>, rows': set<nat>, remaining': nat)
    requires deal.Valid() && InTurn(deal, jobs) && |data| == |deal.plans| && n < |jobs|
    requires SentFor(hash, deal, data, jobs[n], d) && file.plan == deal.plans[jobs[n].entryIndex]
    requires var e := jobs[n].entryIndex;
             HasTaken(file, d.itemId in deal.writtenAtOffset, data[e], deal.done[e], SoFar(jobs, n, e))
    requires remaining == |jobs| - n
    modifies file.target, file.resume, file.resume.words
    ensures MarkedHold(file, data[jobs[n].entryIndex])
    ensures r.Ok? ==>
              var e := jobs[n].entryIndex;
              && HasTaken(file, d.itemId in deal.writtenAtOffset, data[e], deal.done[e], SoFar(jobs, n + 1, e))
              && rows' == rows + {jobs[n].spec.index} && remaining' == remaining - 1
    ensures file.target.healthy && records ==> r.Ok?
  {
    hide ChunkPlan.Valid, ChunkPlan.At, SoFar, EndOf, MissingFrom, SpecsOf, Below, Slice, DivCeil, IndexSet,
         PaddingClear, Indices, Appended, HoldsSource, MarkedHold;
    NextInTurn(deal, jobs, n);
    NotTakenYet(deal, jobs, n, file.resume.Contents());
    ghost var e := jobs[n].entryIndex;
    SoFarNext(jobs, n, e);
    OneMoreTaken(file.resume.Contents(), deal.done[e], SoFar(jobs, n, e), d.chunk.spec);
    r, rows', remaining' :=
        Take(hash, file, d.itemId in deal.writtenAtOffset, data[e], d.chunk, rows, remaining, records);
  }

  predicate AllHealthy(files: map<string, IncomingFile>)
    reads files.Values
  {
    forall id | id in files :: files[id].target.healthy
  }

  /** The next delivery goes to its file and leaves every other one alone. */
  method TakeNth(hash: Bytes -> Bytes, deal: Deal, files: map<string, IncomingFile>, ghost data: seq<Bytes>,
                 ghost jobs: seq<ChunkJob>, ghost n: nat, d: Delivery, rows: set<nat>, remaining: nat, records: bool)
    returns (r: Result<(), ReceiveError>, rows': set<nat>, remaining': nat)
    requires deal.Valid() && InTurn(deal, jobs) && |data| == |deal.plans| && Separate(files) && n < |jobs|
    requires (forall id | id in deal.items :: id in files) && TakenUpTo(deal, files, data, jobs, n)
    requires SentFor(hash, deal, data, jobs[n], d) && remaining == |jobs| - n
    modifies Footprint(files)
    ensures forall f | 0 <= f < |data| :: MarkedHold(files[deal.items[f]], data[f])
    ensures r.Ok? ==> TakenUpTo(deal, files, data, jobs, n + 1)
    ensures r.Ok? ==> rows' == rows + {jobs[n].spec.index} && remaining' == remaining - 1
    ensures records && AllHealthy(files) ==> r.Ok?
  {
    hide ChunkPlan.Valid, ChunkPlan.At, SoFar, EndOf, MissingFrom, SpecsOf, Below, Slice, SourceChunk, DivCeil,
         HasTaken, MarkedHold, Indices;
    ghost var e := jobs[n].entryIndex;
    NextInTurn(deal, jobs, n);
    assert HasTaken(files[d.itemId], d.itemId in deal.writtenAtOffset, data[e], deal.done[e], SoFar(jobs, n, e));
    assert forall f | 0 <= f < |data| && f != e :: deal.items[f] != d.itemId;
    label Before:
    r, rows', remaining' := TakeNext(hash, deal, files[d.itemId], data, jobs, n, d, rows, remaining, records);
    forall f | 0 <= f < |data|
      ensures var id := deal.items[f];
              && MarkedHold(files[id], data[f])
              && (r.Ok? ==>
                    HasTaken(files[id], id in deal.writtenAtOffset, data[f], deal.done[f], SoFar(jobs, n + 1, f)))
    {
      SoFarNext(jobs, n, f);
      if f != e {
        var id := deal.items[f];
        assert old@Before(HasTaken(files[id], id in deal.writtenAtOffset, data[f], deal.done[f], SoFar(jobs, n, f)));
        TakingIsMarked(files[id], id in deal.writtenAtOffset, data[f], deal.done[f], SoFar(jobs, n, f));
        assert SoFar(jobs, n + 1, f) == SoFar(jobs, n, f);
      }
    }
  }

  lemma AllMarked(deal: Deal, files: map<string, IncomingFile>, data: seq<Bytes>, jobs: seq<ChunkJob>, n: nat)
    requires deal.Valid() && |data| == |deal.plans| && n <= |jobs| && forall id | id in deal.items :: id in files
    requires TakenUpTo(deal, files, data, jobs, n)
    ensures forall f | 0 <= f < |data| :: MarkedHold(files[deal.items[f]], data[f])
  {
    hide ChunkPlan.Valid, SoFar, HasTaken, MarkedHold;
    forall f | 0 <= f < |data|
      ensures MarkedHold(files[deal.items[f]], data[f])
    {
      var id := deal.items[f];
      TakingIsMarked(files[id], id in deal.writtenAtOffset, data[f], deal.done[f], SoFar(jobs, n, f));
    }
  }

  lemma DeliveredFor(hash: Bytes -> Bytes, deal: Deal, data: seq<Bytes>, jobs: seq<ChunkJob>, sent: seq<Delivery>,
                     n: nat)
    requires deal.Valid() && |data| == |deal.plans| && FromSources(hash, deal, data, jobs, sent) && n < |sent|
    ensures n < |jobs| && SentFor(hash, deal, data, jobs[n], sent[n])
    ensures jobs[n].entryIndex < |deal.items| && sent[n].itemId == deal.items[jobs[n].entryIndex]
  {
    hide ChunkPlan.Valid, Fits, SourceChunk;
    assert SentFor(hash, deal, data, jobs[n], sent[n]);
  }

  /** The receiving loop over what the channel delivers: each file ends with the chunks sent for it, and the counter has
      gone down once for each; after an error, what is marked is still the source's. */
  method ReceiveAll(hash: Bytes -> Bytes, deal: Deal, files: map<string, IncomingFile>, ghost data: seq<Bytes>,
                    ghost jobs: seq<ChunkJob>, delivered: seq<Delivery>, found: map<string, set<nat>>, counter: nat,
                    records: bool)
    returns (r: Result<(), ReceiveError>, rows: map<string, set<nat>>, remaining: nat)
    requires deal.Valid() && InTurn(deal, jobs) && |data| == |deal.plans| && Separate(files)
    requires |delivered| <= |jobs| && FromSources(hash, deal, data, jobs, delivered)
    requires (forall id | id in deal.items :: id in files && id in found) && TakenUpTo(deal, files, data, jobs, 0)
    requires counter == |jobs|
    modifies Footprint(files)
    ensures forall id | id in deal.items :: id in rows
    ensures forall f | 0 <= f < |data| :: MarkedHold(files[deal.items[f]], data[f])
    ensures r.Ok? ==> remaining == |jobs| - |delivered| && TakenUpTo(deal, files, data, jobs, |delivered|)
    ensures r.Ok? ==> RecordedUpTo(deal, found, rows, jobs, |delivered|)
    ensures records && AllHealthy(files) ==> r.Ok?
  {
    hide ChunkPlan.Valid, ChunkPlan.At, DivCeil, Slice, Fits, SoFar, InTurn, TakenUpTo, SourceChunk, MarkedHold,
         RecordedUpTo, Indices, HoldsSource, SentFor, FromSources, Separate, ValidPlans, Below, MissingFrom, SpecsOf;
    NothingRecorded(deal, found, jobs);
    rows, remaining := found, counter;
    var n := 0;
    while n < |delivered|
      invariant n <= |delivered| && remaining == |jobs| - n
      invariant forall id | id in deal.items :: id in rows
      invariant TakenUpTo(deal, files, data, jobs, n) && RecordedUpTo(deal, found, rows, jobs, n)
    {
      var d := delivered[n];
      DeliveredFor(hash, deal, data, jobs, delivered, n);
      var taken;
      r, taken, remaining := TakeNth(hash, deal, files, data, jobs, n, d, rows[d.itemId], remaining, records);
      if r.Err? {
        return r, rows, remaining;
      }
      OneMoreRecorded(deal, found, rows, jobs, n);
      rows := rows[d.itemId := taken];
      n := n + 1;
    }
    AllMarked(deal, files, data, jobs, n);
    return Ok(()), rows, remaining;
  }

  lemma TakingIsMarked(file: IncomingFile, atOffset: bool, source: Bytes, had: set<nat>, specs: seq<ChunkSpec>)
    requires HasTaken(file, atOffset, source, had, specs)
    ensures MarkedHold(file, source)
  {
    hide ChunkPlan.Valid, Holds, MarkedHold, Indices;
    HoldingIsMarked(file, atOffset, source);
  }

  // ----- end to end -----

  datatype TransferError = SourceFailed(error: StorageError) | TargetFailed(reason: ReceiveError)

  /** Some run of a single channel over the deal's jobs has ended with the channel out of its loop, having sent
      `sent`. */
  ghost predicate SentByOneChannel(deal: Deal, moves: seq<Move>, sent: seq<ChunkJob>)
    requires deal.Valid()
  {
    var end := Run(Start(MissingJobs(deal.plans, deal.done, 0), 1), moves);
    end.Some? && |end.value.channels| == 1 && end.value.channels[0].phase.Exited? && end.value.channels[0].sent == sent
  }

  /** A target as it is opened: with the recorded chunks in place, or empty. */
  ghost predicate Opened(file: IncomingFile, atOffset: bool, plan: ChunkPlan, source: Bytes, done: set<nat>)
    reads file, file.resume, file.resume.words, file.target
  {
    && file.plan == plan && plan.Valid() && file.resume.Valid() && file.resume.chunkCount == plan.chunkCount
    && |source| == plan.fileSize && file.resume.Contents() == done
    && if atOffset then HoldsSource(plan, file.target.data, source, done)
       else done == {} && file.target.cursor == 0 && file.target.data == []
  }

  lemma OpenedHasTaken(file: IncomingFile, atOffset: bool, plan: ChunkPlan, source: Bytes, done: set<nat>)
    requires Opened(file, atOffset, plan, source, done)
    ensures HasTaken(file, atOffset, source, done, [])
  {
    hide ChunkPlan.Valid, ChunkPlan.At, HoldsSource, DivCeil, IndexSet, PaddingClear;
    StartsAtZero(plan);
    assert Indices([]) == {};
  }

  /** Every header of a planned chunk fits a frame. */
  ghost predicate HeadersFit(receiver: Framing.Receiver, codec: Codec<ChunkHeader>)
    requires ValidReceiver(receiver)
  {
    forall d: Delivery ::
      d.itemId in receiver.plans && d.chunk.spec.index < receiver.plans[d.itemId].chunkCount
      && d.chunk.spec == receiver.plans[d.itemId].At(d.chunk.spec.index) && |d.chunk.digest| == HASH_BYTES ==>
        |codec.encode(HeaderOf(receiver, d))| <= MAX_CHUNK_HEADER_BYTES
  }

  /** What the receiving side knows of a deal. */
  function ReceiverOf(deal: Deal): (receiver: Framing.Receiver)
    requires deal.Valid()
    ensures ValidReceiver(receiver)
  {
    Framing.Receiver(deal.transferId, map f | 0 <= f < |deal.items| :: deal.items[f] := deal.plans[f])
  }

  lemma PlanOfItem(deal: Deal, f: nat)
    requires deal.Valid() && f < |deal.items|
    ensures deal.items[f] in ReceiverOf(deal).plans && ReceiverOf(deal).plans[deal.items[f]] == deal.plans[f]
  {
    hide ChunkPlan.Valid, Fits;
  }

  lemma ReadIsSendable(hash: Bytes -> Bytes, codec: Codec<ChunkHeader>, deal: Deal, data: seq<Bytes>,
                       job: ChunkJob, d: Delivery)
    requires deal.Valid() && |data| == |deal.plans| && SentFor(hash, deal, data, job, d)
    requires job.spec.index < deal.plans[job.entryIndex].chunkCount
    requires job.spec == deal.plans[job.entryIndex].At(job.spec.index)
    requires HeadersFit(ReceiverOf(deal), codec) && forall b :: |hash(b)| == HASH_BYTES
    ensures Sendable(ReceiverOf(deal), codec, d)
  {
    hide ChunkPlan.Valid, ChunkPlan.At, Fits, ReceiverOf;
    PlanOfItem(deal, job.entryIndex);
  }

  lemma AllSendable(hash: Bytes -> Bytes, codec: Codec<ChunkHeader>, deal: Deal, data: seq<Bytes>,
                    jobs: seq<ChunkJob>, sent: seq<Delivery>)
    requires deal.Valid() && InTurn(deal, jobs) && |data| == |deal.plans| && FromSources(hash, deal, data, jobs, sent)
    requires HeadersFit(ReceiverOf(deal), codec) && forall b :: |hash(b)| == HASH_BYTES
    ensures forall d | d in sent :: Sendable(ReceiverOf(deal), codec, d)
  {
    hide ChunkPlan.Valid, ChunkPlan.At, MissingFrom, SpecsOf, SoFar, ReceiverOf, HeadersFit, Sendable, SentFor, Fits;
    forall n | 0 <= n < |sent|
      ensures Sendable(ReceiverOf(deal), codec, sent[n])
    {
      NextInTurn(deal, jobs, n);
      ReadIsSendable(hash, codec, deal, data, jobs[n], sent[n]);
    }
  }

  /** All chunks taken: the map is full, every chunk is recorded or was done before, and the target is the source. */
  lemma AllTaken(deal: Deal, jobs: seq<ChunkJob>, f: nat, file: IncomingFile, atOffset: bool, source: Bytes)
    requires deal.Valid() && InTurn(deal, jobs) && f < |deal.plans| && file.plan == deal.plans[f]
    requires HasTaken(file, atOffset, source, deal.done[f], SoFar(jobs, |jobs|, f))
    ensures file.target.data == source
              && deal.done[f] + Indices(SoFar(jobs, |jobs|, f)) == Below(deal.plans[f].chunkCount)
    ensures file.resume.Valid() && file.resume.Contents() == Below(deal.plans[f].chunkCount)
  {
    hide ChunkPlan.Valid, ChunkPlan.At, MissingFrom, SpecsOf, Below, HoldsSource, Appended, IndexSet, PaddingClear,
         DivCeil, Indices;
    assert jobs[..|jobs|] == jobs;
    MissingCount(deal.plans[f], deal.done[f]);
    assert file.resume.IsComplete();
    FullHoldsSource(file, atOffset, source);
  }

  lemma TakenAndRecorded(deal: Deal, files: map<string, IncomingFile>, data: seq<Bytes>, found: map<string, set<nat>>,
                         rows: map<string, set<nat>>, jobs: seq<ChunkJob>, f: nat)
    requires deal.Valid() && InTurn(deal, jobs) && |data| == |deal.plans| && f < |data|
    requires forall id | id in deal.items :: id in files && id in found && id in rows
    requires found[deal.items[f]] >= deal.done[f]
    requires TakenUpTo(deal, files, data, jobs, |jobs|) && RecordedUpTo(deal, found, rows, jobs, |jobs|)
    ensures var id := deal.items[f];
            && files[id].target.data == data[f] && rows[id] == found[id] + Below(deal.plans[f].chunkCount)
            && files[id].resume.Valid() && files[id].resume.Contents() == Below(deal.plans[f].chunkCount)
  {
    hide ChunkPlan.Valid, Fits, HasTaken, SoFar, Indices, Below, InTurn;
    var id := deal.items[f];
    AllTaken(deal, jobs, f, files[id], id in deal.writtenAtOffset, data[f]);
  }

  lemma NothingRead(deal: Deal, sources: seq<DiskFile>, data: seq<Bytes>, starts: seq<nat>, jobs: seq<ChunkJob>)
    requires deal.Valid() && |data| == |starts| == |sources| == |deal.plans|
    requires forall f | 0 <= f < |sources| :: sources[f].data == data[f] && sources[f].cursor == starts[f]
    ensures ReadUpTo(deal, sources, data, starts, jobs, 0)
  {
    hide ChunkPlan.Valid, ChunkPlan.At, Fits;
  }

  lemma AllFromSources(hash: Bytes -> Bytes, deal: Deal, data: seq<Bytes>, starts: seq<nat>, jobs: seq<ChunkJob>,
                       read: seq<Delivery>)
    requires deal.Valid() && InTurn(deal, jobs) && |data| == |starts| == |deal.plans|
    requires ReadFrom(hash, deal, data, starts, jobs, read) && AllStandRight(deal, data, starts)
    ensures FromSources(hash, deal, data, jobs, read)
  {
    hide ChunkPlan.Valid, ChunkPlan.At, SoFar, SpecsOf, MissingFrom, StandsRight, ReadFor, SentFor, Fits;
    forall n | 0 <= n < |read|
      ensures SentFor(hash, deal, data, jobs[n], read[n])
    {
      assert ReadFor(hash, deal, data, starts, jobs, n, read[n]);
      assert jobs[n].entryIndex < |deal.plans|;
      ReadIsSource(hash, deal, data, starts, jobs, n, read[n]);
    }
  }

  /** Every source has its planned size, and one read in order stands where reading its missing chunks comes out
      right. */
  ghost predicate AllStandRight(deal: Deal, data: seq<Bytes>, starts: seq<nat>)
    requires deal.Valid() && |data| == |starts| == |deal.plans|
  {
    forall f | 0 <= f < |data| ::
      && |data[f]| == deal.plans[f].fileSize
      && (deal.items[f] !in deal.readAtOffset ==> StandsRight(deal.plans[f], deal.done[f], starts[f]))
  }

  lemma NothingTaken(deal: Deal, files: map<string, IncomingFile>, data: seq<Bytes>, jobs: seq<ChunkJob>)
    requires deal.Valid() && |data| == |deal.plans| && forall id | id in deal.items :: id in files
    requires forall f | 0 <= f < |data| ::
               var id := deal.items[f];
               Opened(files[id], id in deal.writtenAtOffset, deal.plans[f], data[f], deal.done[f])
    ensures TakenUpTo(deal, files, data, jobs, 0)
    ensures forall f | 0 <= f < |data| :: MarkedHold(files[deal.items[f]], data[f])
  {
    hide ChunkPlan.Valid, ChunkPlan.At, HasTaken, MarkedHold;
    forall f | 0 <= f < |data|
      ensures var id := deal.items[f];
              && files[id].plan == deal.plans[f]
              && HasTaken(files[id], id in deal.writtenAtOffset, data[f], deal.done[f], SoFar(jobs, 0, f))
              && MarkedHold(files[id], data[f])
    {
      var id := deal.items[f];
      assert SoFar(jobs, 0, f) == [];
      OpenedHasTaken(files[id], id in deal.writtenAtOffset, deal.plans[f], data[f], deal.done[f]);
      TakingIsMarked(files[id], id in deal.writtenAtOffset, data[f], deal.done[f], []);
    }
  }

  method OverStream(receiver: Framing.Receiver, codec: Codec<ChunkHeader>, sent: seq<Delivery>, pipe: Pipe)
    returns (delivered: seq<Delivery>)
    requires ValidReceiver(receiver) && Inverse(codec) && pipe.bytes == []
    requires forall d | d in sent :: Sendable(receiver, codec, d)
    modifies pipe
    ensures delivered == sent
  {
    hide Sendable, StreamOf, Receive, ChunkBytes, NextChunk, ValidReceiver, Inverse;
    SendLoop(receiver, codec, sent, pipe);
    StreamRoundTrip(receiver, codec, sent);
    assert pipe.bytes == StreamOf(receiver, codec, sent);
    var end;
    delivered, end := ReceiveLoop(receiver, codec, pipe);
  }

  lemma FewerThanJobs(hash: Bytes -> Bytes, deal: Deal, data: seq<Bytes>, starts: seq<nat>, jobs: seq<ChunkJob>,
                      read: seq<Delivery>)
    requires deal.Valid() && |data| == |starts| == |deal.plans| && ReadFrom(hash, deal, data, starts, jobs, read)
    ensures |read| <= |jobs|
  {
    hide ReadFor;
  }

  /** What is read on one side of the channel is what is delivered on the other. */
  method Carry(hash: Bytes -> Bytes, codec: Codec<ChunkHeader>, deal: Deal, sources: seq<DiskFile>,
               ghost data: seq<Bytes>, ghost starts: seq<nat>, jobs: seq<ChunkJob>, pipe: Pipe)
    returns (r: Result<(), StorageError>, delivered: seq<Delivery>)
    requires deal.Valid() && InTurn(deal, jobs) && |data| == |starts| == |sources| == |deal.plans|
    requires forall f, g | 0 <= f < g < |sources| :: sources[f] != sources[g]
    requires ReadUpTo(deal, sources, data, starts, jobs, 0) && AllStandRight(deal, data, starts)
    requires Inverse(codec) && HeadersFit(ReceiverOf(deal), codec) && (forall b :: |hash(b)| == HASH_BYTES)
    requires pipe.bytes == []
    modifies sources, pipe
    ensures forall f | 0 <= f < |sources| :: sources[f].data == data[f]
    ensures FromSources(hash, deal, data, jobs, delivered) && |delivered| <= |jobs| && (r.Ok? ==> |delivered| == |jobs|)
    ensures (forall f | 0 <= f < |sources| :: sources[f].healthy) ==> r.Ok?
  {
    hide ChunkPlan.Valid, ChunkPlan.At, SoFar, EndOf, MissingFrom, SpecsOf, Fits, InTurn, FromSources, HeadersFit,
         ReceiverOf, Sendable, ReadUpTo, ReadFrom, AllStandRight, ValidReceiver, Inverse;
    var read;
    r, read := ReadAll(hash, deal, sources, data, starts, jobs);
    FewerThanJobs(hash, deal, data, starts, jobs, read);
    AllFromSources(hash, deal, data, starts, jobs, read);
    AllSendable(hash, codec, deal, data, jobs, read);
    delivered := OverStream(ReceiverOf(deal), codec, read, pipe);
  }

  /** End to end, whatever way each file is read and written, and in whatever way the channel prefetched: whether a
      transfer over one channel meets an error or not, what is marked is the source's; if it meets none, every target is
      its source, fully marked, with the missing chunks recorded and the counter at zero. */
  method TransferInTurn(hash: Bytes -> Bytes, codec: Codec<ChunkHeader>, deal: Deal, sources: seq<DiskFile>,
                        files: map<string, IncomingFile>, found: map<string, set<nat>>,
                        counter: nat, ghost moves: seq<Move>, sent: seq<ChunkJob>, pipe: Pipe, records: bool)
    returns (r: Result<(), TransferError>, rows: map<string, set<nat>>, remaining: nat)
    requires deal.Valid() && SentByOneChannel(deal, moves, sent) && |sources| == |deal.plans|
    requires (forall f, g | 0 <= f < g < |sources| :: sources[f] != sources[g])
             && (forall f | 0 <= f < |sources| :: |sources[f].data| == deal.plans[f].fileSize)
             && (forall f | 0 <= f < |sources| && deal.items[f] !in deal.readAtOffset ::
                   StandsRight(deal.plans[f], deal.done[f], sources[f].cursor))
    requires Separate(files) && (forall f | 0 <= f < |sources| :: sources[f] !in Footprint(files))
    requires forall id | id in deal.items :: id in files && id in found
    requires forall f | 0 <= f < |sources| ::
               var id := deal.items[f];
               && found[id] >= deal.done[f]
               && Opened(files[id], id in deal.writtenAtOffset, deal.plans[f], sources[f].data, deal.done[f])
    requires Inverse(codec) && HeadersFit(ReceiverOf(deal), codec) && (forall b :: |hash(b)| == HASH_BYTES)
    requires counter == Remaining(deal.plans, deal.done, 0) && pipe.bytes == []
    modifies sources, Footprint(files), pipe
    ensures forall id | id in deal.items :: id in rows
    ensures forall f | 0 <= f < |sources| :: sources[f].data == old(sources[f].data)
    ensures forall f | 0 <= f < |sources| :: MarkedHold(files[deal.items[f]], sources[f].data)
    ensures (forall f | 0 <= f < |sources| :: sources[f].healthy) && AllHealthy(files) && records ==> r.Ok?
    ensures r.Ok? ==> remaining == 0 && forall f | 0 <= f < |sources| ::
              var id := deal.items[f];
              && files[id].target.data == sources[f].data
              && rows[id] == found[id] + Below(deal.plans[f].chunkCount)
              && files[id].resume.Valid() && files[id].resume.Contents() == Below(deal.plans[f].chunkCount)
  {
    hide ChunkPlan.Valid, ChunkPlan.At, SoFar, EndOf, MissingFrom, MissingJobs, SpecsOf, Below, Slice, SourceChunk,
         DivCeil, HasTaken, Opened, Holds, IndexSet, PaddingClear, Run, InTurn, HeadersFit, ReceiverOf, Fits, ReadUpTo,
         FromSources, StandsRight, MarkedHold, RecordedUpTo, TakenUpTo, Indices;
    rows, remaining := found, counter;
    ghost var data := seq(|sources|, f requires 0 <= f < |sources| reads sources => sources[f].data);
    ghost var starts := seq(|sources|, f requires 0 <= f < |sources| reads sources => sources[f].cursor);
    ExitedInTurn(deal, moves);
    NothingRead(deal, sources, data, starts, sent);
    var carried, delivered := Carry(hash, codec, deal, sources, data, starts, sent, pipe);
    NothingTaken(deal, files, data, sent);
    var taken;
    taken, rows, remaining := ReceiveAll(hash, deal, files, data, sent, delivered, found, counter, records);
    if taken.Err? {
      return Err(TargetFailed(taken.error)), rows, remaining;
    }
    if carried.Err? {
      return Err(SourceFailed(carried.error)), rows, remaining;
    }
    forall f | 0 <= f < |sources|
      ensures var id := deal.items[f];
              && files[id].target.data == data[f]
              && rows[id] == found[id] + Below(deal.plans[f].chunkCount)
              && files[id].resume.Valid() && files[id].resume.Contents() == Below(deal.plans[f].chunkCount)
    {
      var id := deal.items[f];
      TakenAndRecorded(deal, files, data, found, rows, sent, f);
    }
    return Ok(()), rows, remaining;
  }
}
