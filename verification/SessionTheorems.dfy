/** What the session protocol guarantees, over every run: any interleaving of channels, handlers and control loop, any
    number of interrupted, failed or killed sessions. */
module SessionTheorems {
  import opened Wrappers
  import opened Chunks
  import opened Storage
  import opened Jobs
  import opened WorkQueue
  import opened Session
  import opened SessionSafety
  import opened SessionProgress

  ghost predicate Reaches(c: Config, junk: seq<Bytes>, steps: seq<Step>, s: State) {
    ValidConfig(c) && |junk| == |c.sources| && After(c, junk, steps) == Some(s)
  }

  lemma Reached(c: Config, junk: seq<Bytes>, steps: seq<Step>, s: State)
    requires Reaches(c, junk, steps, s)
    ensures ValidPlans(Plans(c)) && ShapeOk(c, s) && Inv(c, s) && CleanInv(c, s)
  {
    hide Inv, CleanInv, After, Plans, ValidPlans;
    assert ValidPlans(Plans(c));
    RunKeepsClean(c, junk, steps);
  }

  // ----- end to end -----

  /** A part file holding every chunk of the source is the source. */
  lemma AllChunksMakeTheFile(c: Config, f: nat, part: Bytes)
    requires ValidPlans(Plans(c)) && f < |c.sources| && |part| == |c.sources[f]|
    requires forall k: nat | IsChunk(c, f, k) :: ChunkOnDisk(c, part, f, k)
    ensures part == c.sources[f]
  {
    hide ChunkPlan.At, ChunkPlan.Valid, DivCeil;
    var plan := Plans(c)[f];
    forall p: nat | p < |part|
      ensures part[p] == c.sources[f][p]
    {
      EveryByteHasOneChunk(plan, p);
      assert ChunkOnDisk(c, part, f, Owner(plan, p));
    }
  }

  lemma CompleteFile(c: Config, s: State, f: nat)
    requires ValidConfig(c) && Inv(c, s) && f < |c.sources| && Complete(c, s, f)
    ensures s.disk[f] == if f in s.lost then Zeros(|c.sources[f]|) else c.sources[f]
  {
    hide ChunkPlan.At, ChunkPlan.Valid, PlanFor, ChunkOnDisk, HandlerOk, SumsOk, PhaseOk, TrafficOk;
    assert FileOk(c, s, f);
    if f !in s.lost {
      AllChunksMakeTheFile(c, f, s.disk[f]);
    }
  }

  lemma AllDoneMeansComplete(c: Config, s: State, f: nat)
    requires ValidConfig(c) && Inv(c, s) && f < |c.sources| && AllDone(Plans(c), s.subtracted)
    ensures Complete(c, s, f)
  {
    hide ChunkPlan.At, ChunkPlan.Valid, PlanFor, ChunkOnDisk, HandlerOk, SumsOk, PhaseOk, TrafficOk;
    assert FileOk(c, s, f) && s.subtracted[f] == Below(Plans(c)[f].chunkCount);
  }

  /** If the sender says completed, the receiver has completed and renamed every file, and a file is the sender's
      source, byte for byte, exactly unless a session was opened over its recorded chunks after its part file had been
      renamed away. */
  lemma CompletedMeansDelivered(c: Config, junk: seq<Bytes>, steps: seq<Step>, s: State)
    requires Reaches(c, junk, steps, s) && s.sender.SenderCompleted?
    ensures s.receiver.Completed? && s.renamed == Below(|c.sources|)
    ensures |s.disk| == |c.sources|
    ensures forall f | 0 <= f < |c.sources| ::
              s.disk[f] == if f in s.lost then Zeros(|c.sources[f]|) else c.sources[f]
    ensures forall f | 0 <= f < |c.sources| ::
              s.disk[f] == c.sources[f] <==> f !in s.lost || c.sources[f] == Zeros(|c.sources[f]|)
  {
    Reached(c, junk, steps, s);
    hide FileOk, HandlerOk, SumsOk, TrafficOk, CleanInv, Reaches, Plans, AllDone;
    forall f | 0 <= f < |c.sources|
      ensures s.disk[f] == if f in s.lost then Zeros(|c.sources[f]|) else c.sources[f]
    {
      AllDoneMeansComplete(c, s, f);
      CompleteFile(c, s, f);
    }
  }

  /** The steps of a run at which a new session opens, with the state before. */
  ghost predicate OpensFrom(c: Config, junk: seq<Bytes>, steps: seq<Step>, i: nat, before: State)
    requires ValidPlans(Plans(c)) && |junk| == |c.sources|
  {
    i < |steps| && steps[i].NewSession? && After(c, junk, steps[..i]) == Some(before)
  }

  /** File `f` was renamed, the recorded chunks were not yet cleared, and step `i` opened a session over that. */
  ghost predicate ReopenedHalfFinalized(c: Config, junk: seq<Bytes>, steps: seq<Step>, i: nat, f: nat)
    requires ValidPlans(Plans(c)) && |junk| == |c.sources|
  {
    exists before :: OpensFrom(c, junk, steps, i, before) && f in before.renamed && !before.rowsCleared
  }

  ghost predicate OpenedAfterClearing(c: Config, junk: seq<Bytes>, steps: seq<Step>, i: nat)
    requires ValidPlans(Plans(c)) && |junk| == |c.sources|
  {
    exists before :: OpensFrom(c, junk, steps, i, before) && before.rowsCleared
  }

  /** The one family of runs that spoils a file, by the guards of its steps. */
  ghost predicate Spoiled(c: Config, junk: seq<Bytes>, steps: seq<Step>, f: nat)
    requires ValidPlans(Plans(c)) && |junk| == |c.sources|
  {
    exists i | 0 <= i < |steps| ::
      ReopenedHalfFinalized(c, junk, steps, i, f)
      && forall j | i < j < |steps| :: !OpenedAfterClearing(c, junk, steps, j)
  }

  lemma LongerRun(c: Config, junk: seq<Bytes>, steps: seq<Step>, i: nat, f: nat)
    requires ValidPlans(Plans(c)) && |junk| == |c.sources| && i + 1 < |steps|
    ensures ReopenedHalfFinalized(c, junk, steps, i, f) <==> ReopenedHalfFinalized(c, junk, steps[..|steps| - 1], i, f)
    ensures OpenedAfterClearing(c, junk, steps, i) <==> OpenedAfterClearing(c, junk, steps[..|steps| - 1], i)
  {
    var init := steps[..|steps| - 1];
    assert steps[..i] == init[..i] && steps[i] == init[i];
    hide After;
    assert forall before :: OpensFrom(c, junk, steps, i, before) <==> OpensFrom(c, junk, init, i, before);
  }

  predicate BranchingStep(step: Step) {
    step.Send? || step.Inspect? || step.Verify? || step.LockAndMark? || step.Break?
  }

  lemma BranchingStepLost(c: Config, s: State, step: Step)
    requires ValidPlans(Plans(c)) && ShapeOk(c, s) && Enabled(c, s, step) && BranchingStep(step)
    ensures Apply(c, s, step).lost == s.lost
  {
    hide Plans, ValidPlans, Enabled, Do, AddProgress, TotalBytes, IsChunk, PacketFor, ChunkPlan.Chunk, VerifyChunk,
         Mark, HoldsLock, DoNewSession, DoWritePiece, DoRecordRow, DoCountBytes, DoSubtract, DoClearRows;
  }

  lemma OtherStepLost(c: Config, s: State, step: Step)
    requires ValidPlans(Plans(c)) && ShapeOk(c, s) && Enabled(c, s, step) && !BranchingStep(step) && !step.NewSession?
    ensures Apply(c, s, step).lost == s.lost
  {
    hide Plans, ValidPlans, Enabled, TotalBytes, AddProgress, DoSend, DoInspect, DoVerify, DoLockAndMark, DoBreak,
         DoNewSession, Patch, Mark, WrappingDecrement, NoneActive, Notified;
  }

  /** Only opening a session changes `lost`. */
  lemma StepLost(c: Config, s: State, step: Step)
    requires ValidPlans(Plans(c)) && ShapeOk(c, s) && Enabled(c, s, step)
    ensures Apply(c, s, step).lost
            == if !step.NewSession? then s.lost else if s.rowsCleared then {} else s.lost + s.renamed
  {
    if BranchingStep(step) {
      BranchingStepLost(c, s, step);
    } else if step.NewSession? {
      hide Plans, ValidPlans, Enabled, MissingJobs, TotalBytes, Remaining, DoneBytes, JobBytes, Known, OpenedDisk,
           Start, ChannelCount, AddProgress;
    } else {
      OtherStepLost(c, s, step);
    }
  }

  lemma LastStep(c: Config, junk: seq<Bytes>, steps: seq<Step>)
    requires ValidPlans(Plans(c)) && |junk| == |c.sources| && After(c, junk, steps).Some? && steps != []
    ensures var init, last := steps[..|steps| - 1], steps[|steps| - 1];
            && After(c, junk, init).Some?
            && var before := After(c, junk, init).value;
               ShapeOk(c, before) && Enabled(c, before, last) && After(c, junk, steps).value == Apply(c, before, last)
  {
    hide Apply, Enabled, Plans, ValidPlans;
  }

  lemma LostStep(c: Config, junk: seq<Bytes>, steps: seq<Step>, f: nat)
    requires ValidPlans(Plans(c)) && |junk| == |c.sources| && After(c, junk, steps).Some? && steps != []
    ensures var init, n := steps[..|steps| - 1], |steps| - 1;
            && After(c, junk, init).Some?
            && (f in After(c, junk, steps).value.lost <==>
                  ReopenedHalfFinalized(c, junk, steps, n, f)
                  || (f in After(c, junk, init).value.lost && !OpenedAfterClearing(c, junk, steps, n)))
  {
    LastStep(c, junk, steps);
    var init, n := steps[..|steps| - 1], |steps| - 1;
    var before := After(c, junk, init).value;
    StepLost(c, before, steps[n]);
    hide After, Apply, Enabled, Plans, ValidPlans;
    if steps[n].NewSession? {
      assert OpensFrom(c, junk, steps, n, before);
    }
  }

  lemma {:induction false} LostExactly(c: Config, junk: seq<Bytes>, steps: seq<Step>, f: nat)
    requires ValidPlans(Plans(c)) && |junk| == |c.sources| && After(c, junk, steps).Some?
    ensures f in After(c, junk, steps).value.lost <==> Spoiled(c, junk, steps, f)
    decreases |steps|
  {
    hide Plans, ValidPlans, Apply, Enabled;
    if steps == [] {
      assert After(c, junk, steps).value == Initial(c, junk);
    } else {
      hide After, ReopenedHalfFinalized, OpenedAfterClearing;
      LostStep(c, junk, steps, f);
      var init := steps[..|steps| - 1];
      LostExactly(c, junk, init, f);
      forall i: nat | i + 1 < |steps|
        ensures ReopenedHalfFinalized(c, junk, steps, i, f) <==> ReopenedHalfFinalized(c, junk, init, i, f)
        ensures OpenedAfterClearing(c, junk, steps, i) <==> OpenedAfterClearing(c, junk, init, i)
      {
        LongerRun(c, junk, steps, i, f);
      }
      SpoiledStep(c, junk, steps, f);
    }
  }

  lemma SpoiledStep(c: Config, junk: seq<Bytes>, steps: seq<Step>, f: nat)
    requires ValidPlans(Plans(c)) && |junk| == |c.sources| && steps != []
    requires forall i: nat | i + 1 < |steps| ::
               ReopenedHalfFinalized(c, junk, steps, i, f) <==>
                   ReopenedHalfFinalized(c, junk, steps[..|steps| - 1], i, f)
    requires forall i: nat | i + 1 < |steps| ::
               OpenedAfterClearing(c, junk, steps, i) <==> OpenedAfterClearing(c, junk, steps[..|steps| - 1], i)
    ensures Spoiled(c, junk, steps, f) <==>
              ReopenedHalfFinalized(c, junk, steps, |steps| - 1, f)
              || (Spoiled(c, junk, steps[..|steps| - 1], f) && !OpenedAfterClearing(c, junk, steps, |steps| - 1))
  {
    hide Plans, ValidPlans, ReopenedHalfFinalized, OpenedAfterClearing;
    var init := steps[..|steps| - 1];
    if Spoiled(c, junk, init, f) && !OpenedAfterClearing(c, junk, steps, |steps| - 1) {
      var i :| 0 <= i < |init| && ReopenedHalfFinalized(c, junk, init, i, f)
               && forall j | i < j < |init| :: !OpenedAfterClearing(c, junk, init, j);
      assert ReopenedHalfFinalized(c, junk, steps, i, f);
    }
    if Spoiled(c, junk, steps, f) && !ReopenedHalfFinalized(c, junk, steps, |steps| - 1, f) {
      var i :| 0 <= i < |steps| && ReopenedHalfFinalized(c, junk, steps, i, f)
               && forall j | i < j < |steps| :: !OpenedAfterClearing(c, junk, steps, j);
      assert i < |init| && ReopenedHalfFinalized(c, junk, init, i, f);
      forall j | i < j < |init|
        ensures !OpenedAfterClearing(c, junk, init, j)
      {
        assert !OpenedAfterClearing(c, junk, steps, j);
      }
      assert !OpenedAfterClearing(c, junk, steps, |init|);
    }
  }

  /** No half-finalized session was ever reopened: then a completed transfer has delivered every file. */
  lemma CompletedDeliversEverything(c: Config, junk: seq<Bytes>, steps: seq<Step>, s: State)
    requires Reaches(c, junk, steps, s) && s.sender.SenderCompleted?
    requires forall f | 0 <= f < |c.sources| :: !Spoiled(c, junk, steps, f)
    ensures s.disk == c.sources
  {
    hide After, Spoiled;
    CompletedMeansDelivered(c, junk, steps, s);
    forall f | 0 <= f < |c.sources|
      ensures s.disk[f] == c.sources[f]
    {
      LostExactly(c, junk, steps, f);
    }
  }

  // ----- resuming -----

  /** A part file of zeros holds exactly the chunks that are zeros. */
  lemma ZerosHoldZeros(c: Config, f: nat, k: nat)
    requires ValidPlans(Plans(c)) && IsChunk(c, f, k)
    ensures ChunkOnDisk(c, Zeros(|c.sources[f]|), f, k) <==> SourceChunk(c, f, k) == Zeros(|SourceChunk(c, f, k)|)
  {
    hide ChunkPlan.At, ChunkPlan.Valid, DivCeil;
    ChunksAbut(Plans(c)[f], k);
    var source, spec, chunk := c.sources[f], Plans(c)[f].At(k), SourceChunk(c, f, k);
    assert chunk == source[spec.offset..spec.End()];
    if chunk == Zeros(|chunk|) {
      forall p | spec.offset <= p < spec.End()
        ensures source[p] == 0
      {
        assert chunk[p - spec.offset] == source[p];
      }
    }
    if ChunkOnDisk(c, Zeros(|source|), f, k) {
      forall i | 0 <= i < |chunk|
        ensures chunk[i] == 0
      {
        assert source[spec.offset + i] == Zeros(|source|)[spec.offset + i];
      }
    }
  }

  lemma RecordedFile(c: Config, s: State, f: nat, k: nat)
    requires ValidConfig(c) && Inv(c, s) && f < |c.sources| && k in s.recorded[f]
    ensures IsChunk(c, f, k)
    ensures if f in s.lost then s.disk[f] == Zeros(|c.sources[f]|) else ChunkOnDisk(c, s.disk[f], f, k)
  {
    hide ChunkPlan.At, ChunkPlan.Valid, PlanFor, ChunkOnDisk, HandlerOk, SumsOk, PhaseOk, TrafficOk;
    assert FileOk(c, s, f);
    assert k in Below(Plans(c)[f].chunkCount);
  }

  /** A recorded chunk has its source bytes in the part file exactly unless the file is one of the spoiled ones and the
      chunk is not all zeros anyway. */
  lemma RecordedIsOnDisk(c: Config, junk: seq<Bytes>, steps: seq<Step>, s: State, f: nat, k: nat)
    requires Reaches(c, junk, steps, s) && f < |s.recorded| && k in s.recorded[f]
    ensures ValidPlans(Plans(c)) && |junk| == |c.sources| && IsChunk(c, f, k) && f < |s.disk|
    ensures ChunkOnDisk(c, s.disk[f], f, k) <==>
              !Spoiled(c, junk, steps, f) || SourceChunk(c, f, k) == Zeros(|SourceChunk(c, f, k)|)
  {
    Reached(c, junk, steps, s);
    hide Plans, ValidPlans, Inv, CleanInv, Reaches, Spoiled, ChunkOnDisk, SourceChunk, After;
    RecordedAfter(c, junk, steps, s, f, k);
  }

  lemma RecordedAfter(c: Config, junk: seq<Bytes>, steps: seq<Step>, s: State, f: nat, k: nat)
    requires Reaches(c, junk, steps, s) && ShapeOk(c, s) && ValidPlans(Plans(c)) && Inv(c, s)
    requires f < |s.recorded| && k in s.recorded[f] && |junk| == |c.sources|
    ensures IsChunk(c, f, k)
    ensures ChunkOnDisk(c, s.disk[f], f, k) <==>
              !Spoiled(c, junk, steps, f) || SourceChunk(c, f, k) == Zeros(|SourceChunk(c, f, k)|)
  {
    hide Plans, ValidPlans, Inv, CleanInv, Spoiled, ChunkOnDisk, SourceChunk, After, ValidConfig;
    RecordedFile(c, s, f, k);
    LostExactly(c, junk, steps, f);
    ZerosHoldZeros(c, f, k);
  }

  /** A new session has the recorded chunks and queues exactly the others, each once and in order; both sides start
      from the same number of bytes and the receiver's counter is the number of queued jobs. */
  lemma SessionResumes(c: Config, junk: seq<Bytes>, steps: seq<Step>, s: State)
    requires Reaches(c, junk, steps, s)
    ensures ValidPlans(Plans(c)) && ShapeOk(c, s)
    ensures var s' := DoNewSession(c, s);
            && s'.resume == s.recorded && s'.recorded == s.recorded
            && StrictlyOrdered(s'.pool.queue)
            && (forall job :: job in s'.pool.queue <==> IsMissing(Plans(c), s.recorded, job))
            && |s'.pool.queue| == s'.remaining
            && s'.senderBytes == s'.receiverBytes == TotalBytes(Plans(c), 0) - JobBytes(s'.pool.queue)
  {
    Reached(c, junk, steps, s);
    hide ChunkPlan.At, ChunkPlan.Valid, PlanFor, HandlerOk, TrafficOk, CleanInv, Reaches, Below, ChunkOnDisk;
    forall f | 0 <= f < |c.sources|
      ensures s.recorded[f] <= Below(Plans(c)[f].chunkCount)
    {
      assert FileOk(c, s, f);
    }
    hide FileOk, Inv;
    KnownIsRecorded(c, s.recorded);
    OpenedJobs(c, s.disk, s.renamed, s.recorded, if s.rowsCleared then {} else s.lost + s.renamed);
  }

  lemma OpenedJobs(c: Config, disk: seq<Bytes>, renamed: set<nat>, recorded: seq<set<nat>>, lost: set<nat>)
    requires ValidConfig(c) && |disk| == |recorded| == |c.sources| && Known(c, recorded) == recorded
    ensures var s := Open(c, disk, renamed, recorded, lost);
            && s.resume == recorded && s.recorded == recorded
            && StrictlyOrdered(s.pool.queue)
            && (forall job :: job in s.pool.queue <==> IsMissing(Plans(c), recorded, job))
            && |s.pool.queue| == s.remaining
            && s.senderBytes == s.receiverBytes == TotalBytes(Plans(c), 0) - JobBytes(s.pool.queue)
  {
    KnownFits(c, recorded);
    hide ChunkPlan.At, ChunkPlan.Valid, PlanFor, MissingJobs, Remaining, JobBytes, DoneBytes, TotalBytes, Known,
         OpenedDisk, ChannelCount, Fits, StrictlyOrdered, IsMissing, Below;
    JobsExactly(Plans(c), recorded, 0);
    JobSums(Plans(c), recorded, 0);
    var jobs := MissingJobs(Plans(c), recorded, 0);
    forall job
      ensures job in jobs <==> IsMissing(Plans(c), recorded, job)
    {
      if IsMissing(Plans(c), recorded, job) {
        EveryMissingIsAJob(Plans(c), recorded, 0, job);
      }
    }
  }

  /** A new session opens a channel for every chunk it queues, and at most four. */
  lemma SessionOpensChannels(c: Config, junk: seq<Bytes>, steps: seq<Step>, s: State)
    requires Reaches(c, junk, steps, s)
    ensures ValidPlans(Plans(c)) && ShapeOk(c, s)
    ensures var s' := DoNewSession(c, s);
            |s'.handlers| == |s'.pool.channels| == |s'.streams| == if |s'.pool.queue| < 4 then |s'.pool.queue| else 4
  {
    SessionResumes(c, junk, steps, s);
    hide Plans, ValidPlans, Reaches, MissingJobs, Remaining, TotalBytes, DoneBytes, JobBytes, Known, OpenedDisk,
         AddProgress, StrictlyOrdered, IsMissing;
  }

  // ----- after completion -----

  lemma CompletedStep(c: Config, s: State, step: Step)
    requires ValidPlans(Plans(c)) && ShapeOk(c, s) && Enabled(c, s, step) && s.sender.SenderCompleted?
    ensures !step.NewSession? && Apply(c, s, step).sender.SenderCompleted?
  {
    hide Plans, ValidPlans, InPlan, IsChunk, Free, PacketFor, MayArrive, Do, Can, AddProgress, TotalBytes, Below, Patch,
         Mark, VerifyChunk, NoneActive, DoSend, DoNewSession, HoldsLock;
  }

  /** Once the sender has completed, no session follows, and what was delivered stays as it is, whatever handlers are
      still at work. */
  lemma {:induction false} CompletedForGood(c: Config, junk: seq<Bytes>, steps: seq<Step>, more: seq<Step>,
                                            s: State, end: State)
    requires Reaches(c, junk, steps, s) && Reaches(c, junk, steps + more, end) && s.sender.SenderCompleted?
    ensures end.sender.SenderCompleted? && end.disk == s.disk && NewSession !in more
    decreases |more|
  {
    CompletedKeepsLost(c, junk, steps, more, s, end);
    CompletedMeansDelivered(c, junk, steps, s);
    CompletedMeansDelivered(c, junk, steps + more, end);
    hide After, Plans, ValidPlans, ValidConfig, Resized;
    forall f | 0 <= f < |s.disk|
      ensures end.disk[f] == s.disk[f]
    {
    }
  }

  lemma {:induction false} CompletedKeepsLost(c: Config, junk: seq<Bytes>, steps: seq<Step>, more: seq<Step>,
                                              s: State, end: State)
    requires Reaches(c, junk, steps, s) && Reaches(c, junk, steps + more, end) && s.sender.SenderCompleted?
    ensures end.sender.SenderCompleted? && end.lost == s.lost && NewSession !in more
    decreases |more|
  {
    if more == [] {
      assert steps + more == steps;
    } else {
      var run, init, last := steps + more, more[..|more| - 1], more[|more| - 1];
      assert run[..|run| - 1] == steps + init && run[|run| - 1] == last && more == init + [last];
      LastStep(c, junk, run);
      var before := After(c, junk, steps + init).value;
      CompletedKeepsLost(c, junk, steps, init, s, before);
      CompletedStep(c, before, last);
      StepLost(c, before, last);
    }
  }

  // ----- what a handler makes of a packet -----

  /** A packet outside the plan, or one whose payload is not the source's, always ends its handler with an error,
      whether its chunk is marked or not; any other never does, and is written unless it is marked. */
  lemma PacketsAreJudged(c: Config, s: State, h: nat)
    requires ValidConfig(c) && Inv(c, s) && ValidPlans(Plans(c)) && ShapeOk(c, s)
    ensures Enabled(c, s, Inspect(h)) ==>
              var p := s.handlers[h].packet;
              Apply(c, s, Inspect(h)).handlers[h]
              == if !InPlan(c, p) then Ended(false)
                 else if p.spec.index !in s.resume[p.file] then Checked(p)
                 else if IsSource(c, p) then Reading
                 else Ended(false)
    ensures Enabled(c, s, Verify(h)) ==>
              var p := s.handlers[h].packet;
              Apply(c, s, Verify(h)).handlers[h] == if IsSource(c, p) then Writing(p, 0) else Ended(false)
  {
    hide ChunkPlan.At, ChunkPlan.Valid, PlanFor, FileOk, SumsOk, PhaseOk, TrafficOk, NoneActive;
    if Enabled(c, s, Inspect(h)) || Enabled(c, s, Verify(h)) {
      assert HandlerOk(c, s, h);
      var p := s.handlers[h].packet;
      if InPlan(c, p) || s.handlers[h].Checked? {
        DigestTells(c, p);
      }
    }
  }

  /** The payload is the source's chunk. */
  predicate IsSource(c: Config, p: Packet)
    requires ValidPlans(Plans(c))
  {
    IsChunk(c, p.file, p.spec.index) && p.payload == SourceChunk(c, p.file, p.spec.index)
  }

  lemma DigestTells(c: Config, p: Packet)
    requires ValidConfig(c) && ValidPlans(Plans(c)) && HonestHeader(c, p)
    ensures c.hash(p.payload) == p.digest <==> IsSource(c, p)
    ensures VerifyChunk(c.hash, VerifiedChunk(p.spec, p.digest, p.payload)).Ok? <==> IsSource(c, p)
  {
    hide ChunkPlan.At, ChunkPlan.Valid, PlanFor;
  }

  // ----- the shared counter -----

  /** The counter is never below the number of unmarked chunks, and never negative; at zero every file is complete and
      the progress is the total. */
  lemma CounterCovers(c: Config, junk: seq<Bytes>, steps: seq<Step>, s: State)
    requires Reaches(c, junk, steps, s)
    ensures ValidPlans(Plans(c)) && ShapeOk(c, s)
    ensures 0 <= Remaining(Plans(c), s.resume, 0) <= s.remaining
    ensures s.remaining == 0 ==> forall f | 0 <= f < |c.sources| :: Complete(c, s, f)
    ensures s.receiverBytes == DoneBytes(Plans(c), s.counted, 0) <= TotalBytes(Plans(c), 0)
    ensures s.remaining == 0 ==> s.receiverBytes == TotalBytes(Plans(c), 0)
  {
    Reached(c, junk, steps, s);
    hide ChunkPlan.At, ChunkPlan.Valid, PlanFor, HandlerOk, TrafficOk, PhaseOk, CleanInv, Reaches, Below, FileOk,
         DoneBytes, Remaining, TotalBytes, AllDone, Complete;
    ZeroMeansAllDone(c, s);
    FileSetsFit(c, s);
    NothingRemains(Plans(c), s.resume);
    DoneBytesBounded(Plans(c), s.counted, 0);
    SetsNested(c, s);
    RemainingMonotone(Plans(c), s.subtracted, s.resume, 0);
    if s.remaining == 0 {
      forall f | 0 <= f < |c.sources|
        ensures Complete(c, s, f) && s.counted[f] == Below(Plans(c)[f].chunkCount)
      {
        AllDoneMeansComplete(c, s, f);
        AllDoneMeansCounted(c, s, f);
      }
    }
  }

  lemma SetsNested(c: Config, s: State)
    requires ValidConfig(c) && Inv(c, s)
    ensures forall f | 0 <= f < |c.sources| :: s.subtracted[f] <= s.counted[f] <= s.resume[f]
  {
    hide ChunkPlan.At, ChunkPlan.Valid, PlanFor, HandlerOk, TrafficOk, PhaseOk, SumsOk, Below, ChunkOnDisk;
    forall f | 0 <= f < |c.sources|
      ensures s.subtracted[f] <= s.counted[f] <= s.resume[f]
    {
      assert FileOk(c, s, f);
    }
  }

  lemma AllDoneMeansCounted(c: Config, s: State, f: nat)
    requires ValidConfig(c) && Inv(c, s) && f < |c.sources| && AllDone(Plans(c), s.subtracted)
    ensures s.counted[f] == Below(Plans(c)[f].chunkCount)
  {
    hide ChunkPlan.At, ChunkPlan.Valid, PlanFor, ChunkOnDisk, HandlerOk, SumsOk, PhaseOk, TrafficOk;
    assert FileOk(c, s, f) && s.subtracted[f] == Below(Plans(c)[f].chunkCount);
  }

  /** Each subtraction is for a chunk marked and not subtracted before, so it never wraps, however often the chunk was
      delivered. */
  lemma SubtractionIsFresh(c: Config, junk: seq<Bytes>, steps: seq<Step>, s: State, h: nat)
    requires Reaches(c, junk, steps, s) && ValidPlans(Plans(c)) && ShapeOk(c, s) && Enabled(c, s, Subtract(h))
    ensures var f, k, s' := s.handlers[h].file, s.handlers[h].index, Apply(c, s, Subtract(h));
            && f < |c.sources| && k in s.resume[f] && k !in s.subtracted[f] && k in s'.subtracted[f]
            && s.remaining >= 1 && s'.remaining == s.remaining - 1
  {
    Reached(c, junk, steps, s);
    LockMeansRows(c, s, h);
    SubtractKeeps(c, s, h);
    hide Inv, CleanInv, Reaches;
  }

  /** Finalizing never meets an incomplete file. */
  lemma IncompleteBranchUnreachable(c: Config, junk: seq<Bytes>, steps: seq<Step>, s: State, f: nat)
    requires Reaches(c, junk, steps, s) && ValidPlans(Plans(c)) && ShapeOk(c, s)
    ensures !Enabled(c, s, FailIncomplete(f))
  {
    Reached(c, junk, steps, s);
    FinalizeNeverIncomplete(c, s, f);
  }

  // ----- error-free sessions -----

  ghost predicate NoLockHeld(s: State) {
    forall f | 0 <= f < |s.locks| :: s.locks[f].None?
  }

  /** Between locks the counter and the progress are exact: what is missing, and the bytes of what is marked. */
  lemma ExactBetweenLocks(c: Config, junk: seq<Bytes>, steps: seq<Step>, s: State)
    requires Reaches(c, junk, steps, s) && s.clean && NoLockHeld(s)
    ensures ValidPlans(Plans(c)) && ShapeOk(c, s)
    ensures s.remaining == Remaining(Plans(c), s.resume, 0)
    ensures s.receiverBytes == DoneBytes(Plans(c), s.resume, 0)
  {
    Reached(c, junk, steps, s);
    hide ChunkPlan.At, ChunkPlan.Valid, PlanFor, HandlerOk, TrafficOk, Reaches, Below, ChunkOnDisk, DoneBytes,
         Remaining, TotalBytes, GenuineOk, EndsOk, FlightOk, BytesOk;
    forall f | 0 <= f < |c.sources|
      ensures s.subtracted[f] == s.resume[f] == s.counted[f]
    {
      assert FileOk(c, s, f);
      assert forall k | k in s.resume[f] && k !in s.subtracted[f] :: OnItsWay(s, f, k);
    }
    assert s.subtracted == s.resume && s.counted == s.resume;
  }

  /** A chunk nobody has marked yet, still on a channel whose connection has not reached the receiver. */
  ghost predicate OnDetachedChannel(c: Config, s: State, f: nat, k: nat, h: nat)
    requires ShapeOk(c, s)
  {
    IsChunk(c, f, k) && k !in s.resume[f] && h < |s.handlers| && s.handlers[h].Detached? && Carries(s, h, f, k)
  }

  lemma SomethingUnsubtracted(c: Config, s: State) returns (f: nat, k: nat)
    requires ValidConfig(c) && Inv(c, s) && s.remaining != 0
    ensures IsChunk(c, f, k) && k !in s.subtracted[f]
  {
    hide ChunkPlan.At, ChunkPlan.Valid, PlanFor, HandlerOk, TrafficOk, ChunkOnDisk, DoneBytes, Remaining, TotalBytes;
    ZeroMeansAllDone(c, s);
    f :| f < |c.sources| && s.subtracted[f] != Below(Plans(c)[f].chunkCount);
    assert FileOk(c, s, f);
    k :| k in Below(Plans(c)[f].chunkCount) && k !in s.subtracted[f];
  }

  lemma MarkedMeansAttached(c: Config, s: State, f: nat, k: nat)
    requires ValidConfig(c) && Inv(c, s) && CleanInv(c, s) && s.clean && f < |c.sources|
    requires k in s.resume[f] && k !in s.subtracted[f]
    ensures exists h | 0 <= h < |s.handlers| :: Attached(s.handlers[h])
  {
    hide ChunkPlan.At, ChunkPlan.Valid, PlanFor, FileOk, HandlerOk, TrafficOk, SumsOk, PhaseOk, GenuineOk, BytesOk;
    assert OnItsWay(s, f, k);
    assert Attached(s.handlers[s.locks[f].value]);
  }

  /** What is left of a chunk when no handler is attached. */
  lemma NobodyAttached(c: Config, s: State, f: nat, k: nat) returns (h: nat)
    requires ValidConfig(c) && Inv(c, s) && CleanInv(c, s) && s.clean && NoneAttached(s)
    requires IsChunk(c, f, k) && k !in s.subtracted[f]
    ensures OnDetachedChannel(c, s, f, k, h)
  {
    hide ChunkPlan.At, ChunkPlan.Valid, PlanFor, FileOk, HandlerOk, TrafficOk, SumsOk, PhaseOk, GenuineOk, BytesOk;
    if k in s.resume[f] {
      MarkedMeansAttached(c, s, f, k);
    }
    assert InFlight(s, f, k);
    var ended :| 0 <= ended < |s.handlers| && s.handlers[ended].Ended?;
    assert s.pool.queue == [];
    h :| 0 <= h < |s.handlers| && Carries(s, h, f, k);
  }

  ghost predicate LeftBehind(c: Config, s: State)
    requires ShapeOk(c, s)
  {
    exists f: nat, k: nat, h: nat :: OnDetachedChannel(c, s, f, k, h)
  }

  lemma LeftBehindExactly(c: Config, s: State)
    requires ValidConfig(c) && Inv(c, s) && CleanInv(c, s) && s.clean && NoneAttached(s)
    ensures s.remaining != 0 <==> LeftBehind(c, s)
  {
    assert ShapeOk(c, s);
    hide Inv, CleanInv, NoneAttached, OnDetachedChannel, Plans, ValidPlans, ValidConfig;
    if s.remaining != 0 {
      var f, k := SomethingUnsubtracted(c, s);
      var h := NobodyAttached(c, s, f, k);
    }
    if LeftBehind(c, s) {
      var f: nat, k: nat, h: nat :| OnDetachedChannel(c, s, f, k, h);
      AllMarkedAtZero(c, s, f, k, h);
    }
  }

  lemma AllMarkedAtZero(c: Config, s: State, f: nat, k: nat, h: nat)
    requires ValidConfig(c) && Inv(c, s) && OnDetachedChannel(c, s, f, k, h)
    ensures s.remaining != 0
  {
    ZeroMeansAllDone(c, s);
    hide ChunkPlan.At, ChunkPlan.Valid, PlanFor, HandlerOk, TrafficOk, SumsOk, PhaseOk;
    assert FileOk(c, s, f);
  }

  /** When every channel of an error-free session has ended, nothing remains and every file is complete. */
  lemma AllEndedMeansComplete(c: Config, junk: seq<Bytes>, steps: seq<Step>, s: State)
    requires Reaches(c, junk, steps, s) && s.clean
    requires forall h | 0 <= h < |s.handlers| :: s.handlers[h].Ended?
    ensures s.remaining == 0 && forall f | 0 <= f < |c.sources| :: f < |s.resume| && Complete(c, s, f)
  {
    Reached(c, junk, steps, s);
    CounterCovers(c, junk, steps, s);
    hide ChunkPlan.At, ChunkPlan.Valid, PlanFor, FileOk, HandlerOk, TrafficOk, SumsOk, PhaseOk, CleanInv, Complete,
         Reaches;
    if s.remaining != 0 {
      var f, k := SomethingUnsubtracted(c, s);
      if |s.handlers| == 0 {
        NothingWithoutChannels(c, s, f, k);
      } else {
        assert s.handlers[0].Ended?;
        var h := NobodyAttached(c, s, f, k);
        assert false;
      }
    }
  }

  lemma NothingWithoutChannels(c: Config, s: State, f: nat, k: nat)
    requires ValidConfig(c) && Inv(c, s) && CleanInv(c, s) && s.clean && |s.handlers| == 0 && IsChunk(c, f, k)
    ensures k in s.subtracted[f]
  {
    hide ChunkPlan.At, ChunkPlan.Valid, PlanFor, FileOk, HandlerOk, TrafficOk, SumsOk, PhaseOk, CleanInv;
    if k in s.resume[f] && k !in s.subtracted[f] {
      MarkedMeansAttached(c, s, f, k);
    }
    if k !in s.resume[f] {
      UnmarkedMeansChannels(c, s, f, k);
    }
    assert FileOk(c, s, f);
  }

  lemma UnmarkedMeansChannels(c: Config, s: State, f: nat, k: nat)
    requires ValidConfig(c) && Inv(c, s) && CleanInv(c, s) && s.clean && IsChunk(c, f, k) && k !in s.resume[f]
    ensures |s.handlers| > 0
  {
    hide ChunkPlan.At, ChunkPlan.Valid, PlanFor, FileOk, HandlerOk, TrafficOk, SumsOk, PhaseOk, GenuineOk, BytesOk;
    assert InFlight(s, f, k);
  }

  /** No handler of an error-free session fails: every header and payload it meets passes. */
  lemma HandlersNeverFail(c: Config, junk: seq<Bytes>, steps: seq<Step>, s: State, h: nat)
    requires Reaches(c, junk, steps, s) && s.clean && h < |s.handlers|
    ensures s.handlers[h] != Ended(false)
  {
    Reached(c, junk, steps, s);
    hide GenuineOk, FlightOk, BytesOk, MarksOk, SlotsRight, Inv;
  }

  /** The sender has reported everything but what is queued or taken and unreported; it ends at the total exactly when
      nothing of that is left. */
  lemma SenderProgressIsExact(c: Config, junk: seq<Bytes>, steps: seq<Step>, s: State)
    requires Reaches(c, junk, steps, s) && s.clean
    ensures ValidPlans(Plans(c))
    ensures s.senderBytes == TotalBytes(Plans(c), 0) - JobBytes(s.pool.queue) - UnreportedAll(s.pool.channels)
    ensures (forall h | 0 <= h < |s.pool.channels| :: s.pool.channels[h].phase.Exited?) ==>
              s.senderBytes == TotalBytes(Plans(c), 0)
  {
    Reached(c, junk, steps, s);
    hide GenuineOk, FlightOk, MarksOk, Inv, Plans, ValidPlans, TotalBytes, JobBytes, UnreportedAll;
    if forall h | 0 <= h < |s.pool.channels| :: s.pool.channels[h].phase.Exited? {
      ExitedReported(s.pool.channels);
      assert s.pool.queue == [];
      NoJobBytes();
    }
  }

  lemma {:induction false} ExitedReported(channels: seq<Channel<ChunkJob>>)
    requires forall h | 0 <= h < |channels| :: channels[h].phase.Exited? && channels[h].prefetched.None?
    ensures UnreportedAll(channels) == 0
  {
    if channels != [] {
      ExitedReported(channels[1..]);
    }
  }
}
