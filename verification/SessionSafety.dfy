/** What every step of a session keeps, whatever the network does to payloads and order. */
module SessionSafety {
  import opened Wrappers
  import opened Chunks
  import opened Storage
  import opened Jobs
  import opened WorkQueue
  import opened Session

  // ----- the invariant -----

  /** The bytes `from..to` of a part file are the source's. */
  ghost predicate Agrees(disk: Bytes, source: Bytes, from: nat, to: nat) {
    to <= |disk| == |source| && forall p | from <= p < to :: disk[p] == source[p]
  }

  ghost predicate ChunkOnDisk(c: Config, disk: Bytes, f: nat, k: nat)
    requires ValidPlans(Plans(c)) && IsChunk(c, f, k)
  {
    Agrees(disk, c.sources[f], Plans(c)[f].At(k).offset, Plans(c)[f].At(k).End())
  }

  /** Marked chunks are on disk, rows and counts follow marks, and a file whose part was renamed away under
      recorded rows is an empty shell that counts as complete. */
  ghost predicate FileOk(c: Config, s: State, f: nat)
    requires ValidPlans(Plans(c)) && ShapeOk(c, s) && f < |c.sources|
  {
    && |s.disk[f]| == |c.sources[f]|
    && s.subtracted[f] <= s.counted[f] <= s.resume[f] <= Below(Plans(c)[f].chunkCount)
    && s.recorded[f] <= s.resume[f]
    && (!s.rowsCleared ==> s.counted[f] <= s.recorded[f])
    && (s.rowsCleared ==> s.recorded[f] == {})
    && (f !in s.lost ==> forall k | k in s.resume[f] :: IsChunk(c, f, k) && ChunkOnDisk(c, s.disk[f], f, k))
    && (f in s.lost ==>
          && s.disk[f] == Zeros(|c.sources[f]|) && Complete(c, s, f)
          && (!s.rowsCleared ==> s.recorded[f] == s.resume[f]))
    && (s.locks[f].Some? ==>
          s.locks[f].value < |s.handlers| && HoldsLock(s.handlers[s.locks[f].value])
          && s.handlers[s.locks[f].value].file == f)
  }

  ghost predicate LockHeld(s: State, h: nat, f: nat, k: nat) {
    f < |s.locks| == |s.resume| && s.locks[f] == Some(h) && k in s.resume[f]
  }

  /** What is known at each point of a handler's loop. */
  ghost predicate HandlerOk(c: Config, s: State, h: nat)
    requires ValidPlans(Plans(c)) && ShapeOk(c, s) && h < |s.handlers|
  {
    match s.handlers[h]
    case Got(p) => MayArrive(c, p)
    case Checked(p) => HonestHeader(c, p) && p.file !in s.lost
    case Writing(p, d) =>
      && HonestHeader(c, p) && p.file !in s.lost
      && p.payload == SourceChunk(c, p.file, p.spec.index) && d <= |p.payload|
      && Agrees(s.disk[p.file], c.sources[p.file], p.spec.offset, p.spec.offset + d)
    case Marked(f, k) => LockHeld(s, h, f, k) && k !in s.counted[f]
    case Recorded(f, k) => LockHeld(s, h, f, k) && k !in s.counted[f] && k in s.recorded[f]
    case Counted(f, k) => LockHeld(s, h, f, k) && k in s.counted[f] && k !in s.subtracted[f]
    case _ => true
  }

  ghost predicate SumsOk(c: Config, s: State)
    requires ValidPlans(Plans(c)) && ShapeOk(c, s)
  {
    s.remaining == Remaining(Plans(c), s.subtracted, 0) && s.receiverBytes == DoneBytes(Plans(c), s.counted, 0)
  }

  ghost predicate PhaseOk(c: Config, s: State)
    requires ShapeOk(c, s)
  {
    && s.renamed <= Below(|c.sources|)
    && (InLoop(s.receiver) ==> s.renamed == {} && !s.rowsCleared)
    && (s.receiver.Finalizing? ==> AllDone(Plans(c), s.subtracted) && !s.rowsCleared)
    && (s.receiver.Cleared? || s.receiver.Completed? ==> s.rowsCleared)
    && (s.renamed != {} ==> AllDone(Plans(c), s.subtracted))
    && (s.rowsCleared ==> AllDone(Plans(c), s.subtracted) && s.renamed == Below(|c.sources|))
    && (s.resultSent ==> s.receiver.Completed?)
    && (s.sender.SenderCompleted? ==> s.resultSent)
  }

  predicate JobOk(c: Config, job: ChunkJob)
    requires ValidPlans(Plans(c))
  {
    IsChunk(c, job.entryIndex, job.spec.index) && job.spec == Plans(c)[job.entryIndex].At(job.spec.index)
  }

  predicate ChannelOk(c: Config, ch: Channel<ChunkJob>)
    requires ValidPlans(Plans(c))
  {
    && (ch.prefetched.Some? ==> JobOk(c, ch.prefetched.value))
    && match ch.phase
       case Holding(job) => JobOk(c, job)
       case Ready(job) => JobOk(c, job)
       case Accounting(job) => JobOk(c, job)
       case _ => true
  }

  ghost predicate TrafficOk(c: Config, s: State)
    requires ValidPlans(Plans(c)) && ShapeOk(c, s)
  {
    && (forall i | 0 <= i < |s.pool.queue| :: JobOk(c, s.pool.queue[i]))
    && (forall h | 0 <= h < |s.pool.channels| :: ChannelOk(c, s.pool.channels[h]))
    && (forall h | 0 <= h < |s.streams| :: forall p | p in s.streams[h] :: MayArrive(c, p))
  }

  ghost predicate Inv(c: Config, s: State)
    requires ValidPlans(Plans(c))
  {
    && ShapeOk(c, s)
    && (forall f | 0 <= f < |c.sources| :: FileOk(c, s, f))
    && (forall h | 0 <= h < |s.handlers| :: HandlerOk(c, s, h))
    && SumsOk(c, s) && PhaseOk(c, s) && TrafficOk(c, s)
  }

  // ----- steps of the sender and the network -----

  /** What the invariant says of files and handlers does not look at the sender, the pool, the streams, the phases
      or the renamed set. */
  ghost predicate SameStorage(s: State, s': State) {
    && s'.handlers == s.handlers && s'.resume == s.resume && s'.locks == s.locks && s'.disk == s.disk
    && s'.recorded == s.recorded && s'.rowsCleared == s.rowsCleared && s'.lost == s.lost
    && s'.counted == s.counted && s'.subtracted == s.subtracted
    && s'.remaining == s.remaining && s'.receiverBytes == s.receiverBytes
  }

  lemma StorageFrame(c: Config, s: State, s': State)
    requires ValidPlans(Plans(c)) && Inv(c, s) && ShapeOk(c, s') && SameStorage(s, s')
    ensures forall f | 0 <= f < |c.sources| :: FileOk(c, s', f)
    ensures forall h | 0 <= h < |s'.handlers| :: HandlerOk(c, s', h)
    ensures SumsOk(c, s')
  {
    hide ChunkPlan.At, ChunkPlan.Valid, PlanFor, Below, Agrees, ChunkOnDisk, HonestHeader, MayArrive, PhaseOk,
         TrafficOk;
    forall f | 0 <= f < |c.sources|
      ensures FileOk(c, s', f)
    {
      assert FileOk(c, s, f);
    }
    forall h | 0 <= h < |s.handlers|
      ensures HandlerOk(c, s', h)
    {
      assert HandlerOk(c, s, h);
    }
  }

  lemma SendKeepsTraffic(c: Config, s: State, h: nat, work: Work)
    requires ValidConfig(c) && ShapeOk(c, s) && TrafficOk(c, s) && Can(s.pool, h, work)
    ensures ShapeOk(c, DoSend(c, s, h, work)) && TrafficOk(c, DoSend(c, s, h, work))
  {
    hide ChunkPlan.At, ChunkPlan.Valid, DivCeil, Below;
    var s' := DoSend(c, s, h, work);
    assert ChannelOk(c, s.pool.channels[h]);
    if work.Write? {
      var job := s.pool.channels[h].phase.job;
      ChunksAbut(Plans(c)[job.entryIndex], job.spec.index);
      assert HonestHeader(c, PacketFor(c, job));
    }
  }

  lemma SendKeeps(c: Config, s: State, h: nat, work: Work)
    requires ValidConfig(c) && Inv(c, s) && Enabled(c, s, Send(h, work))
    ensures Inv(c, Apply(c, s, Send(h, work)))
  {
    hide FileOk, HandlerOk, SumsOk, TrafficOk, ChunkPlan.At, ChunkPlan.Valid, PlanFor, NoSecondPreimage, Do, PacketFor;
    SendKeepsTraffic(c, s, h, work);
    var s' := DoSend(c, s, h, work);
    assert SameStorage(s, s');
    hide DoSend;
    StorageFrame(c, s, s');
  }

  lemma StreamsKeep(c: Config, s: State, h: nat, packets: seq<Packet>, clean: bool)
    requires ValidConfig(c) && Inv(c, s) && h < |s.streams| && forall p | p in packets :: MayArrive(c, p)
    ensures Inv(c, s.(streams := s.streams[h := packets], clean := clean))
  {
    var s' := s.(streams := s.streams[h := packets], clean := clean);
    assert TrafficOk(c, s') by {
      hide MayArrive;
    }
    hide FileOk, HandlerOk, SumsOk, TrafficOk;
    StorageFrame(c, s, s');
  }

  lemma PhasesKeep(c: Config, s: State, s': State)
    requires ValidConfig(c) && Inv(c, s) && ShapeOk(c, s') && SameStorage(s, s') && PhaseOk(c, s')
    requires s'.pool == s.pool && s'.streams == s.streams
    ensures Inv(c, s')
  {
    assert TrafficOk(c, s') by {
      hide MayArrive;
    }
    hide FileOk, HandlerOk, SumsOk, TrafficOk, PhaseOk;
    StorageFrame(c, s, s');
  }

  // ----- steps of a handler that hold no lock -----

  /** A handler moves on without taking or giving back a lock. */
  lemma MoveKeeps(c: Config, s: State, h: nat, next: Handler)
    requires ValidConfig(c) && Inv(c, s) && h < |s.handlers| && !HoldsLock(s.handlers[h]) && !HoldsLock(next)
    requires HandlerOk(c, SetHandler(s, h, next), h)
    ensures Inv(c, SetHandler(s, h, next))
  {
    hide ChunkPlan.At, ChunkPlan.Valid, PlanFor, Below, Agrees, ChunkOnDisk, HonestHeader, MayArrive;
    var s' := SetHandler(s, h, next);
    forall f | 0 <= f < |c.sources|
      ensures FileOk(c, s', f)
    {
      assert FileOk(c, s, f);
    }
    forall d | 0 <= d < |s.handlers|
      ensures HandlerOk(c, s', d)
    {
      assert HandlerOk(c, s, d);
    }
  }

  /** Waking the control loop changes nothing the invariant speaks of. */
  lemma NotifyKeeps(c: Config, s: State)
    requires ValidConfig(c) && Inv(c, s)
    ensures Inv(c, s.(receiver := Notified(s.receiver)))
  {
    hide FileOk, HandlerOk, SumsOk, TrafficOk, AllDone, ValidConfig;
    PhasesKeep(c, s, s.(receiver := Notified(s.receiver)));
  }

  /** A handler that holds no lock may end at any time. */
  lemma EndKeeps(c: Config, s: State, h: nat, ok: bool)
    requires ValidConfig(c) && Inv(c, s) && h < |s.handlers| && !HoldsLock(s.handlers[h])
    ensures Inv(c, EndHandler(s, h, ok))
  {
    var after := SetHandler(s, h, Ended(ok));
    assert ShapeOk(c, after) && HandlerOk(c, after, h);
    hide Inv, ValidConfig, NoneActive, HandlerOk;
    MoveKeeps(c, s, h, Ended(ok));
    NotifyKeeps(c, after);
    assert EndHandler(s, h, ok) == after || EndHandler(s, h, ok) == after.(receiver := Notified(after.receiver));
  }

  lemma ReceiveKeeps(c: Config, s: State, h: nat)
    requires ValidConfig(c) && Inv(c, s) && Enabled(c, s, Receive(h))
    ensures Inv(c, Apply(c, s, Receive(h)))
  {
    hide MayArrive;
    var stream := s.streams[h];
    assert stream[0] in stream;
    MoveKeeps(c, s, h, Got(stream[0]));
    var s' := SetHandler(s, h, Got(stream[0]));
    StreamsKeep(c, s', h, stream[1..], s'.clean);
    assert Apply(c, s, Receive(h)) == s'.(streams := s'.streams[h := stream[1..]], clean := s'.clean);
  }

  lemma HonestHeaderIsPlanned(c: Config, p: Packet)
    requires ValidPlans(Plans(c)) && HonestHeader(c, p)
    ensures p.file < |c.sources| && Plans(c)[p.file].Chunk(p.spec.index) == Ok(p.spec)
    ensures p.spec.index in Below(Plans(c)[p.file].chunkCount)
  {
  }

  /** A chunk that is not in the resume map belongs to a file that is no empty shell. */
  lemma MissingMeansNotLost(c: Config, s: State, p: Packet)
    requires ValidConfig(c) && Inv(c, s) && HonestHeader(c, p) && p.spec.index !in s.resume[p.file]
    ensures p.file !in s.lost
  {
    hide ChunkPlan.At, ChunkPlan.Valid, PlanFor, ChunkOnDisk, HandlerOk, SumsOk, PhaseOk, TrafficOk;
    assert FileOk(c, s, p.file);
  }

  lemma InspectKeeps(c: Config, s: State, h: nat)
    requires ValidConfig(c) && Inv(c, s) && Enabled(c, s, Inspect(h))
    ensures Inv(c, Apply(c, s, Inspect(h)))
  {
    hide ChunkPlan.At, ChunkPlan.Valid, PlanFor, Below, FileOk, SumsOk, PhaseOk, TrafficOk, InPlan, EndHandler;
    assert HandlerOk(c, s, h);
    var p := s.handlers[h].packet;
    EndKeeps(c, s, h, false);
    if InPlan(c, p) && p.spec.index !in s.resume[p.file] {
      MissingMeansNotLost(c, s, p);
      assert HandlerOk(c, SetHandler(s, h, Checked(p)), h);
      hide HonestHeader, Inv, ValidConfig;
      MoveKeeps(c, s, h, Checked(p));
    } else {
      assert HandlerOk(c, SetHandler(s, h, Reading), h);
      hide HonestHeader, Inv, ValidConfig;
      MoveKeeps(c, s, h, Reading);
    }
  }

  /** A payload that passes verification under an honest header is the source chunk. */
  lemma VerifiedIsSource(c: Config, p: Packet)
    requires ValidConfig(c) && HonestHeader(c, p)
    requires VerifyChunk(c.hash, VerifiedChunk(p.spec, p.digest, p.payload)).Ok?
    ensures p.payload == SourceChunk(c, p.file, p.spec.index)
  {
    hide ChunkPlan.At, ChunkPlan.Valid, PlanFor;
    assert IsChunk(c, p.file, p.spec.index) && c.hash(p.payload) == c.hash(SourceChunk(c, p.file, p.spec.index));
  }

  lemma VerifyKeeps(c: Config, s: State, h: nat)
    requires ValidConfig(c) && Inv(c, s) && Enabled(c, s, Verify(h))
    ensures Inv(c, Apply(c, s, Verify(h)))
  {
    hide ChunkPlan.At, ChunkPlan.Valid, DivCeil, Below, ChunkOnDisk;
    assert HandlerOk(c, s, h);
    var p := s.handlers[h].packet;
    if VerifyChunk(c.hash, VerifiedChunk(p.spec, p.digest, p.payload)).Ok? {
      VerifiedIsSource(c, p);
      ChunksAbut(Plans(c)[p.file], p.spec.index);
      assert FileOk(c, s, p.file);
      assert Agrees(s.disk[p.file], c.sources[p.file], p.spec.offset, p.spec.offset);
    }
    hide HonestHeader, Agrees, SourceChunk, VerifyChunk, EndHandler;
    if VerifyChunk(c.hash, VerifiedChunk(p.spec, p.digest, p.payload)).Ok? {
      MoveKeeps(c, s, h, Writing(p, 0));
    } else {
      EndKeeps(c, s, h, false);
    }
  }

  // ----- steps that write -----

  /** Writing the source's own bytes keeps whatever already agreed, and extends the agreeing range. */
  lemma PatchKeepsAgreement(disk: Bytes, source: Bytes, at: nat, piece: Bytes, from: nat, to: nat)
    requires |disk| == |source| && at + |piece| <= |source| && piece == source[at..at + |piece|]
    requires forall p | from <= p < to :: p < |disk| && (disk[p] == source[p] || at <= p < at + |piece|)
    requires to <= |disk|
    ensures Agrees(Patch(disk, at, piece), source, from, to)
  {
    forall p | from <= p < to
      ensures |Patch(disk, at, piece)| == |disk| && Patch(disk, at, piece)[p] == source[p]
    {
      PatchBytes(disk, at, piece, p);
    }
    assert |Patch(disk, at, piece)| == |disk| by {
      if disk != [] {
        PatchBytes(disk, at, piece, 0);
      }
    }
  }

  ghost predicate SameMarks(s: State, s': State) {
    && s'.resume == s.resume && s'.recorded == s.recorded && s'.counted == s.counted && s'.subtracted == s.subtracted
    && s'.rowsCleared == s.rowsCleared && s'.lost == s.lost
  }

  /** The state after one short write into the part file of `f`. */
  lemma WriteKeepsFile(c: Config, s: State, s': State, f: nat, at: nat, piece: Bytes)
    requires ValidConfig(c) && ShapeOk(c, s) && ShapeOk(c, s') && f < |c.sources| && FileOk(c, s, f)
    requires f !in s.lost && at + |piece| <= |c.sources[f]| && piece == c.sources[f][at..at + |piece|]
    requires s'.disk[f] == Patch(s.disk[f], at, piece)
    requires SameMarks(s, s') && s'.locks == s.locks
    requires s.locks[f].Some? ==>
              s.locks[f].value < |s'.handlers| && s'.handlers[s.locks[f].value] == s.handlers[s.locks[f].value]
    ensures FileOk(c, s', f)
  {
    hide ChunkPlan.At, ChunkPlan.Valid, PlanFor, Below, Patch, HonestHeader, Inv;
    PatchKeepsAgreement(s.disk[f], c.sources[f], at, piece, 0, 0);
    assert |s'.disk[f]| == |c.sources[f]|;
    forall k | k in s.resume[f]
      ensures IsChunk(c, f, k) && ChunkOnDisk(c, s'.disk[f], f, k)
    {
      assert ChunkOnDisk(c, s.disk[f], f, k);
      PatchKeepsAgreement(s.disk[f], c.sources[f], at, piece, Plans(c)[f].At(k).offset, Plans(c)[f].At(k).End());
    }
  }

  /** Another handler's half-written chunk of the same file keeps agreeing too. */
  lemma WriteKeepsHandler(c: Config, s: State, s': State, d: nat, f: nat, at: nat, piece: Bytes)
    requires ValidConfig(c) && ShapeOk(c, s) && ShapeOk(c, s') && f < |c.sources| && d < |s.handlers| == |s'.handlers|
    requires HandlerOk(c, s, d) && s'.handlers[d] == s.handlers[d]
    requires |s.disk[f]| == |c.sources[f]| && at + |piece| <= |c.sources[f]| && piece == c.sources[f][at..at + |piece|]
    requires s'.disk == s.disk[f := Patch(s.disk[f], at, piece)]
    requires SameMarks(s, s') && s'.locks == s.locks
    ensures HandlerOk(c, s', d)
  {
    hide ChunkPlan.At, ChunkPlan.Valid, PlanFor, Below, Patch, HonestHeader, SourceChunk;
    if s.handlers[d].Writing? {
      var p := s.handlers[d].packet;
      HonestHeaderIsPlanned(c, p);
      if p.file == f {
        PatchKeepsAgreement(s.disk[f], c.sources[f], at, piece, p.spec.offset, p.spec.offset + s.handlers[d].written);
      }
    }
  }

  /** The next `n` payload bytes of a verified chunk are the source's at that place. */
  lemma PieceOfSource(c: Config, p: Packet, d: nat, n: nat)
    requires ValidPlans(Plans(c)) && HonestHeader(c, p) && p.payload == SourceChunk(c, p.file, p.spec.index)
    requires d + n <= |p.payload|
    ensures p.spec.offset + d + n <= |c.sources[p.file]|
    ensures p.payload[d..d + n] == c.sources[p.file][p.spec.offset + d..p.spec.offset + d + n]
  {
    hide ChunkPlan.At, ChunkPlan.Valid, DivCeil;
    ChunksAbut(Plans(c)[p.file], p.spec.index);
    var source := c.sources[p.file];
    assert p.spec.End() <= |source| && p.payload == source[p.spec.offset..p.spec.End()];
    SliceOfSlice(source, p.spec.offset, p.spec.End(), d, n);
  }

  lemma SliceOfSlice(data: Bytes, from: nat, to: nat, d: nat, n: nat)
    requires from <= to <= |data| && d + n <= to - from
    ensures data[from..to][d..d + n] == data[from + d..from + d + n]
  {
    assert data[from..to][d..] == data[from + d..to];
    assert data[from + d..to][..n] == data[from + d..from + d + n];
    assert data[from..to][d..][..n] == data[from..to][d..d + n];
  }

  lemma WritePieceKeeps(c: Config, s: State, h: nat, n: nat)
    requires ValidConfig(c) && Inv(c, s) && Enabled(c, s, WritePiece(h, n))
    ensures Inv(c, Apply(c, s, WritePiece(h, n)))
  {
    hide ChunkPlan.At, ChunkPlan.Valid, PlanFor, Below, HonestHeader, Patch, SourceChunk;
    assert HandlerOk(c, s, h);
    var p, d := s.handlers[h].packet, s.handlers[h].written;
    var f, at, piece := p.file, p.spec.offset + d, p.payload[d..d + n];
    HonestHeaderIsPlanned(c, p);
    PieceOfSource(c, p, d, n);
    var s' := DoWritePiece(s, h, n);
    assert FileOk(c, s, f);
    PatchKeepsAgreement(s.disk[f], c.sources[f], at, piece, p.spec.offset, at + n);
    assert HandlerOk(c, s', h);
    hide Agrees, ChunkOnDisk;
    WriteKeepsFiles(c, s, s', h, f, at, piece);
    forall e | 0 <= e < |s.handlers| && e != h
      ensures HandlerOk(c, s', e)
    {
      assert HandlerOk(c, s, e);
      WriteKeepsHandler(c, s, s', e, f, at, piece);
    }
    hide FileOk, HandlerOk;
    assert SumsOk(c, s') && PhaseOk(c, s') && TrafficOk(c, s');
  }

  lemma WriteKeepsFiles(c: Config, s: State, s': State, h: nat, f: nat, at: nat, piece: Bytes)
    requires ValidConfig(c) && Inv(c, s) && ShapeOk(c, s') && f < |c.sources|
    requires f !in s.lost && at + |piece| <= |c.sources[f]| && piece == c.sources[f][at..at + |piece|]
    requires s'.disk == s.disk[f := Patch(s.disk[f], at, piece)]
    requires SameMarks(s, s') && s'.locks == s.locks
    requires h < |s.handlers| == |s'.handlers| && s'.handlers == s.handlers[h := s'.handlers[h]]
              && !HoldsLock(s.handlers[h])
    ensures forall g | 0 <= g < |c.sources| :: FileOk(c, s', g)
  {
    hide ChunkPlan.At, ChunkPlan.Valid, PlanFor, Below, HonestHeader, Patch, Agrees, ChunkOnDisk;
    forall g | 0 <= g < |c.sources|
      ensures FileOk(c, s', g)
    {
      assert FileOk(c, s, g);
      if g == f {
        WriteKeepsFile(c, s, s', f, at, piece);
      }
    }
  }

  // ----- steps under a file's resume lock -----

  /** The lock of a file is held by one handler, so a handler at work on a file nobody else has locked, or that it has
      locked itself, leaves the others as they are. */
  lemma OthersKeep(c: Config, s: State, s': State, h: nat, f: nat)
    requires ValidPlans(Plans(c)) && ShapeOk(c, s) && ShapeOk(c, s') && f < |c.sources|
    requires forall d | 0 <= d < |s.handlers| :: HandlerOk(c, s, d)
    requires h < |s.handlers| == |s'.handlers| && s'.handlers == s.handlers[h := s'.handlers[h]]
    requires s'.disk == s.disk && s'.lost == s.lost && s.locks[f] in {None, Some(h)}
    requires forall g | 0 <= g < |c.sources| && g != f :: SameFile(s, s', g)
    ensures forall d | 0 <= d < |s.handlers| && d != h :: HandlerOk(c, s', d)
  {
    hide ChunkPlan.At, ChunkPlan.Valid, PlanFor, Below, HonestHeader, Agrees, SourceChunk;
    forall d | 0 <= d < |s.handlers| && d != h
      ensures HandlerOk(c, s', d)
    {
      assert HandlerOk(c, s, d);
      if HoldsLock(s.handlers[d]) {
        assert SameFile(s, s', s.handlers[d].file);
      }
    }
  }

  ghost predicate SameFile(s: State, s': State, g: nat)
    requires g < |s.locks| == |s.resume| == |s.recorded| == |s.counted| == |s.subtracted|
    requires g < |s'.locks| == |s'.resume| == |s'.recorded| == |s'.counted| == |s'.subtracted|
  {
    && s'.locks[g] == s.locks[g] && s'.resume[g] == s.resume[g] && s'.recorded[g] == s.recorded[g]
    && s'.counted[g] == s.counted[g] && s'.subtracted[g] == s.subtracted[g]
  }

  lemma OtherFilesKeep(c: Config, s: State, s': State, h: nat, f: nat)
    requires ValidPlans(Plans(c)) && ShapeOk(c, s) && ShapeOk(c, s') && f < |c.sources|
    requires forall g | 0 <= g < |c.sources| :: FileOk(c, s, g)
    requires h < |s.handlers| == |s'.handlers| && s'.handlers == s.handlers[h := s'.handlers[h]]
    requires HoldsLock(s.handlers[h]) ==> s.handlers[h].file == f
    requires s'.disk == s.disk && s'.lost == s.lost && s'.rowsCleared == s.rowsCleared
    requires forall g | 0 <= g < |c.sources| && g != f :: SameFile(s, s', g)
    ensures forall g | 0 <= g < |c.sources| && g != f :: FileOk(c, s', g)
  {
    hide ChunkPlan.At, ChunkPlan.Valid, PlanFor, Below, ChunkOnDisk;
    forall g | 0 <= g < |c.sources| && g != f
      ensures FileOk(c, s', g)
    {
      assert FileOk(c, s, g) && SameFile(s, s', g);
    }
  }

  /** A chunk written to the end is on disk. */
  lemma WrittenIsOnDisk(c: Config, s: State, h: nat)
    requires ValidConfig(c) && ShapeOk(c, s) && h < |s.handlers| && HandlerOk(c, s, h)
    requires s.handlers[h].Writing? && s.handlers[h].written == |s.handlers[h].packet.payload|
    ensures var p := s.handlers[h].packet;
            IsChunk(c, p.file, p.spec.index) && ChunkOnDisk(c, s.disk[p.file], p.file, p.spec.index)
  {
    hide ChunkPlan.At, ChunkPlan.Valid, PlanFor;
  }

  /** The marked file, once its new chunk is on disk. */
  lemma MarkKeepsFile(c: Config, s: State, s': State, h: nat, f: nat, k: nat)
    requires ValidConfig(c) && ShapeOk(c, s) && f < |c.sources| && FileOk(c, s, f) && h < |s.handlers|
    requires s.locks[f].None? && f !in s.lost && k !in s.resume[f]
    requires IsChunk(c, f, k) && ChunkOnDisk(c, s.disk[f], f, k)
    requires s' == SetHandler(s, h, Marked(f, k)).(resume := Mark(s.resume, f, k), locks := s.locks[f := Some(h)])
    ensures FileOk(c, s', f) && HandlerOk(c, s', h)
  {
    hide ChunkPlan.At, ChunkPlan.Valid, PlanFor, ChunkOnDisk;
  }

  lemma LockAndMarkKeeps(c: Config, s: State, h: nat)
    requires ValidConfig(c) && Inv(c, s) && Enabled(c, s, LockAndMark(h))
    ensures Inv(c, Apply(c, s, LockAndMark(h)))
  {
    hide ChunkPlan.At, ChunkPlan.Valid, PlanFor, SourceChunk, Agrees, Below;
    assert HandlerOk(c, s, h);
    var p := s.handlers[h].packet;
    var f, k := p.file, p.spec.index;
    HonestHeaderIsPlanned(c, p);
    WrittenIsOnDisk(c, s, h);
    hide HonestHeader, ChunkOnDisk;
    if k in s.resume[f] {
      MoveKeeps(c, s, h, Reading);
    } else {
      var s' := DoLockAndMark(s, h);
      MarkKeepsFile(c, s, s', h, f, k);
      hide FileOk, HandlerOk;
      OtherFilesKeep(c, s, s', h, f);
      OthersKeep(c, s, s', h, f);
      assert SumsOk(c, s') && PhaseOk(c, s') && TrafficOk(c, s');
    }
  }

  /** Once the rows are gone every chunk has been subtracted, so no handler is between mark and subtraction. */
  lemma LockMeansRows(c: Config, s: State, h: nat)
    requires ValidConfig(c) && Inv(c, s) && h < |s.handlers| && HoldsLock(s.handlers[h])
    ensures !s.rowsCleared && s.renamed == {} && !s.receiver.Finalizing?
    ensures var f, k := s.handlers[h].file, s.handlers[h].index;
            LockHeld(s, h, f, k) && IsChunk(c, f, k) && k !in s.subtracted[f]
  {
    hide ChunkPlan.At, ChunkPlan.Valid, PlanFor, HonestHeader, ChunkOnDisk, TrafficOk, SumsOk;
    assert HandlerOk(c, s, h);
    var f, k := s.handlers[h].file, s.handlers[h].index;
    assert FileOk(c, s, f);
    assert k in s.resume[f] && k in Below(Plans(c)[f].chunkCount);
    NotAllDone(Plans(c), s.subtracted, f, k);
  }

  lemma NotAllDone(plans: seq<ChunkPlan>, done: seq<set<nat>>, f: nat, k: nat)
    requires |done| == |plans| && f < |plans| && k in Below(plans[f].chunkCount) && k !in done[f]
    ensures !AllDone(plans, done)
  {
    assert done[f] != Below(plans[f].chunkCount);
  }

  lemma RecordRowKeeps(c: Config, s: State, h: nat)
    requires ValidConfig(c) && Inv(c, s) && Enabled(c, s, RecordRow(h))
    ensures Inv(c, Apply(c, s, RecordRow(h)))
  {
    hide ChunkPlan.At, ChunkPlan.Valid, PlanFor, HonestHeader, ChunkOnDisk, Agrees, Below;
    LockMeansRows(c, s, h);
    var f, k := s.handlers[h].file, s.handlers[h].index;
    var s' := DoRecordRow(s, h);
    assert HandlerOk(c, s, h) && FileOk(c, s, f);
    assert FileOk(c, s', f) && HandlerOk(c, s', h);
    OtherFilesKeep(c, s, s', h, f);
    OthersKeep(c, s, s', h, f);
    hide FileOk, HandlerOk;
    assert SumsOk(c, s') && PhaseOk(c, s') && TrafficOk(c, s');
  }

  lemma FileSetsFit(c: Config, s: State)
    requires ValidPlans(Plans(c)) && ShapeOk(c, s) && forall f | 0 <= f < |c.sources| :: FileOk(c, s, f)
    ensures Fits(Plans(c), s.counted) && Fits(Plans(c), s.subtracted) && Fits(Plans(c), s.resume)
  {
    hide ChunkPlan.Valid, Below, ChunkOnDisk;
    assert forall f | 0 <= f < |c.sources| ::
        FileOk(c, s, f) && s.counted[f] <= Below(Plans(c)[f].chunkCount)
          && s.subtracted[f] <= Below(Plans(c)[f].chunkCount)
        && s.resume[f] <= Below(Plans(c)[f].chunkCount);
  }

  /** Counting one more chunk neither saturates nor clamps. */
  lemma CountIsExact(plans: seq<ChunkPlan>, counted: seq<set<nat>>, f: nat, k: nat)
    requires ValidPlans(plans) && Fits(plans, counted) && TotalBytes(plans, 0) <= U64_MAX
    requires f < |plans| && k < plans[f].chunkCount && k !in counted[f]
    ensures AddProgress(DoneBytes(plans, counted, 0), plans[f].At(k).length, TotalBytes(plans, 0))
            == DoneBytes(plans, Mark(counted, f, k), 0)
  {
    hide ChunkPlan.At, ChunkPlan.Valid, PlanFor;
    MarkSums(plans, counted, f, k, 0);
    DoneBytesBounded(plans, Mark(counted, f, k), 0);
  }

  lemma CountBytesKeeps(c: Config, s: State, h: nat)
    requires ValidConfig(c) && Inv(c, s) && Enabled(c, s, CountBytes(h))
    ensures Inv(c, Apply(c, s, CountBytes(h)))
  {
    hide ChunkPlan.At, ChunkPlan.Valid, PlanFor, HonestHeader, ChunkOnDisk, Agrees, Below;
    LockMeansRows(c, s, h);
    var f, k := s.handlers[h].file, s.handlers[h].index;
    var s' := DoCountBytes(c, s, h);
    assert HandlerOk(c, s, h) && FileOk(c, s, f);
    FileSetsFit(c, s);
    CountIsExact(Plans(c), s.counted, f, k);
    assert FileOk(c, s', f) && HandlerOk(c, s', h);
    OtherFilesKeep(c, s, s', h, f);
    OthersKeep(c, s, s', h, f);
    hide FileOk, HandlerOk, AddProgress;
    assert SumsOk(c, s') && PhaseOk(c, s') && TrafficOk(c, s');
  }

  /** A chunk not yet subtracted is still part of what remains, so subtracting it does not wrap. */
  lemma SubtractIsExact(plans: seq<ChunkPlan>, subtracted: seq<set<nat>>, f: nat, k: nat)
    requires ValidPlans(plans) && Fits(plans, subtracted)
    requires f < |plans| && k < plans[f].chunkCount && k !in subtracted[f]
    ensures Remaining(plans, subtracted, 0) >= 1
    ensures Remaining(plans, Mark(subtracted, f, k), 0) == Remaining(plans, subtracted, 0) - 1
    ensures !AllDone(plans, subtracted)
  {
    hide ChunkPlan.At, ChunkPlan.Valid, PlanFor;
    MarkSums(plans, subtracted, f, k, 0);
    NothingRemains(plans, Mark(subtracted, f, k));
    assert subtracted[f] != Below(plans[f].chunkCount);
  }

  lemma SubtractKeeps(c: Config, s: State, h: nat)
    requires ValidConfig(c) && Inv(c, s) && Enabled(c, s, Subtract(h))
    ensures Inv(c, Apply(c, s, Subtract(h))) && s.remaining >= 1
  {
    hide ChunkPlan.At, ChunkPlan.Valid, PlanFor, HonestHeader, ChunkOnDisk, Agrees, Below, MayArrive, NoneActive,
         TotalBytes, NoSecondPreimage;
    LockMeansRows(c, s, h);
    var f, k := s.handlers[h].file, s.handlers[h].index;
    var s' := DoSubtract(s, h);
    assert HandlerOk(c, s, h) && FileOk(c, s, f);
    FileSetsFit(c, s);
    SubtractIsExact(Plans(c), s.subtracted, f, k);
    assert FileOk(c, s', f) && HandlerOk(c, s', h);
    OtherFilesKeep(c, s, s', h, f);
    OthersKeep(c, s, s', h, f);
    hide FileOk, HandlerOk;
    assert SumsOk(c, s') && PhaseOk(c, s') && TrafficOk(c, s');
  }

  lemma BreakKeeps(c: Config, s: State, h: nat)
    requires ValidConfig(c) && Inv(c, s) && Enabled(c, s, Break(h))
    ensures Inv(c, Apply(c, s, Break(h)))
  {
    hide ChunkPlan.At, ChunkPlan.Valid, PlanFor, HonestHeader, ChunkOnDisk, Agrees, Below, NoneActive;
    var s' := DoBreak(s, h);
    if HoldsLock(s.handlers[h]) {
      LockMeansRows(c, s, h);
      var f := s.handlers[h].file;
      assert HandlerOk(c, s, h) && FileOk(c, s, f);
      assert FileOk(c, s', f) && HandlerOk(c, s', h);
      OtherFilesKeep(c, s, s', h, f);
      OthersKeep(c, s, s', h, f);
      hide FileOk, HandlerOk;
      assert SumsOk(c, s') && PhaseOk(c, s') && TrafficOk(c, s');
    } else {
      hide FileOk, HandlerOk, SumsOk, TrafficOk, PhaseOk, EndHandler;
      EndKeeps(c, s, h, false);
      PhasesKeep(c, EndHandler(s, h, false), s');
    }
  }

  // ----- steps of the control loop -----

  /** The counter is zero only when every chunk of every file has been marked, recorded, counted and subtracted. */
  lemma ZeroMeansAllDone(c: Config, s: State)
    requires ValidConfig(c) && Inv(c, s)
    ensures s.remaining == 0 <==> AllDone(Plans(c), s.subtracted)
  {
    hide ChunkPlan.At, ChunkPlan.Valid, PlanFor, FileOk, HandlerOk, TrafficOk, PhaseOk, Remaining, DoneBytes, Below,
         AllDone;
    FileSetsFit(c, s);
    NothingRemains(Plans(c), s.subtracted);
  }

  lemma StartFinalizeKeeps(c: Config, s: State)
    requires ValidConfig(c) && Inv(c, s) && Enabled(c, s, StartFinalize)
    ensures Inv(c, Apply(c, s, StartFinalize))
  {
    ZeroMeansAllDone(c, s);
    hide FileOk, HandlerOk, TrafficOk, SumsOk, AllDone, ValidConfig;
    PhasesKeep(c, s, s.(receiver := Finalizing));
  }

  lemma FinalizingIsComplete(c: Config, s: State, f: nat)
    requires ValidConfig(c) && Inv(c, s) && s.receiver.Finalizing? && f < |c.sources|
    ensures Complete(c, s, f)
  {
    hide ChunkPlan.At, ChunkPlan.Valid, PlanFor, ChunkOnDisk, HandlerOk, TrafficOk, SumsOk, Below, HonestHeader, Agrees;
    assert FileOk(c, s, f) && s.subtracted[f] == Below(Plans(c)[f].chunkCount);
  }

  /** Once finalizing has started every file is complete: the incomplete branch of finalize cannot be taken. */
  lemma FinalizeNeverIncomplete(c: Config, s: State, f: nat)
    requires ValidConfig(c) && Inv(c, s)
    ensures !Enabled(c, s, FailIncomplete(f))
  {
    hide FileOk, HandlerOk, SumsOk, PhaseOk, TrafficOk, ValidPlans, Plans, PlanFor, Complete, NoSecondPreimage,
         TotalBytes, NoneActive, MayArrive, InPlan, IsChunk, Can;
    if s.receiver.Finalizing? && f < |c.sources| {
      FinalizingIsComplete(c, s, f);
    }
  }

  lemma ClearRowsKeeps(c: Config, s: State)
    requires ValidConfig(c) && Inv(c, s) && Enabled(c, s, ClearRows)
    ensures Inv(c, Apply(c, s, ClearRows))
  {
    hide ChunkPlan.At, ChunkPlan.Valid, PlanFor, Below, HonestHeader, ChunkOnDisk, Agrees;
    var s' := DoClearRows(s);
    forall f | 0 <= f < |c.sources|
      ensures FileOk(c, s', f)
    {
      assert FileOk(c, s, f);
    }
    forall h | 0 <= h < |s.handlers|
      ensures HandlerOk(c, s', h)
    {
      assert HandlerOk(c, s, h);
      if HoldsLock(s.handlers[h]) {
        LockMeansRows(c, s, h);
      }
    }
    hide FileOk, HandlerOk;
    assert SumsOk(c, s') && PhaseOk(c, s') && TrafficOk(c, s');
  }

  lemma RenameKeeps(c: Config, s: State, f: nat)
    requires ValidConfig(c) && Inv(c, s) && Enabled(c, s, Rename(f))
    ensures Inv(c, Apply(c, s, Rename(f)))
  {
    hide FileOk, HandlerOk, TrafficOk, SumsOk, AllDone, ValidConfig;
    PhasesKeep(c, s, s.(renamed := s.renamed + {f}));
  }

  /** The control loop waiting, being woken, and on its way to giving up. */
  predicate IsLoopStep(step: Step) {
    step.CheckCounter? || step.Subscribe? || step.HandleMessage? || step.Wake?
    || step.LoadRemaining? || step.LoadActive? || step.GiveUp?
  }

  lemma LoopStepKeeps(c: Config, s: State, step: Step)
    requires ValidConfig(c) && Inv(c, s) && Enabled(c, s, step) && IsLoopStep(step)
    ensures Inv(c, Apply(c, s, step))
  {
    hide FileOk, HandlerOk, TrafficOk, SumsOk, AllDone, ValidConfig, Below, NoneActive, EndHandler, DoSend, DoInspect,
         DoVerify, DoWritePiece, DoLockAndMark, DoRecordRow, DoCountBytes, DoSubtract, DoBreak, DoClearRows,
         DoNewSession;
    match step
    case CheckCounter => PhasesKeep(c, s, s.(receiver := Looked));
    case Subscribe => PhasesKeep(c, s, s.(receiver := Receiving));
    case HandleMessage => PhasesKeep(c, s, s.(receiver := Busy));
    case Wake => PhasesKeep(c, s, s.(receiver := Woken));
    case LoadRemaining => PhasesKeep(c, s, s.(receiver := SawRemaining));
    case LoadActive => PhasesKeep(c, s, s.(receiver := if NoneActive(s.handlers) then GivingUp else Busy));
    case GiveUp => PhasesKeep(c, s, s.(receiver := Stopped));
  }

  /** The remaining steps change only how far the receiver or the sender is. */
  predicate IsPhaseStep(step: Step) {
    step.CompleteReceiver? || step.SendResult? || step.StopReceiver?
    || step.AcceptResult? || step.StopSender?
  }

  lemma FinishKeeps(c: Config, s: State, step: Step)
    requires ValidConfig(c) && Inv(c, s) && Enabled(c, s, step) && (step.CompleteReceiver? || step.StopReceiver?)
    ensures Inv(c, Apply(c, s, step))
  {
    hide FileOk, HandlerOk, TrafficOk, SumsOk, AllDone, ValidConfig, Below, NoneActive, EndHandler, DoSend, DoInspect,
         DoVerify, DoWritePiece, DoLockAndMark, DoRecordRow, DoCountBytes, DoSubtract, DoBreak, DoClearRows,
         DoNewSession;
    PhasesKeep(c, s, s.(receiver := if step.CompleteReceiver? then Completed else Stopped));
  }

  lemma OutcomeKeeps(c: Config, s: State, step: Step)
    requires ValidConfig(c) && Inv(c, s) && Enabled(c, s, step)
    requires step.SendResult? || step.AcceptResult? || step.StopSender?
    ensures Inv(c, Apply(c, s, step))
  {
    hide FileOk, HandlerOk, TrafficOk, SumsOk, AllDone, ValidConfig, Below, NoneActive, EndHandler, DoSend, DoInspect,
         DoVerify, DoWritePiece, DoLockAndMark, DoRecordRow, DoCountBytes, DoSubtract, DoBreak, DoClearRows,
         DoNewSession;
    PhasesKeep(c, s, if step.SendResult? then s.(resultSent := true)
                     else s.(sender := if step.AcceptResult? then SenderCompleted else SenderStopped));
  }

  lemma PhaseStepKeeps(c: Config, s: State, step: Step)
    requires ValidConfig(c) && Inv(c, s) && Enabled(c, s, step) && IsPhaseStep(step)
    ensures Inv(c, Apply(c, s, step))
  {
    hide Inv, ValidConfig, Enabled, Apply;
    if step.CompleteReceiver? || step.StopReceiver? {
      FinishKeeps(c, s, step);
    } else {
      OutcomeKeeps(c, s, step);
    }
  }

  // ----- a new session -----

  /** What a session needs of the disk and the table it opens over. */
  ghost predicate Openable(c: Config, disk: seq<Bytes>, renamed: set<nat>, recorded: seq<set<nat>>, lost: set<nat>)
    requires ValidPlans(Plans(c))
  {
    && |disk| == |recorded| == |c.sources|
    && forall f | 0 <= f < |c.sources| :: OpenableFile(c, OpenedDisk(c, disk, renamed)[f], recorded[f], f, f in lost)
  }

  ghost predicate OpenableFile(c: Config, part: Bytes, rows: set<nat>, f: nat, isLost: bool)
    requires ValidPlans(Plans(c)) && f < |c.sources|
  {
    && rows <= Below(Plans(c)[f].chunkCount)
    && (!isLost ==> forall k | k in rows :: IsChunk(c, f, k) && ChunkOnDisk(c, part, f, k))
    && (isLost ==> part == Zeros(|c.sources[f]|) && rows == Below(Plans(c)[f].chunkCount))
  }

  lemma OpenSums(c: Config, resume: seq<set<nat>>)
    requires ValidConfig(c) && Fits(Plans(c), resume)
    ensures var plans := Plans(c);
            && Remaining(plans, resume, 0) >= 0
            && AddProgress(0, DoneBytes(plans, resume, 0), TotalBytes(plans, 0)) == DoneBytes(plans, resume, 0)
  {
    hide ChunkPlan.At, ChunkPlan.Valid, PlanFor;
    NothingRemains(Plans(c), resume);
    DoneBytesBounded(Plans(c), resume, 0);
  }

  lemma OpenTraffic(c: Config, disk: seq<Bytes>, renamed: set<nat>, recorded: seq<set<nat>>, lost: set<nat>)
    requires ValidConfig(c) && |disk| == |recorded| == |c.sources|
    ensures ShapeOk(c, Open(c, disk, renamed, recorded, lost)) && TrafficOk(c, Open(c, disk, renamed, recorded, lost))
  {
    hide ChunkPlan.At, ChunkPlan.Valid, PlanFor, Below, Remaining, DoneBytes, TotalBytes, JobBytes, StrictlyOrdered,
         MissingJobs, OpenedDisk, Known, ChannelCount, AddProgress;
    JobsExactly(Plans(c), Known(c, recorded), 0);
    var s := Open(c, disk, renamed, recorded, lost);
    forall i | 0 <= i < |s.pool.queue|
      ensures JobOk(c, s.pool.queue[i])
    {
      assert IsMissing(Plans(c), Known(c, recorded), s.pool.queue[i]);
    }
  }

  lemma KnownIsRecorded(c: Config, recorded: seq<set<nat>>)
    requires |recorded| == |c.sources|
    requires forall f | 0 <= f < |recorded| :: recorded[f] <= Below(Plans(c)[f].chunkCount)
    ensures Known(c, recorded) == recorded
  {
    hide PlanFor, Below;
    forall f | 0 <= f < |recorded|
      ensures Known(c, recorded)[f] == recorded[f]
    {
      assert recorded[f] * Below(Plans(c)[f].chunkCount) == recorded[f];
    }
  }

  lemma OpenFile(c: Config, disk: seq<Bytes>, renamed: set<nat>, recorded: seq<set<nat>>, lost: set<nat>, f: nat)
    requires ValidConfig(c) && Openable(c, disk, renamed, recorded, lost) && f < |c.sources|
    ensures recorded[f] <= Below(Plans(c)[f].chunkCount)
    ensures Known(c, recorded) == recorded ==>
              ShapeOk(c, Open(c, disk, renamed, recorded, lost)) && FileOk(c, Open(c, disk, renamed, recorded, lost), f)
  {
    hide ChunkPlan.At, ChunkPlan.Valid, PlanFor, MissingJobs, Remaining, DoneBytes, TotalBytes, JobBytes, ChunkOnDisk,
         OpenedDisk, Known, ChannelCount, AddProgress, Below, Start;
    assert OpenableFile(c, OpenedDisk(c, disk, renamed)[f], recorded[f], f, f in lost);
    OpenTraffic(c, disk, renamed, recorded, lost);
  }

  lemma OpenKeeps(c: Config, disk: seq<Bytes>, renamed: set<nat>, recorded: seq<set<nat>>, lost: set<nat>)
    requires ValidConfig(c) && Openable(c, disk, renamed, recorded, lost)
    ensures Inv(c, Open(c, disk, renamed, recorded, lost))
  {
    hide ChunkPlan.At, ChunkPlan.Valid, PlanFor, MissingJobs, Remaining, DoneBytes, TotalBytes, JobBytes, TrafficOk,
         OpenedDisk, Known, ChannelCount, AddProgress, Below, Start, FileOk, OpenableFile;
    OpenTraffic(c, disk, renamed, recorded, lost);
    forall f | 0 <= f < |c.sources|
      ensures recorded[f] <= Below(Plans(c)[f].chunkCount)
    {
      OpenFile(c, disk, renamed, recorded, lost, f);
    }
    KnownIsRecorded(c, recorded);
    forall f | 0 <= f < |c.sources|
      ensures FileOk(c, Open(c, disk, renamed, recorded, lost), f)
    {
      OpenFile(c, disk, renamed, recorded, lost, f);
    }
    FileSetsFit(c, Open(c, disk, renamed, recorded, lost));
    OpenSums(c, recorded);
  }

  /** A part file kept at the right size is opened as it is; a renamed one comes back as zeros. */
  lemma ReopenedFile(c: Config, s: State, f: nat, isLost: bool)
    requires ValidConfig(c) && Inv(c, s) && f < |c.sources|
    requires isLost == (!s.rowsCleared && (f in s.lost || f in s.renamed))
    ensures OpenableFile(c, OpenedDisk(c, s.disk, s.renamed)[f], s.recorded[f], f, isLost)
  {
    hide ChunkPlan.At, ChunkPlan.Valid, PlanFor, ChunkOnDisk, HandlerOk, TrafficOk, SumsOk, Resized, Zeros, Below,
         NoSecondPreimage, TotalBytes;
    assert FileOk(c, s, f);
    var part := OpenedDisk(c, s.disk, s.renamed)[f];
    ResizedKeeps(s.disk[f]);
    ResizedFromNothing(|c.sources[f]|);
    if f in s.renamed {
      assert s.subtracted[f] == Below(Plans(c)[f].chunkCount);
      assert part == Zeros(|c.sources[f]|);
    } else {
      assert part == s.disk[f];
    }
  }

  lemma NewSessionKeeps(c: Config, s: State)
    requires ValidConfig(c) && Inv(c, s) && Enabled(c, s, NewSession)
    ensures Inv(c, Apply(c, s, NewSession))
  {
    hide ChunkPlan.At, ChunkPlan.Valid, PlanFor, FileOk, HandlerOk, TrafficOk, SumsOk, OpenableFile;
    var lost := if s.rowsCleared then {} else s.lost + s.renamed;
    forall f | 0 <= f < |c.sources|
      ensures OpenableFile(c, OpenedDisk(c, s.disk, s.renamed)[f], s.recorded[f], f, f in lost)
    {
      ReopenedFile(c, s, f, f in lost);
    }
    OpenKeeps(c, s.disk, s.renamed, s.recorded, lost);
  }

  lemma InitialHolds(c: Config, junk: seq<Bytes>)
    requires ValidConfig(c) && |junk| == |c.sources|
    ensures Inv(c, Initial(c, junk))
  {
    OpenKeeps(c, junk, {}, seq(|junk|, _ => {}), {});
  }

  // ----- every step, every run -----

  lemma StepKeeps(c: Config, s: State, step: Step)
    requires ValidPlans(Plans(c)) && ValidConfig(c) && ShapeOk(c, s) && Inv(c, s) && Enabled(c, s, step)
    ensures Inv(c, Apply(c, s, step))
  {
    hide Inv, ValidConfig, Enabled, Apply;
    match step
    case NewSession => NewSessionKeeps(c, s);
    case Send(h, work) => SendKeeps(c, s, h, work);
    case Attach(h) => AttachKeeps(c, s, h);
    case Receive(h) => ReceiveKeeps(c, s, h);
    case Inspect(h) => InspectKeeps(c, s, h);
    case Verify(h) => VerifyKeeps(c, s, h);
    case WritePiece(h, n) => WritePieceKeeps(c, s, h, n);
    case LockAndMark(h) => LockAndMarkKeeps(c, s, h);
    case RecordRow(h) => RecordRowKeeps(c, s, h);
    case CountBytes(h) => CountBytesKeeps(c, s, h);
    case Subtract(h) => SubtractKeeps(c, s, h);
    case EndOfStream(h) => EndOfStreamKeeps(c, s, h);
    case Break(h) => BreakKeeps(c, s, h);
    case Tamper(h, packets) => TamperKeeps(c, s, h, packets);
    case StartFinalize => StartFinalizeKeeps(c, s);
    case FailIncomplete(f) => FinalizeNeverIncomplete(c, s, f);
    case Rename(f) => RenameKeeps(c, s, f);
    case ClearRows => ClearRowsKeeps(c, s);
    case CheckCounter => LoopStepKeeps(c, s, step);
    case Subscribe => LoopStepKeeps(c, s, step);
    case HandleMessage => LoopStepKeeps(c, s, step);
    case Wake => LoopStepKeeps(c, s, step);
    case LoadRemaining => LoopStepKeeps(c, s, step);
    case LoadActive => LoopStepKeeps(c, s, step);
    case GiveUp => LoopStepKeeps(c, s, step);
    case _ => PhaseStepKeeps(c, s, step);
  }

  lemma AttachKeeps(c: Config, s: State, h: nat)
    requires ValidConfig(c) && Inv(c, s) && Enabled(c, s, Attach(h))
    ensures Inv(c, Apply(c, s, Attach(h)))
  {
    MoveKeeps(c, s, h, Reading);
  }

  lemma EndOfStreamKeeps(c: Config, s: State, h: nat)
    requires ValidConfig(c) && Inv(c, s) && Enabled(c, s, EndOfStream(h))
    ensures Inv(c, Apply(c, s, EndOfStream(h)))
  {
    hide EndHandler;
    EndKeeps(c, s, h, true);
  }

  lemma TamperKeeps(c: Config, s: State, h: nat, packets: seq<Packet>)
    requires ValidConfig(c) && Inv(c, s) && Enabled(c, s, Tamper(h, packets))
    ensures Inv(c, Apply(c, s, Tamper(h, packets)))
  {
    StreamsKeep(c, s, h, packets, false);
  }

  /** The invariant holds after every run: any interleaving, any number of sessions, any failures on the way. */
  lemma {:induction false} RunKeepsInv(c: Config, junk: seq<Bytes>, steps: seq<Step>)
    requires ValidPlans(Plans(c)) && ValidConfig(c) && |junk| == |c.sources| && After(c, junk, steps).Some?
    ensures Inv(c, After(c, junk, steps).value)
    decreases |steps|
  {
    hide Inv, Enabled, Apply, Initial, ValidConfig;
    if steps == [] {
      InitialHolds(c, junk);
    } else {
      RunKeepsInv(c, junk, steps[..|steps| - 1]);
      StepKeeps(c, After(c, junk, steps[..|steps| - 1]).value, steps[|steps| - 1]);
    }
  }
}
