/** Concrete runs, each showing that a condition in `SessionTheorems` cannot be dropped. */
module SessionWitnesses {
  import opened Wrappers
  import opened Chunks
  import opened Storage
  import opened Jobs
  import opened WorkQueue
  import opened Session
  import opened SessionSafety
  import opened SessionProgress
  import opened SessionTheorems
  import opened SessionGivingUp
  import opened SessionWaking

  lemma Advance(c: Config, junk: seq<Bytes>, steps: seq<Step>, s: State, step: Step, next: State)
    requires Reaches(c, junk, steps, s) && ValidPlans(Plans(c)) && ShapeOk(c, s)
    requires Enabled(c, s, step) && Apply(c, s, step) == next
    ensures Reaches(c, junk, steps + [step], next)
  {
    hide Enabled, Apply, ValidConfig, Plans, ValidPlans;
    var longer := steps + [step];
    assert longer[..|longer| - 1] == steps;
  }

  // ----- one file of one byte -----

  function One(): Config {
    Config([[7]], (b: Bytes) => b)
  }

  const ONLY_CHUNK: ChunkSpec := ChunkSpec(0, 0, 1)
  const ONLY_JOB: ChunkJob := ChunkJob(0, ONLY_CHUNK)
  const ONLY_PACKET: Packet := Packet(0, ONLY_CHUNK, [7], [7])

  lemma OnePlan()
    ensures Plans(One()) == [ChunkPlan(1, DEFAULT_CHUNK_SIZE, 1)]
    ensures ValidPlans(Plans(One())) && Plans(One())[0].At(0) == ONLY_CHUNK && TotalBytes(Plans(One()), 0) == 1
    ensures ValidConfig(One())
    ensures forall f: nat, k: nat :: IsChunk(One(), f, k) <==> f == 0 && k == 0
    ensures SourceChunk(One(), 0, 0) == [7] && Below(1) == {0}
  {
    assert DivCeil(1, DEFAULT_CHUNK_SIZE) == 1;
    assert Plans(One())[0] == PlanFor([7]);
    assert TotalBytes(Plans(One()), 1) == 0;
  }

  /** The state the first session starts in, over an empty part file. */
  function Start1(): State {
    State(Sending, Pool([ONLY_JOB], [Channel(Top, None, [])]), 0, [[]], false,
          Busy, [Detached], [{}], [None], 1, 0, [[0]], {}, [{}], false, {}, [{}], [{}], true)
  }

  const NONE_DONE: seq<set<nat>> := [{}]

  lemma OneJob()
    ensures ValidPlans(Plans(One())) && MissingJobs(Plans(One()), NONE_DONE, 0) == [ONLY_JOB]
  {
    OnePlan();
    var plans := Plans(One());
    hide Plans, ChunkPlan.Valid, ChunkPlan.At;
    assert MissingFrom(plans[0], {}, 1) == [];
    assert MissingFrom(plans[0], {}, 0) == [ONLY_CHUNK];
    assert Tag(0, [ONLY_CHUNK]) == [ONLY_JOB];
    assert MissingJobs(plans, NONE_DONE, 1) == [];
  }

  lemma OneSums()
    ensures ValidPlans(Plans(One())) && JobBytes([ONLY_JOB]) == 1
    ensures Remaining(Plans(One()), NONE_DONE, 0) == 1 && DoneBytes(Plans(One()), NONE_DONE, 0) == 0
  {
    OnePlan();
    var plans := Plans(One());
    hide Plans, ChunkPlan.Valid, ChunkPlan.At;
    assert JobBytes([]) == 0 && [ONLY_JOB][1..] == [];
    assert Remaining(plans, NONE_DONE, 1) == 0;
    assert DoneBytes(plans, NONE_DONE, 1) == 0 && BytesFrom(plans[0], {}, 1) == 0;
  }

  lemma InitialIsStart1()
    ensures ValidPlans(Plans(One())) && Initial(One(), [[]]) == Start1()
  {
    OnePlan();
    OneJob();
    OneSums();
    hide MissingJobs, MissingFrom, Remaining, DoneBytes, JobBytes, TotalBytes, ChunkPlan.At, ChunkPlan.Valid, Plans,
         Below;
    assert Known(One(), NONE_DONE)[0] == {};
    assert Known(One(), NONE_DONE) == NONE_DONE;
    assert OpenedDisk(One(), [[]], {}) == [[0]] by {
      assert Resized([], 1) == [0];
    }
    hide Known, OpenedDisk, Resized;
    var s := Open(One(), [[]], {}, NONE_DONE, {});
    assert s.handlers == [Detached] && s.streams == [[]] && s.locks == [None];
    assert s.pool == Start1().pool;
    assert s == Start1();
    var rows: seq<set<nat>> := seq(1, _ => {});
    assert rows == NONE_DONE;
  }

  /** The chunk has been written to the channel, and its sender has not yet reported it. */
  function Sent1(): State {
    Start1().(pool := Pool([], [Channel(Accounting(ONLY_JOB), None, [ONLY_JOB])]), streams := [[ONLY_PACKET]])
  }

  lemma SendIt() returns (steps: seq<Step>)
    ensures Reaches(One(), [[]], steps, Sent1())
  {
    InitialIsStart1();
    OnePlan();
    hide Plans, ChunkPlan.At, ChunkPlan.Valid, TotalBytes, ValidConfig, Reaches, After, Initial, SourceChunk;
    var s0 := Start1();
    assert Reaches(One(), [[]], [], s0) by {
      ReachesInitial(One(), [[]]);
    }
    var s1 := s0.(pool := Pool([], [Channel(Holding(ONLY_JOB), None, [])]));
    Advance(One(), [[]], [], s0, Send(0, Pop), s1);
    var s2 := s0.(pool := Pool([], [Channel(Ready(ONLY_JOB), None, [])]));
    Advance(One(), [[]], [] + [Send(0, Pop)], s1, Send(0, Prefetch), s2);
    assert PacketFor(One(), ONLY_JOB) == ONLY_PACKET && s2.streams[0] + [ONLY_PACKET] == [ONLY_PACKET];
    assert [] + [ONLY_JOB] == [ONLY_JOB];
    Advance(One(), [[]], [] + [Send(0, Pop)] + [Send(0, Prefetch)], s2, Send(0, Write), Sent1());
    steps := [] + [Send(0, Pop)] + [Send(0, Prefetch)] + [Send(0, Write)];
  }

  lemma ReachesInitial(c: Config, junk: seq<Bytes>)
    requires ValidConfig(c) && |junk| == |c.sources|
    ensures Reaches(c, junk, [], Initial(c, junk))
  {
    hide Initial, ValidConfig;
  }

  /** The handler is about to write the verified chunk. */
  function Verified1(): State {
    Sent1().(streams := [[]], handlers := [Writing(ONLY_PACKET, 0)])
  }

  lemma ReceiveIt() returns (steps: seq<Step>)
    ensures Reaches(One(), [[]], steps, Verified1())
  {
    OnePlan();
    var sent := SendIt();
    hide Plans, ChunkPlan.At, ChunkPlan.Valid, TotalBytes, ValidConfig, Reaches, After, Initial, SourceChunk;
    var s0 := Sent1();
    var s1 := s0.(handlers := [Reading]);
    Advance(One(), [[]], sent, s0, Attach(0), s1);
    var s2 := s0.(handlers := [Got(ONLY_PACKET)], streams := [[]]);
    assert s1.streams[0][1..] == [];
    Advance(One(), [[]], sent + [Attach(0)], s1, Receive(0), s2);
    var s3 := s2.(handlers := [Checked(ONLY_PACKET)]);
    Advance(One(), [[]], sent + [Attach(0)] + [Receive(0)], s2, Inspect(0), s3);
    Advance(One(), [[]], sent + [Attach(0)] + [Receive(0)] + [Inspect(0)], s3, Verify(0), Verified1());
    steps := sent + [Attach(0)] + [Receive(0)] + [Inspect(0)] + [Verify(0)];
  }

  /** The chunk is on disk and marked; its handler holds the lock. */
  function Marked1(): State {
    Verified1().(handlers := [Marked(0, 0)], disk := [[7]], resume := [{0}], locks := [Some(0)])
  }

  lemma OnePatch(p: Packet)
    requires p == ONLY_PACKET
    ensures Patch([0], 0, p.payload[0..1]) == [7]
  {
    assert p.payload[0..1] == [7];
    PatchBytes([0], 0, [7], 0);
  }

  lemma WriteStep(s: State, p: Packet)
    requires s == Verified1() && p == ONLY_PACKET
    ensures DoWritePiece(s, 0, 1) == s.(handlers := [Writing(p, 1)], disk := [[7]])
  {
    OnePatch(p);
    hide Patch;
  }

  lemma WriteIt() returns (steps: seq<Step>)
    ensures Reaches(One(), [[]], steps, Verified1().(handlers := [Writing(ONLY_PACKET, 1)], disk := [[7]]))
  {
    hide Reaches, After, Initial, SourceChunk, DoWritePiece;
    OnePlan();
    hide Plans, ChunkPlan.At, ChunkPlan.Valid, TotalBytes, ValidConfig;
    var received := ReceiveIt();
    var s0 := Verified1();
    WriteStep(s0, ONLY_PACKET);
    Advance(One(), [[]], received, s0, WritePiece(0, 1), DoWritePiece(s0, 0, 1));
    steps := received + [WritePiece(0, 1)];
  }

  lemma MarkIt() returns (steps: seq<Step>)
    ensures Reaches(One(), [[]], steps, Marked1())
  {
    OnePlan();
    var written := WriteIt();
    hide Plans, ChunkPlan.At, ChunkPlan.Valid, TotalBytes, ValidConfig, Reaches, After, Initial, SourceChunk;
    assert Mark(NONE_DONE, 0, 0) == [{0}];
    hide Mark;
    var s1 := Verified1().(handlers := [Writing(ONLY_PACKET, 1)], disk := [[7]]);
    assert DoLockAndMark(s1, 0) == Marked1();
    Advance(One(), [[]], written, s1, LockAndMark(0), Marked1());
    steps := written + [LockAndMark(0)];
  }

  /** Everything has arrived; nothing remains. */
  function Filled1(): State {
    Marked1().(handlers := [Reading], locks := [None], recorded := [{0}], counted := [{0}], subtracted := [{0}],
               receiverBytes := 1, remaining := 0)
  }

  /** A marked chunk is recorded, counted and taken off the counter, which the loop is not waiting for. */
  lemma FillIt(before: seq<Step>, phase: ReceiverPhase) returns (steps: seq<Step>)
    requires Reaches(One(), [[]], before, Marked1().(receiver := phase)) && !phase.Receiving?
    ensures Reaches(One(), [[]], steps, Filled1().(receiver := phase))
  {
    OnePlan();
    hide Plans, ChunkPlan.At, ChunkPlan.Valid, TotalBytes, ValidConfig, Reaches, After, Initial, SourceChunk;
    assert Mark(NONE_DONE, 0, 0) == [{0}];
    hide Mark;
    var s0 := Marked1().(receiver := phase);
    var s1 := s0.(handlers := [Recorded(0, 0)], recorded := [{0}]);
    Advance(One(), [[]], before, s0, RecordRow(0), s1);
    var s2 := s1.(handlers := [Counted(0, 0)], counted := [{0}], receiverBytes := 1);
    Advance(One(), [[]], before + [RecordRow(0)], s1, CountBytes(0), s2);
    Advance(One(), [[]], before + [RecordRow(0)] + [CountBytes(0)], s2, Subtract(0), Filled1().(receiver := phase));
    steps := before + [RecordRow(0)] + [CountBytes(0)] + [Subtract(0)];
  }

  lemma FillBusy() returns (steps: seq<Step>)
    ensures Reaches(One(), [[]], steps, Filled1())
  {
    hide Reaches, Plans, ValidPlans, ValidConfig, SourceChunk;
    var marked := MarkIt();
    assert Marked1().(receiver := Busy) == Marked1();
    steps := FillIt(marked, Busy);
    assert Filled1().(receiver := Busy) == Filled1();
  }

  /** From a renamed file on, finalizing ends with the sender completed. */
  lemma FinishIt(from: seq<Step>, s: State) returns (steps: seq<Step>, end: State)
    requires Reaches(One(), [[]], from, s) && ShapeOk(One(), s)
    requires s.receiver.Finalizing? && s.renamed == {0} && s.sender.Sending?
    ensures Reaches(One(), [[]], steps, end) && end.sender.SenderCompleted?
    ensures end.disk == s.disk && end.senderBytes == s.senderBytes && end.clean == s.clean
  {
    OnePlan();
    hide Plans, ChunkPlan.At, ChunkPlan.Valid, TotalBytes, ValidConfig, Reaches, After, Initial, SourceChunk;
    var s1 := DoClearRows(s);
    Advance(One(), [[]], from, s, ClearRows, s1);
    var s2 := s1.(receiver := Completed);
    Advance(One(), [[]], from + [ClearRows], s1, CompleteReceiver, s2);
    var s3 := s2.(resultSent := true);
    Advance(One(), [[]], from + [ClearRows] + [CompleteReceiver], s2, SendResult, s3);
    end := s3.(sender := SenderCompleted);
    Advance(One(), [[]], from + [ClearRows] + [CompleteReceiver] + [SendResult], s3, AcceptResult, end);
    steps := from + [ClearRows] + [CompleteReceiver] + [SendResult] + [AcceptResult];
  }

  lemma RenameIt(from: seq<Step>, s: State) returns (steps: seq<Step>)
    requires Reaches(One(), [[]], from, s) && ShapeOk(One(), s)
    requires s.receiver.Busy? && s.remaining == 0 && s.renamed == {} && s.resume == [{0}] && s.locks == [None]
    ensures Reaches(One(), [[]], steps, s.(receiver := Finalizing, renamed := {0}))
  {
    OnePlan();
    hide Plans, ChunkPlan.At, ChunkPlan.Valid, TotalBytes, ValidConfig, Reaches, After, Initial, SourceChunk;
    var s1 := s.(receiver := Finalizing);
    Advance(One(), [[]], from, s, StartFinalize, s1);
    assert {} + {0} == {0};
    Advance(One(), [[]], from + [StartFinalize], s1, Rename(0), s1.(renamed := {0}));
    steps := from + [StartFinalize] + [Rename(0)];
  }

  /** An error-free run can end with the sender completed and its own progress short of the total: the result may
      arrive before the last chunk is reported. */
  lemma SenderMayEndShort() returns (steps: seq<Step>, end: State)
    ensures Reaches(One(), [[]], steps, end) && end.clean && end.sender.SenderCompleted?
    ensures end.senderBytes == 0 < TotalBytes(Plans(One()), 0)
  {
    hide Reaches, Plans, TotalBytes, ValidConfig, ValidPlans, SourceChunk;
    OnePlan();
    var filled := FillBusy();
    var renamed := RenameIt(filled, Filled1());
    steps, end := FinishIt(renamed, Filled1().(receiver := Finalizing, renamed := {0}));
  }

  lemma NothingMissing1(job: ChunkJob)
    ensures ValidPlans(Plans(One())) && !IsMissing(Plans(One()), [{0}], job)
  {
    OnePlan();
    hide Plans, ChunkPlan.At, ChunkPlan.Valid, TotalBytes;
  }

  /** A session opened after the rename and before the rows were cleared has nothing to send and an empty part file. */
  lemma Reopened1(steps: seq<Step>, s: State)
    requires s == Filled1().(receiver := Finalizing, renamed := {0}) && Reaches(One(), [[]], steps, s)
    ensures ValidPlans(Plans(One())) && ShapeOk(One(), s) && ShapeOk(One(), DoNewSession(One(), s))
    ensures var s' := DoNewSession(One(), s);
            && s'.sender.Sending? && s'.receiver.Busy? && s'.remaining == 0 && s'.renamed == {}
            && s'.resume == [{0}] && s'.locks == [None] && s'.disk == [[0]]
  {
    hide Reaches, After, Initial, SourceChunk, ValidConfig, IsMissing, Plans, ValidPlans, StrictlyOrdered, JobBytes,
         TotalBytes, MissingJobs, Remaining, DoneBytes, Known, Below, ChannelCount, AddProgress;
    SessionResumes(One(), [[]], steps, s);
    var s' := DoNewSession(One(), s);
    if |s'.pool.queue| > 0 {
      NothingMissing1(s'.pool.queue[0]);
    }
    assert s'.disk[0] == Resized([], 1) == [0];
  }

  /** Retrying a transfer whose finalize was cut off between the rename and the clearing of the rows makes the sender
      report completion while the delivered file holds zeros. */
  lemma RetryAfterHalfFinalizeDeliversZeros() returns (steps: seq<Step>, end: State)
    ensures Reaches(One(), [[]], steps, end) && end.sender.SenderCompleted?
    ensures end.disk == [[0]] && One().sources == [[7]]
  {
    hide Reaches, After, Initial, SourceChunk, Plans, ValidPlans, ValidConfig, DoNewSession;
    var filled := FillBusy();
    var half := Filled1().(receiver := Finalizing, renamed := {0});
    var renamed := RenameIt(filled, Filled1());
    Reopened1(renamed, half);
    var again := DoNewSession(One(), half);
    Advance(One(), [[]], renamed, half, NewSession, again);
    var renamed2 := RenameIt(renamed + [NewSession], again);
    steps, end := FinishIt(renamed2, again.(receiver := Finalizing, renamed := {0}));
  }

  // ----- two files, two channels -----

  function Two(): Config {
    Config([[7], [8]], (b: Bytes) => b)
  }

  lemma TwoPlans()
    ensures ValidConfig(Two()) && ValidPlans(Plans(Two()))
    ensures Remaining(Plans(Two()), [{}, {}], 0) == 2
    ensures |Plans(Two())| == 2 && Plans(Two())[0].chunkCount == Plans(Two())[1].chunkCount == 1
  {
    assert DivCeil(1, DEFAULT_CHUNK_SIZE) == 1;
    var plans := Plans(Two());
    assert plans[0] == PlanFor([7]) && plans[1] == PlanFor([8]);
    assert TotalBytes(plans, 2) == 0 && TotalBytes(plans, 1) == 1 && TotalBytes(plans, 0) == 2;
    assert Remaining(plans, [{}, {}], 2) == 0 && Remaining(plans, [{}, {}], 1) == 1;
  }

  function NoRows2(): seq<set<nat>> {
    seq(2, _ => {})
  }

  lemma Opened2(s: State)
    requires ValidPlans(Plans(Two())) && s == Open(Two(), [[], []], {}, NoRows2(), {})
    ensures |s.pool.queue| == s.remaining == 2
    ensures |s.handlers| == 2
    ensures s.resume == [{}, {}] && s.locks == [None, None]
    ensures StrictlyOrdered(s.pool.queue) && forall i | 0 <= i < 2 :: IsMissing(Plans(Two()), [{}, {}], s.pool.queue[i])
  {
    hide Plans, ValidPlans, ValidConfig, MissingJobs, Remaining, DoneBytes, JobBytes, TotalBytes, StrictlyOrdered,
         IsMissing, OpenedDisk, Below, AddProgress;
    TwoPlans();
    var rows := NoRows2();
    assert rows == [{}, {}];
    assert Known(Two(), rows)[0] == {} && Known(Two(), rows)[1] == {};
    assert Known(Two(), rows) == rows;
    hide Known;
    OpenedJobs(Two(), [[], []], {}, rows, {});
  }

  /** The two jobs: the only chunk of each file, and both are planned. */
  predicate OneOfEach(a: ChunkJob, b: ChunkJob) {
    ValidPlans(Plans(Two())) && JobOk(Two(), a) && JobOk(Two(), b)
    && a.entryIndex == 0 && b.entryIndex == 1 && a.spec.index == b.spec.index == 0
  }

  lemma MissingIsOneOfEach(queue: seq<ChunkJob>)
    requires ValidPlans(Plans(Two())) && |queue| == 2 && StrictlyOrdered(queue)
    requires forall i | 0 <= i < 2 :: IsMissing(Plans(Two()), [{}, {}], queue[i])
    ensures OneOfEach(queue[0], queue[1])
  {
    TwoPlans();
    hide Plans, ChunkPlan.Valid, ChunkPlan.At;
    assert Precedes(queue[0], queue[1]);
    assert IsMissing(Plans(Two()), [{}, {}], queue[0]) && IsMissing(Plans(Two()), [{}, {}], queue[1]);
  }

  /** Two idle channels, two jobs, nobody connected. */
  ghost predicate Fresh2(s: State) {
    && s.sender.Sending? && s.receiver.Busy? && s.clean && |s.pool.queue| == s.remaining == 2
    && s.pool.channels == [Channel(Top, None, []), Channel(Top, None, [])]
    && s.streams == [[], []] && s.handlers == [Detached, Detached]
    && s.resume == [{}, {}] && s.locks == [None, None] && OneOfEach(s.pool.queue[0], s.pool.queue[1])
    && |s.resume| == |s.locks| == |s.disk| == |s.recorded| == |s.counted| == |s.subtracted| == 2
  }

  lemma OpenIt2() returns (s: State)
    ensures Reaches(Two(), [[], []], [], s) && Fresh2(s) && ValidPlans(Plans(Two()))
  {
    hide ValidConfig, Reaches, After, Plans, ValidPlans, MissingJobs, Remaining, DoneBytes, JobBytes, TotalBytes,
         OpenedDisk, Known, AddProgress, ChannelCount;
    TwoPlans();
    s := Initial(Two(), [[], []]);
    ReachesInitial(Two(), [[], []]);
    assert s == Open(Two(), [[], []], {}, NoRows2(), {});
    Opened2(s);
    MissingIsOneOfEach(s.pool.queue);
  }

  /** The second channel has taken both jobs, one in hand and one in its slot, and the first has found nothing and
      left. */
  ghost predicate BothTaken2(s: State, phase: ReceiverPhase) {
    && ValidPlans(Plans(Two())) && ShapeOk(Two(), s) && s.receiver == phase && s.clean
    && s.remaining == 2 && s.sender.Sending? && |s.pool.channels| == 2 && s.pool.queue == []
    && s.pool.channels[0].phase.Exited? && s.streams == [[], []] && s.handlers == [Detached, Detached]
    && s.resume == [{}, {}] && s.locks == [None, None]
    && var ch := s.pool.channels[1];
       ch.phase.Ready? && ch.prefetched.Some? && OneOfEach(ch.phase.job, ch.prefetched.value)
  }

  predicate NeverWaits(steps: seq<Step>) {
    forall step | step in steps :: !step.Subscribe?
  }

  lemma TakeBoth2() returns (steps: seq<Step>, end: State)
    ensures Reaches(Two(), [[], []], steps, end) && BothTaken2(end, Busy) && NeverWaits(steps)
  {
    hide ValidConfig, Reaches, After, Initial, Plans, ValidPlans, OneOfEach;
    var s0 := OpenIt2();
    var q, idle, junk := s0.pool.queue, Channel(Top, None, []), [[], []];
    var s1 := s0.(pool := Pool(q[1..], [idle, Channel(Holding(q[0]), None, [])]));
    Advance(Two(), junk, [], s0, Send(1, Pop), s1);
    var busy := Channel(Ready(q[0]), Some(q[1]), []);
    var s2 := s0.(pool := Pool([], [idle, busy]));
    assert q[1..][1..] == [];
    Advance(Two(), junk, [] + [Send(1, Pop)], s1, Send(1, Prefetch), s2);
    end := s0.(pool := Pool([], [Channel(Exited, None, []), busy]));
    Advance(Two(), junk, [] + [Send(1, Pop)] + [Send(1, Prefetch)], s2, Send(0, Leave), end);
    steps := [] + [Send(1, Pop)] + [Send(1, Prefetch)] + [Send(0, Leave)];
  }

  // ----- one packet through its handler -----

  /** From the stream to just before the first write. */
  lemma TakeIn(c: Config, junk: seq<Bytes>, steps: seq<Step>, s: State, h: nat, p: Packet)
    returns (more: seq<Step>, end: State)
    requires Reaches(c, junk, steps, s) && ValidPlans(Plans(c)) && ShapeOk(c, s) && Genuine(c, p)
    requires h < |s.handlers| && s.handlers[h].Reading? && s.streams[h] != [] && s.streams[h][0] == p
    requires p.file < |c.sources| && p.spec.index !in s.resume[p.file] && s.locks[p.file].None?
    ensures Reaches(c, junk, more, end)
    ensures end == s.(handlers := s.handlers[h := Writing(p, 0)], streams := s.streams[h := s.streams[h][1..]])
  {
    GenuinePasses(c, p);
    hide Genuine, Plans, ValidPlans, ValidConfig, Reaches, ChunkPlan.Chunk, VerifyChunk;
    var s1 := s.(handlers := s.handlers[h := Got(p)], streams := s.streams[h := s.streams[h][1..]]);
    Advance(c, junk, steps, s, Receive(h), s1);
    var s2 := s1.(handlers := s.handlers[h := Checked(p)]);
    Advance(c, junk, steps + [Receive(h)], s1, Inspect(h), s2);
    end := s1.(handlers := s.handlers[h := Writing(p, 0)]);
    Advance(c, junk, steps + [Receive(h)] + [Inspect(h)], s2, Verify(h), end);
    more := steps + [Receive(h)] + [Inspect(h)] + [Verify(h)];
  }

  /** The whole payload in one write, then the mark. */
  lemma WriteOut(c: Config, junk: seq<Bytes>, steps: seq<Step>, s: State, h: nat, p: Packet)
    returns (more: seq<Step>, end: State)
    requires Reaches(c, junk, steps, s) && ValidPlans(Plans(c)) && ShapeOk(c, s)
    requires h < |s.handlers| && s.handlers[h] == Writing(p, 0) && |p.payload| > 0
    requires p.file < |c.sources| && p.spec.index !in s.resume[p.file] && s.locks[p.file].None?
    ensures Reaches(c, junk, more, end)
    ensures end == s.(handlers := s.handlers[h := Marked(p.file, p.spec.index)], disk := end.disk,
                      resume := Mark(s.resume, p.file, p.spec.index), locks := s.locks[p.file := Some(h)])
    ensures |end.disk| == |s.disk|
  {
    hide Plans, ValidPlans, ValidConfig, Reaches, Patch, Mark;
    var s1 := DoWritePiece(s, h, |p.payload|);
    Advance(c, junk, steps, s, WritePiece(h, |p.payload|), s1);
    end := DoLockAndMark(s1, h);
    Advance(c, junk, steps + [WritePiece(h, |p.payload|)], s1, LockAndMark(h), end);
    more := steps + [WritePiece(h, |p.payload|)] + [LockAndMark(h)];
    assert s1.handlers[h := Marked(p.file, p.spec.index)] == s.handlers[h := Marked(p.file, p.spec.index)];
  }

  /** Row, bytes and counter, and the lock is given back. */
  lemma Settle(c: Config, junk: seq<Bytes>, steps: seq<Step>, s: State, h: nat, f: nat, k: nat)
    returns (more: seq<Step>, end: State)
    requires Reaches(c, junk, steps, s) && ValidPlans(Plans(c)) && ShapeOk(c, s) && IsChunk(c, f, k)
    requires h < |s.handlers| && s.handlers[h] == Marked(f, k) && s.remaining > 0 && s.receiver.GivingUp?
    ensures Reaches(c, junk, more, end)
    ensures end == s.(handlers := s.handlers[h := Reading], recorded := end.recorded, counted := end.counted,
                      subtracted := end.subtracted, receiverBytes := end.receiverBytes, locks := s.locks[f := None],
                      remaining := s.remaining - 1)
    ensures ShapeOk(c, end)
  {
    hide Plans, ValidPlans, ValidConfig, Reaches, Mark, AddProgress, TotalBytes, ChunkPlan.At, ChunkPlan.Valid;
    var s1 := DoRecordRow(s, h);
    Advance(c, junk, steps, s, RecordRow(h), s1);
    var s2 := DoCountBytes(c, s1, h);
    Advance(c, junk, steps + [RecordRow(h)], s1, CountBytes(h), s2);
    end := DoSubtract(s2, h);
    Advance(c, junk, steps + [RecordRow(h)] + [CountBytes(h)], s2, Subtract(h), end);
    more := steps + [RecordRow(h)] + [CountBytes(h)] + [Subtract(h)];
    assert s.handlers[h := Recorded(f, k)][h := Counted(f, k)][h := Reading] == s.handlers[h := Reading];
  }

  // ----- giving up -----

  /** The two-job run at the point where one channel has come and gone. */
  ghost predicate OneLeft2(s: State, phase: ReceiverPhase) {
    && ValidPlans(Plans(Two())) && ShapeOk(Two(), s) && s.receiver == phase && s.clean
    && s.remaining == 2 && s.sender.Sending? && |s.pool.channels| == 2 && s.pool.queue == []
    && s.streams == [[], []] && s.handlers == [Ended(true), Detached]
    && s.resume == [{}, {}] && s.locks == [None, None]
    && var ch := s.pool.channels[1];
       ch.phase.Ready? && ch.prefetched.Some? && OneOfEach(ch.phase.job, ch.prefetched.value)
  }

  /** One channel comes and goes, whether the loop waits or not. */
  lemma ComeAndGo2(before: seq<Step>, s: State) returns (steps: seq<Step>, end: State)
    requires Reaches(Two(), [[], []], before, s) && BothTaken2(s, s.receiver) && !s.receiver.Stopped?
    ensures Reaches(Two(), [[], []], steps, end) && OneLeft2(end, Notified(s.receiver))
    ensures NeverWaits(before) ==> NeverWaits(steps)
  {
    hide ValidConfig, Reaches, After, Initial, Plans, ValidPlans, OneOfEach, Notified;
    var s1 := s.(handlers := [Reading, Detached]);
    Advance(Two(), [[], []], before, s, Attach(0), s1);
    end := s.(handlers := [Ended(true), Detached], receiver := Notified(s.receiver));
    assert NoneActive(end.handlers);
    Advance(Two(), [[], []], before + [Attach(0)], s1, EndOfStream(0), end);
    steps := before + [Attach(0)] + [EndOfStream(0)];
  }

  /** The loop has looked at the counter and is about to wait. */
  lemma LookedAt2() returns (steps: seq<Step>, end: State)
    ensures Reaches(Two(), [[], []], steps, end) && BothTaken2(end, Looked) && NeverWaits(steps)
  {
    hide ValidConfig, Reaches, After, Initial, Plans, ValidPlans, OneOfEach;
    var before, s0 := TakeBoth2();
    end := s0.(receiver := Looked);
    Advance(Two(), [[], []], before, s0, CheckCounter, end);
    steps := before + [CheckCounter];
  }

  lemma WaitsNow2(before: seq<Step>, s: State)
    requires Reaches(Two(), [[], []], before, s) && ValidPlans(Plans(Two())) && ShapeOk(Two(), s) && s.receiver.Looked?
    ensures Reaches(Two(), [[], []], before + [Subscribe], s.(receiver := Receiving))
  {
    hide ValidConfig, Reaches, After, Initial, Plans, ValidPlans;
    Advance(Two(), [[], []], before, s, Subscribe, s.(receiver := Receiving));
  }

  /** An error-free run can come to give up: one channel holds both jobs and has yet to connect when the other, with
      nothing left to send, has come and gone, and the control loop loads a counter of two and
          then no active channel. */
  lemma CleanRunMayGiveUp() returns (steps: seq<Step>, end: State)
    ensures Reaches(Two(), [[], []], steps, end) && OneLeft2(end, GivingUp)
    ensures Enabled(Two(), end, GiveUp)
  {
    hide ValidConfig, Reaches, After, Initial, Plans, ValidPlans, OneOfEach;
    var looked, s0 := LookedAt2();
    WaitsNow2(looked, s0);
    var called, s1 := ComeAndGo2(looked + [Subscribe], s0.(receiver := Receiving));
    assert NoneActive(s1.handlers);
    hide OneLeft2, Enabled;
    var more := WalksToGivingUp(Two(), [[], []], called, s1);
    steps, end := called + more, s1.(receiver := GivingUp);
    OtherPhase2(s1, Called, GivingUp);
  }

  /** A loop that has never waited in a session has not been notified. */
  lemma {:induction false} NeverWaitsNoGap(c: Config, junk: seq<Bytes>, steps: seq<Step>, s: State)
    requires Reaches(c, junk, steps, s) && NeverWaits(steps) && ValidPlans(Plans(c)) && |junk| == |c.sources|
    ensures !s.receiver.Receiving? && !Awake(s.receiver) && !HadGap(c, junk, steps)
    decreases |steps|
  {
    hide Plans, ValidPlans, Inv, CleanInv, Enabled, Apply, ValidConfig, NoneAttached, LeftBehind;
    Reached(c, junk, steps, s);
    if steps == [] || steps[|steps| - 1].NewSession? {
      SessionStartsBusy(c, junk, steps, s);
    } else {
      var before := Before(c, junk, steps, s);
      NeverWaitsNoGap(c, junk, steps[..|steps| - 1], before);
      assert steps[|steps| - 1] in steps;
    }
  }

  lemma OtherPhase2(s: State, phase: ReceiverPhase, other: ReceiverPhase)
    requires OneLeft2(s, phase)
    ensures OneLeft2(s.(receiver := other), other) && ShapeOk(Two(), s.(receiver := other))
    ensures other.GivingUp? ==> Enabled(Two(), s.(receiver := other), GiveUp)
  {
    hide Plans, ValidPlans, OneOfEach;
  }

  /** One channel gone, the other yet to come with both chunks, and the loop waits for neither. */
  lemma SleepsOverGap2(steps: seq<Step>, s: State)
    requires Reaches(Two(), [[], []], steps, s) && OneLeft2(s, Receiving)
    ensures Asleep(s) && LeftBehind(Two(), s)
  {
    TwoPlans();
    hide ValidConfig, Reaches, After, Plans, ValidPlans, Inv, CleanInv, LeftBehind, OneOfEach;
    assert s.handlers[0].Ended? && NoneActive(s.handlers);
    Reached(Two(), [[], []], steps, s);
    LeftBehindExactly(Two(), s);
  }

  /** The same channel comes and goes just before the loop waits: its notification is lost. The loop sleeps with chunks
      missing and nobody attached, and cannot have come to give up. */
  lemma LostNotification() returns (steps: seq<Step>, end: State)
    ensures Reaches(Two(), [[], []], steps, end) && end.clean && ValidPlans(Plans(Two())) && ShapeOk(Two(), end)
    ensures Asleep(end) && LeftBehind(Two(), end) && !CouldGiveUp(Two(), [[], []], steps)
  {
    hide ValidConfig, Reaches, After, Plans, ValidPlans, HadGap, CouldGiveUp, LeftBehind, OneOfEach;
    var c, junk := Two(), [[], []];
    var looked, s0 := LookedAt2();
    var before, s1 := ComeAndGo2(looked, s0);
    end := s1.(receiver := Receiving);
    WaitsNow2(before, s1);
    steps := before + [Subscribe];
    SleepsOverGap2(steps, end);
    NeverWaitsNoGap(c, junk, before, s1);
    assert steps[..|steps| - 1] == before;
    NoNewGap(c, junk, steps, end);
    GivesUpExactly(c, junk, steps, end);
  }

  lemma NoNewGap(c: Config, junk: seq<Bytes>, steps: seq<Step>, s: State)
    requires Reaches(c, junk, steps, s) && ValidPlans(Plans(c)) && |junk| == |c.sources|
    requires steps != [] && !Awake(s.receiver) && !HadGap(c, junk, steps[..|steps| - 1])
    ensures !HadGap(c, junk, steps)
  {
    hide Plans, ValidPlans, ValidConfig, After, NoneAttached, LeftBehind;
  }

  lemma PacketIsGenuine(c: Config, job: ChunkJob)
    requires ValidPlans(Plans(c)) && JobOk(c, job)
    ensures Genuine(c, PacketFor(c, job)) && |PacketFor(c, job).payload| > 0
    ensures PacketFor(c, job).file == job.entryIndex && PacketFor(c, job).spec == job.spec
  {
    hide ChunkPlan.At, ChunkPlan.Valid, DivCeil;
    ChunksAbut(Plans(c)[job.entryIndex], job.spec.index);
  }

  /** A channel puts the chunk it holds on its empty stream. */
  lemma PutOn(c: Config, junk: seq<Bytes>, steps: seq<Step>, s: State, h: nat, job: ChunkJob) returns (end: State)
    requires Reaches(c, junk, steps, s) && ValidPlans(Plans(c)) && ShapeOk(c, s) && s.sender.Sending? && JobOk(c, job)
    requires h < |s.handlers| && s.streams[h] == [] && s.pool.channels[h].phase == Ready(job)
    ensures Reaches(c, junk, steps + [Send(h, Write)], end)
    ensures end == s.(pool := Do(s.pool, h, Write), streams := s.streams[h := [PacketFor(c, job)]]) && ShapeOk(c, end)
  {
    hide Plans, ValidPlans, ValidConfig, Reaches, Do, PacketFor;
    end := s.(pool := Do(s.pool, h, Write), streams := s.streams[h := s.streams[h] + [PacketFor(c, job)]]);
    Advance(c, junk, steps, s, Send(h, Write), end);
    assert s.streams[h] + [PacketFor(c, job)] == [PacketFor(c, job)];
  }

  /** A channel writes the chunk it holds, and its attached handler takes it all the way. */
  lemma PassOn(c: Config, junk: seq<Bytes>, steps: seq<Step>, s: State, h: nat, job: ChunkJob)
    returns (more: seq<Step>, end: State)
    requires Reaches(c, junk, steps, s) && ValidPlans(Plans(c)) && ShapeOk(c, s) && s.sender.Sending? && JobOk(c, job)
    requires h < |s.handlers| && s.handlers[h].Reading? && s.streams[h] == [] && s.pool.channels[h].phase == Ready(job)
    requires job.spec.index !in s.resume[job.entryIndex] && s.locks[job.entryIndex].None?
    requires s.remaining > 0 && s.receiver.GivingUp? && s.clean
    ensures Reaches(c, junk, more, end) && ShapeOk(c, end) && end.sender.Sending? && end.clean && end.receiver.GivingUp?
    ensures end.pool == Do(s.pool, h, Write) && end.handlers == s.handlers && end.streams == s.streams
    ensures end.resume == Mark(s.resume, job.entryIndex, job.spec.index) && end.locks == s.locks
    ensures end.remaining == s.remaining - 1
  {
    var f, k, p := job.entryIndex, job.spec.index, PacketFor(c, job);
    hide Plans, ValidPlans, ValidConfig, Reaches, Genuine, Mark, Do;
    PacketIsGenuine(c, job);
    GenuinePasses(c, p);
    hide PacketFor, ChunkPlan.Chunk, JobOk, Enabled, Apply;
    var s1 := PutOn(c, junk, steps, s, h, job);
    assert s1.streams[h][1..] == [] && s1.streams[h := []] == s.streams;
    var way1, s2 := TakeIn(c, junk, steps + [Send(h, Write)], s1, h, p);
    var way2, s3 := WriteOut(c, junk, way1, s2, h, p);
    more, end := Settle(c, junk, way2, s3, h, f, k);
    assert end.streams == s.streams && end.handlers == s.handlers && end.locks == s.locks;
  }

  /** The channel reports the chunk it wrote and goes on to the prefetched one. */
  lemma NextJob(c: Config, junk: seq<Bytes>, steps: seq<Step>, s: State, h: nat, job: ChunkJob)
    returns (more: seq<Step>, end: State)
    requires Reaches(c, junk, steps, s) && ValidPlans(Plans(c)) && ShapeOk(c, s) && s.sender.Sending?
    requires h < |s.pool.channels| && s.pool.channels[h].phase.Accounting? && s.pool.channels[h].prefetched == Some(job)
    requires s.pool.queue == []
    ensures Reaches(c, junk, more, end)
    ensures end == s.(pool := end.pool, senderBytes := end.senderBytes) && |end.pool.channels| == |s.pool.channels|
    ensures end.pool.channels[h].phase == Ready(job) && end.pool.queue == []
  {
    hide Plans, ValidPlans, ValidConfig, Reaches, AddProgress, TotalBytes;
    var s1 := DoSend(c, s, h, Account);
    Advance(c, junk, steps, s, Send(h, Account), s1);
    var s2 := DoSend(c, s1, h, TakePrefetched);
    Advance(c, junk, steps + [Send(h, Account)], s1, Send(h, TakePrefetched), s2);
    end := DoSend(c, s2, h, Prefetch);
    Advance(c, junk, steps + [Send(h, Account)] + [Send(h, TakePrefetched)], s2, Send(h, Prefetch), end);
    more := steps + [Send(h, Account)] + [Send(h, TakePrefetched)] + [Send(h, Prefetch)];
  }

  /** The loop is committed to giving up when the other channel attaches and delivers its two chunks: an error-free
      session gives up although nothing is missing. */
  lemma GivesUpWithNothingMissing() returns (steps: seq<Step>, end: State)
    ensures Reaches(Two(), [[], []], steps, end) && end.clean && ValidPlans(Plans(Two())) && ShapeOk(Two(), end)
    ensures Enabled(Two(), end, GiveUp) && end.remaining == 0 && Apply(Two(), end, GiveUp).receiver.Stopped?
    ensures forall f | 0 <= f < 2 :: Complete(Two(), end, f)
  {
    hide ValidConfig, Reaches, After, Initial, Plans, ValidPlans, JobOk, Mark;
    var c, junk := Two(), [[], []];
    var before, s0 := CleanRunMayGiveUp();
    var ch := s0.pool.channels[1];
    var a, b := ch.phase.job, ch.prefetched.value;
    var s1 := s0.(handlers := [Ended(true), Reading]);
    Advance(c, junk, before, s0, Attach(1), s1);
    var way1, s2 := PassOn(c, junk, before + [Attach(1)], s1, 1, a);
    var way2, s3 := NextJob(c, junk, way1, s2, 1, b);
    OtherFileUnmarked(s0.resume, s2.resume, a, b);
    steps, end := PassOn(c, junk, way2, s3, 1, b);
    CounterCovers(c, junk, steps, end);
  }

  lemma OtherFileUnmarked(before: seq<set<nat>>, after: seq<set<nat>>, a: ChunkJob, b: ChunkJob)
    requires before == [{}, {}] && a.entryIndex == 0 && b.entryIndex == 1 && after == Mark(before, 0, a.spec.index)
    ensures |after| == 2 && b.spec.index !in after[1]
  {
  }

  // ----- sleeping with nothing missing -----

  /** The channel reports its chunk, finds nothing more and leaves, and its handler reads to the end of the stream. */
  lemma LeaveIt(before: seq<Step>, phase: ReceiverPhase) returns (steps: seq<Step>, end: State)
    requires Reaches(One(), [[]], before, Filled1().(receiver := phase)) && phase.Looked?
    ensures Reaches(One(), [[]], steps, end)
    ensures end == Filled1().(receiver := phase, pool := end.pool, senderBytes := end.senderBytes, handlers :=
              [Ended(true)])
    ensures |end.pool.channels| == 1
  {
    OnePlan();
    hide Plans, ChunkPlan.At, ChunkPlan.Valid, ValidConfig, Reaches, After, Initial, SourceChunk, AddProgress,
         TotalBytes;
    var c, junk, s0 := One(), [[]], Filled1().(receiver := phase);
    var s1 := DoSend(c, s0, 0, Account);
    Advance(c, junk, before, s0, Send(0, Account), s1);
    var s2 := DoSend(c, s1, 0, Leave);
    Advance(c, junk, before + [Send(0, Account)], s1, Send(0, Leave), s2);
    end := s2.(handlers := [Ended(true)]);
    Advance(c, junk, before + [Send(0, Account)] + [Send(0, Leave)], s2, EndOfStream(0), end);
    steps := before + [Send(0, Account)] + [Send(0, Leave)] + [EndOfStream(0)];
  }

  /** The loop loads a counter of one, and before it waits the last chunk arrives and the last channel goes: both
      notifications are lost. An error-free session with every file complete sleeps, and does not finalize by itself. */
  lemma SleepsWithNothingMissing() returns (steps: seq<Step>, end: State)
    ensures Reaches(One(), [[]], steps, end) && end.clean && ValidPlans(Plans(One())) && ShapeOk(One(), end)
    ensures Asleep(end) && end.remaining == 0 && Complete(One(), end, 0) && !CanFinalize(One(), [[]], steps)
  {
    hide Plans, ChunkPlan.At, ChunkPlan.Valid, ValidConfig, Reaches, After, Initial, SourceChunk, ValidPlans,
         CanFinalize;
    OnePlan();
    var c, junk := One(), [[]];
    var marked := MarkIt();
    Advance(c, junk, marked, Marked1(), CheckCounter, Marked1().(receiver := Looked));
    var filled := FillIt(marked + [CheckCounter], Looked);
    var left, s := LeaveIt(filled, Looked);
    end := s.(receiver := Receiving);
    Advance(c, junk, left, s, Subscribe, end);
    steps := left + [Subscribe];
    assert end.handlers[0].Ended?;
    FinalizesExactly(c, junk, steps, end);
  }
}
