/** What error-free sessions keep on top of safety: nothing gets lost on the way, so when every channel has ended the
    counter is zero. A session is error-free while `clean` holds: no failed channel, no broken handler, no bytes
    changed on the network. */
module SessionProgress {
  import opened Wrappers
  import opened Chunks
  import opened Storage
  import opened Jobs
  import opened WorkQueue
  import opened Session
  import opened SessionSafety

  // ----- packets are the source's chunks -----

  ghost predicate Genuine(c: Config, p: Packet)
    requires ValidPlans(Plans(c))
  {
    HonestHeader(c, p) && p.payload == SourceChunk(c, p.file, p.spec.index)
  }

  function PacketOf(handler: Handler): Option<Packet> {
    match handler
    case Got(p) => Some(p)
    case Checked(p) => Some(p)
    case Writing(p, _) => Some(p)
    case _ => None
  }

  ghost predicate GenuineStream(c: Config, stream: seq<Packet>)
    requires ValidPlans(Plans(c))
  {
    forall i | 0 <= i < |stream| :: Genuine(c, stream[i])
  }

  ghost predicate GenuineOk(c: Config, s: State)
    requires ValidPlans(Plans(c))
  {
    && (forall h | 0 <= h < |s.streams| :: GenuineStream(c, s.streams[h]))
    && (forall h | 0 <= h < |s.handlers| ::
          PacketOf(s.handlers[h]).Some? ==> Genuine(c, PacketOf(s.handlers[h]).value))
  }

  // ----- a handler ends only behind its channel -----

  ghost predicate EndsOk(s: State)
    requires |s.streams| == |s.handlers| == |s.pool.channels|
  {
    && SlotsRight(s.pool)
    && (forall h | 0 <= h < |s.handlers| :: !s.pool.channels[h].phase.Failed?)
    && (forall h | 0 <= h < |s.handlers| ::
          s.handlers[h].Ended? ==> s.handlers[h].ok && s.streams[h] == [] && s.pool.channels[h].phase.Exited?)
    && (|s.handlers| == 0 ==> s.pool.queue == [])
  }

  // ----- every unmarked chunk is somewhere -----

  predicate IsFor(job: ChunkJob, f: nat, k: nat) {
    job.entryIndex == f && job.spec.index == k
  }

  predicate OnSender(ch: Channel<ChunkJob>, f: nat, k: nat) {
    || (ch.prefetched.Some? && IsFor(ch.prefetched.value, f, k))
    || ((ch.phase.Holding? || ch.phase.Ready?) && IsFor(ch.phase.job, f, k))
  }

  predicate Brings(p: Packet, f: nat, k: nat) {
    p.file == f && p.spec.index == k
  }

  predicate OnStream(stream: seq<Packet>, f: nat, k: nat) {
    exists i | 0 <= i < |stream| :: Brings(stream[i], f, k)
  }

  predicate OnHandler(handler: Handler, f: nat, k: nat) {
    PacketOf(handler).Some? && Brings(PacketOf(handler).value, f, k)
  }

  predicate InQueue(queue: seq<ChunkJob>, f: nat, k: nat) {
    exists i | 0 <= i < |queue| :: IsFor(queue[i], f, k)
  }

  /** Channel `h` has the chunk in hand, in its slot, on its stream, or before its handler. */
  predicate Carries(s: State, h: nat, f: nat, k: nat)
    requires h < |s.streams| == |s.handlers| == |s.pool.channels|
  {
    OnSender(s.pool.channels[h], f, k) || OnStream(s.streams[h], f, k) || OnHandler(s.handlers[h], f, k)
  }

  predicate InFlight(s: State, f: nat, k: nat)
    requires |s.streams| == |s.handlers| == |s.pool.channels|
  {
    InQueue(s.pool.queue, f, k) || exists h | 0 <= h < |s.handlers| :: Carries(s, h, f, k)
  }

  ghost predicate FlightOk(c: Config, s: State)
    requires ShapeOk(c, s)
  {
    forall f: nat, k: nat | IsChunk(c, f, k) && k !in s.resume[f] :: InFlight(s, f, k)
  }

  // ----- a marked chunk is subtracted, or its handler is on the way there -----

  predicate OnItsWay(s: State, f: nat, k: nat)
    requires f < |s.locks|
  {
    s.locks[f].Some? && s.locks[f].value < |s.handlers| &&
    var handler := s.handlers[s.locks[f].value];
    HoldsLock(handler) && handler.index == k
  }

  ghost predicate MarksOk(c: Config, s: State)
    requires ShapeOk(c, s)
  {
    forall f: nat, k: nat | f < |c.sources| && k in s.resume[f] && k !in s.subtracted[f] :: OnItsWay(s, f, k)
  }

  // ----- the sender's progress -----

  /** Bytes of jobs a channel has taken but not yet reported. */
  function Unreported(ch: Channel<ChunkJob>): nat {
    (if ch.prefetched.Some? then ch.prefetched.value.spec.length else 0) +
    match ch.phase
    case Holding(job) => job.spec.length
    case Ready(job) => job.spec.length
    case Accounting(job) => job.spec.length
    case _ => 0
  }

  function UnreportedAll(channels: seq<Channel<ChunkJob>>): nat {
    if channels == [] then 0 else Unreported(channels[0]) + UnreportedAll(channels[1..])
  }

  /** The sender has reported everything except what is queued or in some channel's hands. */
  ghost predicate BytesOk(c: Config, s: State)
    requires ValidPlans(Plans(c))
  {
    s.senderBytes + JobBytes(s.pool.queue) + UnreportedAll(s.pool.channels) == TotalBytes(Plans(c), 0)
  }

  ghost predicate CleanInv(c: Config, s: State)
    requires ValidPlans(Plans(c)) && ShapeOk(c, s)
  {
    s.clean ==> GenuineOk(c, s) && EndsOk(s) && FlightOk(c, s) && MarksOk(c, s) && BytesOk(c, s)
  }

  // ----- what the steps do to chunks in flight -----

  /** Only channel `h` and the queue changed: a chunk stays in flight if they did not drop it. */
  lemma FlightKeeps(s: State, s': State, h: nat, f: nat, k: nat)
    requires |s.streams| == |s.handlers| == |s.pool.channels| == |s'.streams| == |s'.handlers| == |s'.pool.channels|
    requires h < |s.handlers| && InFlight(s, f, k)
    requires forall d | 0 <= d < |s.handlers| && d != h :: Untouched(s, s', d)
    requires InQueue(s.pool.queue, f, k) || Carries(s, h, f, k) ==> InQueue(s'.pool.queue, f, k) || Carries(s', h, f, k)
    ensures InFlight(s', f, k)
  {
    hide OnSender, OnStream, OnHandler, InQueue;
    if !InQueue(s.pool.queue, f, k) {
      var d :| 0 <= d < |s.handlers| && Carries(s, d, f, k);
      if d != h {
        assert Untouched(s, s', d);
        assert Carries(s', d, f, k);
      }
    }
  }

  predicate Untouched(s: State, s': State, d: nat)
    requires d < |s.streams| == |s.handlers| == |s.pool.channels| == |s'.streams| == |s'.handlers| == |s'.pool.channels|
  {
    s'.pool.channels[d] == s.pool.channels[d] && s'.streams[d] == s.streams[d] && s'.handlers[d] == s.handlers[d]
  }

  lemma InTail(queue: seq<ChunkJob>, f: nat, k: nat)
    requires queue != [] && InQueue(queue, f, k) && !IsFor(queue[0], f, k)
    ensures InQueue(queue[1..], f, k)
  {
    var i :| 0 <= i < |queue| && IsFor(queue[i], f, k);
    assert queue[1..][i - 1] == queue[i];
  }

  lemma OnLongerStream(stream: seq<Packet>, p: Packet, f: nat, k: nat)
    ensures OnStream(stream + [p], f, k) <==> OnStream(stream, f, k) || Brings(p, f, k)
  {
    if OnStream(stream, f, k) {
      var i :| 0 <= i < |stream| && Brings(stream[i], f, k);
      assert Brings((stream + [p])[i], f, k);
    }
    if Brings(p, f, k) {
      assert Brings((stream + [p])[|stream|], f, k);
    }
  }

  lemma OffStream(stream: seq<Packet>, f: nat, k: nat)
    requires stream != [] && OnStream(stream, f, k)
    ensures OnStream(stream[1..], f, k) || Brings(stream[0], f, k)
  {
    var i :| 0 <= i < |stream| && Brings(stream[i], f, k);
    if i > 0 {
      assert Brings(stream[1..][i - 1], f, k);
    }
  }

  /** A channel step moves a chunk along the pipeline but never drops it. */
  lemma SendCarries(c: Config, s: State, h: nat, work: Work, f: nat, k: nat)
    requires ValidConfig(c) && Inv(c, s) && EndsOk(s) && Enabled(c, s, Send(h, work)) && work != Fail
    requires InQueue(s.pool.queue, f, k) || Carries(s, h, f, k)
    ensures var s' := DoSend(c, s, h, work);
            |s'.streams| == |s'.handlers| == |s'.pool.channels|
            && (InQueue(s'.pool.queue, f, k) || Carries(s', h, f, k))
  {
    hide ChunkPlan.At, ChunkPlan.Valid, PlanFor, FileOk, HandlerOk, SumsOk, PhaseOk, HonestHeader, InQueue, OnStream;
    var s' := DoSend(c, s, h, work);
    if (work.Pop? || (work.Prefetch? && s.pool.queue != [])) && InQueue(s.pool.queue, f, k) {
      if !IsFor(s.pool.queue[0], f, k) {
        InTail(s.pool.queue, f, k);
      }
    }
    if work.Write? {
      assert ChannelOk(c, s.pool.channels[h]);
      OnLongerStream(s.streams[h], PacketFor(c, s.pool.channels[h].phase.job), f, k);
    }
  }

  lemma {:induction false} UnreportedUpdate(channels: seq<Channel<ChunkJob>>, h: nat, ch: Channel<ChunkJob>)
    requires h < |channels|
    ensures UnreportedAll(channels[h := ch]) + Unreported(channels[h]) == UnreportedAll(channels) + Unreported(ch)
  {
    hide Unreported;
    if h == 0 {
      assert channels[h := ch][1..] == channels[1..];
    } else {
      UnreportedUpdate(channels[1..], h - 1, ch);
      assert channels[h := ch][1..] == channels[1..][h - 1 := ch];
    }
  }

  /** A step moves bytes between queue and channel; only accounting takes some away. */
  lemma StepBytes(pool: Pool<ChunkJob>, h: nat, work: Work)
    requires SlotsRight(pool) && Can(pool, h, work) && work != Fail
    ensures var ch, pool' := pool.channels[h], Do(pool, h, work);
            JobBytes(pool'.queue) + Unreported(pool'.channels[h])
            + (if work.Account? then ch.phase.job.spec.length else 0)
            == JobBytes(pool.queue) + Unreported(ch)
  {
  }

  /** Reporting one chunk neither saturates nor clamps. */
  lemma SendReports(c: Config, s: State, h: nat, work: Work)
    requires ValidConfig(c) && ShapeOk(c, s) && SlotsRight(s.pool) && BytesOk(c, s)
    requires Can(s.pool, h, work) && work != Fail
    ensures BytesOk(c, DoSend(c, s, h, work))
  {
    ChannelsAfter(s.pool, h, work);
    StepBytes(s.pool, h, work);
    UnreportedUpdate(s.pool.channels, h, Do(s.pool, h, work).channels[h]);
    SendFrame(c, s, h, work);
    hide ChunkPlan.At, ChunkPlan.Valid, PlanFor, Plans, TotalBytes, PacketFor, IsChunk, Do, SlotsRight, JobBytes,
         UnreportedAll, Unreported, ValidPlans;
  }

  /** What a channel step leaves alone. */
  lemma SendFrame(c: Config, s: State, h: nat, work: Work)
    requires ValidPlans(Plans(c)) && ShapeOk(c, s) && Can(s.pool, h, work)
    ensures var s' := DoSend(c, s, h, work);
            && s'.pool == Do(s.pool, h, work) && s'.handlers == s.handlers && |s'.streams| == |s.streams|
            && forall d | 0 <= d < |s.streams| && (d != h || !work.Write?) :: s'.streams[d] == s.streams[d]
  {
    hide PacketFor, IsChunk, Do, AddProgress, Plans, TotalBytes;
  }

  /** Only a failure leads to `Failed`, and a channel that has exited takes no step. */
  lemma StepPhases(pool: Pool<ChunkJob>, h: nat, work: Work)
    requires Can(pool, h, work) && work != Fail
    ensures !Do(pool, h, work).channels[h].phase.Failed? && !pool.channels[h].phase.Exited?
    ensures pool.queue == [] ==> Do(pool, h, work).queue == []
  {
  }

  lemma SendKeepsEnds(c: Config, s: State, h: nat, work: Work)
    requires ValidConfig(c) && ShapeOk(c, s) && EndsOk(s) && Can(s.pool, h, work) && work != Fail
    ensures ShapeOk(c, DoSend(c, s, h, work)) && EndsOk(DoSend(c, s, h, work))
  {
    StepKeepsSlots(s.pool, h, work);
    SendFrame(c, s, h, work);
    StepPhases(s.pool, h, work);
    hide SlotsRight, DoSend, Do, Can, ValidConfig, ValidPlans, Plans;
  }

  lemma SendKeepsGenuine(c: Config, s: State, h: nat, work: Work)
    requires ValidConfig(c) && ShapeOk(c, s) && TrafficOk(c, s) && GenuineOk(c, s) && Can(s.pool, h, work)
    ensures GenuineOk(c, DoSend(c, s, h, work))
  {
    hide ChunkPlan.At, ChunkPlan.Valid, DivCeil, TotalBytes, Do, JobBytes;
    if work.Write? {
      var job := s.pool.channels[h].phase.job;
      assert ChannelOk(c, s.pool.channels[h]);
      ChunksAbut(Plans(c)[job.entryIndex], job.spec.index);
      assert Genuine(c, PacketFor(c, job));
      assert GenuineStream(c, s.streams[h]);
      hide Genuine, PacketFor;
      assert GenuineStream(c, s.streams[h] + [PacketFor(c, job)]);
    }
    hide Genuine, GenuineStream, PacketFor;
  }

  lemma SendKeepsFlight(c: Config, s: State, h: nat, work: Work)
    requires ValidConfig(c) && Inv(c, s) && EndsOk(s) && FlightOk(c, s)
    requires Enabled(c, s, Send(h, work)) && work != Fail
    ensures ShapeOk(c, DoSend(c, s, h, work)) && FlightOk(c, DoSend(c, s, h, work))
  {
    hide ChunkPlan.At, ChunkPlan.Valid, PlanFor, FileOk, HandlerOk, SumsOk, PhaseOk, TrafficOk, InFlight, Carries,
         InQueue, SlotsRight;
    var s' := DoSend(c, s, h, work);
    assert forall d | 0 <= d < |s.handlers| && d != h :: Untouched(s, s', d);
    forall f: nat, k: nat | IsChunk(c, f, k) && k !in s'.resume[f]
      ensures InFlight(s', f, k)
    {
      assert InFlight(s, f, k);
      if InQueue(s.pool.queue, f, k) || Carries(s, h, f, k) {
        SendCarries(c, s, h, work, f, k);
      }
      FlightKeeps(s, s', h, f, k);
    }
  }

  lemma SendKeepsClean(c: Config, s: State, h: nat, work: Work)
    requires ValidConfig(c) && Inv(c, s) && CleanInv(c, s) && Enabled(c, s, Send(h, work))
    ensures ShapeOk(c, Apply(c, s, Send(h, work))) && CleanInv(c, Apply(c, s, Send(h, work)))
  {
    var s' := DoSend(c, s, h, work);
    if s.clean && work != Fail {
      SendKeepsGenuine(c, s, h, work);
      SendKeepsEnds(c, s, h, work);
      SendKeepsFlight(c, s, h, work);
      SendReports(c, s, h, work);
      hide OnItsWay, Inv;
      assert forall f: nat, k: nat | f < |c.sources| && OnItsWay(s, f, k) :: OnItsWay(s', f, k) by {
        SendKeepsWays(c, s, h, work);
      }
      assert MarksOk(c, s');
    }
  }

  lemma SendKeepsWays(c: Config, s: State, h: nat, work: Work)
    requires ValidPlans(Plans(c)) && ShapeOk(c, s) && Can(s.pool, h, work)
    ensures forall f: nat, k: nat | f < |c.sources| && OnItsWay(s, f, k) :: OnItsWay(DoSend(c, s, h, work), f, k)
  {
    hide ChunkPlan.At, ChunkPlan.Valid, PlanFor, TotalBytes, PacketFor, IsChunk;
  }

  // ----- what the steps of a handler do -----

  /** A step of handler `h`: it may take packets off its stream and mark chunks, and it must not lose one. */
  ghost predicate HandlerStep(c: Config, s: State, s': State, h: nat)
    requires ValidPlans(Plans(c)) && ShapeOk(c, s)
  {
    && h < |s.handlers| && ShapeOk(c, s') && |s'.handlers| == |s.handlers|
    && s'.pool == s.pool && s'.senderBytes == s.senderBytes && s'.clean == s.clean
    && (forall d | 0 <= d < |s.handlers| && d != h ::
          s'.handlers[d] == s.handlers[d] && s'.streams[d] == s.streams[d])
    && (forall f | 0 <= f < |c.sources| :: s.resume[f] <= s'.resume[f])
    && (forall f: nat, k: nat | IsChunk(c, f, k) && k !in s'.resume[f] && Carries(s, h, f, k) :: Carries(s', h, f, k))
    && (GenuineStream(c, s.streams[h]) ==> GenuineStream(c, s'.streams[h]))
    && (PacketOf(s'.handlers[h]).Some? ==> Genuine(c, PacketOf(s'.handlers[h]).value))
    && (s'.handlers[h].Ended? ==> s'.handlers[h].ok && s'.streams[h] == [] && s.pool.channels[h].phase.Exited?)
    && !s.handlers[h].Ended?
    && MarksOk(c, s')
  }

  lemma HandlerStepKeeps(c: Config, s: State, s': State, h: nat)
    requires ValidPlans(Plans(c)) && ShapeOk(c, s) && CleanInv(c, s) && HandlerStep(c, s, s', h)
    ensures CleanInv(c, s')
  {
    hide Genuine, GenuineStream, Carries, SlotsRight, InQueue, MarksOk, PlanFor, ChunkPlan.Valid, ChunkPlan.At,
         JobBytes, UnreportedAll, TotalBytes;
    if s.clean {
      assert EndsOk(s');
      assert GenuineOk(c, s');
      hide EndsOk, GenuineOk;
      assert forall d | 0 <= d < |s.handlers| && d != h :: Untouched(s, s', d);
      forall f: nat, k: nat | IsChunk(c, f, k) && k !in s'.resume[f]
        ensures InFlight(s', f, k)
      {
        assert InFlight(s, f, k);
        FlightKeeps(s, s', h, f, k);
      }
    }
  }

  /** A handler that neither takes nor gives back a lock leaves the marked chunks on their way. */
  lemma MarksStay(c: Config, s: State, s': State, h: nat)
    requires ShapeOk(c, s) && ShapeOk(c, s') && MarksOk(c, s) && h < |s.handlers| == |s'.handlers|
    requires forall d | 0 <= d < |s.handlers| && d != h :: s'.handlers[d] == s.handlers[d]
    requires !HoldsLock(s.handlers[h]) && s'.locks == s.locks && s'.resume == s.resume && s'.subtracted == s.subtracted
    ensures MarksOk(c, s')
  {
    forall f: nat, k: nat | f < |c.sources| && k in s'.resume[f] && k !in s'.subtracted[f]
      ensures OnItsWay(s', f, k)
    {
      assert OnItsWay(s, f, k);
    }
  }

  /** The header of a genuine packet passes, and so does its payload. */
  lemma GenuinePasses(c: Config, p: Packet)
    requires ValidPlans(Plans(c)) && Genuine(c, p)
    ensures p.file < |c.sources| && Plans(c)[p.file].Chunk(p.spec.index) == Ok(p.spec)
    ensures VerifyChunk(c.hash, VerifiedChunk(p.spec, p.digest, p.payload)).Ok? && c.hash(p.payload) == p.digest
  {
    hide ChunkPlan.At, ChunkPlan.Valid, DivCeil;
    HonestHeaderIsPlanned(c, p);
  }

  lemma ReceiveCarries(s: State, s': State, h: nat, f: nat, k: nat)
    requires |s.streams| == |s.handlers| == |s.pool.channels| && h < |s.handlers| && s.streams[h] != []
    requires s.handlers[h].Reading? && Carries(s, h, f, k)
    requires s' == SetHandler(s, h, Got(s.streams[h][0])).(streams := s.streams[h := s.streams[h][1..]])
    ensures Carries(s', h, f, k)
  {
    hide OnSender;
    if OnStream(s.streams[h], f, k) {
      OffStream(s.streams[h], f, k);
    }
  }

  lemma ReceiveIsHandlerStep(c: Config, s: State, s': State, h: nat)
    requires ValidPlans(Plans(c)) && ShapeOk(c, s) && h < |s.handlers| && s.handlers[h].Reading? && s.streams[h] != []
    requires s' == SetHandler(s, h, Got(s.streams[h][0])).(streams := s.streams[h := s.streams[h][1..]])
    requires GenuineStream(c, s.streams[h]) && MarksOk(c, s)
    ensures ShapeOk(c, s') && HandlerStep(c, s, s', h)
  {
    hide Genuine, Carries, ValidPlans, Plans;
    MarksStay(c, s, s', h);
    hide MarksOk;
    assert GenuineStream(c, s'.streams[h]) && Genuine(c, s.streams[h][0]);
    hide GenuineStream;
    forall f: nat, k: nat | Carries(s, h, f, k)
      ensures Carries(s', h, f, k)
    {
      ReceiveCarries(s, s', h, f, k);
    }
  }

  lemma ReceiveKeepsClean(c: Config, s: State, h: nat)
    requires ValidConfig(c) && Inv(c, s) && CleanInv(c, s) && Enabled(c, s, Receive(h))
    ensures ShapeOk(c, Apply(c, s, Receive(h))) && CleanInv(c, Apply(c, s, Receive(h)))
  {
    assert ShapeOk(c, s) && ValidPlans(Plans(c)) && s.handlers[h].Reading? && s.streams[h] != [];
    var s' := SetHandler(s, h, Got(s.streams[h][0])).(streams := s.streams[h := s.streams[h][1..]]);
    assert Apply(c, s, Receive(h)) == s';
    hide Inv, ValidConfig, ValidPlans, Plans, Apply, Enabled, EndsOk, FlightOk, BytesOk, GenuineStream, MarksOk,
         HandlerStep;
    if s.clean {
      ReceiveIsHandlerStep(c, s, s', h);
      HandlerStepKeeps(c, s, s', h);
    }
  }

  /** A handler moves on within its packet, or lets go of one that is marked. */
  lemma MoveKeepsClean(c: Config, s: State, s': State, h: nat)
    requires ValidConfig(c) && ShapeOk(c, s) && ShapeOk(c, s') && CleanInv(c, s) && s.clean && h < |s.handlers|
    requires |s'.handlers| == |s.handlers|
    requires !s.handlers[h].Ended? && !HoldsLock(s.handlers[h]) && s'.handlers == s.handlers[h := s'.handlers[h]]
    requires s'.pool == s.pool && s'.senderBytes == s.senderBytes && s'.clean && s'.streams == s.streams
    requires s'.locks == s.locks && s'.resume == s.resume && s'.subtracted == s.subtracted
    requires s'.handlers[h].Ended? ==> s'.handlers[h].ok && s'.streams[h] == [] && s.pool.channels[h].phase.Exited?
    requires PacketOf(s'.handlers[h]) == PacketOf(s.handlers[h])
             || (PacketOf(s'.handlers[h]).None? &&
                 (PacketOf(s.handlers[h]).None? || AlreadyMarked(c, s, PacketOf(s.handlers[h]).value)))
    ensures CleanInv(c, s')
  {
    assert ValidPlans(Plans(c));
    hide Genuine, GenuineStream, OnSender, OnStream, ValidConfig, ValidPlans, Plans;
    MarksStay(c, s, s', h);
    assert HandlerStep(c, s, s', h);
    HandlerStepKeeps(c, s, s', h);
  }

  predicate AlreadyMarked(c: Config, s: State, p: Packet)
    requires ShapeOk(c, s)
  {
    p.file < |c.sources| && p.spec.index in s.resume[p.file]
  }

  lemma InspectKeepsClean(c: Config, s: State, h: nat)
    requires ValidConfig(c) && Inv(c, s) && CleanInv(c, s) && Enabled(c, s, Inspect(h))
    ensures ShapeOk(c, Apply(c, s, Inspect(h))) && CleanInv(c, Apply(c, s, Inspect(h)))
  {
    hide ChunkPlan.Chunk, ChunkPlan.At, ChunkPlan.Valid, PlanFor, Genuine, FileOk, HandlerOk, SumsOk, PhaseOk,
         TrafficOk, EndsOk, FlightOk, MarksOk, BytesOk, GenuineStream;
    var s' := DoInspect(c, s, h);
    var p := s.handlers[h].packet;
    if s.clean {
      assert PacketOf(s.handlers[h]) == Some(p);
      GenuinePasses(c, p);
      hide CleanInv, ValidConfig, Inv;
      MoveKeepsClean(c, s, s', h);
    }
  }

  lemma VerifyKeepsClean(c: Config, s: State, h: nat)
    requires ValidConfig(c) && Inv(c, s) && CleanInv(c, s) && Enabled(c, s, Verify(h))
    ensures ShapeOk(c, Apply(c, s, Verify(h))) && CleanInv(c, Apply(c, s, Verify(h)))
  {
    var s' := DoVerify(c, s, h);
    var p := s.handlers[h].packet;
    if s.clean {
      assert PacketOf(s.handlers[h]) == Some(p);
      GenuinePasses(c, p);
      hide Genuine, CleanInv, ValidConfig, VerifyChunk, Inv;
      MoveKeepsClean(c, s, s', h);
    }
  }

  lemma WritePieceKeepsClean(c: Config, s: State, h: nat, n: nat)
    requires ValidConfig(c) && Inv(c, s) && CleanInv(c, s) && Enabled(c, s, WritePiece(h, n))
    ensures ShapeOk(c, Apply(c, s, WritePiece(h, n))) && CleanInv(c, Apply(c, s, WritePiece(h, n)))
  {
    if s.clean {
      hide Genuine, CleanInv, ValidConfig, Patch, Inv;
      MoveKeepsClean(c, s, DoWritePiece(s, h, n), h);
    }
  }

  lemma AttachKeepsClean(c: Config, s: State, h: nat)
    requires ValidConfig(c) && Inv(c, s) && CleanInv(c, s) && Enabled(c, s, Attach(h))
    ensures ShapeOk(c, Apply(c, s, Attach(h))) && CleanInv(c, Apply(c, s, Attach(h)))
  {
    if s.clean {
      hide Genuine, CleanInv, ValidConfig, Inv;
      MoveKeepsClean(c, s, SetHandler(s, h, Reading), h);
    }
  }

  lemma EndOfStreamKeepsClean(c: Config, s: State, h: nat)
    requires ValidConfig(c) && Inv(c, s) && CleanInv(c, s) && Enabled(c, s, EndOfStream(h))
    ensures ShapeOk(c, Apply(c, s, EndOfStream(h))) && CleanInv(c, Apply(c, s, EndOfStream(h)))
  {
    if s.clean {
      assert EndsOk(s);
      hide Genuine, CleanInv, ValidConfig, Inv;
      MoveKeepsClean(c, s, EndHandler(s, h, true), h);
    }
  }

  // ----- under a lock -----

  lemma MarkStaysOnItsWay(c: Config, s: State, s': State, h: nat, f: nat, k: nat)
    requires ShapeOk(c, s) && MarksOk(c, s) && f < |c.sources| && s.locks[f].None? && h < |s.handlers|
    requires !HoldsLock(s.handlers[h])
    requires s' == SetHandler(s, h, Marked(f, k)).(resume := Mark(s.resume, f, k), locks := s.locks[f := Some(h)])
    ensures MarksOk(c, s')
  {
    forall g: nat, l: nat | g < |c.sources| && l in s'.resume[g] && l !in s'.subtracted[g]
      ensures OnItsWay(s', g, l)
    {
      if g != f || l != k {
        assert OnItsWay(s, g, l);
      }
    }
  }

  lemma MarkKeepsClean(c: Config, s: State, s': State, h: nat, p: Packet)
    requires ValidPlans(Plans(c)) && ShapeOk(c, s) && CleanInv(c, s) && s.clean
    requires h < |s.handlers| && PacketOf(s.handlers[h]) == Some(p) && p.file < |c.sources| && s.locks[p.file].None?
    requires var f, k := p.file, p.spec.index;
             s' == SetHandler(s, h, Marked(f, k)).(resume := Mark(s.resume, f, k), locks := s.locks[f := Some(h)])
    ensures CleanInv(c, s')
  {
    MarkStaysOnItsWay(c, s, s', h, p.file, p.spec.index);
    hide OnSender, OnStream, Genuine, GenuineStream, ValidPlans, Plans, MarksOk;
    assert HandlerStep(c, s, s', h);
    hide CleanInv, HandlerStep;
    HandlerStepKeeps(c, s, s', h);
  }

  lemma LockableFile(c: Config, s: State, h: nat)
    requires ValidConfig(c) && Inv(c, s) && Enabled(c, s, LockAndMark(h))
    ensures h < |s.handlers| && s.handlers[h].Writing?
    ensures s.handlers[h].packet.file < |c.sources| && s.locks[s.handlers[h].packet.file].None?
  {
    hide FileOk, SumsOk, PhaseOk, TrafficOk, PlanFor;
    assert HandlerOk(c, s, h);
    HonestHeaderIsPlanned(c, s.handlers[h].packet);
  }

  lemma LockAndMarkKeepsClean(c: Config, s: State, h: nat)
    requires ValidConfig(c) && Inv(c, s) && CleanInv(c, s) && Enabled(c, s, LockAndMark(h))
    ensures ShapeOk(c, Apply(c, s, LockAndMark(h))) && CleanInv(c, Apply(c, s, LockAndMark(h)))
  {
    assert ValidPlans(Plans(c)) && ShapeOk(c, s);
    LockableFile(c, s, h);
    hide Inv, CleanInv, ValidConfig, Enabled, ValidPlans, Plans;
    var p, s' := s.handlers[h].packet, DoLockAndMark(s, h);
    if s.clean {
      if p.spec.index in s.resume[p.file] {
        MoveKeepsClean(c, s, s', h);
      } else {
        MarkKeepsClean(c, s, s', h, p);
      }
    } else {
      NotClean(c, s');
    }
  }

  lemma NotClean(c: Config, s: State)
    requires ValidPlans(Plans(c)) && ShapeOk(c, s) && !s.clean
    ensures CleanInv(c, s)
  {
  }

  /** Recording and counting go on under the same lock. */
  lemma WaysStay(c: Config, s: State, s': State, h: nat)
    requires ShapeOk(c, s) && ShapeOk(c, s') && MarksOk(c, s) && h < |s.handlers| == |s'.handlers|
    requires forall d | 0 <= d < |s.handlers| && d != h :: s'.handlers[d] == s.handlers[d]
    requires HoldsLock(s.handlers[h]) && HoldsLock(s'.handlers[h]) && s'.handlers[h].index == s.handlers[h].index
    requires s'.locks == s.locks && s'.resume == s.resume && s'.subtracted == s.subtracted
    ensures MarksOk(c, s')
  {
    forall f: nat, k: nat | f < |c.sources| && k in s'.resume[f] && k !in s'.subtracted[f]
      ensures OnItsWay(s', f, k)
    {
      assert OnItsWay(s, f, k);
    }
  }

  lemma UnderLockKeeps(c: Config, s: State, s': State, h: nat)
    requires ValidConfig(c) && ShapeOk(c, s) && ShapeOk(c, s') && CleanInv(c, s) && s.clean
              && h < |s.handlers| == |s'.handlers|
    requires HoldsLock(s.handlers[h]) && s'.handlers == s.handlers[h := s'.handlers[h]]
    requires PacketOf(s'.handlers[h]).None? && !s'.handlers[h].Ended?
    requires s'.pool == s.pool && s'.senderBytes == s.senderBytes && s'.clean && s'.streams == s.streams
    requires s'.resume == s.resume && MarksOk(c, s')
    ensures CleanInv(c, s')
  {
    assert ValidPlans(Plans(c));
    hide Genuine, GenuineStream, OnSender, OnStream, ValidConfig, ValidPlans, Plans, MarksOk;
    assert HandlerStep(c, s, s', h);
    HandlerStepKeeps(c, s, s', h);
  }

  lemma RecordRowKeepsClean(c: Config, s: State, h: nat)
    requires ValidConfig(c) && Inv(c, s) && CleanInv(c, s) && Enabled(c, s, RecordRow(h))
    ensures ShapeOk(c, Apply(c, s, RecordRow(h))) && CleanInv(c, Apply(c, s, RecordRow(h)))
  {
    hide FileOk, HandlerOk, SumsOk, PhaseOk, TrafficOk, EndsOk, FlightOk, MarksOk, BytesOk, GenuineOk, ValidConfig,
         Plans;
    var s' := DoRecordRow(s, h);
    if s.clean {
      WaysStay(c, s, s', h);
      UnderLockKeeps(c, s, s', h);
    }
  }

  lemma CountBytesKeepsClean(c: Config, s: State, h: nat)
    requires ValidConfig(c) && Inv(c, s) && CleanInv(c, s) && Enabled(c, s, CountBytes(h))
    ensures ShapeOk(c, Apply(c, s, CountBytes(h))) && CleanInv(c, Apply(c, s, CountBytes(h)))
  {
    hide FileOk, HandlerOk, SumsOk, PhaseOk, TrafficOk, EndsOk, FlightOk, MarksOk, BytesOk, GenuineOk,
         AddProgress, PlanFor;
    var s' := DoCountBytes(c, s, h);
    if s.clean {
      WaysStay(c, s, s', h);
      UnderLockKeeps(c, s, s', h);
    }
  }

  lemma SubtractEndsWay(c: Config, s: State, s': State, h: nat, f: nat, k: nat)
    requires ValidPlans(Plans(c)) && ShapeOk(c, s) && MarksOk(c, s) && h < |s.handlers| && LockHeld(s, h, f, k)
    requires forall g | 0 <= g < |c.sources| :: FileOk(c, s, g)
    requires HoldsLock(s.handlers[h]) && s.handlers[h].file == f && s.handlers[h].index == k
    requires |s'.handlers| == |s.handlers|
    requires forall d | 0 <= d < |s.handlers| && d != h :: s'.handlers[d] == s.handlers[d]
    requires s'.locks == s.locks[f := None] && s'.resume == s.resume && s'.subtracted == Mark(s.subtracted, f, k)
    requires ShapeOk(c, s')
    ensures MarksOk(c, s')
  {
    hide ChunkOnDisk, PlanFor, ChunkPlan.Valid, ChunkPlan.At, Below;
    forall g: nat, l: nat | g < |c.sources| && l in s'.resume[g] && l !in s'.subtracted[g]
      ensures OnItsWay(s', g, l)
    {
      assert OnItsWay(s, g, l) && FileOk(c, s, g);
    }
  }

  lemma SubtractKeepsClean(c: Config, s: State, h: nat)
    requires ValidConfig(c) && Inv(c, s) && CleanInv(c, s) && Enabled(c, s, Subtract(h))
    ensures ShapeOk(c, Apply(c, s, Subtract(h))) && CleanInv(c, Apply(c, s, Subtract(h)))
  {
    hide FileOk, SumsOk, PhaseOk, TrafficOk, EndsOk, FlightOk, MarksOk, BytesOk, GenuineOk, WrappingDecrement,
         PlanFor, ChunkPlan.Valid, ChunkPlan.At, Agrees, HonestHeader;
    var s' := DoSubtract(s, h);
    assert HandlerOk(c, s, h);
    hide HandlerOk;
    if s.clean {
      SubtractEndsWay(c, s, s', h, s.handlers[h].file, s.handlers[h].index);
      hide ValidConfig, LockHeld;
      UnderLockKeeps(c, s, s', h);
    }
  }

  // ----- the remaining steps -----

  /** Error-free progress does not look at the control loop. */
  lemma CleanFrame(c: Config, s: State, s': State)
    requires ValidPlans(Plans(c)) && ShapeOk(c, s) && ShapeOk(c, s') && CleanInv(c, s)
    requires s'.clean ==> s.clean
    requires s'.pool == s.pool && s'.senderBytes == s.senderBytes && s'.streams == s.streams
              && s'.handlers == s.handlers
    requires s'.resume == s.resume && s'.locks == s.locks && s'.subtracted == s.subtracted
    ensures CleanInv(c, s')
  {
    hide Genuine, GenuineStream, OnSender, OnStream, OnHandler, InQueue, PlanFor, SlotsRight, JobBytes, UnreportedAll,
         TotalBytes;
    if s'.clean {
      assert EndsOk(s') && GenuineOk(c, s') && BytesOk(c, s');
      forall f: nat, k: nat | IsChunk(c, f, k) && k !in s'.resume[f]
        ensures InFlight(s', f, k)
      {
        assert InFlight(s, f, k);
        if !InQueue(s.pool.queue, f, k) {
          var h :| 0 <= h < |s.handlers| && Carries(s, h, f, k);
          assert Carries(s', h, f, k);
        }
      }
      forall f: nat, k: nat | f < |c.sources| && k in s'.resume[f] && k !in s'.subtracted[f]
        ensures OnItsWay(s', f, k)
      {
        assert OnItsWay(s, f, k);
      }
    }
  }

  predicate IsControlStep(step: Step) {
    step.StartFinalize? || step.Rename? || step.FailIncomplete? || step.ClearRows? || IsLoopStep(step)
      || IsPhaseStep(step)
  }

  /** Neither channels nor handlers nor what is marked have changed. */
  predicate OnlyControl(c: Config, s: State, s': State) {
    && (ShapeOk(c, s) ==> ShapeOk(c, s')) && s'.clean == s.clean
    && s'.pool == s.pool && s'.senderBytes == s.senderBytes && s'.streams == s.streams
    && s'.handlers == s.handlers && s'.resume == s.resume && s'.locks == s.locks && s'.subtracted == s.subtracted
  }

  lemma PhaseFrame(c: Config, s: State, phase: ReceiverPhase)
    ensures OnlyControl(c, s, s.(receiver := phase))
  {
  }

  lemma RenameFrame(c: Config, s: State, renamed: set<nat>)
    ensures OnlyControl(c, s, s.(renamed := renamed))
  {
  }

  lemma ClearFrame(c: Config, s: State)
    ensures OnlyControl(c, s, DoClearRows(s))
  {
  }

  lemma OutcomeFrame(c: Config, s: State, sender: SenderPhase)
    ensures OnlyControl(c, s, s.(sender := sender)) && OnlyControl(c, s, s.(resultSent := true))
  {
  }

  lemma LoopStepFrame(c: Config, s: State, step: Step)
    requires ValidPlans(Plans(c)) && ShapeOk(c, s) && Enabled(c, s, step) && IsLoopStep(step)
    ensures OnlyControl(c, s, Apply(c, s, step))
  {
    hide Enabled, ValidPlans, Plans, NoneActive, DoSend, DoInspect, DoVerify, DoWritePiece, DoLockAndMark, DoRecordRow,
         DoCountBytes, DoSubtract, DoBreak, DoNewSession, DoClearRows, EndHandler, OnlyControl;
    match step
    case CheckCounter => PhaseFrame(c, s, Looked);
    case Subscribe => PhaseFrame(c, s, Receiving);
    case HandleMessage => PhaseFrame(c, s, Busy);
    case Wake => PhaseFrame(c, s, Woken);
    case LoadRemaining => PhaseFrame(c, s, SawRemaining);
    case LoadActive => PhaseFrame(c, s, if NoneActive(s.handlers) then GivingUp else Busy);
    case GiveUp => PhaseFrame(c, s, Stopped);
  }

  /** The control loop touches neither channels nor handlers nor what is marked. */
  lemma ControlStepFrame(c: Config, s: State, step: Step)
    requires ValidPlans(Plans(c)) && ShapeOk(c, s) && Enabled(c, s, step) && IsControlStep(step)
    ensures OnlyControl(c, s, Apply(c, s, step))
  {
    hide Enabled, ValidPlans, Plans, NoneActive, DoSend, DoInspect, DoVerify, DoWritePiece, DoLockAndMark, DoRecordRow,
         DoCountBytes, DoSubtract, DoBreak, DoNewSession, DoClearRows, EndHandler, OnlyControl;
    match step
    case Rename(f) => RenameFrame(c, s, s.renamed + {f});
    case ClearRows => ClearFrame(c, s);
    case SendResult => OutcomeFrame(c, s, s.sender);
    case AcceptResult => OutcomeFrame(c, s, SenderCompleted);
    case StopSender => OutcomeFrame(c, s, SenderStopped);
    case StartFinalize => PhaseFrame(c, s, Finalizing);
    case FailIncomplete(_) => PhaseFrame(c, s, Stopped);
    case CompleteReceiver => PhaseFrame(c, s, Completed);
    case StopReceiver => PhaseFrame(c, s, Stopped);
    case _ => LoopStepFrame(c, s, step);
  }

  lemma ControlStepKeepsClean(c: Config, s: State, step: Step)
    requires ValidConfig(c) && Inv(c, s) && CleanInv(c, s) && Enabled(c, s, step) && IsControlStep(step)
    ensures ShapeOk(c, Apply(c, s, step)) && CleanInv(c, Apply(c, s, step))
  {
    assert ShapeOk(c, s) && ValidPlans(Plans(c));
    hide Inv, CleanInv, ValidConfig, Enabled, ValidPlans, Plans, Apply;
    ControlStepFrame(c, s, step);
    CleanFrame(c, s, Apply(c, s, step));
  }

  lemma ErrorKeepsClean(c: Config, s: State, step: Step)
    requires ValidConfig(c) && Inv(c, s) && Enabled(c, s, step) && (step.Break? || step.Tamper?)
    ensures ShapeOk(c, Apply(c, s, step)) && CleanInv(c, Apply(c, s, step))
  {
  }

  // ----- a new session -----

  lemma {:induction false} NothingUnreported(channels: seq<Channel<ChunkJob>>)
    requires forall h | 0 <= h < |channels| :: channels[h] == Channel(Top, None, [])
    ensures UnreportedAll(channels) == 0
  {
    if channels != [] {
      NothingUnreported(channels[1..]);
    }
  }

  /** No channels are opened only when there are no jobs. */
  lemma NoChannelsNoJobs(c: Config, resume: seq<set<nat>>)
    requires ValidPlans(Plans(c)) && Fits(Plans(c), resume)
    ensures var jobs := MissingJobs(Plans(c), resume, 0);
            && |jobs| == Remaining(Plans(c), resume, 0)
            && (ChannelCount(|jobs|, |jobs|) == 0 <==> jobs == [])
            && JobBytes(jobs) <= TotalBytes(Plans(c), 0)
  {
    hide ChunkPlan.At, ChunkPlan.Valid, PlanFor, MissingJobs, Remaining, JobBytes, DoneBytes, TotalBytes;
    JobSums(Plans(c), resume, 0);
  }

  lemma OpenFlight(c: Config, disk: seq<Bytes>, renamed: set<nat>, recorded: seq<set<nat>>, lost: set<nat>)
    requires ValidConfig(c) && |disk| == |recorded| == |c.sources|
    ensures var s := Open(c, disk, renamed, recorded, lost); ShapeOk(c, s) && FlightOk(c, s)
  {
    hide ChunkPlan.At, ChunkPlan.Valid, PlanFor, MissingJobs, Remaining, JobBytes, DoneBytes, TotalBytes, Below,
         ChannelCount, OpenedDisk, Known, AddProgress;
    var s := Open(c, disk, renamed, recorded, lost);
    forall f: nat, k: nat | IsChunk(c, f, k) && k !in s.resume[f]
      ensures InFlight(s, f, k)
    {
      var job := ChunkJob(f, Plans(c)[f].At(k));
      IndexOfAt(Plans(c)[f], k);
      EveryMissingIsAJob(Plans(c), Known(c, recorded), 0, job);
      var i :| 0 <= i < |s.pool.queue| && s.pool.queue[i] == job;
      assert IsFor(s.pool.queue[i], f, k);
    }
  }

  lemma KnownFits(c: Config, recorded: seq<set<nat>>)
    requires |recorded| == |c.sources|
    ensures Fits(Plans(c), Known(c, recorded))
  {
    hide PlanFor, Below;
  }

  lemma FreshEnds(c: Config, s: State, jobs: seq<ChunkJob>, n: nat)
    requires ValidPlans(Plans(c)) && ShapeOk(c, s)
    requires s.pool == Start(jobs, n) && (n == 0 ==> jobs == [])
    requires |s.streams| == n && forall h | 0 <= h < n :: s.streams[h] == [] && s.handlers[h] == Detached
    ensures EndsOk(s) && GenuineOk(c, s) && UnreportedAll(s.pool.channels) == 0
  {
    hide Genuine, Plans;
    NothingUnreported(s.pool.channels);
  }

  lemma OpenIsClean(c: Config, disk: seq<Bytes>, renamed: set<nat>, recorded: seq<set<nat>>, lost: set<nat>)
    requires ValidConfig(c) && |disk| == |recorded| == |c.sources|
    ensures var s := Open(c, disk, renamed, recorded, lost); ShapeOk(c, s) && CleanInv(c, s)
  {
    OpenFlight(c, disk, renamed, recorded, lost);
    KnownFits(c, recorded);
    NoChannelsNoJobs(c, Known(c, recorded));
    hide MissingJobs, Remaining, JobBytes, DoneBytes, TotalBytes, Below, ChannelCount, OpenedDisk, Known, AddProgress,
         FlightOk, Fits, UnreportedAll, ValidPlans, Plans, ValidConfig, EndsOk, GenuineOk, OnItsWay, Start;
    var s := Open(c, disk, renamed, recorded, lost);
    FreshEnds(c, s, MissingJobs(Plans(c), Known(c, recorded), 0), |s.handlers|);
  }

  // ----- every step, every run -----

  lemma StepKeepsClean(c: Config, s: State, step: Step)
    requires ValidPlans(Plans(c)) && ValidConfig(c) && ShapeOk(c, s) && Inv(c, s) && CleanInv(c, s)
              && Enabled(c, s, step)
    ensures ShapeOk(c, Apply(c, s, step)) && CleanInv(c, Apply(c, s, step))
  {
    hide Inv, CleanInv, ValidConfig, Enabled, ValidPlans, Plans, Open, DoSend, Apply;
    match step
    case NewSession => NewSessionIsClean(c, s);
    case Send(h, work) => SendKeepsClean(c, s, h, work);
    case Attach(h) => AttachKeepsClean(c, s, h);
    case Receive(h) => ReceiveKeepsClean(c, s, h);
    case Inspect(h) => InspectKeepsClean(c, s, h);
    case Verify(h) => VerifyKeepsClean(c, s, h);
    case WritePiece(h, n) => WritePieceKeepsClean(c, s, h, n);
    case LockAndMark(h) => LockAndMarkKeepsClean(c, s, h);
    case RecordRow(h) => RecordRowKeepsClean(c, s, h);
    case CountBytes(h) => CountBytesKeepsClean(c, s, h);
    case Subtract(h) => SubtractKeepsClean(c, s, h);
    case EndOfStream(h) => EndOfStreamKeepsClean(c, s, h);
    case Break(_) => ErrorKeepsClean(c, s, step);
    case Tamper(_, _) => ErrorKeepsClean(c, s, step);
    case _ => ControlStepKeepsClean(c, s, step);
  }

  lemma NewSessionIsClean(c: Config, s: State)
    requires ValidConfig(c) && Inv(c, s) && Enabled(c, s, NewSession)
    ensures ShapeOk(c, Apply(c, s, NewSession)) && CleanInv(c, Apply(c, s, NewSession))
  {
    OpenIsClean(c, s.disk, s.renamed, s.recorded, if s.rowsCleared then {} else s.lost + s.renamed);
  }

  lemma {:induction false} RunKeepsClean(c: Config, junk: seq<Bytes>, steps: seq<Step>)
    requires ValidPlans(Plans(c)) && ValidConfig(c) && |junk| == |c.sources| && After(c, junk, steps).Some?
    ensures var s := After(c, junk, steps).value; Inv(c, s) && ShapeOk(c, s) && CleanInv(c, s)
    decreases |steps|
  {
    RunKeepsInv(c, junk, steps);
    assert ShapeOk(c, After(c, junk, steps).value);
    hide Inv, CleanInv, Enabled, Apply, ValidConfig, Open, ValidPlans, Plans;
    if steps == [] {
      OpenIsClean(c, junk, {}, seq(|junk|, _ => {}), {});
    } else {
      RunKeepsClean(c, junk, steps[..|steps| - 1]);
      StepKeepsClean(c, After(c, junk, steps[..|steps| - 1]).value, steps[|steps| - 1]);
    }
  }
}
