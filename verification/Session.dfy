/** One transfer as a step system: the sender's channels, the network between, the receiver's concurrent channel
    handlers and its control loop, and any number of sessions over one disk and one table of recorded chunks.
    Entry `f` of the transfer has source bytes `sources[f]`. A step is what the program does between two lock or
    atomic operations. */
module Session {
  import opened Wrappers
  import opened Chunks
  import opened Storage
  import opened Jobs
  import opened WorkQueue

  /** The sources, and the hash function both sides use. */
  datatype Config = Config(sources: seq<Bytes>, hash: Bytes -> Bytes)

  function PlanFor(source: Bytes): ChunkPlan {
    ChunkPlan(|source|, DEFAULT_CHUNK_SIZE, DivCeil(|source|, DEFAULT_CHUNK_SIZE))
  }

  function PlansFor(sources: seq<Bytes>): (plans: seq<ChunkPlan>)
    ensures |plans| == |sources|
    ensures forall f | 0 <= f < |plans| :: plans[f] == PlanFor(sources[f])
  {
    if sources == [] then [] else [PlanFor(sources[0])] + PlansFor(sources[1..])
  }

  function Plans(c: Config): (plans: seq<ChunkPlan>)
    ensures |plans| == |c.sources|
    ensures forall f | 0 <= f < |plans| :: plans[f] == PlanFor(c.sources[f])
  {
    PlansFor(c.sources)
  }

  /** The (entry, chunk) pairs of the transfer. */
  predicate IsChunk(c: Config, f: nat, k: nat) {
    f < |c.sources| && k < Plans(c)[f].chunkCount
  }

  ghost predicate Plannable(c: Config) {
    ValidPlans(Plans(c)) && TotalBytes(Plans(c), 0) <= U64_MAX
  }

  function SourceChunk(c: Config, f: nat, k: nat): Bytes
    requires ValidPlans(Plans(c)) && IsChunk(c, f, k)
  {
    ChunksAbut(Plans(c)[f], k);
    Slice(c.sources[f], Plans(c)[f].At(k))
  }

  /** What is assumed of the hash: no bytes other than a source chunk's own have that chunk's digest. */
  ghost predicate NoSecondPreimage(c: Config)
    requires ValidPlans(Plans(c))
  {
    forall f: nat, k: nat, b: Bytes | IsChunk(c, f, k) && c.hash(b) == c.hash(SourceChunk(c, f, k)) ::
      b == SourceChunk(c, f, k)
  }

  ghost predicate ValidConfig(c: Config) {
    Plannable(c) && NoSecondPreimage(c)
  }

  // ----- state -----

  datatype Packet = Packet(file: nat, spec: ChunkSpec, digest: Bytes, payload: Bytes)

  /** Where the receiver's handler of one data channel is. From `Marked` to `Counted` it holds the resume lock of
      its file. */
  datatype Handler =
    | Detached
    | Reading
    | Got(packet: Packet)
    | Checked(packet: Packet)
    | Writing(packet: Packet, written: nat)
    | Marked(file: nat, index: nat)
    | Recorded(file: nat, index: nat)
    | Counted(file: nat, index: nat)
    | Ended(ok: bool)

  datatype SenderPhase = Sending | SenderCompleted | SenderStopped

  /** Where the receiver's control connection is. It is `Busy` before it first waits, with a message, and back at the
      head of its loop; `Looked` has loaded a counter above zero there and goes on to wait. `Receiving` waits: a
      notification reaches it in this phase alone, and makes it `Called`. A message that is there as well may still be
      taken first; otherwise it is `Woken`. `SawRemaining` has then loaded a counter above zero, `GivingUp` after that
      no active channel, and it looks at neither again. */
  datatype ReceiverPhase =
    | Busy
    | Looked
    | Receiving
    | Called
    | Woken
    | SawRemaining
    | GivingUp
    | Finalizing
    | Cleared
    | Completed
    | Stopped

  datatype State = State(
    // the sender
    sender: SenderPhase,
    pool: Pool<ChunkJob>,
    senderBytes: nat,
    // the network
    streams: seq<seq<Packet>>,
    resultSent: bool,
    // the receiver's memory
    receiver: ReceiverPhase,
    handlers: seq<Handler>,
    resume: seq<set<nat>>,
    locks: seq<Option<nat>>,
    remaining: nat,
    receiverBytes: nat,
    // the receiver's storage; once a file is renamed, `disk` is what stands under its final name
    disk: seq<Bytes>,
    renamed: set<nat>,
    recorded: seq<set<nat>>,
    // history, read by no step
    rowsCleared: bool,
    lost: set<nat>,
    counted: seq<set<nat>>,
    subtracted: seq<set<nat>>,
    clean: bool)

  // ----- opening a session -----

  /** The number of data channels both sides settle on. */
  function ChannelCount(remaining: nat, jobs: nat): nat {
    Min(Min(Min(remaining, MAX_DATA_CHANNELS), MAX_DATA_CHANNELS), if jobs > 1 then jobs else 1)
  }

  /** The part files a session starts from: a renamed one is gone and is created anew. */
  function OpenedDisk(c: Config, disk: seq<Bytes>, renamed: set<nat>): (r: seq<Bytes>)
    requires |disk| == |c.sources|
    ensures |r| == |disk|
    ensures forall f | 0 <= f < |r| :: r[f] == Resized(if f in renamed then [] else disk[f], |c.sources[f]|)
  {
    seq(|disk|, f requires 0 <= f < |disk| => Resized(if f in renamed then [] else disk[f], |c.sources[f]|))
  }

  function Known(c: Config, recorded: seq<set<nat>>): (r: seq<set<nat>>)
    requires |recorded| == |c.sources|
    ensures |r| == |recorded|
    ensures forall f | 0 <= f < |r| :: r[f] == recorded[f] * Below(Plans(c)[f].chunkCount)
  {
    seq(|recorded|, f requires 0 <= f < |recorded| => recorded[f] * Below(Plans(c)[f].chunkCount))
  }

  /** A new session: the receiver prepares from disk and table, the sender builds its jobs from the answer. */
  function Open(c: Config, disk: seq<Bytes>, renamed: set<nat>, recorded: seq<set<nat>>, lost: set<nat>): State
    requires ValidPlans(Plans(c)) && |disk| == |recorded| == |c.sources|
  {
    var plans, resume := Plans(c), Known(c, recorded);
    var jobs, total := MissingJobs(plans, resume, 0), TotalBytes(plans, 0);
    var left := Remaining(plans, resume, 0);
    var remaining := if left < 0 then 0 else left;
    var channels := ChannelCount(remaining, |jobs|);
    State(
      Sending, Start(jobs, channels), Min(if total < JobBytes(jobs) then 0 else total - JobBytes(jobs), total),
      seq(channels, _ => []), false,
      Busy, seq(channels, _ => Detached), resume, seq(|disk|, _ => None), remaining,
      AddProgress(0, DoneBytes(plans, resume, 0), total),
      OpenedDisk(c, disk, renamed), {}, recorded,
      false, lost, resume, resume, true)
  }

  // ----- steps -----

  datatype Step =
    | NewSession
    | Send(channel: nat, work: Work)
    | Attach(channel: nat)
    | Receive(channel: nat)
    | Inspect(channel: nat)
    | Verify(channel: nat)
    | WritePiece(channel: nat, n: nat)
    | LockAndMark(channel: nat)
    | RecordRow(channel: nat)
    | CountBytes(channel: nat)
    | Subtract(channel: nat)
    | EndOfStream(channel: nat)
    | Break(channel: nat)
    | Tamper(channel: nat, packets: seq<Packet>)
    | StartFinalize
    | Rename(file: nat)
    | FailIncomplete(file: nat)
    | ClearRows
    | CompleteReceiver
    | SendResult
    | CheckCounter
    | Subscribe
    | HandleMessage
    | Wake
    | LoadRemaining
    | LoadActive
    | GiveUp
    | StopReceiver
    | AcceptResult
    | StopSender

  predicate ShapeOk(c: Config, s: State) {
    && |s.resume| == |s.locks| == |s.disk| == |s.recorded| == |s.counted| == |s.subtracted| == |c.sources|
    && |s.streams| == |s.handlers| == |s.pool.channels|
  }

  /** A packet whose header is the sender's for some chunk; its payload may be anything of that length. */
  predicate HonestHeader(c: Config, p: Packet)
    requires ValidPlans(Plans(c))
  {
    && IsChunk(c, p.file, p.spec.index)
    && p.spec == Plans(c)[p.file].At(p.spec.index)
    && p.digest == c.hash(SourceChunk(c, p.file, p.spec.index))
    && |p.payload| == p.spec.length
  }

  predicate InPlan(c: Config, p: Packet)
    requires ValidPlans(Plans(c))
  {
    p.file < |c.sources| && Plans(c)[p.file].Chunk(p.spec.index) == Ok(p.spec)
  }

  /** What may arrive on a channel: any packet outside the plan, and inside it one with the sender's header. */
  predicate MayArrive(c: Config, p: Packet)
    requires ValidPlans(Plans(c))
  {
    InPlan(c, p) ==> HonestHeader(c, p)
  }

  function HandlerOf(s: State, h: nat): Handler {
    if h < |s.handlers| then s.handlers[h] else Detached
  }

  predicate HoldsLock(handler: Handler) {
    handler.Marked? || handler.Recorded? || handler.Counted?
  }

  predicate Free(s: State, f: nat) {
    f < |s.locks| && s.locks[f].None?
  }

  predicate Attached(handler: Handler) {
    !handler.Detached? && !handler.Ended?
  }

  /** `active_channels` is zero. */
  predicate NoneActive(handlers: seq<Handler>) {
    forall h | 0 <= h < |handlers| :: !Attached(handlers[h])
  }

  /** Some channel has ended and none is attached: `active_channels` has gone back to zero. */
  predicate NoneAttached(s: State) {
    (exists h | 0 <= h < |s.handlers| :: s.handlers[h].Ended?) && NoneActive(s.handlers)
  }

  /** The control loop has been notified and acts on it, unless a message comes first. */
  predicate Awake(phase: ReceiverPhase) {
    phase.Called? || phase.Woken? || phase.SawRemaining? || phase.GivingUp?
  }

  /** The control loop still expects chunks, or is on its way to giving up. */
  predicate InLoop(phase: ReceiverPhase) {
    phase.Busy? || phase.Looked? || phase.Receiving? || Awake(phase)
  }

  /** `notify_waiters`: it leaves nothing behind for a control loop that does not wait. */
  function Notified(phase: ReceiverPhase): ReceiverPhase {
    if phase.Receiving? then Called else phase
  }

  predicate Complete(c: Config, s: State, f: nat)
    requires f < |c.sources| && f < |s.resume|
  {
    s.resume[f] == Below(Plans(c)[f].chunkCount)
  }

  ghost predicate Enabled(c: Config, s: State, step: Step)
    requires ValidPlans(Plans(c)) && ShapeOk(c, s)
  {
    match step
    case NewSession => !s.sender.SenderCompleted?
    case Send(h, work) => s.sender.Sending? && Can(s.pool, h, work)
    case Attach(h) => h < |s.handlers| && s.handlers[h].Detached? && !s.receiver.Stopped?
    case Receive(h) => HandlerOf(s, h).Reading? && s.streams[h] != []
    case Inspect(h) => HandlerOf(s, h).Got? && (InPlan(c, s.handlers[h].packet) ==> Free(s, s.handlers[h].packet.file))
    case Verify(h) => HandlerOf(s, h).Checked?
    case WritePiece(h, n) =>
      HandlerOf(s, h).Writing? && n > 0 && s.handlers[h].written + n <= |s.handlers[h].packet.payload|
      && s.handlers[h].packet.file < |s.disk|
    case LockAndMark(h) =>
      HandlerOf(s, h).Writing? && s.handlers[h].written == |s.handlers[h].packet.payload|
      && Free(s, s.handlers[h].packet.file)
    case RecordRow(h) => HandlerOf(s, h).Marked? && s.handlers[h].file < |s.recorded|
    case CountBytes(h) => HandlerOf(s, h).Recorded? && IsChunk(c, s.handlers[h].file, s.handlers[h].index)
    case Subtract(h) => HandlerOf(s, h).Counted? && s.handlers[h].file < |s.locks|
    case EndOfStream(h) =>
      HandlerOf(s, h).Reading? && s.streams[h] == [] && (s.clean ==> !Running(s.pool.channels[h]))
    case Break(h) => h < |s.handlers| && Attached(s.handlers[h])
    case Tamper(h, packets) => h < |s.streams| && forall p | p in packets :: MayArrive(c, p)
    case StartFinalize => (s.receiver.Busy? || s.receiver.Woken?) && s.remaining == 0
    case Rename(f) => s.receiver.Finalizing? && f !in s.renamed && Free(s, f) && Complete(c, s, f)
    case FailIncomplete(f) => s.receiver.Finalizing? && f !in s.renamed && Free(s, f) && !Complete(c, s, f)
    case ClearRows => s.receiver.Finalizing? && s.renamed == Below(|c.sources|)
    case CompleteReceiver => s.receiver.Cleared?
    case SendResult => s.receiver.Completed?
    case CheckCounter => s.receiver.Busy? && s.remaining != 0
    case Subscribe => s.receiver.Looked?
    case HandleMessage => s.receiver.Receiving? || s.receiver.Called?
    case Wake => s.receiver.Called?
    case LoadRemaining => s.receiver.Woken? && s.remaining != 0
    case LoadActive => s.receiver.SawRemaining?
    case GiveUp => s.receiver.GivingUp?
    case StopReceiver => !s.receiver.Completed?
    case AcceptResult => s.sender.Sending? && s.resultSent
    case StopSender => s.sender.Sending?
  }

  function SetHandler(s: State, h: nat, handler: Handler): State
    requires h < |s.handlers|
  {
    s.(handlers := s.handlers[h := handler])
  }

  /** A handler ends: its channel is no longer active, and the last one to go notifies the control loop. */
  function EndHandler(s: State, h: nat, ok: bool): State
    requires h < |s.handlers|
  {
    var after := SetHandler(s, h, Ended(ok));
    after.(receiver := if NoneActive(after.handlers) then Notified(s.receiver) else s.receiver)
  }

  // the sender's side

  function PacketFor(c: Config, job: ChunkJob): Packet
    requires ValidPlans(Plans(c)) && IsChunk(c, job.entryIndex, job.spec.index)
  {
    var bytes := SourceChunk(c, job.entryIndex, job.spec.index);
    Packet(job.entryIndex, job.spec, c.hash(bytes), bytes)
  }

  /** The effect of a channel step besides the pool: a write puts the packet on the channel's stream, accounting
      advances the sender's progress, a failure ends the run's being error-free. */
  function DoSend(c: Config, s: State, h: nat, work: Work): State
    requires ValidPlans(Plans(c)) && ShapeOk(c, s) && Can(s.pool, h, work)
  {
    var phase := s.pool.channels[h].phase;
    var next := s.(pool := Do(s.pool, h, work));
    match work
    case Write =>
      if IsChunk(c, phase.job.entryIndex, phase.job.spec.index)
      then next.(streams := s.streams[h := s.streams[h] + [PacketFor(c, phase.job)]])
      else next
    case Account => next.(senderBytes := AddProgress(s.senderBytes, phase.job.spec.length, TotalBytes(Plans(c), 0)))
    case Fail => next.(clean := false)
    case _ => next
  }

  // the handler's side

  /** The header checks and the first look at the resume map. */
  function DoInspect(c: Config, s: State, h: nat): State
    requires ValidPlans(Plans(c)) && ShapeOk(c, s) && HandlerOf(s, h).Got?
  {
    var p := s.handlers[h].packet;
    if !InPlan(c, p) then EndHandler(s, h, false)
    else if p.spec.index !in s.resume[p.file] then SetHandler(s, h, Checked(p))
    else if c.hash(p.payload) != p.digest then EndHandler(s, h, false)
    else SetHandler(s, h, Reading)
  }

  function DoVerify(c: Config, s: State, h: nat): State
    requires HandlerOf(s, h).Checked?
  {
    var p := s.handlers[h].packet;
    if VerifyChunk(c.hash, VerifiedChunk(p.spec, p.digest, p.payload)).Ok? then SetHandler(s, h, Writing(p, 0))
    else EndHandler(s, h, false)
  }

  function DoWritePiece(s: State, h: nat, n: nat): State
    requires HandlerOf(s, h).Writing? && s.handlers[h].written + n <= |s.handlers[h].packet.payload|
    requires s.handlers[h].packet.file < |s.disk|
  {
    var p, d := s.handlers[h].packet, s.handlers[h].written;
    SetHandler(s, h, Writing(p, d + n)).(
      disk := s.disk[p.file := Patch(s.disk[p.file], p.spec.offset + d, p.payload[d..d + n])])
  }

  function DoLockAndMark(s: State, h: nat): State
    requires HandlerOf(s, h).Writing? && s.handlers[h].packet.file < |s.locks| == |s.resume|
  {
    var f, k := s.handlers[h].packet.file, s.handlers[h].packet.spec.index;
    if k in s.resume[f] then SetHandler(s, h, Reading)
    else SetHandler(s, h, Marked(f, k)).(resume := Mark(s.resume, f, k), locks := s.locks[f := Some(h)])
  }

  function DoRecordRow(s: State, h: nat): State
    requires HandlerOf(s, h).Marked? && s.handlers[h].file < |s.recorded|
  {
    var f, k := s.handlers[h].file, s.handlers[h].index;
    SetHandler(s, h, Recorded(f, k)).(recorded := Mark(s.recorded, f, k))
  }

  function DoCountBytes(c: Config, s: State, h: nat): State
    requires ValidPlans(Plans(c)) && HandlerOf(s, h).Recorded? && |s.counted| == |c.sources|
    requires IsChunk(c, s.handlers[h].file, s.handlers[h].index)
  {
    var f, k := s.handlers[h].file, s.handlers[h].index;
    SetHandler(s, h, Counted(f, k)).(
      receiverBytes := AddProgress(s.receiverBytes, Plans(c)[f].At(k).length, TotalBytes(Plans(c), 0)),
      counted := Mark(s.counted, f, k))
  }

  /** `fetch_sub` on a u64: it would wrap at zero. */
  function WrappingDecrement(n: nat): nat {
    if n == 0 then U64_MAX else n - 1
  }

  function DoSubtract(s: State, h: nat): State
    requires HandlerOf(s, h).Counted? && s.handlers[h].file < |s.locks| == |s.subtracted|
  {
    var f, k := s.handlers[h].file, s.handlers[h].index;
    SetHandler(s, h, Reading).(
      remaining := WrappingDecrement(s.remaining),
      receiver := if s.remaining == 1 then Notified(s.receiver) else s.receiver,
      locks := s.locks[f := None],
      subtracted := Mark(s.subtracted, f, k))
  }

  /** An error ends the handler; a lock it held is released, but its mark stays. */
  function DoBreak(s: State, h: nat): State
    requires h < |s.handlers|
  {
    var handler := s.handlers[h];
    EndHandler(s, h, false).(
      clean := false,
      locks := if HoldsLock(handler) && handler.file < |s.locks| then s.locks[handler.file := None] else s.locks)
  }

  function DoClearRows(s: State): State {
    s.(receiver := Cleared, rowsCleared := true, recorded := seq(|s.recorded|, _ => {}))
  }

  function DoNewSession(c: Config, s: State): State
    requires ValidPlans(Plans(c)) && ShapeOk(c, s)
  {
    Open(c, s.disk, s.renamed, s.recorded, if s.rowsCleared then {} else s.lost + s.renamed)
  }

  function Apply(c: Config, s: State, step: Step): State
    requires ValidPlans(Plans(c)) && ShapeOk(c, s) && Enabled(c, s, step)
  {
    match step
    case NewSession => DoNewSession(c, s)
    case Send(h, work) => DoSend(c, s, h, work)
    case Attach(h) => SetHandler(s, h, Reading)
    case Receive(h) => SetHandler(s, h, Got(s.streams[h][0])).(streams := s.streams[h := s.streams[h][1..]])
    case Inspect(h) => DoInspect(c, s, h)
    case Verify(h) => DoVerify(c, s, h)
    case WritePiece(h, n) => DoWritePiece(s, h, n)
    case LockAndMark(h) => DoLockAndMark(s, h)
    case RecordRow(h) => DoRecordRow(s, h)
    case CountBytes(h) => DoCountBytes(c, s, h)
    case Subtract(h) => DoSubtract(s, h)
    case EndOfStream(h) => EndHandler(s, h, true)
    case Break(h) => DoBreak(s, h)
    case Tamper(h, packets) => s.(streams := s.streams[h := packets], clean := false)
    case StartFinalize => s.(receiver := Finalizing)
    case Rename(f) => s.(renamed := s.renamed + {f})
    case FailIncomplete(f) => s.(receiver := Stopped)
    case ClearRows => DoClearRows(s)
    case CompleteReceiver => s.(receiver := Completed)
    case SendResult => s.(resultSent := true)
    case CheckCounter => s.(receiver := Looked)
    case Subscribe => s.(receiver := Receiving)
    case HandleMessage => s.(receiver := Busy)
    case Wake => s.(receiver := Woken)
    case LoadRemaining => s.(receiver := SawRemaining)
    case LoadActive => s.(receiver := if NoneActive(s.handlers) then GivingUp else Busy)
    case GiveUp => s.(receiver := Stopped)
    case StopReceiver => s.(receiver := Stopped)
    case AcceptResult => s.(sender := SenderCompleted)
    case StopSender => s.(sender := SenderStopped)
  }

  // ----- runs -----

  /** The first session over part files of any contents, with no chunk recorded. */
  function Initial(c: Config, junk: seq<Bytes>): State
    requires ValidPlans(Plans(c)) && |junk| == |c.sources|
  {
    Open(c, junk, {}, seq(|junk|, _ => {}), {})
  }

  /** The state a list of steps leads to, if each was possible when it was taken. */
  ghost function After(c: Config, junk: seq<Bytes>, steps: seq<Step>): (r: Option<State>)
    requires ValidPlans(Plans(c)) && |junk| == |c.sources|
    decreases |steps|
  {
    if steps == [] then Some(Initial(c, junk))
    else
      match After(c, junk, steps[..|steps| - 1])
      case None => None
      case Some(before) =>
        var last := steps[|steps| - 1];
        if ShapeOk(c, before) && Enabled(c, before, last) then Some(Apply(c, before, last)) else None
  }
}
