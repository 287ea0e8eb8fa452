/** The sender's shared job queue and the channels that pull from it, each with one prefetch slot. */
module WorkQueue {
  import opened Wrappers

  /** Where a channel is in its loop; `Failed` keeps the job it dropped. */
  datatype Phase<+J> =
    | Top
    | Holding(job: J)
    | Ready(job: J)
    | Accounting(job: J)
    | Exited
    | Failed(lost: Option<J>)

  datatype Channel<+J> = Channel(phase: Phase<J>, prefetched: Option<J>, sent: seq<J>)

  datatype Pool<+J> = Pool(queue: seq<J>, channels: seq<Channel<J>>)

  /** The steps of one channel; each runs between two lock operations of the loop. */
  datatype Work = TakePrefetched | Pop | Leave | Prefetch | Write | Account | Fail

  function Start<J>(jobs: seq<J>, channels: nat): Pool<J> {
    Pool(jobs, seq(channels, _ => Channel(Top, None, [])))
  }

  predicate Running<J>(ch: Channel<J>) {
    !ch.phase.Exited? && !ch.phase.Failed?
  }

  predicate Can<J>(pool: Pool<J>, c: nat, work: Work) {
    c < |pool.channels| &&
    var ch := pool.channels[c];
    match work
    case TakePrefetched => ch.phase.Top? && ch.prefetched.Some?
    case Pop => ch.phase.Top? && ch.prefetched.None? && pool.queue != []
    case Leave => ch.phase.Top? && ch.prefetched.None? && pool.queue == []
    case Prefetch => ch.phase.Holding?
    case Write => ch.phase.Ready?
    case Account => ch.phase.Accounting?
    case Fail => Running(ch)
  }

  function Do<J>(pool: Pool<J>, c: nat, work: Work): (pool': Pool<J>)
    requires Can(pool, c, work)
    ensures |pool'.channels| == |pool.channels|
    ensures forall d | 0 <= d < |pool.channels| && d != c :: pool'.channels[d] == pool.channels[d]
  {
    var ch := pool.channels[c];
    match work
    case TakePrefetched =>
      pool.(channels := pool.channels[c := ch.(phase := Holding(ch.prefetched.value), prefetched := None)])
    case Pop =>
      Pool(pool.queue[1..], pool.channels[c := ch.(phase := Holding(pool.queue[0]))])
    case Leave =>
      pool.(channels := pool.channels[c := ch.(phase := Exited)])
    case Prefetch =>
      if pool.queue == [] then pool.(channels := pool.channels[c := ch.(phase := Ready(ch.phase.job))])
      else Pool(pool.queue[1..],
                pool.channels[c := ch.(phase := Ready(ch.phase.job), prefetched := Some(pool.queue[0]))])
    case Write =>
      pool.(channels := pool.channels[c := ch.(phase := Accounting(ch.phase.job), sent := ch.sent + [ch.phase.job])])
    case Account =>
      pool.(channels := pool.channels[c := ch.(phase := Top)])
    case Fail =>
      var lost := if ch.phase.Holding? || ch.phase.Ready? then Some(ch.phase.job) else None;
      pool.(channels := pool.channels[c := ch.(phase := Failed(lost))])
  }

  datatype Move = Move(channel: nat, work: Work)

  /** A run of the channels in any interleaving, as far as its moves are possible. */
  function Run<J>(pool: Pool<J>, moves: seq<Move>): Option<Pool<J>>
    decreases |moves|
  {
    if moves == [] then Some(pool)
    else
      match Run(pool, moves[..|moves| - 1])
      case None => None
      case Some(before) =>
        var last := moves[|moves| - 1];
        if Can(before, last.channel, last.work) then Some(Do(before, last.channel, last.work)) else None
  }

  // ----- conservation -----

  /** The job a channel has taken but not yet written. */
  function InHand<J>(ch: Channel<J>): seq<J> {
    match ch.phase
    case Holding(job) => [job]
    case Ready(job) => [job]
    case Failed(Some(job)) => [job]
    case _ => []
  }

  function InSlot<J>(ch: Channel<J>): seq<J> {
    match ch.prefetched
    case Some(job) => [job]
    case None => []
  }

  /** Everything a channel has ever taken from the queue, in the order it took it. */
  function Taken<J>(ch: Channel<J>): seq<J> {
    ch.sent + InHand(ch) + InSlot(ch)
  }

  /** The jobs `part` finds in each channel, all together. */
  ghost function Total<J(!new)>(part: Channel<J> -> seq<J>, channels: seq<Channel<J>>): multiset<J> {
    if channels == [] then multiset{} else multiset(part(channels[0])) + Total(part, channels[1..])
  }

  lemma {:induction false} TotalUpdate<J(!new)>(
    part: Channel<J> -> seq<J>, channels: seq<Channel<J>>, c: nat, ch: Channel<J>)
    requires c < |channels|
    ensures Total(part, channels[c := ch]) + multiset(part(channels[c])) == Total(part, channels) + multiset(part(ch))
  {
    var after := channels[c := ch];
    if c == 0 {
      assert after[1..] == channels[1..];
    } else {
      TotalUpdate(part, channels[1..], c - 1, ch);
      assert after[1..] == channels[1..][c - 1 := ch];
      var head, old', new' := multiset(part(channels[0])), Total(part, channels[1..]), Total(part, after[1..]);
      AddToBoth(head, new', multiset(part(channels[c])), old', multiset(part(ch)));
    }
  }

  lemma AddToBoth<J>(head: multiset<J>, a: multiset<J>, x: multiset<J>, b: multiset<J>, y: multiset<J>)
    requires a + x == b + y
    ensures (head + a) + x == (head + b) + y
  {
    assert (head + a) + x == head + (a + x);
    assert (head + b) + y == head + (b + y);
  }

  ghost function TakenPart<J>(): Channel<J> -> seq<J> {
    ch => Taken(ch)
  }

  ghost function SentPart<J>(): Channel<J> -> seq<J> {
    (ch: Channel<J>) => ch.sent
  }

  /** A channel that left its loop strands nothing in its slot and found the queue empty. */
  ghost predicate SlotsRight<J(!new)>(pool: Pool<J>) {
    && (forall c | 0 <= c < |pool.channels| :: pool.channels[c].phase.Exited? ==>
          pool.channels[c].prefetched.None? && pool.queue == [])
    && (forall c | 0 <= c < |pool.channels| :: pool.channels[c].phase.Holding? ==> pool.channels[c].prefetched.None?)
  }

  ghost predicate Conserved<J(!new)>(jobs: seq<J>, pool: Pool<J>) {
    && multiset(pool.queue) + Total(TakenPart(), pool.channels) == multiset(jobs)
    && SlotsRight(pool)
  }

  lemma {:induction false} NothingTaken<J(!new)>(channels: seq<Channel<J>>)
    requires forall c | 0 <= c < |channels| :: channels[c] == Channel(Top, None, [])
    ensures Total(TakenPart(), channels) == multiset{}
  {
    if channels != [] {
      NothingTaken(channels[1..]);
    }
  }

  /** A step either leaves the queue and the channel's taken jobs alone, or moves the queue's first job to the end
      of what the channel has taken. */
  lemma TakenStep<J(!new)>(pool: Pool<J>, c: nat, work: Work)
    requires Can(pool, c, work)
    requires pool.channels[c].phase.Holding? ==> pool.channels[c].prefetched.None?
    ensures var pool' := Do(pool, c, work);
            var ch, ch' := pool.channels[c], pool'.channels[c];
            if pool'.queue == pool.queue then Taken(ch') == Taken(ch)
            else pool.queue != [] && pool'.queue == pool.queue[1..] && Taken(ch') == Taken(ch) + [pool.queue[0]]
  {
  }

  lemma StepKeepsSlots<J(!new)>(pool: Pool<J>, c: nat, work: Work)
    requires SlotsRight(pool) && Can(pool, c, work)
    ensures SlotsRight(Do(pool, c, work))
  {
  }

  /** Moving at most the queue's first job behind the taken ones keeps the whole. */
  lemma MoveKeepsWhole<J>(
    whole: multiset<J>, queue: seq<J>, queue': seq<J>, taken: seq<J>, taken': seq<J>, before: multiset<J>,
        after: multiset<J>)
    requires multiset(queue) + before == whole
    requires after + multiset(taken) == before + multiset(taken')
    requires if queue' == queue then taken' == taken
             else queue != [] && queue' == queue[1..] && taken' == taken + [queue[0]]
    ensures multiset(queue') + after == whole
  {
    if queue' == queue {
      MoveOne(multiset(queue), multiset{}, after, multiset(taken), before);
    } else {
      assert queue == [queue[0]] + queue';
      MoveOne(multiset(queue'), multiset{queue[0]}, after, multiset(taken), before);
    }
  }

  lemma StepConserves<J(!new)>(jobs: seq<J>, pool: Pool<J>, c: nat, work: Work)
    requires Conserved(jobs, pool) && Can(pool, c, work)
    ensures Conserved(jobs, Do(pool, c, work))
  {
    StepKeepsSlots(pool, c, work);
    TakenStep(pool, c, work);
    ChannelsAfter(pool, c, work);
    var pool' := Do(pool, c, work);
    TotalUpdate(TakenPart(), pool.channels, c, pool'.channels[c]);
    MoveKeepsWhole(multiset(jobs), pool.queue, pool'.queue, Taken(pool.channels[c]), Taken(pool'.channels[c]),
                   Total(TakenPart(), pool.channels), Total(TakenPart(), pool'.channels));
  }

  lemma ChannelsAfter<J(!new)>(pool: Pool<J>, c: nat, work: Work)
    requires Can(pool, c, work)
    ensures Do(pool, c, work).channels == pool.channels[c := Do(pool, c, work).channels[c]]
  {
  }

  lemma MoveOne<J>(queue: multiset<J>, moved: multiset<J>, after: multiset<J>, taken: multiset<J>, before: multiset<J>)
    requires after + taken == before + (taken + moved)
    ensures queue + after == (queue + moved) + before
  {
    forall j: J
      ensures after[j] == before[j] + moved[j]
    {
      assert (after + taken)[j] == (before + (taken + moved))[j];
    }
  }

  /** In every interleaving, the queue, the hands, the prefetch slots and the sent jobs always make up the
      original job list. */
  lemma {:induction false} RunConserves<J(!new)>(jobs: seq<J>, channels: nat, moves: seq<Move>)
    requires Run(Start(jobs, channels), moves).Some?
    ensures Conserved(jobs, Run(Start(jobs, channels), moves).value)
    decreases |moves|
  {
    if moves == [] {
      NothingTaken(Start(jobs, channels).channels);
    } else {
      var init, last := moves[..|moves| - 1], moves[|moves| - 1];
      RunConserves(jobs, channels, init);
      StepConserves(jobs, Run(Start(jobs, channels), init).value, last.channel, last.work);
    }
  }

  lemma {:induction false} ExitedHoldNothing<J(!new)>(channels: seq<Channel<J>>)
    requires forall c | 0 <= c < |channels| :: channels[c].phase.Exited? && channels[c].prefetched.None?
    ensures Total(TakenPart(), channels) == Total(SentPart(), channels)
  {
    if channels != [] {
      ExitedHoldNothing(channels[1..]);
      assert Taken(channels[0]) == channels[0].sent;
    }
  }

  /** When every channel has left its loop cleanly, each job was sent exactly as often as it was queued. */
  lemma CleanExitSendsEverything<J(!new)>(jobs: seq<J>, channels: nat, moves: seq<Move>)
    requires channels >= 1 && Run(Start(jobs, channels), moves).Some?
    requires var end := Run(Start(jobs, channels), moves).value;
             forall c | 0 <= c < |end.channels| :: end.channels[c].phase.Exited?
    ensures Total(SentPart(), Run(Start(jobs, channels), moves).value.channels) == multiset(jobs)
  {
    RunConserves(jobs, channels, moves);
    RunKeepsChannels(jobs, channels, moves);
    var end := Run(Start(jobs, channels), moves).value;
    assert end.channels[0].phase.Exited?;
    ExitedHoldNothing(end.channels);
  }

  lemma {:induction false} RunKeepsChannels<J(!new)>(jobs: seq<J>, channels: nat, moves: seq<Move>)
    requires Run(Start(jobs, channels), moves).Some?
    ensures |Run(Start(jobs, channels), moves).value.channels| == channels
    decreases |moves|
  {
    if moves != [] {
      RunKeepsChannels(jobs, channels, moves[..|moves| - 1]);
    }
  }

  // ----- one channel keeps the order -----

  lemma SingleStep<J(!new)>(jobs: seq<J>, pool: Pool<J>, work: Work)
    requires |pool.channels| == 1 && SlotsRight(pool) && Can(pool, 0, work)
    requires Taken(pool.channels[0]) + pool.queue == jobs
    ensures Taken(Do(pool, 0, work).channels[0]) + Do(pool, 0, work).queue == jobs
  {
    TakenStep(pool, 0, work);
    hide Do, Taken, Can;
    var after := Do(pool, 0, work);
    if after.queue != pool.queue {
      assert pool.queue == [pool.queue[0]] + after.queue;
      ConcatAssociates(Taken(pool.channels[0]), [pool.queue[0]], after.queue);
    }
  }

  /** A single channel writes the jobs in exactly the order of the list. */
  lemma {:induction false} SingleChannelInOrder<J(!new)>(jobs: seq<J>, moves: seq<Move>)
    requires Run(Start(jobs, 1), moves).Some?
    ensures var end := Run(Start(jobs, 1), moves).value;
            |end.channels| == 1 && Taken(end.channels[0]) + end.queue == jobs
    decreases |moves|
  {
    RunConserves(jobs, 1, moves);
    RunKeepsChannels(jobs, 1, moves);
    if moves != [] {
      var init, last := moves[..|moves| - 1], moves[|moves| - 1];
      SingleChannelInOrder(jobs, init);
      RunConserves(jobs, 1, init);
      hide Do, Taken;
      SingleStep(jobs, Run(Start(jobs, 1), init).value, last.work);
    }
  }
}
