/** When the receiver's control loop gives up on a session as incomplete. A notification reaches it only while it waits;
    it then loads the counter, later the number of active channels, and waits a little, and by then neither load need be
    true any more. */
module SessionGivingUp {
  import opened Wrappers
  import opened Chunks
  import opened Storage
  import opened Jobs
  import opened WorkQueue
  import opened Session
  import opened SessionSafety
  import opened SessionProgress
  import opened SessionTheorems

  // ----- what one step does to the control loop -----

  /** Everything the analysis needs of a step within a session. */
  predicate LoopFacts(s: State, s': State, step: Step) {
    && s'.remaining <= s.remaining && (s'.clean ==> s.clean)
    && (InLoop(s'.receiver) ==> InLoop(s.receiver))
    && (s.receiver.Stopped? ==> s'.receiver.Stopped?)
    && (s'.receiver.Looked? ==> s.receiver.Looked? || (s.receiver.Busy? && s.remaining != 0))
    && (s'.receiver.Receiving? ==> if step.Subscribe? then s.receiver.Looked? else s.receiver.Receiving?)
    && (s'.receiver.Receiving? && NoneAttached(s') ==> NoneAttached(s))
    && (s'.receiver.Receiving? && s'.remaining == 0 ==> s.remaining == 0)
    && (s'.receiver.Called? ==>
        s.receiver.Called? || (s.receiver.Receiving? && (NoneAttached(s') || s'.remaining == 0)))
    && (s'.receiver.Woken? ==> s.receiver.Woken? || s.receiver.Called?)
    && (s'.receiver.SawRemaining? ==> s.receiver.SawRemaining? || (s.receiver.Woken? && s.remaining != 0))
    && (s'.receiver.GivingUp? ==> s.receiver.GivingUp? || s.receiver.SawRemaining?)
  }

  /** No handler ends: either none moves, or one that is attached afterwards. */
  predicate NobodyEnds(s: State, s': State) {
    && s'.receiver == s.receiver && s'.remaining == s.remaining && (s'.clean ==> s.clean)
    && (s'.handlers == s.handlers || exists h | 0 <= h < |s'.handlers| :: Attached(s'.handlers[h]))
  }

  lemma NobodyEndsFacts(s: State, s': State, step: Step)
    requires NobodyEnds(s, s') && !step.Subscribe?
    ensures LoopFacts(s, s', step)
  {
  }

  /** A handler ends, perhaps with an error. */
  lemma EndsFacts(s: State, s': State, h: nat, ok: bool, step: Step)
    requires !step.Subscribe? && h < |s.handlers| && s'.receiver == EndHandler(s, h, ok).receiver
    requires s'.handlers == EndHandler(s, h, ok).handlers && s'.remaining == s.remaining && (s'.clean ==> s.clean)
    ensures LoopFacts(s, s', step)
  {
    assert s'.handlers[h].Ended?;
  }

  /** Handler steps that never end their handler. */
  predicate StaysAttached(step: Step) {
    step.Attach? || step.Receive? || step.WritePiece? || step.LockAndMark? || step.RecordRow? || step.CountBytes?
  }

  function HandlerIndex(step: Step): nat {
    match step
    case Attach(h) => h
    case Receive(h) => h
    case Inspect(h) => h
    case Verify(h) => h
    case WritePiece(h, _) => h
    case LockAndMark(h) => h
    case RecordRow(h) => h
    case CountBytes(h) => h
    case Subtract(h) => h
    case EndOfStream(h) => h
    case Break(h) => h
    case _ => 0
  }

  lemma StaysAttachedFacts(c: Config, s: State, step: Step)
    requires ValidPlans(Plans(c)) && ShapeOk(c, s) && Enabled(c, s, step) && StaysAttached(step)
    ensures LoopFacts(s, Apply(c, s, step), step)
  {
    hide Plans, ValidPlans, AddProgress, TotalBytes, Patch, Mark, DoSend, DoInspect, DoVerify, DoSubtract, DoBreak,
         DoClearRows, DoNewSession, LoopFacts, NoneActive;
    var s', h := Apply(c, s, step), HandlerIndex(step);
    assert h < |s'.handlers| && Attached(s'.handlers[h]);
    NobodyEndsFacts(s, s', step);
  }

  lemma SendFacts(c: Config, s: State, step: Step)
    requires ValidPlans(Plans(c)) && ShapeOk(c, s) && Enabled(c, s, step) && (step.Send? || step.Tamper?)
    ensures LoopFacts(s, Apply(c, s, step), step)
  {
    hide Plans, ValidPlans, AddProgress, TotalBytes, PacketFor, IsChunk, Do, LoopFacts, NoneActive, MayArrive;
    NobodyEndsFacts(s, Apply(c, s, step), step);
  }

  /** A handler that meets a bad packet ends, and otherwise stays attached. */
  lemma ChecksFacts(c: Config, s: State, step: Step)
    requires ValidPlans(Plans(c)) && ShapeOk(c, s) && Enabled(c, s, step) && (step.Inspect? || step.Verify?)
    ensures LoopFacts(s, Apply(c, s, step), step)
  {
    hide Plans, ValidPlans, InPlan, VerifyChunk, LoopFacts, EndHandler, DoSend, DoWritePiece, DoLockAndMark,
         DoRecordRow, DoCountBytes, DoSubtract, DoBreak, DoClearRows, DoNewSession;
    var s', h := Apply(c, s, step), HandlerIndex(step);
    if s' == EndHandler(s, h, false) {
      EndKeepsCounts(s, h, false);
      EndsFacts(s, s', h, false, step);
    } else {
      assert h < |s'.handlers| && Attached(s'.handlers[h]);
      NobodyEndsFacts(s, s', step);
    }
  }

  lemma EndKeepsCounts(s: State, h: nat, ok: bool)
    requires h < |s.handlers|
    ensures EndHandler(s, h, ok).remaining == s.remaining && EndHandler(s, h, ok).clean == s.clean
  {
  }

  lemma EndFacts(c: Config, s: State, step: Step)
    requires ValidPlans(Plans(c)) && ShapeOk(c, s) && Enabled(c, s, step) && (step.EndOfStream? || step.Break?)
    ensures LoopFacts(s, Apply(c, s, step), step)
  {
    hide Plans, ValidPlans, HoldsLock, LoopFacts, EndHandler, DoSend, DoInspect, DoVerify, DoWritePiece, DoLockAndMark,
         DoRecordRow, DoCountBytes, DoSubtract, DoClearRows, DoNewSession;
    var h := HandlerIndex(step);
    EndKeepsCounts(s, h, step.EndOfStream?);
    EndsFacts(s, Apply(c, s, step), h, step.EndOfStream?, step);
  }

  lemma SubtractFacts(c: Config, s: State, h: nat)
    requires ValidPlans(Plans(c)) && ShapeOk(c, s) && Enabled(c, s, Subtract(h)) && s.remaining >= 1
    ensures LoopFacts(s, Apply(c, s, Subtract(h)), Subtract(h))
  {
    hide Plans, ValidPlans, Mark;
    var s' := Apply(c, s, Subtract(h));
    assert Attached(s'.handlers[h]);
  }

  lemma ControlFacts(c: Config, s: State, step: Step)
    requires ValidPlans(Plans(c)) && ShapeOk(c, s) && Enabled(c, s, step) && IsControlStep(step)
    ensures LoopFacts(s, Apply(c, s, step), step)
  {
    hide Plans, ValidPlans, Complete, Below, DoSend, DoInspect, DoVerify, DoWritePiece, DoLockAndMark, DoRecordRow,
         DoCountBytes, DoSubtract, DoBreak, DoNewSession;
  }

  lemma StepFacts(c: Config, s: State, step: Step)
    requires ValidConfig(c) && Inv(c, s) && ShapeOk(c, s) && ValidPlans(Plans(c)) && Enabled(c, s, step)
    requires !step.NewSession?
    ensures LoopFacts(s, Apply(c, s, step), step)
  {
    hide LoopFacts, Apply, Inv, Plans, ValidPlans, Enabled, ValidConfig;
    match step
    case Send(_, _) => SendFacts(c, s, step);
    case Tamper(_, _) => SendFacts(c, s, step);
    case Inspect(_) => ChecksFacts(c, s, step);
    case Verify(_) => ChecksFacts(c, s, step);
    case EndOfStream(_) => EndFacts(c, s, step);
    case Break(_) => EndFacts(c, s, step);
    case Subtract(h) =>
      SubtractKeeps(c, s, h);
      SubtractFacts(c, s, h);
    case Attach(_) => StaysAttachedFacts(c, s, step);
    case Receive(_) => StaysAttachedFacts(c, s, step);
    case WritePiece(_, _) => StaysAttachedFacts(c, s, step);
    case LockAndMark(_) => StaysAttachedFacts(c, s, step);
    case RecordRow(_) => StaysAttachedFacts(c, s, step);
    case CountBytes(_) => StaysAttachedFacts(c, s, step);
    case _ => ControlFacts(c, s, step);
  }

  // ----- over a run -----

  /** The loop has been notified and nobody is attached, although a missing chunk sits on a channel that has yet to
      attach. */
  ghost predicate Gap(c: Config, s: State)
    requires ShapeOk(c, s)
  {
    Awake(s.receiver) && NoneAttached(s) && LeftBehind(c, s)
  }

  /** There is such a gap now, or there was one earlier in this session. */
  ghost predicate HadGap(c: Config, junk: seq<Bytes>, steps: seq<Step>)
    requires ValidPlans(Plans(c)) && |junk| == |c.sources|
    decreases |steps|
  {
    match After(c, junk, steps)
    case None => false
    case Some(s) =>
      || (ShapeOk(c, s) && Gap(c, s))
      || (steps != [] && !steps[|steps| - 1].NewSession? && HadGap(c, junk, steps[..|steps| - 1]))
  }

  /** The control loop's own steps from a notification to giving up. */
  predicate TowardsGivingUp(step: Step) {
    step.Wake? || step.LoadRemaining? || step.LoadActive?
  }

  predicate OnItsOwn(more: seq<Step>) {
    forall step | step in more :: TowardsGivingUp(step)
  }

  /** The control loop can come to give up from here without anybody else moving. */
  ghost predicate CanGiveUp(c: Config, junk: seq<Bytes>, steps: seq<Step>)
    requires ValidPlans(Plans(c)) && |junk| == |c.sources|
  {
    exists more :: OnItsOwn(more) && After(c, junk, steps + more).Some?
      && After(c, junk, steps + more).value.receiver.GivingUp?
  }

  /** It can come to give up now, or could have earlier in this session. */
  ghost predicate CouldGiveUp(c: Config, junk: seq<Bytes>, steps: seq<Step>)
    requires ValidPlans(Plans(c)) && |junk| == |c.sources|
    decreases |steps|
  {
    || CanGiveUp(c, junk, steps)
    || (steps != [] && !steps[|steps| - 1].NewSession? && CouldGiveUp(c, junk, steps[..|steps| - 1]))
  }

  /** The state before the last step of a run, and what that step did. */
  lemma Before(c: Config, junk: seq<Bytes>, steps: seq<Step>, s: State) returns (before: State)
    requires Reaches(c, junk, steps, s) && steps != [] && ValidPlans(Plans(c)) && |junk| == |c.sources|
    ensures Reaches(c, junk, steps[..|steps| - 1], before) && ShapeOk(c, before)
    ensures Enabled(c, before, steps[|steps| - 1]) && s == Apply(c, before, steps[|steps| - 1])
    ensures !steps[|steps| - 1].NewSession? ==> LoopFacts(before, s, steps[|steps| - 1])
  {
    hide Plans, ValidPlans, Enabled, Apply, Inv, CleanInv, LoopFacts, ValidConfig;
    LastStep(c, junk, steps);
    before := After(c, junk, steps[..|steps| - 1]).value;
    Reached(c, junk, steps[..|steps| - 1], before);
    if !steps[|steps| - 1].NewSession? {
      StepFacts(c, before, steps[|steps| - 1]);
    }
  }

  lemma OpenedBusy(c: Config, disk: seq<Bytes>, renamed: set<nat>, recorded: seq<set<nat>>, lost: set<nat>)
    requires ValidPlans(Plans(c)) && |disk| == |recorded| == |c.sources|
    ensures Open(c, disk, renamed, recorded, lost).receiver.Busy?
  {
    hide Plans, ValidPlans, MissingJobs, TotalBytes, Remaining, DoneBytes, JobBytes, Known, OpenedDisk, Start,
         ChannelCount, AddProgress;
  }

  /** The loop does not wait yet when a session opens. */
  lemma SessionStartsBusy(c: Config, junk: seq<Bytes>, steps: seq<Step>, s: State)
    requires Reaches(c, junk, steps, s) && (steps == [] || steps[|steps| - 1].NewSession?)
    ensures s.receiver.Busy?
  {
    hide Open, Plans, ValidPlans, Inv, CleanInv, Enabled, ValidConfig;
    Reached(c, junk, steps, s);
    if steps == [] {
      OpenedBusy(c, junk, {}, seq(|junk|, _ => {}), {});
    } else {
      var before := Before(c, junk, steps, s);
      OpenedBusy(c, before.disk, before.renamed, before.recorded,
                 if before.rowsCleared then {} else before.lost + before.renamed);
    }
  }

  /** What the loop knows, once notified, in an error-free session: there has been a gap. */
  lemma {:induction false} LoopKnowsGap(c: Config, junk: seq<Bytes>, steps: seq<Step>, s: State)
    requires Reaches(c, junk, steps, s) && s.clean && ValidPlans(Plans(c)) && |junk| == |c.sources|
    ensures s.receiver.Called? || s.receiver.Woken? ==> HadGap(c, junk, steps) || s.remaining == 0
    ensures s.receiver.SawRemaining? || s.receiver.GivingUp? ==> HadGap(c, junk, steps)
    decreases |steps|
  {
    hide NoneAttached, Plans, ValidPlans, Inv, CleanInv, Enabled, Apply, ValidConfig, LeftBehind;
    Reached(c, junk, steps, s);
    if steps == [] || steps[|steps| - 1].NewSession? {
      SessionStartsBusy(c, junk, steps, s);
    } else {
      var before := Before(c, junk, steps, s);
      LoopKnowsGap(c, junk, steps[..|steps| - 1], before);
      if NoneAttached(s) {
        LeftBehindExactly(c, s);
      }
      hide After;
    }
  }

  // ----- giving up, exactly -----

  lemma Extend(c: Config, junk: seq<Bytes>, steps: seq<Step>, s: State, step: Step)
    requires Reaches(c, junk, steps, s) && ValidPlans(Plans(c)) && ShapeOk(c, s) && Enabled(c, s, step)
    ensures Reaches(c, junk, steps + [step], Apply(c, s, step))
  {
    hide Enabled, Apply, ValidConfig, Plans, ValidPlans;
    assert (steps + [step])[..|steps + [step]| - 1] == steps;
  }

  /** The loop's steps leave everything but the loop's own place alone, so they make no gap. */
  lemma LoadMakesNoGap(c: Config, s: State, step: Step)
    requires ValidPlans(Plans(c)) && ShapeOk(c, s) && Enabled(c, s, step) && TowardsGivingUp(step)
    ensures var s' := Apply(c, s, step);
            s'.clean == s.clean && ShapeOk(c, s') && (Gap(c, s') ==> Gap(c, s))
  {
    hide Plans, ValidPlans, OnSender, OnStream, OnHandler, NoneAttached, NoneActive, IsChunk;
    var s' := Apply(c, s, step);
    assert NoneAttached(s') == NoneAttached(s) by {
      SameHandlersSameAttached(s, s');
    }
    if Gap(c, s') {
      var f: nat, k: nat, h: nat :| OnDetachedChannel(c, s', f, k, h);
      assert OnDetachedChannel(c, s, f, k, h);
    }
  }

  lemma SameHandlersSameAttached(s: State, s': State)
    requires s'.handlers == s.handlers
    ensures NoneAttached(s') == NoneAttached(s)
  {
  }

  lemma {:induction false} OwnStepsMakeNoGap(c: Config, junk: seq<Bytes>, steps: seq<Step>, more: seq<Step>, s: State,
                                             end: State)
    requires Reaches(c, junk, steps, s) && OnItsOwn(more) && Reaches(c, junk, steps + more, end)
    requires ValidPlans(Plans(c)) && |junk| == |c.sources|
    ensures end.clean == s.clean && (HadGap(c, junk, steps + more) ==> HadGap(c, junk, steps))
    decreases |more|
  {
    hide Plans, ValidPlans, Inv, CleanInv, Enabled, Apply, ValidConfig, Gap;
    if more == [] {
      assert steps + more == steps;
    } else {
      var run, init, last := steps + more, more[..|more| - 1], more[|more| - 1];
      assert run[..|run| - 1] == steps + init && run[|run| - 1] == last;
      assert last in more;
      var before := Before(c, junk, run, end);
      Reached(c, junk, run, end);
      LoadMakesNoGap(c, before, last);
      OwnStepsMakeNoGap(c, junk, steps, init, s, before);
    }
  }

  /** Once notified, with chunks remaining and no channel active, the loop walks to giving up by itself. */
  lemma {:induction false} WalksToGivingUp(c: Config, junk: seq<Bytes>, steps: seq<Step>, s: State)
    returns (more: seq<Step>)
    requires Reaches(c, junk, steps, s) && Awake(s.receiver) && s.remaining != 0 && NoneActive(s.handlers)
    ensures OnItsOwn(more) && Reaches(c, junk, steps + more, s.(receiver := GivingUp))
    decreases match s.receiver case Called => 3 case Woken => 2 case SawRemaining => 1 case _ => 0
  {
    hide Plans, ValidPlans, Inv, CleanInv, ValidConfig, Reaches, After, NoneActive;
    Reached(c, junk, steps, s);
    if s.receiver.GivingUp? {
      assert steps + [] == steps;
      more := [];
    } else {
      var (step, phase) := if s.receiver.Called? then (Wake, Woken)
                         else if s.receiver.Woken? then (LoadRemaining, SawRemaining)
                         else (LoadActive, GivingUp);
      Extend(c, junk, steps, s, step);
      var rest := WalksToGivingUp(c, junk, steps + [step], s.(receiver := phase));
      more := [step] + rest;
      assert steps + more == steps + [step] + rest;
    }
  }

  /** From a gap the loop can get to giving up with at most three steps of its own. */
  lemma GapLeadsToGivingUp(c: Config, junk: seq<Bytes>, steps: seq<Step>, s: State)
    requires Reaches(c, junk, steps, s) && s.clean && ValidPlans(Plans(c)) && |junk| == |c.sources|
    requires ShapeOk(c, s) && Gap(c, s)
    ensures CanGiveUp(c, junk, steps)
  {
    assert ValidConfig(c);
    hide Plans, ValidPlans, Inv, CleanInv, ValidConfig, LeftBehind, Reaches, After, OnItsOwn;
    Reached(c, junk, steps, s);
    LeftBehindExactly(c, s);
    hide NoneActive;
    var more := WalksToGivingUp(c, junk, steps, s);
    ReachesMeans(c, junk, steps + more, s.(receiver := GivingUp));
  }

  lemma ReachesMeans(c: Config, junk: seq<Bytes>, steps: seq<Step>, s: State)
    requires Reaches(c, junk, steps, s) && ValidPlans(Plans(c)) && |junk| == |c.sources|
    ensures After(c, junk, steps) == Some(s)
  {
    hide After, ValidConfig, Plans, ValidPlans;
  }

  lemma CanGiveUpMeansGap(c: Config, junk: seq<Bytes>, steps: seq<Step>, s: State)
    requires Reaches(c, junk, steps, s) && s.clean && ValidPlans(Plans(c)) && |junk| == |c.sources|
    requires CanGiveUp(c, junk, steps)
    ensures HadGap(c, junk, steps)
  {
    hide Plans, ValidPlans, ValidConfig, HadGap, After;
    var more :| OnItsOwn(more) && After(c, junk, steps + more).Some?
      && After(c, junk, steps + more).value.receiver.GivingUp?;
    var end := After(c, junk, steps + more).value;
    OwnStepsMakeNoGap(c, junk, steps, more, s, end);
    LoopKnowsGap(c, junk, steps + more, end);
  }

  /** An error-free session can come to give up as incomplete exactly when, at some moment of it, the loop had been
      notified, some channel had ended, none was attached, and a missing chunk sat on a channel yet to attach. What
      happened since does not matter. */
  lemma {:induction false} GivesUpExactly(c: Config, junk: seq<Bytes>, steps: seq<Step>, s: State)
    requires Reaches(c, junk, steps, s) && s.clean && ValidPlans(Plans(c)) && |junk| == |c.sources|
    ensures CouldGiveUp(c, junk, steps) <==> HadGap(c, junk, steps)
    decreases |steps|
  {
    hide Plans, ValidPlans, ValidConfig, Inv, CleanInv, CanGiveUp, Gap, After, Reaches, Enabled, Apply;
    Reached(c, junk, steps, s);
    ReachesMeans(c, junk, steps, s);
    if CanGiveUp(c, junk, steps) {
      CanGiveUpMeansGap(c, junk, steps, s);
    }
    if Gap(c, s) {
      GapLeadsToGivingUp(c, junk, steps, s);
    }
    if steps != [] && !steps[|steps| - 1].NewSession? {
      var before := Before(c, junk, steps, s);
      GivesUpExactly(c, junk, steps[..|steps| - 1], before);
    }
  }

  /** When the loop does give up, there has been such a gap in this session. */
  lemma GivesUpOnlyAfterAGap(c: Config, junk: seq<Bytes>, steps: seq<Step>, s: State)
    requires Reaches(c, junk, steps, s) && s.clean && ValidPlans(Plans(c)) && ShapeOk(c, s) && |junk| == |c.sources|
    requires Enabled(c, s, GiveUp)
    ensures HadGap(c, junk, steps)
  {
    hide Plans, ValidPlans, ValidConfig, HadGap, Reaches, After;
    LoopKnowsGap(c, junk, steps, s);
  }
}
