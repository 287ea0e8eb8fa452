/** What becomes of the receiver's control loop when the last channel goes: it is called, or it sleeps with nobody left
    to wake it, even when nothing is missing. */
module SessionWaking {
  import opened Wrappers
  import opened Chunks
  import opened Storage
  import opened Jobs
  import opened WorkQueue
  import opened Session
  import opened SessionSafety
  import opened SessionProgress
  import opened SessionTheorems
  import opened SessionGivingUp

  // ----- when the last channel's end is heard -----

  /** A step of a handler that is attached. */
  predicate Moves(step: Step) {
    || (StaysAttached(step) && !step.Attach?)
    || step.Inspect? || step.Verify? || step.Subtract? || step.EndOfStream? || step.Break?
  }

  lemma MovesAreAttached(c: Config, s: State, step: Step)
    requires ValidPlans(Plans(c)) && ShapeOk(c, s) && Enabled(c, s, step) && Moves(step)
    ensures HandlerIndex(step) < |s.handlers| && Attached(s.handlers[HandlerIndex(step)])
  {
    hide Plans, ValidPlans, InPlan, IsChunk, Free;
  }

  lemma EndIsHeard(s: State, s': State, h: nat, ok: bool)
    requires h < |s.handlers| && NoneActive(EndHandler(s, h, ok).handlers)
    requires s'.receiver == EndHandler(s, h, ok).receiver
    ensures s'.receiver.Called? <==> s.receiver.Receiving? || s.receiver.Called?
  {
  }

  /** After its step the handler is still attached, or has just ended. */
  ghost predicate StaysOrEnds(c: Config, s: State, step: Step)
    requires ValidPlans(Plans(c)) && ShapeOk(c, s) && Enabled(c, s, step) && HandlerIndex(step) < |s.handlers|
  {
    var s', h, ended := Apply(c, s, step), HandlerIndex(step), EndHandler(s, HandlerIndex(step), step.EndOfStream?);
    || (h < |s'.handlers| && Attached(s'.handlers[h]))
    || (s'.receiver == ended.receiver && s'.handlers == ended.handlers)
  }

  lemma ChecksStayOrEnd(c: Config, s: State, step: Step)
    requires ValidPlans(Plans(c)) && ShapeOk(c, s) && Enabled(c, s, step) && (step.Inspect? || step.Verify?)
    ensures HandlerIndex(step) < |s.handlers| && StaysOrEnds(c, s, step)
  {
    hide Plans, ValidPlans, InPlan, VerifyChunk, EndHandler, DoSend, DoWritePiece, DoLockAndMark, DoRecordRow,
         DoCountBytes, DoSubtract, DoBreak, DoClearRows, DoNewSession;
  }

  lemma OthersStayOrEnd(c: Config, s: State, step: Step)
    requires ValidPlans(Plans(c)) && ShapeOk(c, s) && Enabled(c, s, step) && Moves(step)
    requires !step.Inspect? && !step.Verify?
    ensures HandlerIndex(step) < |s.handlers| && StaysOrEnds(c, s, step)
  {
    hide Plans, ValidPlans, AddProgress, TotalBytes, Patch, Mark, DoSend, DoInspect, DoVerify, DoClearRows,
         DoNewSession, HoldsLock, EndHandler, IsChunk;
    MovesAreAttached(c, s, step);
  }

  /** The step that ends the last active channel calls the control loop exactly if that waits for it, or has been called
      before. */
  lemma LastEndIsHeardExactly(c: Config, s: State, step: Step)
    requires ValidPlans(Plans(c)) && ShapeOk(c, s) && Enabled(c, s, step) && Moves(step)
    requires NoneAttached(Apply(c, s, step))
    ensures Apply(c, s, step).receiver.Called? <==> s.receiver.Receiving? || s.receiver.Called?
  {
    hide Plans, ValidPlans, EndHandler, Apply, Enabled;
    if step.Inspect? || step.Verify? {
      ChecksStayOrEnd(c, s, step);
    } else {
      OthersStayOrEnd(c, s, step);
    }
    EndIsHeard(s, Apply(c, s, step), HandlerIndex(step), step.EndOfStream?);
  }

  /** Steps after which the loop, or somebody for it, is on the move again. */
  predicate Disturbs(step: Step) {
    step.NewSession? || step.Attach? || step.HandleMessage? || step.StopReceiver?
  }

  /** The loop waits although some channel has ended and none is attached: nobody is left to notify it. */
  ghost predicate Asleep(s: State) {
    s.receiver.Receiving? && NoneAttached(s)
  }

  lemma NobodyMoves(c: Config, s: State, step: Step)
    requires ValidPlans(Plans(c)) && ShapeOk(c, s) && Enabled(c, s, step) && NoneAttached(s)
    ensures !Moves(step)
  {
    hide Plans, ValidPlans, Enabled;
    if Moves(step) {
      MovesAreAttached(c, s, step);
    }
  }

  lemma SleepsOn(c: Config, s: State, step: Step)
    requires ValidPlans(Plans(c)) && ShapeOk(c, s) && Enabled(c, s, step) && Asleep(s) && !Disturbs(step)
    ensures Asleep(Apply(c, s, step))
  {
    hide Plans, ValidPlans, InPlan, IsChunk, Free, Can, PacketFor, MayArrive, Do, AddProgress, TotalBytes, Below,
         DoInspect, DoVerify, DoWritePiece, DoLockAndMark, DoRecordRow, DoCountBytes, DoSubtract, DoBreak, DoNewSession,
         DoClearRows, EndHandler, NoneAttached, NoneActive;
    NobodyMoves(c, s, step);
    SameHandlersSameAttached(s, Apply(c, s, step));
  }

  lemma Disturbed(c: Config, s: State, step: Step)
    requires ValidPlans(Plans(c)) && ShapeOk(c, s) && Enabled(c, s, step)
    requires step.Attach? || step.HandleMessage? || step.StopReceiver?
    ensures !Asleep(Apply(c, s, step))
  {
    hide Plans, ValidPlans;
    if step.Attach? {
      assert Attached(Apply(c, s, step).handlers[step.channel]);
    }
  }

  lemma Subscribed(c: Config, s: State)
    requires ValidPlans(Plans(c)) && ShapeOk(c, s) && Enabled(c, s, Subscribe)
    ensures !Asleep(s) && (Asleep(Apply(c, s, Subscribe)) <==> NoneAttached(s))
  {
    hide Plans, ValidPlans;
    SameHandlersSameAttached(s, Apply(c, s, Subscribe));
  }

  /** The loop began to wait with step `i`, when the last channel had already gone, and nothing has come since. */
  ghost predicate FellAsleepAt(c: Config, junk: seq<Bytes>, steps: seq<Step>, i: nat)
    requires ValidPlans(Plans(c)) && |junk| == |c.sources|
  {
    && i < |steps| && steps[i].Subscribe?
    && After(c, junk, steps[..i]).Some? && NoneAttached(After(c, junk, steps[..i]).value)
    && forall j | i < j < |steps| :: !Disturbs(steps[j])
  }

  /** The loop sleeps with nobody left to wake it exactly when it had begun to wait only after the last channel was
      gone, and neither a channel nor a message has come since. An end that finds it waiting is always heard. */
  lemma {:induction false} AsleepExactly(c: Config, junk: seq<Bytes>, steps: seq<Step>, s: State)
    requires Reaches(c, junk, steps, s) && ValidPlans(Plans(c)) && |junk| == |c.sources|
    ensures Asleep(s) <==> exists i :: FellAsleepAt(c, junk, steps, i)
    decreases |steps|
  {
    hide Plans, ValidPlans, ValidConfig, Inv, CleanInv, NoneAttached, Reaches, After, Enabled, Apply;
    Reached(c, junk, steps, s);
    if steps == [] || steps[|steps| - 1].NewSession? {
      SessionStartsBusy(c, junk, steps, s);
    } else {
      var n := |steps| - 1;
      var before := Before(c, junk, steps, s);
      ReachesMeans(c, junk, steps[..n], before);
      AsleepExactly(c, junk, steps[..n], before);
      forall i: nat | i < n
        ensures FellAsleepAt(c, junk, steps, i) <==> FellAsleepAt(c, junk, steps[..n], i) && !Disturbs(steps[n])
      {
        assert steps[..n][..i] == steps[..i];
      }
      if Disturbs(steps[n]) {
        Disturbed(c, before, steps[n]);
      } else if steps[n].Subscribe? {
        Subscribed(c, before);
        assert FellAsleepAt(c, junk, steps, n) <==> NoneAttached(before);
      } else if Asleep(before) {
        SleepsOn(c, before, steps[n]);
      }
    }
  }

  // ----- when the last chunk is heard -----

  /** The decrement that brings the counter to zero calls the control loop exactly if that waits for it, or has been
      called before. */
  lemma ZeroIsHeardExactly(c: Config, s: State, h: nat)
    requires ValidConfig(c) && Inv(c, s) && Enabled(c, s, Subtract(h)) && Apply(c, s, Subtract(h)).remaining == 0
    ensures Apply(c, s, Subtract(h)).receiver.Called? <==> s.receiver.Receiving? || s.receiver.Called?
  {
    SubtractKeeps(c, s, h);
    hide Inv, ValidConfig, Plans, ValidPlans, Mark;
  }

  /** The loop waits although nothing remains: no decrement will notify it. */
  predicate WaitsAtZero(s: State) {
    s.receiver.Receiving? && s.remaining == 0
  }

  /** Steps that end the wait of a loop that waits at zero, the end of the last channel apart. */
  predicate EndsWait(step: Step) {
    step.NewSession? || step.HandleMessage? || step.StopReceiver?
  }

  /** A handler's step after which some channel has ended and none is attached. */
  ghost predicate EndsTheLast(step: Step, s': State) {
    Moves(step) && NoneAttached(s')
  }

  lemma WaitsOn(c: Config, s: State, step: Step)
    requires ValidConfig(c) && Inv(c, s) && Enabled(c, s, step) && WaitsAtZero(s)
    requires ValidPlans(Plans(c)) && ShapeOk(c, s)
    requires !EndsWait(step) && !EndsTheLast(step, Apply(c, s, step))
    ensures WaitsAtZero(Apply(c, s, step))
  {
    hide Inv, ValidConfig, Plans, ValidPlans, NoneAttached, Apply;
    if step.Subtract? {
      SubtractKeeps(c, s, step.channel);
    }
    WaitsOnOrHears(c, s, step);
  }

  /** A waiting loop is left waiting, or called by the end of the last channel or the last chunk. */
  lemma WaitsOnOrHears(c: Config, s: State, step: Step)
    requires ValidPlans(Plans(c)) && ShapeOk(c, s) && Enabled(c, s, step) && s.receiver.Receiving?
    requires !EndsWait(step) && !step.Subtract?
    ensures var s' := Apply(c, s, step);
            s'.remaining == s.remaining && (s'.receiver.Receiving? || EndsTheLast(step, s'))
  {
    if Moves(step) {
      MovesAreAttached(c, s, step);
      MoveWaitsOn(c, s, step);
    } else {
      hide Plans, ValidPlans, InPlan, IsChunk, Free, PacketFor, MayArrive, Do, AddProgress, TotalBytes, Below,
           DoInspect, DoVerify, DoWritePiece, DoLockAndMark, DoRecordRow, DoCountBytes, DoSubtract, DoBreak,
           DoNewSession, DoClearRows, EndHandler;
    }
  }

  lemma MoveWaitsOn(c: Config, s: State, step: Step)
    requires ValidPlans(Plans(c)) && ShapeOk(c, s) && Enabled(c, s, step) && s.receiver.Receiving?
    requires Moves(step) && !step.Subtract?
    ensures var s' := Apply(c, s, step);
            s'.remaining == s.remaining && (s'.receiver.Receiving? || EndsTheLast(step, s'))
  {
    MovesAreAttached(c, s, step);
    if step.Inspect? || step.Verify? {
      CheckWaitsOn(c, s, step);
    } else if step.EndOfStream? || step.Break? {
      EndStepWaitsOn(c, s, step);
    } else {
      StayWaitsOn(c, s, step);
    }
  }

  lemma EndStepWaitsOn(c: Config, s: State, step: Step)
    requires ValidPlans(Plans(c)) && ShapeOk(c, s) && Enabled(c, s, step) && s.receiver.Receiving?
    requires step.EndOfStream? || step.Break?
    ensures var s' := Apply(c, s, step);
            s'.remaining == s.remaining && (s'.receiver.Receiving? || EndsTheLast(step, s'))
  {
    hide Plans, ValidPlans, HoldsLock, NoneActive, DoSend, DoInspect, DoVerify, DoWritePiece, DoLockAndMark,
         DoRecordRow, DoCountBytes, DoSubtract, DoClearRows, DoNewSession;
    EndWaitsOn(s, HandlerIndex(step), step.EndOfStream?);
  }

  lemma StayWaitsOn(c: Config, s: State, step: Step)
    requires ValidPlans(Plans(c)) && ShapeOk(c, s) && Enabled(c, s, step) && s.receiver.Receiving?
    requires StaysAttached(step)
    ensures Apply(c, s, step).remaining == s.remaining && Apply(c, s, step).receiver.Receiving?
  {
    hide Plans, ValidPlans, AddProgress, TotalBytes, Patch, Mark, DoSend, DoInspect, DoVerify, DoSubtract, DoBreak,
         DoClearRows, DoNewSession, NoneActive, EndHandler;
  }

  lemma CheckWaitsOn(c: Config, s: State, step: Step)
    requires ValidPlans(Plans(c)) && ShapeOk(c, s) && Enabled(c, s, step) && s.receiver.Receiving?
    requires step.Inspect? || step.Verify?
    ensures var s' := Apply(c, s, step);
            s'.remaining == s.remaining && (s'.receiver.Receiving? || EndsTheLast(step, s'))
  {
    hide Plans, ValidPlans, InPlan, VerifyChunk, DoSend, DoWritePiece, DoLockAndMark, DoRecordRow, DoCountBytes,
         DoSubtract, DoBreak, DoClearRows, DoNewSession, NoneActive;
    EndWaitsOn(s, HandlerIndex(step), false);
  }

  lemma EndWaitsOn(s: State, h: nat, ok: bool)
    requires s.receiver.Receiving?
    ensures h < |s.handlers| ==>
              var s' := EndHandler(s, h, ok);
              s'.remaining == s.remaining && (s'.receiver.Receiving? || NoneAttached(s'))
    ensures h < |s.handlers| && NoneActive(EndHandler(s, h, ok).handlers) ==>
              exists d | 0 <= d < |s.handlers| :: EndHandler(s, h, ok).handlers[d].Ended?
  {
    if h < |s.handlers| {
      assert EndHandler(s, h, ok).handlers[h].Ended?;
    }
  }

  /** The loop began to wait with step `i`, when the counter was already zero, and nothing has come since. */
  ghost predicate WaitedTooLateAt(c: Config, junk: seq<Bytes>, steps: seq<Step>, i: nat)
    requires ValidPlans(Plans(c)) && |junk| == |c.sources|
  {
    && i < |steps| && steps[i].Subscribe?
    && After(c, junk, steps[..i]).Some? && After(c, junk, steps[..i]).value.remaining == 0
    && forall j | i < j < |steps| :: !EndsWait(steps[j]) && !EndedTheLastAt(c, junk, steps, j)
  }

  ghost predicate EndedTheLastAt(c: Config, junk: seq<Bytes>, steps: seq<Step>, j: nat)
    requires ValidPlans(Plans(c)) && |junk| == |c.sources| && j < |steps|
  {
    After(c, junk, steps[..j + 1]).Some? && EndsTheLast(steps[j], After(c, junk, steps[..j + 1]).value)
  }

  lemma WaitEnds(c: Config, s: State, step: Step)
    requires ValidPlans(Plans(c)) && ShapeOk(c, s) && Enabled(c, s, step)
    requires step.HandleMessage? || step.StopReceiver? || EndsTheLast(step, Apply(c, s, step))
    ensures !WaitsAtZero(Apply(c, s, step)) || !s.receiver.Receiving?
  {
    if Moves(step) {
      hide Plans, ValidPlans, Apply, Enabled;
      LastEndIsHeardExactly(c, s, step);
    } else {
      hide Plans, ValidPlans;
    }
  }

  lemma SubscribesAtZero(c: Config, s: State)
    requires ValidPlans(Plans(c)) && ShapeOk(c, s) && Enabled(c, s, Subscribe)
    ensures !s.receiver.Receiving? && (WaitsAtZero(Apply(c, s, Subscribe)) <==> s.remaining == 0)
  {
    hide Plans, ValidPlans;
  }

  /** The loop waits with nothing remaining exactly when the counter was already zero as it began to wait, and since
      then neither a message nor the end of the last channel has come. A decrement to zero that finds it waiting is
      always heard. */
  lemma {:induction false} WaitsAtZeroExactly(c: Config, junk: seq<Bytes>, steps: seq<Step>, s: State)
    requires Reaches(c, junk, steps, s) && ValidPlans(Plans(c)) && |junk| == |c.sources|
    ensures WaitsAtZero(s) <==> exists i :: WaitedTooLateAt(c, junk, steps, i)
    decreases |steps|
  {
    assert ValidConfig(c);
    hide Plans, ValidPlans, ValidConfig, Inv, CleanInv, Reaches, After, Enabled, Apply, EndsTheLast, WaitedTooLateAt;
    Reached(c, junk, steps, s);
    ReachesMeans(c, junk, steps, s);
    if steps == [] {
      SessionStartsBusy(c, junk, steps, s);
      NoWaitYet(c, junk, steps);
    } else if steps[|steps| - 1].NewSession? {
      SessionStartsBusy(c, junk, steps, s);
      OneStepLonger(c, junk, steps, s);
    } else {
      var n := |steps| - 1;
      var before := Before(c, junk, steps, s);
      ReachesMeans(c, junk, steps[..n], before);
      Reached(c, junk, steps[..n], before);
      WaitsAtZeroExactly(c, junk, steps[..n], before);
      OneStepLonger(c, junk, steps, s);
      WaitStep(c, before, steps[n], s);
    }
  }

  lemma NoWaitYet(c: Config, junk: seq<Bytes>, steps: seq<Step>)
    requires ValidPlans(Plans(c)) && |junk| == |c.sources| && steps == []
    ensures !exists i :: WaitedTooLateAt(c, junk, steps, i)
  {
  }

  /** Whether the loop waits at zero after a step, by what it did before. */
  lemma WaitStep(c: Config, s: State, step: Step, s': State)
    requires ValidConfig(c) && Inv(c, s) && ValidPlans(Plans(c)) && ShapeOk(c, s)
    requires Enabled(c, s, step) && s' == Apply(c, s, step) && !step.NewSession? && LoopFacts(s, s', step)
    ensures WaitsAtZero(s') <==>
              if step.Subscribe? then s.remaining == 0
              else WaitsAtZero(s) && !EndsWait(step) && !EndsTheLast(step, s')
  {
    hide Plans, ValidPlans, ValidConfig, Inv, Enabled, Apply, EndsTheLast;
    if step.Subscribe? {
      SubscribesAtZero(c, s);
    } else if EndsWait(step) || EndsTheLast(step, s') {
      WaitEnds(c, s, step);
    } else if WaitsAtZero(s) {
      WaitsOn(c, s, step);
    }
  }

  /** The waits of a run, by those of the run without its last step. */
  lemma OneStepLonger(c: Config, junk: seq<Bytes>, steps: seq<Step>, s: State)
    requires ValidPlans(Plans(c)) && |junk| == |c.sources| && steps != [] && After(c, junk, steps) == Some(s)
    ensures var n := |steps| - 1;
            (exists i :: WaitedTooLateAt(c, junk, steps, i)) <==>
              if steps[n].Subscribe?
              then (After(c, junk, steps[..n]).Some? && After(c, junk, steps[..n]).value.remaining == 0)
                   || exists i :: WaitedTooLateAt(c, junk, steps[..n], i)
              else (exists i :: WaitedTooLateAt(c, junk, steps[..n], i))
                   && !EndsWait(steps[n]) && !EndsTheLast(steps[n], s)
  {
    hide Plans, ValidPlans, After, EndsTheLast, EndsWait, WaitedTooLateAt;
    var n := |steps| - 1;
    forall i: nat | i < n
      ensures WaitedTooLateAt(c, junk, steps, i) <==>
                WaitedTooLateAt(c, junk, steps[..n], i) && !EndsWait(steps[n]) && !EndsTheLast(steps[n], s)
    {
      LongerWait(c, junk, steps, i, s);
    }
    LastWait(c, junk, steps, s);
    if i: nat :| WaitedTooLateAt(c, junk, steps[..n], i) {
      WaitedBefore(c, junk, steps[..n], i);
    }
    if i: nat :| WaitedTooLateAt(c, junk, steps, i) {
      WaitedBefore(c, junk, steps, i);
    }
  }

  lemma WaitedBefore(c: Config, junk: seq<Bytes>, steps: seq<Step>, i: nat)
    requires ValidPlans(Plans(c)) && |junk| == |c.sources| && WaitedTooLateAt(c, junk, steps, i)
    ensures i < |steps|
  {
  }

  lemma LastWait(c: Config, junk: seq<Bytes>, steps: seq<Step>, s: State)
    requires ValidPlans(Plans(c)) && |junk| == |c.sources| && steps != []
    ensures var n := |steps| - 1;
            && (WaitedTooLateAt(c, junk, steps, n) <==>
                  steps[n].Subscribe? && After(c, junk, steps[..n]).Some?
                  && After(c, junk, steps[..n]).value.remaining == 0)
            && (steps[n].Subscribe? ==> !EndsWait(steps[n]) && !EndsTheLast(steps[n], s))
  {
    hide Plans, ValidPlans, After, NoneAttached;
  }

  lemma LongerWait(c: Config, junk: seq<Bytes>, steps: seq<Step>, i: nat, s: State)
    requires ValidPlans(Plans(c)) && |junk| == |c.sources| && i + 1 < |steps| && After(c, junk, steps) == Some(s)
    ensures var n := |steps| - 1;
            WaitedTooLateAt(c, junk, steps, i) <==>
              WaitedTooLateAt(c, junk, steps[..n], i) && !EndsWait(steps[n]) && !EndsTheLast(steps[n], s)
  {
    hide Plans, ValidPlans, After, EndsTheLast, EndsWait, Moves, NoneAttached;
    var n, init := |steps| - 1, steps[..|steps| - 1];
    assert steps[..n + 1] == steps;
    assert EndedTheLastAt(c, junk, steps, n) <==> EndsTheLast(steps[n], s);
    forall j | i < j < n
      ensures EndedTheLastAt(c, junk, steps, j) <==> EndedTheLastAt(c, junk, init, j)
    {
      assert init[..j + 1] == steps[..j + 1];
    }
    hide EndedTheLastAt;
    assert init[..i] == steps[..i];
  }

  // ----- when nothing remains -----

  /** The control loop's own steps, a message apart. */
  predicate ByItself(step: Step) {
    step.CheckCounter? || step.Subscribe? || step.StartFinalize? || TowardsGivingUp(step)
  }

  /** The control loop can come to finalizing from here without anybody else moving. */
  ghost predicate CanFinalize(c: Config, junk: seq<Bytes>, steps: seq<Step>)
    requires ValidPlans(Plans(c)) && |junk| == |c.sources|
  {
    exists more ::
      && (forall step | step in more :: ByItself(step))
      && After(c, junk, steps + more).Some? && After(c, junk, steps + more).value.receiver.Finalizing?
  }

  /** The loop is past looking at the counter: it waits, is about to, or will give up. */
  predicate TooLate(s: State) {
    || s.receiver.Looked? || s.receiver.Receiving? || s.receiver.GivingUp?
    || (s.receiver.SawRemaining? && NoneActive(s.handlers))
  }

  lemma StillTooLate(c: Config, s: State, step: Step)
    requires ValidPlans(Plans(c)) && ShapeOk(c, s) && Enabled(c, s, step) && ByItself(step) && TooLate(s)
    ensures TooLate(Apply(c, s, step))
  {
    hide Plans, ValidPlans, NoneActive, DoSend, DoInspect, DoVerify, DoWritePiece, DoLockAndMark, DoRecordRow,
         DoCountBytes, DoSubtract, DoBreak, DoClearRows, DoNewSession, EndHandler, InPlan, IsChunk, Free, Can,
         MayArrive, Complete, Below;
  }

  lemma {:induction false} NeverFinalizes(c: Config, junk: seq<Bytes>, steps: seq<Step>, more: seq<Step>, s: State,
                                          end: State)
    requires Reaches(c, junk, steps, s) && Reaches(c, junk, steps + more, end) && TooLate(s)
    requires forall step | step in more :: ByItself(step)
    requires ValidPlans(Plans(c)) && |junk| == |c.sources|
    ensures TooLate(end)
    decreases |more|
  {
    hide Plans, ValidPlans, Inv, CleanInv, Enabled, Apply, ValidConfig, TooLate;
    if more == [] {
      assert steps + more == steps;
    } else {
      var run, init, last := steps + more, more[..|more| - 1], more[|more| - 1];
      assert run[..|run| - 1] == steps + init && run[|run| - 1] == last;
      assert last in more;
      var before := Before(c, junk, run, end);
      NeverFinalizes(c, junk, steps, init, s, before);
      StillTooLate(c, before, last);
    }
  }

  /** With nothing remaining, the loop gets from any of these phases to finalizing by itself. */
  lemma {:induction false} WalksToFinalizing(c: Config, junk: seq<Bytes>, steps: seq<Step>, s: State)
    returns (more: seq<Step>)
    requires Reaches(c, junk, steps, s) && InLoop(s.receiver) && !TooLate(s) && s.remaining == 0
    ensures (forall step | step in more :: ByItself(step)) && Reaches(c, junk, steps + more, s.(receiver := Finalizing))
    decreases if s.receiver.SawRemaining? then 3 else if s.receiver.Called? then 2 else 1
  {
    hide Plans, ValidPlans, Inv, CleanInv, ValidConfig, Reaches, After, NoneActive;
    Reached(c, junk, steps, s);
    if s.receiver.Busy? || s.receiver.Woken? {
      Extend(c, junk, steps, s, StartFinalize);
      more := [StartFinalize];
    } else {
      var (step, phase) := if s.receiver.Called? then (Wake, Woken) else (LoadActive, Busy);
      Extend(c, junk, steps, s, step);
      var rest := WalksToFinalizing(c, junk, steps + [step], s.(receiver := phase));
      more := [step] + rest;
      assert steps + more == steps + [step] + rest;
    }
  }

  lemma StillInTime(c: Config, s: State, step: Step)
    requires ValidPlans(Plans(c)) && ShapeOk(c, s) && Enabled(c, s, step) && ByItself(step)
    requires InLoop(s.receiver) && s.remaining == 0 && !TooLate(s)
    ensures var s' := Apply(c, s, step);
            s'.remaining == 0 && (s'.receiver.Finalizing? || (InLoop(s'.receiver) && !TooLate(s')))
  {
    hide Plans, ValidPlans, NoneActive, DoSend, DoInspect, DoVerify, DoWritePiece, DoLockAndMark, DoRecordRow,
         DoCountBytes, DoSubtract, DoBreak, DoClearRows, DoNewSession, EndHandler, InPlan, IsChunk, Free, Can,
         MayArrive, Complete, Below;
  }

  /** From there the loop's own steps lead nowhere else. */
  lemma {:induction false} NothingButFinalizing(c: Config, junk: seq<Bytes>, steps: seq<Step>, more: seq<Step>,
                                                s: State, end: State)
    requires Reaches(c, junk, steps, s) && Reaches(c, junk, steps + more, end)
    requires InLoop(s.receiver) && s.remaining == 0 && !TooLate(s)
    requires forall step | step in more :: ByItself(step)
    requires ValidPlans(Plans(c)) && |junk| == |c.sources|
    ensures end.receiver.Finalizing? || (InLoop(end.receiver) && end.remaining == 0 && !TooLate(end))
    decreases |more|
  {
    hide Plans, ValidPlans, Inv, CleanInv, Apply, ValidConfig, TooLate, NoneActive;
    if more == [] {
      assert steps + more == steps;
    } else {
      var run, init, last := steps + more, more[..|more| - 1], more[|more| - 1];
      assert run[..|run| - 1] == steps + init && run[|run| - 1] == last;
      assert last in more;
      var before := Before(c, junk, run, end);
      NothingButFinalizing(c, junk, steps, init, s, before);
      if InLoop(before.receiver) {
        StillInTime(c, before, last);
      }
    }
  }

  /** With nothing remaining, the loop comes to finalizing by itself exactly unless it is past looking at the counter:
      about to wait, waiting, or giving up. */
  lemma FinalizesExactly(c: Config, junk: seq<Bytes>, steps: seq<Step>, s: State)
    requires Reaches(c, junk, steps, s) && ValidPlans(Plans(c)) && |junk| == |c.sources|
    requires InLoop(s.receiver) && s.remaining == 0
    ensures CanFinalize(c, junk, steps) <==> !TooLate(s)
  {
    hide Plans, ValidPlans, ValidConfig, After, NoneActive;
    if TooLate(s) {
      if CanFinalize(c, junk, steps) {
        var more :| (forall step | step in more :: ByItself(step))
                    && After(c, junk, steps + more).Some? && After(c, junk, steps + more).value.receiver.Finalizing?;
        NeverFinalizes(c, junk, steps, more, s, After(c, junk, steps + more).value);
      }
    } else {
      var more := WalksToFinalizing(c, junk, steps, s);
      ReachesMeans(c, junk, steps + more, s.(receiver := Finalizing));
    }
  }

  /** A message helps a loop that waits with nothing remaining: it looks at the counter again. */
  lemma AMessageHelps(c: Config, junk: seq<Bytes>, steps: seq<Step>, s: State)
    requires Reaches(c, junk, steps, s) && ValidPlans(Plans(c)) && |junk| == |c.sources|
    requires WaitsAtZero(s) || (s.receiver.Called? && s.remaining == 0)
    ensures After(c, junk, steps + [HandleMessage]).Some? && CanFinalize(c, junk, steps + [HandleMessage])
  {
    hide Plans, ValidPlans, ValidConfig, Inv, CleanInv, After, NoneActive, CanFinalize, Reaches;
    Reached(c, junk, steps, s);
    Extend(c, junk, steps, s, HandleMessage);
    var s' := Apply(c, s, HandleMessage);
    ReachesMeans(c, junk, steps + [HandleMessage], s');
    FinalizesExactly(c, junk, steps + [HandleMessage], s');
  }

  /** A session in which the receiver has given up or stopped never completes, whatever else happens in it. */
  lemma {:induction false} StoppedForGood(c: Config, junk: seq<Bytes>, steps: seq<Step>, more: seq<Step>,
                                          s: State, end: State)
    requires Reaches(c, junk, steps, s) && Reaches(c, junk, steps + more, end) && s.receiver.Stopped?
    requires forall step | step in more :: !step.NewSession?
    ensures end.receiver.Stopped? && !end.sender.SenderCompleted?
    decreases |more|
  {
    Reached(c, junk, steps + more, end);
    hide Plans, ValidPlans, CleanInv, Enabled, Apply, ValidConfig, FileOk, HandlerOk, SumsOk, TrafficOk;
    if more == [] {
      assert steps + more == steps;
    } else {
      var run, init, last := steps + more, more[..|more| - 1], more[|more| - 1];
      assert run[..|run| - 1] == steps + init && run[|run| - 1] == last;
      assert last in more;
      var before := Before(c, junk, run, end);
      StoppedForGood(c, junk, steps, init, s, before);
    }
  }
}
