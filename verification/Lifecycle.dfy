/** The life of one transfer: the transition table, the commands, the mutators that bypass the table, and what every
    history of them keeps. */
module Lifecycle {
  import opened Wrappers

  datatype TransferState =
    | Preparing
    | Connecting
    | Pairing
    | WaitingForAcceptance
    | Transferring
    | Paused
    | Interrupted
    | Verifying
    | Completed
    | Failed
    | Cancelled

  datatype TransferCommand = Pause | Resume | Cancel | Retry

  datatype LifecycleError = InvalidTransition(from: TransferState, to: TransferState)

  predicate IsTerminal(s: TransferState) {
    s.Completed? || s.Cancelled?
  }

  predicate IsActive(s: TransferState) {
    !s.Completed? && !s.Failed? && !s.Cancelled?
  }

  predicate CanTransition(from: TransferState, to: TransferState) {
    if !IsTerminal(from) && to.Cancelled? then true
    else
      match from
      case Preparing => to.Connecting? || to.Transferring? || to.Failed?
      case Connecting => to.Pairing? || to.WaitingForAcceptance? || to.Transferring? || to.Interrupted? || to.Failed?
      case Pairing => to.WaitingForAcceptance? || to.Failed?
      case WaitingForAcceptance => to.Transferring? || to.Interrupted? || to.Failed?
      case Transferring => to.Paused? || to.Interrupted? || to.Verifying? || to.Failed?
      case Paused => to.Transferring? || to.Interrupted? || to.Failed?
      case Interrupted => to.Preparing?
      case Failed => to.Preparing?
      case Verifying => to.Completed? || to.Failed?
      case Completed => false
      case Cancelled => false
  }

  function Target(command: TransferCommand): TransferState {
    match command
    case Pause => Paused
    case Resume => Transferring
    case Cancel => Cancelled
    case Retry => Preparing
  }

  /** The in-place form of a snapshot's state. */
  class Transfer {
    var state: TransferState

    constructor (state: TransferState)
      ensures this.state == state
    {
      this.state := state;
    }

    method TransitionTo(next: TransferState) returns (r: Result<(), LifecycleError>)
      modifies this
      ensures state == Mutated(old(state), Transition(next))
      ensures r == if CanTransition(old(state), next) then Ok(()) else Err(InvalidTransition(old(state), next))
      ensures r.Ok? <==> LeadsTo(old(state), next)
      ensures state == if LeadsTo(old(state), next) then next else old(state)
    {
      if !CanTransition(state, next) {
        return Err(InvalidTransition(state, next));
      }
      state := next;
      return Ok(());
    }

    method ApplyCommand(command: TransferCommand) returns (r: Result<(), LifecycleError>)
      modifies this
      ensures state == Mutated(old(state), Command(command))
      ensures r.Ok? <==> Accepts(old(state), command)
    {
      r := TransitionTo(Target(command));
    }
  }

  // ----- every way the core changes a state -----

  datatype Mutation =
    | Transition(next: TransferState)
    | Command(command: TransferCommand)
    | Fail
    | Interrupt
    | CancelWithError
    | PauseFromRemote
    | ResumeFromRemote
    | CancelFromRemote
    | Restart
    | Report
    | NewOffer(trusted: bool)

  /** The state after a mutation; one that is refused leaves it as it is. `NewOffer` replaces the snapshot under the
      same id. */
  function Mutated(s: TransferState, m: Mutation): TransferState {
    match m
    case Transition(next) => if CanTransition(s, next) then next else s
    case Command(command) => if CanTransition(s, Target(command)) then Target(command) else s
    case Fail => if IsTerminal(s) then s else Failed
    case Interrupt => if IsTerminal(s) then s else Interrupted
    case CancelWithError => if IsTerminal(s) then s else Cancelled
    case PauseFromRemote => if IsTerminal(s) then s else Paused
    case ResumeFromRemote => if s.Paused? then Transferring else s
    case CancelFromRemote => if IsTerminal(s) then s else Cancelled
    case Restart => if IsActive(s) then Interrupted else s
    case Report => s
    case NewOffer(trusted) => if trusted then WaitingForAcceptance else Pairing
  }

  /** Which commands a state accepts. */
  predicate Accepts(s: TransferState, command: TransferCommand) {
    match command
    case Pause => s.Transferring?
    case Resume => s.Preparing? || s.Connecting? || s.WaitingForAcceptance? || s.Paused?
    case Cancel => !IsTerminal(s)
    case Retry => s.Interrupted? || s.Failed?
  }

  /** From which states the table leads to a state. */
  predicate LeadsTo(s: TransferState, to: TransferState) {
    match to
    case Preparing => s.Interrupted? || s.Failed?
    case Connecting => s.Preparing?
    case Pairing => s.Connecting?
    case WaitingForAcceptance => s.Connecting? || s.Pairing?
    case Transferring => s.Preparing? || s.Connecting? || s.WaitingForAcceptance? || s.Paused?
    case Paused => s.Transferring?
    case Interrupted => s.Connecting? || s.WaitingForAcceptance? || s.Transferring? || s.Paused?
    case Verifying => s.Transferring?
    case Completed => s.Verifying?
    case Failed => IsActive(s) && !s.Interrupted?
    case Cancelled => IsActive(s) || s.Failed?
  }

  /** The transition table read the other way round. */
  lemma TableExactly(s: TransferState, to: TransferState)
    ensures CanTransition(s, to) <==> LeadsTo(s, to)
  {
  }

  /** Which mutations bring a state about that was not there before. */
  predicate BringsAbout(s: TransferState, m: Mutation, to: TransferState) {
    || (m == Transition(to) && LeadsTo(s, to))
    || (m.Command? && to.Paused? && m.command.Pause? && s.Transferring?)
    || (m.Command? && to.Transferring? && m.command.Resume? && LeadsTo(s, Transferring))
    || (m.Command? && to.Cancelled? && m.command.Cancel? && !s.Completed?)
    || (m.Command? && to.Preparing? && m.command.Retry? && (s.Interrupted? || s.Failed?))
    || (to.Failed? && m.Fail? && !s.Completed? && !s.Cancelled?)
    || (to.Interrupted? && m.Interrupt? && !s.Completed? && !s.Cancelled?)
    || (to.Interrupted? && m.Restart? && !s.Completed? && !s.Cancelled? && !s.Failed?)
    || (to.Cancelled? && (m.CancelWithError? || m.CancelFromRemote?) && !s.Completed?)
    || (to.Paused? && m.PauseFromRemote? && !s.Completed? && !s.Cancelled?)
    || (to.Transferring? && m.ResumeFromRemote? && s.Paused?)
    || (to.WaitingForAcceptance? && m == NewOffer(true))
    || (to.Pairing? && m == NewOffer(false))
  }

  /** A state is entered by exactly these mutations, those that bypass the table included. */
  lemma EnteredExactly(s: TransferState, m: Mutation, to: TransferState)
    requires s != to
    ensures Mutated(s, m) == to <==> BringsAbout(s, m, to)
  {
    TableExactly(s, to);
    if m.Command? {
      TableExactly(s, Target(m.command));
    }
    hide CanTransition;
  }

  /** The states a transfer goes through. */
  function History(first: TransferState, ms: seq<Mutation>): (h: seq<TransferState>)
    ensures |h| == |ms| + 1
    ensures h[0] == first
    ensures forall i | 0 <= i < |ms| :: h[i + 1] == Mutated(h[i], ms[i])
    decreases |ms|
  {
    if ms == [] then [first]
    else
      var before := History(first, ms[..|ms| - 1]);
      before + [Mutated(before[|ms| - 1], ms[|ms| - 1])]
  }

  /** A terminal state is left by a new offer under the same id, always, and by nothing else. */
  lemma TerminalLeftExactly(s: TransferState, m: Mutation)
    requires IsTerminal(s)
    ensures Mutated(s, m) != s <==> m.NewOffer?
    ensures m.NewOffer? ==> !IsTerminal(Mutated(s, m))
  {
  }

  /** The state of a history does not change from `i` to `j`. */
  ghost predicate Stays(h: seq<TransferState>, i: nat, j: nat)
    requires i <= j < |h|
  {
    forall k | i <= k <= j :: h[k] == h[i]
  }

  predicate NoNewOffer(ms: seq<Mutation>, i: nat, j: nat)
    requires i <= j <= |ms|
  {
    forall k | i <= k < j :: !ms[k].NewOffer?
  }

  lemma OneMore(h: seq<TransferState>, ms: seq<Mutation>, i: nat, j: nat)
    requires i < j < |h| && j <= |ms|
    ensures Stays(h, i, j) <==> Stays(h, i, j - 1) && h[j] == h[i]
    ensures NoNewOffer(ms, i, j) <==> NoNewOffer(ms, i, j - 1) && !ms[j - 1].NewOffer?
  {
    if Stays(h, i, j) {
      assert h[j] == h[i];
    }
  }

  /** Between two moments of a history a terminal state stays exactly when no new offer comes in between. */
  lemma {:induction false} TerminalIsAbsorbing(first: TransferState, ms: seq<Mutation>, i: nat, j: nat)
    requires i <= j <= |ms| && IsTerminal(History(first, ms)[i])
    ensures Stays(History(first, ms), i, j) <==> NoNewOffer(ms, i, j)
    decreases j
  {
    var h := History(first, ms);
    if i < j {
      TerminalIsAbsorbing(first, ms, i, j - 1);
      OneMore(h, ms, i, j);
      if Stays(h, i, j - 1) {
        assert h[j - 1] == h[i] && h[j] == Mutated(h[j - 1], ms[j - 1]);
        TerminalLeftExactly(h[i], ms[j - 1]);
      }
    }
  }

  /** An offer for a completed transfer starts it over. */
  lemma NewOfferLeavesCompleted()
    ensures History(Completed, [NewOffer(true)]) == [Completed, WaitingForAcceptance]
    ensures History(Cancelled, [NewOffer(false)]) == [Cancelled, Pairing]
  {
    OneMutation(Completed, NewOffer(true));
    OneMutation(Cancelled, NewOffer(false));
  }

  lemma OneMutation(s: TransferState, m: Mutation)
    ensures History(s, [m]) == [s, Mutated(s, m)]
  {
    assert |History(s, [m])| == 2;
  }

  /** No state but those two is absorbing: from any other, some mutation other than a new offer leads away. */
  lemma OnlyTerminalIsAbsorbing(s: TransferState)
    ensures IsTerminal(s) <==> forall m: Mutation | !m.NewOffer? :: Mutated(s, m) == s
  {
    if !IsTerminal(s) {
      assert Mutated(s, CancelWithError) != s;
    }
  }

  /** How far a state is from completion at least. */
  function ToCompletion(s: TransferState): nat {
    match s
    case Completed => 0
    case Verifying => 1
    case Transferring => 2
    case _ => 3
  }

  lemma {:induction false} NoShortcut(first: TransferState, ms: seq<Mutation>)
    ensures ToCompletion(History(first, ms)[|ms|]) + |ms| >= ToCompletion(first)
    decreases |ms|
  {
    if ms != [] {
      NoShortcut(first, ms[..|ms| - 1]);
      EnteredFrom(History(first, ms)[|ms| - 1], ms[|ms| - 1]);
    }
  }

  lemma ThreeMutations(s: TransferState, a: Mutation, b: Mutation, c: Mutation)
    ensures var s1 := Mutated(s, a);
            var s2 := Mutated(s1, b);
            History(s, [a, b, c]) == [s, s1, s2, Mutated(s2, c)]
  {
    hide Mutated;
    var h := History(s, [a, b, c]);
    assert h[1] == Mutated(h[0], a) && h[2] == Mutated(h[1], b) && h[3] == Mutated(h[2], c);
  }

  /** A new transfer can complete, by transitions alone, and no history of fewer than three mutations completes it. */
  lemma CompletesInThree()
    ensures History(Preparing, [Transition(Transferring), Transition(Verifying), Transition(Completed)])
            == [Preparing, Transferring, Verifying, Completed]
    ensures forall ms | History(Preparing, ms)[|ms|] == Completed :: |ms| >= 3
  {
    hide History;
    ThreeMutations(Preparing, Transition(Transferring), Transition(Verifying), Transition(Completed));
    forall ms | History(Preparing, ms)[|ms|] == Completed
      ensures |ms| >= 3
    {
      NoShortcut(Preparing, ms);
    }
  }

  /** The history is in one state from `from` up to, not including, `to`. */
  ghost predicate Throughout(h: seq<TransferState>, from: nat, to: nat, s: TransferState) {
    from <= to <= |h| && forall k | from <= k < to :: h[k] == s
  }

  /** How a history comes to be verifying at `i`: from transferring at `t`, and without a break. */
  ghost predicate VerifyingSince(h: seq<TransferState>, t: nat, i: nat) {
    t < i < |h| && h[t] == Transferring && Throughout(h, t + 1, i + 1, Verifying)
  }

  /** How a history comes to be completed at `i`: from verifying right before `v`, and completed ever since. */
  ghost predicate CompletedSince(h: seq<TransferState>, t: nat, v: nat, i: nat) {
    0 < v <= i < |h| && VerifyingSince(h, t, v - 1) && Throughout(h, v, i + 1, Completed)
  }

  lemma OneLonger(h: seq<TransferState>, from: nat, to: nat, s: TransferState)
    requires Throughout(h, from, to, s) && to < |h| && h[to] == s
    ensures Throughout(h, from, to + 1, s)
  {
  }

  /** Only transferring leads to verifying, and only verifying to completed. */
  lemma EnteredFrom(s: TransferState, m: Mutation)
    ensures Mutated(s, m) == Verifying ==> s == Verifying || s == Transferring
    ensures Mutated(s, m) == Completed ==> s == Completed || s == Verifying
  {
  }

  lemma {:induction false} VerifyingCameFromTransferring(first: TransferState, ms: seq<Mutation>, i: nat)
    returns (t: nat)
    requires !first.Verifying? && i <= |ms| && History(first, ms)[i] == Verifying
    ensures VerifyingSince(History(first, ms), t, i)
    decreases i
  {
    var h := History(first, ms);
    assert i > 0;
    EnteredFrom(h[i - 1], ms[i - 1]);
    if h[i - 1] == Verifying {
      t := VerifyingCameFromTransferring(first, ms, i - 1);
      OneLonger(h, t + 1, i, Verifying);
    } else {
      t := i - 1;
      OneLonger(h, i, i, Verifying);
    }
  }

  /** A transfer that is completed was verifying right before, and verifying was entered from transferring: no mutator,
      bypassing the table or not, completes it any other way. */
  lemma {:induction false} CompletedWasVerified(first: TransferState, ms: seq<Mutation>, i: nat)
    returns (t: nat, v: nat)
    requires !first.Verifying? && !first.Completed? && i <= |ms| && History(first, ms)[i] == Completed
    ensures CompletedSince(History(first, ms), t, v, i)
    decreases i
  {
    var h := History(first, ms);
    assert i > 0;
    EnteredFrom(h[i - 1], ms[i - 1]);
    hide Mutated, VerifyingSince;
    if h[i - 1] == Completed {
      t, v := CompletedWasVerified(first, ms, i - 1);
      OneLonger(h, v, i, Completed);
    } else {
      t := VerifyingCameFromTransferring(first, ms, i - 1);
      v := i;
      OneLonger(h, i, i, Completed);
    }
  }
}
