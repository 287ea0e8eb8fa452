/** The control connection up to the point where data channels are opened: two processes that each follow their own
    script, chosen by whether they trust the other, over two FIFO streams. */
module Handshake {
  import opened Wrappers

  datatype Message =
    | Open
    | Hello
    | Offer
    | Page(last: bool)
    | Pairing(confirmed: bool)
    | Decision(accepted: bool)
    | Resume

  datatype Cause = Unexpected | Lost | PairingRejected | OfferRejected | Died

  /** Where `run_outgoing` is. A state named after a message is about to write it. */
  datatype SenderAt =
    | OpenNext
    | HelloNext
    | AwaitHello
    | OfferNext
    | PageNext(written: nat)
    | AskUser
    | AwaitPairing(accepted: bool)
    | AwaitDecision
    | AwaitResume
    | ChannelsOpened
    | SenderFailed(cause: Cause)

  /** Where `handle_incoming_control` is, from the first message of the connection on. */
  datatype ReceiverAt =
    | AwaitOpen
    | AwaitPeerHello
    | ReplyHello
    | AwaitOffer
    | AwaitPage
    | Answering
    | AwaitConfirmation(answer: bool)
    | Confirm(both: bool)
    | Refuse
    | Accept
    | SendResume
    | Accepted
    | Rejected
    | ReceiverFailed(cause: Cause)

  /** What is fixed for a connection: each side's trust in the other, and how many manifest pages there are. */
  datatype Setting = Setting(senderTrusts: bool, receiverTrusts: bool, pages: nat)

  /** `written` is everything a side has written so far, `read` how much of it the other side has read. */
  datatype State = State(
    sender: SenderAt,
    toReceiver: seq<Message>, readByReceiver: nat,
    receiver: ReceiverAt,
    toSender: seq<Message>, readBySender: nat,
    // history of the two users' answers, read by no step
    senderAnswer: Option<bool>, receiverAnswer: Option<bool>)

  function Start(): State {
    State(OpenNext, [], 0, AwaitOpen, [], 0, None, None)
  }

  /** `SenderActs` and `ReceiverActs` carry the user's answer for the one step that asks for it. */
  datatype Step =
    | SenderActs(answer: bool)
    | ReceiverActs(answer: bool)
    | SenderLoses
    | ReceiverLoses
    | SenderDies
    | ReceiverDies

  predicate SenderWaits(at: SenderAt) {
    at.AwaitHello? || at.AwaitPairing? || at.AwaitDecision? || at.AwaitResume?
  }

  predicate SenderDone(at: SenderAt) {
    at.ChannelsOpened? || at.SenderFailed?
  }

  predicate ReceiverWaits(at: ReceiverAt) {
    at.AwaitOpen? || at.AwaitPeerHello? || at.AwaitOffer? || at.AwaitPage? || at.AwaitConfirmation?
  }

  predicate ReceiverDone(at: ReceiverAt) {
    at.Accepted? || at.Rejected? || at.ReceiverFailed?
  }

  predicate Enabled(s: State, step: Step) {
    match step
    case SenderActs(_) => !SenderDone(s.sender) && (SenderWaits(s.sender) ==> s.readBySender < |s.toSender|)
    case ReceiverActs(_) => !ReceiverDone(s.receiver)
      && (ReceiverWaits(s.receiver) ==> s.readByReceiver < |s.toReceiver|)
    case SenderLoses => SenderWaits(s.sender) && (s.receiver.Rejected? || s.receiver.ReceiverFailed?)
    case ReceiverLoses => ReceiverWaits(s.receiver) && s.sender.SenderFailed?
    case SenderDies => !SenderDone(s.sender)
    case ReceiverDies => !ReceiverDone(s.receiver)
  }

  function SenderWrites(s: State, message: Message, next: SenderAt): State {
    s.(toReceiver := s.toReceiver + [message], sender := next)
  }

  function ReceiverWrites(s: State, message: Message, next: ReceiverAt): State {
    s.(toSender := s.toSender + [message], receiver := next)
  }

  function SenderReads(s: State, next: SenderAt): State {
    s.(readBySender := s.readBySender + 1, sender := next)
  }

  function ReceiverReads(s: State, next: ReceiverAt): State {
    s.(readByReceiver := s.readByReceiver + 1, receiver := next)
  }

  function SenderStep(c: Setting, s: State, answer: bool): State
    requires Enabled(s, SenderActs(answer))
  {
    match s.sender
    case OpenNext => SenderWrites(s, Open, HelloNext)
    case HelloNext => SenderWrites(s, Hello, AwaitHello)
    case AwaitHello =>
      SenderReads(s, if s.toSender[s.readBySender].Hello? then OfferNext else SenderFailed(Unexpected))
    case OfferNext => SenderWrites(s, Offer, PageNext(0))
    case PageNext(k) =>
      SenderWrites(s, Page(k + 1 >= c.pages),
                   if k + 1 < c.pages then PageNext(k + 1) else if c.senderTrusts then AwaitDecision else AskUser)
    case AskUser => SenderWrites(s.(senderAnswer := Some(answer)), Pairing(answer), AwaitPairing(answer))
    case AwaitPairing(accepted) =>
      var message := s.toSender[s.readBySender];
      SenderReads(s, if !message.Pairing? then SenderFailed(Unexpected)
                     else if !accepted || !message.confirmed then SenderFailed(PairingRejected)
                     else AwaitDecision)
    case AwaitDecision =>
      var message := s.toSender[s.readBySender];
      SenderReads(s, if !message.Decision? then SenderFailed(Unexpected)
                     else if !message.accepted then SenderFailed(OfferRejected)
                     else AwaitResume)
    case AwaitResume =>
      SenderReads(s, if s.toSender[s.readBySender].Resume? then ChannelsOpened else SenderFailed(Unexpected))
  }

  function ReceiverStep(c: Setting, s: State, answer: bool): State
    requires Enabled(s, ReceiverActs(answer))
  {
    match s.receiver
    case AwaitOpen =>
      ReceiverReads(s, if s.toReceiver[s.readByReceiver].Open? then AwaitPeerHello else ReceiverFailed(Unexpected))
    case AwaitPeerHello =>
      ReceiverReads(s, if s.toReceiver[s.readByReceiver].Hello? then ReplyHello else ReceiverFailed(Unexpected))
    case ReplyHello => ReceiverWrites(s, Hello, AwaitOffer)
    case AwaitOffer =>
      ReceiverReads(s, if s.toReceiver[s.readByReceiver].Offer? then AwaitPage else ReceiverFailed(Unexpected))
    case AwaitPage =>
      var message := s.toReceiver[s.readByReceiver];
      ReceiverReads(s, if !message.Page? then ReceiverFailed(Unexpected)
                       else if message.last then Answering else AwaitPage)
    case Answering =>
      s.(receiverAnswer := Some(answer),
         receiver := if !c.receiverTrusts then AwaitConfirmation(answer) else if answer then Accept else Refuse)
    case AwaitConfirmation(mine) =>
      var message := s.toReceiver[s.readByReceiver];
      ReceiverReads(s, if message.Pairing? then Confirm(mine && message.confirmed) else ReceiverFailed(Unexpected))
    case Confirm(both) => ReceiverWrites(s, Pairing(both), if both then Accept else Refuse)
    case Refuse => ReceiverWrites(s, Decision(false), Rejected)
    case Accept => ReceiverWrites(s, Decision(true), SendResume)
    case SendResume => ReceiverWrites(s, Resume, Accepted)
  }

  function Apply(c: Setting, s: State, step: Step): State
    requires Enabled(s, step)
  {
    match step
    case SenderActs(answer) => SenderStep(c, s, answer)
    case ReceiverActs(answer) => ReceiverStep(c, s, answer)
    case SenderLoses => s.(sender := SenderFailed(Lost))
    case ReceiverLoses => s.(receiver := ReceiverFailed(Lost))
    case SenderDies => s.(sender := SenderFailed(Died))
    case ReceiverDies => s.(receiver := ReceiverFailed(Died))
  }

  function After(c: Setting, steps: seq<Step>): Option<State>
    decreases |steps|
  {
    if steps == [] then Some(Start())
    else
      match After(c, steps[..|steps| - 1])
      case None => None
      case Some(before) =>
        var last := steps[|steps| - 1];
        if Enabled(before, last) then Some(Apply(c, before, last)) else None
  }

  /** Some side still has something to do, and no step but a crash is left. */
  predicate Stuck(s: State) {
    && !(SenderDone(s.sender) && ReceiverDone(s.receiver))
    && !Enabled(s, SenderActs(true)) && !Enabled(s, ReceiverActs(true)) && !Enabled(s, SenderLoses)
      && !Enabled(s, ReceiverLoses)
  }

  predicate Misread(s: State) {
    s.sender == SenderFailed(Unexpected) || s.receiver == ReceiverFailed(Unexpected)
  }

  // ----- the scripts -----

  /** The `i`-th message of the sender, if it gets that far. */
  function Line(c: Setting, answer: Option<bool>, i: nat): Message {
    if i == 0 then Open
    else if i == 1 then Hello
    else if i == 2 then Offer
    else if i < c.pages + 3 then Page(i >= c.pages + 2)
    else Pairing(answer == Some(true))
  }

  /** Both users have said yes, as far as they are asked. */
  predicate Both(c: Setting, s: State) {
    s.receiverAnswer == Some(true) && (c.receiverTrusts || s.senderAnswer == Some(true))
  }

  /** The `i`-th message of the receiver, if it gets that far. */
  function Reply(c: Setting, both: bool, i: nat): Message {
    if i == 0 then Hello
    else if i == 1 && !c.receiverTrusts then Pairing(both)
    else if i == 1 || (i == 2 && !c.receiverTrusts) then Decision(both)
    else Resume
  }

  /** How many messages the sender has written where it stands. */
  function Written(c: Setting, at: SenderAt): nat {
    match at
    case OpenNext => 0
    case HelloNext => 1
    case AwaitHello => 2
    case OfferNext => 2
    case PageNext(k) => 3 + k
    case AskUser => c.pages + 3
    case AwaitPairing(_) => c.pages + 4
    case _ => c.pages + if c.senderTrusts then 3 else 4
  }

  /** How many messages the receiver has written where it stands. */
  function Replied(c: Setting, at: ReceiverAt): nat {
    var confirmed := if c.receiverTrusts then 1 else 2;
    match at
    case AwaitOpen => 0
    case AwaitPeerHello => 0
    case ReplyHello => 0
    case Refuse => confirmed
    case Accept => confirmed
    case SendResume => confirmed + 1
    case Rejected => confirmed + 1
    case Accepted => confirmed + 2
    case _ => 1
  }

  ghost predicate StreamsOk(c: Setting, s: State) {
    && (forall i: nat | i < |s.toReceiver| :: s.toReceiver[i] == Line(c, s.senderAnswer, i))
    && (forall i: nat | i < |s.toSender| :: s.toSender[i] == Reply(c, Both(c, s), i))
    && s.readByReceiver <= |s.toReceiver| && s.readBySender <= |s.toSender|
    && (if s.sender.SenderFailed? then |s.toReceiver| <= c.pages + 4 else |s.toReceiver| == Written(c, s.sender))
    && (if s.receiver.ReceiverFailed? then |s.toSender| <= Replied(c, SendResume)
        else |s.toSender| == Replied(c, s.receiver))
    && (|s.toReceiver| > c.pages + 3 <==> s.senderAnswer.Some?)
    && (|s.toSender| > 1 ==> s.receiverAnswer.Some? && (c.receiverTrusts || s.senderAnswer.Some?))
    && (|s.toSender| > Replied(c, Accept) + 1 ==> Both(c, s))
  }

  predicate SaidYes(c: Setting, s: State) {
    c.senderTrusts || (|s.toSender| > 1 && s.toSender[1] == Pairing(true) && s.senderAnswer == Some(true))
  }

  predicate ReadAcceptance(c: Setting, s: State) {
    var at := if c.senderTrusts then 1 else 2;
    |s.toSender| > at && s.toSender[at] == Decision(true)
  }

  /** How many messages the sender has read where it stands, and what they told it. */
  predicate SenderPlace(c: Setting, s: State) {
    var replies := if c.senderTrusts then 1 else 2;
    match s.sender
    case OpenNext => s.readBySender == 0
    case HelloNext => s.readBySender == 0
    case AwaitHello => s.readBySender == 0
    case OfferNext => s.readBySender == 1
    case PageNext(k) => s.readBySender == 1 && k < c.pages
    case AskUser => s.readBySender == 1 && !c.senderTrusts
    case AwaitPairing(a) => s.readBySender == 1 && !c.senderTrusts && s.senderAnswer == Some(a)
    case AwaitDecision => s.readBySender == replies && SaidYes(c, s)
    case AwaitResume => s.readBySender == replies + 1 && SaidYes(c, s) && ReadAcceptance(c, s)
    case ChannelsOpened => s.readBySender == replies + 2 && SaidYes(c, s) && ReadAcceptance(c, s)
    case SenderFailed(_) => true
  }

  predicate ReceiverPlace(c: Setting, s: State) {
    var all := c.pages + if c.receiverTrusts then 3 else 4;
    match s.receiver
    case AwaitOpen => s.readByReceiver == 0
    case AwaitPeerHello => s.readByReceiver == 1
    case ReplyHello => s.readByReceiver == 2
    case AwaitOffer => s.readByReceiver == 2
    case AwaitPage => 3 <= s.readByReceiver < c.pages + 3
    case Answering => s.readByReceiver == c.pages + 3
    case AwaitConfirmation(a) => s.readByReceiver == c.pages + 3 && !c.receiverTrusts && s.receiverAnswer == Some(a)
    case Confirm(both) => s.readByReceiver == all && !c.receiverTrusts && s.receiverAnswer.Some? && both == Both(c, s)
    case Refuse => s.readByReceiver == all && s.receiverAnswer.Some? && !Both(c, s)
    case Accept => s.readByReceiver == all && Both(c, s)
    case SendResume => s.readByReceiver == all && Both(c, s)
    case Accepted => s.readByReceiver == all && Both(c, s)
    case Rejected => s.readByReceiver == all && !Both(c, s)
    case ReceiverFailed(_) => true
  }

  predicate Agree(c: Setting) {
    c.senderTrusts == c.receiverTrusts
  }

  ghost predicate Inv(c: Setting, s: State) {
    StreamsOk(c, s) && SenderPlace(c, s) && ReceiverPlace(c, s) && (Agree(c) ==> !Misread(s))
  }

  // ----- what every step keeps -----

  lemma SenderWritesKeep(c: Setting, s: State, answer: bool)
    requires c.pages >= 1 && Inv(c, s) && Enabled(s, SenderActs(answer))
    requires !SenderWaits(s.sender) && !s.sender.AskUser?
    ensures Inv(c, SenderStep(c, s, answer))
  {
    hide Reply, Replied;
  }

  /** The confirmation is written before the receiver can have replied to it. */
  lemma SenderAsksKeep(c: Setting, s: State, answer: bool)
    requires c.pages >= 1 && Inv(c, s) && s.sender.AskUser?
    ensures Inv(c, SenderStep(c, s, answer))
  {
  }

  lemma SenderReadsKeep(c: Setting, s: State, answer: bool)
    requires c.pages >= 1 && Inv(c, s) && Enabled(s, SenderActs(answer)) && SenderWaits(s.sender)
    ensures Inv(c, SenderStep(c, s, answer))
  {
    assert s.toSender[s.readBySender] == Reply(c, Both(c, s), s.readBySender);
    hide Line;
    var s' := SenderStep(c, s, answer);
    assert Both(c, s') == Both(c, s);
    assert StreamsOk(c, s');
  }

  /** The message about to be written is the next one of the script. */
  lemma NextReply(c: Setting, s: State, answer: bool)
    requires c.pages >= 1 && Inv(c, s) && Enabled(s, ReceiverActs(answer))
    requires !ReceiverWaits(s.receiver) && !s.receiver.Answering?
    ensures var s', n := ReceiverStep(c, s, answer), |s.toSender|;
            s' == ReceiverWrites(s, Reply(c, Both(c, s), n), s'.receiver) && n + 1 == Replied(c, s'.receiver)
            && !s'.receiver.ReceiverFailed? && ReceiverPlace(c, s')
            && (n > 0 ==> s.receiverAnswer.Some? && (c.receiverTrusts || s.senderAnswer.Some?))
            && (n > Replied(c, Accept) ==> Both(c, s))
  {
    hide Line;
  }

  lemma ReplyKeeps(c: Setting, s: State, s': State)
    requires Inv(c, s) && s' == ReceiverWrites(s, Reply(c, Both(c, s), |s.toSender|), s'.receiver)
    requires |s.toSender| + 1 == Replied(c, s'.receiver) && ReceiverPlace(c, s') && !s'.receiver.ReceiverFailed?
    requires |s.toSender| > 0 ==> s.receiverAnswer.Some? && (c.receiverTrusts || s.senderAnswer.Some?)
    requires |s.toSender| > Replied(c, Accept) ==> Both(c, s)
    ensures Inv(c, s')
  {
    hide Line, Written, Reply, ReceiverPlace;
    assert Both(c, s') == Both(c, s);
    hide Both;
    assert StreamsOk(c, s') by {
      hide SenderPlace;
    }
  }

  lemma ReceiverWritesKeep(c: Setting, s: State, answer: bool)
    requires c.pages >= 1 && Inv(c, s) && Enabled(s, ReceiverActs(answer))
    requires !ReceiverWaits(s.receiver) && !s.receiver.Answering?
    ensures Inv(c, ReceiverStep(c, s, answer))
  {
    hide Inv, ReceiverStep, Both, Reply, Replied;
    NextReply(c, s, answer);
    ReplyKeeps(c, s, ReceiverStep(c, s, answer));
  }

  lemma ReceiverAnswersKeep(c: Setting, s: State, answer: bool)
    requires c.pages >= 1 && Inv(c, s) && s.receiver.Answering?
    ensures Inv(c, ReceiverStep(c, s, answer))
  {
    hide Line, Written;
  }

  lemma ReceiverReadsKeep(c: Setting, s: State, answer: bool)
    requires c.pages >= 1 && Inv(c, s) && Enabled(s, ReceiverActs(answer)) && ReceiverWaits(s.receiver)
    ensures Inv(c, ReceiverStep(c, s, answer))
  {
    assert s.toReceiver[s.readByReceiver] == Line(c, s.senderAnswer, s.readByReceiver);
    hide Reply;
  }

  lemma CrashKeeps(c: Setting, s: State, step: Step)
    requires c.pages >= 1 && Inv(c, s) && Enabled(s, step) && !step.SenderActs? && !step.ReceiverActs?
    ensures Inv(c, Apply(c, s, step))
  {
    hide Line, Reply;
    assert Both(c, Apply(c, s, step)) == Both(c, s);
  }

  lemma StepKeeps(c: Setting, s: State, step: Step)
    requires c.pages >= 1 && Inv(c, s) && Enabled(s, step)
    ensures Inv(c, Apply(c, s, step))
  {
    hide Inv, SenderStep, ReceiverStep;
    match step
    case SenderActs(answer) =>
      if SenderWaits(s.sender) {
        SenderReadsKeep(c, s, answer);
      } else if s.sender.AskUser? {
        SenderAsksKeep(c, s, answer);
      } else {
        SenderWritesKeep(c, s, answer);
      }
    case ReceiverActs(answer) =>
      if ReceiverWaits(s.receiver) {
        ReceiverReadsKeep(c, s, answer);
      } else if s.receiver.Answering? {
        ReceiverAnswersKeep(c, s, answer);
      } else {
        ReceiverWritesKeep(c, s, answer);
      }
    case _ => CrashKeeps(c, s, step);
  }

  lemma {:induction false} RunKeepsInv(c: Setting, steps: seq<Step>)
    requires c.pages >= 1 && After(c, steps).Some?
    ensures Inv(c, After(c, steps).value)
    decreases |steps|
  {
    if steps != [] {
      hide Inv, Apply, Enabled;
      RunKeepsInv(c, steps[..|steps| - 1]);
      StepKeeps(c, After(c, steps[..|steps| - 1]).value, steps[|steps| - 1]);
    }
  }

  // ----- what the handshake guarantees -----

  /** Data channels are opened only if the receiver's user accepted, the sender's user confirmed where asked, and both
      sides hold the same trust, whatever trust they start from. */
  lemma OpenedMeansAgreed(c: Setting, steps: seq<Step>, s: State)
    requires c.pages >= 1 && After(c, steps) == Some(s) && s.sender.ChannelsOpened?
    ensures Agree(c) && s.receiverAnswer == Some(true) && (!c.senderTrusts ==> s.senderAnswer == Some(true))
    ensures s.receiver.Accepted? && s.readByReceiver == |s.toReceiver| && s.readBySender == |s.toSender|
  {
    RunKeepsInv(c, steps);
    assert forall i: nat | i < |s.toSender| :: s.toSender[i] == Reply(c, Both(c, s), i);
  }

  /** With agreeing trust no reachable state misreads a message or is stuck. */
  lemma NeverStuck(c: Setting, steps: seq<Step>, s: State)
    requires c.pages >= 1 && Agree(c) && After(c, steps) == Some(s)
    ensures !Misread(s) && !Stuck(s)
  {
    RunKeepsInv(c, steps);
    hide Line, Reply;
  }

  // ----- how it ends -----

  predicate Dies(step: Step) {
    step.SenderDies? || step.ReceiverDies?
  }

  /** Both users have said yes, as far as the sender asks its own. */
  predicate AllYes(c: Setting, s: State) {
    s.receiverAnswer == Some(true) && (c.senderTrusts || s.senderAnswer == Some(true))
  }

  predicate AllAsked(c: Setting, s: State) {
    s.receiverAnswer.Some? && (c.senderTrusts || s.senderAnswer.Some?)
  }

  /** In a handshake in which nobody dies the receiver does not fail, and the sender only after a no. */
  predicate FailsForANo(c: Setting, s: State) {
    && !s.receiver.ReceiverFailed?
    && (s.sender.SenderFailed? ==>
          && AllAsked(c, s) && !AllYes(c, s) && (s.receiver.Refuse? || s.receiver.Rejected?)
          && (s.sender.cause.Lost? || s.sender.cause == if c.senderTrusts then OfferRejected else PairingRejected))
  }

  lemma SenderFailsForANo(c: Setting, s: State, answer: bool)
    requires c.pages >= 1 && Agree(c) && Inv(c, s) && FailsForANo(c, s) && Enabled(s, SenderActs(answer))
    ensures FailsForANo(c, SenderStep(c, s, answer))
  {
    StepKeeps(c, s, SenderActs(answer));
    if SenderWaits(s.sender) {
      assert s.toSender[s.readBySender] == Reply(c, Both(c, s), s.readBySender);
    }
    hide Line;
  }

  lemma OthersFailForANo(c: Setting, s: State, step: Step)
    requires c.pages >= 1 && Agree(c) && Inv(c, s) && FailsForANo(c, s) && Enabled(s, step)
    requires !Dies(step) && !step.SenderActs?
    ensures FailsForANo(c, Apply(c, s, step))
  {
    StepKeeps(c, s, step);
    hide Line, Reply, SenderPlace;
  }

  lemma {:induction false} RunFailsForANo(c: Setting, steps: seq<Step>, s: State)
    requires c.pages >= 1 && Agree(c) && After(c, steps) == Some(s) && forall step | step in steps :: !Dies(step)
    ensures FailsForANo(c, s)
    decreases |steps|
  {
    if steps != [] {
      hide Inv, Apply, Enabled, FailsForANo;
      var init, last := steps[..|steps| - 1], steps[|steps| - 1];
      var before := After(c, init).value;
      assert last in steps;
      RunKeepsInv(c, init);
      RunFailsForANo(c, init, before);
      if last.SenderActs? {
        ByTheSender(c, before, last);
        SenderFailsForANo(c, before, last.answer);
      } else {
        OthersFailForANo(c, before, last);
      }
    } else {
      hide Inv;
    }
  }

  lemma ByTheSender(c: Setting, s: State, step: Step)
    requires Enabled(s, step) && step.SenderActs?
    ensures Enabled(s, SenderActs(step.answer)) && Apply(c, s, step) == SenderStep(c, s, step.answer)
  {
  }

  /** How a handshake ends in which the two sides agree about trust and nobody dies: with open channels exactly if every
      user asked said yes, and otherwise with the refusal that fits, unless the sender lost the connection first. */
  lemma EndsAsAnswered(c: Setting, steps: seq<Step>, s: State)
    requires c.pages >= 1 && Agree(c) && After(c, steps) == Some(s) && forall step | step in steps :: !Dies(step)
    requires SenderDone(s.sender) && ReceiverDone(s.receiver)
    ensures s.sender.ChannelsOpened? <==> AllYes(c, s)
    ensures s.receiver == if AllYes(c, s) then Accepted else Rejected
    ensures s.sender == SenderFailed(PairingRejected) <==>
              !c.senderTrusts && !AllYes(c, s) && s.sender != SenderFailed(Lost)
    ensures s.sender == SenderFailed(OfferRejected) <==>
              c.senderTrusts && !AllYes(c, s) && s.sender != SenderFailed(Lost)
  {
    RunFailsForANo(c, steps, s);
    if s.sender.ChannelsOpened? {
      OpenedMeansAgreed(c, steps, s);
    }
  }

  lemma AnswerOfAStep(c: Setting, s: State, step: Step)
    requires Enabled(s, step)
    ensures var s' := Apply(c, s, step);
            && (s'.senderAnswer != s.senderAnswer ==> step.SenderActs? && s'.senderAnswer == Some(step.answer))
            && (s'.receiverAnswer != s.receiverAnswer ==> step.ReceiverActs? && s'.receiverAnswer == Some(step.answer))
  {
  }

  /** The users are asked for the answers the run carries. */
  lemma {:induction false} AnswersAreGiven(c: Setting, steps: seq<Step>, s: State)
    requires After(c, steps) == Some(s)
    ensures s.senderAnswer.Some? ==> SenderActs(s.senderAnswer.value) in steps
    ensures s.receiverAnswer.Some? ==> ReceiverActs(s.receiverAnswer.value) in steps
    decreases |steps|
  {
    hide Enabled, Apply;
    if steps != [] {
      var init, last := steps[..|steps| - 1], steps[|steps| - 1];
      AnswersAreGiven(c, init, After(c, init).value);
      AnswerOfAStep(c, After(c, init).value, last);
      assert last in steps && forall step | step in init :: step in steps;
    }
  }

  /** With agreeing trust, when nobody dies and everybody says yes, nothing ever fails or is refused, and the end is
      open channels on one side and an accepted transfer on the other. */
  lemma YesOpensChannels(c: Setting, steps: seq<Step>, s: State)
    requires c.pages >= 1 && Agree(c) && After(c, steps) == Some(s) && forall step | step in steps :: !Dies(step)
    requires SenderActs(false) !in steps && ReceiverActs(false) !in steps
    ensures !s.sender.SenderFailed? && !s.receiver.ReceiverFailed? && !s.receiver.Rejected?
    ensures (forall step | Enabled(s, step) :: Dies(step)) ==> s.sender.ChannelsOpened? && s.receiver.Accepted?
  {
    RunFailsForANo(c, steps, s);
    AnswersAreGiven(c, steps, s);
    RunKeepsInv(c, steps);
    AlwaysComesToItsEnd(c, steps, s);
    hide StreamsOk, SenderPlace;
  }

  // ----- how long it can take -----

  function SenderLeft(c: Setting, at: SenderAt): int {
    match at
    case OpenNext => c.pages + 8
    case HelloNext => c.pages + 7
    case AwaitHello => c.pages + 6
    case OfferNext => c.pages + 5
    case PageNext(k) => c.pages - k + 4
    case AskUser => 4
    case AwaitPairing(_) => 3
    case AwaitDecision => 2
    case AwaitResume => 1
    case ChannelsOpened => 0
    case SenderFailed(_) => 0
  }

  function ReceiverLeft(c: Setting, at: ReceiverAt, read: nat): int {
    match at
    case AwaitOpen => c.pages + 9
    case AwaitPeerHello => c.pages + 8
    case ReplyHello => c.pages + 7
    case AwaitOffer => c.pages + 6
    case AwaitPage => c.pages + 3 - read + 5
    case Answering => 5
    case AwaitConfirmation(_) => 4
    case Confirm(_) => 3
    case Refuse => 2
    case Accept => 2
    case SendResume => 1
    case Accepted => 0
    case Rejected => 0
    case ReceiverFailed(_) => 0
  }

  function Left(c: Setting, s: State): int {
    SenderLeft(c, s.sender) + ReceiverLeft(c, s.receiver, s.readByReceiver)
  }

  lemma LeftNeverNegative(c: Setting, s: State)
    requires Inv(c, s)
    ensures SenderLeft(c, s.sender) >= 0 && ReceiverLeft(c, s.receiver, s.readByReceiver) >= 0
  {
    hide StreamsOk, SaidYes, ReadAcceptance, Both;
  }

  lemma SenderActsLess(c: Setting, s: State, answer: bool)
    requires c.pages >= 1 && Inv(c, s) && Enabled(s, SenderActs(answer))
    ensures var s' := SenderStep(c, s, answer);
            && SenderLeft(c, s'.sender) < SenderLeft(c, s.sender)
            && s'.receiver == s.receiver && s'.readByReceiver == s.readByReceiver
  {
    hide StreamsOk, SaidYes, ReadAcceptance, Both, ReceiverPlace;
  }

  lemma ReceiverActsLess(c: Setting, s: State, answer: bool)
    requires c.pages >= 1 && Inv(c, s) && Enabled(s, ReceiverActs(answer))
    ensures var s' := ReceiverStep(c, s, answer);
            && ReceiverLeft(c, s'.receiver, s'.readByReceiver) < ReceiverLeft(c, s.receiver, s.readByReceiver)
            && s'.sender == s.sender
  {
    hide StreamsOk, SaidYes, ReadAcceptance, Both, SenderPlace;
  }

  lemma LeftDecreases(c: Setting, s: State, step: Step)
    requires c.pages >= 1 && Inv(c, s) && Enabled(s, step)
    ensures 0 <= Left(c, Apply(c, s, step)) < Left(c, s)
  {
    StepKeeps(c, s, step);
    LeftNeverNegative(c, s);
    LeftNeverNegative(c, Apply(c, s, step));
    hide Inv, SenderStep, ReceiverStep;
    match step
    case SenderActs(answer) => SenderActsLess(c, s, answer);
    case ReceiverActs(answer) => ReceiverActsLess(c, s, answer);
    case _ =>
  }

  lemma {:induction false} RunsEnd(c: Setting, steps: seq<Step>)
    requires c.pages >= 1 && After(c, steps).Some?
    ensures 0 <= Left(c, After(c, steps).value) <= 2 * c.pages + 17 - |steps|
    decreases |steps|
  {
    if steps != [] {
      hide Inv, Apply, Enabled, Left;
      var before := After(c, steps[..|steps| - 1]).value;
      RunsEnd(c, steps[..|steps| - 1]);
      RunKeepsInv(c, steps[..|steps| - 1]);
      LeftDecreases(c, before, steps[|steps| - 1]);
    }
  }

  /** With agreeing trust a handshake in which nobody crashes always comes to its end: it has at most `2 * pages + 17`
      steps, and where none is left both sides are done. */
  lemma AlwaysComesToItsEnd(c: Setting, steps: seq<Step>, s: State)
    requires c.pages >= 1 && Agree(c) && After(c, steps) == Some(s)
    ensures |steps| <= 2 * c.pages + 17
    ensures (forall step | Enabled(s, step) :: step.SenderDies? || step.ReceiverDies?) ==>
              SenderDone(s.sender) && ReceiverDone(s.receiver)
  {
    RunsEnd(c, steps);
    NeverStuck(c, steps, s);
    hide After, Left;
  }

  // ----- disagreeing trust -----

  predicate Bad(s: State) {
    Stuck(s) || Misread(s)
  }

  lemma Extend(c: Setting, steps: seq<Step>, s: State, step: Step)
    requires After(c, steps) == Some(s) && Enabled(s, step)
    ensures After(c, steps + [step]) == Some(Apply(c, s, step))
  {
    assert (steps + [step])[..|steps + [step]| - 1] == steps;
  }

  /** The sender writes the rest of its manifest; nobody else moves. */
  lemma {:induction false} WritePages(c: Setting, steps: seq<Step>, s: State) returns (more: seq<Step>, end: State)
    requires c.pages >= 1 && After(c, steps) == Some(s) && s.sender.PageNext? && s.sender.written < c.pages
    ensures After(c, more) == Some(end) && end.sender == (if c.senderTrusts then AwaitDecision else AskUser)
    ensures end.receiver == s.receiver && end.toSender == s.toSender && end.readByReceiver == s.readByReceiver
    ensures end.readBySender == s.readBySender && end.receiverAnswer == s.receiverAnswer
    decreases c.pages - s.sender.written
  {
    hide After;
    Extend(c, steps, s, SenderActs(true));
    var s' := SenderStep(c, s, true);
    if s'.sender.PageNext? {
      more, end := WritePages(c, steps + [SenderActs(true)], s');
    } else {
      more, end := steps + [SenderActs(true)], s';
    }
  }

  /** The receiver reads a manifest that is all there. */
  lemma {:induction false} ReadPages(c: Setting, steps: seq<Step>, s: State) returns (more: seq<Step>, end: State)
    requires c.pages >= 1 && After(c, steps) == Some(s) && s.receiver.AwaitPage? && |s.toReceiver| >= c.pages + 3
    ensures After(c, more) == Some(end) && end.receiver.Answering?
    ensures end.sender == s.sender && end.toSender == s.toSender && end.toReceiver == s.toReceiver
    ensures end.readBySender == s.readBySender
    decreases c.pages + 3 - s.readByReceiver
  {
    RunKeepsInv(c, steps);
    assert s.toReceiver[s.readByReceiver] == Line(c, s.senderAnswer, s.readByReceiver);
    hide After;
    Extend(c, steps, s, ReceiverActs(true));
    var s' := ReceiverStep(c, s, true);
    if s'.receiver.AwaitPage? {
      more, end := ReadPages(c, steps + [ReceiverActs(true)], s');
    } else {
      more, end := steps + [ReceiverActs(true)], s';
    }
  }

  lemma Hail(c: Setting) returns (steps: seq<Step>, end: State)
    ensures After(c, steps) == Some(end)
    ensures end.sender == AwaitHello && end.receiver == ReplyHello && end.readByReceiver == 2
    ensures end.toSender == [] && end.readBySender == 0 && end.toReceiver == [Open, Hello]
  {
    var s, r := SenderActs(true), ReceiverActs(true);
    Extend(c, [], Start(), s);
    hide After;
    var s1 := SenderStep(c, Start(), true);
    Extend(c, [] + [s], s1, s);
    var s2 := SenderStep(c, s1, true);
    assert s2.toReceiver == [Open, Hello];
    Extend(c, [] + [s] + [s], s2, r);
    var s3 := ReceiverStep(c, s2, true);
    Extend(c, [] + [s] + [s] + [r], s3, r);
    end := ReceiverStep(c, s3, true);
    steps := [] + [s] + [s] + [r] + [r];
  }

  /** Up to the first page both sides exchange greetings, whoever trusts whom. */
  lemma Greet(c: Setting) returns (steps: seq<Step>, end: State)
    ensures After(c, steps) == Some(end)
    ensures end.sender == PageNext(0) && end.receiver == AwaitOffer && end.readByReceiver == 2
    ensures end.toSender == [Hello] && end.readBySender == 1
  {
    hide After;
    var s, r := SenderActs(true), ReceiverActs(true);
    var hailed, s0 := Hail(c);
    Extend(c, hailed, s0, r);
    var s1 := ReceiverStep(c, s0, true);
    assert s1.toSender == [Hello];
    Extend(c, hailed + [r], s1, s);
    var s2 := SenderStep(c, s1, true);
    Extend(c, hailed + [r] + [s], s2, s);
    end := SenderStep(c, s2, true);
    steps := hailed + [r] + [s] + [s];
  }

  /** The manifest is through and the receiver is about to answer. */
  lemma Introduce(c: Setting) returns (steps: seq<Step>, end: State)
    requires c.pages >= 1
    ensures After(c, steps) == Some(end) && Inv(c, end)
    ensures end.sender == (if c.senderTrusts then AwaitDecision else AskUser) && end.receiver.Answering?
    ensures end.toSender == [Hello] && end.readBySender == 1
  {
    hide After;
    var greeted, s0 := Greet(c);
    var written, s1 := WritePages(c, greeted, s0);
    RunKeepsInv(c, written);
    assert s1.toReceiver[2] == Line(c, s1.senderAnswer, 2);
    Extend(c, written, s1, ReceiverActs(true));
    steps, end := ReadPages(c, written + [ReceiverActs(true)], ReceiverStep(c, s1, true));
    RunKeepsInv(c, steps);
  }

  /** Whenever the two sides disagree about trust, a handshake in which nobody crashes and everybody says yes can end
      up stuck or misreading a message. */
  lemma DisagreementGoesWrong(c: Setting) returns (steps: seq<Step>, end: State)
    requires c.pages >= 1 && !Agree(c)
    ensures After(c, steps) == Some(end) && Bad(end)
  {
    hide After;
    var introduced, s0 := Introduce(c);
    Extend(c, introduced, s0, ReceiverActs(true));
    var s1 := ReceiverStep(c, s0, true);
    steps, end := introduced + [ReceiverActs(true)], s1;
    if !c.senderTrusts {
      Extend(c, steps, s1, ReceiverActs(true));
      var s2 := ReceiverStep(c, s1, true);
      Extend(c, steps + [ReceiverActs(true)], s2, SenderActs(true));
      var s3 := SenderStep(c, s2, true);
      Extend(c, steps + [ReceiverActs(true)] + [SenderActs(true)], s3, SenderActs(true));
      steps, end := steps + [ReceiverActs(true)] + [SenderActs(true)] + [SenderActs(true)], SenderStep(c, s3, true);
    }
  }

  /** Agreeing trust is exactly what keeps the handshake from getting stuck or misreading a message. */
  lemma GoodExactlyWhenAgreed(c: Setting)
    requires c.pages >= 1
    ensures Agree(c) <==> forall steps | After(c, steps).Some? :: !Bad(After(c, steps).value)
  {
    hide After, Stuck, Misread;
    if Agree(c) {
      forall steps | After(c, steps).Some?
        ensures !Bad(After(c, steps).value)
      {
        NeverStuck(c, steps, After(c, steps).value);
      }
    } else {
      var steps, end := DisagreementGoesWrong(c);
    }
  }
}
