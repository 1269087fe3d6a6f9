/** What the end of the sender thread means.  `WaitUntilAllSend` (src/outmdsd/BufferedLogger.cc)
    returns true exactly when the sender has left `Run`, in whatever way: these are the conditions
    under which everything has then been sent. */
module SenderExit {
  import opened Text
  import opened Queues
  import opened BufferedLogger
  import P = CacheProtocol

  // ----- what every run keeps besides `Inv`

  ghost predicate Erased(s: State, t: Tag) {
    t in s.core.acked || t in s.core.aged
  }

  /** A failure leaves an item behind, and for a reason. */
  ghost predicate Explained(s: State) {
    s.sender == Done(Failed) ==>
      s.unattempted != {} && forall t <- s.unattempted :: Erased(s, t) || t in s.refused
  }

  /** The successes are some of the attempts, and the item being sent is not yet among them. */
  ghost predicate Deliveries(s: State) {
    && s.numSuccess == |s.delivered| && multiset(s.delivered) <= multiset(s.attempts)
    && (s.sender.Sending? ==> multiset(s.delivered + [s.sender.t]) <= multiset(s.attempts))
  }

  /** `Get` throws for a cached item exactly when it has been erased. */
  lemma MissingIsErased(c: Config, s: State, t: Tag)
    requires Inv(c, s) && t in s.core.added
    ensures t !in s.core.cache <==> Erased(s, t)
  {
    CoreFates(c, s, t);
  }

  lemma FailureExplained(c: Config, s: State, out: Outcome)
    requires Inv(c, s) && Explained(s)
    ensures Explained(SenderStep(c, s, out))
  {
    if s.sender.Getting? || s.sender.GettingAgain? {
      MissingIsErased(c, s, s.sender.t);
    }
    if !s.sender.Done? {
      assert s.unattempted == {};
    }
  }

  lemma AttemptGrows(s: State, t: Tag)
    requires Deliveries(s)
    ensures Deliveries(AttemptStep(s, t))
  {
    OneMoreAttempt(s.delivered, s.attempts, t);
  }

  lemma DeliveryGrows(s: State, out: Outcome)
    requires Deliveries(s) && s.sender.Sending?
    ensures Deliveries(SendReturns(s, s.sender.t, out))
  {
  }

  predicate SameDeliveries(s: State, s': State) {
    s'.numSuccess == s.numSuccess && s'.delivered == s.delivered && s'.attempts == s.attempts && !s'.sender.Sending?
  }

  lemma LoopLeavesDeliveries(c: Config, s: State, out: Outcome)
    requires s.sender.LoopTop? || s.sender.Popping? || s.sender.Popped? || s.sender.LoopEnd? || s.sender.Done?
    ensures SameDeliveries(s, SenderStep(c, s, out))
  {
  }

  lemma CachingLeavesDeliveries(c: Config, s: State, out: Outcome)
    requires s.sender.Touching? || s.sender.Adding? || s.sender.Getting? || s.sender.Interruptible? ||
             s.sender.GettingAgain? || (s.sender.Counting? && out == DataThrows)
    ensures SameDeliveries(s, SenderStep(c, s, out))
  {
  }

  lemma DeliveriesGrow(c: Config, s: State, out: Outcome)
    requires Deliveries(s)
    ensures Deliveries(SenderStep(c, s, out))
  {
    if s.sender.Sending? {
      DeliveryGrows(s, out);
    } else if s.sender.Counting? && out != DataThrows {
      AttemptGrows(s, s.sender.t);
    } else if s.sender.LoopTop? || s.sender.Popping? || s.sender.Popped? || s.sender.LoopEnd? || s.sender.Done? {
      LoopLeavesDeliveries(c, s, out);
    } else {
      CachingLeavesDeliveries(c, s, out);
    }
  }

  lemma OneMoreAttempt(d: seq<Tag>, a: seq<Tag>, t: Tag)
    requires multiset(d) <= multiset(a)
    ensures multiset(d) <= multiset(a + [t]) && multiset(d + [t]) <= multiset(a + [t])
  {
  }

  lemma StepKeepsExit(c: Config, s: State, a: Action)
    requires Inv(c, s) && Explained(s) && Deliveries(s)
    ensures Explained(Step(c, s, a)) && Deliveries(Step(c, s, a))
  {
    match a
    case Sender(out) =>
      FailureExplained(c, s, out);
      DeliveriesGrow(c, s, out);
    case Shared(b) => SharedKeepsInv(c, s, b);
    case _ =>
  }

  lemma {:induction false} RunKeepsExit(c: Config, actions: seq<Action>)
    ensures Inv(c, Run(c, actions)) && Explained(Run(c, actions)) && Deliveries(Run(c, actions))
    decreases |actions|
  {
    InitInv(c);
    RunKeepsInv(c, Init(c), actions);
    if actions != [] {
      var before := actions[..|actions| - 1];
      RunKeepsExit(c, before);
      StepKeepsExit(c, Run(c, before), actions[|actions| - 1]);
    }
  }

  // ----- why the sender fails

  /** At either `Get` the next step of the sender ends it with an exception if and only if the item
      has been acknowledged or has expired since `Add`. */
  lemma GetThrowsIffErased(c: Config, actions: seq<Action>, t: Tag, out: Outcome)
    requires Run(c, actions).sender == Getting(t) || Run(c, actions).sender == GettingAgain(t)
    ensures Step(c, Run(c, actions), Sender(out)).sender == Done(Failed) <==> Erased(Run(c, actions), t)
  {
    InitInv(c);
    RunKeepsInv(c, Init(c), actions);
    MissingIsErased(c, Run(c, actions), t);
  }

  /** A sender that has failed left an item unattempted that had been acknowledged, had expired, or
      whose `GetData` threw; and it stays that way. */
  lemma FailureHasReason(c: Config, actions: seq<Action>)
    requires Run(c, actions).sender == Done(Failed)
    ensures var s := Run(c, actions);
      exists t :: t in s.unattempted && (Erased(s, t) || t in s.refused)
  {
    RunKeepsExit(c, actions);
  }

  // ----- what a finished sender has sent

  /** Where a pushed item is once the sender has left. */
  lemma FinishedItem(c: Config, s: State, t: Tag)
    requires Inv(c, s) && s.sender.Done?
    ensures multiset(s.q.Dropped())[t] + multiset(s.q.items)[t] + P.One(t in s.unattempted) +
      multiset(s.attempts)[t] == multiset(s.q.pushes)[t] <= 1
  {
    assert AccountedFor(c, s, t);
    PoppedWasGiven(c, s, t);
  }

  ghost predicate AllAttempted(s: State)
    requires |s.q.fate| <= |s.q.pushes|
  {
    forall t <- s.q.pushes :: t in s.q.Dropped() || t in s.attempts
  }

  ghost predicate AllSent(s: State)
    requires |s.q.fate| <= |s.q.pushes|
  {
    forall t <- s.q.pushes :: t in s.q.Dropped() || t in s.delivered
  }

  lemma AttemptedState(c: Config, s: State)
    requires Inv(c, s) && s.sender.Done?
    ensures AllAttempted(s) <==> s.q.items == [] && s.unattempted == {}
  {
    forall t: Tag
      ensures t in s.q.items || t in s.unattempted ==> t in s.q.pushes && t !in s.q.Dropped() && t !in s.attempts
      ensures t in s.q.pushes ==> t in s.q.items || t in s.unattempted || t in s.q.Dropped() || t in s.attempts
    {
      FinishedItem(c, s, t);
      CountIn(s.q.items, t);
      CountIn(s.q.pushes, t);
      CountIn(s.q.Dropped(), t);
      CountIn(s.attempts, t);
    }
    if s.q.items != [] {
      assert s.q.items[0] in s.q.items;
    }
  }

  lemma CountIn(s: seq<Tag>, t: Tag)
    ensures t in s <==> multiset(s)[t] > 0
  {
  }

  /** When the sender has left `Run`, every item ever given to `AddData` was dropped by the bound or
      attempted, if and only if the queue is empty and nothing was left unattempted. */
  lemma AllAttemptedIff(c: Config, actions: seq<Action>)
    requires Run(c, actions).sender.Done?
    ensures var s := Run(c, actions);
      s.q.Valid(c.maxSize) && (AllAttempted(s) <==> s.q.items == [] && s.unattempted == {})
  {
    InitInv(c);
    RunKeepsInv(c, Init(c), actions);
    AttemptedState(c, Run(c, actions));
  }

  lemma EqualSizes(d: seq<Tag>, a: seq<Tag>)
    requires multiset(d) <= multiset(a)
    ensures |d| == |a| <==> multiset(a) <= multiset(d)
  {
    var more := multiset(a) - multiset(d);
    assert multiset(a) == multiset(d) + more;
    assert |multiset(a)| == |multiset(d)| + |more|;
  }

  lemma SentState(c: Config, s: State)
    requires Inv(c, s) && Deliveries(s) && s.sender.Done?
    ensures AllSent(s) <==> AllAttempted(s) && s.numSuccess == s.numSend
  {
    EqualSizes(s.delivered, s.attempts);
    forall t: Tag
      ensures t in s.attempts ==> t in s.q.pushes && t !in s.q.Dropped()
      ensures multiset(s.attempts)[t] <= 1 && (t in s.delivered ==> t in s.attempts)
      ensures t in s.attempts && t in s.delivered ==> multiset(s.attempts)[t] <= multiset(s.delivered)[t]
    {
      FinishedItem(c, s, t);
      CountIn(s.q.pushes, t);
      CountIn(s.q.Dropped(), t);
      CountIn(s.attempts, t);
      CountIn(s.delivered, t);
    }
  }

  /** And every such item was dropped by the bound or really sent, if and only if moreover the two
      counters a caller can read are equal.  So the true that `WaitUntilAllSend` returns means that
      all items are sent under these conditions and no others. */
  lemma AllSentIff(c: Config, actions: seq<Action>)
    requires Run(c, actions).sender.Done?
    ensures var s := Run(c, actions);
      && s.q.Valid(c.maxSize)
      && (AllSent(s) <==> s.q.items == [] && s.unattempted == {} && s.numSuccess == s.numSend)
  {
    RunKeepsExit(c, actions);
    AttemptedState(c, Run(c, actions));
    SentState(c, Run(c, actions));
  }

  // ----- what the counters count

  /** The items whose `Send` succeeded, told by the actions. */
  function SuccessfulSends(c: Config, actions: seq<Action>): seq<Tag> {
    if actions == [] then []
    else
      var i := |actions| - 1;
      var s := Run(c, actions[..i]);
      SuccessfulSends(c, actions[..i]) +
        if actions[i] == Sender(Sends) && s.sender.Sending? then [s.sender.t] else []
  }

  lemma StepDelivers(c: Config, s: State, a: Action)
    ensures Step(c, s, a).delivered ==
      s.delivered + if a == Sender(Sends) && s.sender.Sending? then [s.sender.t] else []
  {
    if a.Sender? && !s.sender.Sending? {
      OtherSendersDeliverNothing(c, s, a.out);
    }
  }

  lemma OtherSendersDeliverNothing(c: Config, s: State, out: Outcome)
    requires !s.sender.Sending?
    ensures SenderStep(c, s, out).delivered == s.delivered
  {
  }

  /** `m_numSuccess` counts exactly the items the socket took, and these are what `AllSent` speaks
      of. */
  lemma {:induction false} DeliveredIsWhatTheSocketTook(c: Config, actions: seq<Action>)
    ensures Run(c, actions).delivered == SuccessfulSends(c, actions)
    ensures Run(c, actions).numSuccess == |SuccessfulSends(c, actions)|
    decreases |actions|
  {
    RunKeepsExit(c, actions);
    if actions != [] {
      var before := actions[..|actions| - 1];
      DeliveredIsWhatTheSocketTook(c, before);
      StepDelivers(c, Run(c, before), actions[|actions| - 1]);
    }
  }

  /** How many resends succeeded, told by the actions. */
  function SuccessfulResends(c: Config, actions: seq<Action>): nat {
    if actions == [] then 0
    else
      var i := |actions| - 1;
      var resender := Run(c, actions[..i]).core.resender;
      SuccessfulResends(c, actions[..i]) +
        match actions[i]
        case Shared(ResenderSends(t, true)) => if resender.Send? && t in resender.rest then 1 else 0
        case _ => 0
  }

  lemma StepResends(c: Config, s: State, a: Action)
    ensures Step(c, s, a).core.totalResend == s.core.totalResend +
      match a
      case Shared(ResenderSends(t, true)) => if s.core.resender.Send? && t in s.core.resender.rest then 1 else 0
      case _ => 0
  {
    if a.Sender? && !s.sender.Touching? && !s.sender.Adding? {
      OtherStepsLeaveTheCore(c, s, a.out);
    }
  }

  /** `m_totalSend` of the resender counts exactly its successful sends. */
  lemma {:induction false} ResendsAreCounted(c: Config, actions: seq<Action>)
    ensures Run(c, actions).core.totalResend == SuccessfulResends(c, actions)
    decreases |actions|
  {
    if actions != [] {
      ResendsAreCounted(c, actions[..|actions| - 1]);
      StepResends(c, Run(c, actions[..|actions| - 1]), actions[|actions| - 1]);
    }
  }

  // ----- stopping

  /** How many attempts a sender at `pc` may still make once it has been told to stop: one if it is
      past the last interrupt point before `Send`. */
  function Pending(pc: SenderPc): nat {
    if pc.GettingAgain? || pc.Counting? then 1 else 0
  }

  lemma NothingNewIsPending(c: Config, s: State, out: Outcome)
    requires s.stopSender
    ensures Pending(SenderStep(c, s, out).sender) <= if s.sender.GettingAgain? then 1 else 0
  {
  }

  lemma OnlyCountingAttempts(c: Config, s: State, out: Outcome)
    requires !s.sender.Counting?
    ensures SenderStep(c, s, out).attempts == s.attempts
  {
  }

  lemma StoppedSenderStep(c: Config, s: State, out: Outcome)
    requires s.stopSender
    ensures var s' := SenderStep(c, s, out);
      |s'.attempts| + Pending(s'.sender) <= |s.attempts| + Pending(s.sender)
  {
    NothingNewIsPending(c, s, out);
    if !s.sender.Counting? {
      OnlyCountingAttempts(c, s, out);
    }
  }

  /** `Stop` ends the sender: from then on it attempts at most the one item it was about to send,
      however many are queued. */
  lemma {:induction false} StopEndsTheSender(c: Config, s: State, more: seq<Action>)
    requires s.stopSender
    ensures var s' := RunFrom(c, s, more);
      s'.stopSender && |s'.attempts| + Pending(s'.sender) <= |s.attempts| + Pending(s.sender)
    decreases |more|
  {
    if more != [] {
      var before, a := RunFrom(c, s, more[..|more| - 1]), more[|more| - 1];
      StopEndsTheSender(c, s, more[..|more| - 1]);
      if a.Sender? {
        StoppedSenderStep(c, before, a.out);
        StopStaysSet(c, before, a.out);
      }
    }
  }

  lemma StopStaysSet(c: Config, s: State, out: Outcome)
    requires s.stopSender
    ensures SenderStep(c, s, out).stopSender
  {
  }

  // ----- attempts reach the socket

  ghost predicate AttemptsTransmitted(s: State) {
    forall t <- s.attempts :: t in s.core.transmitted
  }

  lemma OtherStepsAttemptNothing(c: Config, s: State, out: Outcome)
    requires !s.sender.Counting?
    ensures SenderStep(c, s, out).core.transmitted == s.core.transmitted
  {
    if s.sender.LoopTop? || s.sender.Popping? || s.sender.Popped? || s.sender.LoopEnd? || s.sender.Done? {
      LoopLeavesTheCore(c, s, out);
    }
  }

  lemma StepTransmits(c: Config, s: State, a: Action)
    requires AttemptsTransmitted(s)
    ensures AttemptsTransmitted(Step(c, s, a))
  {
    match a
    case Shared(b) =>
      P.TransmittedStays(c.core, s.core, b);
    case Sender(out) =>
      if !s.sender.Counting? {
        OtherStepsAttemptNothing(c, s, out);
        OnlyCountingAttempts(c, s, out);
      }
    case _ =>
  }

  /** Whatever counts as attempted has been handed to the socket. */
  lemma {:induction false} AttemptedIsTransmitted(c: Config, actions: seq<Action>)
    ensures AttemptsTransmitted(Run(c, actions))
    decreases |actions|
  {
    if actions != [] {
      AttemptedIsTransmitted(c, actions[..|actions| - 1]);
      StepTransmits(c, Run(c, actions[..|actions| - 1]), actions[|actions| - 1]);
    }
  }
}
