/** The buffered logger: producers push to the bounded queue, the sender thread of
    src/outmdsd/DataSender.cc pops, caches and sends, and the shared steps of `CacheProtocol`
    (clock, constructor, reader, resender) interleave freely. */
module BufferedLogger {
  import opened Text
  import opened Clock
  import opened Queues
  import P = CacheProtocol

  type Tag = P.Tag

  datatype Config = Config(core: P.Config, maxSize: nat)

  /** How `DataSender::Run` ends: the queue was aborted, the loop test saw the stop flag, an
      `InterruptPoint` threw, or another exception did: a `Get` because the tag was gone, or
      `GetData` because the schema could not be composed. */
  datatype Exit = Drained | Stopped | Interrupted | Failed

  datatype SenderPc =
    | LoopTop
    | Popping
    | Popped(t: Tag)        // before the first InterruptPoint
    | Touching(t: Tag)
    | Adding(t: Tag)
    | Getting(t: Tag)
    | Interruptible(t: Tag) // before the second InterruptPoint
    | GettingAgain(t: Tag)
    | Counting(t: Tag)
    | Sending(t: Tag)
    | LoopEnd
    | Done(how: Exit)

  datatype State = State(
    core: P.Core,
    q: Log<Tag>,
    queueStop: bool,
    sender: SenderPc,
    stopSender: bool,
    numSend: nat,
    numSuccess: nat,
    // history
    attempts: seq<Tag>,      // items for which the sender called Send
    delivered: seq<Tag>,     // those of them whose Send succeeded
    abandoned: set<Tag>,     // popped, then given up at the first InterruptPoint
    refused: set<Tag>,       // their GetData threw
    unattempted: set<Tag>,   // popped, and Run left without attempting a send
    late: bool               // some AddData came after stop_once_empty
  ) {
    /** The item that has left the queue and is not yet in the cache. */
    function Hand(c: Config): Option<Tag> {
      match sender
      case Popped(t) => Some(t)
      case Touching(t) => Some(t)
      case Adding(t) => Some(t)
      case Counting(t) => if c.core.Cached() then None else Some(t)
      case _ => None
    }

    /** The item popped and not yet attempted. */
    function InFlight(): Option<Tag> {
      match sender
      case Popped(t) => Some(t)
      case Touching(t) => Some(t)
      case Adding(t) => Some(t)
      case Getting(t) => Some(t)
      case Interruptible(t) => Some(t)
      case GettingAgain(t) => Some(t)
      case Counting(t) => Some(t)
      case _ => None
    }
  }

  /** What happens to an item in `Send(item->GetData())`: it goes out, the socket fails, or
      `GetData` throws before `Send` is entered. */
  datatype Outcome = Sends | SocketFails | DataThrows

  datatype Action =
    | Shared(a: P.Action)
    | AddData(t: Tag)
    | StopOnceEmpty
    | StopSender
    | Sender(out: Outcome)  // one step of the sender thread

  function Init(c: Config): State {
    State(P.Init(c.core), Empty(), false, LoopTop, false, 0, 0, [], [], {}, {}, {}, false)
  }

  function PopStep(s: State): State {
    if s.q.items != [] then s.(q := Pop(s.q), sender := Popped(s.q.items[0]))
    else if s.queueStop then s.(sender := Done(Drained))
    else s
  }

  function GiveUp(s: State, t: Tag, how: Exit): State {
    s.(sender := Done(how), unattempted := s.unattempted + {t})
  }

  function Abandon(s: State, t: Tag): State {
    GiveUp(s, t, Interrupted).(abandoned := s.abandoned + {t})
  }

  function FirstInterruptPoint(c: Config, s: State, t: Tag): State {
    if s.stopSender then Abandon(s, t)
    else s.(sender := if c.core.Cached() then Touching(t) else Counting(t))
  }

  function Refuse(s: State, t: Tag): State {
    GiveUp(s, t, Failed).(refused := s.refused + {t})
  }

  function AttemptStep(s: State, t: Tag): State {
    s.(core := P.Transmit(s.core, t), sender := Sending(t),
       numSend := s.numSend + 1, attempts := s.attempts + [t])
  }

  function SendReturns(s: State, t: Tag, out: Outcome): State {
    if out == Sends then s.(sender := LoopEnd, numSuccess := s.numSuccess + 1, delivered := s.delivered + [t])
    else s.(sender := LoopEnd)
  }

  function SenderStep(c: Config, s: State, out: Outcome): State {
    match s.sender
    case LoopTop => s.(sender := if s.stopSender then Done(Stopped) else Popping)
    case Popping => PopStep(s)
    case Popped(t) => FirstInterruptPoint(c, s, t)
    case Touching(t) => s.(core := P.Touch(s.core, t), sender := Adding(t))
    case Adding(t) => s.(core := P.Add(s.core, t), sender := Getting(t))
    case Getting(t) => if t in s.core.cache then s.(sender := Interruptible(t)) else GiveUp(s, t, Failed)
    case Interruptible(t) => if s.stopSender then GiveUp(s, t, Interrupted) else s.(sender := GettingAgain(t))
    case GettingAgain(t) => if t in s.core.cache then s.(sender := Counting(t)) else GiveUp(s, t, Failed)
    case Counting(t) => if out == DataThrows then Refuse(s, t) else AttemptStep(s, t)
    case Sending(t) => SendReturns(s, t, out)
    case LoopEnd => s.(sender := if s.stopSender then Done(Interrupted) else LoopTop)
    case Done(_) => s
  }

  /** `AddData` takes an item once; a disabled action changes nothing. */
  function Step(c: Config, s: State, a: Action): State {
    match a
    case Shared(b) => s.(core := P.Step(c.core, s.core, b))
    case AddData(t) =>
      if t in s.core.touched && t !in s.q.pushes then
        s.(q := Push(s.q, c.maxSize, t), late := s.late || s.queueStop)
      else s
    case StopOnceEmpty => s.(queueStop := true)
    case StopSender => s.(stopSender := true)
    case Sender(out) => SenderStep(c, s, out)
  }

  function RunFrom(c: Config, s: State, actions: seq<Action>): State {
    if actions == [] then s
    else Step(c, RunFrom(c, s, actions[..|actions| - 1]), actions[|actions| - 1])
  }

  function Run(c: Config, actions: seq<Action>): State {
    RunFrom(c, Init(c), actions)
  }

  // ----- the invariant

  /** Past the cache as far as the sender is concerned. */
  function Handled(c: Config, s: State, t: Tag): nat {
    if c.core.Cached() then P.One(t in s.core.added) else multiset(s.attempts)[t] + P.One(t in s.refused)
  }

  ghost predicate GivenOnce(s: State, t: Tag) {
    multiset(s.q.pushes)[t] <= 1 && (t in s.q.pushes ==> t in s.core.touched)
  }

  /** A popped item is in the sender's hand, abandoned, or handled; and it is in flight, given up,
      or attempted. */
  ghost predicate AccountedFor(c: Config, s: State, t: Tag)
    requires |s.q.fate| <= |s.q.pushes|
  {
    && multiset(s.q.Popped())[t] == P.One(s.Hand(c) == Some(t)) + P.One(t in s.abandoned) + Handled(c, s, t)
    && multiset(s.q.Popped())[t] == P.One(s.InFlight() == Some(t)) + P.One(t in s.unattempted) + multiset(s.attempts)[t]
  }

  ghost predicate Accounted(c: Config, s: State)
    requires |s.q.fate| <= |s.q.pushes|
  {
    forall t: Tag :: AccountedFor(c, s, t) && GivenOnce(s, t)
  }

  ghost predicate PcInv(c: Config, s: State) {
    match s.sender
    case Touching(_) => c.core.Cached()
    case Adding(_) => c.core.Cached()
    case Getting(t) => c.core.Cached() && t in s.core.added
    case Interruptible(t) => c.core.Cached() && t in s.core.added
    case GettingAgain(t) => c.core.Cached() && t in s.core.added
    case Counting(t) => c.core.Cached() ==> t in s.core.added
    case Sending(t) => s.numSuccess < s.numSend
    case Done(Drained) => s.queueStop && (!s.late ==> s.q.items == [])
    case _ => true
  }

  ghost predicate Counters(s: State) {
    && s.numSend == |s.attempts| && s.numSuccess <= s.numSend
    && (s.unattempted != {} ==> s.sender == Done(Interrupted) || s.sender == Done(Failed))
  }

  ghost predicate Inv(c: Config, s: State) {
    && P.Inv(c.core, s.core) && s.core.rolledBack == {}
    && s.q.Valid(c.maxSize)
    && Accounted(c, s) && PcInv(c, s) && Counters(s)
  }

  lemma InitInv(c: Config)
    ensures Inv(c, Init(c))
  {
    P.InitInv(c.core);
  }

  /** A popped item was pushed, hence pushed once, and had been constructed. */
  lemma PoppedWasGiven(c: Config, s: State, t: Tag)
    requires Inv(c, s)
    ensures multiset(s.q.Popped())[t] + multiset(s.q.Dropped())[t] + multiset(s.q.items)[t] ==
      multiset(s.q.pushes)[t] <= 1
    ensures t in s.q.Popped() ==> t in s.core.touched
  {
    PushesPartition(s.q, c.maxSize);
    assert GivenOnce(s, t);
    assert t in s.q.Popped() ==> t in multiset(s.q.pushes);
  }

  /** The item in the sender's hand is in no later place yet. */
  lemma HandIsElsewhere(c: Config, s: State, t: Tag)
    requires Inv(c, s) && s.Hand(c) == Some(t)
    ensures t in s.core.touched && t !in s.abandoned && t !in s.unattempted && Handled(c, s, t) == 0
  {
    assert AccountedFor(c, s, t);
    PoppedWasGiven(c, s, t);
    assert t in multiset(s.q.Popped());
  }

  lemma SnocCount(s: seq<Tag>, x: Tag, t: Tag)
    ensures multiset(s + [x])[t] == multiset(s)[t] + P.One(t == x)
  {
  }

  lemma SharedKeepsInv(c: Config, s: State, a: P.Action)
    requires Inv(c, s)
    ensures Inv(c, Step(c, s, Shared(a))) && P.Later(s.core, Step(c, s, Shared(a)).core)
  {
    var s' := Step(c, s, Shared(a));
    P.StepKeepsInv(c.core, s.core, a);
    P.SharedStepsOnlyErase(c.core, s.core, a);
    forall t: Tag ensures AccountedFor(c, s', t) && GivenOnce(s', t) {
      assert AccountedFor(c, s, t) && GivenOnce(s, t);
    }
  }

  lemma PushAppends(q: Log<Tag>, maxSize: nat, t: Tag)
    ensures Push(q, maxSize, t).pushes == q.pushes + [t]
  {
  }

  lemma PushAccounts(c: Config, s: State, t: Tag, u: Tag)
    requires Inv(c, s) && t in s.core.touched && t !in s.q.pushes
    requires Push(s.q, c.maxSize, t).Valid(c.maxSize) && Push(s.q, c.maxSize, t).Popped() == s.q.Popped()
    ensures AccountedFor(c, Step(c, s, AddData(t)), u) && GivenOnce(Step(c, s, AddData(t)), u)
  {
    assert AccountedFor(c, s, u) && GivenOnce(s, u);
    PushAppends(s.q, c.maxSize, t);
    SnocCount(s.q.pushes, t, u);
  }

  lemma AddDataKeepsInv(c: Config, s: State, t: Tag)
    requires Inv(c, s) && t in s.core.touched && t !in s.q.pushes
    ensures Inv(c, Step(c, s, AddData(t)))
  {
    PushKeepsValid(s.q, c.maxSize, t);
    PushPopsNothing(s.q, c.maxSize, t);
    forall u: Tag ensures AccountedFor(c, Step(c, s, AddData(t)), u) && GivenOnce(Step(c, s, AddData(t)), u) {
      PushAccounts(c, s, t, u);
    }
  }

  lemma PopAccounts(c: Config, s: State, t: Tag)
    requires Inv(c, s) && s.sender.Popping? && s.q.items != []
    requires Pop(s.q).Popped() == s.q.Popped() + [s.q.items[0]]
    ensures AccountedFor(c, PopStep(s), t) && GivenOnce(PopStep(s), t)
  {
    assert AccountedFor(c, s, t) && GivenOnce(s, t);
    SnocCount(s.q.Popped(), s.q.items[0], t);
  }

  lemma PopItemKeepsInv(c: Config, s: State)
    requires Inv(c, s) && s.sender.Popping? && s.q.items != []
    ensures Inv(c, PopStep(s))
  {
    PopTakesOldest(s.q, c.maxSize);
    forall t: Tag ensures AccountedFor(c, PopStep(s), t) && GivenOnce(PopStep(s), t) {
      PopAccounts(c, s, t);
    }
  }

  /** A step that only moves the program counter within the same place. */
  lemma MoveKeepsInv(c: Config, s: State, s': State)
    requires Inv(c, s) && s' == s.(sender := s'.sender, numSuccess := s'.numSuccess, delivered := s'.delivered)
    requires s'.Hand(c) == s.Hand(c) && s'.InFlight() == s.InFlight()
    requires PcInv(c, s') && Counters(s')
    ensures Inv(c, s')
  {
    forall t: Tag ensures AccountedFor(c, s', t) && GivenOnce(s', t) {
      assert AccountedFor(c, s, t) && GivenOnce(s, t);
    }
  }

  lemma PopKeepsInv(c: Config, s: State)
    requires Inv(c, s) && s.sender.Popping?
    ensures Inv(c, PopStep(s))
  {
    if s.q.items != [] {
      PopItemKeepsInv(c, s);
    } else if s.queueStop {
      MoveKeepsInv(c, s, PopStep(s));
    }
  }

  lemma TouchAccounts(c: Config, s: State, t: Tag, u: Tag)
    requires Inv(c, s) && s.sender == Touching(t) && t in s.core.touched
    ensures var s' := s.(core := P.Touch(s.core, t), sender := Adding(t));
      AccountedFor(c, s', u) && GivenOnce(s', u)
  {
    assert AccountedFor(c, s, u) && GivenOnce(s, u);
  }

  lemma TouchKeepsInv(c: Config, s: State, t: Tag)
    requires Inv(c, s) && s.sender == Touching(t)
    ensures var s' := s.(core := P.Touch(s.core, t), sender := Adding(t));
      Inv(c, s') && P.Later(s.core, s'.core)
  {
    var s' := s.(core := P.Touch(s.core, t), sender := Adding(t));
    HandIsElsewhere(c, s, t);
    P.TouchKeepsInv(c.core, s.core, t);
    forall u: Tag ensures AccountedFor(c, s', u) && GivenOnce(s', u) {
      TouchAccounts(c, s, t, u);
    }
  }

  lemma AddAccounts(c: Config, s: State, t: Tag, u: Tag)
    requires Inv(c, s) && s.sender == Adding(t) && t !in s.core.added
    ensures var s' := s.(core := P.Add(s.core, t), sender := Getting(t));
      AccountedFor(c, s', u) && GivenOnce(s', u)
  {
    assert AccountedFor(c, s, u) && GivenOnce(s, u);
  }

  lemma AddKeepsInv(c: Config, s: State, t: Tag)
    requires Inv(c, s) && s.sender == Adding(t)
    ensures var s' := s.(core := P.Add(s.core, t), sender := Getting(t));
      Inv(c, s') && P.Later(s.core, s'.core)
  {
    var s' := s.(core := P.Add(s.core, t), sender := Getting(t));
    HandIsElsewhere(c, s, t);
    P.AddKeepsInv(c.core, s.core, t);
    forall u: Tag ensures AccountedFor(c, s', u) && GivenOnce(s', u) {
      AddAccounts(c, s, t, u);
    }
  }

  lemma AttemptAccounts(c: Config, s: State, t: Tag, u: Tag)
    requires Inv(c, s) && s.sender == Counting(t)
    ensures AccountedFor(c, AttemptStep(s, t), u) && GivenOnce(AttemptStep(s, t), u)
  {
    assert AccountedFor(c, s, u) && GivenOnce(s, u);
    SnocCount(s.attempts, t, u);
  }

  lemma AttemptKeepsInv(c: Config, s: State, t: Tag)
    requires Inv(c, s) && s.sender == Counting(t)
    ensures Inv(c, AttemptStep(s, t)) && P.Later(s.core, AttemptStep(s, t).core)
  {
    P.TransmitKeepsInv(c.core, s.core, t);
    forall u: Tag ensures AccountedFor(c, AttemptStep(s, t), u) && GivenOnce(AttemptStep(s, t), u) {
      AttemptAccounts(c, s, t, u);
    }
  }

  /** The item in flight has not been attempted or given up. */
  lemma InFlightIsPending(c: Config, s: State, t: Tag)
    requires Inv(c, s) && s.InFlight() == Some(t)
    ensures t !in s.unattempted && multiset(s.attempts)[t] == 0
  {
    assert AccountedFor(c, s, t);
    PoppedWasGiven(c, s, t);
  }

  lemma GiveUpAccounts(c: Config, s: State, t: Tag, how: Exit, u: Tag)
    requires Inv(c, s) && s.InFlight() == Some(t) && s.Hand(c) == None && t !in s.unattempted
    ensures AccountedFor(c, GiveUp(s, t, how), u) && GivenOnce(GiveUp(s, t, how), u)
  {
    assert AccountedFor(c, s, u) && GivenOnce(s, u);
  }

  lemma GiveUpKeepsInv(c: Config, s: State, t: Tag, how: Exit)
    requires Inv(c, s) && s.InFlight() == Some(t) && s.Hand(c) == None
    requires how == Interrupted || how == Failed
    ensures Inv(c, GiveUp(s, t, how))
  {
    InFlightIsPending(c, s, t);
    forall u: Tag ensures AccountedFor(c, GiveUp(s, t, how), u) && GivenOnce(GiveUp(s, t, how), u) {
      GiveUpAccounts(c, s, t, how, u);
    }
  }

  lemma AbandonAccounts(c: Config, s: State, t: Tag, u: Tag)
    requires Inv(c, s) && s.sender == Popped(t) && t !in s.abandoned && t !in s.unattempted
    ensures AccountedFor(c, Abandon(s, t), u) && GivenOnce(Abandon(s, t), u)
  {
    assert AccountedFor(c, s, u) && GivenOnce(s, u);
  }

  lemma AbandonKeepsInv(c: Config, s: State, t: Tag)
    requires Inv(c, s) && s.sender == Popped(t)
    ensures Inv(c, Abandon(s, t))
  {
    HandIsElsewhere(c, s, t);
    forall u: Tag ensures AccountedFor(c, Abandon(s, t), u) && GivenOnce(Abandon(s, t), u) {
      AbandonAccounts(c, s, t, u);
    }
  }

  lemma RefuseAccounts(c: Config, s: State, t: Tag, u: Tag)
    requires Inv(c, s) && s.sender == Counting(t) && t !in s.unattempted
    requires !c.core.Cached() ==> t !in s.refused
    ensures AccountedFor(c, Refuse(s, t), u) && GivenOnce(Refuse(s, t), u)
  {
    assert AccountedFor(c, s, u) && GivenOnce(s, u);
  }

  lemma RefuseKeepsInv(c: Config, s: State, t: Tag)
    requires Inv(c, s) && s.sender == Counting(t)
    ensures Inv(c, Refuse(s, t))
  {
    InFlightIsPending(c, s, t);
    if !c.core.Cached() {
      HandIsElsewhere(c, s, t);
    }
    forall u: Tag ensures AccountedFor(c, Refuse(s, t), u) && GivenOnce(Refuse(s, t), u) {
      RefuseAccounts(c, s, t, u);
    }
  }

  lemma GetKeepsInv(c: Config, s: State, out: Outcome)
    requires Inv(c, s) && (s.sender.Getting? || s.sender.GettingAgain?)
    ensures Inv(c, SenderStep(c, s, out))
  {
    var t := s.sender.t;
    if t in s.core.cache {
      MoveKeepsInv(c, s, SenderStep(c, s, out));
    } else {
      GiveUpKeepsInv(c, s, t, Failed);
    }
  }

  lemma InterruptKeepsInv(c: Config, s: State, out: Outcome)
    requires Inv(c, s) && (s.sender.Popped? || s.sender.Interruptible?)
    ensures Inv(c, SenderStep(c, s, out))
  {
    var t := s.sender.t;
    if !s.stopSender {
      MoveKeepsInv(c, s, SenderStep(c, s, out));
    } else if s.sender.Popped? {
      AbandonKeepsInv(c, s, t);
    } else {
      GiveUpKeepsInv(c, s, t, Interrupted);
    }
  }

  lemma LoopKeepsInv(c: Config, s: State, out: Outcome)
    requires Inv(c, s) && (s.sender.LoopTop? || s.sender.Sending? || s.sender.LoopEnd? || s.sender.Done?)
    ensures Inv(c, SenderStep(c, s, out))
  {
    MoveKeepsInv(c, s, SenderStep(c, s, out));
  }

  lemma SenderKeepsInv(c: Config, s: State, out: Outcome)
    requires Inv(c, s)
    ensures Inv(c, SenderStep(c, s, out))
  {
    if s.sender.Popping? {
      PopKeepsInv(c, s);
    } else if s.sender.Touching? {
      TouchKeepsInv(c, s, s.sender.t);
    } else if s.sender.Adding? {
      AddKeepsInv(c, s, s.sender.t);
    } else if s.sender.Counting? && out == DataThrows {
      RefuseKeepsInv(c, s, s.sender.t);
    } else if s.sender.Counting? {
      AttemptKeepsInv(c, s, s.sender.t);
    } else if s.sender.Getting? || s.sender.GettingAgain? {
      GetKeepsInv(c, s, out);
    } else if s.sender.Popped? || s.sender.Interruptible? {
      InterruptKeepsInv(c, s, out);
    } else {
      LoopKeepsInv(c, s, out);
    }
  }

  lemma LoopLeavesTheCore(c: Config, s: State, out: Outcome)
    requires s.sender.LoopTop? || s.sender.Popping? || s.sender.Popped? || s.sender.LoopEnd? || s.sender.Done?
    ensures SenderStep(c, s, out).core == s.core
  {
  }

  lemma OtherStepsLeaveTheCore(c: Config, s: State, out: Outcome)
    requires !s.sender.Touching? && !s.sender.Adding?
    ensures var s' := SenderStep(c, s, out);
      s'.core == s.core.(transmitted := s'.core.transmitted)
  {
    if s.sender.LoopTop? || s.sender.Popping? || s.sender.Popped? || s.sender.LoopEnd? || s.sender.Done? {
      LoopLeavesTheCore(c, s, out);
    }
  }

  lemma SenderLater(c: Config, s: State, out: Outcome)
    requires Inv(c, s)
    ensures P.Later(s.core, SenderStep(c, s, out).core)
  {
    if s.sender.Touching? {
      TouchKeepsInv(c, s, s.sender.t);
    } else if s.sender.Adding? {
      AddKeepsInv(c, s, s.sender.t);
    } else {
      OtherStepsLeaveTheCore(c, s, out);
      P.SameExceptResender(s.core, SenderStep(c, s, out).core);
    }
  }

  lemma FlagKeepsInv(c: Config, s: State, s': State)
    requires Inv(c, s) && s' == s.(queueStop := s'.queueStop, stopSender := s'.stopSender)
    requires s.queueStop ==> s'.queueStop
    ensures Inv(c, s')
  {
    forall t: Tag ensures AccountedFor(c, s', t) && GivenOnce(s', t) {
      assert AccountedFor(c, s, t) && GivenOnce(s, t);
    }
  }

  lemma StepKeepsInv(c: Config, s: State, a: Action)
    requires Inv(c, s)
    ensures Inv(c, Step(c, s, a)) && P.Later(s.core, Step(c, s, a).core)
  {
    match a
    case Shared(b) => SharedKeepsInv(c, s, b);
    case AddData(t) => if t in s.core.touched && t !in s.q.pushes { AddDataKeepsInv(c, s, t); }
    case Sender(out) =>
      SenderKeepsInv(c, s, out);
      SenderLater(c, s, out);
    case _ => FlagKeepsInv(c, s, Step(c, s, a));
  }

  lemma {:induction false} RunKeepsInv(c: Config, s: State, actions: seq<Action>)
    requires Inv(c, s)
    ensures Inv(c, RunFrom(c, s, actions)) && P.Later(s.core, RunFrom(c, s, actions).core)
    decreases |actions|
  {
    if actions != [] {
      var before := RunFrom(c, s, actions[..|actions| - 1]);
      RunKeepsInv(c, s, actions[..|actions| - 1]);
      StepKeepsInv(c, before, actions[|actions| - 1]);
      P.LaterTransitive(s.core, before.core, RunFrom(c, s, actions).core);
    }
  }

  // ----- what the protocol promises

  /** In how many places `t` is, counting every place an item given to AddData can be. */
  function Places(c: Config, s: State, t: Tag): nat
    requires |s.q.fate| <= |s.q.pushes|
  {
    multiset(s.q.items)[t] + multiset(s.q.Dropped())[t]
    + P.One(s.Hand(c) == Some(t)) + P.One(t in s.abandoned)
    + P.One(t in s.core.cache) + P.One(t in s.core.acked) + P.One(t in s.core.aged)
    + if c.core.Cached() then 0 else multiset(s.attempts)[t] + P.One(t in s.refused)
  }

  /** No silent loss: in every reachable state each item given to AddData is in exactly one place
      (queued, dropped by overflow, in the sender's hand, cached, erased by an acknowledgement,
      erased by age, abandoned at the first InterruptPoint, or, uncached, already given to the
      socket or refused by a throwing `GetData`), and nothing else is anywhere. */
  lemma NoSilentLoss(c: Config, actions: seq<Action>, t: Tag)
    ensures var s := Run(c, actions);
      |s.q.fate| <= |s.q.pushes| && Places(c, s, t) == P.One(t in s.q.pushes)
  {
    var s := Run(c, actions);
    InitInv(c);
    RunKeepsInv(c, Init(c), actions);
    PoppedWasGiven(c, s, t);
    assert AccountedFor(c, s, t);
    CoreFates(c, s, t);
  }

  lemma CoreFates(c: Config, s: State, t: Tag)
    requires Inv(c, s)
    ensures P.One(t in s.core.cache) + P.One(t in s.core.acked) + P.One(t in s.core.aged) == P.One(t in s.core.added)
    ensures !c.core.Cached() ==> t !in s.core.added
  {
    assert P.Fates(s.core, t) == P.One(t in s.core.added);
  }

  /** No early drop: an item the resender erased had been untouched for more than the timeout when
      it was erased, although its age was judged on an older copy of the cache and through a
      32-bit `int`. */
  lemma NoEarlyDrop(c: Config, actions: seq<Action>)
    ensures var s := Run(c, actions);
      forall t <- s.core.aged :: t in s.core.touched &&
        P.LongerThan(c.core.timeout, s.core.touched[t], s.core.aged[t])
  {
    InitInv(c);
    RunKeepsInv(c, Init(c), actions);
  }

  /** Where the age of `t` is counted from. */
  ghost predicate TouchedAt(s: State, t: Tag, time: nat) {
    (s.sender == Adding(t) || t in s.core.added) && t in s.core.touched && s.core.touched[t] == time
  }

  lemma SharedKeepsTouch(c: Config, s: State, a: P.Action, t: Tag, time: nat)
    requires Inv(c, s) && TouchedAt(s, t, time)
    ensures TouchedAt(Step(c, s, Shared(a)), t, time)
  {
    P.StepKeepsTouch(c.core, s.core, a, t);
    P.SharedStepsOnlyErase(c.core, s.core, a);
  }

  lemma SenderKeepsTouch(c: Config, s: State, out: Outcome, t: Tag, time: nat)
    requires Inv(c, s) && TouchedAt(s, t, time)
    ensures TouchedAt(Step(c, s, Sender(out)), t, time)
  {
    if s.sender.Touching? {
      TouchedIsNotAdded(c, s, s.sender.t);
    } else if !s.sender.Adding? {
      OtherStepsLeaveTheCore(c, s, out);
    }
  }

  lemma TouchedIsNotAdded(c: Config, s: State, t: Tag)
    requires Inv(c, s) && s.sender == Touching(t)
    ensures t in s.core.touched && t !in s.core.added && t !in s.core.aged
  {
    HandIsElsewhere(c, s, t);
    CoreFates(c, s, t);
  }

  lemma StepKeepsTouch(c: Config, s: State, a: Action, t: Tag, time: nat)
    requires Inv(c, s) && TouchedAt(s, t, time)
    ensures TouchedAt(Step(c, s, a), t, time)
  {
    match a
    case Shared(b) => SharedKeepsTouch(c, s, b, t, time);
    case Sender(out) => SenderKeepsTouch(c, s, out, t, time);
    case _ =>
  }

  lemma {:induction false} RunKeepsTouch(c: Config, s: State, actions: seq<Action>, t: Tag, time: nat)
    requires Inv(c, s) && TouchedAt(s, t, time)
    ensures TouchedAt(RunFrom(c, s, actions), t, time)
    decreases |actions|
  {
    if actions != [] {
      RunKeepsTouch(c, s, actions[..|actions| - 1], t, time);
      RunKeepsInv(c, s, actions[..|actions| - 1]);
      StepKeepsTouch(c, RunFrom(c, s, actions[..|actions| - 1]), actions[|actions| - 1], t, time);
    }
  }

  /** The time an item waited in the queue does not count: whatever happens later, the resender
      erases it only when more than the timeout has passed since the sender touched it. */
  lemma QueueTimeDoesNotCount(c: Config, actions: seq<Action>, t: Tag, out: Outcome, more: seq<Action>)
    requires Run(c, actions).sender == Touching(t)
    ensures var s := RunFrom(c, Step(c, Run(c, actions), Sender(out)), more);
      t in s.core.aged ==> P.LongerThan(c.core.timeout, Run(c, actions).core.now, s.core.aged[t])
  {
    var s := Run(c, actions);
    var s1 := Step(c, s, Sender(out));
    InitInv(c);
    RunKeepsInv(c, Init(c), actions);
    StepKeepsInv(c, s, Sender(out));
    TouchedIsNotAdded(c, s, t);
    RunKeepsTouch(c, s1, more, t, s.core.now);
    RunKeepsInv(c, s1, more);
  }

  /** The other direction: after the resender's erase, no item that had been untouched for more than
      the timeout when the snapshot was taken is still cached, as long as it has been untouched for
      less than 2^32 milliseconds. */
  lemma OverdueItemsAreDropped(c: Config, actions: seq<Action>, t: Tag)
    requires var s := Run(c, actions).core; s.resender.TakeCopy? && t in s.resender.bak
    ensures var s := Run(c, actions).core;
      t in s.touched &&
      (s.resender.taken - s.touched[t] >= (c.core.timeout + 1) * NS_PER_MS ==>
        s.now - s.touched[t] >= INT_RANGE * NS_PER_MS || t !in s.cache)
  {
    InitInv(c);
    RunKeepsInv(c, Init(c), actions);
    P.OverdueIsDropped(c.core, Run(c, actions).core, t);
  }

  /** A resend round is complete: it starts from what is cached after the erase, and it ends either
      with a failure or when every item of that copy has been handed to the socket in this round. */
  lemma ResendRoundsAreComplete(c: Config, actions: seq<Action>, a: P.Action)
    ensures var s, s' := Run(c, actions).core, Step(c, Run(c, actions), Shared(a)).core;
      && (s.resender.TakeCopy? && s'.resender != s.resender ==>
        s'.resender == P.Send(s.cache, |s.transmitted|, s.cache))
      && (s.resender.Send? && s'.resender != s.resender && !s'.resender.Send? ==>
        || a.ResenderThrows? || (a.ResenderSends? && !a.ok)
        || P.SentSince(s.transmitted, s.resender.from, s.resender.copy))
  {
    InitInv(c);
    RunKeepsInv(c, Init(c), actions);
    P.RoundResendsAll(c.core, Run(c, actions).core, a);
  }

  /** Acknowledgement after caching: whatever was handed to the socket, first or again, had been
      added to the cache before; and tags are never shared. */
  lemma CachedBeforeTransmitted(c: Config, actions: seq<Action>)
    requires c.core.Cached()
    ensures var s := Run(c, actions);
      && (forall t <- s.core.transmitted :: t in s.core.added)
      && (forall t <- s.core.touched :: t == Decimal(Numeral(t)) && Numeral(t) <= s.core.counter)
  {
    InitInv(c);
    RunKeepsInv(c, Init(c), actions);
  }

  /** No resurrection: once erased, by acknowledgement or by age, a tag is never cached again,
      even while stale copies of it are still being resent. */
  lemma NoResurrection(c: Config, actions: seq<Action>, more: seq<Action>, t: Tag)
    requires var s := Run(c, actions); t in s.core.acked || t in s.core.aged
    ensures t !in RunFrom(c, Run(c, actions), more).core.cache
  {
    InitInv(c);
    RunKeepsInv(c, Init(c), actions);
    RunKeepsInv(c, Run(c, actions), more);
    CoreFates(c, RunFrom(c, Run(c, actions), more), t);
  }

  /** Drain.  If the sender left through the aborted queue, every item that was neither dropped
      nor pushed too late was attempted exactly once, and `m_numSend` counts just these; if no
      AddData came after `stop_once_empty` the queue is empty. */
  lemma Drain(c: Config, actions: seq<Action>)
    requires Run(c, actions).sender == Done(Drained)
    ensures var s := Run(c, actions);
      && s.q.Valid(c.maxSize)
      && multiset(s.q.pushes) == multiset(s.q.Dropped()) + multiset(s.q.items) + multiset(s.attempts)
      && s.numSend == |s.q.pushes| - |s.q.Dropped()| - |s.q.items|
      && s.numSuccess <= s.numSend
      && (!s.late ==> s.q.items == [])
      && forall t: Tag :: multiset(s.attempts)[t] <= 1
  {
    InitInv(c);
    RunKeepsInv(c, Init(c), actions);
    DrainedState(c, Run(c, actions));
  }

  lemma AttemptedOnce(c: Config, s: State, t: Tag)
    requires Inv(c, s)
    ensures multiset(s.attempts)[t] <= 1
    ensures s.sender == Done(Drained) ==> multiset(s.q.Popped())[t] == multiset(s.attempts)[t]
  {
    assert AccountedFor(c, s, t);
    PoppedWasGiven(c, s, t);
  }

  lemma DrainedState(c: Config, s: State)
    requires Inv(c, s) && s.sender == Done(Drained)
    ensures multiset(s.q.pushes) == multiset(s.q.Dropped()) + multiset(s.q.items) + multiset(s.attempts)
    ensures |s.attempts| == |s.q.pushes| - |s.q.Dropped()| - |s.q.items|
    ensures forall t: Tag :: multiset(s.attempts)[t] <= 1
  {
    PushesPartition(s.q, c.maxSize);
    forall t: Tag ensures multiset(s.attempts)[t] <= 1 && multiset(s.q.Popped())[t] == multiset(s.attempts)[t] {
      AttemptedOnce(c, s, t);
    }
    assert multiset(s.q.Popped()) == multiset(s.attempts);
    SizesAdd(s.q.pushes, s.q.Dropped(), s.q.items, s.attempts);
  }

  lemma SizesAdd(whole: seq<Tag>, a: seq<Tag>, b: seq<Tag>, d: seq<Tag>)
    requires multiset(whole) == multiset(a) + multiset(b) + multiset(d)
    ensures |whole| == |a| + |b| + |d|
  {
    assert |multiset(whole)| == |multiset(a)| + |multiset(b)| + |multiset(d)|;
  }

  /** Successes never outnumber attempts, and no item is attempted twice by the sender. */
  lemma CountersAgree(c: Config, actions: seq<Action>)
    ensures var s := Run(c, actions);
      s.numSend == |s.attempts| && s.numSuccess <= s.numSend && forall t: Tag :: multiset(s.attempts)[t] <= 1
  {
    var s := Run(c, actions);
    InitInv(c);
    RunKeepsInv(c, Init(c), actions);
    forall t: Tag ensures multiset(s.attempts)[t] <= 1 {
      AttemptedOnce(c, s, t);
    }
  }

  /** A sender that has left `Run` sends nothing more. */
  lemma {:induction false} DoneIsFinal(c: Config, s: State, actions: seq<Action>)
    requires s.sender.Done?
    ensures var s' := RunFrom(c, s, actions); s'.sender == s.sender && s'.attempts == s.attempts
    decreases |actions|
  {
    if actions != [] {
      DoneIsFinal(c, s, actions[..|actions| - 1]);
    }
  }

  /** The price of the second look-up.  An acknowledgement that arrives between `Add` and `Get`
      (the resender may have sent the item already) makes `Get` throw: the sender leaves `Run`
      for good, and the items still queued are never attempted. */
  lemma AckBeforeGetEndsTheSender(c: Config, actions: seq<Action>, t: Tag, line: string, out: Outcome,
                                  more: seq<Action>)
    requires Run(c, actions).sender == Getting(t) || Run(c, actions).sender == GettingAgain(t)
    requires P.R.AckedKey(line) == [t]
    ensures var s := RunFrom(c, Step(c, Step(c, Run(c, actions), Shared(P.AckLine(line))), Sender(out)), more);
      s.sender == Done(Failed) && s.attempts == Run(c, actions).attempts
  {
    InitInv(c);
    RunKeepsInv(c, Init(c), actions);
    var s := Step(c, Run(c, actions), Shared(P.AckLine(line)));
    assert t in P.R.AckedKey(line) && t !in s.core.cache;
    DoneIsFinal(c, Step(c, s, Sender(out)), more);
  }
}
