/** What a call leaves behind when its thread is idle again, whatever the other threads did. */
module SocketCalls {
  import opened Text
  import opened SocketClient
  import opened SocketClientProofs
  import opened MessageBytes

  // ----- closing

  /** Thread `t` has closed `fd` or is about to, unless another thread does it first. */
  ghost predicate WillClose(s: State, t: Thread, fd: Fd) {
    fd in s.closes || (fd < |s.wire| && (s.At(t).CloseLock? || s.At(t).CloseHold?))
  }

  /** No move forgets a descriptor or a close. */
  ghost predicate Remembers(s: State, data: State) {
    |s.wire| <= |data.wire| && data.pcs == s.pcs && forall fd <- s.closes :: fd in data.closes
  }

  lemma SendRemembers(s: State, pc: Pc, out: Outcome)
    requires InOperation(pc) == Sending
    ensures SendStep(s, pc, out).0.closes == s.closes && |s.wire| == |SendStep(s, pc, out).0.wire|
  {
  }

  lemma ReadAndStopRemember(s: State, pc: Pc, out: Outcome)
    requires InOperation(pc) == Reading || InOperation(pc) == Stopping
    ensures MoveStep(s, pc, out).0.closes == s.closes && MoveStep(s, pc, out).0.wire == s.wire
  {
  }

  lemma MoveRemembers(s: State, pc: Pc, out: Outcome)
    ensures Remembers(s, MoveStep(s, pc, out).0)
  {
    MoveIsFair(s, pc, out);
    match InOperation(pc)
    case Connecting => ConnectTouchesNoStream(s, pc, out);
    case Closing => CloseTouchesNoStream(s, pc);
    case Sending => SendRemembers(s, pc, out);
    case _ => ReadAndStopRemember(s, pc, out);
  }

  lemma CloserMoves(s: State, pc: Pc, fd: Fd)
    requires Descriptors(s, FdPc(s)) && fd < |s.wire| && (pc.CloseLock? || pc.CloseHold?)
    ensures var (data, next) := CloseStep(s, pc);
      fd in data.closes || next.CloseLock? || next.CloseHold?
  {
    if fd !in s.closes {
      assert s.Open(fd);
    }
  }

  lemma StepKeepsClosing(s: State, a: Action, t: Thread, fd: Fd)
    requires Inv(s) && WillClose(s, t, fd)
    ensures WillClose(Step(s, a), t, fd)
  {
    match a
    case Begin(u, call) =>
      if s.At(u) == Idle {
        var (data, next) := BeginStep(s, call);
        BeginTouchesNothing(s, call);
        OnlyMoverMoves(s, u, data, next, t);
      }
    case Move(u, out) =>
      var (data, next) := MoveStep(s, s.At(u), out);
      MoveRemembers(s, s.At(u), out);
      OnlyMoverMoves(s, u, data, next, t);
      if u == t && fd !in s.closes {
        CloserMoves(s, s.At(t), fd);
      }
  }

  lemma {:induction false} RunKeepsClosing(s: State, more: seq<Action>, t: Thread, fd: Fd)
    requires Inv(s) && WillClose(s, t, fd)
    ensures WillClose(RunFrom(s, more), t, fd)
    decreases |more|
  {
    if more != [] {
      RunKeepsClosing(s, more[..|more| - 1], t, fd);
      RunKeepsInv(s, more[..|more| - 1]);
      StepKeepsClosing(RunFrom(s, more[..|more| - 1]), more[|more| - 1], t, fd);
    }
  }

  /** A `Send` or `Read` whose system call fails for good leaves no broken connection: when its
      thread is idle again, the descriptor that was current at the failure has been closed, so that
      the next `Connect` makes a new one. */
  lemma FailedCallCloses(actions: seq<Action>, t: Thread, fd: Fd, more: seq<Action>)
    requires var pc := Run(actions).At(t); pc.SendPoll? || pc.SendWrite? || pc.ReadPoll? || pc.ReadBytes?
    requires Run(actions).sockfd == Some(fd)
    requires RunFrom(Step(Run(actions), Move(t, Fails)), more).At(t) == Idle
    ensures fd in RunFrom(Step(Run(actions), Move(t, Fails)), more).closes
  {
    var s := Run(actions);
    InitInv();
    RunKeepsInv(Init(), actions);
    StepKeepsInv(s, Move(t, Fails));
    FailureCloses(s, s.At(t));
    var (data, next) := MoveStep(s, s.At(t), Fails);
    OnlyMoverMoves(s, t, data, next, t);
    RunKeepsClosing(Step(s, Move(t, Fails)), more, t, fd);
  }

  lemma FailureCloses(s: State, pc: Pc)
    requires pc.SendPoll? || pc.SendWrite? || pc.ReadPoll? || pc.ReadBytes?
    ensures var (data, next) := MoveStep(s, pc, Fails);
      data.pcs == s.pcs && data.wire == s.wire && next == CloseLock(Return)
  {
  }

  /** So does every `Close`. */
  lemma CloseCloses(actions: seq<Action>, t: Thread, fd: Fd, more: seq<Action>)
    requires Run(actions).At(t) == Idle && Run(actions).sockfd == Some(fd)
    requires RunFrom(Step(Run(actions), Begin(t, CallClose)), more).At(t) == Idle
    ensures fd in RunFrom(Step(Run(actions), Begin(t, CallClose)), more).closes
  {
    var s := Run(actions);
    InitInv();
    RunKeepsInv(Init(), actions);
    StepKeepsInv(s, Begin(t, CallClose));
    OnlyMoverMoves(s, t, s, CloseLock(Return), t);
    RunKeepsClosing(Step(s, Begin(t, CallClose)), more, t, fd);
  }

  // ----- stopping

  predicate InStop(pc: Pc) {
    InOperation(pc) == Stopping || (InOperation(pc) == Closing && pc.k == StopReturns)
  }

  lemma StopMoves(s: State, pc: Pc, out: Outcome)
    requires InStop(pc)
    ensures var (data, next) := MoveStep(s, pc, out); data.stopReturned || InStop(next)
  {
  }

  lemma StepKeepsStopping(s: State, a: Action, t: Thread)
    requires s.stopReturned || InStop(s.At(t))
    ensures Step(s, a).stopReturned || InStop(Step(s, a).At(t))
  {
    if s.stopReturned {
      StepKeepsStopReturned(s, a);
    } else if a.Move? {
      var (data, next) := MoveStep(s, s.At(a.t), a.out);
      MoveIsFair(s, s.At(a.t), a.out);
      OnlyMoverMoves(s, a.t, data, next, t);
      if a.t == t {
        StopMoves(s, s.At(t), a.out);
      }
    } else if s.At(a.t) == Idle {
      var (data, next) := BeginStep(s, a.call);
      BeginTouchesNothing(s, a.call);
      OnlyMoverMoves(s, a.t, data, next, t);
    }
  }

  lemma {:induction false} RunKeepsStopping(s: State, more: seq<Action>, t: Thread)
    requires s.stopReturned || InStop(s.At(t))
    ensures RunFrom(s, more).stopReturned || InStop(RunFrom(s, more).At(t))
    decreases |more|
  {
    if more != [] {
      RunKeepsStopping(s, more[..|more| - 1], t);
      StepKeepsStopping(RunFrom(s, more[..|more| - 1]), more[|more| - 1], t);
    }
  }

  lemma StoppedForGood(s: State, after: seq<Action>)
    requires Inv(s) && s.stopReturned
    ensures var s' := RunFrom(s, after); s'.stop && s'.sockfd == None && forall fd: Fd :: !s'.Open(fd)
  {
    RunKeepsInv(s, after);
  }

  /** `Stop` by any thread, at any time: when that thread is idle again, the client is stopped and
      no descriptor is current or open, then and ever after. */
  lemma StopStops(actions: seq<Action>, t: Thread, more: seq<Action>, after: seq<Action>)
    requires Run(actions).At(t) == Idle
    requires RunFrom(Step(Run(actions), Begin(t, CallStop)), more).At(t) == Idle
    ensures var s := RunFrom(RunFrom(Step(Run(actions), Begin(t, CallStop)), more), after);
      s.stop && s.sockfd == None && forall fd: Fd :: !s.Open(fd)
  {
    var s := Run(actions);
    var s1 := Step(s, Begin(t, CallStop));
    InitInv();
    RunKeepsInv(Init(), actions);
    StepKeepsInv(s, Begin(t, CallStop));
    OnlyMoverMoves(s, t, s, StopCheck, t);
    RunKeepsStopping(s1, more, t);
    RunKeepsInv(s1, more);
    StoppedForGood(RunFrom(s1, more), after);
  }

  // ----- sending

  /** The call that sends `m` has ended in one of three ways, or thread `t` is still at it. */
  ghost predicate Sent(s: State, t: Thread, m: Message) {
    m in s.returned || m in s.threw || s.stop || Carrying(s.At(t)) == Some(m)
  }

  ghost predicate KeepsOutcomes(s: State, data: State) {
    data.pcs == s.pcs && s.threw <= data.threw && s.returned.Keys <= data.returned.Keys && (s.stop ==> data.stop)
  }

  /** What a move adds to the outcomes: its own message at most, which it then lets go of. */
  ghost predicate OwnOutcome(s: State, pc: Pc, data: State, next: Pc) {
    && data.nextId == s.nextId && (Carrying(next) == None || Carrying(next) == Carrying(pc))
    && (forall m :: m in data.threw && m !in s.threw ==> Some(m) == Carrying(pc) && data.returned == s.returned)
    && (forall m :: m in data.returned && m !in s.returned ==> Some(m) == Carrying(pc) && data.threw == s.threw)
    && (data.threw != s.threw || data.returned != s.returned ==> Carrying(next) == None)
    && (Carrying(pc).Some? && Carrying(next) == None && !s.stop ==>
      Carrying(pc).value in data.returned || Carrying(pc).value in data.threw)
  }

  lemma WriteOutcomes(s: State, pc: Pc, out: Outcome)
    requires pc.SendWrite?
    ensures var (data, next) := WriteStep(s, pc, out); KeepsOutcomes(s, data) && OwnOutcome(s, pc, data, next)
  {
  }

  lemma SendOutcomes(s: State, pc: Pc, out: Outcome)
    requires InOperation(pc) == Sending
    ensures var (data, next) := SendStep(s, pc, out); KeepsOutcomes(s, data) && OwnOutcome(s, pc, data, next)
  {
    if pc.SendWrite? {
      WriteOutcomes(s, pc, out);
    }
  }

  lemma ConnectDecidesNothing(s: State, pc: Pc, out: Outcome)
    requires InOperation(pc) == Connecting
    ensures var data := ConnectStep(s, pc, out).0;
      data.pcs == s.pcs && data.nextId == s.nextId && data.threw == s.threw && data.returned == s.returned &&
      data.stop == s.stop
  {
  }

  lemma ConnectOutcomes(s: State, pc: Pc, out: Outcome)
    requires InOperation(pc) == Connecting
    ensures var (data, next) := ConnectStep(s, pc, out); KeepsOutcomes(s, data) && OwnOutcome(s, pc, data, next)
  {
    ConnectDecidesNothing(s, pc, out);
    ConnectCarries(s, pc, out);
  }

  lemma CloseOutcomes(s: State, pc: Pc)
    requires InOperation(pc) == Closing
    ensures var (data, next) := CloseStep(s, pc); KeepsOutcomes(s, data) && OwnOutcome(s, pc, data, next)
  {
  }

  lemma StopOutcomes(s: State, pc: Pc)
    requires InOperation(pc) == Stopping
    ensures var (data, next) := StopStep(s, pc); KeepsOutcomes(s, data) && OwnOutcome(s, pc, data, next)
  {
  }

  lemma ReadOutcomes(s: State, pc: Pc, out: Outcome)
    requires InOperation(pc) == Reading
    ensures var (data, next) := ReadStep(s, pc, out); KeepsOutcomes(s, data) && OwnOutcome(s, pc, data, next)
  {
  }

  lemma MoveOutcomes(s: State, pc: Pc, out: Outcome)
    ensures var (data, next) := MoveStep(s, pc, out); KeepsOutcomes(s, data) && OwnOutcome(s, pc, data, next)
  {
    match InOperation(pc)
    case Connecting => ConnectOutcomes(s, pc, out);
    case Closing => CloseOutcomes(s, pc);
    case Stopping => StopOutcomes(s, pc);
    case Sending => SendOutcomes(s, pc, out);
    case Reading => ReadOutcomes(s, pc, out);
  }

  lemma StepKeepsSent(s: State, a: Action, t: Thread, m: Message)
    requires Sent(s, t, m)
    ensures Sent(Step(s, a), t, m)
  {
    match a
    case Begin(u, call) =>
      if s.At(u) == Idle {
        var (data, next) := BeginStep(s, call);
        BeginTouchesNothing(s, call);
        OnlyMoverMoves(s, u, data, next, t);
      }
    case Move(u, out) =>
      var (data, next) := MoveStep(s, s.At(u), out);
      MoveOutcomes(s, s.At(u), out);
      OnlyMoverMoves(s, u, data, next, t);
  }

  lemma {:induction false} RunKeepsSent(s: State, more: seq<Action>, t: Thread, m: Message)
    requires Sent(s, t, m)
    ensures Sent(RunFrom(s, more), t, m)
    decreases |more|
  {
    if more != [] {
      RunKeepsSent(s, more[..|more| - 1], t, m);
      StepKeepsSent(RunFrom(s, more[..|more| - 1]), more[|more| - 1], t, m);
    }
  }

  /** No message both returns and throws, and a thread carries only undecided ones. */
  ghost predicate Exclusive(s: State) {
    forall m <- s.threw :: m.id < s.nextId && m !in s.returned && forall t: Thread :: Carrying(s.At(t)) != Some(m)
  }

  lemma MoveKeepsExclusive(s: State, t: Thread, out: Outcome)
    requires BytesInv(s) && Exclusive(s)
    ensures Exclusive(Step(s, Move(t, out)))
  {
    var (data, next) := MoveStep(s, s.At(t), out);
    var s' := data.Go(t, next);
    MoveOutcomes(s, s.At(t), out);
    forall m | m in s'.threw
      ensures m.id < s'.nextId && m !in s'.returned && forall u: Thread :: Carrying(s'.At(u)) != Some(m)
    {
      assert ThreadOk(s, t);
      forall u: Thread ensures Carrying(s'.At(u)) != Some(m) {
        assert NotBoth(s, t, u);
        OnlyMoverMoves(s, t, data, next, u);
      }
    }
  }

  lemma BeginKeepsExclusive(s: State, t: Thread, call: Call)
    requires Exclusive(s)
    ensures Exclusive(Step(s, Begin(t, call)))
  {
    if s.At(t) == Idle {
      var (data, next) := BeginStep(s, call);
      BeginTouchesNothing(s, call);
      BeginCarries(s, call);
      forall m, u: Thread | m in s.threw ensures Carrying(data.Go(t, next).At(u)) != Some(m) {
        OnlyMoverMoves(s, t, data, next, u);
      }
    }
  }

  ghost predicate AllKept(s: State) {
    Inv(s) && BytesInv(s) && Exclusive(s)
  }

  lemma StepKeepsAll(s: State, a: Action)
    requires AllKept(s)
    ensures AllKept(Step(s, a))
  {
    StepKeepsInv(s, a);
    match a
    case Begin(t, call) =>
      BeginKeepsBytes(s, t, call);
      BeginKeepsExclusive(s, t, call);
    case Move(t, out) =>
      MoveKeepsBytes(s, t, out);
      MoveKeepsExclusive(s, t, out);
  }

  lemma {:induction false} RunKeepsAll(s: State, more: seq<Action>)
    requires AllKept(s)
    ensures AllKept(RunFrom(s, more))
    decreases |more|
  {
    if more != [] {
      RunKeepsAll(s, more[..|more| - 1]);
      StepKeepsAll(RunFrom(s, more[..|more| - 1]), more[|more| - 1]);
    }
  }

  lemma InitKept()
    ensures AllKept(Init())
  {
    InitInv();
    RunKeepsBytes([]);
  }

  lemma SendBegins(s: State, t: Thread, text: string)
    requires s.At(t) == Idle && text != ""
    ensures Sent(Step(s, Begin(t, CallSend(text))), t, Message(s.nextId, text))
  {
    var (data, next) := BeginStep(s, CallSend(text));
    OnlyMoverMoves(s, t, data, next, t);
  }

  /** Every `Send` of a client that nobody stops has exactly one outcome by the time its thread is
      idle again: it has returned, and all its bytes are out, or it has thrown. */
  lemma SendHasOneOutcome(actions: seq<Action>, t: Thread, text: string, more: seq<Action>)
    requires Run(actions).At(t) == Idle && text != ""
    requires var s := RunFrom(Step(Run(actions), Begin(t, CallSend(text))), more); s.At(t) == Idle && !s.stop
    ensures var s := RunFrom(Step(Run(actions), Begin(t, CallSend(text))), more);
      var m := Message(Run(actions).nextId, text);
      (m in s.returned && m !in s.threw && OnWire(s.wire, m) == text) || (m in s.threw && m !in s.returned)
  {
    var s := Run(actions);
    var s1 := Step(s, Begin(t, CallSend(text)));
    InitKept();
    RunKeepsAll(Init(), actions);
    StepKeepsAll(s, Begin(t, CallSend(text)));
    RunKeepsAll(s1, more);
    SendBegins(s, t, text);
    RunKeepsSent(s1, more, t, Message(s.nextId, text));
    Decided(RunFrom(s1, more), t, Message(s.nextId, text));
  }

  lemma Decided(s: State, t: Thread, m: Message)
    requires AllKept(s) && Sent(s, t, m) && s.At(t) == Idle && !s.stop
    ensures (m in s.returned && m !in s.threw && OnWire(s.wire, m) == m.text) || (m in s.threw && m !in s.returned)
  {
  }

  // ----- connecting

  /** A connect in progress on a descriptor has one. */
  predicate Dials(s: State) {
    FdPc(s).ConnectDial? ==> s.sockfd.Some?
  }

  /** Only the holder of the fd lock changes the descriptor, and it enters `ConnectDial` with one. */
  lemma MoveKeepsDials(s: State, pc: Pc, out: Outcome)
    requires Inv(s) && Dials(s) && FdCase(FdPc(s), pc, MoveStep(s, pc, out).1)
    ensures var (data, next) := MoveStep(s, pc, out);
      Occupant(FdPc(s), pc.HoldsFd(), next, next.HoldsFd()).ConnectDial? ==> data.sockfd.Some?
  {
    match InOperation(pc)
    case Connecting => ConnectKeepsDials(s, FdPc(s), pc, out);
    case Closing => CloseKeepsDials(s, FdPc(s), pc);
    case Sending => SendKeepsFd(s, pc, out);
    case _ => ReadAndStopKeepFd(s, pc, out);
  }

  lemma ConnectKeepsDials(s: State, o: Pc, pc: Pc, out: Outcome)
    requires o.ConnectDial? ==> s.sockfd.Some?
    requires FdCase(o, pc, ConnectStep(s, pc, out).1) && InOperation(pc) == Connecting
    ensures var (data, next) := ConnectStep(s, pc, out);
      Occupant(o, pc.HoldsFd(), next, next.HoldsFd()).ConnectDial? ==> data.sockfd.Some?
  {
  }

  lemma CloseKeepsDials(s: State, o: Pc, pc: Pc)
    requires (o.ConnectDial? ==> s.sockfd.Some?) && FdCase(o, pc, CloseStep(s, pc).1) && InOperation(pc) == Closing
    ensures var (data, next) := CloseStep(s, pc);
      Occupant(o, pc.HoldsFd(), next, next.HoldsFd()).ConnectDial? ==> data.sockfd.Some?
  {
  }

  lemma SendKeepsFd(s: State, pc: Pc, out: Outcome)
    requires InOperation(pc) == Sending
    ensures SendStep(s, pc, out).0.sockfd == s.sockfd && !SendStep(s, pc, out).1.ConnectDial?
  {
  }

  lemma ReadAndStopKeepFd(s: State, pc: Pc, out: Outcome)
    requires InOperation(pc) == Reading || InOperation(pc) == Stopping
    ensures MoveStep(s, pc, out).0.sockfd == s.sockfd && !MoveStep(s, pc, out).1.ConnectDial?
  {
  }

  lemma {:induction false} RunKeepsDials(actions: seq<Action>)
    ensures Inv(Run(actions)) && Dials(Run(actions))
    decreases |actions|
  {
    InitInv();
    RunKeepsInv(Init(), actions);
    if actions != [] {
      var s, last := Run(actions[..|actions| - 1]), actions[|actions| - 1];
      RunKeepsDials(actions[..|actions| - 1]);
      match last
      case Begin(t, call) => BeginKeepsDials(s, t, call);
      case Move(t, out) =>
        var (data, next) := MoveStep(s, s.At(t), out);
        MoveIsFair(s, s.At(t), out);
        FdOccupantAfter(s, t, data, next);
        MoveKeepsDials(s, s.At(t), out);
    }
  }

  lemma BeginKeepsDials(s: State, t: Thread, call: Call)
    requires Inv(s) && Dials(s)
    ensures Dials(Step(s, Begin(t, call)))
  {
    if s.At(t) == Idle {
      var (data, next) := BeginStep(s, call);
      BeginIsFair(s, call);
      BeginTouchesNothing(s, call);
      FdOccupantAfter(s, t, data, next);
    }
  }

  /** `Connect` gives up for no other reason: it ends with a valid descriptor, unless the client is
      stopped or its retries have timed out. */
  lemma ConnectEndsConnected(actions: seq<Action>, t: Thread, out: Outcome)
    requires InConnect(Run(actions).At(t)) && !InConnect(Step(Run(actions), Move(t, out)).At(t))
    ensures var s := Run(actions);
      Step(s, Move(t, out)).sockfd.Some? || s.stop || (s.At(t).ConnectCatch? && out == Fails)
  {
    var s := Run(actions);
    RunKeepsDials(actions);
    assert LocksOf(s, t);
    var (data, next) := MoveStep(s, s.At(t), out);
    MoveIsFair(s, s.At(t), out);
    OnlyMoverMoves(s, t, data, next, t);
    ConnectEnds(s, s.At(t), out);
  }

  lemma ConnectEnds(s: State, pc: Pc, out: Outcome)
    requires InConnect(pc) && (pc.ConnectDial? ==> s.sockfd.Some?)
    ensures var (data, next) := MoveStep(s, pc, out);
      InConnect(next) || data.sockfd.Some? || s.stop || (pc.ConnectCatch? && out == Fails)
  {
  }
}
