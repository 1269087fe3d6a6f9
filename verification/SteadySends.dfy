/** Which schedules keep messages whole: those in which the descriptor stays put while any thread
    is between the first and the last byte of a message. */
module SteadySends {
  import opened Text
  import opened SocketClient
  import opened SocketClientProofs

  /** Between the first and the last byte of its message. */
  predicate MidMessage(pc: Pc) {
    pc.HoldsSend() && 0 < pc.sent < |pc.m.text|
  }

  /** `m_sockfd` does not change while some thread is in mid-message. */
  ghost predicate Steady(actions: seq<Action>)
    decreases |actions|
  {
    actions == [] ||
    var before := actions[..|actions| - 1];
    Steady(before) && (MidMessage(SendPc(Run(before))) ==> Run(actions).sockfd == Run(before).sockfd)
  }

  predicate OnCurrent(s: State, p: Pc) {
    s.moved == {} && (MidMessage(p) ==> s.sockfd == Some(p.on))
  }

  lemma SendStaysOnCurrent(s: State, p: Pc, pc: Pc, out: Outcome)
    requires OnCurrent(s, p) && InOperation(pc) == Sending && SendCase(p, pc, SendStep(s, pc, out).1)
    ensures var (data, next) := SendStep(s, pc, out);
      OnCurrent(data, Occupant(p, pc.HoldsSend(), next, next.HoldsSend()))
  {
  }

  lemma ReadAndStopMoveNothing(s: State, pc: Pc, out: Outcome)
    requires InOperation(pc) == Reading || InOperation(pc) == Stopping
    ensures MoveStep(s, pc, out).0.moved == s.moved
  {
  }

  lemma OthersMoveNothing(s: State, pc: Pc, out: Outcome)
    requires InOperation(pc) != Sending
    ensures MoveStep(s, pc, out).0.moved == s.moved
  {
    match InOperation(pc)
    case Connecting => ConnectTouchesNoStream(s, pc, out);
    case Closing => CloseTouchesNoStream(s, pc);
    case _ => ReadAndStopMoveNothing(s, pc, out);
  }

  lemma MoveStaysOnCurrent(s: State, t: Thread, out: Outcome, s': State)
    requires Inv(s) && OnCurrent(s, SendPc(s)) && s' == Step(s, Move(t, out))
    requires MidMessage(SendPc(s)) ==> s'.sockfd == s.sockfd
    ensures OnCurrent(s', SendPc(s'))
  {
    var pc := s.At(t);
    var (data, next) := MoveStep(s, pc, out);
    MoveIsFair(s, pc, out);
    SendOccupantAfter(s, t, data, next);
    if InOperation(pc) == Sending {
      SendStaysOnCurrent(s, SendPc(s), pc, out);
    } else {
      OthersMoveNothing(s, pc, out);
      OtherMovesKeepStreams(s, SendPc(s), pc, out);
    }
  }

  lemma BeginStaysOnCurrent(s: State, t: Thread, call: Call, s': State)
    requires Inv(s) && OnCurrent(s, SendPc(s)) && s' == Step(s, Begin(t, call))
    ensures OnCurrent(s', SendPc(s'))
  {
    if s.At(t) == Idle {
      var (data, next) := BeginStep(s, call);
      BeginIsFair(s, call);
      BeginTouchesNothing(s, call);
      SendOccupantAfter(s, t, data, next);
    }
  }

  lemma {:induction false} SteadyStaysOnCurrent(actions: seq<Action>)
    requires Steady(actions)
    ensures OnCurrent(Run(actions), SendPc(Run(actions)))
    decreases |actions|
  {
    if actions != [] {
      var before, last := actions[..|actions| - 1], actions[|actions| - 1];
      SteadyStaysOnCurrent(before);
      InitInv();
      RunKeepsInv(Init(), before);
      match last
      case Begin(t, call) => BeginStaysOnCurrent(Run(before), t, call, Run(actions));
      case Move(t, out) => MoveStaysOnCurrent(Run(before), t, out, Run(actions));
    }
  }

  /** In a steady schedule no message moves, so every stream is whole messages, of which only the
      last may be cut short. */
  lemma SteadySchedulesKeepMessagesWhole(actions: seq<Action>)
    requires Steady(actions)
    ensures Run(actions).moved == {}
    ensures forall fd: Fd :: fd < |Run(actions).wire| ==> Clean(Run(actions).wire[fd])
  {
    SteadyStaysOnCurrent(actions);
    StreamsAreWholeMessages(actions);
  }
}
