/** The socket client of src/outmdsd/SocketClient.cc shared by any number of threads: connect,
    close, stop, send and read interleave at every lock operation, system call and read of the
    atomic fields.  A descriptor is numbered by the successful `socket()` call that returned it;
    system calls may fail at will. */
module SocketClient {
  import opened Text

  type Fd = nat
  type Thread = nat

  /** The buffer of one `Send`. */
  datatype Message = Message(id: nat, text: string)

  /** A stretch of one message on a descriptor's byte stream. */
  datatype Part = Part(msg: Message, from: nat, upto: nat)

  /** What the thread does when the inner `Connect` or `Close` returns. */
  datatype Then = Return | GoOnSending(m: Message) | StopReturns

  datatype Pc =
    | Idle
    // Connect
    | ConnectCheck(k: Then) | ConnectLock(k: Then)
    | ConnectLoop(k: Then) | ConnectSetup(k: Then) | ConnectDial(k: Then) | ConnectUndo(k: Then) | ConnectCatch(k: Then)
    // Close
    | CloseLock(k: Then) | CloseHold(k: Then) | CloseReset(k: Then)
    // Stop
    | StopCheck | StopSet | StopLock | StopNotify
    // Send after Connect; `sent` is `total`, `on` the descriptor that took the first byte
    | SendCheck(m: Message) | SendCheckAgain(m: Message) | SendLock(m: Message)
    | SendLoop(m: Message, sent: nat, on: Fd)
    | SendPoll(m: Message, sent: nat, on: Fd)
    | SendWrite(m: Message, sent: nat, on: Fd)
    // Read
    | ReadCheck | ReadLock | ReadHold | ReadAsleep | ReadRecheck | ReadPoll | ReadBytes
  {
    /** Holding `m_fdMutex`. */
    predicate HoldsFd() {
      ConnectLoop? || ConnectSetup? || ConnectDial? || ConnectUndo? || ConnectCatch? ||
      CloseHold? || CloseReset? || StopNotify? || ReadHold?
    }

    /** Holding `m_sendMutex`. */
    predicate HoldsSend() {
      SendLoop? || SendPoll? || SendWrite?
    }

    /** Past the test of `m_stopClient` in the connect loop, about to leave a new descriptor. */
    predicate Creating() {
      ConnectSetup? || ConnectDial? || ConnectUndo?
    }

    /** Between the `close()` of the current descriptor and the reset of `m_sockfd`. */
    predicate Resetting() {
      CloseReset? || ConnectUndo?
    }

    /** In the part of `Stop` that follows the setting of the flag. */
    predicate Stopping() {
      StopLock? || StopNotify? || ((CloseLock? || CloseHold? || CloseReset?) && k == StopReturns)
    }
  }

  datatype State = State(
    sockfd: Option<Fd>,
    stop: bool,
    fdOwner: Option<Thread>,
    sendOwner: Option<Thread>,
    pcs: map<Thread, Pc>,
    numConnect: nat,
    nextId: nat,
    // history
    wire: seq<seq<Part>>,          // per descriptor, what it has accepted; its length is how many were created
    closes: seq<Fd>,               // every close() call
    dead: set<Fd>,                 // descriptors that reported a fatal error in mid-message
    stopReturned: bool,
    returned: map<Message, Fd>,    // normal returns of SendData while the client was not stopped
    threw: set<Message>,           // SendData or the check before it threw
    moved: set<Message>            // some of their bytes went out on another descriptor than the first ones
  ) {
    function At(t: Thread): Pc {
      if t in pcs then pcs[t] else Idle
    }

    /** Thread `t` moves to `pc`.  The mutexes are held exactly inside their critical sections, so
        moving into or out of one takes or releases it. */
    function Go(t: Thread, pc: Pc): State {
      this.(pcs := pcs[t := pc],
            fdOwner := if pc.HoldsFd() then Some(t) else if At(t).HoldsFd() then None else fdOwner,
            sendOwner := if pc.HoldsSend() then Some(t) else if At(t).HoldsSend() then None else sendOwner)
    }

    predicate Open(fd: Fd) {
      fd < |wire| && fd !in closes
    }
  }

  datatype Call = CallSend(text: string) | CallRead | CallConnect | CallClose | CallStop

  /** How a system call or a timed wait turns out. */
  datatype Outcome = Fine | Fails | Again | Accepts(n: nat)

  datatype Action = Begin(t: Thread, call: Call) | Move(t: Thread, out: Outcome)

  function Init(): State {
    State(None, false, None, None, map[], 0, 0, [], [], {}, false, map[], {}, {})
  }

  /** Where a returning `Connect` or `Close` continues, and what the return of `Stop` records. */
  function Resume(s: State, k: Then): (State, Pc) {
    match k
    case Return => (s, Idle)
    case GoOnSending(m) => (s, SendCheck(m))
    case StopReturns => (s.(stopReturned := true), Idle)
  }

  // Each of the following is one step of a thread at `pc`: the shared fields afterwards and the
  // thread's next place.  A thread waiting for a mutex stays where it is.

  function BeginStep(s: State, call: Call): (State, Pc) {
    match call
    case CallSend(text) =>
      if text == "" then (s, Idle)
      else (s.(nextId := s.nextId + 1), ConnectCheck(GoOnSending(Message(s.nextId, text))))
    case CallRead => (s, ReadCheck)
    case CallConnect => (s, ConnectCheck(Return))
    case CallClose => (s, CloseLock(Return))
    case CallStop => (s, StopCheck)
  }

  function ConnectStep(s: State, pc: Pc, out: Outcome): (State, Pc) {
    match pc
    case ConnectCheck(k) => if s.sockfd.Some? then Resume(s, k) else (s, ConnectLock(k))
    case ConnectLock(k) => (s, if s.fdOwner == None then ConnectLoop(k) else pc)
    case ConnectLoop(k) => if s.stop then Resume(s, k) else (s, ConnectSetup(k))
    case ConnectSetup(k) =>
      if s.sockfd.Some? then Resume(s, k)
      else if out == Fails then (s.(numConnect := s.numConnect + 1), ConnectCatch(k))
      else (s.(numConnect := s.numConnect + 1, sockfd := Some(|s.wire|), wire := s.wire + [[]]), ConnectDial(k))
    case ConnectDial(k) =>
      if out == Fails && s.sockfd.Some? then (s.(closes := s.closes + [s.sockfd.value]), ConnectUndo(k))
      else Resume(s, k)
    case ConnectUndo(k) => (s.(sockfd := None), ConnectCatch(k))
    case ConnectCatch(k) => if out == Fails then Resume(s, k) else (s, ConnectLoop(k))
    case _ => (s, pc)
  }

  function CloseStep(s: State, pc: Pc): (State, Pc) {
    match pc
    case CloseLock(k) => (s, if s.fdOwner == None then CloseHold(k) else pc)
    case CloseHold(k) =>
      if s.sockfd.Some? then (s.(closes := s.closes + [s.sockfd.value]), CloseReset(k)) else Resume(s, k)
    case CloseReset(k) => Resume(s.(sockfd := None), k)
    case _ => (s, pc)
  }

  function StopStep(s: State, pc: Pc): (State, Pc) {
    match pc
    case StopCheck => (s, if s.stop then CloseLock(StopReturns) else StopSet)
    case StopSet => (s.(stop := true), StopLock)
    case StopLock => (s, if s.fdOwner == None then StopNotify else pc)
    case StopNotify => (s, CloseLock(StopReturns))
    case _ => (s, pc)
  }

  /** An exception out of `SendData` after `sent` bytes: the send lock is released and `Send`
      closes.  If the message began on the current descriptor, that one reported the error. */
  function SendThrows(s: State, m: Message, sent: nat, on: Fd): (State, Pc) {
    (s.(threw := s.threw + {m}, dead := if sent > 0 && s.sockfd == Some(on) then s.dead + {on} else s.dead),
     CloseLock(Return))
  }

  /** The stream `w` after it took bytes `sent..sent + n` of `m`; `more` when they follow on from
      bytes of the same message there. */
  function Accepted(w: seq<Part>, m: Message, sent: nat, n: nat, more: bool): seq<Part> {
    if more && w != [] then w[|w| - 1 := w[|w| - 1].(upto := sent + n)] else w + [Part(m, sent, sent + n)]
  }

  /** Only an open descriptor that has reported no fatal error in mid-message accepts bytes. */
  predicate CanAccept(s: State, fd: Fd, m: Message, sent: nat, n: nat) {
    s.Open(fd) && fd !in s.dead && 0 < n <= |m.text| - sent
  }

  /** `send()` accepts `n` bytes on whatever `m_sockfd` is now. */
  function Write(s: State, fd: Fd, m: Message, sent: nat, on: Fd, n: nat): State
    requires fd < |s.wire|
  {
    s.(wire := s.wire[fd := Accepted(s.wire[fd], m, sent, n, sent > 0 && fd == on)],
       moved := if sent > 0 && fd != on then s.moved + {m} else s.moved)
  }

  function WriteStep(s: State, pc: Pc, out: Outcome): (State, Pc)
    requires pc.SendWrite?
  {
    var SendWrite(m, sent, on) := pc;
    match out
    case Fails => SendThrows(s, m, sent, on)
    case Accepts(n) =>
      if s.sockfd.Some? && CanAccept(s, s.sockfd.value, m, sent, n) then
        (Write(s, s.sockfd.value, m, sent, on, n), SendLoop(m, sent + n, if sent == 0 then s.sockfd.value else on))
      else (s, pc)
    case _ => (s, SendLoop(m, sent, on))
  }

  function SendStep(s: State, pc: Pc, out: Outcome): (State, Pc) {
    match pc
    case SendCheck(m) => if s.sockfd == None then SendThrows(s, m, 0, 0) else (s, SendCheckAgain(m))
    case SendCheckAgain(m) => if s.sockfd == None then SendThrows(s, m, 0, 0) else (s, SendLock(m))
    case SendLock(m) => (s, if s.sendOwner == None then SendLoop(m, 0, 0) else pc)
    case SendLoop(m, sent, on) =>
      if s.stop then (s, Idle)
      else if sent == |m.text| then (s.(returned := s.returned[m := on]), Idle)
      else (s, SendPoll(m, sent, on))
    case SendPoll(m, sent, on) =>
      if out == Fails || s.sockfd == None then SendThrows(s, m, sent, on) else (s, SendWrite(m, sent, on))
    case SendWrite(_, _, _) => WriteStep(s, pc, out)
    case _ => (s, pc)
  }

  function ReadStep(s: State, pc: Pc, out: Outcome): (State, Pc) {
    match pc
    case ReadCheck => (s, if s.stop then Idle else ReadLock)
    case ReadLock => (s, if s.fdOwner == None then ReadHold else pc)
    case ReadHold => (s, if s.stop || s.sockfd.Some? then ReadRecheck else if out == Fails then Idle else ReadAsleep)
    case ReadAsleep => (s, ReadLock)
    case ReadRecheck => (s, if s.stop then Idle else ReadPoll)
    case ReadPoll => (s, if out == Fails || s.sockfd == None then CloseLock(Return) else ReadBytes)
    case ReadBytes => (s, if out == Fails then CloseLock(Return) else Idle)
    case _ => (s, pc)
  }

  datatype Operation = Connecting | Closing | Stopping | Sending | Reading

  function InOperation(pc: Pc): Operation {
    if pc.CloseLock? || pc.CloseHold? || pc.CloseReset? then Closing
    else if pc.StopCheck? || pc.StopSet? || pc.StopLock? || pc.StopNotify? then Stopping
    else if pc.SendCheck? || pc.SendCheckAgain? || pc.SendLock? || pc.HoldsSend() then Sending
    else if pc.ReadCheck? || pc.ReadLock? || pc.ReadHold? || pc.ReadAsleep? || pc.ReadRecheck? ||
            pc.ReadPoll? || pc.ReadBytes? then Reading
    else Connecting
  }

  function MoveStep(s: State, pc: Pc, out: Outcome): (State, Pc) {
    match InOperation(pc)
    case Connecting => ConnectStep(s, pc, out)
    case Closing => CloseStep(s, pc)
    case Stopping => StopStep(s, pc)
    case Sending => SendStep(s, pc, out)
    case Reading => ReadStep(s, pc, out)
  }

  /** An action a thread cannot take changes nothing, so every sequence of actions is a run. */
  function Step(s: State, a: Action): State {
    match a
    case Begin(t, call) =>
      if s.At(t) != Idle then s
      else
        var (data, pc) := BeginStep(s, call);
        data.Go(t, pc)
    case Move(t, out) =>
      var (data, pc) := MoveStep(s, s.At(t), out);
      data.Go(t, pc)
  }

  function RunFrom(s: State, actions: seq<Action>): State {
    if actions == [] then s
    else Step(RunFrom(s, actions[..|actions| - 1]), actions[|actions| - 1])
  }

  function Run(actions: seq<Action>): State {
    RunFrom(Init(), actions)
  }
}
