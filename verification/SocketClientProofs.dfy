/** What every interleaving of `SocketClient` keeps: the descriptor life cycle, the finality of
    Stop, and the shape of the byte streams. */
module SocketClientProofs {
  import opened Text
  import opened SocketClient

  // ----- locks

  ghost predicate Locks(s: State) {
    forall t: Thread :: LocksOf(s, t)
  }

  ghost predicate LocksOf(s: State, t: Thread) {
    (s.At(t).HoldsFd() <==> s.fdOwner == Some(t)) && (s.At(t).HoldsSend() <==> s.sendOwner == Some(t))
  }

  /** A step changes no program counter and no lock behind the moving thread's back, and enters
      a critical section only when its lock is free. */
  ghost predicate FairMove(s: State, pc: Pc, data: State, next: Pc) {
    && data.pcs == s.pcs && data.fdOwner == s.fdOwner && data.sendOwner == s.sendOwner
    && (next.HoldsFd() ==> pc.HoldsFd() || s.fdOwner == None)
    && (next.HoldsSend() ==> pc.HoldsSend() || s.sendOwner == None)
  }

  lemma GoKeepsLocks(s: State, t: Thread, data: State, next: Pc)
    requires Locks(s) && FairMove(s, s.At(t), data, next)
    ensures Locks(data.Go(t, next))
  {
    forall u: Thread ensures LocksOf(data.Go(t, next), u) {
      assert LocksOf(s, u) && LocksOf(s, t);
    }
  }

  lemma ConnectIsFair(s: State, pc: Pc, out: Outcome)
    ensures var (data, next) := ConnectStep(s, pc, out); FairMove(s, pc, data, next)
  {
  }

  lemma CloseIsFair(s: State, pc: Pc)
    ensures var (data, next) := CloseStep(s, pc); FairMove(s, pc, data, next)
  {
  }

  lemma StopIsFair(s: State, pc: Pc)
    ensures var (data, next) := StopStep(s, pc); FairMove(s, pc, data, next)
  {
  }

  lemma SendIsFair(s: State, pc: Pc, out: Outcome)
    ensures var (data, next) := SendStep(s, pc, out); FairMove(s, pc, data, next)
  {
  }

  lemma ReadIsFair(s: State, pc: Pc, out: Outcome)
    ensures var (data, next) := ReadStep(s, pc, out); FairMove(s, pc, data, next)
  {
  }

  lemma BeginIsFair(s: State, call: Call)
    ensures var (data, next) := BeginStep(s, call); FairMove(s, Idle, data, next)
  {
  }

  lemma MoveIsFair(s: State, pc: Pc, out: Outcome)
    ensures var (data, next) := MoveStep(s, pc, out); FairMove(s, pc, data, next)
  {
    match InOperation(pc)
    case Connecting => ConnectIsFair(s, pc, out);
    case Closing => CloseIsFair(s, pc);
    case Stopping => StopIsFair(s, pc);
    case Sending => SendIsFair(s, pc, out);
    case Reading => ReadIsFair(s, pc, out);
  }

  /** The program counter of the thread inside a critical section of `m_fdMutex`, if any. */
  function FdPc(s: State): Pc {
    if s.fdOwner.Some? then s.At(s.fdOwner.value) else Idle
  }

  /** The same for `m_sendMutex`. */
  function SendPc(s: State): Pc {
    if s.sendOwner.Some? then s.At(s.sendOwner.value) else Idle
  }

  /** How a move changes the occupant `o` of a critical section. */
  function Occupant(o: Pc, wasIn: bool, next: Pc, isIn: bool): Pc {
    if isIn then next else if wasIn then Idle else o
  }

  /** The situation in which a thread at `pc` moves while `o` occupies the fd mutex. */
  ghost predicate FdCase(o: Pc, pc: Pc, next: Pc) {
    (pc.HoldsFd() ==> o == pc) && (next.HoldsFd() && !pc.HoldsFd() ==> o == Idle)
  }

  /** The situation in which a thread at `pc` moves while `p` occupies the send mutex. */
  ghost predicate SendCase(p: Pc, pc: Pc, next: Pc) {
    (pc.HoldsSend() ==> p == pc) && (next.HoldsSend() && !pc.HoldsSend() ==> p == Idle)
  }

  lemma OnlyMoverMoves(s: State, t: Thread, data: State, next: Pc, u: Thread)
    requires data.pcs == s.pcs
    ensures data.Go(t, next).At(u) == if u == t then next else s.At(u)
  {
  }

  lemma FdOccupantAfter(s: State, t: Thread, data: State, next: Pc)
    requires Locks(s) && FairMove(s, s.At(t), data, next)
    ensures FdPc(data.Go(t, next)) == Occupant(FdPc(s), s.At(t).HoldsFd(), next, next.HoldsFd())
    ensures FdCase(FdPc(s), s.At(t), next)
  {
    var g := data.Go(t, next);
    assert LocksOf(s, t);
    OnlyMoverMoves(s, t, data, next, t);
    if next.HoldsFd() {
      assert g.fdOwner == Some(t);
    } else if s.At(t).HoldsFd() {
      assert g.fdOwner == None;
    } else if s.fdOwner.Some? {
      assert g.fdOwner == s.fdOwner;
      OnlyMoverMoves(s, t, data, next, s.fdOwner.value);
    }
  }

  lemma SendOccupantAfter(s: State, t: Thread, data: State, next: Pc)
    requires Locks(s) && FairMove(s, s.At(t), data, next)
    ensures SendPc(data.Go(t, next)) == Occupant(SendPc(s), s.At(t).HoldsSend(), next, next.HoldsSend())
    ensures SendCase(SendPc(s), s.At(t), next)
  {
    var g := data.Go(t, next);
    assert LocksOf(s, t);
    OnlyMoverMoves(s, t, data, next, t);
    if next.HoldsSend() {
      assert g.sendOwner == Some(t);
    } else if s.At(t).HoldsSend() {
      assert g.sendOwner == None;
    } else if s.sendOwner.Some? {
      assert g.sendOwner == s.sendOwner;
      OnlyMoverMoves(s, t, data, next, s.sendOwner.value);
    }
  }

  // ----- descriptors

  predicate InConnect(pc: Pc) {
    pc.ConnectCheck? || pc.ConnectLock? || pc.ConnectLoop? || pc.ConnectSetup? || pc.ConnectDial? ||
    pc.ConnectUndo? || pc.ConnectCatch?
  }

  /** What a thread's place says by itself. */
  ghost predicate PlaceOk(s: State, pc: Pc) {
    && (pc.Stopping() ==> s.stop)
    && (InConnect(pc) ==> pc.k != StopReturns)
  }

  /** Every descriptor ever created is closed at most once, and an unclosed one is the current
      one; the current one is closed exactly while the occupant `o` is about to reset it. */
  ghost predicate Descriptors(s: State, o: Pc) {
    && (forall fd: Fd :: multiset(s.closes)[fd] <= 1 && (fd in s.closes ==> fd < |s.wire|))
    && (forall fd: Fd :: s.Open(fd) ==> s.sockfd == Some(fd))
    && (s.sockfd.Some? ==> s.sockfd.value < |s.wire|)
    && (o.Resetting() <==> s.sockfd.Some? && s.sockfd.value in s.closes)
  }

  lemma CloseOnce(s: State, o: Pc, fd: Fd)
    requires Descriptors(s, o) && s.sockfd == Some(fd) && fd !in s.closes
    ensures forall f: Fd :: multiset(s.closes + [fd])[f] <= 1
  {
    assert forall f: Fd :: multiset(s.closes + [fd])[f] == multiset(s.closes)[f] + if f == fd then 1 else 0;
  }

  /** The other operations leave the descriptors alone. */
  lemma SameDescriptors(s: State, o: Pc, pc: Pc, data: State, next: Pc)
    requires Descriptors(s, o) && FdCase(o, pc, next)
    requires data.sockfd == s.sockfd && data.closes == s.closes && |data.wire| == |s.wire|
    requires !pc.Resetting() && !next.Resetting()
    ensures Descriptors(data, Occupant(o, pc.HoldsFd(), next, next.HoldsFd()))
  {
    assert forall fd: Fd :: data.Open(fd) == s.Open(fd);
  }

  lemma CreateKeepsDescriptors(s: State, k: Then)
    requires Descriptors(s, ConnectSetup(k)) && s.sockfd == None
    ensures Descriptors(
      s.(numConnect := s.numConnect + 1, sockfd := Some(|s.wire|), wire := s.wire + [[]]), ConnectDial(k))
  {
  }

  lemma CloseKeepsOne(s: State, o: Pc, next: Pc)
    requires Descriptors(s, o) && !o.Resetting() && s.sockfd.Some? && next.Resetting()
    ensures Descriptors(s.(closes := s.closes + [s.sockfd.value]), next)
  {
    CloseOnce(s, o, s.sockfd.value);
  }

  lemma ResetKeepsDescriptors(s: State, o: Pc, next: Pc)
    requires Descriptors(s, o) && o.Resetting() && !next.Resetting()
    ensures Descriptors(s.(sockfd := None), next)
  {
  }

  lemma ConnectKeepsDescriptors(s: State, o: Pc, pc: Pc, out: Outcome)
    requires Descriptors(s, o) && PlaceOk(s, pc)
    requires FdCase(o, pc, ConnectStep(s, pc, out).1) && InOperation(pc) == Connecting
    ensures var (data, next) := ConnectStep(s, pc, out);
      Descriptors(data, Occupant(o, pc.HoldsFd(), next, next.HoldsFd()))
  {
    var (data, next) := ConnectStep(s, pc, out);
    if pc.ConnectSetup? && s.sockfd == None && out != Fails {
      CreateKeepsDescriptors(s, pc.k);
    } else if pc.ConnectDial? && out == Fails && s.sockfd.Some? {
      CloseKeepsOne(s, pc, next);
    } else if pc.ConnectUndo? {
      ResetKeepsDescriptors(s, pc, next);
    } else {
      SameDescriptors(s, o, pc, data, next);
    }
  }

  lemma CloseKeepsDescriptors(s: State, o: Pc, pc: Pc)
    requires Descriptors(s, o) && FdCase(o, pc, CloseStep(s, pc).1) && InOperation(pc) == Closing
    ensures var (data, next) := CloseStep(s, pc);
      Descriptors(data, Occupant(o, pc.HoldsFd(), next, next.HoldsFd()))
  {
    var (data, next) := CloseStep(s, pc);
    if pc.CloseHold? && s.sockfd.Some? {
      CloseKeepsOne(s, pc, next);
    } else if pc.CloseReset? {
      ResetKeepsDescriptors(s, pc, Idle);
      SameDescriptors(s.(sockfd := None), Idle, Idle, data, next);
    } else {
      SameDescriptors(s, o, pc, data, next);
    }
  }

  // ----- stop

  ghost predicate StopFinal(s: State, o: Pc) {
    s.stopReturned ==> s.stop && s.sockfd == None && !o.Creating()
  }

  lemma ConnectKeepsStop(s: State, o: Pc, pc: Pc, out: Outcome)
    requires StopFinal(s, o) && PlaceOk(s, pc)
    requires FdCase(o, pc, ConnectStep(s, pc, out).1) && InOperation(pc) == Connecting
    ensures var (data, next) := ConnectStep(s, pc, out);
      StopFinal(data, Occupant(o, pc.HoldsFd(), next, next.HoldsFd())) && PlaceOk(data, next) && data.stop == s.stop
  {
  }

  lemma CloseKeepsStop(s: State, o: Pc, pc: Pc)
    requires StopFinal(s, o) && PlaceOk(s, pc) && FdCase(o, pc, CloseStep(s, pc).1) && InOperation(pc) == Closing
    ensures var (data, next) := CloseStep(s, pc);
      StopFinal(data, Occupant(o, pc.HoldsFd(), next, next.HoldsFd())) && PlaceOk(data, next) && data.stop == s.stop
  {
  }

  lemma OthersKeepStop(s: State, o: Pc, pc: Pc, out: Outcome)
    requires StopFinal(s, o) && PlaceOk(s, pc) && FdCase(o, pc, MoveStep(s, pc, out).1)
    requires InOperation(pc) == Stopping || InOperation(pc) == Sending || InOperation(pc) == Reading
    ensures var (data, next) := MoveStep(s, pc, out);
      StopFinal(data, Occupant(o, pc.HoldsFd(), next, next.HoldsFd())) && PlaceOk(data, next) && (s.stop ==> data.stop)
  {
  }

  // ----- byte streams

  function Last(w: seq<Part>): Part
    requires w != []
  {
    w[|w| - 1]
  }

  /** The last message on the stream is cut short so far. */
  predicate Cut(w: seq<Part>) {
    w != [] && Last(w).upto < |Last(w).msg.text|
  }

  /** Whole messages, of which only the last may be cut short. */
  ghost predicate Clean(w: seq<Part>) {
    forall i :: 0 <= i < |w| ==>
      w[i].from == 0 && w[i].upto <= |w[i].msg.text| && (i < |w| - 1 ==> w[i].upto == |w[i].msg.text|)
  }

  ghost predicate Torn(w: seq<Part>) {
    exists i :: 0 <= i < |w| && w[i].from > 0
  }

  /** The occupant `p` of the send mutex is in the middle of a message on `fd`. */
  predicate Busy(p: Pc, fd: Fd) {
    p.HoldsSend() && p.sent > 0 && p.on == fd
  }

  /** No more bytes can follow on `fd` but those of the message being sent there. */
  ghost predicate Stuck(s: State, p: Pc, fd: Fd) {
    fd in s.closes || fd in s.dead || Busy(p, fd) || (s.stop && !p.SendPoll? && !p.SendWrite?)
  }

  ghost predicate StreamOk(s: State, p: Pc, fd: Fd)
    requires fd < |s.wire|
  {
    Clean(s.wire[fd]) && (Cut(s.wire[fd]) ==> Stuck(s, p, fd))
  }

  /** Where the message in progress stands. */
  ghost predicate Progress(s: State, p: Pc) {
    p.HoldsSend() ==>
      && p.sent <= |p.m.text|
      && (p.sent > 0 ==> p.on < |s.wire| && s.wire[p.on] != [])
      && (p.sent > 0 && (p.on !in s.closes || p.m !in s.moved) ==> Last(s.wire[p.on]) == Part(p.m, 0, p.sent))
  }

  /** A message `SendData` returned from normally is whole on the descriptor it went to. */
  ghost predicate Delivered(s: State, m: Message)
    requires m in s.returned
  {
    s.returned[m] < |s.wire| && Part(m, 0, |m.text|) in s.wire[s.returned[m]]
  }

  ghost predicate Streams(s: State, p: Pc) {
    && Progress(s, p)
    && (s.moved == {} ==> forall fd: Fd :: fd < |s.wire| ==> StreamOk(s, p, fd))
    && (forall m <- s.returned :: m.text != "" && m !in s.moved ==> Delivered(s, m))
    && (s.moved != {} ==> exists fd: Fd :: fd < |s.wire| && Torn(s.wire[fd]))
  }

  /** Steps outside the send loop keep the streams: they can only create an empty one, close
      descriptors and set the stop flag. */
  lemma StreamsSurvive(s: State, p: Pc, data: State)
    requires Streams(s, p)
    requires data.wire == s.wire || data.wire == s.wire + [[]]
    requires forall fd <- s.closes :: fd in data.closes
    requires data.dead == s.dead && (s.stop ==> data.stop)
    requires data.returned == s.returned && data.moved == s.moved
    ensures Streams(data, p)
  {
    forall fd: Fd | fd < |data.wire| && s.moved == {} ensures StreamOk(data, p, fd) {
      assert fd < |s.wire| ==> StreamOk(s, p, fd);
    }
    forall m <- s.returned | m !in s.moved && m.text != "" ensures Delivered(data, m) {
      assert Delivered(s, m);
    }
    if s.moved != {} {
      var fd: Fd :| fd < |s.wire| && Torn(s.wire[fd]);
      assert Torn(data.wire[fd]);
    }
  }

  /** Handing the send mutex over, or moving inside its section without sending. */
  lemma HandOver(s: State, p: Pc, s': State, p': Pc)
    requires Streams(s, p) && Progress(s', p')
    requires s'.wire == s.wire && s'.closes == s.closes && s'.moved == s.moved && s'.stop == s.stop
    requires s.dead <= s'.dead
    requires forall fd: Fd :: fd < |s.wire| && Cut(s.wire[fd]) && Stuck(s, p, fd) ==> Stuck(s', p', fd)
    requires forall m <- s'.returned ::
      (m in s.returned && s'.returned[m] == s.returned[m]) || (m.text != "" && m !in s.moved ==> Delivered(s', m))
    ensures Streams(s', p')
  {
    forall fd: Fd | fd < |s.wire| && s.moved == {} ensures StreamOk(s', p', fd) {
      assert StreamOk(s, p, fd);
    }
    forall m <- s'.returned | m !in s.moved && m.text != "" ensures Delivered(s', m) {
      assert m in s.returned && s'.returned[m] == s.returned[m] ==> Delivered(s, m);
    }
  }

  lemma ReturnKeepsStreams(s: State, p: Pc)
    requires Streams(s, p) && p.SendLoop? && (s.stop || p.sent == |p.m.text|)
    ensures var (data, next) := SendStep(s, p, Fine); Streams(data, Idle)
  {
    var (data, next) := SendStep(s, p, Fine);
    if p.sent > 0 && p.sent == |p.m.text| && p.m !in s.moved {
      assert Part(p.m, 0, p.sent) in s.wire[p.on];
    }
    HandOver(s, p, data, Idle);
  }

  lemma ThrowKeepsStreams(s: State, p: Pc, o: Pc)
    requires Streams(s, p) && Descriptors(s, o) && p.HoldsSend()
    ensures Streams(SendThrows(s, p.m, p.sent, p.on).0, Idle)
  {
    if p.sent > 0 && p.on !in s.closes {
      assert s.Open(p.on);
    }
    HandOver(s, p, SendThrows(s, p.m, p.sent, p.on).0, Idle);
  }

  /** The stream that accepts bytes was not cut short by anyone else. */
  lemma WritableIsWhole(s: State, p: Pc, fd: Fd, n: nat)
    requires Streams(s, p) && s.moved == {} && p.SendWrite? && CanAccept(s, fd, p.m, p.sent, n)
    ensures Clean(s.wire[fd])
    ensures Cut(s.wire[fd]) ==> p.sent > 0 && p.on == fd
  {
    assert StreamOk(s, p, fd);
  }

  lemma AcceptedIsClean(w: seq<Part>, m: Message, sent: nat, n: nat, more: bool)
    requires Clean(w) && 0 < n <= |m.text| - sent
    requires if more then w != [] && Last(w) == Part(m, 0, sent) else sent == 0 && !Cut(w)
    ensures Clean(Accepted(w, m, sent, n, more)) && Last(Accepted(w, m, sent, n, more)) == Part(m, 0, sent + n)
  {
  }

  /** Parts that are whole stay, and a torn part stays torn. */
  lemma AcceptedKeeps(w: seq<Part>, m: Message, sent: nat, n: nat, more: bool)
    ensures Torn(w) ==> Torn(Accepted(w, m, sent, n, more))
    ensures !more && sent > 0 ==> Torn(Accepted(w, m, sent, n, more))
    ensures forall x <- w :: (more ==> x != Last(w)) ==> x in Accepted(w, m, sent, n, more)
  {
    var a := Accepted(w, m, sent, n, more);
    assert forall i :: 0 <= i < |w| ==> a[i].from == w[i].from;
    if !more && sent > 0 {
      assert a[|w|].from > 0;
    }
    forall x | x in w && (more ==> x != Last(w)) ensures x in a {
      var i :| 0 <= i < |w| && w[i] == x;
      assert a[i] == x;
    }
  }

  /** Bytes that begin a message, or follow on from it on the same descriptor. */
  lemma WriteInPlaceKeepsStreams(s: State, p: Pc, o: Pc, fd: Fd, n: nat)
    requires Streams(s, p) && Descriptors(s, o) && p.SendWrite? && CanAccept(s, fd, p.m, p.sent, n)
    requires s.sockfd == Some(fd) && (p.sent > 0 ==> p.on == fd)
    ensures Streams(Write(s, fd, p.m, p.sent, p.on, n), SendLoop(p.m, p.sent + n, fd))
  {
    var SendWrite(m, sent, on) := p;
    var data, next := Write(s, fd, m, sent, on, n), SendLoop(m, sent + n, fd);
    var more := sent > 0;
    AcceptedKeeps(s.wire[fd], m, sent, n, more);
    forall r <- s.returned | r.text != "" && r !in s.moved ensures Delivered(data, r) {
      assert Delivered(s, r);
    }
    if s.moved == {} {
      WritableIsWhole(s, p, fd, n);
      AcceptedIsClean(s.wire[fd], m, sent, n, more);
      forall f: Fd | f < |data.wire| ensures StreamOk(data, next, f) {
        assert StreamOk(s, p, f);
      }
    } else {
      var f: Fd :| f < |s.wire| && Torn(s.wire[f]);
      assert Torn(data.wire[f]);
    }
  }

  /** Bytes in mid-message on another descriptor. */
  lemma WriteElsewhereKeepsStreams(s: State, p: Pc, o: Pc, fd: Fd, n: nat)
    requires Streams(s, p) && Descriptors(s, o) && p.SendWrite? && CanAccept(s, fd, p.m, p.sent, n)
    requires s.sockfd == Some(fd) && p.sent > 0 && p.on != fd
    ensures Streams(Write(s, fd, p.m, p.sent, p.on, n), SendLoop(p.m, p.sent + n, p.on))
  {
    var data := Write(s, fd, p.m, p.sent, p.on, n);
    AcceptedKeeps(s.wire[fd], p.m, p.sent, n, false);
    assert !s.Open(p.on);
    assert Torn(data.wire[fd]);
    forall r <- s.returned | r.text != "" && r !in s.moved ensures Delivered(data, r) {
      assert Delivered(s, r);
    }
  }

  lemma WriteKeepsStreams(s: State, p: Pc, o: Pc, out: Outcome)
    requires Streams(s, p) && Descriptors(s, o) && p.SendWrite?
    ensures var (data, next) := WriteStep(s, p, out);
      Streams(data, if next.HoldsSend() then next else Idle)
  {
    var SendWrite(m, sent, on) := p;
    if out == Fails {
      ThrowKeepsStreams(s, p, o);
    } else if out.Accepts? {
      if s.sockfd.Some? && CanAccept(s, s.sockfd.value, m, sent, out.n) {
        if sent > 0 && on != s.sockfd.value {
          WriteElsewhereKeepsStreams(s, p, o, s.sockfd.value, out.n);
        } else {
          WriteInPlaceKeepsStreams(s, p, o, s.sockfd.value, out.n);
        }
      }
    } else {
      HandOver(s, p, s, SendLoop(m, sent, on));
    }
  }

  lemma SendKeepsStreams(s: State, p: Pc, o: Pc, pc: Pc, out: Outcome)
    requires Streams(s, p) && Descriptors(s, o) && InOperation(pc) == Sending && SendCase(p, pc, SendStep(s, pc, out).1)
    ensures var (data, next) := SendStep(s, pc, out);
      Streams(data, Occupant(p, pc.HoldsSend(), next, next.HoldsSend()))
  {
    if pc.SendWrite? {
      WriteKeepsStreams(s, p, o, out);
    } else if pc.SendLoop? && (s.stop || pc.sent == |pc.m.text|) {
      ReturnKeepsStreams(s, p);
    } else if pc.SendLoop? {
      HandOver(s, p, s, SendPoll(pc.m, pc.sent, pc.on));
    } else if pc.SendPoll? {
      if out == Fails || s.sockfd == None {
        ThrowKeepsStreams(s, p, o);
      } else {
        HandOver(s, p, s, SendWrite(pc.m, pc.sent, pc.on));
      }
    } else if pc.SendLock? && s.sendOwner == None {
      HandOver(s, p, s, SendLoop(pc.m, 0, 0));
    } else if pc.SendCheck? || pc.SendCheckAgain? {
      StreamsSurvive(s, p, SendStep(s, pc, out).0);
    }
  }

  // ----- all of it, over every run

  ghost predicate Inv(s: State) {
    && Locks(s)
    && Descriptors(s, FdPc(s))
    && StopFinal(s, FdPc(s)) && (forall t: Thread :: PlaceOk(s, s.At(t)))
    && Streams(s, SendPc(s))
  }

  lemma InitInv()
    ensures Inv(Init())
  {
    assert forall t: Thread :: LocksOf(Init(), t);
  }

  lemma StopKeepsDescriptors(s: State, o: Pc, pc: Pc)
    requires Descriptors(s, o) && FdCase(o, pc, StopStep(s, pc).1) && InOperation(pc) == Stopping
    ensures var (data, next) := StopStep(s, pc);
      Descriptors(data, Occupant(o, pc.HoldsFd(), next, next.HoldsFd()))
  {
    SameDescriptors(s, o, pc, StopStep(s, pc).0, StopStep(s, pc).1);
  }

  lemma SendKeepsDescriptors(s: State, o: Pc, pc: Pc, out: Outcome)
    requires Descriptors(s, o) && FdCase(o, pc, SendStep(s, pc, out).1) && InOperation(pc) == Sending
    ensures var (data, next) := SendStep(s, pc, out);
      Descriptors(data, Occupant(o, pc.HoldsFd(), next, next.HoldsFd()))
  {
    SameDescriptors(s, o, pc, SendStep(s, pc, out).0, SendStep(s, pc, out).1);
  }

  lemma ReadKeepsDescriptors(s: State, o: Pc, pc: Pc, out: Outcome)
    requires Descriptors(s, o) && FdCase(o, pc, ReadStep(s, pc, out).1) && InOperation(pc) == Reading
    ensures var (data, next) := ReadStep(s, pc, out);
      Descriptors(data, Occupant(o, pc.HoldsFd(), next, next.HoldsFd()))
  {
    SameDescriptors(s, o, pc, ReadStep(s, pc, out).0, ReadStep(s, pc, out).1);
  }

  lemma MoveKeepsDescriptors(s: State, o: Pc, pc: Pc, out: Outcome)
    requires Descriptors(s, o) && PlaceOk(s, pc) && FdCase(o, pc, MoveStep(s, pc, out).1)
    ensures var (data, next) := MoveStep(s, pc, out);
      Descriptors(data, Occupant(o, pc.HoldsFd(), next, next.HoldsFd()))
  {
    match InOperation(pc)
    case Connecting => ConnectKeepsDescriptors(s, o, pc, out);
    case Closing => CloseKeepsDescriptors(s, o, pc);
    case Stopping => StopKeepsDescriptors(s, o, pc);
    case Sending => SendKeepsDescriptors(s, o, pc, out);
    case Reading => ReadKeepsDescriptors(s, o, pc, out);
  }

  lemma MoveKeepsStop(s: State, o: Pc, pc: Pc, out: Outcome)
    requires StopFinal(s, o) && PlaceOk(s, pc) && FdCase(o, pc, MoveStep(s, pc, out).1)
    ensures var (data, next) := MoveStep(s, pc, out);
      && StopFinal(data, Occupant(o, pc.HoldsFd(), next, next.HoldsFd()))
      && PlaceOk(data, next) && (s.stop ==> data.stop)
  {
    match InOperation(pc)
    case Connecting => ConnectKeepsStop(s, o, pc, out);
    case Closing => CloseKeepsStop(s, o, pc);
    case _ => OthersKeepStop(s, o, pc, out);
  }

  /** What the connect and close steps can do to the streams. */
  ghost predicate StreamsUntouched(s: State, data: State) {
    && (data.wire == s.wire || data.wire == s.wire + [[]])
    && (data.closes == s.closes || (s.sockfd.Some? && data.closes == s.closes + [s.sockfd.value]))
    && data.dead == s.dead && data.stop == s.stop && data.returned == s.returned && data.moved == s.moved
  }

  lemma ConnectTouchesNoStream(s: State, pc: Pc, out: Outcome)
    requires InOperation(pc) == Connecting
    ensures StreamsUntouched(s, ConnectStep(s, pc, out).0) && !pc.HoldsSend() && !ConnectStep(s, pc, out).1.HoldsSend()
  {
  }

  lemma CloseTouchesNoStream(s: State, pc: Pc)
    requires InOperation(pc) == Closing
    ensures StreamsUntouched(s, CloseStep(s, pc).0) && !pc.HoldsSend() && !CloseStep(s, pc).1.HoldsSend()
  {
  }

  lemma ConnectKeepsStreams(s: State, p: Pc, pc: Pc, out: Outcome)
    requires Streams(s, p) && InOperation(pc) == Connecting
    ensures Streams(ConnectStep(s, pc, out).0, p) && !pc.HoldsSend() && !ConnectStep(s, pc, out).1.HoldsSend()
  {
    ConnectTouchesNoStream(s, pc, out);
    StreamsSurvive(s, p, ConnectStep(s, pc, out).0);
  }

  lemma CloseKeepsStreams(s: State, p: Pc, pc: Pc)
    requires Streams(s, p) && InOperation(pc) == Closing
    ensures Streams(CloseStep(s, pc).0, p) && !pc.HoldsSend() && !CloseStep(s, pc).1.HoldsSend()
  {
    CloseTouchesNoStream(s, pc);
    StreamsSurvive(s, p, CloseStep(s, pc).0);
  }

  lemma StopKeepsStreams(s: State, p: Pc, pc: Pc)
    requires Streams(s, p) && InOperation(pc) == Stopping
    ensures Streams(StopStep(s, pc).0, p) && !pc.HoldsSend() && !StopStep(s, pc).1.HoldsSend()
  {
    StreamsSurvive(s, p, StopStep(s, pc).0);
  }

  lemma ReadKeepsStreams(s: State, p: Pc, pc: Pc, out: Outcome)
    requires Streams(s, p) && InOperation(pc) == Reading
    ensures Streams(ReadStep(s, pc, out).0, p) && !pc.HoldsSend() && !ReadStep(s, pc, out).1.HoldsSend()
  {
  }

  lemma OtherMovesKeepStreams(s: State, p: Pc, pc: Pc, out: Outcome)
    requires Streams(s, p) && InOperation(pc) != Sending
    ensures var (data, next) := MoveStep(s, pc, out);
      Streams(data, p) && !pc.HoldsSend() && !next.HoldsSend()
  {
    match InOperation(pc)
    case Connecting => ConnectKeepsStreams(s, p, pc, out);
    case Closing => CloseKeepsStreams(s, p, pc);
    case Stopping => StopKeepsStreams(s, p, pc);
    case Reading => ReadKeepsStreams(s, p, pc, out);
  }

  lemma MoveKeepsInv(s: State, t: Thread, out: Outcome)
    requires Inv(s)
    ensures Inv(Step(s, Move(t, out)))
  {
    var pc := s.At(t);
    var (data, next) := MoveStep(s, pc, out);
    MoveIsFair(s, pc, out);
    GoKeepsLocks(s, t, data, next);
    FdOccupantAfter(s, t, data, next);
    SendOccupantAfter(s, t, data, next);
    MoveKeepsDescriptors(s, FdPc(s), pc, out);
    MoveKeepsStop(s, FdPc(s), pc, out);
    if InOperation(pc) == Sending {
      SendKeepsStreams(s, SendPc(s), FdPc(s), pc, out);
    } else {
      OtherMovesKeepStreams(s, SendPc(s), pc, out);
    }
    GoKeepsInv(s, t, data, next);
  }

  /** Collects what a move keeps; only `t` has moved. */
  lemma GoKeepsInv(s: State, t: Thread, data: State, next: Pc)
    requires Inv(s) && FairMove(s, s.At(t), data, next) && PlaceOk(data, next) && (s.stop ==> data.stop)
    requires Descriptors(data, Occupant(FdPc(s), s.At(t).HoldsFd(), next, next.HoldsFd()))
    requires StopFinal(data, Occupant(FdPc(s), s.At(t).HoldsFd(), next, next.HoldsFd()))
    requires Streams(data, Occupant(SendPc(s), s.At(t).HoldsSend(), next, next.HoldsSend()))
    ensures Inv(data.Go(t, next))
  {
    GoKeepsLocks(s, t, data, next);
    FdOccupantAfter(s, t, data, next);
    SendOccupantAfter(s, t, data, next);
    OnlyPlacesDiffer(data, t, next, Occupant(FdPc(s), s.At(t).HoldsFd(), next, next.HoldsFd()),
                     Occupant(SendPc(s), s.At(t).HoldsSend(), next, next.HoldsSend()));
    forall u: Thread ensures PlaceOk(data.Go(t, next), data.Go(t, next).At(u)) {
      assert PlaceOk(s, s.At(u));
    }
  }

  lemma OnlyPlacesDiffer(data: State, t: Thread, next: Pc, o: Pc, p: Pc)
    requires Descriptors(data, o) && StopFinal(data, o) && Streams(data, p)
    ensures Descriptors(data.Go(t, next), o) && StopFinal(data.Go(t, next), o) && Streams(data.Go(t, next), p)
  {
    assert forall fd: Fd :: data.Go(t, next).Open(fd) == data.Open(fd);
    StreamsSurvive(data, p, data.Go(t, next));
  }

  lemma BeginTouchesNothing(s: State, call: Call)
    ensures var (data, next) := BeginStep(s, call);
      && data == s.(nextId := data.nextId) && PlaceOk(data, next)
      && !next.HoldsFd() && !next.HoldsSend() && !next.Resetting()
  {
  }

  lemma BeginKeepsInv(s: State, t: Thread, call: Call)
    requires Inv(s)
    ensures Inv(Step(s, Begin(t, call)))
  {
    if s.At(t) == Idle {
      var (data, next) := BeginStep(s, call);
      BeginIsFair(s, call);
      BeginTouchesNothing(s, call);
      SameDescriptors(s, FdPc(s), Idle, data, next);
      StreamsSurvive(s, SendPc(s), data);
      GoKeepsInv(s, t, data, next);
    }
  }

  lemma StepKeepsInv(s: State, a: Action)
    requires Inv(s)
    ensures Inv(Step(s, a))
  {
    match a
    case Begin(t, call) => BeginKeepsInv(s, t, call);
    case Move(t, out) => MoveKeepsInv(s, t, out);
  }

  lemma StepKeepsStopReturned(s: State, a: Action)
    requires s.stopReturned
    ensures Step(s, a).stopReturned
  {
  }

  lemma {:induction false} RunKeepsInv(s: State, actions: seq<Action>)
    requires Inv(s)
    ensures Inv(RunFrom(s, actions))
    ensures s.stopReturned ==> RunFrom(s, actions).stopReturned
    decreases |actions|
  {
    if actions != [] {
      var before, last := RunFrom(s, actions[..|actions| - 1]), actions[|actions| - 1];
      RunKeepsInv(s, actions[..|actions| - 1]);
      StepKeepsInv(before, last);
      if s.stopReturned {
        StepKeepsStopReturned(before, last);
      }
    }
  }

  // ----- what the client promises

  /** Every descriptor `socket()` returned is the open, current one or has been closed exactly
      once, at most one is open, and nothing else is ever closed. */
  lemma DescriptorLifeCycle(actions: seq<Action>)
    ensures var s := Run(actions);
      && (forall fd: Fd :: fd < |s.wire| ==>
            if s.Open(fd) then s.sockfd == Some(fd) else multiset(s.closes)[fd] == 1)
      && (forall fd: Fd :: fd in s.closes ==> fd < |s.wire|)
      && (forall f: Fd, g: Fd :: s.Open(f) && s.Open(g) ==> f == g)
  {
    InitInv();
    RunKeepsInv(Init(), actions);
  }

  /** Once any `Stop` has returned, `m_sockfd` is invalid for ever and no descriptor is open,
      although the flag is set outside `m_fdMutex` and a `Connect` may be under way. */
  lemma StopIsFinal(actions: seq<Action>, more: seq<Action>)
    requires Run(actions).stopReturned
    ensures var s := RunFrom(Run(actions), more);
      s.stop && s.sockfd == None && forall fd: Fd :: !s.Open(fd)
  {
    InitInv();
    RunKeepsInv(Init(), actions);
    RunKeepsInv(Run(actions), more);
  }

  /** Message atomicity, with its exact condition: every descriptor's stream is whole messages
      with at most one cut short, which comes last, if and only if no send ever went on in
      mid-message on another descriptor than it began on. */
  lemma StreamsAreWholeMessages(actions: seq<Action>)
    ensures var s := Run(actions);
      (forall fd: Fd :: fd < |s.wire| ==> Clean(s.wire[fd])) <==> s.moved == {}
  {
    var s := Run(actions);
    InitInv();
    RunKeepsInv(Init(), actions);
    if s.moved != {} {
      var fd: Fd :| fd < |s.wire| && Torn(s.wire[fd]);
      assert !Clean(s.wire[fd]);
    } else {
      forall fd: Fd | fd < |s.wire| ensures Clean(s.wire[fd]) {
        assert StreamOk(s, SendPc(s), fd);
      }
    }
  }

  /** The bytes a descriptor accepted. */
  function Bytes(w: seq<Part>): string {
    if w == [] then ""
    else
      var p := Last(w);
      Bytes(w[..|w| - 1]) + if p.from <= p.upto <= |p.msg.text| then p.msg.text[p.from..p.upto] else ""
  }

  function Texts(w: seq<Part>): string {
    if w == [] then "" else Texts(w[..|w| - 1]) + Last(w).msg.text
  }

  /** A clean stream, byte by byte: whole messages one after the other, then a prefix of one. */
  lemma {:induction false} CleanBytes(w: seq<Part>)
    requires Clean(w) && w != []
    ensures Bytes(w) == Texts(w[..|w| - 1]) + Last(w).msg.text[..Last(w).upto]
    decreases |w|
  {
    var front, last := w[..|w| - 1], Last(w);
    assert last.from == 0 && last.msg.text[0..last.upto] == last.msg.text[..last.upto];
    if front != [] {
      CleanBytes(front);
      assert Last(front) == w[|w| - 2];
      assert Last(front).msg.text[..Last(front).upto] == Last(front).msg.text;
      assert Bytes(front) == Texts(front);
    }
  }

  /** A `SendData` that returned normally while the client was not stopped has put its whole
      message, in order, on one descriptor's stream, however many partial sends it took; again
      unless some send was moved to another descriptor. */
  lemma NormalReturnDelivers(actions: seq<Action>, m: Message)
    requires var s := Run(actions); m in s.returned && m.text != "" && m !in s.moved
    ensures var s := Run(actions);
      s.returned[m] < |s.wire| && Part(m, 0, |m.text|) in s.wire[s.returned[m]]
  {
    InitInv();
    RunKeepsInv(Init(), actions);
    assert Delivered(Run(actions), m);
  }
}
