/** Why `StreamsAreWholeMessages` needs its condition: a run, stopped by nobody, in which a close
    and a connect by another thread tear a message in two. */
module TornMessage {
  import opened Text
  import opened SocketClient
  import opened SocketClientProofs

  /** A set of states that no step leaves, such as the reachable ones. */
  ghost predicate Closed(reach: State -> bool) {
    forall s: State, a: Action :: reach(s) ==> reach(Step(s, a))
  }

  /** Only the threads 0 and 1 play; `t` is one of them, at `p`, and the other is at `q`. */
  predicate Looks(s: State, t: Thread, p: Pc, q: Pc, sockfd: Option<Fd>, closes: seq<Fd>, fds: nat) {
    && t <= 1 && s.At(t) == p && s.At(1 - t) == q && !s.stop && s.dead == {}
    && s.sockfd == sockfd && s.closes == closes && |s.wire| == fds
    && s.fdOwner == (if p.HoldsFd() then Some(t) else if q.HoldsFd() then Some(1 - t) else None)
    && s.sendOwner == (if p.HoldsSend() then Some(t) else if q.HoldsSend() then Some(1 - t) else None)
  }

  /** One move, while the other thread keeps out of its way. */
  lemma OneMove(reach: State -> bool, s: State, t: Thread, p: Pc, q: Pc, out: Outcome, data: State, next: Pc)
    returns (s': State)
    requires Closed(reach) && reach(s) && Looks(s, t, p, q, s.sockfd, s.closes, |s.wire|)
    requires MoveStep(s, p, out) == (data, next) && data.stop == s.stop && data.dead == s.dead
    requires !q.HoldsFd() && (q.HoldsSend() ==> !p.HoldsSend() && !next.HoldsSend())
    ensures reach(s') && Looks(s', t, next, q, data.sockfd, data.closes, |data.wire|)
  {
    MoveIsFair(s, p, out);
    assert reach(Step(s, Move(t, out)));
    s' := data.Go(t, next);
  }

  lemma ConnectEnters(reach: State -> bool, s: State, t: Thread, k: Then, q: Pc, closes: seq<Fd>, fds: nat)
    returns (s': State)
    requires Closed(reach) && reach(s) && Looks(s, t, ConnectCheck(k), q, None, closes, fds) && !q.HoldsFd()
    ensures reach(s') && Looks(s', t, ConnectSetup(k), q, None, closes, fds)
  {
    s' := OneMove(reach, s, t, ConnectCheck(k), q, Fine, s, ConnectLock(k));
    s' := OneMove(reach, s', t, ConnectLock(k), q, Fine, s', ConnectLoop(k));
    s' := ConnectGoesOn(reach, s', t, k, q, closes, fds);
  }

  lemma ConnectGoesOn(reach: State -> bool, s: State, t: Thread, k: Then, q: Pc, closes: seq<Fd>, fds: nat)
    returns (s': State)
    requires Closed(reach) && reach(s) && Looks(s, t, ConnectLoop(k), q, None, closes, fds) && !q.HoldsFd()
    ensures reach(s') && Looks(s', t, ConnectSetup(k), q, None, closes, fds)
  {
    s' := OneMove(reach, s, t, ConnectLoop(k), q, Fine, s, ConnectSetup(k));
  }

  lemma ConnectSucceeds(reach: State -> bool, s: State, t: Thread, k: Then, q: Pc, closes: seq<Fd>, fds: nat)
    returns (s': State)
    requires Closed(reach) && reach(s) && Looks(s, t, ConnectSetup(k), q, None, closes, fds)
    requires !q.HoldsFd() && k != StopReturns
    ensures reach(s') && Looks(s', t, Resume(s, k).1, q, Some(fds), closes, fds + 1)
  {
    var data := s.(numConnect := s.numConnect + 1, sockfd := Some(|s.wire|), wire := s.wire + [[]]);
    s' := OneMove(reach, s, t, ConnectSetup(k), q, Fine, data, ConnectDial(k));
    s' := OneMove(reach, s', t, ConnectDial(k), q, Fine, s', Resume(s, k).1);
  }

  lemma SendStarts(reach: State -> bool, s: State, t: Thread, m: Message, q: Pc, fd: Fd, closes: seq<Fd>, fds: nat)
    returns (s': State)
    requires Closed(reach) && reach(s) && Looks(s, t, SendCheck(m), q, Some(fd), closes, fds)
    requires !q.HoldsFd() && !q.HoldsSend()
    ensures reach(s') && Looks(s', t, SendLoop(m, 0, 0), q, Some(fd), closes, fds)
  {
    s' := OneMove(reach, s, t, SendCheck(m), q, Fine, s, SendCheckAgain(m));
    s' := OneMove(reach, s', t, SendCheckAgain(m), q, Fine, s', SendLock(m));
    s' := OneMove(reach, s', t, SendLock(m), q, Fine, s', SendLoop(m, 0, 0));
  }

  lemma SendPolls(reach: State -> bool, s: State, t: Thread, m: Message, sent: nat, on: Fd, q: Pc, fd: Fd,
                  closes: seq<Fd>, fds: nat)
    returns (s': State)
    requires Closed(reach) && reach(s) && Looks(s, t, SendLoop(m, sent, on), q, Some(fd), closes, fds)
    requires sent != |m.text| && !q.HoldsFd() && !q.HoldsSend()
    ensures reach(s') && Looks(s', t, SendWrite(m, sent, on), q, Some(fd), closes, fds)
  {
    s' := OneMove(reach, s, t, SendLoop(m, sent, on), q, Fine, s, SendPoll(m, sent, on));
    s' := OneMove(reach, s', t, SendPoll(m, sent, on), q, Fine, s', SendWrite(m, sent, on));
  }

  lemma FirstByte(reach: State -> bool, s: State, t: Thread, m: Message, q: Pc, fd: Fd, closes: seq<Fd>, fds: nat)
    returns (s': State)
    requires Closed(reach) && reach(s) && Looks(s, t, SendWrite(m, 0, 0), q, Some(fd), closes, fds)
    requires !q.HoldsFd() && !q.HoldsSend() && fd < fds && fd !in closes && m.text != ""
    ensures reach(s') && Looks(s', t, SendLoop(m, 1, fd), q, Some(fd), closes, fds)
  {
    s' := OneMove(reach, s, t, SendWrite(m, 0, 0), q, Accepts(1), Write(s, fd, m, 0, 0, 1), SendLoop(m, 1, fd));
  }

  lemma CloseRuns(reach: State -> bool, s: State, t: Thread, q: Pc, fd: Fd, closes: seq<Fd>, fds: nat)
    returns (s': State)
    requires Closed(reach) && reach(s) && Looks(s, t, CloseLock(Return), q, Some(fd), closes, fds) && !q.HoldsFd()
    ensures reach(s') && Looks(s', t, Idle, q, None, closes + [fd], fds)
  {
    s' := OneMove(reach, s, t, CloseLock(Return), q, Fine, s, CloseHold(Return));
    var data := s'.(closes := s'.closes + [fd]);
    s' := OneMove(reach, s', t, CloseHold(Return), q, Fine, data, CloseReset(Return));
    s' := OneMove(reach, s', t, CloseReset(Return), q, Fine, s'.(sockfd := None), Idle);
  }

  lemma OneBegin(reach: State -> bool, s: State, t: Thread, q: Pc, call: Call) returns (s': State)
    requires Closed(reach) && reach(s) && Looks(s, t, Idle, q, s.sockfd, s.closes, |s.wire|)
    ensures reach(s') && Looks(s', t, BeginStep(s, call).1, q, s.sockfd, s.closes, |s.wire|)
  {
    BeginIsFair(s, call);
    BeginTouchesNothing(s, call);
    assert reach(Step(s, Begin(t, call)));
    var (data, next) := BeginStep(s, call);
    s' := data.Go(t, next);
  }

  lemma OtherWay(s: State, t: Thread, p: Pc, q: Pc, sockfd: Option<Fd>, closes: seq<Fd>, fds: nat)
    requires Looks(s, t, p, q, sockfd, closes, fds)
    requires !(p.HoldsFd() && q.HoldsFd()) && !(p.HoldsSend() && q.HoldsSend())
    ensures Looks(s, 1 - t, q, p, sockfd, closes, fds)
  {
  }

  const AB: Message := Message(0, "ab")

  /** Thread 0 connects and gets one byte of two out on descriptor 0. */
  lemma HalfSent(reach: State -> bool) returns (s: State)
    requires Closed(reach) && reach(Init())
    ensures reach(s) && Looks(s, 0, SendLoop(AB, 1, 0), Idle, Some(0), [], 1)
  {
    s := OneBegin(reach, Init(), 0, Idle, CallSend("ab"));
    s := ConnectEnters(reach, s, 0, GoOnSending(AB), Idle, [], 0);
    s := ConnectSucceeds(reach, s, 0, GoOnSending(AB), Idle, [], 0);
    s := SendStarts(reach, s, 0, AB, Idle, 0, [], 1);
    s := SendPolls(reach, s, 0, AB, 0, 0, Idle, 0, [], 1);
    s := FirstByte(reach, s, 0, AB, Idle, 0, [], 1);
  }

  /** Meanwhile thread 1 closes, as the reader does on any read error, and connects again, as the
      resender does before each send. */
  lemma Replaced(reach: State -> bool, half: State) returns (s: State)
    requires Closed(reach) && reach(half) && Looks(half, 1, Idle, SendLoop(AB, 1, 0), Some(0), [], 1)
    ensures reach(s) && Looks(s, 1, Idle, SendLoop(AB, 1, 0), Some(1), [0], 2)
  {
    var q := SendLoop(AB, 1, 0);
    s := OneBegin(reach, half, 1, q, CallClose);
    s := CloseRuns(reach, s, 1, q, 0, [], 1);
    s := OneBegin(reach, s, 1, q, CallConnect);
    s := ConnectEnters(reach, s, 1, Return, q, [0], 1);
    s := ConnectSucceeds(reach, s, 1, Return, q, [0], 1);
  }

  lemma SecondByte(reach: State -> bool, s: State) returns (s': State)
    requires Closed(reach) && reach(s) && Looks(s, 0, SendWrite(AB, 1, 0), Idle, Some(1), [0], 2)
    ensures reach(s') && !s'.stop && s'.moved != {}
  {
    assert CanAccept(s, 1, AB, 1, 1);
    s' := Step(s, Move(0, Accepts(1)));
  }

  lemma SomeRunReplaces(reach: State -> bool) returns (s: State)
    requires Closed(reach) && reach(Init())
    ensures reach(s) && !s.stop && s.moved != {}
  {
    s := HalfSent(reach);
    OtherWay(s, 0, SendLoop(AB, 1, 0), Idle, Some(0), [], 1);
    s := Replaced(reach, s);
    OtherWay(s, 1, Idle, SendLoop(AB, 1, 0), Some(1), [0], 2);
    s := SendPolls(reach, s, 0, AB, 1, 0, Idle, 1, [0], 2);
    s := SecondByte(reach, s);
  }

  ghost predicate Reachable(s: State) {
    exists actions :: Run(actions) == s
  }

  lemma ReachableIsClosed()
    ensures Closed(Reachable) && Reachable(Init())
  {
    assert Run([]) == Init();
    forall s: State, a: Action | Reachable(s) ensures Reachable(Step(s, a)) {
      var actions :| Run(actions) == s;
      assert (actions + [a])[..|actions|] == actions;
      assert Run(actions + [a]) == Step(s, a);
    }
  }

  /** Message atomicity on a connection is false of the code without its condition: some run that
      nobody stops leaves a descriptor's stream with a piece of a message that began elsewhere. */
  lemma MessagesCanBeTorn()
    ensures exists actions ::
      !Run(actions).stop && exists fd: Fd :: fd < |Run(actions).wire| && !Clean(Run(actions).wire[fd])
  {
    ReachableIsClosed();
    var s := SomeRunReplaces(Reachable);
    var actions :| Run(actions) == s;
    StreamsAreWholeMessages(actions);
  }
}
