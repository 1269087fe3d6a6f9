/** Runs in which the sender has left `Run`, so that `WaitUntilAllSend` returns true, and yet not
    all items have been sent: why the conditions of `SenderExit` are needed. */
module UnsentItems {
  import opened Text
  import opened Queues
  import opened BufferedLogger
  import opened SenderExit
  import P = CacheProtocol
  import A = AckRoundTrip

  /** A set of states that no step leaves, such as the reachable ones. */
  ghost predicate Closed(c: Config, reach: State -> bool) {
    forall s: State, a: Action :: reach(s) ==> reach(Step(c, s, a))
  }

  const FIRST: Tag := Decimal(1)
  const SECOND: Tag := Decimal(2)

  /** Nothing has stopped, the clock has not moved, and at most the two items exist. */
  predicate Early(s: State, counter: nat, cache: set<Tag>, resender: P.ResenderPc) {
    && !s.stopSender && s.attempts == [] && s.delivered == [] && s.unattempted == {}
    && s.core.now == 0 && s.core.counter == counter && s.core.cache == cache
    && s.core.resender == resender && !s.core.stopResender && s.core.transmitted == []
    && (counter >= 1 ==> FIRST in s.core.touched && s.core.touched[FIRST] == 0)
  }

  predicate Queued(q: Log<Tag>, items: seq<Tag>, pushes: seq<Tag>) {
    q.items == items && q.pushes == pushes
  }

  lemma FirstItemArrives(c: Config, reach: State -> bool) returns (s: State)
    requires Closed(c, reach) && reach(Init(c))
    ensures reach(s) && s.sender == LoopTop && !s.queueStop && Queued(s.q, [FIRST], [FIRST])
    ensures Early(s, 1, {}, Init(c).core.resender)
  {
    s := Step(c, Init(c), Shared(P.Construct));
    s := Step(c, s, AddData(FIRST));
  }

  lemma FirstItemPopped(c: Config, reach: State -> bool) returns (s: State)
    requires Closed(c, reach) && reach(Init(c))
    ensures reach(s) && s.sender == Popped(FIRST) && !s.queueStop && Queued(s.q, [], [FIRST])
    ensures Early(s, 1, {}, Init(c).core.resender)
  {
    s := FirstItemArrives(c, reach);
    s := Step(c, s, Sender(Sends));
    s := Step(c, s, Sender(Sends));
  }

  /** The sender touches and caches the first item, and stands before the first `Get`. */
  lemma FirstItemCached(c: Config, reach: State -> bool) returns (s: State)
    requires Closed(c, reach) && reach(Init(c)) && c.core.Cached()
    ensures reach(s) && s.sender == Getting(FIRST) && !s.queueStop && Queued(s.q, [], [FIRST])
    ensures Early(s, 1, {FIRST}, P.Waiting)
  {
    s := FirstItemPopped(c, reach);
    s := Step(c, s, Sender(Sends));
    s := Step(c, s, Sender(Sends));
    s := Step(c, s, Sender(Sends));
  }

  /** A second item is queued and `WaitUntilAllSend` is called. */
  lemma SecondItemArrives(c: Config, reach: State -> bool) returns (s: State)
    requires Closed(c, reach) && reach(Init(c)) && c.core.Cached()
    ensures reach(s) && s.sender == Getting(FIRST) && s.queueStop && Queued(s.q, [SECOND], [FIRST, SECOND])
    ensures Early(s, 2, {FIRST}, P.Waiting)
  {
    NumeralOfDecimal(1);
    NumeralOfDecimal(2);
    s := FirstItemCached(c, reach);
    s := Step(c, s, Shared(P.Construct));
    s := Step(c, s, AddData(SECOND));
    s := Step(c, s, StopOnceEmpty);
  }

  ghost predicate SameButCore(s: State, s': State) {
    s' == s.(core := s'.core)
  }

  /** Meanwhile the resender begins a round: it finds the item, which is not overdue. */
  lemma ResenderJudges(c: Config, reach: State -> bool, s: State) returns (s': State)
    requires Closed(c, reach) && reach(s) && Early(s, 2, {FIRST}, P.Waiting)
    ensures reach(s') && SameButCore(s, s')
    ensures Early(s', 2, {FIRST}, P.EraseKeys({FIRST}, 0, map[FIRST := 0]))
  {
    s' := Step(c, s, Shared(P.ResenderWakes));
    s' := Step(c, s', Shared(P.ResenderChecksSize));
    s' := Step(c, s', Shared(P.ResenderSnapshots));
    assert P.Age(s'.core, FIRST) == 0;
    s' := Step(c, s', Shared(P.ResenderJudges(FIRST)));
    assert {FIRST} - {FIRST} == {};
    s' := Step(c, s', Shared(P.ResenderFiltered));
  }

  lemma ResenderSends(c: Config, reach: State -> bool, s: State) returns (s': State)
    requires Closed(c, reach) && reach(s) && Early(s, 2, {FIRST}, P.EraseKeys({FIRST}, 0, map[FIRST := 0]))
    ensures reach(s') && SameButCore(s, s')
    ensures s'.core.cache == {FIRST} && s'.core.transmitted == [FIRST]
  {
    assert P.ExpiredKeys(c.core, map[FIRST := 0]) == {};
    s' := Step(c, s, Shared(P.ResenderErases));
    s' := Step(c, s', Shared(P.ResenderCopies));
    s' := Step(c, s', Shared(P.ResenderSends(FIRST, true)));
  }

  /** The peer acknowledges what the resender sent, and the sender finds its item gone. */
  lemma AckWinsTheRace(c: Config, reach: State -> bool) returns (s: State)
    requires Closed(c, reach) && reach(Init(c)) && c.core.Cached()
    ensures reach(s) && s.sender == Done(Failed) && s.queueStop && !s.stopSender
    ensures s.q.items == [SECOND] && s.attempts == [] && s.core.transmitted == [FIRST]
  {
    s := SecondItemArrives(c, reach);
    s := ResenderJudges(c, reach, s);
    s := ResenderSends(c, reach, s);
    A.AckedKeyOfAck(FIRST);
    s := Step(c, s, Shared(P.AckLine(FIRST + ":0")));
    s := Step(c, s, Sender(Sends));
  }

  /** Without a cache: the one item is popped, and the socket fails. */
  lemma SocketFailsOnce(c: Config, reach: State -> bool) returns (s: State)
    requires Closed(c, reach) && reach(Init(c)) && !c.core.Cached()
    ensures reach(s) && s.sender == LoopTop && s.queueStop && Queued(s.q, [], [FIRST])
    ensures s.attempts == [FIRST] && s.delivered == [] && !s.stopSender
  {
    s := FirstItemPopped(c, reach);
    s := Step(c, s, StopOnceEmpty);
    s := Step(c, s, Sender(Sends));
    s := Step(c, s, Sender(Sends));
    s := Step(c, s, Sender(SocketFails));
    s := Step(c, s, Sender(Sends));
  }

  lemma SocketFailureDrains(c: Config, reach: State -> bool) returns (s: State)
    requires Closed(c, reach) && reach(Init(c)) && !c.core.Cached()
    ensures reach(s) && s.sender == Done(Drained) && s.queueStop && !s.stopSender
    ensures s.q.pushes == [FIRST] && s.attempts == [FIRST] && s.delivered == []
  {
    s := SocketFailsOnce(c, reach);
    s := Step(c, s, Sender(Sends));
    s := Step(c, s, Sender(Sends));
  }

  ghost predicate Reachable(c: Config, s: State) {
    exists actions :: Run(c, actions) == s
  }

  lemma ReachableIsClosed(c: Config)
    ensures Closed(c, s => Reachable(c, s)) && Reachable(c, Init(c))
  {
    assert Run(c, []) == Init(c);
    forall s: State, a: Action | Reachable(c, s) ensures Reachable(c, Step(c, s, a)) {
      var actions :| Run(c, actions) == s;
      assert (actions + [a])[..|actions|] == actions;
      assert Run(c, actions + [a]) == Step(c, s, a);
    }
  }

  /** With a cache, whatever the timeout and the bound: some run that nobody stops ends the sender
      with an exception, because the item it had cached was resent and acknowledged before it
      could look it up, and leaves a queued item unattempted. */
  lemma AcknowledgementCanEndTheSender(c: Config)
    requires c.core.Cached()
    ensures exists actions :: var s := Run(c, actions);
      && s.sender == Done(Failed) && !s.stopSender && s.core.transmitted == [FIRST]
      && |s.q.fate| <= |s.q.pushes| && !AllAttempted(s)
  {
    ReachableIsClosed(c);
    var s := AckWinsTheRace(c, s => Reachable(c, s));
    var actions :| Run(c, actions) == s;
    AllAttemptedIff(c, actions);
  }

  /** Without a cache: some run that nobody stops drains the queue in the regular way and has sent
      nothing, because the socket failed. */
  lemma SocketFailureLosesTheItem(c: Config)
    requires !c.core.Cached()
    ensures exists actions :: var s := Run(c, actions);
      s.sender == Done(Drained) && !s.stopSender && |s.q.fate| <= |s.q.pushes| && AllAttempted(s) && !AllSent(s)
  {
    ReachableIsClosed(c);
    var s := SocketFailureDrains(c, s => Reachable(c, s));
    var actions :| Run(c, actions) == s;
    RunKeepsExit(c, actions);
    AllSentIff(c, actions);
    AllAttemptedIff(c, actions);
  }
}
