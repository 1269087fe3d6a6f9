/** The bounded drop-oldest queue of src/outmdsd/ConcurrentQueue.h.  Every method body runs under
    `mut`, so one call is one atomic step. */
module Queues {
  import opened Text

  /** A queue with its history: everything ever pushed, and for each push that has left the
      queue whether it was popped (true) or dropped to make room (false). */
  datatype Log<T> = Log(items: seq<T>, pushes: seq<T>, fate: seq<bool>) {
    function Popped(): seq<T>
      requires |fate| <= |pushes|
    {
      Chosen(pushes[..|fate|], fate, true)
    }

    function Dropped(): seq<T>
      requires |fate| <= |pushes|
    {
      Chosen(pushes[..|fate|], fate, false)
    }

    /** What any interleaving of pushes and pops keeps: the queue is the suffix of the push
        history that has not left yet, and it is within its bound. */
    ghost predicate Valid(maxSize: nat) {
      && |fate| <= |pushes|
      && items == pushes[|fate|..]
      && (maxSize > 0 ==> |items| <= maxSize)
    }
  }

  /** The elements of `s` whose flag is `which`, in order. */
  function Chosen<T>(s: seq<T>, flags: seq<bool>, which: bool): seq<T>
    requires |s| == |flags|
  {
    if s == [] then []
    else (if flags[0] == which then [s[0]] else []) + Chosen(s[1..], flags[1..], which)
  }

  function Empty<T>(): Log<T> {
    Log([], [], [])
  }

  /** `is_full`. */
  predicate IsFull(size: nat, maxSize: nat) {
    0 < maxSize && size == maxSize
  }

  function Push<T>(q: Log<T>, maxSize: nat, x: T): Log<T> {
    if IsFull(|q.items|, maxSize) then Log(q.items[1..] + [x], q.pushes + [x], q.fate + [false])
    else Log(q.items + [x], q.pushes + [x], q.fate)
  }

  function Pop<T>(q: Log<T>): Log<T>
    requires q.items != []
  {
    Log(q.items[1..], q.pushes, q.fate + [true])
  }

  lemma PushKeepsValid<T>(q: Log<T>, maxSize: nat, x: T)
    requires q.Valid(maxSize)
    ensures Push(q, maxSize, x).Valid(maxSize)
  {
  }

  lemma {:induction false} ChosenSnoc<T>(s: seq<T>, flags: seq<bool>, x: T, flag: bool, which: bool)
    requires |s| == |flags|
    ensures Chosen(s + [x], flags + [flag], which) == Chosen(s, flags, which) + if flag == which then [x] else []
  {
    if s != [] {
      ChosenSnoc(s[1..], flags[1..], x, flag, which);
      assert (s + [x])[1..] == s[1..] + [x];
      assert (flags + [flag])[1..] == flags[1..] + [flag];
    }
  }

  /** A pop takes the oldest item; nothing is dropped. */
  lemma PopTakesOldest<T>(q: Log<T>, maxSize: nat)
    requires q.Valid(maxSize) && q.items != []
    ensures Pop(q).Valid(maxSize)
    ensures Pop(q).Popped() == q.Popped() + [q.items[0]] && Pop(q).Dropped() == q.Dropped()
  {
    var k := |q.fate|;
    assert q.pushes[..k + 1] == q.pushes[..k] + [q.items[0]];
    ChosenSnoc(q.pushes[..k], q.fate, q.items[0], true, true);
    ChosenSnoc(q.pushes[..k], q.fate, q.items[0], true, false);
  }

  lemma PushPopsNothing<T>(q: Log<T>, maxSize: nat, x: T)
    requires q.Valid(maxSize)
    ensures Push(q, maxSize, x).Popped() == q.Popped()
  {
    var k := |q.fate|;
    if IsFull(|q.items|, maxSize) {
      assert (q.pushes + [x])[..k + 1] == q.pushes[..k] + [q.items[0]];
      ChosenSnoc(q.pushes[..k], q.fate, q.items[0], false, true);
    } else {
      assert (q.pushes + [x])[..k] == q.pushes[..k];
    }
  }

  /** A push drops the oldest item exactly when the queue is at its nonzero bound. */
  lemma PushDropsOldestIffFull<T>(q: Log<T>, maxSize: nat, x: T)
    requires q.Valid(maxSize)
    ensures Push(q, maxSize, x).Dropped() ==
      q.Dropped() + if maxSize > 0 && |q.items| == maxSize then [q.items[0]] else []
  {
    var k := |q.fate|;
    if IsFull(|q.items|, maxSize) {
      assert (q.pushes + [x])[..k + 1] == q.pushes[..k] + [q.items[0]];
      ChosenSnoc(q.pushes[..k], q.fate, q.items[0], false, false);
    } else {
      assert (q.pushes + [x])[..k] == q.pushes[..k];
    }
  }

  lemma {:induction false} ChosenPartition<T>(s: seq<T>, flags: seq<bool>)
    requires |s| == |flags|
    ensures multiset(s) == multiset(Chosen(s, flags, true)) + multiset(Chosen(s, flags, false))
  {
    if s != [] {
      ChosenPartition(s[1..], flags[1..]);
      assert s == [s[0]] + s[1..];
    }
  }

  /** Every push is in exactly one place: popped, dropped, or still queued. */
  lemma PushesPartition<T>(q: Log<T>, maxSize: nat)
    requires q.Valid(maxSize)
    ensures multiset(q.pushes) == multiset(q.Popped()) + multiset(q.Dropped()) + multiset(q.items)
  {
    ChosenPartition(q.pushes[..|q.fate|], q.fate);
    assert q.pushes == q.pushes[..|q.fate|] + q.items;
  }

  class ConcurrentQueue<T> {
    var dataQueue: seq<T>
    var stopOnceEmpty: bool
    const maxSize: nat
    ghost var pushes: seq<T>
    ghost var fate: seq<bool>

    ghost function State(): Log<T>
      reads this
    {
      Log(dataQueue, pushes, fate)
    }

    ghost predicate Valid()
      reads this
    {
      State().Valid(maxSize)
    }

    constructor (maxSize: nat)
      ensures Valid() && State() == Empty() && !stopOnceEmpty && this.maxSize == maxSize
    {
      dataQueue, stopOnceEmpty, this.maxSize := [], false, maxSize;
      pushes, fate := [], [];
    }

    method PushItem(x: T)
      requires Valid()
      modifies this
      ensures Valid() && State() == Push(old(State()), maxSize, x) && stopOnceEmpty == old(stopOnceEmpty)
    {
      PushKeepsValid(State(), maxSize, x);
      if IsFull(|dataQueue|, maxSize) {
        dataQueue := dataQueue[1..];
        fate := fate + [false];
      }
      dataQueue := dataQueue + [x];
      pushes := pushes + [x];
    }

    /** `wait_and_pop` once its wait is over; `None` is the untouched null item. */
    method WaitAndPop() returns (r: Option<T>)
      requires Valid() && (dataQueue != [] || stopOnceEmpty)
      modifies this
      ensures Valid() && stopOnceEmpty == old(stopOnceEmpty)
      ensures r == None <==> old(dataQueue) == []
      ensures r == None ==> State() == old(State())
      ensures r.Some? ==> r.value == old(dataQueue[0]) && State() == Pop(old(State()))
    {
      if dataQueue == [] && stopOnceEmpty {
        return None;
      }
      PopTakesOldest(State(), maxSize);
      r := Some(dataQueue[0]);
      dataQueue := dataQueue[1..];
      fate := fate + [true];
    }

    method StopOnceEmpty()
      requires Valid()
      modifies this
      ensures Valid() && State() == old(State()) && stopOnceEmpty
    {
      stopOnceEmpty := true;
    }
  }
}

/** The condition variable of the queue: any number of producers and consumers, with spurious
    wake-ups.  A consumer in `wait` evaluates its predicate under the mutex and either goes on or
    falls asleep in the same atomic step. */
module QueueWaiting {
  import opened Queues

  /** `Checking` is on its way to evaluate the predicate unprompted (at first, or after a spurious
      wake-up); `Notified` is on its way because of a notification. */
  datatype Consumer = Away | Checking | Asleep | Notified

  datatype State<T> = State(log: Log<T>, stop: bool, consumers: map<nat, Consumer>) {
    function At(where: Consumer): set<nat> {
      set c | c in consumers && consumers[c] == where
    }
  }

  /** `Push(x, w)` notifies the sleeper `w`, the choice being the system's. */
  datatype Action<T> =
    | PushItem(x: T, w: nat)
    | Enter(c: nat)
    | Evaluate(c: nat)
    | WakeSpuriously(c: nat)
    | StopOnceEmpty

  function Init<T>(consumers: set<nat>): State<T> {
    State(Empty(), false, map c | c in consumers :: Away)
  }

  predicate Enabled<T>(s: State<T>, a: Action<T>) {
    match a
    case PushItem(_, w) => s.At(Asleep) == {} || w in s.At(Asleep)
    case Enter(c) => c in s.At(Away)
    case Evaluate(c) => c in s.At(Checking) + s.At(Notified)
    case WakeSpuriously(c) => c in s.At(Asleep)
    case StopOnceEmpty => true
  }

  function WakeAll(consumers: map<nat, Consumer>): map<nat, Consumer> {
    map c | c in consumers :: if consumers[c] == Asleep then Notified else consumers[c]
  }

  /** A disabled action changes nothing, so every sequence of actions is a run. */
  function Step<T>(s: State<T>, maxSize: nat, a: Action<T>): State<T> {
    if !Enabled(s, a) then s
    else
      match a
      case PushItem(x, w) =>
        s.(log := Push(s.log, maxSize, x),
           consumers := if s.At(Asleep) == {} then s.consumers else s.consumers[w := Notified])
      case Enter(c) => s.(consumers := s.consumers[c := Checking])
      case Evaluate(c) =>
        if s.log.items != [] then s.(log := Pop(s.log), consumers := s.consumers[c := Away])
        else if s.stop then s.(consumers := s.consumers[c := Away])
        else s.(consumers := s.consumers[c := Asleep])
      case WakeSpuriously(c) => s.(consumers := s.consumers[c := Checking])
      case StopOnceEmpty => s.(stop := true, consumers := WakeAll(s.consumers))
  }

  function Run<T>(consumers: set<nat>, maxSize: nat, actions: seq<Action<T>>): State<T> {
    if actions == [] then Init(consumers)
    else Step(Run(consumers, maxSize, actions[..|actions| - 1]), maxSize, actions[|actions| - 1])
  }

  ghost predicate Inv<T>(s: State<T>, maxSize: nat) {
    && s.log.Valid(maxSize)
    && (s.At(Asleep) != {} ==> !s.stop && |s.log.items| <= |s.At(Notified)|)
  }

  lemma MoveOne<T>(s: State<T>, c: nat, to: Consumer)
    requires c in s.consumers
    ensures var t := s.(consumers := s.consumers[c := to]);
      forall w: Consumer :: t.At(w) == if w == to then s.At(w) + {c} else s.At(w) - {c}
  {
  }

  lemma PushKeepsInv<T>(s: State<T>, maxSize: nat, x: T, w: nat)
    requires Inv(s, maxSize) && Enabled(s, PushItem(x, w))
    ensures Inv(Step(s, maxSize, PushItem(x, w)), maxSize)
  {
    PushKeepsValid(s.log, maxSize, x);
    if s.At(Asleep) != {} {
      MoveOne(s, w, Notified);
    } else {
      assert Step(s, maxSize, PushItem(x, w)).At(Asleep) == {};
    }
  }

  lemma EvaluateKeepsInv<T>(s: State<T>, maxSize: nat, c: nat)
    requires Inv(s, maxSize) && Enabled(s, Evaluate(c))
    ensures Inv(Step(s, maxSize, Evaluate(c)), maxSize)
  {
    if s.log.items != [] {
      PopTakesOldest(s.log, maxSize);
    }
    MoveOne(s, c, if s.log.items != [] || s.stop then Away else Asleep);
  }

  /** A consumer that evaluates takes the oldest item whenever there is one, stopped or not; it
      leaves with nothing exactly when the queue is empty and stopped, and sleeps exactly when the
      queue is empty and not stopped. */
  lemma EvaluationTakesOldest<T>(s: State<T>, maxSize: nat, c: nat)
    requires s.log.Valid(maxSize) && Enabled(s, Evaluate(c))
    ensures var s' := Step(s, maxSize, Evaluate(c));
      && s'.log.Popped() == s.log.Popped() + (if s.log.items != [] then [s.log.items[0]] else [])
      && (s'.log == s.log && c in s'.At(Away) <==> s.log.items == [] && s.stop)
      && (c in s'.At(Asleep) <==> s.log.items == [] && !s.stop)
  {
    if s.log.items != [] {
      PopTakesOldest(s.log, maxSize);
    }
  }

  lemma StepKeepsInv<T>(s: State<T>, maxSize: nat, a: Action<T>)
    requires Inv(s, maxSize)
    ensures Inv(Step(s, maxSize, a), maxSize)
  {
    if Enabled(s, a) {
      match a
      case PushItem(x, w) =>
        PushKeepsInv(s, maxSize, x, w);
      case Enter(c) =>
        MoveOne(s, c, Checking);
        assert c !in s.At(Notified);
      case Evaluate(c) =>
        EvaluateKeepsInv(s, maxSize, c);
      case WakeSpuriously(c) =>
        MoveOne(s, c, Checking);
        assert c !in s.At(Notified);
      case StopOnceEmpty =>
        assert Step(s, maxSize, a).At(Asleep) == {};
    }
  }

  lemma {:induction false} RunKeepsInv<T>(consumers: set<nat>, maxSize: nat, actions: seq<Action<T>>)
    ensures Inv(Run(consumers, maxSize, actions), maxSize)
    decreases |actions|
  {
    if actions == [] {
      assert Init<T>(consumers).At(Asleep) == {};
    } else {
      RunKeepsInv(consumers, maxSize, actions[..|actions| - 1]);
      StepKeepsInv(Run(consumers, maxSize, actions[..|actions| - 1]), maxSize, actions[|actions| - 1]);
    }
  }

  /** No lost wake-up.  While anyone sleeps un-notified the queue holds no more items than there
      are notified consumers, so a queued item always has a consumer on its way to it; and once
      `stop_once_empty` has been called nobody sleeps un-notified. */
  lemma NoLostWakeup<T>(consumers: set<nat>, maxSize: nat, actions: seq<Action<T>>)
    ensures var s := Run(consumers, maxSize, actions);
      && (s.At(Asleep) != {} ==> |s.log.items| <= |s.At(Notified)|)
      && (s.stop ==> s.At(Asleep) == {})
      && (s.log.items != [] && s.At(Asleep) != {} ==> s.At(Notified) != {})
  {
    RunKeepsInv(consumers, maxSize, actions);
  }

  /** The queue is always the suffix of the pushes that has not left, within its bound, and every
      push has been popped, dropped or is still there. */
  lemma QueueIsBoundedSuffix<T>(consumers: set<nat>, maxSize: nat, actions: seq<Action<T>>)
    ensures var q := Run(consumers, maxSize, actions).log;
      && q.Valid(maxSize)
      && multiset(q.pushes) == multiset(q.Popped()) + multiset(q.Dropped()) + multiset(q.items)
  {
    RunKeepsInv(consumers, maxSize, actions);
    PushesPartition(Run(consumers, maxSize, actions).log, maxSize);
  }
}
