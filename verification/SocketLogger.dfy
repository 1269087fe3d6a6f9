/** The unbuffered logger of src/outmdsd/SocketLogger.cc: any number of callers in `SendDjson`,
    interleaving with the clock, the reader and the resender of `CacheProtocol`. */
module SocketLogger {
  import opened Clock
  import P = CacheProtocol

  type Tag = P.Tag

  /** One call of `SendDjson` past its checks, named by the tag of the item it constructed. */
  datatype Call =
    | Touching
    | Adding
    | Getting       // the Get outside the try block
    | GettingAgain  // the Get inside it
    | Sending
    | RollingBack   // the catch-all: Erase and rethrow
    | Returned(ok: bool)

  datatype State = State(core: P.Core, calls: map<Tag, Call>, totalSend: nat)

  datatype Action =
    | Shared(a: P.Action)
    | Begin                       // construct the item and enter SendData
    | Caller(t: Tag, sent: bool)  // one step of the call for `t`; `sent`: the Send does not throw

  function Init(c: P.Config): State {
    State(P.Init(c), map[], 0)
  }

  function To(s: State, t: Tag, call: Call): State {
    s.(calls := s.calls[t := call])
  }

  function CallerStep(c: P.Config, s: State, t: Tag, sent: bool): State
    requires t in s.calls
  {
    match s.calls[t]
    case Touching => To(s, t, Adding).(core := P.Touch(s.core, t))
    case Adding => To(s, t, Getting).(core := P.Add(s.core, t))
    case Getting => To(s, t, if t in s.core.cache then GettingAgain else Returned(false))
    case GettingAgain =>
      if t in s.core.cache then To(s, t, Sending).(core := P.Transmit(s.core, t)) else To(s, t, RollingBack)
    case Sending =>
      if sent then To(s, t, Returned(true)).(totalSend := s.totalSend + 1)
      else To(s, t, if c.Cached() then RollingBack else Returned(false))
    case RollingBack => To(s, t, Returned(false)).(core := P.RollBack(s.core, t))
    case Returned(_) => s
  }

  function BeginStep(c: P.Config, s: State): State {
    var t, core := P.NextTag(s.core), P.Step(c, s.core, P.Construct);
    if c.Cached() then To(s, t, Touching).(core := core)
    else To(s, t, Sending).(core := P.Transmit(core, t))
  }

  function Step(c: P.Config, s: State, a: Action): State {
    match a
    case Shared(b) => s.(core := P.Step(c, s.core, b))
    case Begin => BeginStep(c, s)
    case Caller(t, sent) => if t in s.calls then CallerStep(c, s, t, sent) else s
  }

  function RunFrom(c: P.Config, s: State, actions: seq<Action>): State {
    if actions == [] then s
    else Step(c, RunFrom(c, s, actions[..|actions| - 1]), actions[|actions| - 1])
  }

  function Run(c: P.Config, actions: seq<Action>): State {
    RunFrom(c, Init(c), actions)
  }

  // ----- the invariant

  /** What the cache and the histories say about a call's item, by where the call is. */
  ghost predicate CallInv(c: P.Config, s: P.Core, t: Tag, call: Call) {
    && t in s.touched
    && (!c.Cached() ==> call.Sending? || call.Returned?)
    && (c.Cached() ==>
      match call
      case Touching => t !in s.added
      case Adding => t !in s.added
      case Returned(false) => t in s.added && t !in s.cache
      case _ => t in s.added && t !in s.rolledBack)
  }

  ghost predicate Inv(c: P.Config, s: State) {
    && P.Inv(c, s.core)
    && (forall t <- s.calls :: CallInv(c, s.core, t, s.calls[t]))
    && s.core.added <= s.calls.Keys
  }

  lemma Fate(c: P.Config, s: P.Core, t: Tag)
    requires P.Inv(c, s)
    ensures P.One(t in s.cache) + P.One(t in s.acked) + P.One(t in s.aged) + P.One(t in s.rolledBack) ==
      P.One(t in s.added)
  {
    assert P.Fates(s, t) == P.One(t in s.added);
  }

  /** Steps of the other threads add nothing, roll nothing back, and bring nothing back. */
  ghost predicate OnlyErases(s: P.Core, s': P.Core) {
    s'.added == s.added && s'.rolledBack == s.rolledBack && s'.cache <= s.cache && s.touched.Keys <= s'.touched.Keys
  }

  lemma CallsSurvive(c: P.Config, s: State, core: P.Core)
    requires (forall t <- s.calls :: CallInv(c, s.core, t, s.calls[t])) && OnlyErases(s.core, core)
    ensures forall t <- s.calls :: CallInv(c, core, t, s.calls[t])
  {
    forall t <- s.calls ensures CallInv(c, core, t, s.calls[t]) {
      assert CallInv(c, s.core, t, s.calls[t]);
    }
  }

  lemma SharedKeepsInv(c: P.Config, s: State, a: P.Action)
    requires Inv(c, s)
    ensures Inv(c, Step(c, s, Shared(a))) && P.Later(s.core, Step(c, s, Shared(a)).core)
  {
    P.StepKeepsInv(c, s.core, a);
    P.SharedStepsOnlyErase(c, s.core, a);
    CallsSurvive(c, s, P.Step(c, s.core, a));
  }

  lemma BeginKeepsInv(c: P.Config, s: State)
    requires Inv(c, s)
    ensures Inv(c, BeginStep(c, s)) && P.Later(s.core, BeginStep(c, s).core)
  {
    var t, core := P.NextTag(s.core), P.Step(c, s.core, P.Construct);
    P.NextTagIsNew(s.core);
    P.StepKeepsInv(c, s.core, P.Construct);
    P.SharedStepsOnlyErase(c, s.core, P.Construct);
    CallsSurvive(c, s, core);
    if !c.Cached() {
      P.TransmitKeepsInv(c, core, t);
      P.LaterTransitive(s.core, core, P.Transmit(core, t));
    }
  }

  lemma CallerKeepsCore(c: P.Config, s: State, t: Tag, sent: bool)
    requires Inv(c, s) && t in s.calls
    ensures P.Inv(c, CallerStep(c, s, t, sent).core) && P.Later(s.core, CallerStep(c, s, t, sent).core)
  {
    assert CallInv(c, s.core, t, s.calls[t]);
    match s.calls[t]
    case Touching => P.TouchKeepsInv(c, s.core, t);
    case Adding => P.AddKeepsInv(c, s.core, t);
    case GettingAgain => P.TransmitKeepsInv(c, s.core, t);
    case RollingBack => P.RollBackKeepsInv(c, s.core, t);
    case _ =>
  }

  lemma CallerKeepsInv(c: P.Config, s: State, t: Tag, sent: bool)
    requires Inv(c, s) && t in s.calls
    ensures Inv(c, CallerStep(c, s, t, sent))
  {
    var s' := CallerStep(c, s, t, sent);
    CallerKeepsCore(c, s, t, sent);
    assert CallInv(c, s.core, t, s.calls[t]);
    Fate(c, s.core, t);
    assert CallInv(c, s'.core, t, s'.calls[t]);
    forall u <- s'.calls ensures CallInv(c, s'.core, u, s'.calls[u]) {
      assert u != t ==> CallInv(c, s.core, u, s.calls[u]);
    }
  }

  lemma StepKeepsInv(c: P.Config, s: State, a: Action)
    requires Inv(c, s)
    ensures Inv(c, Step(c, s, a)) && P.Later(s.core, Step(c, s, a).core)
  {
    match a
    case Shared(b) => SharedKeepsInv(c, s, b);
    case Begin => BeginKeepsInv(c, s);
    case Caller(t, sent) =>
      if t in s.calls {
        CallerKeepsCore(c, s, t, sent);
        CallerKeepsInv(c, s, t, sent);
      }
  }

  /** A returned call stays returned. */
  lemma ReturnIsFinal(c: P.Config, s: State, a: Action, t: Tag)
    requires Inv(c, s) && t in s.calls && s.calls[t].Returned?
    ensures t in Step(c, s, a).calls && Step(c, s, a).calls[t] == s.calls[t]
  {
    assert CallInv(c, s.core, t, s.calls[t]);
    if a.Begin? {
      P.NextTagIsNew(s.core);
    }
  }

  lemma {:induction false} RunKeepsInv(c: P.Config, s: State, actions: seq<Action>)
    requires Inv(c, s)
    ensures Inv(c, RunFrom(c, s, actions))
    ensures forall t <- s.calls :: s.calls[t].Returned? ==>
      t in RunFrom(c, s, actions).calls && RunFrom(c, s, actions).calls[t] == s.calls[t]
    decreases |actions|
  {
    if actions != [] {
      var before, last := RunFrom(c, s, actions[..|actions| - 1]), actions[|actions| - 1];
      RunKeepsInv(c, s, actions[..|actions| - 1]);
      StepKeepsInv(c, before, last);
      forall t <- s.calls | s.calls[t].Returned?
        ensures t in Step(c, before, last).calls && Step(c, before, last).calls[t] == s.calls[t]
      {
        ReturnIsFinal(c, before, last, t);
      }
    }
  }

  // ----- what SendDjson's result means

  /** With a cache, under any interleaving and ever after its return: `false` means the item is
      not in the cache, so the caller may retry without doubling it there; `true` means it is
      cached, acknowledged or expired, and never rolled back. */
  lemma SendDjsonOutcome(c: P.Config, actions: seq<Action>, more: seq<Action>, t: Tag)
    requires c.Cached()
    requires t in Run(c, actions).calls && Run(c, actions).calls[t].Returned?
    ensures var later := RunFrom(c, Run(c, actions), more).core;
      if Run(c, actions).calls[t].ok then
        P.One(t in later.cache) + P.One(t in later.acked) + P.One(t in later.aged) == 1 && t !in later.rolledBack
      else
        t !in later.cache && P.One(t in later.acked) + P.One(t in later.aged) + P.One(t in later.rolledBack) == 1
  {
    P.InitInv(c);
    RunKeepsInv(c, Init(c), actions);
    RunKeepsInv(c, Run(c, actions), more);
    var later := RunFrom(c, Run(c, actions), more);
    assert CallInv(c, later.core, t, later.calls[t]);
    Fate(c, later.core, t);
  }

  /** Whatever was transmitted had been cached before, callers and resender alike, and the
      resender dropped nothing early. */
  lemma CachedBeforeTransmitted(c: P.Config, actions: seq<Action>)
    requires c.Cached()
    ensures var s := Run(c, actions).core;
      && (forall t <- s.transmitted :: t in s.added)
      && (forall t <- s.aged :: t in s.touched && P.LongerThan(c.timeout, s.touched[t], s.aged[t]))
  {
    P.InitInv(c);
    RunKeepsInv(c, Init(c), actions);
  }

  // ----- the result and the Send

  /** The action at `i` is a step of the call for `t` at its `Send`, and the `Send` does not throw. */
  predicate SucceedsAt(c: P.Config, actions: seq<Action>, i: nat, t: Tag) {
    i < |actions| && actions[i] == Caller(t, true) &&
    var s := Run(c, actions[..i]);
    t in s.calls && s.calls[t] == Sending
  }

  /** How many of the actions are successful sends. */
  function Successes(c: P.Config, actions: seq<Action>): nat {
    if actions == [] then 0
    else
      var i := |actions| - 1;
      Successes(c, actions[..i]) + if actions[i].Caller? && SucceedsAt(c, actions, i, actions[i].t) then 1 else 0
  }

  lemma SucceedsInPrefix(c: P.Config, actions: seq<Action>, i: nat, t: Tag)
    requires i < |actions| - 1
    ensures SucceedsAt(c, actions, i, t) <==> SucceedsAt(c, actions[..|actions| - 1], i, t)
  {
    assert actions[..|actions| - 1][..i] == actions[..i];
  }

  predicate ReturnedTrue(s: State, t: Tag) {
    t in s.calls && s.calls[t] == Returned(true)
  }

  lemma CallerSucceeds(c: P.Config, s: State, u: Tag, sent: bool, t: Tag)
    requires u in s.calls
    ensures ReturnedTrue(CallerStep(c, s, u, sent), t) <==>
      ReturnedTrue(s, t) || (u == t && sent && s.calls[t] == Sending)
  {
  }

  /** One step turns a call into a successful one exactly by a successful `Send`. */
  lemma StepSucceeds(c: P.Config, s: State, a: Action, t: Tag)
    requires Inv(c, s)
    ensures ReturnedTrue(Step(c, s, a), t) <==>
      ReturnedTrue(s, t) || (a == Caller(t, true) && t in s.calls && s.calls[t] == Sending)
  {
    match a
    case Shared(_) =>
    case Begin =>
      P.NextTagIsNew(s.core);
      if t in s.calls {
        assert CallInv(c, s.core, t, s.calls[t]);
      }
    case Caller(u, sent) =>
      if u in s.calls {
        CallerSucceeds(c, s, u, sent, t);
      }
  }

  lemma StepCounts(c: P.Config, s: State, a: Action)
    ensures Step(c, s, a).totalSend == s.totalSend +
      if a.Caller? && a.sent && a.t in s.calls && s.calls[a.t] == Sending then 1 else 0
  {
  }

  ghost predicate Succeeded(c: P.Config, actions: seq<Action>, t: Tag) {
    exists i :: SucceedsAt(c, actions, i, t)
  }

  lemma SucceededSoFar(c: P.Config, actions: seq<Action>, t: Tag)
    requires actions != []
    ensures Succeeded(c, actions, t) <==>
      Succeeded(c, actions[..|actions| - 1], t) || SucceedsAt(c, actions, |actions| - 1, t)
  {
    var before := actions[..|actions| - 1];
    forall i: nat | i < |actions| - 1 ensures SucceedsAt(c, actions, i, t) <==> SucceedsAt(c, before, i, t) {
      SucceedsInPrefix(c, actions, i, t);
    }
    if Succeeded(c, before, t) {
      var i :| SucceedsAt(c, before, i, t);
      assert SucceedsAt(c, actions, i, t);
    }
  }

  /** A call returns true if and only if its `Send` did not throw. */
  lemma {:induction false} TrueIffSent(c: P.Config, actions: seq<Action>, t: Tag)
    ensures ReturnedTrue(Run(c, actions), t) <==> exists i :: SucceedsAt(c, actions, i, t)
    decreases |actions|
  {
    if actions != [] {
      var n := |actions| - 1;
      P.InitInv(c);
      RunKeepsInv(c, Init(c), actions[..n]);
      TrueIffSent(c, actions[..n], t);
      StepSucceeds(c, Run(c, actions[..n]), actions[n], t);
      SucceededSoFar(c, actions, t);
      assert Succeeded(c, actions, t) <==> exists i :: SucceedsAt(c, actions, i, t);
    }
  }

  /** `m_totalSend` is the number of successful sends. */
  lemma {:induction false} TotalSendCounts(c: P.Config, actions: seq<Action>)
    ensures Run(c, actions).totalSend == Successes(c, actions)
    decreases |actions|
  {
    if actions != [] {
      TotalSendCounts(c, actions[..|actions| - 1]);
      StepCounts(c, Run(c, actions[..|actions| - 1]), actions[|actions| - 1]);
    }
  }

  // ----- the socket and the clock

  ghost predicate SentIsTransmitted(s: State) {
    forall t <- s.calls :: s.calls[t] == Sending || s.calls[t] == Returned(true) ==> t in s.core.transmitted
  }

  lemma CallerTransmits(c: P.Config, s: State, t: Tag, sent: bool)
    requires SentIsTransmitted(s) && t in s.calls
    ensures SentIsTransmitted(CallerStep(c, s, t, sent))
  {
  }

  lemma StepTransmits(c: P.Config, s: State, a: Action)
    requires SentIsTransmitted(s)
    ensures SentIsTransmitted(Step(c, s, a))
  {
    match a
    case Shared(b) => P.TransmittedStays(c, s.core, b);
    case Begin =>
    case Caller(t, sent) => if t in s.calls { CallerTransmits(c, s, t, sent); }
  }

  /** A call that returned true has handed its item to the socket. */
  lemma {:induction false} TrueIsTransmitted(c: P.Config, actions: seq<Action>)
    ensures SentIsTransmitted(Run(c, actions))
    decreases |actions|
  {
    if actions != [] {
      TrueIsTransmitted(c, actions[..|actions| - 1]);
      StepTransmits(c, Run(c, actions[..|actions| - 1]), actions[|actions| - 1]);
    }
  }

  /** Where the age of `t` is counted from. */
  ghost predicate TouchedAt(s: State, t: Tag, time: nat) {
    && t in s.calls && s.calls[t] != Touching
    && t in s.core.touched && s.core.touched[t] == time
  }

  lemma StepKeepsTouch(c: P.Config, s: State, a: Action, t: Tag, time: nat)
    requires Inv(c, s) && TouchedAt(s, t, time)
    ensures TouchedAt(Step(c, s, a), t, time)
  {
    P.NextTagIsNew(s.core);
    match a
    case Shared(b) => P.StepKeepsTouch(c, s.core, b, t);
    case Begin => P.StepKeepsTouch(c, s.core, P.Construct, t);
    case Caller(u, sent) => if u in s.calls { CallerKeepsTouch(c, s, u, sent, t, time); }
  }

  lemma CallerKeepsTouch(c: P.Config, s: State, u: Tag, sent: bool, t: Tag, time: nat)
    requires u in s.calls && TouchedAt(s, t, time)
    ensures TouchedAt(CallerStep(c, s, u, sent), t, time)
  {
  }

  lemma {:induction false} RunKeepsTouch(c: P.Config, s: State, actions: seq<Action>, t: Tag, time: nat)
    requires Inv(c, s) && TouchedAt(s, t, time)
    ensures TouchedAt(RunFrom(c, s, actions), t, time)
    decreases |actions|
  {
    if actions != [] {
      RunKeepsTouch(c, s, actions[..|actions| - 1], t, time);
      RunKeepsInv(c, s, actions[..|actions| - 1]);
      StepKeepsTouch(c, RunFrom(c, s, actions[..|actions| - 1]), actions[|actions| - 1], t, time);
    }
  }

  /** Whatever happens later, the resender erases an item only when more than the timeout has passed
      since its call touched it. */
  lemma AgeCountsFromTouch(c: P.Config, actions: seq<Action>, t: Tag, sent: bool, more: seq<Action>)
    requires t in Run(c, actions).calls && Run(c, actions).calls[t] == Touching
    ensures var s := RunFrom(c, Step(c, Run(c, actions), Caller(t, sent)), more).core;
      t in s.aged ==> P.LongerThan(c.timeout, Run(c, actions).core.now, s.aged[t])
  {
    var s := Run(c, actions);
    var s1 := Step(c, s, Caller(t, sent));
    P.InitInv(c);
    RunKeepsInv(c, Init(c), actions);
    StepKeepsInv(c, s, Caller(t, sent));
    assert CallInv(c, s.core, t, s.calls[t]);
    RunKeepsTouch(c, s1, more, t, s.core.now);
    RunKeepsInv(c, s1, more);
  }

  /** As for the buffered logger: after the resender's erase, nothing overdue at the snapshot is
      cached. */
  lemma OverdueItemsAreDropped(c: P.Config, actions: seq<Action>, t: Tag)
    requires var s := Run(c, actions).core; s.resender.TakeCopy? && t in s.resender.bak
    ensures var s := Run(c, actions).core;
      t in s.touched &&
      (P.LongerThan(c.timeout, s.touched[t], s.resender.taken) ==>
        P.LongerThan(INT_RANGE - 1, s.touched[t], s.now) || t !in s.cache)
  {
    P.InitInv(c);
    RunKeepsInv(c, Init(c), actions);
    P.OverdueIsDropped(c, Run(c, actions).core, t);
  }
}
