/** The part of the delivery protocol both loggers share: items with unique tags, the cache, the
    acknowledgement reader and the resender thread, one atomic step per mutex-protected operation.
    The cache is the set of its keys: the only `Add` stores an item under the item's own tag, and
    all copies of the cache share the item objects. */
module CacheProtocol {
  import opened Text
  import opened Clock
  import R = Reading

  type Tag = string

  /** `timeout` is `m_ackTimeoutMS`; 0 means there is no cache and no resender. */
  datatype Config = Config(timeout: nat) {
    predicate Cached() {
      timeout != 0
    }
  }

  /** The resender's program counter.  `bak` is the snapshot `cacheBak`, taken when the clock read
      `taken`; `judged` holds the age in milliseconds each item had when the filter looked at it;
      `copy` is the snapshot `cacheCopy`, taken when `from` items had been transmitted. */
  datatype ResenderPc =
    | Waiting
    | CheckSize
    | TakeSnapshot
    | Filter(bak: set<Tag>, taken: nat, rest: set<Tag>, judged: map<Tag, nat>)
    | EraseKeys(bak: set<Tag>, taken: nat, judged: map<Tag, nat>)
    | TakeCopy(bak: set<Tag>, taken: nat)
    | Send(copy: set<Tag>, from: nat, rest: set<Tag>)
    | Exited

  datatype Core = Core(
    now: nat,                 // steady clock, nanoseconds
    counter: nat,             // LogItem::s_counter
    touched: map<Tag, nat>,   // m_touchTime of every item constructed
    cache: set<Tag>,
    resender: ResenderPc,
    stopResender: bool,
    totalResend: nat,
    // history
    added: set<Tag>,
    acked: set<Tag>,          // erased from the cache by an acknowledgement
    aged: map<Tag, nat>,      // erased by the resender, with the clock at that moment
    rolledBack: set<Tag>,     // erased by a caller whose send failed
    transmitted: seq<Tag>     // handed to SocketClient::Send, by whichever thread
  )

  function AgeAt(s: Core, now: nat, t: Tag): nat {
    if t in s.touched && s.touched[t] <= now then (now - s.touched[t]) / NS_PER_MS else 0
  }

  function Age(s: Core, t: Tag): nat {
    AgeAt(s, s.now, t)
  }

  /** The test of `CheckItemAge`: the age passes through `int` and back to `unsigned int`. */
  predicate Expired(c: Config, age: nat) {
    age % INT_RANGE > c.timeout
  }

  function Init(c: Config): Core {
    Core(0, 0, map[], {}, if c.Cached() then Waiting else Exited, false, 0, {}, {}, map[], {}, [])
  }

  // ----- steps of the constructor, the clock, the reader and the resender

  datatype Action =
    | Tick(d: nat)
    | Construct                      // LogItem::LogItem
    | AckLine(line: string)          // DataReader::ProcessItem
    | ResenderWakes
    | ResenderChecksSize
    | ResenderSnapshots
    | ResenderJudges(t: Tag)
    | ResenderFiltered
    | ResenderErases
    | ResenderCopies
    | ResenderSends(t: Tag, ok: bool)
    | ResenderThrows(t: Tag)         // GetData throws; the round ends
    | ResenderDone
    | StopResender

  function NextTag(s: Core): Tag {
    Decimal(s.counter + 1)
  }

  function AckErase(s: Core, line: string): Core {
    var keys := set k | k in R.AckedKey(line);
    s.(cache := s.cache - keys, acked := s.acked + s.cache * keys)
  }

  function ExpiredKeys(c: Config, judged: map<Tag, nat>): set<Tag> {
    set t | t in judged && Expired(c, judged[t])
  }

  function EraseAged(c: Config, s: Core, judged: map<Tag, nat>): Core {
    var gone := s.cache * ExpiredKeys(c, judged);
    s.(cache := s.cache - gone, aged := s.aged + map t | t in gone :: s.now)
  }

  function ResenderStep(c: Config, s: Core, a: Action): Core {
    match (s.resender, a)
    case (Waiting, ResenderWakes) =>
      s.(resender := if s.stopResender then Exited else CheckSize)
    case (CheckSize, ResenderChecksSize) =>
      s.(resender := if s.cache != {} then TakeSnapshot else Waiting)
    case (TakeSnapshot, ResenderSnapshots) =>
      s.(resender := Filter(s.cache, s.now, s.cache, map[]))
    case (Filter(bak, taken, rest, judged), ResenderJudges(t)) =>
      if t in rest then s.(resender := Filter(bak, taken, rest - {t}, judged[t := Age(s, t)])) else s
    case (Filter(bak, taken, rest, judged), ResenderFiltered) =>
      if rest == {} then s.(resender := EraseKeys(bak, taken, judged)) else s
    case (EraseKeys(bak, taken, judged), ResenderErases) =>
      EraseAged(c, s, judged).(resender := TakeCopy(bak, taken))
    case (TakeCopy(_, _), ResenderCopies) =>
      s.(resender := Send(s.cache, |s.transmitted|, s.cache))
    case (Send(copy, from, rest), ResenderSends(t, ok)) =>
      if t !in rest then s
      else if ok then
        s.(resender := Send(copy, from, rest - {t}),
           transmitted := s.transmitted + [t], totalResend := s.totalResend + 1)
      else s.(resender := Waiting, transmitted := s.transmitted + [t])
    case (Send(copy, from, rest), ResenderThrows(t)) =>
      if t in rest then s.(resender := Waiting) else s
    case (Send(copy, from, rest), ResenderDone) =>
      if rest == {} then s.(resender := Waiting) else s
    case _ => s
  }

  /** A disabled action changes nothing, so every sequence of actions is a run. */
  function Step(c: Config, s: Core, a: Action): Core {
    match a
    case Tick(d) => s.(now := s.now + d)
    case Construct => s.(counter := s.counter + 1, touched := s.touched[NextTag(s) := s.now])
    case AckLine(line) => if c.Cached() then AckErase(s, line) else s
    case StopResender => s.(stopResender := true)
    case _ => ResenderStep(c, s, a)
  }

  // ----- steps of whichever thread handles a new item

  function Touch(s: Core, t: Tag): Core {
    s.(touched := s.touched[t := s.now])
  }

  function Add(s: Core, t: Tag): Core {
    s.(cache := s.cache + {t}, added := s.added + {t})
  }

  function RollBack(s: Core, t: Tag): Core {
    s.(cache := s.cache - {t}, rolledBack := s.rolledBack + s.cache * {t})
  }

  function Transmit(s: Core, t: Tag): Core {
    s.(transmitted := s.transmitted + [t])
  }

  // ----- what every step keeps

  function One(b: bool): nat {
    if b then 1 else 0
  }

  /** How many places hold `t`, of those an item can be in once it has been added. */
  function Fates(s: Core, t: Tag): nat {
    One(t in s.cache) + One(t in s.acked) + One(t in s.aged) + One(t in s.rolledBack)
  }

  ghost predicate TagsUnique(s: Core) {
    && (forall t <- s.touched :: Numeral(t) <= s.counter && t == Decimal(Numeral(t)) && s.touched[t] <= s.now)
    && s.added <= s.touched.Keys
  }

  ghost predicate Conserved(s: Core) {
    forall t: Tag :: Fates(s, t) == One(t in s.added)
  }

  /** The items a resender works on were added, and the ages it saw lie between those at the
      snapshot and those now. */
  ghost predicate ResenderInv(c: Config, s: Core) {
    match s.resender
    case Filter(bak, taken, rest, judged) =>
      bak <= s.added && rest <= bak && judged.Keys == bak - rest && taken <= s.now && AgesSeen(s, taken, judged)
    case EraseKeys(bak, taken, judged) =>
      bak <= s.added && judged.Keys == bak && taken <= s.now && AgesSeen(s, taken, judged)
    case TakeCopy(bak, taken) =>
      taken <= s.now && bak <= s.added &&
      forall t <- bak :: AgeAt(s, taken, t) > c.timeout && Age(s, t) < INT_RANGE ==> t !in s.cache
    case Send(copy, from, rest) => copy <= s.added && rest <= copy && SentSince(s.transmitted, from, copy - rest)
    case _ => true
  }

  /** All of `items` are among the transmissions after the first `from`. */
  ghost predicate SentSince(transmitted: seq<Tag>, from: nat, items: set<Tag>) {
    from <= |transmitted| && forall t <- items :: t in transmitted[from..]
  }

  lemma SentSinceGrows(transmitted: seq<Tag>, from: nat, items: set<Tag>, t: Tag)
    requires SentSince(transmitted, from, items)
    ensures SentSince(transmitted + [t], from, items + {t})
  {
    assert (transmitted + [t])[from..] == transmitted[from..] + [t];
  }

  ghost predicate AgesSeen(s: Core, taken: nat, judged: map<Tag, nat>) {
    forall t <- judged :: AgeAt(s, taken, t) <= judged[t] <= Age(s, t)
  }

  ghost predicate NoneDroppedEarly(c: Config, s: Core) {
    forall t <- s.aged :: t in s.touched && s.aged[t] <= s.now && LongerThan(c.timeout, s.touched[t], s.aged[t])
  }

  /** From `start` to `end` more than `ms` whole milliseconds have passed. */
  predicate LongerThan(ms: nat, start: nat, end: nat) {
    end - start >= (ms + 1) * NS_PER_MS
  }

  ghost predicate CachedBeforeSent(c: Config, s: Core) {
    c.Cached() ==> forall t <- s.transmitted :: t in s.added
  }

  ghost predicate Inv(c: Config, s: Core) {
    && TagsUnique(s) && Conserved(s) && ResenderInv(c, s)
    && NoneDroppedEarly(c, s) && CachedBeforeSent(c, s)
    && (!c.Cached() ==> s.resender == Exited && s.added == {})
  }

  /** What can happen to the shared state later: nothing erased comes back. */
  ghost predicate Later(s: Core, s': Core) {
    && s.now <= s'.now && s.counter <= s'.counter && s.touched.Keys <= s'.touched.Keys
    && s.added <= s'.added && s.acked <= s'.acked && s.aged.Keys <= s'.aged.Keys && s.rolledBack <= s'.rolledBack
    && (forall t <- s.added :: t in s.touched ==> s.touched[t] == s'.touched[t])
  }

  lemma AgeGrows(s: Core, a: nat, b: nat, t: Tag)
    requires a <= b
    ensures AgeAt(s, a, t) <= AgeAt(s, b, t)
  {
  }

  /** Ages are elapsed times of the clock, in whole milliseconds. */
  lemma AgeIsElapsed(s: Core, now: nat, t: Tag, ms: nat)
    requires t in s.touched
    ensures AgeAt(s, now, t) > ms <==> LongerThan(ms, s.touched[t], now)
  {
    if s.touched[t] <= now {
      Whole(now - s.touched[t], ms);
    }
  }

  lemma Whole(elapsed: nat, ms: nat)
    ensures elapsed / NS_PER_MS > ms <==> elapsed >= (ms + 1) * NS_PER_MS
  {
  }

  /** However often the age has wrapped, a positive test means the item is overdue; below 2^32
      milliseconds the test is exact. */
  lemma ExpiredMeansOverdue(c: Config, age: nat)
    ensures Expired(c, age) ==> age > c.timeout
    ensures age < INT_RANGE ==> (Expired(c, age) <==> age > c.timeout)
  {
  }

  lemma InitInv(c: Config)
    ensures Inv(c, Init(c))
  {
  }

  lemma NextTagIsNew(s: Core)
    requires TagsUnique(s)
    ensures NextTag(s) !in s.touched && Numeral(NextTag(s)) == s.counter + 1
  {
    NumeralOfDecimal(s.counter + 1);
  }

  lemma ConstructKeepsAges(c: Config, s: Core)
    requires TagsUnique(s) && NoneDroppedEarly(c, s)
    ensures var s' := Step(c, s, Construct);
      && NoneDroppedEarly(c, s')
      && forall t <- s.touched, n: nat :: AgeAt(s', n, t) == AgeAt(s, n, t)
  {
    NextTagIsNew(s);
  }

  lemma ConstructKeepsInv(c: Config, s: Core)
    requires Inv(c, s)
    ensures Inv(c, Step(c, s, Construct)) && Later(s, Step(c, s, Construct))
  {
    NextTagIsNew(s);
    ConstructKeepsAges(c, s);
  }

  lemma TickKeepsInv(c: Config, s: Core, d: nat)
    requires Inv(c, s)
    ensures Inv(c, Step(c, s, Tick(d))) && Later(s, Step(c, s, Tick(d)))
  {
    forall t: Tag ensures Age(s, t) <= Age(Step(c, s, Tick(d)), t) {
      AgeGrows(s, s.now, s.now + d, t);
    }
  }

  lemma AckKeepsInv(c: Config, s: Core, line: string)
    requires Inv(c, s)
    ensures Inv(c, Step(c, s, AckLine(line))) && Later(s, Step(c, s, AckLine(line)))
  {
    var s' := Step(c, s, AckLine(line));
    assert forall t: Tag, n: nat :: AgeAt(s', n, t) == AgeAt(s, n, t);
    assert forall t: Tag :: Fates(s', t) == Fates(s, t);
  }

  /** A line read by the reader erases exactly what it acknowledges. */
  lemma AckLineErases(c: Config, s: Core, line: string, t: Tag)
    requires c.Cached()
    ensures var s' := Step(c, s, AckLine(line));
      && (t in s'.cache <==> t in s.cache && !R.Acknowledges(line, t))
      && (t in s'.acked <==> t in s.acked || (t in s.cache && R.Acknowledges(line, t)))
  {
    R.AckedKeyIs(line, t);
  }

  /** A line with any other status changes nothing. */
  lemma OtherStatusChangesNothing(c: Config, s: Core, tag: string, status: string)
    requires ':' !in tag && status != "0"
    ensures Step(c, s, AckLine(tag + ":" + status)) == s
  {
    R.OtherStatusIsNoAck(tag, status);
  }

  /** The resender's erase drops only what is overdue. */
  lemma EraseIsNotEarly(c: Config, s: Core)
    requires Inv(c, s) && s.resender.EraseKeys?
    ensures NoneDroppedEarly(c, EraseAged(c, s, s.resender.judged))
  {
    var judged := s.resender.judged;
    forall t <- judged | Expired(c, judged[t]) ensures t in s.touched && LongerThan(c.timeout, s.touched[t], s.now) {
      ExpiredMeansOverdue(c, judged[t]);
      AgeIsElapsed(s, s.now, t, c.timeout);
    }
  }

  /** And it drops all that was overdue at the snapshot. */
  lemma EraseIsComplete(c: Config, s: Core, t: Tag)
    requires Inv(c, s) && s.resender.EraseKeys? && t in s.resender.bak
    requires AgeAt(s, s.resender.taken, t) > c.timeout && Age(s, t) < INT_RANGE
    ensures t !in EraseAged(c, s, s.resender.judged).cache
  {
    ExpiredMeansOverdue(c, s.resender.judged[t]);
  }

  /** Every item keeps its one place. */
  lemma EraseAccounts(c: Config, s: Core, judged: map<Tag, nat>)
    requires TagsUnique(s) && Conserved(s)
    ensures var s' := EraseAged(c, s, judged);
      TagsUnique(s') && Conserved(s') && Later(s, s')
  {
    assert forall t: Tag :: Fates(EraseAged(c, s, judged), t) == Fates(s, t);
  }

  lemma SameAges(s: Core, s': Core)
    requires s'.touched == s.touched
    ensures forall t: Tag, n: nat :: AgeAt(s', n, t) == AgeAt(s, n, t)
  {
  }

  lemma EraseAgedKeeps(c: Config, s: Core)
    requires Inv(c, s) && s.resender.EraseKeys?
    ensures var s' := Step(c, s, ResenderErases);
      Inv(c, s') && Later(s, s')
  {
    var EraseKeys(bak, taken, judged) := s.resender;
    var s1 := EraseAged(c, s, judged);
    EraseIsNotEarly(c, s);
    EraseAccounts(c, s, judged);
    SameAges(s, s1);
    forall t <- bak | AgeAt(s, taken, t) > c.timeout && Age(s, t) < INT_RANGE ensures t !in s1.cache {
      EraseIsComplete(c, s, t);
    }
    SameExceptResender(s1, s1.(resender := TakeCopy(bak, taken)));
  }

  /** After the resender's erase: whatever had been untouched for more than the timeout when the
      snapshot was taken, and now has been for less than 2^32 milliseconds, is not cached. */
  lemma OverdueIsDropped(c: Config, s: Core, t: Tag)
    requires Inv(c, s) && s.resender.TakeCopy? && t in s.resender.bak
    ensures t in s.touched
    ensures LongerThan(c.timeout, s.touched[t], s.resender.taken) && !LongerThan(INT_RANGE - 1, s.touched[t], s.now)
      ==> t !in s.cache
  {
    AgeIsElapsed(s, s.resender.taken, t, c.timeout);
    AgeIsElapsed(s, s.now, t, INT_RANGE - 1);
  }

  lemma JudgeKeepsInv(c: Config, s: Core, t: Tag)
    requires Inv(c, s) && s.resender.Filter?
    ensures var s' := ResenderStep(c, s, ResenderJudges(t));
      Inv(c, s') && Later(s, s')
  {
    var s' := ResenderStep(c, s, ResenderJudges(t));
    var Filter(bak, taken, rest, judged) := s.resender;
    SameExceptResender(s, s');
    AgeGrows(s, taken, s.now, t);
    if t in rest {
      assert judged[t := Age(s, t)].Keys == bak - (rest - {t});
      assert AgesSeen(s', taken, judged[t := Age(s, t)]);
    }
  }

  lemma ResendKeepsInv(c: Config, s: Core, t: Tag, ok: bool)
    requires Inv(c, s) && s.resender.Send?
    ensures var s' := ResenderStep(c, s, ResenderSends(t, ok));
      Inv(c, s') && Later(s, s')
  {
    var Send(copy, from, rest) := s.resender;
    if t in rest {
      SentSinceGrows(s.transmitted, from, copy - rest, t);
      assert copy - (rest - {t}) == copy - rest + {t};
    }
    SameExceptResender(s, ResenderStep(c, s, ResenderSends(t, ok)));
  }

  /** A resend round sends everything: it starts from what is cached after the erase, and it ends
      either with a failure or when every item of that copy has been transmitted in this round. */
  lemma RoundResendsAll(c: Config, s: Core, a: Action)
    requires Inv(c, s)
    ensures var s' := Step(c, s, a);
      && (s.resender.TakeCopy? && s'.resender != s.resender ==>
        s'.resender == Send(s.cache, |s.transmitted|, s.cache))
      && (s.resender.Send? && s'.resender != s.resender && !s'.resender.Send? ==>
        || a.ResenderThrows? || (a.ResenderSends? && !a.ok)
        || SentSince(s.transmitted, s.resender.from, s.resender.copy))
  {
    if s.resender.Send? && s.resender.rest == {} {
      assert s.resender.copy - s.resender.rest == s.resender.copy;
    }
  }

  lemma SameExceptResender(s: Core, s': Core)
    requires s' == s.(resender := s'.resender, transmitted := s'.transmitted, totalResend := s'.totalResend)
    ensures forall t: Tag, n: nat :: AgeAt(s', n, t) == AgeAt(s, n, t)
    ensures forall t: Tag :: Fates(s', t) == Fates(s, t)
    ensures Later(s, s') && (TagsUnique(s) ==> TagsUnique(s')) && (Conserved(s) ==> Conserved(s'))
  {
  }

  lemma BeforeFilterKeepsInv(c: Config, s: Core, a: Action)
    requires Inv(c, s)
    requires s.resender.Waiting? || s.resender.CheckSize? || s.resender.TakeSnapshot? || s.resender.Exited?
    ensures Inv(c, ResenderStep(c, s, a)) && Later(s, ResenderStep(c, s, a))
  {
    SameExceptResender(s, ResenderStep(c, s, a));
  }

  lemma AfterFilterKeepsInv(c: Config, s: Core, a: Action)
    requires Inv(c, s) && (s.resender.Filter? || s.resender.TakeCopy? || s.resender.Send?)
    requires !a.ResenderJudges? && !a.ResenderSends?
    ensures Inv(c, ResenderStep(c, s, a)) && Later(s, ResenderStep(c, s, a))
  {
    SameExceptResender(s, ResenderStep(c, s, a));
  }

  lemma ResenderKeepsInv(c: Config, s: Core, a: Action)
    requires Inv(c, s)
    ensures Inv(c, ResenderStep(c, s, a)) && Later(s, ResenderStep(c, s, a))
  {
    if s.resender.EraseKeys? && a.ResenderErases? {
      EraseAgedKeeps(c, s);
    } else if s.resender.Filter? && a.ResenderJudges? {
      JudgeKeepsInv(c, s, a.t);
    } else if s.resender.Send? && a.ResenderSends? {
      ResendKeepsInv(c, s, a.t, a.ok);
    } else if a.ResenderJudges? || a.ResenderSends? || s.resender.EraseKeys? {
      SameExceptResender(s, s);
    } else if s.resender.Filter? || s.resender.TakeCopy? || s.resender.Send? {
      AfterFilterKeepsInv(c, s, a);
    } else if s.resender.Waiting? || s.resender.CheckSize? || s.resender.TakeSnapshot? || s.resender.Exited? {
      BeforeFilterKeepsInv(c, s, a);
    } else {
      SameExceptResender(s, s);
    }
  }

  lemma StepKeepsInv(c: Config, s: Core, a: Action)
    requires Inv(c, s)
    ensures Inv(c, Step(c, s, a)) && Later(s, Step(c, s, a))
  {
    match a
    case Tick(d) => TickKeepsInv(c, s, d);
    case Construct => ConstructKeepsInv(c, s);
    case AckLine(line) => AckKeepsInv(c, s, line);
    case StopResender =>
      var s' := Step(c, s, a);
      assert forall t: Tag, n: nat :: AgeAt(s', n, t) == AgeAt(s, n, t);
      assert forall t: Tag :: Fates(s', t) == Fates(s, t);
    case _ => ResenderKeepsInv(c, s, a);
  }

  /** The steps of the clock, the constructor, the reader and the resender add nothing to the
      cache and roll nothing back. */
  lemma SharedStepsOnlyErase(c: Config, s: Core, a: Action)
    ensures var s' := Step(c, s, a);
      s'.added == s.added && s'.rolledBack == s.rolledBack && s'.cache <= s.cache && s.touched.Keys <= s'.touched.Keys
  {
  }

  lemma OnlyConstructTouches(c: Config, s: Core, a: Action)
    ensures s.now <= Step(c, s, a).now
    ensures Step(c, s, a).touched == if a.Construct? then s.touched[NextTag(s) := s.now] else s.touched
  {
  }

  lemma StepKeepsTouch(c: Config, s: Core, a: Action, t: Tag)
    requires TagsUnique(s) && t in s.touched
    ensures t in Step(c, s, a).touched && Step(c, s, a).touched[t] == s.touched[t]
  {
    OnlyConstructTouches(c, s, a);
    NextTagIsNew(s);
  }

  /** What has been handed to the socket stays so. */
  lemma TransmittedStays(c: Config, s: Core, a: Action)
    ensures s.transmitted <= Step(c, s, a).transmitted
  {
  }

  lemma TouchKeepsInv(c: Config, s: Core, t: Tag)
    requires Inv(c, s) && t in s.touched && t !in s.added
    ensures Inv(c, Touch(s, t)) && Later(s, Touch(s, t))
  {
    var s' := Touch(s, t);
    assert forall u <- s.added, n: nat :: AgeAt(s', n, u) == AgeAt(s, n, u);
    assert forall u: Tag :: Fates(s', u) == Fates(s, u);
  }

  lemma AddKeepsInv(c: Config, s: Core, t: Tag)
    requires Inv(c, s) && c.Cached() && t in s.touched && t !in s.added
    ensures Inv(c, Add(s, t)) && Later(s, Add(s, t))
  {
    var s' := Add(s, t);
    assert forall u: Tag, n: nat :: AgeAt(s', n, u) == AgeAt(s, n, u);
    assert forall u: Tag :: Fates(s', u) == Fates(s, u) + One(u == t);
  }

  lemma RollBackKeepsInv(c: Config, s: Core, t: Tag)
    requires Inv(c, s)
    ensures Inv(c, RollBack(s, t)) && Later(s, RollBack(s, t))
  {
    var s' := RollBack(s, t);
    assert forall u: Tag, n: nat :: AgeAt(s', n, u) == AgeAt(s, n, u);
    assert forall u: Tag :: Fates(s', u) == Fates(s, u);
  }

  lemma TransmitKeepsInv(c: Config, s: Core, t: Tag)
    requires Inv(c, s) && (c.Cached() ==> t in s.added)
    ensures Inv(c, Transmit(s, t)) && Later(s, Transmit(s, t))
  {
    if s.resender.Send? {
      var Send(copy, from, rest) := s.resender;
      SentSinceGrows(s.transmitted, from, copy - rest, t);
    }
    var s' := Transmit(s, t);
    assert forall u: Tag, n: nat :: AgeAt(s', n, u) == AgeAt(s, n, u);
    assert forall u: Tag :: Fates(s', u) == Fates(s, u);
  }

  lemma LaterTransitive(a: Core, b: Core, d: Core)
    requires Later(a, b) && Later(b, d) && a.added <= a.touched.Keys
    ensures Later(a, d)
  {
  }
}
