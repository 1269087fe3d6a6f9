/** The bodies of the worker classes as one thread runs them undisturbed: LogItem.h,
    DataSender.cc, DataResender.cc and SocketLogger.cc over the real queue and cache.  The modules
    `CacheProtocol`, `BufferedLogger` and `SocketLogger` cut the same bodies into atomic steps. */
module Workers {
  import opened Text
  import opened Clock
  import opened ConcurrentMaps
  import opened Queues
  import P = CacheProtocol
  import B = BufferedLogger

  /** `LogItem::s_counter`. */
  class TagCounter {
    var counter: nat

    constructor ()
      ensures counter == 0
    {
      counter := 0;
    }
  }

  /** `to_string` of a number is never empty. */
  type Tag = s: string | s != "" witness "1"

  class LogItem {
    const tag: Tag
    var touchTime: nat

    /** `now` is the steady clock in nanoseconds. */
    constructor (tags: TagCounter, now: nat)
      modifies tags
      ensures tags.counter == old(tags.counter) + 1 && tag == Decimal(tags.counter) && touchTime == now
    {
      tag, touchTime := Decimal(tags.counter + 1), now;
      new;
      tags.counter := tags.counter + 1;
    }

    method Touch(now: nat)
      modifies this
      ensures touchTime == now
    {
      touchTime := now;
    }

    function AgeMilliSeconds(now: nat): (age: nat)
      reads this
      ensures forall ms: nat :: age > ms <==> P.LongerThan(ms, touchTime, now)
    {
      if touchTime <= now then (now - touchTime) / NS_PER_MS else 0
    }
  }

  /** How many of the first sends succeed before one fails. */
  function Successes(outcomes: seq<bool>): (n: nat)
    ensures n <= |outcomes| && forall i :: 0 <= i < n ==> outcomes[i]
    ensures n < |outcomes| ==> !outcomes[n]
  {
    if outcomes == [] || !outcomes[0] then 0 else 1 + Successes(outcomes[1..])
  }

  /** How many of the first `n` sends succeed. */
  function Sent(outcomes: seq<B.Outcome>, n: nat): nat
    requires n <= |outcomes|
  {
    if n == 0 then 0 else Sent(outcomes, n - 1) + if outcomes[n - 1] == B.Sends then 1 else 0
  }

  /** How many of the first `n` items come before one whose `GetData` throws. */
  function BeforeThrow(outcomes: seq<B.Outcome>, n: nat): (k: nat)
    requires n <= |outcomes|
    ensures k <= n && (k < n ==> outcomes[k] == B.DataThrows)
    ensures forall i :: 0 <= i < k ==> outcomes[i] != B.DataThrows
  {
    if n == 0 then 0
    else
      var k := BeforeThrow(outcomes, n - 1);
      if k < n - 1 || outcomes[n - 1] == B.DataThrows then k else n
  }

  /** The item whose `GetData` throws is popped too. */
  function Taken(outcomes: seq<B.Outcome>, n: nat): nat
    requires n <= |outcomes|
  {
    if BeforeThrow(outcomes, n) < n then BeforeThrow(outcomes, n) + 1 else n
  }

  /** After `i` items have been taken, of which all but a throwing last one were `attempted`. */
  ghost predicate TakenSoFar(outcomes: seq<B.Outcome>, n: nat, i: nat, attempted: nat, running: bool)
    requires n <= |outcomes|
  {
    && i <= n && attempted <= BeforeThrow(outcomes, n)
    && if running then i == attempted
       else i == Taken(outcomes, n) && attempted == BeforeThrow(outcomes, n)
  }

  lemma TakeOne(outcomes: seq<B.Outcome>, n: nat, i: nat)
    requires n <= |outcomes| && TakenSoFar(outcomes, n, i, i, true) && i < n
    ensures var running := outcomes[i] != B.DataThrows;
      TakenSoFar(outcomes, n, i + 1, if running then i + 1 else i, running)
  {
  }

  class DataResender {
    const dataCache: ConcurrentMap<LogItem>
    const ackTimeoutMS: nat
    var totalSend: nat

    constructor (cache: ConcurrentMap<LogItem>, timeout: nat)
      ensures dataCache == cache && ackTimeoutMS == timeout && totalSend == 0
    {
      dataCache, ackTimeoutMS, totalSend := cache, timeout, 0;
    }

    /** The source's constructor throws when either time is zero. */
    static method Create(cache: ConcurrentMap<LogItem>, ackTimeoutMS: nat, resendIntervalMS: nat)
      returns (r: Result<DataResender>)
      ensures r.Ok? <==> ackTimeoutMS > 0 && resendIntervalMS > 0
      ensures r.Ok? ==> r.value.dataCache == cache && r.value.ackTimeoutMS == ackTimeoutMS && r.value.totalSend == 0
      ensures r.Err? ==> r.error == InvalidArgument
    {
      if ackTimeoutMS == 0 || resendIntervalMS == 0 {
        return Err(InvalidArgument);
      }
      var resender := new DataResender(cache, ackTimeoutMS);
      return Ok(resender);
    }

    /** `CheckItemAge`, with the clock read anew for each item. */
    static function Overdue(timeout: nat, item: LogItem, clock: LogItem -> nat): (overdue: bool)
      reads item
      ensures overdue ==> P.LongerThan(timeout, item.touchTime, clock(item))
      ensures !P.LongerThan(INT_RANGE - 1, item.touchTime, clock(item)) ==>
        (overdue <==> P.LongerThan(timeout, item.touchTime, clock(item)))
    {
      P.ExpiredMeansOverdue(P.Config(timeout), item.AgeMilliSeconds(clock(item)));
      P.Expired(P.Config(timeout), item.AgeMilliSeconds(clock(item)))
    }

    /** The first half of `ResendData`: judged on a snapshot, erased from the cache itself. */
    method DropOverdue(clock: LogItem -> nat)
      modifies dataCache
      ensures forall k :: k in dataCache.cache <==>
        (k in old(dataCache.cache) && !old(Overdue(ackTimeoutMS, dataCache.cache[k], clock)))
      ensures forall k <- dataCache.cache :: dataCache.cache[k] == old(dataCache.cache)[k]
      ensures forall k <- old(dataCache.cache) ::
        var item := old(dataCache.cache[k]);
        && (k !in dataCache.cache ==> P.LongerThan(ackTimeoutMS, old(item.touchTime), clock(item)))
        && (k in dataCache.cache ==>
          || !P.LongerThan(ackTimeoutMS, old(item.touchTime), clock(item))
          || P.LongerThan(INT_RANGE - 1, old(item.touchTime), clock(item)))
    {
      var cacheBak := new ConcurrentMap<LogItem>.Snapshot(dataCache);
      var timeout := ackTimeoutMS;
      var keysToRemove := cacheBak.FilterEach((item: LogItem) reads item => Overdue(timeout, item, clock));
      var n := dataCache.EraseAll(keysToRemove);
    }

    /** Drops exactly the overdue items, then sends each of the others once until a send fails;
        `outcomes` are the results of successive sends. */
    method ResendData(clock: LogItem -> nat, outcomes: seq<bool>) returns (sent: seq<string>)
      requires |outcomes| >= |dataCache.cache|
      modifies this`totalSend, dataCache
      ensures forall k :: k in dataCache.cache <==>
        (k in old(dataCache.cache) && !old(Overdue(ackTimeoutMS, dataCache.cache[k], clock)))
      ensures forall k <- dataCache.cache :: dataCache.cache[k] == old(dataCache.cache)[k]
      ensures EachOnceUntilFailure(dataCache.cache.Keys, outcomes, sent)
      ensures totalSend == old(totalSend) + Min(Successes(outcomes), |sent|)
    {
      ghost var before := dataCache.cache;
      DropOverdue(clock);
      FewerKeys(dataCache.cache, before);
      var cacheCopy := new ConcurrentMap<LogItem>.Snapshot(dataCache);
      sent := SendEach(cacheCopy.cache, outcomes);
    }

    /** `ForEachUnsafe` on the copy, in whatever order, until a send throws. */
    method SendEach(copy: map<string, LogItem>, outcomes: seq<bool>) returns (sent: seq<string>)
      requires |outcomes| >= |copy|
      modifies this`totalSend
      ensures EachOnceUntilFailure(copy.Keys, outcomes, sent)
      ensures totalSend == old(totalSend) + Min(Successes(outcomes), |sent|)
    {
      sent := [];
      var rest := copy.Keys;
      while rest != {}
        invariant SentSoFar(copy.Keys, rest, outcomes, sent) && totalSend == old(totalSend) + |sent|
        decreases rest
      {
        var n := |sent|;
        var k :| k in rest;
        SendOne(copy.Keys, rest, outcomes, sent, k);
        sent, rest := sent + [k], rest - {k};
        if !outcomes[n] {
          return;
        }
        totalSend := totalSend + 1;
      }
    }
  }

  predicate Distinct(s: seq<string>) {
    forall i, j :: 0 <= i < j < |s| ==> s[i] != s[j]
  }

  function Min(a: nat, b: nat): nat {
    if a < b then a else b
  }

  /** Keys sent one by one, none twice: all of them, or up to and including the first failure. */
  predicate EachOnceUntilFailure(keys: set<string>, outcomes: seq<bool>, sent: seq<string>) {
    && Distinct(sent) && Elements(sent) <= keys
    && (if Successes(outcomes) < |keys| then |sent| == Successes(outcomes) + 1 else Elements(sent) == keys)
  }

  ghost predicate SentSoFar(keys: set<string>, rest: set<string>, outcomes: seq<bool>, sent: seq<string>) {
    && rest <= keys && |rest| + |sent| == |keys| && |sent| <= Successes(outcomes)
    && Distinct(sent) && Elements(sent) == keys - rest
  }

  lemma SendOne(keys: set<string>, rest: set<string>, outcomes: seq<bool>, sent: seq<string>, k: string)
    requires SentSoFar(keys, rest, outcomes, sent) && k in rest && |sent| < |outcomes|
    ensures |rest - {k}| == |rest| - 1 && Distinct(sent + [k]) && Elements(sent + [k]) == keys - (rest - {k})
    ensures outcomes[|sent|] <==> |sent| < Successes(outcomes)
  {
    OneMore(sent, k);
    OneLess(keys, rest, k);
    NextSend(outcomes, |sent|);
  }

  lemma NextSend(outcomes: seq<bool>, n: nat)
    requires n <= Successes(outcomes) && n < |outcomes|
    ensures outcomes[n] <==> n < Successes(outcomes)
  {
    if n == Successes(outcomes) {
      assert !outcomes[n];
    }
  }

  lemma OneMore(s: seq<string>, x: string)
    requires Distinct(s) && x !in Elements(s)
    ensures Distinct(s + [x]) && Elements(s + [x]) == Elements(s) + {x}
  {
    forall i | 0 <= i < |s| ensures s[i] != x {
      assert s[i] in Elements(s);
    }
  }

  lemma OneLess(keys: set<string>, rest: set<string>, k: string)
    requires rest <= keys && k in rest
    ensures keys - (rest - {k}) == keys - rest + {k}
  {
  }

  lemma FewerKeys<V>(small: map<string, V>, big: map<string, V>)
    requires small.Keys <= big.Keys
    ensures |small| <= |big|
  {
    var more := big.Keys - small.Keys;
    assert big.Keys == small.Keys + more;
  }

  class SocketLogger {
    /** Null when nothing is cached. */
    const dataCache: ConcurrentMap?<LogItem>
    var totalSend: nat

    constructor (cache: ConcurrentMap?<LogItem>)
      ensures dataCache == cache && totalSend == 0
    {
      dataCache, totalSend := cache, 0;
    }

    /** `sends` is whether the socket takes the item; undisturbed, no `Get` throws.  A failed send
        leaves the cache without the item, whatever it held under that tag before. */
    method SendData(item: LogItem, now: nat, sends: bool) returns (r: Result<()>)
      modifies this, item, dataCache
      ensures r == if sends then Ok(()) else Err(SocketError)
      ensures totalSend == old(totalSend) + if sends then 1 else 0
      ensures dataCache != null ==> item.touchTime == now
      ensures dataCache != null ==>
        dataCache.cache == if sends then old(dataCache.cache)[item.tag := item] else old(dataCache.cache) - {item.tag}
    {
      if dataCache == null {
        if !sends {
          return Err(SocketError);
        }
        totalSend := totalSend + 1;
        return Ok(());
      }
      item.Touch(now);
      var added := dataCache.Add(item.tag, item);
      var found := dataCache.Get(item.tag);
      assert found == Ok(item);
      if !sends {
        var n := dataCache.Erase(item.tag);
        return Err(SocketError);
      }
      totalSend := totalSend + 1;
      return Ok(());
    }
  }

  class DataSender {
    const dataCache: ConcurrentMap?<LogItem>
    const incomingQueue: ConcurrentQueue<LogItem>
    var stopSender: bool
    var numSend: nat
    var numSuccess: nat

    constructor (cache: ConcurrentMap?<LogItem>, queue: ConcurrentQueue<LogItem>)
      ensures dataCache == cache && incomingQueue == queue && !stopSender && numSend == 0 && numSuccess == 0
    {
      dataCache, incomingQueue, stopSender := cache, queue, false;
      numSend, numSuccess := 0, 0;
    }

    method Send(sends: bool)
      modifies this`numSend, this`numSuccess
      ensures numSend == old(numSend) + 1 && numSuccess == old(numSuccess) + if sends then 1 else 0
    {
      numSend := numSend + 1;
      if sends {
        numSuccess := numSuccess + 1;
      }
    }

    /** One item of the loop of `Run`; undisturbed, no `Get` throws, but `GetData` may. */
    method Handle(item: LogItem, now: nat, out: B.Outcome)
      modifies this`numSend, this`numSuccess, item, dataCache
      ensures numSend == old(numSend) + if out == B.DataThrows then 0 else 1
      ensures numSuccess == old(numSuccess) + if out == B.Sends then 1 else 0
      ensures dataCache == null ==> item.touchTime == old(item.touchTime)
      ensures dataCache != null ==> item.touchTime == now && dataCache.cache == old(dataCache.cache)[item.tag := item]
    {
      if dataCache != null {
        item.Touch(now);
        var added := dataCache.Add(item.tag, item);
        var found := dataCache.Get(item.tag);
        assert found == Ok(item);
      }
      if out != B.DataThrows {
        Send(out == B.Sends);
      }
    }

    /** One turn of the loop of `Run` that finds an item. */
    method PopAndHandle(now: nat, out: B.Outcome)
      requires incomingQueue.Valid() && incomingQueue.dataQueue != []
      modifies this`numSend, this`numSuccess, incomingQueue, incomingQueue.dataQueue, dataCache
      ensures incomingQueue.Valid() && incomingQueue.stopOnceEmpty == old(incomingQueue.stopOnceEmpty)
      ensures incomingQueue.dataQueue == old(incomingQueue.dataQueue)[1..]
      ensures numSend == old(numSend) + if out == B.DataThrows then 0 else 1
      ensures numSuccess == old(numSuccess) + if out == B.Sends then 1 else 0
      ensures dataCache != null ==>
        var item := old(incomingQueue.dataQueue[0]);
        dataCache.cache == old(dataCache.cache)[item.tag := item]
    {
      var popped := incomingQueue.WaitAndPop();
      Handle(popped.value, now, out);
    }

    /** The cache after `items` have been added, in order, each under its own tag. */
    static function Cached(m: map<string, LogItem>, items: seq<LogItem>): map<string, LogItem> {
      if items == [] then m else Cached(m, items[..|items| - 1])[items[|items| - 1].tag := items[|items| - 1]]
    }

    static lemma CachedNext(m: map<string, LogItem>, items: seq<LogItem>, i: nat)
      requires i < |items|
      ensures Cached(m, items[..i + 1]) == Cached(m, items[..i])[items[i].tag := items[i]]
    {
      assert items[..i + 1][..i] == items[..i];
    }

    /** Undisturbed after `stop_once_empty`, `Run` takes items until the queue is empty or a
        `GetData` throws, attempts each but that one once, and leaves all it took cached, the later
        of two with the same tag winning; a stopped sender touches nothing. */
    method Run(now: nat, outcomes: seq<B.Outcome>)
      requires incomingQueue.Valid() && incomingQueue.stopOnceEmpty
      requires |outcomes| >= |incomingQueue.dataQueue|
      modifies this`numSend, this`numSuccess, incomingQueue, incomingQueue.dataQueue, dataCache
      ensures incomingQueue.Valid() && incomingQueue.stopOnceEmpty
      ensures stopSender ==> numSend == old(numSend) && numSuccess == old(numSuccess)
      ensures stopSender ==> incomingQueue.dataQueue == old(incomingQueue.dataQueue)
      ensures stopSender && dataCache != null ==> dataCache.cache == old(dataCache.cache)
      ensures !stopSender ==>
        var items := old(incomingQueue.dataQueue);
        incomingQueue.dataQueue == items[Taken(outcomes, |items|)..]
      ensures !stopSender ==>
        var k := BeforeThrow(outcomes, |old(incomingQueue.dataQueue)|);
        numSend == old(numSend) + k && numSuccess == old(numSuccess) + Sent(outcomes, k)
      ensures !stopSender && dataCache != null ==>
        var items := old(incomingQueue.dataQueue);
        dataCache.cache == Cached(old(dataCache.cache), items[..Taken(outcomes, |items|)])
    {
      if !stopSender {
        ghost var taken, attempted := RunUnstopped(now, outcomes);
      }
    }

    /** The loop of `Run`, which nobody stops. */
    method RunUnstopped(now: nat, outcomes: seq<B.Outcome>) returns (ghost taken: nat, ghost attempted: nat)
      requires incomingQueue.Valid() && incomingQueue.stopOnceEmpty && !stopSender
      requires |outcomes| >= |incomingQueue.dataQueue|
      modifies this`numSend, this`numSuccess, incomingQueue, incomingQueue.dataQueue, dataCache
      ensures incomingQueue.Valid() && incomingQueue.stopOnceEmpty
      ensures TakenSoFar(outcomes, |old(incomingQueue.dataQueue)|, taken, attempted, false)
      ensures incomingQueue.dataQueue == old(incomingQueue.dataQueue)[taken..]
      ensures numSend == old(numSend) + attempted && numSuccess == old(numSuccess) + Sent(outcomes, attempted)
      ensures dataCache != null ==>
        dataCache.cache == Cached(old(dataCache.cache), old(incomingQueue.dataQueue)[..taken])
    {
      ghost var items := incomingQueue.dataQueue;
      ghost var before := if dataCache == null then map[] else dataCache.cache;
      var i, running := 0, true;
      attempted := 0;
      while running
        invariant TakenSoFar(outcomes, |items|, i, attempted, running)
        invariant incomingQueue.Valid() && incomingQueue.stopOnceEmpty && incomingQueue.dataQueue == items[i..]
        invariant numSend == old(numSend) + attempted && numSuccess == old(numSuccess) + Sent(outcomes, attempted)
        invariant dataCache != null ==> dataCache.cache == Cached(before, items[..i])
        decreases running, |items| - i
      {
        if incomingQueue.dataQueue == [] {
          var none := incomingQueue.WaitAndPop();
          running := false;
        } else {
          CachedNext(before, items, i);
          PopAndHandle(now, outcomes[i]);
          running := outcomes[i] != B.DataThrows;
          TakeOne(outcomes, |items|, i);
          attempted := if running then i + 1 else i;
          i := i + 1;
        }
      }
      taken := i;
    }
  }

  class BufferedLogger {
    const dataCache: ConcurrentMap?<LogItem>
    const incomingQueue: ConcurrentQueue<LogItem>
    const dataSender: DataSender
    const dataResender: DataResender?

    ghost predicate Valid()
      reads this, incomingQueue
    {
      && incomingQueue.Valid()
      && dataSender.incomingQueue == incomingQueue && dataSender.dataCache == dataCache
      && (dataResender != null <==> dataCache != null)
      && (dataResender != null ==> dataResender.dataCache == dataCache)
    }

    /** A zero `ackTimeoutMS` means neither cache nor resender. */
    constructor (ackTimeoutMS: nat, bufferLimit: nat)
      ensures Valid() && fresh(incomingQueue) && fresh(dataSender)
      ensures incomingQueue.dataQueue == [] && incomingQueue.maxSize == bufferLimit && !incomingQueue.stopOnceEmpty
      ensures !dataSender.stopSender && dataSender.numSend == 0
      ensures dataCache == null <==> ackTimeoutMS == 0
      ensures dataCache != null ==> fresh(dataCache) && dataCache.cache == map[]
    {
      var cache: ConcurrentMap?<LogItem> := null;
      var resender: DataResender? := null;
      if ackTimeoutMS != 0 {
        var c := new ConcurrentMap<LogItem>();
        cache := c;
        resender := new DataResender(c, ackTimeoutMS);
      }
      var queue := new ConcurrentQueue<LogItem>(bufferLimit);
      dataCache, dataResender, incomingQueue := cache, resender, queue;
      dataSender := new DataSender(cache, queue);
    }

    /** A null item is refused; a real one always gets in, if need be in the oldest one's place. */
    method AddData(item: LogItem?) returns (r: Result<()>)
      requires Valid()
      modifies incomingQueue
      ensures Valid() && incomingQueue.stopOnceEmpty == old(incomingQueue.stopOnceEmpty)
      ensures item == null ==> r == Err(InvalidArgument) && incomingQueue.State() == old(incomingQueue.State())
      ensures item != null ==>
        r == Ok(()) && incomingQueue.State() == Push(old(incomingQueue.State()), incomingQueue.maxSize, item)
    {
      if item == null {
        return Err(InvalidArgument);
      }
      incomingQueue.PushItem(item);
      return Ok(());
    }

    /** Returns whether the sender `finishes` before the timeout.  If it does, it has taken
        everything queued, up to an item whose `GetData` throws. */
    method WaitUntilAllSend(now: nat, outcomes: seq<B.Outcome>, finishes: bool) returns (ready: bool)
      requires Valid() && !dataSender.stopSender && |outcomes| >= |incomingQueue.dataQueue|
      modifies dataSender`numSend, dataSender`numSuccess, incomingQueue, incomingQueue.dataQueue, dataCache
      ensures Valid() && incomingQueue.stopOnceEmpty && ready == finishes
      ensures !ready ==> incomingQueue.State() == old(incomingQueue.State())
      ensures ready ==>
        var items := old(incomingQueue.dataQueue);
        incomingQueue.dataQueue == items[Taken(outcomes, |items|)..]
      ensures ready ==>
        dataSender.numSend == old(dataSender.numSend) + BeforeThrow(outcomes, |old(incomingQueue.dataQueue)|)
      ensures ready && dataCache != null ==>
        var items := old(incomingQueue.dataQueue);
        dataCache.cache == DataSender.Cached(old(dataCache.cache), items[..Taken(outcomes, |items|)])
    {
      incomingQueue.StopOnceEmpty();
      if finishes {
        dataSender.Run(now, outcomes);
      }
      return finishes;
    }

    method GetTotalSend() returns (n: nat)
      ensures n == dataSender.numSend + if dataResender != null then dataResender.totalSend else 0
    {
      n := dataSender.numSend;
      if dataResender != null {
        n := n + dataResender.totalSend;
      }
    }
  }
}
