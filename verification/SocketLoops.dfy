/** The sequential loops of src/outmdsd/SocketClient.cc: connect with backoff, the sliced sleep,
    and the partial-send loop.  What the system does is passed in. */
module SocketLoops {
  import opened Text
  import opened Clock

  const MIN_DELAY: nat := 100
  const MAX_DELAY: nat := 60000

  // ----- C++ arithmetic

  function Min(a: int, b: int): int {
    if a <= b then a else b
  }

  /** `/` and `%` truncate toward zero. */
  function Quotient(a: int, b: nat): int
    requires b > 0
  {
    if a >= 0 then a / b else -((-a) / b)
  }

  function Remainder(a: int, b: nat): int
    requires b > 0
  {
    a - Quotient(a, b) * b
  }

  /** `static_cast<int>` of a floating-point value. */
  function Truncate(x: real): int {
    if x >= 0.0 then x.Floor else -(-x).Floor
  }

  /** Conversion of an unsigned value to `int`. */
  function AsInt(n: int): int {
    var m := n % INT_RANGE;
    if m <= INT_MAX then m else m - INT_RANGE
  }

  /** `1 << k`. */
  function Shift(k: nat): nat {
    if k == 0 then 1 else 2 * Shift(k - 1)
  }

  lemma {:induction false} ShiftMonotone(k: nat, n: nat)
    requires k <= n
    ensures 1 <= Shift(k) <= Shift(n)
    decreases n
  {
    if k < n {
      ShiftMonotone(k, n - 1);
    } else if k > 0 {
      ShiftMonotone(k - 1, n - 1);
    }
  }

  /** The exponential step before capping. */
  function Step(numConnect: nat): nat {
    MIN_DELAY * Shift(numConnect % 10)
  }

  lemma StepBound(numConnect: nat)
    ensures 100 <= Step(numConnect) <= 51200
  {
    ShiftMonotone(numConnect % 10, 9);
    assert Shift(9) == 512;
  }

  /** The step starts at the least delay and doubles with each attempt, up to the tenth. */
  lemma StepDoubles(numConnect: nat)
    ensures numConnect % 10 == 0 ==> Step(numConnect) == MIN_DELAY
    ensures numConnect % 10 < 9 ==> Step(numConnect + 1) == 2 * Step(numConnect)
  {
    if numConnect % 10 < 9 {
      assert (numConnect + 1) % 10 == numConnect % 10 + 1;
    }
  }

  lemma Scale(a: real, b: real, c: real)
    requires 0.0 <= a && b <= c
    ensures a * b <= a * c
  {
  }

  lemma ScaleBound(d: nat, factor: real)
    requires 0.75 <= factor < 1.25
    ensures 0 <= 4 * Scaled(d, factor) <= 5 * d
  {
    Scale(d as real, 0.0, factor);
    Scale(d as real, factor, 1.25);
  }

  lemma NegativeScale(d: int, factor: real)
    requires d <= 0 && 0.75 <= factor
    ensures Scaled(d, factor) <= 0
  {
    Scale(-d as real, 0.0, factor);
    assert d as real * factor == -(-d as real * factor);
  }

  /** What is scaled by the random factor. */
  function Capped(numConnect: nat, maxWait: int): int {
    Min(Step(numConnect), Min(MAX_DELAY, maxWait))
  }

  function Scaled(d: int, factor: real): int {
    Truncate(d as real * factor)
  }

  function Delay(numConnect: nat, maxWait: int, factor: real): int {
    Scaled(Capped(numConnect, maxWait), factor)
  }

  lemma CapBound(numConnect: nat, maxWait: int)
    ensures maxWait >= 0 ==> 0 <= Capped(numConnect, maxWait) <= Min(maxWait, 51200)
    ensures maxWait <= 0 ==> Capped(numConnect, maxWait) == maxWait
  {
    StepBound(numConnect);
  }

  /** A delay is at most 1.25 times what is left to wait; a negative bound, which a timeout above
      the largest `int` produces, gives no delay at all. */
  lemma DelayBound(numConnect: nat, maxWait: int, factor: real)
    requires 0.75 <= factor < 1.25
    ensures maxWait >= 0 ==> 0 <= 4 * Delay(numConnect, maxWait, factor) <= 5 * Min(maxWait, 51200)
    ensures maxWait <= 0 ==> Delay(numConnect, maxWait, factor) <= 0
  {
    CapBound(numConnect, maxWait);
    if maxWait >= 0 {
      ScaleBound(Capped(numConnect, maxWait), factor);
    } else {
      NegativeScale(maxWait, factor);
    }
  }

  lemma ScaledIsNotShort(d: nat, factor: real)
    requires 0.75 <= factor < 1.25
    ensures 4 * (Scaled(d, factor) + 1) > 3 * d
  {
    Scale(d as real, 0.75, factor);
    FloorIsClose(d, d as real * factor);
  }

  /** And at least 0.75 times the step or what is left to wait, whichever is less, but for the
      rounding to whole milliseconds. */
  lemma DelayIsNotShort(numConnect: nat, maxWait: int, factor: real)
    requires 0.75 <= factor < 1.25 && maxWait >= 0
    ensures 4 * (Delay(numConnect, maxWait, factor) + 1) > 3 * Min(Step(numConnect), maxWait)
  {
    StepBound(numConnect);
    ScaledIsNotShort(Capped(numConnect, maxWait), factor);
  }

  lemma FloorIsClose(cap: nat, x: real)
    requires cap as real * 0.75 <= x
    ensures 4 * (Truncate(x) + 1) > 3 * cap
  {
    var n := x.Floor + 1;
    assert x < n as real;
    assert (3 * cap) as real == 4.0 * (cap as real * 0.75) < 4.0 * (n as real) == (4 * n) as real;
  }

  lemma Slices(delay: int)
    ensures delay >= 0 ==> Quotient(delay, MIN_DELAY) * MIN_DELAY + Remainder(delay, MIN_DELAY) == delay
    ensures delay >= 0 ==> 0 <= Quotient(delay, MIN_DELAY) && 0 <= Remainder(delay, MIN_DELAY) < MIN_DELAY
    ensures delay <= 0 ==> Quotient(delay, MIN_DELAY) <= 0 && Remainder(delay, MIN_DELAY) <= 0
  {
  }

  /** The elapsed time in milliseconds as an `unsigned int`. */
  function Runtime(clock: nat): nat {
    clock / NS_PER_MS % INT_RANGE
  }

  lemma NoWrap(clock: nat)
    requires clock < INT_RANGE * NS_PER_MS
    ensures Runtime(clock) * NS_PER_MS <= clock < (Runtime(clock) + 1) * NS_PER_MS
  {
    var ms := clock / NS_PER_MS;
    assert ms * NS_PER_MS <= clock < (ms + 1) * NS_PER_MS;
    SmallModulo(ms);
  }

  lemma SmallModulo(n: nat)
    requires n < INT_RANGE
    ensures n % INT_RANGE == n
  {
  }

  /** Sleeping at most 1.25 times what is left of the timeout keeps the total within 1.25 times it. */
  lemma BudgetKept(timeout: nat, clock: nat, slept: nat, more: nat)
    requires timeout <= INT_MAX && clock < INT_RANGE * NS_PER_MS && slept * NS_PER_MS <= clock
    requires Runtime(clock) < timeout && 4 * more <= 5 * AsInt(timeout - Runtime(clock))
    ensures 4 * (slept + more) <= 5 * timeout
  {
    NoWrap(clock);
    var runtime := Runtime(clock);
    assert slept <= runtime;
    SmallModulo(timeout - runtime);
  }

  function Sum(s: seq<int>): int {
    if s == [] then 0 else Sum(s[..|s| - 1]) + s[|s| - 1]
  }

  lemma SleepBound(sleeps: seq<int>, numConnect: nat, maxWait: int, factor: real)
    requires 0.75 <= factor < 1.25 && 0 <= Sum(sleeps)
    requires var delay := Delay(numConnect, maxWait, factor); if delay <= 0 then sleeps == [] else Sum(sleeps) <= delay
    ensures 4 * Sum(sleeps) <= 5 * 51200 && (maxWait >= 0 ==> 4 * Sum(sleeps) <= 5 * maxWait)
  {
    DelayBound(numConnect, maxWait, factor);
  }

  // ----- the loops

  /** One turn of the connect loop as the system plays it: whether `m_stopClient` is seen set at
      the test, the nanoseconds the attempt takes and whether it succeeds, the random factor, how
      many slices pass before the stop flag is seen, and the nanoseconds slept too long. */
  datatype Turn = Turn(stopped: bool, took: nat, succeeds: bool, factor: real, slices: nat, oversleep: nat) {
    predicate Failed() {
      !stopped && !succeeds
    }
  }

  /** One turn of the send loop as the system plays it: `poll` fails, `send` asks for a retry,
      fails for good, or takes some bytes, never more than it is given. */
  datatype Reply = PollFails | Retries | SendFails | Takes(n: nat)

  /** How many of the replies the loop uses to get `left` bytes out. */
  function TurnsNeeded(replies: seq<Reply>, left: nat): (n: nat)
    ensures n <= |replies|
  {
    if replies == [] || left == 0 then 0
    else
      1 + match replies[0]
          case Takes(n) => TurnsNeeded(replies[1..], if n <= left then left - n else 0)
          case _ => TurnsNeeded(replies[1..], left)
  }

  /** How many of `left` bytes go out before the replies run out or one of them is a failure. */
  function BytesTaken(replies: seq<Reply>, left: nat): (n: nat)
    ensures n <= left
  {
    if replies == [] || left == 0 then 0
    else
      match replies[0]
      case Takes(n) =>
        if n <= left then n + BytesTaken(replies[1..], left - n) else left
      case Retries => BytesTaken(replies[1..], left)
      case _ => 0
  }

  class SocketClient {
    const connRetryTimeoutMS: nat
    var numConnect: nat

    constructor (timeout: nat)
      ensures connRetryTimeoutMS == timeout && numConnect == 0
    {
      connRetryTimeoutMS, numConnect := timeout, 0;
    }

    /** The sleeps requested.  Unless the client is stopped they add up to the delay; a stop ends
        them within one slice. */
    method WaitBeforeReConnect(maxWaitMS: int, factor: real, slices: nat) returns (sleeps: seq<int>)
      requires 0.75 <= factor < 1.25
      ensures var delay := Delay(numConnect, maxWaitMS, factor);
        && (forall i :: 0 <= i < |sleeps| ==> 0 < sleeps[i] <= MIN_DELAY)
        && |sleeps| <= slices && 0 <= Sum(sleeps)
        && (if delay <= 0 then sleeps == []
            else Sum(sleeps) <= delay && (slices > |sleeps| ==> Sum(sleeps) == delay))
    {
      sleeps := SleepInSlices(Delay(numConnect, maxWaitMS, factor), slices);
    }

    method SleepInSlices(delay: int, slices: nat) returns (sleeps: seq<int>)
      ensures forall i :: 0 <= i < |sleeps| ==> 0 < sleeps[i] <= MIN_DELAY
      ensures |sleeps| <= slices && 0 <= Sum(sleeps)
      ensures if delay <= 0 then sleeps == []
              else Sum(sleeps) <= delay && (slices > |sleeps| ==> Sum(sleeps) == delay)
    {
      Slices(delay);
      var times := Quotient(delay, MIN_DELAY);
      sleeps := [];
      var i := 0;
      while i < times && i < slices
        invariant 0 <= i && |sleeps| == i <= slices && Sum(sleeps) == i * MIN_DELAY
        invariant i > 0 ==> i <= times
        invariant forall j :: 0 <= j < |sleeps| ==> sleeps[j] == MIN_DELAY
      {
        sleeps := sleeps + [MIN_DELAY];
        i := i + 1;
      }
      var left := Remainder(delay, MIN_DELAY);
      if i < slices && left > 0 {
        sleeps := sleeps + [left];
      }
    }

    /** The sleep requested by the time the clock was last read: at most 1.25 times the timeout, for
        every timeout an `int` can hold, unless the reading has wrapped. */
    predicate WithinBudget(slept: int, lastRead: nat) {
      0 < connRetryTimeoutMS <= INT_MAX && lastRead < INT_RANGE * NS_PER_MS ==> 4 * slept <= 5 * connRetryTimeoutMS
    }

    /** One `Connect` that finds no valid descriptor, over any sequence of attempts, of which it uses
        as many as it takes: it goes on until one succeeds, the client is stopped or the time is up.
        `lastRead` is the time since its start at the last reading of the clock. */
    method Connect(turns: seq<Turn>) returns (connected: bool, slept: int, lastRead: nat, used: nat)
      requires forall i :: 0 <= i < |turns| ==> 0.75 <= turns[i].factor < 1.25
      modifies this
      ensures 0 <= slept && WithinBudget(slept, lastRead)
      ensures used <= |turns| && forall i :: 0 <= i < used - 1 ==> turns[i].Failed()
      ensures connected <==> used > 0 && !turns[used - 1].stopped && turns[used - 1].succeeds
      ensures !connected && used < |turns| ==>
        used > 0 && (turns[used - 1].stopped || Runtime(lastRead) >= connRetryTimeoutMS)
      ensures numConnect == old(numConnect) + used - if used > 0 && turns[used - 1].stopped then 1 else 0
    {
      connected, slept, lastRead, used := false, 0, 0, 0;
      var clock := 0;
      var retry := true;
      while retry && used < |turns|
        invariant used <= |turns| && 0 <= slept && slept * NS_PER_MS <= clock && lastRead <= clock
        invariant forall i :: 0 <= i < (if retry then used else used - 1) ==> turns[i].Failed()
        invariant retry ==> numConnect == old(numConnect) + used && !connected
        invariant !retry ==> used > 0 && (connected <==> !turns[used - 1].stopped && turns[used - 1].succeeds)
        invariant !retry ==> connected || turns[used - 1].stopped || Runtime(lastRead) >= connRetryTimeoutMS
        invariant !retry ==> numConnect == old(numConnect) + used - if turns[used - 1].stopped then 1 else 0
        invariant WithinBudget(slept, lastRead)
        decreases |turns| - used
      {
        var turn := turns[used];
        used := used + 1;
        if turn.stopped {
          retry := false;
        } else {
          numConnect := numConnect + 1;
          clock := clock + turn.took;
          if turn.succeeds {
            connected, retry := true, false;
          } else {
            slept, clock, retry := AfterFailure(turn, slept, clock);
            lastRead := clock;
          }
        }
      }
    }

    /** The catch branch of the connect loop. */
    method AfterFailure(turn: Turn, slept0: int, clock0: nat) returns (slept: int, clock: nat, retry: bool)
      requires 0.75 <= turn.factor < 1.25 && 0 <= slept0 && slept0 * NS_PER_MS <= clock0
      requires WithinBudget(slept0, clock0)
      ensures slept0 <= slept && clock0 <= clock && slept * NS_PER_MS <= clock
      ensures WithinBudget(slept, clock) && (retry <==> Runtime(clock) < connRetryTimeoutMS)
    {
      slept, clock := slept0, clock0;
      var runtime := Runtime(clock);
      if runtime >= connRetryTimeoutMS {
        return slept, clock, false;
      }
      var maxWait := AsInt(connRetryTimeoutMS - runtime);
      var sleeps := WaitBeforeReConnect(maxWait, turn.factor, turn.slices);
      SleepBound(sleeps, numConnect, maxWait, turn.factor);
      slept := slept + Sum(sleeps);
      clock := clock + Sum(sleeps) * NS_PER_MS + turn.oversleep;
      retry := Runtime(clock) < connRetryTimeoutMS;
      if connRetryTimeoutMS <= INT_MAX && clock < INT_RANGE * NS_PER_MS {
        BudgetKept(connRetryTimeoutMS, clock0, slept0, Sum(sleeps));
      }
    }

    /** The partial-send loop.  `accepted` is what the socket has taken; the replies run out when
        `m_stopClient` is seen set.  What was taken is always a prefix of the buffer, and a normal
        return of a client that was not stopped means all of it. */
    method SendData(buf: string, valid: bool, replies: seq<Reply>)
      returns (r: Result<()>, accepted: string, stopped: bool)
      ensures accepted <= buf
      ensures r.Ok? && !stopped ==> accepted == buf
      ensures !valid ==> r == Err(SocketError) && accepted == ""
      ensures valid ==> |accepted| == BytesTaken(replies, |buf|)
      ensures stopped <==> r.Ok? && BytesTaken(replies, |buf|) < |buf|
      ensures r.Ok? <==>
        (valid && forall i :: 0 <= i < TurnsNeeded(replies, |buf|) ==> replies[i].Retries? || replies[i].Takes?)
    {
      if !valid {
        return Err(SocketError), "", false;
      }
      var total, bytesleft, i := 0, |buf|, 0;
      while i < |replies| && bytesleft > 0
        invariant 0 <= i <= |replies| && 0 <= total && total + bytesleft == |buf| && bytesleft >= 0
        invariant forall j :: 0 <= j < i ==> replies[j].Retries? || replies[j].Takes?
        invariant TurnsNeeded(replies, |buf|) == i + TurnsNeeded(replies[i..], bytesleft)
        invariant BytesTaken(replies, |buf|) == total + BytesTaken(replies[i..], bytesleft)
      {
        assert replies[i..][0] == replies[i] && replies[i..][1..] == replies[i + 1..];
        match replies[i] {
          case PollFails => return Err(SocketError), buf[..total], false;
          case SendFails => return Err(SocketError), buf[..total], false;
          case Retries =>
          case Takes(n) =>
            var rtn := if n <= bytesleft then n else bytesleft;
            total := total + rtn;
            bytesleft := bytesleft - rtn;
        }
        i := i + 1;
      }
      return Ok(()), buf[..total], bytesleft > 0;
    }
  }
}
