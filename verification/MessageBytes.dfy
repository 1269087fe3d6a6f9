/** Where the bytes of each message go.  Whatever happens to descriptors meanwhile, a message whose
    send returned normally has all its bytes out, each once and in order. */
module MessageBytes {
  import opened Text
  import opened SocketClient
  import opened SocketClientProofs

  /** The bytes of `m` on one descriptor's stream, in the order they were accepted. */
  function OnStream(w: seq<Part>, m: Message): string {
    if w == [] then "" else OnStream(w[..|w| - 1], m) + PartOf(w[|w| - 1], m)
  }

  function PartOf(p: Part, m: Message): string {
    if p.msg == m && p.from <= p.upto <= |m.text| then m.text[p.from..p.upto] else ""
  }

  /** The bytes of `m` on all streams, descriptor after descriptor. */
  function OnWire(wire: seq<seq<Part>>, m: Message): string {
    if wire == [] then "" else OnWire(wire[..|wire| - 1], m) + OnStream(wire[|wire| - 1], m)
  }

  function InThen(k: Then): Option<Message> {
    if k.GoOnSending? then Some(k.m) else None
  }

  /** The message a thread at `pc` is sending or about to send. */
  function Carrying(pc: Pc): Option<Message> {
    if InOperation(pc) == Sending then Some(pc.m)
    else if InConnect(pc) || InOperation(pc) == Closing then InThen(pc.k)
    else None
  }

  /** How many of its bytes are out. */
  function Out(pc: Pc): nat {
    if pc.HoldsSend() then pc.sent else 0
  }

  // ----- the invariant

  ghost predicate ThreadOk(s: State, t: Thread) {
    Carrying(s.At(t)).Some? ==> MessageOk(s, Carrying(s.At(t)).value, Out(s.At(t)))
  }

  ghost predicate MessageOk(s: State, m: Message, out: nat) {
    && m.id < s.nextId && m !in s.returned
    && out <= |m.text| && OnWire(s.wire, m) == m.text[..out]
  }

  ghost predicate NotBoth(s: State, t: Thread, u: Thread) {
    t != u && Carrying(s.At(t)).Some? ==> Carrying(s.At(t)) != Carrying(s.At(u))
  }

  ghost predicate BytesInv(s: State) {
    && (s.sockfd.Some? ==> s.sockfd.value == |s.wire| - 1)
    && (forall t: Thread :: ThreadOk(s, t))
    && (forall t: Thread, u: Thread :: NotBoth(s, t, u))
    && (forall m: Message :: m.id >= s.nextId ==> OnWire(s.wire, m) == "")
    && (forall m <- s.returned :: m.id < s.nextId && OnWire(s.wire, m) == m.text)
  }

  /** A move that sends nothing: it keeps its message where it is, or lets go of it. */
  ghost predicate Quiet(s: State, pc: Pc, data: State, next: Pc) {
    && data.pcs == s.pcs && data.nextId == s.nextId && data.returned == s.returned
    && (data.wire == s.wire || data.wire == s.wire + [[]])
    && (data.sockfd.Some? ==> data.sockfd == Some(|data.wire| - 1) || (data.sockfd == s.sockfd && data.wire == s.wire))
    && (Carrying(next) == None || (Carrying(next) == Carrying(pc) && Out(next) == Out(pc)))
  }

  lemma SameOnWire(s: State, data: State)
    requires data.wire == s.wire || data.wire == s.wire + [[]]
    ensures forall m: Message :: OnWire(data.wire, m) == OnWire(s.wire, m)
  {
    if data.wire != s.wire {
      assert data.wire[..|s.wire|] == s.wire;
      forall m: Message ensures OnWire(data.wire, m) == OnWire(s.wire, m) {
        assert OnStream([], m) == "";
      }
    }
  }

  lemma QuietThread(s: State, t: Thread, data: State, next: Pc, u: Thread)
    requires BytesInv(s) && Quiet(s, s.At(t), data, next)
    ensures ThreadOk(data.Go(t, next), u)
  {
    SameOnWire(s, data);
    OnlyMoverMoves(s, t, data, next, u);
    assert ThreadOk(s, u);
  }

  lemma QuietPair(s: State, t: Thread, data: State, next: Pc, u: Thread, v: Thread)
    requires NotBoth(s, u, v) && data.pcs == s.pcs
    requires Carrying(next) == None || Carrying(next) == Carrying(s.At(t))
    ensures NotBoth(data.Go(t, next), u, v)
  {
    OnlyMoverMoves(s, t, data, next, u);
    OnlyMoverMoves(s, t, data, next, v);
  }

  lemma QuietKeepsBytes(s: State, t: Thread, data: State, next: Pc)
    requires BytesInv(s) && Quiet(s, s.At(t), data, next)
    ensures BytesInv(data.Go(t, next))
  {
    SameOnWire(s, data);
    forall u: Thread ensures ThreadOk(data.Go(t, next), u) {
      QuietThread(s, t, data, next, u);
    }
    forall u: Thread, v: Thread ensures NotBoth(data.Go(t, next), u, v) {
      QuietPair(s, t, data, next, u, v);
    }
  }

  // ----- the moves

  lemma ConnectCarries(s: State, pc: Pc, out: Outcome)
    requires InOperation(pc) == Connecting
    ensures var next := ConnectStep(s, pc, out).1;
      Carrying(next) == Carrying(pc) && Out(next) == Out(pc) == 0
  {
  }

  lemma ConnectIsQuiet(s: State, pc: Pc, out: Outcome)
    requires InOperation(pc) == Connecting
    ensures var (data, next) := ConnectStep(s, pc, out); Quiet(s, pc, data, next)
  {
    ConnectCarries(s, pc, out);
  }

  lemma CloseIsQuiet(s: State, pc: Pc)
    requires InOperation(pc) == Closing
    ensures var (data, next) := CloseStep(s, pc); Quiet(s, pc, data, next)
  {
  }

  lemma StopIsQuiet(s: State, pc: Pc)
    requires InOperation(pc) == Stopping
    ensures var (data, next) := StopStep(s, pc); Quiet(s, pc, data, next)
  {
  }

  lemma ReadIsQuiet(s: State, pc: Pc, out: Outcome)
    requires InOperation(pc) == Reading
    ensures var (data, next) := ReadStep(s, pc, out); Quiet(s, pc, data, next)
  {
  }

  /** The move in which `send()` takes bytes. */
  predicate Accepting(s: State, pc: Pc, out: Outcome) {
    pc.SendWrite? && out.Accepts? && s.sockfd.Some? && CanAccept(s, s.sockfd.value, pc.m, pc.sent, out.n)
  }

  /** The move in which `SendData` returns with everything out. */
  predicate Finishing(s: State, pc: Pc) {
    pc.SendLoop? && !s.stop && pc.sent == |pc.m.text|
  }

  lemma SendIsQuiet(s: State, pc: Pc, out: Outcome)
    requires InOperation(pc) == Sending && !Accepting(s, pc, out) && !Finishing(s, pc)
    ensures var (data, next) := SendStep(s, pc, out); Quiet(s, pc, data, next)
  {
  }

  lemma MoveIsQuiet(s: State, pc: Pc, out: Outcome)
    requires !Accepting(s, pc, out) && !Finishing(s, pc)
    ensures var (data, next) := MoveStep(s, pc, out); Quiet(s, pc, data, next)
  {
    match InOperation(pc)
    case Connecting => ConnectIsQuiet(s, pc, out);
    case Closing => CloseIsQuiet(s, pc);
    case Stopping => StopIsQuiet(s, pc);
    case Sending => SendIsQuiet(s, pc, out);
    case Reading => ReadIsQuiet(s, pc, out);
  }

  /** Accepted bytes are added to the message's own, and to no other's. */
  lemma AcceptedOnStream(w: seq<Part>, m: Message, sent: nat, n: nat, more: bool, x: Message)
    requires sent + n <= |m.text| && (more && w != [] ==> Last(w) == Part(m, 0, sent))
    ensures OnStream(Accepted(w, m, sent, n, more), x) ==
      OnStream(w, x) + if x == m then m.text[sent..sent + n] else ""
  {
    var a := Accepted(w, m, sent, n, more);
    if more && w != [] {
      assert a[..|a| - 1] == w[..|w| - 1];
      assert m.text[0..sent + n] == m.text[0..sent] + m.text[sent..sent + n];
    } else {
      assert a[..|a| - 1] == w;
    }
  }

  lemma LastStream(wire: seq<seq<Part>>, w: seq<Part>, x: Message)
    requires wire != []
    ensures OnWire(wire[|wire| - 1 := w], x) == OnWire(wire[..|wire| - 1], x) + OnStream(w, x)
  {
    assert wire[|wire| - 1 := w][..|wire| - 1] == wire[..|wire| - 1];
  }

  lemma WrittenOnWire(s: State, fd: Fd, m: Message, sent: nat, on: Fd, n: nat, x: Message)
    requires fd == |s.wire| - 1 && sent + n <= |m.text|
    requires sent > 0 && fd == on && s.wire[fd] != [] ==> Last(s.wire[fd]) == Part(m, 0, sent)
    ensures OnWire(Write(s, fd, m, sent, on, n).wire, x) ==
      OnWire(s.wire, x) + if x == m then m.text[sent..sent + n] else ""
  {
    var more := sent > 0 && fd == on;
    AcceptedOnStream(s.wire[fd], m, sent, n, more, x);
    LastStream(s.wire, Accepted(s.wire[fd], m, sent, n, more), x);
    Assoc(OnWire(s.wire[..fd], x), OnStream(s.wire[fd], x), if x == m then m.text[sent..sent + n] else "");
  }

  /** The write of a thread at `pc` as it stands, on the current and last descriptor. */
  lemma WrittenHere(s: State, pc: Pc, n: nat, x: Message)
    requires pc.SendWrite? && s.sockfd.Some? && s.sockfd.value == |s.wire| - 1 && s.sockfd.value !in s.closes
    requires Progress(s, pc) && pc.sent + n <= |pc.m.text|
    ensures OnWire(Write(s, s.sockfd.value, pc.m, pc.sent, pc.on, n).wire, x) ==
      OnWire(s.wire, x) + if x == pc.m then pc.m.text[pc.sent..pc.sent + n] else ""
  {
    WrittenOnWire(s, s.sockfd.value, pc.m, pc.sent, pc.on, n, x);
  }

  lemma WriterAfter(s: State, pc: Pc, n: nat, data: State)
    requires pc.SendWrite? && pc.sent + n <= |pc.m.text| && MessageOk(s, pc.m, pc.sent)
    requires OnWire(data.wire, pc.m) == OnWire(s.wire, pc.m) + pc.m.text[pc.sent..pc.sent + n]
    requires data.nextId == s.nextId && data.returned == s.returned
    ensures MessageOk(data, pc.m, pc.sent + n)
  {
    Extend(pc.m.text, pc.sent, n);
  }

  lemma Extend(s: string, a: nat, n: nat)
    requires a + n <= |s|
    ensures s[..a] + s[a..a + n] == s[..a + n]
  {
  }

  ghost predicate CanWrite(s: State, t: Thread, n: nat) {
    && s.At(t).SendWrite? && s.sockfd.Some? && s.sockfd.value !in s.closes
    && s.At(t).sent + n <= |s.At(t).m.text| && Progress(s, s.At(t))
  }

  lemma WriterThread(s: State, t: Thread, n: nat, data: State, next: Pc)
    requires BytesInv(s) && CanWrite(s, t, n)
    requires data == Write(s, s.sockfd.value, s.At(t).m, s.At(t).sent, s.At(t).on, n)
    requires next.SendLoop? && next.m == s.At(t).m && next.sent == s.At(t).sent + n
    ensures ThreadOk(data.Go(t, next), t)
  {
    var pc := s.At(t);
    assert ThreadOk(s, t);
    OnlyMoverMoves(s, t, data, next, t);
    WrittenHere(s, pc, n, pc.m);
    WriterAfter(s, pc, n, data);
  }

  lemma OtherThread(s: State, t: Thread, n: nat, data: State, next: Pc, u: Thread)
    requires BytesInv(s) && CanWrite(s, t, n) && u != t
    requires data == Write(s, s.sockfd.value, s.At(t).m, s.At(t).sent, s.At(t).on, n)
    ensures ThreadOk(data.Go(t, next), u)
  {
    assert ThreadOk(s, u) && NotBoth(s, u, t);
    OnlyMoverMoves(s, t, data, next, u);
    if Carrying(s.At(u)).Some? {
      WrittenHere(s, s.At(t), n, Carrying(s.At(u)).value);
    }
  }

  lemma WriteKeepsBytes(s: State, t: Thread, n: nat, data: State, next: Pc)
    requires BytesInv(s) && CanWrite(s, t, n)
    requires data == Write(s, s.sockfd.value, s.At(t).m, s.At(t).sent, s.At(t).on, n)
    requires next.SendLoop? && next.m == s.At(t).m && next.sent == s.At(t).sent + n
    ensures BytesInv(data.Go(t, next))
  {
    assert ThreadOk(s, t);
    forall u: Thread ensures ThreadOk(data.Go(t, next), u) {
      if u == t {
        WriterThread(s, t, n, data, next);
      } else {
        OtherThread(s, t, n, data, next, u);
      }
    }
    forall u: Thread, v: Thread ensures NotBoth(data.Go(t, next), u, v) {
      QuietPair(s, t, data, next, u, v);
    }
    forall m: Message | m.id >= s.nextId || m in s.returned ensures OnWire(data.wire, m) == OnWire(s.wire, m) {
      WrittenHere(s, s.At(t), n, m);
      assert m != s.At(t).m;
    }
  }

  lemma FinishThread(s: State, t: Thread, u: Thread)
    requires BytesInv(s) && Finishing(s, s.At(t))
    ensures ThreadOk(Step(s, Move(t, Fine)), u)
  {
    assert ThreadOk(s, t) && ThreadOk(s, u) && NotBoth(s, u, t);
    var (data, next) := SendStep(s, s.At(t), Fine);
    OnlyMoverMoves(s, t, data, next, u);
  }

  lemma FinishKeepsBytes(s: State, t: Thread, out: Outcome)
    requires BytesInv(s) && Finishing(s, s.At(t))
    ensures BytesInv(Step(s, Move(t, out)))
  {
    var s' := Step(s, Move(t, out));
    assert ThreadOk(s, t);
    var (data, next) := SendStep(s, s.At(t), Fine);
    forall u: Thread ensures ThreadOk(s', u) {
      FinishThread(s, t, u);
    }
    forall u: Thread, v: Thread ensures NotBoth(s', u, v) {
      QuietPair(s, t, data, next, u, v);
    }
  }

  lemma MoveKeepsBytes(s: State, t: Thread, out: Outcome)
    requires Inv(s) && BytesInv(s)
    ensures BytesInv(Step(s, Move(t, out)))
  {
    var pc := s.At(t);
    if Accepting(s, pc, out) {
      assert LocksOf(s, t);
      var (data, next) := WriteStep(s, pc, out);
      WriteKeepsBytes(s, t, out.n, data, next);
    } else if Finishing(s, pc) {
      FinishKeepsBytes(s, t, out);
    } else {
      var (data, next) := MoveStep(s, pc, out);
      MoveIsQuiet(s, pc, out);
      QuietKeepsBytes(s, t, data, next);
    }
  }

  lemma BeginKeepsBytes(s: State, t: Thread, call: Call)
    requires BytesInv(s)
    ensures BytesInv(Step(s, Begin(t, call)))
  {
    if s.At(t) == Idle {
      var s' := Step(s, Begin(t, call));
      var (data, next) := BeginStep(s, call);
      BeginTouchesNothing(s, call);
      forall u: Thread ensures ThreadOk(s', u) {
        BeginThread(s, t, call, u);
      }
      forall u: Thread, v: Thread ensures NotBoth(s', u, v) {
        BeginPair(s, t, call, u, v);
      }
    }
  }

  lemma BeginCarries(s: State, call: Call)
    ensures var (data, next) := BeginStep(s, call);
      && data == s.(nextId := data.nextId) && s.nextId <= data.nextId && Out(next) == 0
      && (Carrying(next).Some? ==> Carrying(next).value.id == s.nextId < data.nextId)
  {
  }

  lemma BeginThread(s: State, t: Thread, call: Call, u: Thread)
    requires BytesInv(s) && s.At(t) == Idle
    ensures ThreadOk(Step(s, Begin(t, call)), u)
  {
    var (data, next) := BeginStep(s, call);
    BeginCarries(s, call);
    OnlyMoverMoves(s, t, data, next, u);
    assert ThreadOk(s, u);
  }

  lemma BeginPair(s: State, t: Thread, call: Call, u: Thread, v: Thread)
    requires BytesInv(s) && s.At(t) == Idle
    ensures NotBoth(Step(s, Begin(t, call)), u, v)
  {
    var (data, next) := BeginStep(s, call);
    BeginCarries(s, call);
    OnlyMoverMoves(s, t, data, next, u);
    OnlyMoverMoves(s, t, data, next, v);
    assert ThreadOk(s, u) && ThreadOk(s, v) && NotBoth(s, u, v);
  }

  lemma {:induction false} RunKeepsBytes(actions: seq<Action>)
    ensures Inv(Run(actions)) && BytesInv(Run(actions))
    decreases |actions|
  {
    InitInv();
    RunKeepsInv(Init(), actions);
    if actions != [] {
      var before, last := actions[..|actions| - 1], actions[|actions| - 1];
      RunKeepsBytes(before);
      match last
      case Begin(t, call) => BeginKeepsBytes(Run(before), t, call);
      case Move(t, out) => MoveKeepsBytes(Run(before), t, out);
    }
  }

  // ----- the theorem

  /** Every message whose `SendData` returned normally while the client was not stopped has all its
      bytes out, each once and in order, taking the descriptors one after the other; no matter how
      many partial sends it took and how often its descriptor was replaced meanwhile. */
  lemma AllBytesGoOut(actions: seq<Action>, m: Message)
    requires m in Run(actions).returned
    ensures OnWire(Run(actions).wire, m) == m.text
  {
    RunKeepsBytes(actions);
  }

  lemma PrefixIsOut(s: State, t: Thread)
    requires BytesInv(s) && s.At(t).HoldsSend()
    ensures s.At(t).sent <= |s.At(t).m.text| && OnWire(s.wire, s.At(t).m) == s.At(t).m.text[..s.At(t).sent]
  {
    assert ThreadOk(s, t);
  }

  /** And no byte twice, whatever becomes of the send: at any time the bytes of a message in
      progress that are out are the first ones, in order. */
  lemma InProgressIsPrefix(actions: seq<Action>, t: Thread)
    requires Run(actions).At(t).HoldsSend()
    ensures var s := Run(actions);
      s.At(t).sent <= |s.At(t).m.text| && OnWire(s.wire, s.At(t).m) == s.At(t).m.text[..s.At(t).sent]
  {
    RunKeepsBytes(actions);
    PrefixIsOut(Run(actions), t);
  }
}
