/** The peer's side of the protocol, as src/test/outmdsd/MockServer.cc plays it: scan the byte
    stream for message ids, keep what is left over, answer each id with "<id>:0\n". */
module Peer {
  import opened Text
  import opened Frames

  // ----- reference: the scan as a function of what is still unread

  /** The first two commas after the first newline at or after `from`. */
  function Commas(s: string, from: nat): (r: Option<(nat, nat)>)
    ensures r.Some? ==> from < r.value.0 < r.value.1 < |s|
  {
    match Find(s, NL, from)
    case None => None
    case Some(nl) =>
      match Find(s, ',', nl)
      case None => None
      case Some(comma1) =>
        match Find(s, ',', comma1 + 1)
        case None => None
        case Some(comma2) => Some((comma1, comma2))
  }

  /** The static `GetMsgId`: the id between the two commas, and the new `lastPos`. */
  function GetMsgId(msg: string, lastPos: nat): (r: Option<(string, nat)>)
    ensures r.Some? ==> lastPos < r.value.1 < |msg|
  {
    match Commas(msg, lastPos)
    case None => None
    case Some((comma1, comma2)) => Some((msg[comma1 + 1..comma2], comma2))
  }

  /** The first id in `s` and the rest of `s` from the comma after it. */
  function FirstId(s: string): (r: Option<(string, string)>)
    ensures r.Some? ==> |r.value.1| < |s|
  {
    match GetMsgId(s, 0)
    case None => None
    case Some((id, pos)) => Some((id, s[pos..]))
  }

  function Ids(s: string): seq<string>
    decreases |s|
  {
    match FirstId(s)
    case None => []
    case Some((id, rest)) => [id] + Ids(rest)
  }

  function Leftover(s: string): string
    decreases |s|
  {
    match FirstId(s)
    case None => s
    case Some((id, rest)) => Leftover(rest)
  }

  /** What `ProcessMsgId` answers; an empty id gets no answer. */
  function Ack(id: string): string {
    if id == "" then "" else id + ":0\n"
  }

  function Acks(ids: seq<string>): string {
    if ids == [] then "" else Ack(ids[0]) + Acks(ids[1..])
  }

  function Answered(ids: seq<string>): nat {
    if ids == [] then 0 else (if ids[0] == "" then 0 else 1) + Answered(ids[1..])
  }

  lemma {:induction false} AcksAppend(a: seq<string>, b: seq<string>)
    ensures Acks(a + b) == Acks(a) + Acks(b)
  {
    if a == [] {
      assert a + b == b;
    } else {
      AcksAppend(a[1..], b);
      TailOfAppend(a, b);
      Assoc(Ack(a[0]), Acks(a[1..]), Acks(b));
    }
  }

  lemma {:induction false} AnsweredAppend(a: seq<string>, b: seq<string>)
    ensures Answered(a + b) == Answered(a) + Answered(b)
  {
    if a == [] {
      assert a + b == b;
    } else {
      AnsweredAppend(a[1..], b);
      TailOfAppend(a, b);
    }
  }

  // ----- chunk independence

  lemma FindInPrefix(a: string, b: string, c: char, from: nat)
    requires Find(a, c, from).Some?
    ensures Find(a + b, c, from) == Find(a, c, from)
  {
    FindIs(a + b, c, from, Find(a, c, from).value);
  }

  lemma CommasInPrefix(a: string, b: string, from: nat)
    requires Commas(a, from).Some?
    ensures Commas(a + b, from) == Commas(a, from)
  {
    var nl := Find(a, NL, from).value;
    FindInPrefix(a, b, NL, from);
    FindInPrefix(a, b, ',', nl);
    FindInPrefix(a, b, ',', Find(a, ',', nl).value + 1);
  }

  /** More input does not change an id already complete. */
  lemma FirstIdInPrefix(a: string, b: string)
    requires FirstId(a).Some?
    ensures FirstId(a + b) == Some((FirstId(a).value.0, FirstId(a).value.1 + b))
  {
    CommasInPrefix(a, b, 0);
    var (comma1, comma2) := Commas(a, 0).value;
    assert (a + b)[comma2..] == a[comma2..] + b;
    assert (a + b)[comma1 + 1..comma2] == a[comma1 + 1..comma2];
  }

  /** Scanning `a` and then the leftover with `b` finds what scanning `a + b` finds. */
  lemma {:induction false} ScanAppend(a: string, b: string)
    ensures Ids(a + b) == Ids(a) + Ids(Leftover(a) + b)
    ensures Leftover(a + b) == Leftover(Leftover(a) + b)
    decreases |a|
  {
    if FirstId(a).Some? {
      var (id, rest) := FirstId(a).value;
      FirstIdInPrefix(a, b);
      ScanAppend(rest, b);
      AssocParts([id], Ids(rest), Ids(Leftover(rest) + b));
    }
  }

  // ----- the scanning code, by positions in one buffer

  lemma FindShift(s: string, k: nat, c: char, from: nat)
    requires k <= |s|
    ensures Find(s[k..], c, from) == None ==> Find(s, c, k + from) == None
    ensures Find(s[k..], c, from).Some? ==> Find(s, c, k + from) == Some(k + Find(s[k..], c, from).value)
  {
    var t := s[k..];
    assert forall i :: k <= i < |s| ==> s[i] == t[i - k];
    match Find(s[k..], c, from)
    case None =>
      FindNothing(s, c, k + from);
    case Some(p) =>
      FindIs(s, c, k + from, k + p);
  }

  lemma CommasShift(s: string, k: nat)
    requires k <= |s|
    ensures Commas(s[k..], 0) == None ==> Commas(s, k) == None
    ensures Commas(s[k..], 0).Some? ==>
      Commas(s, k) == Some((k + Commas(s[k..], 0).value.0, k + Commas(s[k..], 0).value.1))
  {
    FindShift(s, k, NL, 0);
    if Find(s[k..], NL, 0).Some? {
      PairShift(s, k, Find(s[k..], NL, 0).value);
    }
  }

  /** The two commas after the newline at `nl`. */
  lemma PairShift(s: string, k: nat, nl: nat)
    requires k <= |s|
    ensures Find(s[k..], ',', nl) == None ==> Find(s, ',', k + nl) == None
    ensures Find(s[k..], ',', nl).Some? ==>
      var comma := Find(s[k..], ',', nl).value;
      Find(s, ',', k + nl) == Some(k + comma) && SameFind(s, k, ',', comma + 1)
  {
    FindShift(s, k, ',', nl);
    if Find(s[k..], ',', nl).Some? {
      FindShift(s, k, ',', Find(s[k..], ',', nl).value + 1);
    }
  }

  /** Searching `s[k..]` from `from` finds what searching `s` from `k + from` does. */
  predicate SameFind(s: string, k: nat, c: char, from: nat)
    requires k <= |s|
  {
    match Find(s[k..], c, from)
    case None => Find(s, c, k + from) == None
    case Some(p) => Find(s, c, k + from) == Some(k + p)
  }

  lemma SliceOfDrop(s: string, k: nat, a: nat, b: nat)
    requires k <= |s| && a <= b <= |s| - k
    ensures s[k..][a..b] == s[k + a..k + b] && s[k..][b..] == s[k + b..]
  {
    assert forall i :: 0 <= i < b - a ==> s[k..][a..b][i] == s[k + a..k + b][i];
  }

  lemma GetMsgIdIsFirstId(msg: string, lastPos: nat)
    requires lastPos <= |msg|
    ensures GetMsgId(msg, lastPos) == None ==> FirstId(msg[lastPos..]) == None
    ensures GetMsgId(msg, lastPos).Some? ==>
      FirstId(msg[lastPos..]) == Some((GetMsgId(msg, lastPos).value.0, msg[GetMsgId(msg, lastPos).value.1..]))
  {
    CommasShift(msg, lastPos);
    var s := msg[lastPos..];
    if Commas(s, 0).Some? {
      var (comma1, comma2) := Commas(s, 0).value;
      SliceOfDrop(msg, lastPos, comma1 + 1, comma2);
    }
  }

  /** The ids `done` have been found before `pos`, and scanning can go on from there. */
  ghost predicate ScannedTo(msg: string, pos: nat, done: seq<string>)
    requires pos <= |msg|
  {
    Ids(msg) == done + Ids(msg[pos..]) && Leftover(msg) == Leftover(msg[pos..])
  }

  lemma ScanOne(msg: string, pos: nat, done: seq<string>)
    requires pos <= |msg| && ScannedTo(msg, pos, done)
    ensures GetMsgId(msg, pos) == None ==> FirstId(msg[pos..]) == None
    ensures GetMsgId(msg, pos).Some? ==>
      ScannedTo(msg, GetMsgId(msg, pos).value.1, done + [GetMsgId(msg, pos).value.0])
  {
    GetMsgIdIsFirstId(msg, pos);
    if GetMsgId(msg, pos).Some? {
      var (id, next) := GetMsgId(msg, pos).value;
      AssocParts(done, [id], Ids(msg[next..]));
    }
  }

  lemma OneAck(id: string)
    ensures Acks([id]) == Ack(id) && Answered([id]) == if id == "" then 0 else 1
  {
    assert Ack(id) + "" == Ack(id);
  }

  class MockServer {
    /** `m_totalTags`. */
    var totalTags: nat
    /** `lastStrForMsgId` of the one connection. */
    var leftover: string

    constructor ()
      ensures totalTags == 0 && leftover == ""
    {
      totalTags, leftover := 0, "";
    }

    method ProcessMsgId(id: string) returns (ack: string)
      modifies this`totalTags
      ensures ack == Ack(id) && totalTags == old(totalTags) + Answered([id])
      ensures if id == "" then ack == "" && totalTags == old(totalTags)
              else ack == id + ":0" + [NL] && totalTags == old(totalTags) + 1
    {
      if id != "" {
        totalTags := totalTags + 1;
        return id + ":0\n";
      }
      return "";
    }

    method ParseMsgIds(msg: string) returns (msgIds: string, left: string)
      modifies this`totalTags
      ensures msgIds == Acks(Ids(msg)) && left == Leftover(msg)
      ensures totalTags == old(totalTags) + Answered(Ids(msg))
    {
      msgIds := "";
      var lastPos: nat, leftoverPos: nat, more := 0, 0, true;
      ghost var done: seq<string> := [];
      assert msg[0..] == msg;
      while more
        invariant leftoverPos <= lastPos <= |msg| && ScannedTo(msg, lastPos, done)
        invariant msgIds == Acks(done) && totalTags == old(totalTags) + Answered(done)
        invariant !more ==> leftoverPos == lastPos && FirstId(msg[lastPos..]) == None
        decreases more, |msg| - lastPos
      {
        leftoverPos := lastPos;
        var found := GetMsgId(msg, lastPos);
        ScanOne(msg, lastPos, done);
        if found == None {
          more := false;
        } else {
          var id := found.value.0;
          AcksAppend(done, [id]);
          AnsweredAppend(done, [id]);
          OneAck(id);
          lastPos := found.value.1;
          var ack := ProcessMsgId(id);
          msgIds := msgIds + ack;
          done := done + [id];
        }
      }
      assert done + [] == done;
      left := msg[leftoverPos..];
    }

    /** One read of the connection: what it writes back. */
    method GetMsgIdInfo(buf: string) returns (reply: string)
      modifies this
      ensures reply == Acks(Ids(old(leftover) + buf)) && leftover == Leftover(old(leftover) + buf)
      ensures totalTags == old(totalTags) + Answered(Ids(old(leftover) + buf))
    {
      reply, leftover := ParseMsgIds(leftover + buf);
    }

    /** The read loop on one connection: replies and leftover do not depend on the cuts. */
    method StartReadLoop(chunks: seq<string>) returns (replies: string)
      requires leftover == ""
      modifies this
      ensures replies == Acks(Ids(Flatten(chunks))) && leftover == Leftover(Flatten(chunks))
      ensures totalTags == old(totalTags) + Answered(Ids(Flatten(chunks)))
    {
      replies := "";
      ghost var seen := "";
      for i := 0 to |chunks|
        invariant seen == Flatten(chunks[..i]) && leftover == Leftover(seen)
        invariant replies == Acks(Ids(seen)) && totalTags == old(totalTags) + Answered(Ids(seen))
      {
        ghost var more := Ids(leftover + chunks[i]);
        ScanAppend(seen, chunks[i]);
        AcksAppend(Ids(seen), more);
        AnsweredAppend(Ids(seen), more);
        FlattenSnoc(chunks, i);
        seen := seen + chunks[i];
        var reply := GetMsgIdInfo(chunks[i]);
        replies := replies + reply;
      }
      assert chunks[..|chunks|] == chunks;
    }
  }
}
