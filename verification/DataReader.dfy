/** The acknowledgement reader of src/outmdsd/DataReader.cc. */
module Reading {
  import opened Text
  import opened ConcurrentMaps

  // ----- reference: a stream split at its newlines

  /** The newline-terminated lines of `s`, without their newlines. */
  function Lines(s: string): seq<string>
    decreases |s|
  {
    match Find(s, NL, 0)
    case None => []
    case Some(p) => [s[..p]] + Lines(s[p + 1..])
  }

  /** What follows the last newline of `s`. */
  function Tail(s: string): string
    decreases |s|
  {
    match Find(s, NL, 0)
    case None => s
    case Some(p) => Tail(s[p + 1..])
  }

  function Unlines(lines: seq<string>): string {
    if lines == [] then [] else lines[0] + [NL] + Unlines(lines[1..])
  }

  lemma LinesCons(line: string, rest: string)
    requires NL !in line
    ensures Lines(line + [NL] + rest) == [line] + Lines(rest)
    ensures Tail(line + [NL] + rest) == Tail(rest)
  {
    var s := line + [NL] + rest;
    assert s[0..|line|] == line && s[|line| + 1..] == rest && s[..|line|] == line;
    FindIs(s, NL, 0, |line|);
  }

  lemma LinesNone(s: string)
    requires NL !in s
    ensures Lines(s) == [] && Tail(s) == s
  {
    assert s[0..] == s;
    FindNothing(s, NL, 0);
  }

  lemma UnlinesCons(line: string, lines: seq<string>)
    ensures Unlines([line] + lines) == line + [NL] + Unlines(lines)
  {
    assert ([line] + lines)[1..] == lines;
  }

  /** No line and no tail holds a newline. */
  lemma {:induction false} PartsHaveNoNewline(s: string)
    ensures NL !in Tail(s) && forall line <- Lines(s) :: NL !in line
    decreases |s|
  {
    if NL in s {
      var line, rest := FirstLine(s);
      PartsHaveNoNewline(rest);
    } else {
      LinesNone(s);
    }
  }

  /** The first line of a string that has one, and what the split makes of the rest. */
  lemma FirstLine(s: string) returns (line: string, rest: string)
    requires NL in s
    ensures s == line + [NL] + rest && NL !in line
    ensures Find(s, NL, 0) == Some(|line|) && line == s[..|line|] && rest == s[|line| + 1..]
    ensures Lines(s) == [line] + Lines(rest) && Tail(s) == Tail(rest)
  {
    var p := Find(s, NL, 0).value;
    line, rest := s[..p], s[p + 1..];
  }

  /** Splitting loses nothing: the stream is its lines followed by its tail. */
  lemma {:induction false} SplitJoins(s: string)
    ensures Unlines(Lines(s)) + Tail(s) == s
    decreases |s|
  {
    if NL in s {
      var line, rest := FirstLine(s);
      SplitJoins(rest);
      UnlinesCons(line, Lines(rest));
      Assoc(line + [NL], Unlines(Lines(rest)), Tail(rest));
    } else {
      LinesNone(s);
    }
  }

  /** Reading `a` then `b` is reading `a + b`, with `a`'s tail carried over. */
  lemma {:induction false} SplitAppend(a: string, b: string)
    ensures Lines(a + b) == Lines(a) + Lines(Tail(a) + b)
    ensures Tail(a + b) == Tail(Tail(a) + b)
    decreases |a|
  {
    if NL in a {
      var line, rest := FirstLine(a);
      SplitAppend(rest, b);
      Assoc(line + [NL], rest, b);
      LinesCons(line, rest + b);
      AssocParts([line], Lines(rest), Lines(Tail(rest) + b));
    } else {
      LinesNone(a);
    }
  }

  // ----- one item

  /** The cache key an item erases, if any: a bare tag, or a tag with status "0". */
  function AckedKey(item: string): seq<string> {
    match Find(item, ':', 0)
    case None => if item == "" then [] else [item]
    case Some(p) => if p == 0 || item[p + 1..] != "0" then [] else [item[..p]]
  }

  /** What an item acknowledges, said of the key: a bare key, or a key with status "0". */
  predicate Acknowledges(item: string, key: string) {
    key != "" && ':' !in key && (item == key || item == key + ":0")
  }

  lemma AckedKeyIs(item: string, key: string)
    ensures key in AckedKey(item) <==> Acknowledges(item, key)
    ensures |AckedKey(item)| <= 1
  {
    assert (key + ":0")[|key|] == ':';
    match Find(item, ':', 0)
    case None =>
    case Some(p) =>
      assert item == item[..p] + ":" + item[p + 1..];
      if item == key + ":0" && ':' !in key {
        FindIs(item, ':', 0, |key|);
        assert item[..p] == key && item[p + 1..] == "0";
      }
  }

  /** Any other status acknowledges nothing. */
  lemma OtherStatusIsNoAck(tag: string, status: string)
    requires ':' !in tag && status != "0"
    ensures AckedKey(tag + ":" + status) == []
  {
    var item := tag + ":" + status;
    assert forall i :: 0 <= i < |tag| ==> item[i] == tag[i];
    FindIs(item, ':', 0, |tag|);
    assert item[|tag| + 1..] == status;
  }

  function AckedKeys(items: seq<string>): seq<string> {
    if items == [] then [] else AckedKey(items[0]) + AckedKeys(items[1..])
  }

  function NonEmptyCount(items: seq<string>): nat {
    if items == [] then 0 else (if items[0] == "" then 0 else 1) + NonEmptyCount(items[1..])
  }

  lemma {:induction false} AckedKeysAppend(a: seq<string>, b: seq<string>)
    ensures AckedKeys(a + b) == AckedKeys(a) + AckedKeys(b)
  {
    if a == [] {
      assert a + b == b;
    } else {
      AckedKeysAppend(a[1..], b);
      TailOfAppend(a, b);
      AssocParts(AckedKey(a[0]), AckedKeys(a[1..]), AckedKeys(b));
    }
  }

  lemma {:induction false} NonEmptyCountAppend(a: seq<string>, b: seq<string>)
    ensures NonEmptyCount(a + b) == NonEmptyCount(a) + NonEmptyCount(b)
  {
    if a == [] {
      assert a + b == b;
    } else {
      NonEmptyCountAppend(a[1..], b);
      TailOfAppend(a, b);
    }
  }

  lemma OneItem(item: string)
    ensures AckedKeys([item]) == AckedKey(item)
    ensures NonEmptyCount([item]) == if item == "" then 0 else 1
  {
    assert AckedKey(item) + [] == AckedKey(item);
  }

  /** The cache after a list of items has been processed. */
  function Acknowledged<V>(m: map<string, V>, items: seq<string>): map<string, V> {
    m - Elements(AckedKeys(items))
  }

  lemma {:induction false} InAckedKeys(items: seq<string>, key: string)
    ensures key in AckedKeys(items) <==> exists i :: 0 <= i < |items| && Acknowledges(items[i], key)
  {
    if items != [] {
      AckedKeyIs(items[0], key);
      InAckedKeys(items[1..], key);
      assert forall i :: 0 < i < |items| ==> items[i] == items[1..][i - 1];
    }
  }

  /** Exactly the entries acknowledged by some item go, and no other changes. */
  lemma AcknowledgedIs<V>(m: map<string, V>, items: seq<string>, key: string)
    ensures key in Acknowledged(m, items) <==>
      key in m && !exists i :: 0 <= i < |items| && Acknowledges(items[i], key)
    ensures key in Acknowledged(m, items) ==> Acknowledged(m, items)[key] == m[key]
  {
    InAckedKeys(items, key);
  }

  /** An item with any other status leaves the cache as it was. */
  lemma OtherStatusKeepsTheCache<V>(m: map<string, V>, tag: string, status: string)
    requires ':' !in tag && status != "0"
    ensures Acknowledged(m, [tag + ":" + status]) == m
  {
    OtherStatusIsNoAck(tag, status);
    OneItem(tag + ":" + status);
  }

  lemma ElementsOne<T>(x: T)
    ensures Elements([x]) == {x} && Elements<T>([]) == {}
  {
  }

  lemma AcknowledgedNothing<V>(m: map<string, V>)
    ensures Acknowledged(m, []) == m
  {
  }

  lemma AcknowledgedAppend<V>(m: map<string, V>, a: seq<string>, b: seq<string>)
    ensures Acknowledged(Acknowledged(m, a), b) == Acknowledged(m, a + b)
  {
    AckedKeysAppend(a, b);
    assert Elements(AckedKeys(a) + AckedKeys(b)) == Elements(AckedKeys(a)) + Elements(AckedKeys(b));
  }

  // ----- std::istringstream and std::getline (section 21.4.8.9 of ISO/IEC 14882:2011)

  /** The part of the stream that `getline` sees: what is left to read and the two state bits. */
  datatype Stream = Stream(left: string, eof: bool, fail: bool)

  /** One `getline(stream, item, '\n')`.  A stream that is not good fails at the sentry and
      leaves `item` alone; otherwise `item` is erased first, a run into the end sets `eofbit`,
      and extracting nothing at all sets `failbit`. */
  function GetLine(s: Stream, item: string): (Stream, string) {
    if s.eof || s.fail then (s.(fail := true), item)
    else
      match Find(s.left, NL, 0)
      case Some(p) => (Stream(s.left[p + 1..], false, false), s.left[..p])
      case None => (Stream("", true, s.left == ""), s.left)
  }

  /** After the lines `done` have been read from `str`, what the stream and `item` hold. */
  ghost predicate StreamAt(str: string, done: seq<string>, s: Stream, item: string) {
    if s.eof then Lines(str) == done && Tail(str) == item
    else !s.fail && Lines(str) == done + Lines(s.left) && Tail(str) == Tail(s.left)
  }

  lemma GetLineAdvances(str: string, done: seq<string>, s: Stream, item: string)
    requires StreamAt(str, done, s, item)
    ensures var (next, line) := GetLine(s, item);
      && StreamAt(str, if next.eof then done else done + [line], next, line)
      && (next.fail ==> next.eof)
      && (!next.eof ==> !s.eof && |next.left| < |s.left|)
  {
    if !s.eof {
      if NL in s.left {
        var line, rest := FirstLine(s.left);
        AssocParts(done, [line], Lines(rest));
      } else {
        LinesNone(s.left);
      }
    }
  }

  // ----- the reader thread

  /** One turn of the read loop: bytes arrive; nothing does, because of a retry, an end of file or
      an exception of the socket; or the reader ends, the client or the reader being stopped. */
  datatype ReadOutcome = Bytes(buf: string) | Nothing | Ends

  /** The chunks read before the reader ends. */
  function Received(outcomes: seq<ReadOutcome>): seq<string> {
    if outcomes == [] || outcomes[0].Ends? then []
    else if outcomes[0].Bytes? then [outcomes[0].buf] + Received(outcomes[1..])
    else Received(outcomes[1..])
  }

  /** The lines one turn completes. */
  function LinesRead(partialData: string, outcome: ReadOutcome): seq<string> {
    if outcome.Bytes? then Lines(partialData + CString(outcome.buf)) else []
  }

  class DataReader<V(==)> {
    /** `m_dataCache`; null when nothing is cached. */
    const dataCache: ConcurrentMap?<V>
    /** `m_nTagsRead`. */
    var tagsRead: nat
    /** The string `Run` carries from one read to the next, across reconnects too. */
    var partialData: string
    /** Every item processed and every key passed to `Erase` so far, in order. */
    ghost var items: seq<string>
    ghost var erased: seq<string>

    ghost predicate Valid()
      reads this
    {
      tagsRead == NonEmptyCount(items) && erased == AckedKeys(items)
    }

    ghost function Cached(): map<string, V>
      reads this, dataCache
    {
      if dataCache == null then map[] else dataCache.cache
    }

    constructor (dataCache: ConcurrentMap?<V>)
      ensures Valid() && this.dataCache == dataCache && partialData == "" && items == []
    {
      this.dataCache := dataCache;
      tagsRead, partialData := 0, "";
      items, erased := [], [];
    }

    method ProcessItem(item: string)
      requires Valid()
      modifies this`tagsRead, this`items, this`erased, dataCache
      ensures Valid() && items == old(items) + [item]
      ensures Cached() == Acknowledged(old(Cached()), [item])
      ensures tagsRead == old(tagsRead) + if item == "" then 0 else 1
      ensures forall k :: k in Cached() <==> k in old(Cached()) && !Acknowledges(item, k)
      ensures forall k <- Cached() :: Cached()[k] == old(Cached())[k]
    {
      NonEmptyCountAppend(items, [item]);
      AckedKeysAppend(items, [item]);
      OneItem(item);
      items := items + [item];
      if item != "" {
        tagsRead := tagsRead + 1;
      }
      EraseAcked(item);
      forall k ensures k in AckedKey(item) <==> Acknowledges(item, k) {
        AckedKeyIs(item, k);
      }
    }

    /** The dispatch of `ProcessItem` on the colon. */
    method EraseAcked(item: string)
      modifies this`erased, dataCache
      ensures erased == old(erased) + AckedKey(item)
      ensures Cached() == old(Cached()) - Elements(AckedKey(item))
    {
      ElementsOne(item);
      match Find(item, ':', 0)
      case None =>
        ProcessTag(item);
      case Some(p) =>
        ElementsOne(item[..p]);
        ProcessTagWithStatus(item[..p], item[p + 1..]);
    }

    method ProcessTag(tag: string)
      modifies this`erased, dataCache
      ensures erased == old(erased) + if tag == "" then [] else [tag]
      ensures Cached() == if tag == "" then old(Cached()) else old(Cached()) - {tag}
    {
      if tag == "" {
        return;
      }
      erased := erased + [tag];
      if dataCache != null {
        var n := dataCache.Erase(tag);
      }
    }

    /** Only status "0" removes the item; every other status is logged and the item is kept. */
    method ProcessTagWithStatus(tag: string, status: string)
      modifies this`erased, dataCache
      ensures erased == old(erased) + if tag != "" && status == "0" then [tag] else []
      ensures Cached() == if tag != "" && status == "0" then old(Cached()) - {tag} else old(Cached())
    {
      if tag == "" || status == "" {
        return;
      }
      if status == "0" {
        erased := erased + [tag];
        if dataCache != null {
          var n := dataCache.Erase(tag);
        }
      }
    }

    /** The `getline` loop: each complete line is processed once and in order; the unterminated
        tail is not processed and is what the loop leaves in `item`. */
    method ProcessLines(str: string) returns (item: string)
      requires Valid()
      modifies this`tagsRead, this`items, this`erased, dataCache
      ensures item == Tail(str)
      ensures Valid() && items == old(items) + Lines(str)
      ensures Cached() == Acknowledged(old(Cached()), Lines(str))
    {
      var iss, got := Stream(str, false, false), true;
      item := "";
      AcknowledgedNothing(Cached());
      ghost var done: seq<string> := [];
      while got
        invariant Valid() && items == old(items) + done
        invariant Cached() == Acknowledged(old(Cached()), done)
        invariant StreamAt(str, done, iss, item)
        invariant got || iss.eof
        decreases got, !iss.eof, |iss.left|
      {
        GetLineAdvances(str, done, iss, item);
        var (next, line) := GetLine(iss, item);
        iss, item, got := next, line, !next.fail;
        if got && !iss.eof {
          AcknowledgedAppend(old(Cached()), done, [item]);
          AssocParts(old(items), done, [item]);
          ProcessItem(item);
          done := done + [item];
        }
      }
    }

    /** The trailing `ProcessItem` after the loop is never reached. */
    method ProcessData(str: string) returns (rest: string)
      requires Valid()
      modifies this`tagsRead, this`items, this`erased, dataCache
      ensures rest == Tail(str)
      ensures Valid() && items == old(items) + Lines(str)
      ensures Cached() == Acknowledged(old(Cached()), Lines(str))
    {
      var last := FindLast(str, NL);
      if last == None {
        LinesNone(str);
        return str;
      }
      TailAfterLastNewline(str, last.value);
      var item := ProcessLines(str);
      if item != "" && last.value == |str| - 1 {
        assert false;
      }
      return str[last.value + 1..];
    }

    /** One turn of the read loop.  Only bytes read change anything: `partialData + buf` stops at
        the first NUL of `buf`. */
    method DoRead(outcome: ReadOutcome) returns (more: bool)
      requires Valid()
      modifies this, dataCache
      ensures Valid() && more == !outcome.Ends?
      ensures partialData == if outcome.Bytes? then Tail(old(partialData) + CString(outcome.buf)) else old(partialData)
      ensures items == old(items) + LinesRead(old(partialData), outcome)
      ensures Cached() == Acknowledged(old(Cached()), LinesRead(old(partialData), outcome))
    {
      AcknowledgedNothing(Cached());
      match outcome
      case Ends =>
        return false;
      case Nothing =>
        return true;
      case Bytes(buf) =>
        partialData := ProcessData(partialData + CString(buf));
        return true;
    }

    /** All the turns of a run, whatever the chunks and the failures between them: the effect is
        that of the one concatenated stream received before the reader ends, up to the NUL
        truncation of each chunk. */
    method Run(outcomes: seq<ReadOutcome>)
      requires Valid() && partialData == "" && items == []
      modifies this, dataCache
      ensures Valid() && partialData == Tail(Flatten(CStrings(Received(outcomes))))
      ensures items == Lines(Flatten(CStrings(Received(outcomes))))
      ensures Cached() == Acknowledged(old(Cached()), items)
    {
      ghost var seen := "";
      LinesNone("");
      AcknowledgedNothing(Cached());
      var i, more := 0, true;
      assert outcomes[0..] == outcomes;
      while more && i < |outcomes|
        invariant 0 <= i <= |outcomes|
        invariant ReadSoFar(outcomes, i, more, seen)
        invariant Valid() && partialData == Tail(seen) && items == Lines(seen)
        invariant Cached() == Acknowledged(old(Cached()), items)
      {
        ghost var read := LinesRead(partialData, outcomes[i]);
        NextReceived(outcomes, i, seen);
        if outcomes[i].Bytes? {
          ghost var text := CString(outcomes[i].buf);
          SplitAppend(seen, text);
          seen := seen + text;
        }
        AcknowledgedAppend(old(Cached()), items, read);
        more := DoRead(outcomes[i]);
        i := i + 1;
      }
      AllReceived(outcomes, i, more, seen);
    }
  }

  /** After `i` turns `seen` has been read, and if there are `more`, the rest is to come. */
  ghost predicate ReadSoFar(outcomes: seq<ReadOutcome>, i: nat, more: bool, seen: string)
    requires i <= |outcomes|
  {
    Flatten(CStrings(Received(outcomes))) ==
      if more then seen + Flatten(CStrings(Received(outcomes[i..]))) else seen
  }

  lemma AllReceived(outcomes: seq<ReadOutcome>, i: nat, more: bool, seen: string)
    requires i <= |outcomes| && ReadSoFar(outcomes, i, more, seen) && (more ==> i == |outcomes|)
    ensures seen == Flatten(CStrings(Received(outcomes)))
  {
  }

  lemma NextReceived(outcomes: seq<ReadOutcome>, i: nat, seen: string)
    requires i < |outcomes| && ReadSoFar(outcomes, i, true, seen)
    ensures outcomes[i].Ends? ==> ReadSoFar(outcomes, i + 1, false, seen)
    ensures outcomes[i].Nothing? ==> ReadSoFar(outcomes, i + 1, true, seen)
    ensures outcomes[i].Bytes? ==> ReadSoFar(outcomes, i + 1, true, seen + CString(outcomes[i].buf))
  {
    assert outcomes[i..][0] == outcomes[i] && outcomes[i..][1..] == outcomes[i + 1..];
    if outcomes[i].Bytes? {
      var rest := Received(outcomes[i + 1..]);
      assert ([outcomes[i].buf] + rest)[1..] == rest;
      assert CStrings([outcomes[i].buf] + rest) == [CString(outcomes[i].buf)] + CStrings(rest);
      TailOfAppend([CString(outcomes[i].buf)], CStrings(rest));
      Assoc(seen, CString(outcomes[i].buf), Flatten(CStrings(rest)));
    }
  }

  lemma {:induction false} TailAfterLastNewline(s: string, last: nat)
    requires last < |s| && s[last] == NL && forall i :: last < i < |s| ==> s[i] != NL
    ensures Tail(s) == s[last + 1..]
    decreases |s|
  {
    assert s[0..] == s && s[last] in s;
    var p := Find(s, NL, 0).value;
    var rest := s[p + 1..];
    assert s[0..p] == s[..p];
    assert forall i :: 0 <= i < p ==> s[..p][i] == s[i];
    if p < last {
      assert rest[last - p - 1] == NL && rest[last - p..] == s[last + 1..];
      TailAfterLastNewline(rest, last - p - 1);
    } else {
      LinesNone(rest);
    }
  }

  /** Chunk independence: whatever the cuts, lines and final tail are those of the whole stream
      exactly when no chunk holds a NUL. */
  lemma ChunksReadAsWholeIffNulFree(chunks: seq<string>)
    ensures (Lines(Flatten(CStrings(chunks))) == Lines(Flatten(chunks)) &&
             Tail(Flatten(CStrings(chunks))) == Tail(Flatten(chunks)))
       <==> forall c <- chunks :: NUL !in c
  {
    FlattenCStrings(chunks);
    SplitJoins(Flatten(CStrings(chunks)));
    SplitJoins(Flatten(chunks));
  }

  /** A chunk with a NUL: the whole stream has a line, what is read of it has none. */
  lemma NulCutsTheChunk()
    ensures var chunks := ["a\0b\n"];
      Lines(Flatten(CStrings(chunks))) == [] && Lines(Flatten(chunks)) == ["a\0b"]
  {
    var chunk := "a\0b\n";
    FindIs(chunk, NUL, 0, 1);
    assert CString(chunk) == "a";
    assert CStrings([chunk]) == ["a"];
    assert Flatten(["a"]) == "a" && Flatten([chunk]) == chunk;
    LinesNone("a");
    assert chunk == "a\0b" + [NL] + "";
    LinesCons("a\0b", "");
    LinesNone("");
  }
}
