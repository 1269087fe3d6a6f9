/** End to end: frames out through the peer's scan, acknowledgements back through the reader. */
module AckRoundTrip {
  import opened Text
  import opened Frames
  import opened Peer
  import R = Reading
  import ConcurrentMaps

  // ----- frames through the scan

  lemma FindAfter(before: string, mid: string, c: char, from: nat, after: string)
    requires from <= |before| + |mid| && c !in mid && from >= |before|
    ensures Find(before + mid + [c] + after, c, from) == Some(|before| + |mid|)
  {
    var s := before + mid + [c] + after;
    assert forall i :: |before| <= i < |before| + |mid| ==> s[i] == mid[i - |before|];
    FindIs(s, c, from, |before| + |mid|);
  }

  lemma FirstIdShape(pre: string, mid: string, id: string, tail: string)
    requires NL !in pre && mid != "" && mid[0] == NL && ',' !in mid && ',' !in id
    ensures FirstId(pre + mid + [','] + id + [','] + tail) == Some((id, [','] + tail))
  {
    var s := pre + mid + [','] + id + [','] + tail;
    var comma1 := |pre| + |mid|;
    var comma2 := comma1 + 1 + |id|;
    assert s == [] + pre + [NL] + (mid[1..] + [','] + id + [','] + tail);
    FindAfter([], pre, NL, 0, mid[1..] + [','] + id + [','] + tail);
    assert s == pre + mid + [','] + (id + [','] + tail);
    FindAfter(pre, mid, ',', |pre|, id + [','] + tail);
    var upto := pre + mid + [','];
    assert s == upto + id + [','] + tail;
    FindAfter(upto, id, ',', comma1 + 1, tail);
    assert Commas(s, 0) == Some((comma1, comma2));
    SlicesAround(upto, id, [','] + tail);
    assert s == upto + id + ([','] + tail);
  }

  lemma SlicesAround(a: string, b: string, c: string)
    ensures (a + b + c)[|a|..|a| + |b|] == b && (a + b + c)[|a| + |b|..] == c
  {
  }

  /** What an item may hold for the peer to find its id: no comma in the source, no newline in
      the rest. */
  predicate Scannable(item: Item) {
    ',' !in item.source && NL !in item.schemaAndData
  }

  /** What the scan has not consumed of a frame whose id it has found. */
  function AfterTag(item: Item): string {
    [','] + item.schemaAndData + "]"
  }

  lemma FirstIdOfFrame(gap: string, item: Item, rest: string)
    requires NL !in gap && Scannable(item)
    ensures FirstId(gap + (item.Frame() + rest)) == Some((item.Tag(), AfterTag(item) + rest))
  {
    var pre := gap + Decimal(item.DeclaredLength());
    var mid := [NL] + "[\"" + item.source + "\"";
    var tail := item.schemaAndData + "]" + rest;
    DecimalHasNo(item.DeclaredLength(), NL);
    DecimalHasNo(item.id, ',');
    FirstIdShape(pre, mid, item.Tag(), tail);
    FrameShape(gap, item, rest);
    assert [','] + tail == AfterTag(item) + rest;
  }

  lemma FrameShape(gap: string, item: Item, rest: string)
    ensures gap + (item.Frame() + rest) ==
      (gap + Decimal(item.DeclaredLength())) + ([NL] + "[\"" + item.source + "\"") + [','] + item.Tag() + [','] +
      (item.schemaAndData + "]" + rest)
  {
    assert "\"," == "\"" + [','];
    assert "," == [','];
  }

  function Tags(items: seq<Item>): (r: seq<string>)
    ensures |r| == |items| && forall i :: 0 <= i < |r| ==> r[i] == items[i].Tag()
  {
    if items == [] then [] else [items[0].Tag()] + Tags(items[1..])
  }

  lemma FrameWithComma(item: Item, a: string, b: string)
    requires item.source == a + [','] + b
    ensures item.Frame() == Decimal(item.DeclaredLength()) + ([NL] + "[\"" + a) + [','] +
      (b + ("\"," + item.Tag() + "," + item.schemaAndData + "]"))
  {
  }

  /** With a comma in the source the peer takes the next comma-separated piece for the id. */
  lemma IdAfterTwoCommas(item: Item, a: string, piece: string, b: string)
    requires item.source == a + [','] + (piece + [','] + b) && ',' !in a && ',' !in piece
    ensures FirstId(item.Frame()).Some? && FirstId(item.Frame()).value.0 == piece
  {
    var header, mid := Decimal(item.DeclaredLength()), [NL] + "[\"" + a;
    var tail := b + "\"," + item.Tag() + "," + item.schemaAndData + "]";
    DecimalHasNo(item.DeclaredLength(), NL);
    FrameWithComma(item, a, piece + [','] + b);
    assert piece + [','] + b + ("\"," + item.Tag() + "," + item.schemaAndData + "]") == piece + [','] + tail;
    assert item.Frame() == header + mid + [','] + piece + [','] + tail;
    FirstIdShape(header, mid, piece, tail);
  }

  lemma IdAfterOneComma(item: Item, a: string, b: string)
    requires item.source == a + [','] + b && ',' !in a && ',' !in b
    ensures FirstId(item.Frame()).Some? && FirstId(item.Frame()).value.0 == b + "\""
  {
    var header, mid := Decimal(item.DeclaredLength()), [NL] + "[\"" + a;
    var tail := item.Tag() + "," + item.schemaAndData + "]";
    DecimalHasNo(item.DeclaredLength(), NL);
    FrameWithComma(item, a, b);
    QuotedComma(b, tail);
    assert item.Frame() == header + mid + [','] + (b + "\"") + [','] + tail;
    FirstIdShape(header, mid, b + "\"", tail);
  }

  lemma PrefixHasComma(tag: string, b: string)
    ensures tag + [','] <= b ==> ',' in b
  {
    if tag + [','] <= b {
      assert b[|tag|] == (tag + [','])[|tag|];
    }
  }

  /** Why the source must be comma-free: otherwise the peer reads the right tag only if what
      follows the first comma of the source happens to spell the tag and a comma. */
  lemma CommaInSource(item: Item, a: string, b: string)
    requires item.source == a + [','] + b && ',' !in a
    ensures FirstId(item.Frame()).Some?
    ensures FirstId(item.Frame()).value.0 == item.Tag() <==> item.Tag() + [','] <= b
  {
    var tag := item.Tag();
    DecimalHasNo(item.id, ',');
    DecimalHasNo(item.id, '\"');
    var comma := Find(b, ',', 0);
    if comma.Some? {
      var piece, b2 := b[..comma.value], b[comma.value + 1..];
      assert b == piece + [','] + b2;
      IdAfterTwoCommas(item, a, piece, b2);
      if tag + [','] <= b {
        assert forall i :: 0 <= i < |tag| ==> b[i] == tag[i];
        FindIs(b, ',', 0, |tag|);
      }
    } else {
      IdAfterOneComma(item, a, b);
      assert (b + "\"")[|b|] == '\"';
      PrefixHasComma(tag, b);
    }
  }

  /** The source "a,b": the peer answers the id b and a quote, and the item is never acknowledged. */
  lemma CommaMisleadsThePeer()
    ensures var item := Item("a,b", 1, "x");
      FirstId(item.Frame()).Some? && FirstId(item.Frame()).value.0 == "b\"" != item.Tag()
  {
    var item := Item("a,b", 1, "x");
    assert item.source == "a" + [','] + "b";
    IdAfterOneComma(item, "a", "b");
    assert item.Tag() == "1";
  }

  lemma QuotedComma(b: string, tail: string)
    ensures b + "\"," + tail == (b + "\"") + [','] + tail
  {
    assert "\"," == "\"" + [','];
  }

  lemma FramesCons(gap: string, items: seq<Item>)
    requires items != []
    ensures gap + Flatten(FramesOf(items)) == gap + (items[0].Frame() + Flatten(FramesOf(items[1..])))
    ensures Tags(items) == [items[0].Tag()] + Tags(items[1..])
  {
    assert FramesOf(items)[1..] == FramesOf(items[1..]);
  }

  /** The scan of concatenated frames finds the tags, each once and in order. */
  lemma {:induction false} IdsOfFrames(gap: string, items: seq<Item>)
    requires NL !in gap && forall i :: 0 <= i < |items| ==> Scannable(items[i])
    ensures Ids(gap + Flatten(FramesOf(items))) == Tags(items)
    decreases |items|
  {
    if items == [] {
      assert gap + "" == gap;
      FindNothing(gap, NL, 0);
    } else {
      FramesCons(gap, items);
      FirstIdOfFrame(gap, items[0], Flatten(FramesOf(items[1..])));
      IdsOfFrames(AfterTag(items[0]), items[1..]);
    }
  }

  // ----- acknowledgements through the reader

  predicate IsTag(tag: string) {
    tag != "" && forall c <- tag :: IsDigit(c)
  }

  lemma AckedKeyOfAck(tag: string)
    requires IsTag(tag)
    ensures R.AckedKey(tag + ":0") == [tag]
  {
    var item := tag + ":0";
    assert forall i :: 0 <= i < |tag| ==> item[i] == tag[i] && IsDigit(tag[i]);
    FindIs(item, ':', 0, |tag|);
    assert item[|tag| + 1..] == "0" && item[..|tag|] == tag;
  }

  /** Reading the answers erases the answered tags, in order, and leaves nothing over. */
  lemma {:induction false} AcksReadBack(tags: seq<string>)
    requires forall t <- tags :: IsTag(t)
    ensures R.AckedKeys(R.Lines(Acks(tags))) == tags && R.Tail(Acks(tags)) == ""
    ensures R.NonEmptyCount(R.Lines(Acks(tags))) == |tags|
  {
    if tags == [] {
      R.LinesNone("");
    } else {
      assert IsTag(tags[0]) && forall t <- tags[1..] :: t in tags;
      AcksReadBack(tags[1..]);
      FirstAckRead(tags[0], Acks(tags[1..]));
    }
  }

  lemma FirstAckRead(tag: string, rest: string)
    requires IsTag(tag)
    ensures R.Tail(Ack(tag) + rest) == R.Tail(rest)
    ensures R.AckedKeys(R.Lines(Ack(tag) + rest)) == [tag] + R.AckedKeys(R.Lines(rest))
    ensures R.NonEmptyCount(R.Lines(Ack(tag) + rest)) == 1 + R.NonEmptyCount(R.Lines(rest))
  {
    var line := tag + ":0";
    AckedKeyOfAck(tag);
    AckIsLine(tag);
    R.LinesCons(line, rest);
    TailOfAppend([line], R.Lines(rest));
  }

  lemma AckIsLine(tag: string)
    requires IsTag(tag)
    ensures Ack(tag) == tag + ":0" + [NL] && NL !in tag + ":0"
  {
  }

  lemma {:induction false} AcksAreNulFree(tags: seq<string>)
    requires forall t <- tags :: IsTag(t)
    ensures NUL !in Acks(tags)
  {
    if tags != [] {
      assert IsTag(tags[0]) && forall t <- tags[1..] :: t in tags;
      AcksAreNulFree(tags[1..]);
      assert NUL !in tags[0];
    }
  }

  lemma {:induction false} NulFreeChunks(chunks: seq<string>)
    ensures NUL !in Flatten(chunks) <==> forall c <- chunks :: NUL !in c
  {
    if chunks != [] {
      NulFreeChunks(chunks[1..]);
      assert forall c :: c in chunks <==> c == chunks[0] || c in chunks[1..];
    }
  }

  lemma TagsAreTags(items: seq<Item>)
    ensures forall t <- Tags(items) :: IsTag(t)
  {
  }

  /** What holds of the items and frames the round trip is promised for. */
  ghost predicate Sendable(items: seq<Item>) {
    && (forall i :: 0 <= i < |items| ==> Scannable(items[i]))
    && (forall f <- FramesOf(items) :: NUL !in f)
  }

  lemma IdsOfTransmitted(items: seq<Item>)
    requires Sendable(items)
    ensures Ids(Transmitted(items)) == Tags(items)
  {
    FlattenCStrings(FramesOf(items));
    IdsOfFrames("", items);
    assert "" + Flatten(FramesOf(items)) == Flatten(FramesOf(items));
  }

  /** What the peer answers to successive reads, with its leftover carried along. */
  function Answers(left: string, chunks: seq<string>): string
    decreases |chunks|
  {
    if chunks == [] then ""
    else Acks(Ids(left + chunks[0])) + Answers(Leftover(left + chunks[0]), chunks[1..])
  }

  lemma {:induction false} AnswersOfWhole(seen: string, chunks: seq<string>)
    ensures Acks(Ids(seen)) + Answers(Leftover(seen), chunks) == Acks(Ids(seen + Flatten(chunks)))
    decreases |chunks|
  {
    if chunks == [] {
      assert seen + Flatten(chunks) == seen;
    } else {
      var text := Leftover(seen) + chunks[0];
      ScanAppend(seen, chunks[0]);
      AcksAppend(Ids(seen), Ids(text));
      AnswersOfWhole(seen + chunks[0], chunks[1..]);
      Assoc(seen, chunks[0], Flatten(chunks[1..]));
      Assoc(Acks(Ids(seen)), Acks(Ids(text)), Answers(Leftover(text), chunks[1..]));
    }
  }

  lemma NothingToScan()
    ensures Ids("") == [] && Leftover("") == ""
  {
    FindNothing("", NL, 0);
  }

  /** The peer's scan does not depend on the cuts. */
  lemma AnswersIgnoreCuts(chunks: seq<string>)
    ensures Answers("", chunks) == Acks(Ids(Flatten(chunks)))
  {
    NothingToScan();
    AnswersOfWhole("", chunks);
    assert "" + Flatten(chunks) == Flatten(chunks);
  }

  /** The round trip.  The transmitted frames may reach the peer in any `chunks`, scanned one by
      one with the leftover carried along, and its answers the reader in any `replies`: the keys
      the reader erases are exactly the tags sent, in order, and its carried-over string is empty
      again. */
  lemma RoundTrip(items: seq<Item>, chunks: seq<string>, replies: seq<string>)
    requires Sendable(items)
    requires Flatten(chunks) == Transmitted(items)
    requires Flatten(replies) == Answers("", chunks)
    ensures R.AckedKeys(R.Lines(Flatten(CStrings(replies)))) == Tags(items)
    ensures R.NonEmptyCount(R.Lines(Flatten(CStrings(replies)))) == |items|
    ensures R.Tail(Flatten(CStrings(replies))) == ""
  {
    AnswersIgnoreCuts(chunks);
    IdsOfTransmitted(items);
    TagsAreTags(items);
    AcksReadBack(Tags(items));
    AcksAreNulFree(Tags(items));
    NulFreeChunks(replies);
    FlattenCStrings(replies);
  }

  /** The reader gets all of `replies`. */
  function Reads(replies: seq<string>): seq<R.ReadOutcome> {
    if replies == [] then [] else [R.Bytes(replies[0])] + Reads(replies[1..])
  }

  lemma {:induction false} AllReceived(replies: seq<string>)
    ensures R.Received(Reads(replies)) == replies
  {
    if replies != [] {
      AllReceived(replies[1..]);
      assert ([R.Bytes(replies[0])] + Reads(replies[1..]))[1..] == Reads(replies[1..]);
    }
  }

  /** The same with the peer and the reader as they run: every tag sent leaves the cache, and
      nothing else does. */
  method Exchange<V(==)>(items: seq<Item>, chunks: seq<string>, replies: seq<string>,
                         peer: MockServer, reader: R.DataReader<V>)
    requires Sendable(items)
    requires Flatten(chunks) == Transmitted(items) && Flatten(replies) == Answers("", chunks)
    requires peer.leftover == "" && reader.Valid() && reader.partialData == "" && reader.items == []
    modifies peer, reader, reader.dataCache
    ensures reader.erased == Tags(items) && reader.partialData == "" && reader.tagsRead == |items|
    ensures reader.Cached() == old(reader.Cached()) - set item <- items :: item.Tag()
  {
    var sent := peer.StartReadLoop(chunks);
    AnswersIgnoreCuts(chunks);
    assert sent == Flatten(replies);
    AllReceived(replies);
    reader.Run(Reads(replies));
    RoundTrip(items, chunks, replies);
    TagSet(items);
  }

  lemma TagSet(items: seq<Item>)
    ensures ConcurrentMaps.Elements(Tags(items)) == set item <- items :: item.Tag()
  {
  }
}
