/** The frame format of src/outmdsd/DjsonLogItem.cc: a decimal byte count, a newline, a payload. */
module Frames {
  import opened Text

  /** What `ComposeFullData` puts on the wire for one item. */
  datatype Item = Item(source: string, id: nat, schemaAndData: string) {
    /** `LogItem::m_tag`. */
    function Tag(): string {
      Decimal(id)
    }

    function Payload(): string {
      "[\"" + source + "\"," + Tag() + "," + schemaAndData + "]"
    }

    /** The length as the code adds it up, part by part. */
    function DeclaredLength(): nat {
      2 + |source| + 2 + |Tag()| + 1 + |schemaAndData| + 1
    }

    function Frame(): string {
      Decimal(DeclaredLength()) + [NL] + Payload()
    }
  }

  function FramesOf(items: seq<Item>): (r: seq<string>)
    ensures |r| == |items| && forall i :: 0 <= i < |r| ==> r[i] == items[i].Frame()
  {
    if items == [] then [] else [items[0].Frame()] + FramesOf(items[1..])
  }

  function Payloads(items: seq<Item>): (r: seq<string>)
    ensures |r| == |items| && forall i :: 0 <= i < |r| ==> r[i] == items[i].Payload()
  {
    if items == [] then [] else [items[0].Payload()] + Payloads(items[1..])
  }

  // ----- a receiver that trusts the length header

  /** The canonical frame of any payload. */
  function Framed(payload: string): string {
    Decimal(|payload|) + [NL] + payload
  }

  function FramedAll(payloads: seq<string>): seq<string> {
    if payloads == [] then [] else [Framed(payloads[0])] + FramedAll(payloads[1..])
  }

  /** Splits off frames by their declared length; `None` when the stream is not a sequence of
      whole frames with canonical headers. */
  function DecodeFrames(stream: string): Option<seq<string>>
    decreases |stream|
  {
    if stream == "" then Some([])
    else
      match Find(stream, NL, 0)
      case None => None
      case Some(p) =>
        var size := Numeral(stream[..p]);
        if Decimal(size) != stream[..p] || p + 1 + size > |stream| then None
        else
          match DecodeFrames(stream[p + 1 + size..])
          case None => None
          case Some(rest) => Some([stream[p + 1..p + 1 + size]] + rest)
  }

  lemma DecimalHasNo(n: nat, c: char)
    requires !IsDigit(c)
    ensures c !in Decimal(n)
  {
  }

  lemma HeaderEnds(header: string, body: string)
    requires NL !in header
    ensures Find(header + [NL] + body, NL, 0) == Some(|header|)
    ensures (header + [NL] + body)[..|header|] == header
    ensures (header + [NL] + body)[|header| + 1..] == body
  {
    FindIs(header + [NL] + body, NL, 0, |header|);
  }

  lemma DecodeOneFrame(payload: string, rest: string)
    ensures DecodeFrames(Framed(payload) + rest) ==
      match DecodeFrames(rest) case None => None case Some(ps) => Some([payload] + ps)
  {
    var header, stream := Decimal(|payload|), Framed(payload) + rest;
    var p := |header|;
    DecimalHasNo(|payload|, NL);
    NumeralOfDecimal(|payload|);
    Assoc(header + [NL], payload, rest);
    HeaderEnds(header, payload + rest);
    assert stream[p + 1..] == payload + rest;
    assert stream[p + 1..p + 1 + |payload|] == payload;
    assert stream[p + 1 + |payload|..] == rest;
  }

  lemma {:induction false} DecodeOfFramed(payloads: seq<string>)
    ensures DecodeFrames(Flatten(FramedAll(payloads))) == Some(payloads)
  {
    if payloads != [] {
      DecodeOfFramed(payloads[1..]);
      DecodeOneFrame(payloads[0], Flatten(FramedAll(payloads[1..])));
      assert payloads == [payloads[0]] + payloads[1..];
    }
  }

  lemma FirstFrame(stream: string) returns (first: string, rest: string)
    requires stream != "" && DecodeFrames(stream).Some?
    ensures stream == Framed(first) + rest && |rest| < |stream|
    ensures DecodeFrames(rest).Some? && DecodeFrames(stream).value == [first] + DecodeFrames(rest).value
  {
    var p := Find(stream, NL, 0).value;
    var end := p + 1 + Numeral(stream[..p]);
    first, rest := stream[p + 1..end], stream[end..];
  }

  lemma {:induction false} FramedOfDecode(stream: string)
    requires DecodeFrames(stream).Some?
    ensures Flatten(FramedAll(DecodeFrames(stream).value)) == stream
    decreases |stream|
  {
    if stream != "" {
      var first, rest := FirstFrame(stream);
      FramedOfDecode(rest);
      TailOfAppend([first], DecodeFrames(rest).value);
    }
  }

  /** The decoder is the exact inverse of framing: a stream decodes to `payloads` when and only
      when it is the concatenation of their frames, whatever bytes the payloads hold. */
  lemma DecodeExact(stream: string, payloads: seq<string>)
    ensures DecodeFrames(stream) == Some(payloads) <==> stream == Flatten(FramedAll(payloads))
  {
    DecodeOfFramed(payloads);
    if DecodeFrames(stream).Some? {
      FramedOfDecode(stream);
    }
  }

  /** The declared length is the byte count after the newline, so an item's frame is canonical. */
  lemma ItemFrameIsCanonical(item: Item)
    ensures item.Frame() == Framed(item.Payload())
  {
  }

  lemma {:induction false} FramesAreCanonical(items: seq<Item>)
    ensures FramesOf(items) == FramedAll(Payloads(items))
  {
    if items != [] {
      ItemFrameIsCanonical(items[0]);
      FramesAreCanonical(items[1..]);
      assert Payloads(items)[1..] == Payloads(items[1..]);
    }
  }

  /** What `SocketClient::Send(const char*)` transmits of a batch: each frame up to its first NUL. */
  function Transmitted(items: seq<Item>): string {
    Flatten(CStrings(FramesOf(items)))
  }

  /** The receiver gets exactly the payload sequence back if and only if no frame holds a NUL. */
  lemma TransmissionDecodesIffNulFree(items: seq<Item>)
    ensures DecodeFrames(Transmitted(items)) == Some(Payloads(items))
       <==> forall f <- FramesOf(items) :: NUL !in f
  {
    FramesAreCanonical(items);
    FlattenCStrings(FramesOf(items));
    DecodeExact(Transmitted(items), Payloads(items));
  }

  /** A payload with a NUL is cut short, and the receiver does not get it. */
  lemma NulCutsTheFrame()
    ensures var items := [Item("s", 1, "a\0b")];
      DecodeFrames(Transmitted(items)) != Some(Payloads(items))
  {
    var item := Item("s", 1, "a\0b");
    var items, frame := [item], item.Frame();
    var before := Decimal(item.DeclaredLength()) + [NL] + "[\"" + item.source + "\"," + item.Tag() + ",";
    assert frame == before + "a\0b" + "]";
    assert frame[|before| + 1] == NUL;
    assert FramesOf(items)[0] == frame && frame in FramesOf(items);
    TransmissionDecodesIffNulFree(items);
  }
}
