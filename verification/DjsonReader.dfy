/** A reader of the payload format described in src/outmdsd/DjsonLogItem.h, written without looking
    at how payloads are made: it finds the source, the tag, the schema id, the columns and the
    values, the texts of the values being cut and read by the types of their columns. */
module DjsonReader {
  import opened Text
  import opened Frames
  import opened SchemaCache
  import opened DjsonItems

  // ----- values

  function ReadNat(text: string): Option<nat> {
    if text != "" && forall c <- text :: IsDigit(c) then Some(Numeral(text)) else None
  }

  function ReadInt(text: string): Option<int> {
    if text != "" && text[0] == '-' then
      var n: int :- ReadNat(text[1..]);
      Some(-n)
    else ReadNat(text)
  }

  function ReadBool(text: string): Option<bool> {
    if text == "true" then Some(true) else if text == "false" then Some(false) else None
  }

  /** "[seconds,nanoseconds]". */
  function ReadTime(text: string): Option<(nat, nat)> {
    if |text| < 2 || text[0] != '[' || text[|text| - 1] != ']' then None
    else
      var (s, ns) :- TakeUpTo(text[1..|text| - 1], ',');
      var seconds :- ReadNat(s);
      var nanoseconds :- ReadNat(ns);
      Some((seconds, nanoseconds))
  }

  function ReadValue(kind: string, text: string): Option<Value> {
    if kind == "FT_BOOL" then
      var b :- ReadBool(text);
      Some(BoolValue(b))
    else if kind == "FT_INT32" then
      var n :- ReadInt(text);
      Some(Int32Value(n))
    else if kind == "FT_INT64" then
      var n :- ReadInt(text);
      Some(Int64Value(n))
    else if kind == "FT_DOUBLE" then Some(DoubleValue(text))
    else if kind == "FT_TIME" then
      var (s, ns) :- ReadTime(text);
      Some(TimeValue(s, ns))
    else if kind == "FT_STRING" && |text| >= 2 && text[0] == '"' && text[|text| - 1] == '"' then
      Some(StringValue(text[1..|text| - 1]))
    else None
  }

  // ----- pieces

  /** What stands before the first `c`, and what after it. */
  function TakeUpTo(s: string, c: char): Option<(string, string)> {
    var p :- Find(s, c, 0);
    Some((s[..p], s[p + 1..]))
  }

  function TakeChar(s: string, c: char): (r: Option<string>)
    ensures r.Some? ==> |r.value| < |s|
  {
    if s != "" && s[0] == c then Some(s[1..]) else None
  }

  function TakeQuoted(s: string): (r: Option<(string, string)>)
    ensures r.Some? ==> |r.value.1| < |s|
  {
    var inside :- TakeChar(s, '"');
    TakeUpTo(inside, '"')
  }

  function TakeColumn(s: string): (r: Option<(Column, string)>)
    ensures r.Some? ==> |r.value.1| < |s|
  {
    var s1 :- TakeChar(s, '[');
    var (name, s2) :- TakeQuoted(s1);
    var s3 :- TakeChar(s2, ',');
    var (kind, s4) :- TakeQuoted(s3);
    var rest :- TakeChar(s4, ']');
    Some((Column(name, kind), rest))
  }

  /** Columns up to the bracket that closes their list. */
  function TakeColumns(s: string): Option<(Schema, string)>
    decreases |s|
  {
    var (column, s1) :- TakeColumn(s);
    if s1 != "" && s1[0] == ',' then
      var (columns, rest) :- TakeColumns(s1[1..]);
      Some(([column] + columns, rest))
    else
      var rest :- TakeChar(s1, ']');
      Some(([column], rest))
  }

  /** Where a text without brackets or quotes ends. */
  function ScalarEnd(s: string): (n: nat)
    ensures n <= |s| && (n < |s| ==> s[n] == ',' || s[n] == ']')
    ensures forall i :: 0 <= i < n ==> s[i] != ',' && s[i] != ']'
  {
    if s == "" || s[0] == ',' || s[0] == ']' then 0 else 1 + ScalarEnd(s[1..])
  }

  /** The text of one value, cut by its type. */
  function TakeText(kind: string, s: string): Option<(string, string)> {
    if kind == "FT_STRING" then
      var (inside, rest) :- TakeQuoted(s);
      Some(("\"" + inside + "\"", rest))
    else if kind == "FT_TIME" then
      var (before, rest) :- TakeUpTo(s, ']');
      Some((before + "]", rest))
    else Some((s[..ScalarEnd(s)], s[ScalarEnd(s)..]))
  }

  /** One value per column, up to the bracket that closes their list. */
  function TakeValues(columns: Schema, s: string): Option<(seq<Value>, string)> {
    if columns == [] then
      var rest :- TakeChar(s, ']');
      Some(([], rest))
    else
      var (text, s1) :- TakeText(columns[0].kind, s);
      var value :- ReadValue(columns[0].kind, text);
      var s2 :- if |columns| == 1 then Some(s1) else TakeChar(s1, ',');
      var (values, rest) :- TakeValues(columns[1..], s2);
      Some(([value] + values, rest))
  }

  // ----- the payload

  datatype Document = Document(source: string, tag: string, schemaId: nat, columns: Schema, values: seq<Value>)

  function ReadPayload(s: string): Option<Document> {
    var (source, tag, s4) :- ReadHead(s);
    var (id, s5) :- TakeUpTo(s4, ',');
    var schemaId :- ReadNat(id);
    var s6 :- TakeChar(s5, '[');
    var (columns, s7) :- TakeColumns(s6);
    var s8 :- TakeChar(s7, ',');
    var s9 :- TakeChar(s8, '[');
    var (values, s10) :- TakeValues(columns, s9);
    if s10 == "]" then Some(Document(source, tag, schemaId, columns, values)) else None
  }

  // ----- values come back

  /** The type names do not tell an unsigned 32-bit value from a signed 64-bit one. */
  function Merged(v: Value): Value {
    match v
    case UInt32Value(u) => Int64Value(u)
    case _ => v
  }

  lemma UpToRead(x: string, c: char, rest: string)
    requires c !in x
    ensures TakeUpTo(x + [c] + rest, c) == Some((x, rest))
  {
    var s := x + [c] + rest;
    assert forall i :: 0 <= i < |x| ==> s[i] == x[i];
    FindIs(s, c, 0, |x|);
    assert s[..|x|] == x && s[|x| + 1..] == rest;
  }

  lemma NatRead(n: nat)
    ensures ReadNat(Decimal(n)) == Some(n) && ReadInt(Decimal(n)) == Some(n)
  {
    NumeralOfDecimal(n);
    assert IsDigit(Decimal(n)[0]);
  }

  lemma IntRead(n: int)
    ensures ReadInt(Signed(n)) == Some(n)
  {
    if n >= 0 {
      NatRead(n);
    } else {
      NatRead(-n);
      assert ("-" + Decimal(-n))[1..] == Decimal(-n);
    }
  }

  lemma Bracketed(x: string)
    ensures var text := "[" + x + "]";
      |text| >= 2 && text[0] == '[' && text[|text| - 1] == ']' && text[1..|text| - 1] == x
  {
  }

  lemma TimeRead(s: nat, ns: nat)
    ensures ReadTime("[" + (Decimal(s) + [','] + Decimal(ns)) + "]") == Some((s, ns))
  {
    DecimalHasNo(s, ',');
    Bracketed(Decimal(s) + [','] + Decimal(ns));
    UpToRead(Decimal(s), ',', Decimal(ns));
    NatRead(s);
    NatRead(ns);
  }

  lemma TimeText(a: string, b: string)
    ensures "[" + a + "," + b + "]" == "[" + (a + [','] + b) + "]"
  {
  }

  /** Reading the text of a value by its type name gives back every value `AddData` accepts, up to
      the two integer types that share a name. */
  lemma ValueReadsBack(v: Value)
    ensures ReadValue(TypeName(v), ValueText(v)) == Some(Merged(v))
  {
    match v
    case BoolValue(_) =>
    case Int32Value(n) => IntRead(n);
    case UInt32Value(u) => NatRead(u);
    case Int64Value(n) => IntRead(n);
    case DoubleValue(_) =>
    case TimeValue(s, ns) =>
      TimeText(Decimal(s), Decimal(ns));
      TimeRead(s, ns);
    case StringValue(s) => assert ("\"" + s + "\"")[1..|s| + 1] == s;
  }

  // ----- pieces come back

  predicate QuoteFree(s: string) {
    '"' !in s
  }

  /** What the unescaped format can carry: strings without quotes, and double texts that look like
      numbers at least in having no separator in them. */
  predicate Plain(v: Value) {
    match v
    case StringValue(s) => QuoteFree(s)
    case DoubleValue(text) => ',' !in text && ']' !in text
    case _ => true
  }

  function Quoted(x: string, rest: string): string {
    ['"'] + (x + ['"'] + rest)
  }

  lemma QuotedRead(x: string, rest: string)
    requires QuoteFree(x)
    ensures TakeQuoted(Quoted(x, rest)) == Some((x, rest))
  {
    UpToRead(x, '"', rest);
  }

  lemma CharRead(c: char, rest: string)
    ensures TakeChar([c] + rest, c) == Some(rest)
  {
  }

  lemma ColumnShape(c: Column, rest: string)
    ensures ColumnText(c) + rest == ['['] + Quoted(c.name, [','] + Quoted(c.kind, [']'] + rest))
  {
  }

  lemma ColumnRead(c: Column, rest: string)
    requires QuoteFree(c.name) && QuoteFree(c.kind)
    ensures TakeColumn(ColumnText(c) + rest) == Some((c, rest))
  {
    ColumnShape(c, rest);
    var s4 := [']'] + rest;
    var s2 := [','] + Quoted(c.kind, s4);
    CharRead('[', Quoted(c.name, s2));
    QuotedRead(c.name, s2);
    CharRead(',', Quoted(c.kind, s4));
    QuotedRead(c.kind, s4);
    CharRead(']', rest);
  }

  predicate QuoteFreeColumns(schema: Schema) {
    forall c <- schema :: QuoteFree(c.name) && QuoteFree(c.kind)
  }

  lemma JoinShape(parts: seq<string>, rest: string)
    requires |parts| > 1
    ensures Join(parts, ",") + rest == parts[0] + ([','] + (Join(parts[1..], ",") + rest))
  {
  }

  lemma LastColumn(c: Column, rest: string)
    requires QuoteFree(c.name) && QuoteFree(c.kind)
    ensures TakeColumns(ColumnText(c) + ([']'] + rest)) == Some(([c], rest))
  {
    ColumnRead(c, [']'] + rest);
    CharRead(']', rest);
  }

  lemma ColumnThenMore(c: Column, more: string, columns: Schema, rest: string)
    requires QuoteFree(c.name) && QuoteFree(c.kind) && TakeColumns(more) == Some((columns, rest))
    ensures TakeColumns(ColumnText(c) + ([','] + more)) == Some(([c] + columns, rest))
  {
    ColumnRead(c, [','] + more);
    assert ([','] + more)[1..] == more;
  }

  lemma JoinColumns(schema: Schema, tail: string)
    requires schema != []
    ensures |schema| == 1 ==> Join(ColumnTexts(schema), ",") == ColumnText(schema[0])
    ensures |schema| > 1 ==>
      Join(ColumnTexts(schema), ",") + tail ==
        ColumnText(schema[0]) + ([','] + (Join(ColumnTexts(schema[1..]), ",") + tail))
  {
    if |schema| > 1 {
      assert ColumnTexts(schema)[1..] == ColumnTexts(schema[1..]);
      JoinShape(ColumnTexts(schema), tail);
    }
  }

  lemma HeadAndTail<T>(s: seq<T>)
    requires s != []
    ensures s == [s[0]] + s[1..] && (|s| == 1 ==> s == [s[0]])
  {
  }

  lemma {:induction false} ColumnsRead(schema: Schema, rest: string)
    requires schema != [] && QuoteFreeColumns(schema)
    ensures TakeColumns(Join(ColumnTexts(schema), ",") + ([']'] + rest)) == Some((schema, rest))
    decreases |schema|
  {
    var tail := [']'] + rest;
    JoinColumns(schema, tail);
    HeadAndTail(schema);
    if |schema| == 1 {
      LastColumn(schema[0], rest);
    } else {
      ColumnsRead(schema[1..], rest);
      ColumnThenMore(schema[0], Join(ColumnTexts(schema[1..]), ",") + tail, schema[1..], rest);
    }
  }

  predicate Separator(c: char) {
    c == ',' || c == ']'
  }

  lemma ScalarRead(x: string, rest: string)
    requires (forall c <- x :: !Separator(c)) && rest != "" && Separator(rest[0])
    ensures ScalarEnd(x + rest) == |x|
  {
    var s := x + rest;
    var n := ScalarEnd(s);
    assert s[|x|] == rest[0];
    assert forall i :: 0 <= i < |x| ==> s[i] == x[i] && x[i] in x;
  }

  lemma SignedIsScalar(n: int)
    ensures forall c <- Signed(n) :: !Separator(c)
  {
  }

  lemma TimeShape(a: string, b: string, rest: string)
    ensures "[" + a + "," + b + "]" + rest == ("[" + a + "," + b) + [']'] + rest
  {
  }

  lemma StringShape(x: string, rest: string)
    ensures "\"" + x + "\"" + rest == Quoted(x, rest)
  {
  }

  lemma ScalarTextRead(v: Value, rest: string)
    requires !v.StringValue? && !v.TimeValue? && Plain(v) && rest != "" && Separator(rest[0])
    ensures TakeText(TypeName(v), ValueText(v) + rest) == Some((ValueText(v), rest))
  {
    match v {
      case Int32Value(n) => SignedIsScalar(n);
      case UInt32Value(u) => SignedIsScalar(u);
      case Int64Value(n) => SignedIsScalar(n);
      case _ =>
    }
    ScalarRead(ValueText(v), rest);
  }

  lemma TextRead(v: Value, rest: string)
    requires Plain(v) && rest != "" && Separator(rest[0])
    ensures TakeText(TypeName(v), ValueText(v) + rest) == Some((ValueText(v), rest))
  {
    match v
    case StringValue(x) =>
      StringShape(x, rest);
      QuotedRead(x, rest);
    case TimeValue(s, ns) =>
      var before := "[" + Decimal(s) + "," + Decimal(ns);
      DecimalHasNo(s, ']');
      DecimalHasNo(ns, ']');
      TimeShape(Decimal(s), Decimal(ns), rest);
      UpToRead(before, ']', rest);
    case _ =>
      ScalarTextRead(v, rest);
  }

  function ValuesOf(fields: seq<Field>): (r: seq<Value>)
    ensures |r| == |fields| && forall i :: 0 <= i < |r| ==> r[i] == Merged(fields[i].value)
  {
    if fields == [] then [] else [Merged(fields[0].value)] + ValuesOf(fields[1..])
  }

  predicate PlainFields(fields: seq<Field>) {
    forall f <- fields :: QuoteFree(f.name) && Plain(f.value)
  }

  lemma FirstFieldShape(fields: seq<Field>)
    requires fields != []
    ensures SchemaOf(fields)[0].kind == TypeName(fields[0].value) && SchemaOf(fields)[1..] == SchemaOf(fields[1..])
    ensures Texts(fields)[0] == ValueText(fields[0].value) && Texts(fields)[1..] == Texts(fields[1..])
    ensures |SchemaOf(fields)| == |Texts(fields)| == |fields|
  {
  }

  lemma {:induction false} ValuesRead(fields: seq<Field>, rest: string)
    requires fields != [] && PlainFields(fields)
    ensures TakeValues(SchemaOf(fields), Join(Texts(fields), ",") + ([']'] + rest)) == Some((ValuesOf(fields), rest))
    decreases |fields|
  {
    var v := fields[0].value;
    FirstFieldShape(fields);
    ValueReadsBack(v);
    if |fields| == 1 {
      TextRead(v, [']'] + rest);
      CharRead(']', rest);
      assert SchemaOf(fields)[1..] == [];
    } else {
      var more := Join(Texts(fields[1..]), ",") + ([']'] + rest);
      JoinShape(Texts(fields), [']'] + rest);
      TextRead(v, [','] + more);
      CharRead(',', more);
      ValuesRead(fields[1..], rest);
    }
  }

  // ----- payloads come back

  /** The schema part and the value part of an item's text, up to the end of the payload. */
  function Body(id: nat, columns: string, values: string): string {
    Decimal(id) + [','] + (['['] + (columns + ([']'] + ([','] + (['['] + (values + ([']'] + "]")))))))
  }

  lemma BodyShape(id: nat, columns: string, values: string)
    ensures Decimal(id) + "," + ("[" + columns + "],") + ("[" + values + "]") + "]" == Body(id, columns, values)
  {
    var tail := "[" + values + "]" + "]";
    assert tail == ['['] + (values + ([']'] + "]"));
    assert "[" + columns + "]," + tail == ['['] + (columns + ([']'] + ([','] + tail)));
    Assoc(Decimal(id) + ",", "[" + columns + "],", tail);
  }

  lemma PayloadShape(item: Item, body: string)
    requires item.schemaAndData + "]" == body
    ensures item.Payload() == ['['] + Quoted(item.source, [','] + (item.Tag() + [','] + body))
  {
  }

  lemma TypeNameIsQuoteFree(v: Value)
    ensures QuoteFree(TypeName(v))
  {
  }

  lemma {:induction false} ColumnsAreQuoteFree(fields: seq<Field>)
    requires PlainFields(fields)
    ensures QuoteFreeColumns(SchemaOf(fields))
  {
    if fields != [] {
      TypeNameIsQuoteFree(fields[0].value);
      ColumnsAreQuoteFree(fields[1..]);
    }
  }

  /** What the reader makes of a payload with the given parts. */
  lemma PartsRead(source: string, tag: nat, id: nat, fields: seq<Field>)
    requires QuoteFree(source) && fields != [] && PlainFields(fields)
    ensures var columns, values := Join(ColumnTexts(SchemaOf(fields)), ","), Join(Texts(fields), ",");
      ReadPayload(['['] + Quoted(source, [','] + (Decimal(tag) + [','] + Body(id, columns, values)))) ==
        Some(Document(source, Decimal(tag), id, SchemaOf(fields), ValuesOf(fields)))
  {
    var columns, values := Join(ColumnTexts(SchemaOf(fields)), ","), Join(Texts(fields), ",");
    var s9 := values + ([']'] + "]");
    var s8 := ['['] + s9;
    var s7 := [','] + s8;
    var s6 := columns + ([']'] + s7);
    var body := Body(id, columns, values);
    ColumnsAreQuoteFree(fields);
    DecimalHasNo(tag, ',');
    DecimalHasNo(id, ',');
    NatRead(id);
    CharRead('[', Quoted(source, [','] + (Decimal(tag) + [','] + body)));
    QuotedRead(source, [','] + (Decimal(tag) + [','] + body));
    CharRead(',', Decimal(tag) + [','] + body);
    UpToRead(Decimal(tag), ',', body);
    UpToRead(Decimal(id), ',', ['['] + s6);
    CharRead('[', s6);
    ColumnsRead(SchemaOf(fields), s7);
    CharRead(',', s8);
    CharRead('[', s9);
    ValuesRead(fields, "]");
  }

  /** The first `GetData` of an item: its frame decodes to one payload, and that reads back to the
      item's source, tag and fields, with the id the schema cache has for its columns.  It needs a
      field at all, its own schema in the cache if any, and text the unescaped format can carry. */
  lemma FirstFrameReadsBack(m: Memo, cache: map<string, Entry>)
    requires m.djsonData == "" && m.schemaAndData == "" && m.fields != []
    requires QuoteFree(m.source) && PlainFields(m.fields)
    requires var schema := SchemaOf(m.fields); Key(schema) in cache ==> cache[Key(schema)].1 == SchemaArray(schema)
    ensures var (_, cache', r) := GetDataSpec(m, cache);
      var schema := SchemaOf(m.fields);
      && r.Ok? && Key(schema) in cache'
      && exists payload ::
        && DecodeFrames(r.value) == Some([payload])
        && ReadPayload(payload) ==
           Some(Document(m.source, Decimal(m.id), cache'[Key(schema)].0, schema, ValuesOf(m.fields)))
  {
    var schema := SchemaOf(m.fields);
    SchemaIsTyped(m.fields);
    KeyNotEmpty(schema);
    var (_, cache', r) := GetDataSpec(m, cache);
    var id := cache'[Key(schema)].0;
    var item := Item(m.source, m.id, SchemaAndData(id, SchemaArray(schema), Texts(m.fields)));
    var columns, values := Join(ColumnTexts(schema), ","), Join(Texts(m.fields), ",");
    assert r == Ok(item.Frame());
    BodyShape(id, columns, values);
    PayloadShape(item, Body(id, columns, values));
    PartsRead(m.source, m.id, id, m.fields);
    OneFrame(item);
  }

  /** The item made of given text: its frame decodes to one payload, which begins with its source
      and tag, and the rest is the text and the closing bracket. */
  lemma GivenTextReadsBack(m: Memo, cache: map<string, Entry>)
    requires m.djsonData == "" && m.schemaAndData != "" && QuoteFree(m.source)
    ensures var (_, cache', r) := GetDataSpec(m, cache);
      && cache' == cache && r.Ok?
      && exists payload ::
        && DecodeFrames(r.value) == Some([payload])
        && ReadHead(payload) == Some((m.source, Decimal(m.id), m.schemaAndData + "]"))
  {
    var item := Item(m.source, m.id, m.schemaAndData);
    var body := m.schemaAndData + "]";
    DecimalHasNo(m.id, ',');
    PayloadShape(item, body);
    CharRead('[', Quoted(m.source, [','] + (item.Tag() + [','] + body)));
    QuotedRead(m.source, [','] + (item.Tag() + [','] + body));
    CharRead(',', item.Tag() + [','] + body);
    UpToRead(item.Tag(), ',', body);
    OneFrame(item);
  }

  /** The source, the tag and what follows them. */
  function ReadHead(s: string): Option<(string, string, string)> {
    var s1 :- TakeChar(s, '[');
    var (source, s2) :- TakeQuoted(s1);
    var s3 :- TakeChar(s2, ',');
    var (tag, rest) :- TakeUpTo(s3, ',');
    Some((source, tag, rest))
  }

  lemma OneFrame(item: Item)
    ensures DecodeFrames(item.Frame()) == Some([item.Payload()])
  {
    ItemFrameIsCanonical(item);
    DecodeExact(item.Frame(), [item.Payload()]);
    assert FramedAll([item.Payload()]) == [Framed(item.Payload())];
    assert Flatten([item.Frame()]) == item.Frame() + "";
  }

  /** Strings are not escaped: with quotes in them different values make the same text, so that no
      reader could tell them apart. */
  lemma QuotesAreAmbiguous()
    ensures var a := [Field("x", StringValue("1\",\"2")), Field("y", StringValue("3"))];
      var b := [Field("x", StringValue("1")), Field("y", StringValue("2\",\"3"))];
      SchemaOf(a) == SchemaOf(b) && Join(Texts(a), ",") == Join(Texts(b), ",") && ValuesOf(a) != ValuesOf(b)
  {
    var a := [Field("x", StringValue("1\",\"2")), Field("y", StringValue("3"))];
    var b := [Field("x", StringValue("1")), Field("y", StringValue("2\",\"3"))];
    assert "\"" + "1\",\"2" + "\"" == "\"1\",\"2\"" && "\"" + "2\",\"3" + "\"" == "\"2\",\"3\"";
    assert "\"" + "1" + "\"" == "\"1\"" && "\"" + "3" + "\"" == "\"3\"";
    assert Texts(a) == ["\"1\",\"2\"", "\"3\""] && Texts(b) == ["\"1\"", "\"2\",\"3\""];
    assert ValuesOf(a)[0] == StringValue("1\",\"2") && ValuesOf(b)[0] == StringValue("1");
    assert "1\",\"2"[1] == '"';
  }
}
