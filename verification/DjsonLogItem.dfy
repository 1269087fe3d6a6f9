/** The log item of src/outmdsd/DjsonLogItem.cc: its loops, its two memo fields, and the bytes it
    hands to every transmission. */
module DjsonItems {
  import opened Text
  import opened Frames
  import opened SchemaCache

  datatype Field = Field(name: string, value: Value)

  function SchemaOf(fields: seq<Field>): (r: Schema)
    ensures |r| == |fields|
    ensures forall i :: 0 <= i < |r| ==> r[i] == Column(fields[i].name, TypeName(fields[i].value))
  {
    if fields == [] then [] else [Column(fields[0].name, TypeName(fields[0].value))] + SchemaOf(fields[1..])
  }

  function Texts(fields: seq<Field>): (r: seq<string>)
    ensures |r| == |fields| && forall i :: 0 <= i < |r| ==> r[i] == ValueText(fields[i].value)
  {
    if fields == [] then [] else [ValueText(fields[0].value)] + Texts(fields[1..])
  }

  /** `AddData` only produces the fixed type names, so every item's schema is typed. */
  lemma SchemaIsTyped(fields: seq<Field>)
    ensures Typed(SchemaOf(fields))
  {
    forall i | 0 <= i < |fields| ensures SchemaOf(fields)[i].kind in TYPES {
      assert SchemaOf(fields)[i].kind == TypeName(fields[i].value);
    }
  }

  function SchemaAndData(id: nat, schemaArray: string, texts: seq<string>): string {
    Decimal(id) + "," + schemaArray + ("[" + Join(texts, ",") + "]")
  }

  /** The fields of an item that `GetData` reads and writes. */
  datatype Memo = Memo(source: string, id: nat, fields: seq<Field>, schemaAndData: string, djsonData: string)

  /** One call of `GetData` as a function: the item and the schema cache afterwards, and the
      result. */
  function GetDataSpec(m: Memo, cache: map<string, Entry>): (Memo, map<string, Entry>, Result<string>) {
    if m.djsonData != "" then (m, cache, Ok(m.djsonData))
    else if m.schemaAndData != "" then
      var frame := Item(m.source, m.id, m.schemaAndData).Frame();
      (m.(djsonData := frame), cache, Ok(frame))
    else
      var schema := SchemaOf(m.fields);
      match GetItemSpec(cache, Key(schema))
      case Err(e) => (m, cache, Err(e))
      case Ok(Some(entry)) => Composed(m, cache, entry.0, entry.1)
      case Ok(None) =>
        match FindOrInsertSpec(cache, Key(schema), SchemaArray(schema))
        case (cache', Err(e)) => (m, cache', Err(e))
        case (cache', Ok(id)) => Composed(m, cache', id, SchemaArray(schema))
  }

  function Composed(m: Memo, cache: map<string, Entry>, id: nat, schemaArray: string)
    : (Memo, map<string, Entry>, Result<string>)
  {
    var text := SchemaAndData(id, schemaArray, Texts(m.fields));
    var frame := Item(m.source, m.id, text).Frame();
    (m.(fields := [], schemaAndData := text, djsonData := frame), cache, Ok(frame))
  }

  // ----- identical bytes

  /** The results of successive calls, the schema cache being whatever other items made of it. */
  function Results(m: Memo, caches: seq<map<string, Entry>>): seq<Result<string>>
    decreases |caches|
  {
    if caches == [] then []
    else
      var (m', _, r) := GetDataSpec(m, caches[0]);
      [r] + Results(m', caches[1..])
  }

  /** When the first composition of an item, undisturbed, throws: exactly when it has no fields. */
  lemma ComposingThrowsIffNoFields(m: Memo, cache: map<string, Entry>)
    requires m.djsonData == "" && m.schemaAndData == ""
    ensures GetDataSpec(m, cache).2.Err? <==> m.fields == []
    ensures m.fields == [] ==> GetDataSpec(m, cache).2 == Err(InvalidArgument)
  {
    SchemaIsTyped(m.fields);
    KeyNotEmpty(SchemaOf(m.fields));
  }

  lemma {:induction false} MemoizedForEver(m: Memo, caches: seq<map<string, Entry>>, i: nat)
    requires m.djsonData != "" && i < |caches|
    ensures |Results(m, caches)| == |caches| && Results(m, caches)[i] == Ok(m.djsonData)
    decreases |caches|
  {
    if |caches| > 1 {
      MemoizedForEver(m, caches[1..], if i > 0 then i - 1 else 0);
    }
  }

  lemma OkIsMemoized(m: Memo, cache: map<string, Entry>)
    ensures var (m', _, r) := GetDataSpec(m, cache);
      r.Ok? ==> m'.djsonData == r.value && r.value != "" && m'.source == m.source && m'.id == m.id
  {
  }

  /** Every transmission of an item, first or again, carries identical bytes: once a `GetData` has
      succeeded, every later one returns the same string, whatever other items do to the schema
      cache meanwhile. */
  lemma {:induction false} SameBytesEveryTime(m: Memo, caches: seq<map<string, Entry>>, i: nat, j: nat)
    requires i < j < |caches|
    ensures |Results(m, caches)| == |caches|
    ensures Results(m, caches)[i].Ok? ==> Results(m, caches)[j] == Results(m, caches)[i]
    decreases |caches|
  {
    var (m', _, r) := GetDataSpec(m, caches[0]);
    OkIsMemoized(m, caches[0]);
    if i > 0 {
      SameBytesEveryTime(m', caches[1..], i - 1, j - 1);
    } else {
      ResultsLength(m', caches[1..]);
      if r.Ok? {
        MemoizedForEver(m', caches[1..], j - 1);
      }
    }
  }

  lemma {:induction false} ResultsLength(m: Memo, caches: seq<map<string, Entry>>)
    ensures |Results(m, caches)| == |caches|
    decreases |caches|
  {
    if caches != [] {
      ResultsLength(GetDataSpec(m, caches[0]).0, caches[1..]);
    }
  }

  // ----- the class

  lemma {:induction false} KeySnoc(schema: Schema, c: Column)
    ensures Key(schema + [c]) == Key(schema) + c.name + c.kind
  {
    if schema == [] {
      assert schema + [c] == [c] && Key([c][1..]) == "";
    } else {
      KeySnoc(schema[1..], c);
      assert (schema + [c])[1..] == schema[1..] + [c];
      AssocFour(schema[0].name + schema[0].kind, Key(schema[1..]), c.name, c.kind);
    }
  }

  lemma AssocFour(a: string, b: string, c: string, d: string)
    ensures a + (b + c + d) == a + b + c + d
  {
  }

  lemma TakeSnoc<T>(s: seq<T>, i: nat)
    requires i < |s|
    ensures s[..i + 1] == s[..i] + [s[i]]
  {
  }

  /** What a loop over `parts` has written after `i` turns: an opening bracket, and a comma after
      each part but the last. */
  function Written(parts: seq<string>, i: nat): string
    requires i <= |parts|
  {
    "[" + Join(parts[..i], ",") + if 0 < i < |parts| then "," else ""
  }

  lemma WrittenStep(parts: seq<string>, i: nat, strm: string)
    requires i < |parts| && strm == Written(parts, i)
    ensures Written(parts, i + 1) == strm + parts[i] + if i != |parts| - 1 then "," else ""
  {
    TakeSnoc(parts, i);
    JoinSnoc(parts[..i], parts[i], ",");
  }

  lemma WrittenAll(parts: seq<string>)
    ensures Written(parts, |parts|) == "[" + Join(parts, ",")
  {
    assert parts[..|parts|] == parts;
  }

  class DjsonLogItem {
    const source: string
    /** The value of `LogItem::s_counter` that made the tag. */
    const id: nat
    var schemaAndData: string
    var svlist: seq<Field>
    var djsonData: string

    ghost function State(): Memo
      reads this
    {
      Memo(source, id, svlist, schemaAndData, djsonData)
    }

    constructor (source: string, id: nat, schemaAndData: string)
      ensures State() == Memo(source, id, [], schemaAndData, "")
    {
      this.source, this.id, this.schemaAndData := source, id, schemaAndData;
      svlist, djsonData := [], "";
    }

    method AddData(name: string, value: Value)
      modifies this`svlist
      ensures svlist == old(svlist) + [Field(name, value)]
    {
      svlist := svlist + [Field(name, value)];
    }

    method GetSchemaCacheKey() returns (key: string)
      ensures key == Key(SchemaOf(svlist))
    {
      key := "";
      ghost var schema := SchemaOf(svlist);
      for i := 0 to |svlist|
        invariant key == Key(schema[..i])
      {
        TakeSnoc(schema, i);
        KeySnoc(schema[..i], schema[i]);
        key := key + svlist[i].name + TypeName(svlist[i].value);
      }
      assert schema[..|svlist|] == schema;
    }

    method ComposeSchemaArray() returns (strm: string)
      ensures strm == SchemaArray(SchemaOf(svlist))
    {
      strm := "[";
      ghost var parts := ColumnTexts(SchemaOf(svlist));
      for i := 0 to |svlist|
        invariant strm == Written(parts, i)
      {
        WrittenStep(parts, i, strm);
        var part := "[\"" + svlist[i].name + "\",\"" + TypeName(svlist[i].value) + "\"]";
        strm := strm + part;
        if i != |svlist| - 1 {
          strm := strm + ",";
        }
      }
      WrittenAll(parts);
      strm := strm + "],";
    }

    method ComposeDataValue() returns (strm: string)
      ensures strm == "[" + Join(Texts(svlist), ",") + "]"
    {
      strm := "[";
      ghost var parts := Texts(svlist);
      for i := 0 to |svlist|
        invariant strm == Written(parts, i)
      {
        WrittenStep(parts, i, strm);
        strm := strm + ValueText(svlist[i].value);
        if i != |svlist| - 1 {
          strm := strm + ",";
        }
      }
      WrittenAll(parts);
      strm := strm + "]";
    }

    method ComposeSchema(mgr: IdMgr) returns (r: Result<string>)
      modifies mgr
      ensures var key, schemaArray := Key(SchemaOf(svlist)), SchemaArray(SchemaOf(svlist));
        if key == "" then r == Err(InvalidArgument) && mgr.cache == old(mgr.cache)
        else if key in old(mgr.cache) then
          r == Ok(Decimal(old(mgr.cache)[key].0) + "," + old(mgr.cache)[key].1) && mgr.cache == old(mgr.cache)
        else
          r == Ok(Decimal(|old(mgr.cache)| + 1) + "," + schemaArray) &&
          mgr.cache == old(mgr.cache)[key := (|old(mgr.cache)| + 1, schemaArray)]
    {
      var key := GetSchemaCacheKey();
      var found := mgr.GetItem(key);
      match found
      case Err(e) => return Err(e);
      case Ok(Some(entry)) => return Ok(Decimal(entry.0) + "," + entry.1);
      case Ok(None) =>
        var schemaArray := ComposeSchemaArray();
        var id := mgr.FindOrInsert(key, schemaArray);
        match id
        case Err(e) => return Err(e);
        case Ok(n) => return Ok(Decimal(n) + "," + schemaArray);
    }

    method ComposeFullData()
      modifies this`djsonData
      ensures djsonData == Item(source, id, schemaAndData).Frame()
    {
      var tag := Decimal(id);
      var len := 2 + |source| + 2 + |tag| + 1 + |schemaAndData| + 1;
      djsonData := Decimal(len);
      djsonData := djsonData + "\n[\"" + source + "\"," + tag + "," + schemaAndData + "]";
      assert "\n[\"" == "\n" + "[\"";
    }

    method GetData(mgr: IdMgr) returns (r: Result<string>)
      modifies this, mgr
      ensures (State(), mgr.cache, r) == GetDataSpec(old(State()), old(mgr.cache))
    {
      if djsonData == "" {
        if schemaAndData == "" {
          var composed := ComposeSchema(mgr);
          if composed.Err? {
            return Err(composed.error);
          }
          var values := ComposeDataValue();
          svlist := [];
          schemaAndData := composed.value + values;
        }
        ComposeFullData();
      }
      return Ok(djsonData);
    }
  }
}
