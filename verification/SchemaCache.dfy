/** The schema cache: src/outmdsd/IdMgr.cc and the schema part of src/outmdsd/DjsonLogItem.cc. */
module SchemaCache {
  import opened Text

  // ----- fields

  /** The argument of an `AddData` overload.  The text of a double is taken as formatted. */
  datatype Value =
    | BoolValue(b: bool)
    | Int32Value(n: int)
    | UInt32Value(u: nat)
    | Int64Value(n: int)
    | DoubleValue(text: string)
    | TimeValue(seconds: nat, nanoseconds: nat)
    | StringValue(s: string)

  function Signed(n: int): string {
    if n >= 0 then Decimal(n) else "-" + Decimal(-n)
  }

  function TypeName(v: Value): string {
    match v
    case BoolValue(_) => "FT_BOOL"
    case Int32Value(_) => "FT_INT32"
    case UInt32Value(_) => "FT_INT64"
    case Int64Value(_) => "FT_INT64"
    case DoubleValue(_) => "FT_DOUBLE"
    case TimeValue(_, _) => "FT_TIME"
    case StringValue(_) => "FT_STRING"
  }

  function ValueText(v: Value): string {
    match v
    case BoolValue(b) => if b then "true" else "false"
    case Int32Value(n) => Signed(n)
    case UInt32Value(u) => Decimal(u)
    case Int64Value(n) => Signed(n)
    case DoubleValue(text) => text
    case TimeValue(s, ns) => "[" + Decimal(s) + "," + Decimal(ns) + "]"
    case StringValue(s) => "\"" + s + "\""
  }

  /** The type names `AddData` can produce. */
  const TYPES: set<string> := {"FT_BOOL", "FT_INT32", "FT_INT64", "FT_DOUBLE", "FT_TIME", "FT_STRING"}

  /** Name and type name, which is all the schema depends on. */
  datatype Column = Column(name: string, kind: string)

  type Schema = seq<Column>

  predicate Typed(schema: Schema) {
    forall i :: 0 <= i < |schema| ==> schema[i].kind in TYPES
  }

  // ----- the cache key

  function Key(schema: Schema): string {
    if schema == [] then "" else schema[0].name + schema[0].kind + Key(schema[1..])
  }

  /** "FT_" occurs at `i`. */
  predicate MarkAt(s: string, i: int) {
    0 <= i && i + 3 <= |s| && s[i] == 'F' && s[i + 1] == 'T' && s[i + 2] == '_'
  }

  /** The name does not contain "FT_". */
  ghost predicate Unmarked(name: string) {
    forall i :: !MarkAt(name, i)
  }

  ghost predicate AllUnmarked(schema: Schema) {
    Typed(schema) && forall i :: 0 <= i < |schema| ==> Unmarked(schema[i].name)
  }

  /** The first mark in `name + kind + rest` is where the type name begins. */
  lemma FirstMark(name: string, kind: string, rest: string)
    requires Unmarked(name) && kind in TYPES
    ensures MarkAt(name + kind + rest, |name|)
    ensures forall i :: 0 <= i < |name| ==> !MarkAt(name + kind + rest, i)
  {
    var s := name + kind + rest;
    var n := |name|;
    assert s[n] == kind[0] == 'F' && s[n + 1] == kind[1] == 'T' && s[n + 2] == kind[2] == '_';
    forall i | 0 <= i < n ensures !MarkAt(s, i) {
      assert !MarkAt(name, i);
      assert s[i] == name[i] && (i + 1 < n ==> s[i + 1] == name[i + 1]) && (i + 2 < n ==> s[i + 2] == name[i + 2]);
    }
  }

  /** No type name is a proper prefix of another. */
  lemma TypesPrefixFree(k1: string, r1: string, k2: string, r2: string)
    requires k1 in TYPES && k2 in TYPES && k1 + r1 == k2 + r2
    ensures k1 == k2 && r1 == r2
  {
    var s := k1 + r1;
    assert s[3] == k1[3] == k2[3] && s[4] == k1[4] == k2[4] && s[5] == k1[5] == k2[5] && s[6] == k1[6] == k2[6];
    assert |k1| > 7 && |k2| > 7 ==> k1[7] == s[7] == k2[7];
    assert r1 == s[|k1|..] && r2 == s[|k2|..];
  }

  lemma FirstColumn(c1: Column, r1: string, c2: Column, r2: string)
    requires Unmarked(c1.name) && Unmarked(c2.name) && c1.kind in TYPES && c2.kind in TYPES
    requires c1.name + c1.kind + r1 == c2.name + c2.kind + r2
    ensures c1 == c2 && r1 == r2
  {
    var s := c1.name + c1.kind + r1;
    FirstMark(c1.name, c1.kind, r1);
    FirstMark(c2.name, c2.kind, r2);
    assert |c1.name| == |c2.name|;
    assert c1.name == s[..|c1.name|] && c2.name == s[..|c1.name|];
    assert c1.kind + r1 == s[|c1.name|..] && c2.kind + r2 == s[|c1.name|..];
    TypesPrefixFree(c1.kind, r1, c2.kind, r2);
  }

  lemma KeyNotEmpty(schema: Schema)
    requires Typed(schema)
    ensures schema != [] ==> Key(schema) != ""
  {
  }

  /** Unique decodability: names without "FT_" make the separator-free concatenation injective. */
  lemma {:induction false} KeyInjective(a: Schema, b: Schema)
    requires AllUnmarked(a) && AllUnmarked(b) && Key(a) == Key(b)
    ensures a == b
  {
    KeyNotEmpty(a);
    KeyNotEmpty(b);
    if a != [] && b != [] {
      FirstColumn(a[0], Key(a[1..]), b[0], Key(b[1..]));
      KeyInjective(a[1..], b[1..]);
      assert a == [a[0]] + a[1..] && b == [b[0]] + b[1..];
    }
  }

  // ----- the schema array

  function ColumnText(c: Column): string {
    "[\"" + c.name + "\",\"" + c.kind + "\"]"
  }

  function ColumnTexts(schema: Schema): (r: seq<string>)
    ensures |r| == |schema| && forall i :: 0 <= i < |r| ==> r[i] == ColumnText(schema[i])
  {
    if schema == [] then [] else [ColumnText(schema[0])] + ColumnTexts(schema[1..])
  }

  function SchemaArray(schema: Schema): string {
    "[" + Join(ColumnTexts(schema), ",") + "],"
  }

  /** In general the key is not injective: two columns and one column with the same key and
      different schemas. */
  lemma KeyCollision()
    ensures var a := [Column("a", "FT_INT32"), Column("b", "FT_BOOL")];
      var b := [Column("aFT_INT32b", "FT_BOOL")];
      Typed(a) && Typed(b) && Key(a) == Key(b) && SchemaArray(a) != SchemaArray(b)
  {
    var a := [Column("a", "FT_INT32"), Column("b", "FT_BOOL")];
    var b := [Column("aFT_INT32b", "FT_BOOL")];
    KeyOne(a[0], [a[1]]);
    KeyOne(a[1], []);
    KeyOne(b[0], []);
    assert a == [a[0]] + [a[1]] && [a[1]] == [a[1]] + [] && b == [b[0]] + [];
    assert Key(a) == "a" + "FT_INT32" + ("b" + "FT_BOOL" + "");
    assert Key(b) == "aFT_INT32b" + "FT_BOOL" + "";
    assert ColumnTexts(a)[0][3] == '"' && ColumnTexts(b)[0][3] == 'F';
    assert SchemaArray(a)[4] == '"' && SchemaArray(b)[4] == 'F';
  }

  lemma KeyOne(c: Column, rest: Schema)
    ensures Key([c] + rest) == c.name + c.kind + Key(rest)
  {
    assert ([c] + rest)[1..] == rest;
  }

  // ----- IdMgr

  type Entry = (nat, string)

  function FindOrInsertSpec(cache: map<string, Entry>, key: string, data: string): (map<string, Entry>, Result<nat>) {
    if key == "" || data == "" then (cache, Err(InvalidArgument))
    else if key !in cache then (cache[key := (|cache| + 1, data)], Ok(|cache| + 1))
    else if cache[key].1 != data then (cache, Err(RuntimeError))
    else (cache, Ok(cache[key].0))
  }

  function GetItemSpec(cache: map<string, Entry>, key: string): Result<Option<Entry>> {
    if key == "" then Err(InvalidArgument) else if key in cache then Ok(Some(cache[key])) else Ok(None)
  }

  /** The ids in the cache are exactly 1..n, one per key. */
  ghost predicate IdsDense(cache: map<string, Entry>) {
    && (forall k <- cache :: 1 <= cache[k].0 <= |cache|)
    && (forall k <- cache, l <- cache :: cache[k].0 == cache[l].0 ==> k == l)
    && (forall id: nat :: 1 <= id <= |cache| ==> HasId(cache, id))
  }

  ghost predicate HasId(cache: map<string, Entry>, id: nat) {
    exists k :: k in cache && cache[k].0 == id
  }

  lemma NewIdKeepsDense(cache: map<string, Entry>, key: string, data: string)
    requires IdsDense(cache) && key !in cache
    ensures IdsDense(cache[key := (|cache| + 1, data)])
  {
    var bigger := cache[key := (|cache| + 1, data)];
    assert |bigger| == |cache| + 1;
    forall id: nat | 1 <= id <= |bigger| ensures HasId(bigger, id) {
      if id <= |cache| {
        assert HasId(cache, id);
        var k :| k in cache && cache[k].0 == id;
        assert k in bigger && bigger[k].0 == id;
      } else {
        assert key in bigger && bigger[key].0 == id;
      }
    }
  }

  /** What an insertion is good for: the entry is found again under its id, the same data gets the
      same id and any other data is refused from then on, and no other entry changes. */
  lemma FoundAgain(cache: map<string, Entry>, key: string, data: string, other: string)
    requires FindOrInsertSpec(cache, key, data).1.Ok?
    ensures var (cache', r) := FindOrInsertSpec(cache, key, data);
      && GetItemSpec(cache', key) == Ok(Some((r.value, data)))
      && (FindOrInsertSpec(cache', key, other).1.Ok? <==> other == data)
      && FindOrInsertSpec(cache', key, data) == (cache', r)
      && (forall k <- cache :: k in cache' && cache'[k] == cache[k]) && cache'.Keys == cache.Keys + {key}
      && (IdsDense(cache) ==> IdsDense(cache'))
  {
    if key !in cache && IdsDense(cache) {
      NewIdKeepsDense(cache, key, data);
    }
  }

  /** `Insert` leaves the choice of the id to its caller: the ids stay exactly 1..n if and only if
      a new key gets the next one. */
  lemma InsertedIdMustBeNext(cache: map<string, Entry>, key: string, value: Entry)
    requires IdsDense(cache) && key !in cache
    ensures IdsDense(cache[key := value]) <==> value.0 == |cache| + 1
  {
    var bigger := cache[key := value];
    assert |bigger| == |cache| + 1;
    if value.0 == |cache| + 1 {
      NewIdKeepsDense(cache, key, value.1);
    } else if 1 <= value.0 <= |cache| {
      assert HasId(cache, value.0);
      var k :| k in cache && cache[k].0 == value.0;
      assert k in bigger && key in bigger && bigger[k].0 == bigger[key].0 && k != key;
    } else {
      assert key in bigger && !(1 <= bigger[key].0 <= |bigger|);
    }
  }

  /** Each method body runs under `m_mutex`. */
  class IdMgr {
    var cache: map<string, Entry>

    constructor ()
      ensures cache == map[]
    {
      cache := map[];
    }

    method GetItem(key: string) returns (r: Result<Option<Entry>>)
      ensures r == GetItemSpec(cache, key)
    {
      if key == "" {
        return Err(InvalidArgument);
      }
      return Ok(if key in cache then Some(cache[key]) else None);
    }

    method FindOrInsert(key: string, data: string) returns (r: Result<nat>)
      modifies this
      ensures (cache, r) == FindOrInsertSpec(old(cache), key, data)
    {
      if key == "" || data == "" {
        return Err(InvalidArgument);
      }
      if key !in cache {
        var id := |cache| + 1;
        cache := cache[key := (id, data)];
        return Ok(id);
      }
      if data != cache[key].1 {
        return Err(RuntimeError);
      }
      return Ok(cache[key].0);
    }

    /** Never replaces an entry. */
    method Insert(key: string, value: Entry) returns (r: Result<()>)
      modifies this
      ensures key == "" || value.1 == "" ==> r == Err(InvalidArgument) && cache == old(cache)
      ensures key != "" && value.1 != "" ==>
        r == Ok(()) && cache == if key in old(cache) then old(cache) else old(cache)[key := value]
    {
      if key == "" || value.1 == "" {
        return Err(InvalidArgument);
      }
      if key !in cache {
        cache := cache[key := value];
      }
      return Ok(());
    }
  }
}
