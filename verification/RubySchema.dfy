/** The schema side of src/fluent-plugin-mdsd/lib/fluent/plugin/out_mdsd.rb. */
module RubySchema {
  import opened Text

  /** A value with its class name and the text `get_value_by_type` makes of it. */
  datatype Value = Value(className: string, text: string)

  datatype Field = Field(name: string, value: Value)

  /** A Ruby hash in insertion order. */
  type Record = seq<Field>

  function MdsdType(className: string): string {
    if className == "TrueClass" || className == "FalseClass" then "FT_BOOL"
    else if className == "Integer" || className == "Fixnum" || className == "Bignum" then "FT_INT64"
    else if className == "Float" then "FT_DOUBLE"
    else if className == "Time" then "FT_TIME"
    else "FT_STRING"
  }

  // ----- keys, schema strings and value strings

  function KeyPart(f: Field): string {
    f.name + "," + f.value.className + ","
  }

  function HashKey(record: Record): string {
    if record == [] then "" else KeyPart(record[0]) + HashKey(record[1..])
  }

  function ColumnText(f: Field): string {
    "[\"" + f.name + "\",\"" + MdsdType(f.value.className) + "\"]"
  }

  function ColumnTexts(record: Record): (r: seq<string>)
    ensures |r| == |record| && forall i :: 0 <= i < |r| ==> r[i] == ColumnText(record[i])
  {
    if record == [] then [] else [ColumnText(record[0])] + ColumnTexts(record[1..])
  }

  function ValueTexts(record: Record): (r: seq<string>)
    ensures |r| == |record| && forall i :: 0 <= i < |r| ==> r[i] == record[i].value.text
  {
    if record == [] then [] else [record[0].value.text] + ValueTexts(record[1..])
  }

  /** The index of the time field, then one column per field in the record's order. */
  function SchemaString(record: Record): string {
    if record == [] then "]" else "[" + Decimal(|record| - 1) + "," + Join(ColumnTexts(record), ",") + "]"
  }

  /** One value per field in the record's order. */
  function ValueString(record: Record): string {
    if record == [] then "]" else "[" + Join(ValueTexts(record), ",") + "]"
  }

  /** The fields a schema string speaks of: names and class names. */
  ghost predicate SameColumns(a: Record, b: Record) {
    |a| == |b| && forall i :: 0 <= i < |a| ==> a[i].name == b[i].name && a[i].value.className == b[i].value.className
  }

  ghost predicate CommaFree(record: Record) {
    forall i :: 0 <= i < |record| ==> ',' !in record[i].name && ',' !in record[i].value.className
  }

  lemma FirstComma(a: string, b: string)
    requires ',' !in a
    ensures Find(a + "," + b, ',', 0) == Some(|a|)
    ensures (a + "," + b)[..|a|] == a && (a + "," + b)[|a| + 1..] == b
  {
    var s := a + "," + b;
    assert forall i :: 0 <= i < |a| ==> s[i] == a[i];
    FindIs(s, ',', 0, |a|);
  }

  lemma FirstField(f: Field, r: string, g: Field, q: string)
    requires ',' !in f.name && ',' !in f.value.className && ',' !in g.name && ',' !in g.value.className
    requires KeyPart(f) + r == KeyPart(g) + q
    ensures f.name == g.name && f.value.className == g.value.className && r == q
  {
    KeyPartShape(f, r);
    KeyPartShape(g, q);
    FirstComma(f.name, f.value.className + "," + r);
    FirstComma(g.name, g.value.className + "," + q);
    FirstComma(f.value.className, r);
    FirstComma(g.value.className, q);
  }

  lemma KeyPartShape(f: Field, r: string)
    ensures KeyPart(f) + r == f.name + "," + (f.value.className + "," + r)
  {
  }

  /** With comma-free names the hash key tells the columns apart. */
  lemma {:induction false} HashKeyInjective(a: Record, b: Record)
    requires CommaFree(a) && CommaFree(b) && HashKey(a) == HashKey(b)
    ensures SameColumns(a, b)
  {
    if a != [] && b != [] {
      FirstField(a[0], HashKey(a[1..]), b[0], HashKey(b[1..]));
      HashKeyInjective(a[1..], b[1..]);
      assert forall i :: 0 < i < |a| ==> a[i] == a[1..][i - 1];
      assert forall i :: 0 < i < |b| ==> b[i] == b[1..][i - 1];
    }
  }

  lemma SameColumnsSameSchema(a: Record, b: Record)
    requires SameColumns(a, b)
    ensures SchemaString(a) == SchemaString(b)
  {
    assert ColumnTexts(a) == ColumnTexts(b);
  }

  /** A comma in a name can merge two fields into one key. */
  lemma HashKeyCollision()
    ensures var a := [Field("a", Value("String", "\"x\"")), Field("b", Value("Integer", "1"))];
      var b := [Field("a,String,b", Value("Integer", "1"))];
      HashKey(a) == HashKey(b) && SchemaString(a) != SchemaString(b)
  {
    var a := [Field("a", Value("String", "\"x\"")), Field("b", Value("Integer", "1"))];
    var b := [Field("a,String,b", Value("Integer", "1"))];
    assert a[1..] == [a[1]] && a[1..][1..] == [] && b[1..] == [];
    assert HashKey(a[1..]) == KeyPart(a[1]) + "" && HashKey(b) == KeyPart(b[0]) + "";
    assert KeyPart(a[0]) + KeyPart(a[1]) == KeyPart(b[0]);
    assert SchemaString(a)[1] == Decimal(1)[0] == '1' && SchemaString(b)[1] == Decimal(0)[0] == '0';
  }

  // ----- the emit timestamp

  predicate HasField(record: Record, name: string) {
    exists i :: 0 <= i < |record| && record[i].name == name
  }

  /** Keys of a hash are distinct. */
  ghost predicate Distinct(record: Record) {
    forall i, j :: 0 <= i < j < |record| ==> record[i].name != record[j].name
  }

  /** `record[name] = value`: a key already present keeps its place. */
  function Assign(record: Record, name: string, value: Value): (r: Record)
    ensures r != []
  {
    if record == [] then [Field(name, value)]
    else if record[0].name == name then [Field(name, value)] + record[1..]
    else [record[0]] + Assign(record[1..], name, value)
  }

  lemma {:induction false} AssignPlaces(record: Record, name: string, value: Value)
    ensures !HasField(record, name) ==> Assign(record, name, value) == record + [Field(name, value)]
    ensures HasField(record, name) ==> |Assign(record, name, value)| == |record|
    ensures HasField(record, name) ==>
      forall i :: 0 <= i < |record| ==> Assign(record, name, value)[i].name == record[i].name
  {
    if record != [] {
      AssignPlaces(record[1..], name, value);
      assert HasField(record, name) <==> record[0].name == name || HasField(record[1..], name) by {
        if record[0].name != name && HasField(record, name) {
          var i :| 0 <= i < |record| && record[i].name == name;
          assert record[1..][i - 1].name == name;
        }
      }
      assert !HasField(record, name) ==>
        [record[0]] + (record[1..] + [Field(name, value)]) == record + [Field(name, value)];
    }
  }

  /** The key gets the new value, and every other field keeps its own. */
  lemma {:induction false} AssignSets(record: Record, name: string, value: Value)
    requires Distinct(record) && HasField(record, name)
    ensures |Assign(record, name, value)| == |record|
    ensures forall i :: 0 <= i < |record| ==>
      Assign(record, name, value)[i] == if record[i].name == name then Field(name, value) else record[i]
  {
    if record[0].name != name {
      var i :| 0 <= i < |record| && record[i].name == name;
      assert record[1..][i - 1].name == name;
      AssignSets(record[1..], name, value);
    }
  }

  /** The number a reader of a schema string finds after its opening bracket. */
  function LeadingIndex(schema: string): nat {
    match Find(schema, ',', 1)
    case None => 0
    case Some(p) => Numeral(schema[1..p])
  }

  lemma NumberAfterBracket(n: nat, rest: string)
    ensures LeadingIndex("[" + (Decimal(n) + [','] + rest)) == n
  {
    var number := Decimal(n);
    var s := "[" + (number + [','] + rest);
    assert forall i :: 1 <= i < 1 + |number| ==> s[i] == number[i - 1];
    FindIs(s, ',', 1, 1 + |number|);
    assert s[1..1 + |number|] == number;
    NumeralOfDecimal(n);
  }

  lemma LeadingIndexIsLast(record: Record)
    requires record != []
    ensures LeadingIndex(SchemaString(record)) == |record| - 1
  {
    var number, columns := Decimal(|record| - 1), Join(ColumnTexts(record), ",");
    NumberAfterBracket(|record| - 1, columns + "]");
    Regroup(number, columns);
  }

  lemma Regroup(number: string, columns: string)
    ensures "[" + number + "," + columns + "]" == "[" + (number + [','] + (columns + "]"))
  {
    assert "," == [','];
  }

  /** The index that leads the schema string is that of the emit-time field if and only if the
      record did not hold that key yet, or held it last. */
  lemma LeadingIndexIsTimeField(record: Record, name: string, time: Value)
    requires Distinct(record)
    ensures var r := Assign(record, name, time);
      var index := LeadingIndex(SchemaString(r));
      index < |r| && (r[index].name == name <==> !HasField(record, name) || record[|record| - 1].name == name)
  {
    AssignPlaces(record, name, time);
    LeadingIndexIsLast(Assign(record, name, time));
  }

  /** A record that holds the key first: the index names another field. */
  lemma TimeFieldMissed()
    ensures var record := [Field("t", Value("Time", "[1,0]")), Field("message", Value("String", "\"x\""))];
      var r := Assign(record, "t", Value("Time", "[2,0]"));
      Distinct(record) && LeadingIndex(SchemaString(r)) < |r| &&
      r[LeadingIndex(SchemaString(r))].name == "message"
  {
    var record := [Field("t", Value("Time", "[1,0]")), Field("message", Value("String", "\"x\""))];
    var r := Assign(record, "t", Value("Time", "[2,0]"));
    assert record[0].name == "t" && r == [Field("t", Value("Time", "[2,0]"))] + record[1..];
    LeadingIndexIsLast(r);
  }

  // ----- the classes, one thread at a time

  lemma {:induction false} HashKeySnoc(record: Record, f: Field)
    ensures HashKey(record + [f]) == HashKey(record) + KeyPart(f)
  {
    if record == [] {
      assert record + [f] == [f] && [f][1..] == [];
    } else {
      HashKeySnoc(record[1..], f);
      assert (record + [f])[1..] == record[1..] + [f];
      Assoc(KeyPart(record[0]), HashKey(record[1..]), KeyPart(f));
    }
  }

  /** What a loop with the `== ""` test for the first turn has built. */
  function Built(open: string, parts: seq<string>, i: nat): string
    requires i <= |parts|
  {
    if i == 0 then "" else open + Join(parts[..i], ",")
  }

  lemma BuiltStep(open: string, parts: seq<string>, i: nat)
    requires i < |parts| && open != ""
    ensures Built(open, parts, i) == "" <==> i == 0
    ensures Built(open, parts, i + 1) == (if i == 0 then open else Built(open, parts, i) + ",") + parts[i]
  {
    assert parts[..i + 1] == parts[..i] + [parts[i]];
    JoinSnoc(parts[..i], parts[i], ",");
  }

  class SchemaManager {
    var schemaHash: map<string, (nat, string)>
    var schemaId: nat

    constructor ()
      ensures schemaHash == map[] && schemaId == 0
    {
      schemaHash, schemaId := map[], 0;
    }

    method GetSchemaKey(record: Record) returns (key: string)
      ensures key == HashKey(record)
    {
      key := "";
      for i := 0 to |record|
        invariant key == HashKey(record[..i])
      {
        assert record[..i + 1] == record[..i] + [record[i]];
        HashKeySnoc(record[..i], record[i]);
        key := key + (record[i].name + "," + record[i].value.className + ",");
      }
      assert record[..|record|] == record;
    }

    method GetNewSchema(record: Record) returns (s: string)
      ensures s == SchemaString(record)
    {
      s := "";
      var timeFieldIndex := |record| - 1;
      ghost var parts := ColumnTexts(record);
      ghost var open := if record == [] then "[" else "[" + Decimal(|record| - 1) + ",";
      for i := 0 to |record|
        invariant s == Built(open, parts, i)
      {
        BuiltStep(open, parts, i);
        if s == "" {
          s := "[" + Decimal(timeFieldIndex) + ",";
        } else {
          s := s + ",";
        }
        var column := "[\"" + record[i].name + "\",\"" + MdsdType(record[i].value.className) + "\"]";
        s := s + column;
      }
      assert parts[..|record|] == parts;
      s := s + "]";
    }

    method GetNewSchemaId() returns (id: nat)
      modifies this`schemaId
      ensures id == schemaId == old(schemaId) + 1
    {
      schemaId := schemaId + 1;
      return schemaId;
    }

    method GetSchemaInfo(record: Record) returns (info: (nat, string))
      modifies this
      ensures var key := HashKey(record);
        if key in old(schemaHash) then
          info == old(schemaHash)[key] && schemaHash == old(schemaHash) && schemaId == old(schemaId)
        else info == (old(schemaId) + 1, SchemaString(record)) && schemaId == old(schemaId) + 1 &&
             schemaHash == old(schemaHash)[key := info]
    {
      var key := GetSchemaKey(record);
      if key in schemaHash {
        return schemaHash[key];
      }
      var id := GetNewSchemaId();
      var text := GetNewSchema(record);
      info := (id, text);
      schemaHash := schemaHash[key := info];
    }
  }

  class MdsdMsgMaker {
    const schemaMgr: SchemaManager

    constructor (mgr: SchemaManager)
      ensures schemaMgr == mgr
    {
      schemaMgr := mgr;
    }

    method GetRecordValues(record: Record) returns (s: string)
      ensures s == ValueString(record)
    {
      s := "";
      ghost var parts := ValueTexts(record);
      for i := 0 to |record|
        invariant s == Built("[", parts, i)
      {
        BuiltStep("[", parts, i);
        if s == "" {
          s := "[";
        } else {
          s := s + ",";
        }
        s := s + record[i].value.text;
      }
      assert parts[..|record|] == parts;
      s := s + "]";
    }

    method GetSchemaValueStr(record: Record) returns (s: string)
      modifies schemaMgr
      ensures var key := HashKey(record);
        key in schemaMgr.schemaHash &&
        s == Decimal(schemaMgr.schemaHash[key].0) + "," + schemaMgr.schemaHash[key].1 + "," + ValueString(record)
      ensures HashKey(record) !in old(schemaMgr.schemaHash) ==>
        schemaMgr.schemaHash[HashKey(record)].1 == SchemaString(record)
    {
      var info := schemaMgr.GetSchemaInfo(record);
      s := Decimal(info.0) + "," + info.1 + ",";
      var values := GetRecordValues(record);
      s := s + values;
    }
  }
}

/** `get_schema_info` in many threads: the look-up and the insertion are not protected together,
    only the id counter is. */
module RubySchemaRuns {
  import opened RubySchema

  type Info = (nat, string)

  datatype Call =
    | Looking(r: Record)
    | Missed(r: Record)
    | Numbered(r: Record, id: nat)
    | Returned(r: Record, info: Info)

  datatype State = State(schemaHash: map<string, Info>, schemaId: nat, calls: seq<Call>,
                         issued: map<nat, string>)  // history: the schema each id was made for

  datatype Action = Begin(r: Record) | LookUp(i: nat) | TakeId(i: nat) | Insert(i: nat)

  function Init(): State {
    State(map[], 0, [], map[])
  }

  function CallStep(s: State, i: nat, a: Action): State
    requires i < |s.calls|
  {
    match (a, s.calls[i])
    case (LookUp(_), Looking(r)) =>
      s.(calls := s.calls[i := if HashKey(r) in s.schemaHash then Returned(r, s.schemaHash[HashKey(r)]) else Missed(r)])
    case (TakeId(_), Missed(r)) =>
      s.(schemaId := s.schemaId + 1, calls := s.calls[i := Numbered(r, s.schemaId + 1)],
         issued := s.issued[s.schemaId + 1 := SchemaString(r)])
    case (Insert(_), Numbered(r, id)) =>
      s.(schemaHash := s.schemaHash[HashKey(r) := (id, SchemaString(r))],
         calls := s.calls[i := Returned(r, (id, SchemaString(r)))])
    case _ => s
  }

  /** An action that does not apply changes nothing, so every sequence of actions is a run. */
  function Step(s: State, a: Action): State {
    match a
    case Begin(r) => s.(calls := s.calls + [Looking(r)])
    case LookUp(i) => if i < |s.calls| then CallStep(s, i, a) else s
    case TakeId(i) => if i < |s.calls| then CallStep(s, i, a) else s
    case Insert(i) => if i < |s.calls| then CallStep(s, i, a) else s
  }

  function Run(actions: seq<Action>): State {
    if actions == [] then Init() else Step(Run(actions[..|actions| - 1]), actions[|actions| - 1])
  }

  // ----- one id, one schema

  ghost predicate Issued(issued: map<nat, string>, info: Info) {
    info.0 in issued && issued[info.0] == info.1
  }

  ghost predicate CallOk(s: State, call: Call) {
    match call
    case Numbered(r, id) => Issued(s.issued, (id, SchemaString(r)))
    case Returned(r, info) => Issued(s.issued, info)
    case _ => true
  }

  ghost predicate Inv(s: State) {
    && (forall id <- s.issued :: id <= s.schemaId)
    && (forall k <- s.schemaHash :: Issued(s.issued, s.schemaHash[k]))
    && (forall i :: 0 <= i < |s.calls| ==> CallOk(s, s.calls[i]))
  }

  lemma CallStepKeepsInv(s: State, i: nat, a: Action)
    requires Inv(s) && i < |s.calls|
    ensures Inv(CallStep(s, i, a))
  {
    var s' := CallStep(s, i, a);
    assert CallOk(s, s.calls[i]);
    forall j | 0 <= j < |s'.calls| ensures CallOk(s', s'.calls[j]) {
      assert CallOk(s, s.calls[j]);
    }
  }

  lemma StepKeepsInv(s: State, a: Action)
    requires Inv(s)
    ensures Inv(Step(s, a))
  {
    if !a.Begin? && a.i < |s.calls| {
      CallStepKeepsInv(s, a.i, a);
    }
  }

  lemma {:induction false} RunKeepsInv(actions: seq<Action>)
    ensures Inv(Run(actions))
    decreases |actions|
  {
    if actions != [] {
      RunKeepsInv(actions[..|actions| - 1]);
      StepKeepsInv(Run(actions[..|actions| - 1]), actions[|actions| - 1]);
    }
  }

  /** One schema id never stands for two schema strings, whatever the records and however the
      unprotected look-ups and insertions interleave. */
  lemma OneIdOneSchema(actions: seq<Action>, i: nat, j: nat)
    requires i < |Run(actions).calls| && j < |Run(actions).calls|
    requires Run(actions).calls[i].Returned? && Run(actions).calls[j].Returned?
    ensures var calls := Run(actions).calls;
      calls[i].info.0 == calls[j].info.0 ==> calls[i].info.1 == calls[j].info.1
  {
    RunKeepsInv(actions);
    assert CallOk(Run(actions), Run(actions).calls[i]) && CallOk(Run(actions), Run(actions).calls[j]);
  }

  // ----- the schema returned is the record's own

  ghost predicate Within(actions: seq<Action>, used: set<Record>) {
    forall i :: 0 <= i < |actions| && actions[i].Begin? ==> actions[i].r in used
  }

  ghost predicate CollisionFree(used: set<Record>) {
    forall a, b :: a in used && b in used && HashKey(a) == HashKey(b) ==> SchemaString(a) == SchemaString(b)
  }

  /** Every finished call returned the schema of its own record. */
  ghost predicate Faithful(s: State) {
    forall i :: 0 <= i < |s.calls| && s.calls[i].Returned? ==> s.calls[i].info.1 == SchemaString(s.calls[i].r)
  }

  ghost predicate Matching(used: set<Record>, s: State) {
    && Faithful(s)
    && (forall r <- used :: HashKey(r) in s.schemaHash ==> s.schemaHash[HashKey(r)].1 == SchemaString(r))
    && (forall i :: 0 <= i < |s.calls| ==> s.calls[i].r in used)
  }

  lemma StepKeepsMatching(used: set<Record>, s: State, a: Action)
    requires CollisionFree(used) && Matching(used, s) && (a.Begin? ==> a.r in used)
    ensures Matching(used, Step(s, a))
  {
  }

  lemma {:induction false} RunMatches(used: set<Record>, actions: seq<Action>)
    requires CollisionFree(used) && Within(actions, used)
    ensures Matching(used, Run(actions))
    decreases |actions|
  {
    if actions != [] {
      RunMatches(used, actions[..|actions| - 1]);
      StepKeepsMatching(used, Run(actions[..|actions| - 1]), actions[|actions| - 1]);
    }
  }

  function CollisionRun(a: Record, b: Record): seq<Action> {
    [Begin(a), LookUp(0), TakeId(0), Insert(0)] + [Begin(b)] + [LookUp(1)]
  }

  lemma RunSnoc(actions: seq<Action>, a: Action)
    ensures Run(actions + [a]) == Step(Run(actions), a)
  {
    assert (actions + [a])[..|actions|] == actions;
  }

  lemma FirstRecord(a: Record)
    ensures Run([Begin(a), LookUp(0), TakeId(0), Insert(0)]) ==
      State(map[HashKey(a) := (1, SchemaString(a))], 1, [Returned(a, (1, SchemaString(a)))], map[1 := SchemaString(a)])
  {
    RunSnoc([], Begin(a));
    RunSnoc([Begin(a)], LookUp(0));
    RunSnoc([Begin(a), LookUp(0)], TakeId(0));
    RunSnoc([Begin(a), LookUp(0), TakeId(0)], Insert(0));
    assert [] + [Begin(a)] == [Begin(a)] && [Begin(a)] + [LookUp(0)] == [Begin(a), LookUp(0)];
    assert [Begin(a), LookUp(0)] + [TakeId(0)] == [Begin(a), LookUp(0), TakeId(0)];
    assert [Begin(a), LookUp(0), TakeId(0)] + [Insert(0)] == [Begin(a), LookUp(0), TakeId(0), Insert(0)];
  }

  lemma CollisionShows(a: Record, b: Record)
    requires HashKey(a) == HashKey(b)
    ensures Run(CollisionRun(a, b)).calls == [Returned(a, (1, SchemaString(a))), Returned(b, (1, SchemaString(a)))]
  {
    var first := [Begin(a), LookUp(0), TakeId(0), Insert(0)];
    FirstRecord(a);
    RunSnoc(first, Begin(b));
    RunSnoc(first + [Begin(b)], LookUp(1));
  }

  lemma OthersSchemaIsUnfaithful(s: State, a: Record, b: Record)
    requires s.calls == [Returned(a, (1, SchemaString(a))), Returned(b, (1, SchemaString(a)))]
    requires SchemaString(a) != SchemaString(b)
    ensures !Faithful(s)
  {
    assert s.calls[1].Returned? && s.calls[1].info.1 != SchemaString(s.calls[1].r);
  }

  lemma CollisionRunIsWithin(used: set<Record>, a: Record, b: Record)
    requires a in used && b in used
    ensures Within(CollisionRun(a, b), used)
  {
  }

  /** Two colliding records in a row, both in use: a run that is not faithful. */
  lemma CollisionBreaks(used: set<Record>, a: Record, b: Record) returns (actions: seq<Action>)
    requires a in used && b in used && HashKey(a) == HashKey(b) && SchemaString(a) != SchemaString(b)
    ensures Within(actions, used) && !Faithful(Run(actions))
  {
    actions := CollisionRun(a, b);
    CollisionRunIsWithin(used, a, b);
    CollisionShows(a, b);
    OthersSchemaIsUnfaithful(Run(actions), a, b);
  }

  /** Whatever records may come, every interleaving returns for each record its own schema if and
      only if no two of them collide on the hash key. */
  lemma FaithfulIffCollisionFree(used: set<Record>)
    ensures CollisionFree(used) <==> forall actions :: Within(actions, used) ==> Faithful(Run(actions))
  {
    if CollisionFree(used) {
      forall actions | Within(actions, used) ensures Faithful(Run(actions)) {
        RunMatches(used, actions);
      }
    } else {
      var a, b :| a in used && b in used && HashKey(a) == HashKey(b) && SchemaString(a) != SchemaString(b);
      var actions := CollisionBreaks(used, a, b);
    }
  }

  /** Comma-free names suffice: the schema returned lists the record's own fields, in order, with
      the type of each value, in every interleaving. */
  lemma CommaFreeNamesAreFaithful(used: set<Record>, actions: seq<Action>)
    requires (forall r <- used :: CommaFree(r)) && Within(actions, used)
    ensures Faithful(Run(actions))
  {
    forall a, b | a in used && b in used && HashKey(a) == HashKey(b) ensures SchemaString(a) == SchemaString(b) {
      HashKeyInjective(a, b);
      SameColumnsSameSchema(a, b);
    }
    RunMatches(used, actions);
  }
}
