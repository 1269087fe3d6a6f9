/** The schema strings of the Ruby plug-in, read with the reader of the payload format. */
module RubyReader {
  import opened Text
  import opened DjsonReader
  import S = SchemaCache
  import R = RubySchema

  /** The index and the columns of a schema string. */
  function ReadSchemaString(s: string): Option<(nat, S.Schema)> {
    var s1 :- TakeChar(s, '[');
    var (number, s2) :- TakeUpTo(s1, ',');
    var index :- ReadNat(number);
    var (columns, rest) :- TakeColumns(s2);
    if rest == "" then Some((index, columns)) else None
  }

  /** The names of a record with the types of its values, in order. */
  function ColumnsOf(record: R.Record): (r: S.Schema)
    ensures |r| == |record|
    ensures forall i :: 0 <= i < |r| ==> r[i] == S.Column(record[i].name, R.MdsdType(record[i].value.className))
  {
    if record == [] then []
    else [S.Column(record[0].name, R.MdsdType(record[0].value.className))] + ColumnsOf(record[1..])
  }

  /** Which classes have which type; every other class counts as a string. */
  lemma TypesOfClasses(className: string)
    ensures R.MdsdType(className) in S.TYPES && R.MdsdType(className) != "FT_INT32"
    ensures R.MdsdType(className) == "FT_BOOL" <==> className in {"TrueClass", "FalseClass"}
    ensures R.MdsdType(className) == "FT_INT64" <==> className in {"Integer", "Fixnum", "Bignum"}
    ensures R.MdsdType(className) == "FT_DOUBLE" <==> className == "Float"
    ensures R.MdsdType(className) == "FT_TIME" <==> className == "Time"
  {
  }

  predicate QuoteFreeNames(record: R.Record) {
    forall f <- record :: QuoteFree(f.name)
  }

  lemma {:induction false} SameTexts(record: R.Record)
    ensures R.ColumnTexts(record) == S.ColumnTexts(ColumnsOf(record))
  {
    if record != [] {
      SameTexts(record[1..]);
      assert ColumnsOf(record)[1..] == ColumnsOf(record[1..]);
    }
  }

  lemma {:induction false} ColumnsAreQuoteFree(record: R.Record)
    requires QuoteFreeNames(record)
    ensures QuoteFreeColumns(ColumnsOf(record))
  {
    if record != [] {
      TypesOfClasses(record[0].value.className);
      ColumnsAreQuoteFree(record[1..]);
    }
  }

  lemma SchemaShape(number: string, columns: string)
    ensures "[" + number + "," + columns + "]" == ['['] + (number + [','] + (columns + ([']'] + "")))
  {
  }

  /** The schema string of a record reads back to the index of its last field and to the names and
      types of its fields, in order. */
  lemma SchemaStringReadsBack(record: R.Record)
    requires record != [] && QuoteFreeNames(record)
    ensures ReadSchemaString(R.SchemaString(record)) == Some((|record| - 1, ColumnsOf(record)))
  {
    var number, columns := Decimal(|record| - 1), Join(R.ColumnTexts(record), ",");
    var s2 := columns + ([']'] + "");
    SameTexts(record);
    ColumnsAreQuoteFree(record);
    SchemaShape(number, columns);
    CharRead('[', number + [','] + s2);
    NumberHasNoComma(|record| - 1);
    UpToRead(number, ',', s2);
    NatRead(|record| - 1);
    ColumnsRead(ColumnsOf(record), "");
  }

  lemma NumberHasNoComma(n: nat)
    ensures ',' !in Decimal(n)
  {
  }
}
