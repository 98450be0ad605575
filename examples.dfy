/**
 * The repository's own test scenarios and a few edge cases, stated as
 * properties of the model: what the tagged struct of the tests resolves to,
 * what each entry point gives for its rows, and how text cells coerce.
 */
module Scenarios {
  import opened Wrappers
  import opened Values
  import opened Registry
  import Strconv
  import Strings
  import opened Tags
  import opened Coercion
  import Marshaling
  import Unmarshaling

  /** A tag made of a comma-free name, a comma and one digit names the column of that digit. */
  lemma DigitTag(name: string, d: char, k: int, tag: string)
    requires Strings.Count(name, SheetTagSeparator) == 0 && 0 <= k < 10
    requires Strconv.FormatInt(k) == [d] && tag == name + [SheetTagSeparator, d]
    ensures ParseDirective(tag) == Column(k)
  {
    DirectiveRoundTrip(name, k);
    assert name + [SheetTagSeparator] + [d] == tag;
  }

  /** The tags `sheet:"column1,0"` and `sheet:"column2,1"` of the tests name columns 0 and 1. */
  lemma TestTags(t1: string, t2: string)
    requires t1 == "column1,0" && t2 == "column2,1"
    ensures ParseDirective(t1) == Column(0) && ParseDirective(t2) == Column(1)
  {
    DigitTag("column1", '0', 0, t1);
    DigitTag("column2", '1', 1, t2);
  }

  /** The tags `sheet:"column3,2"` and `sheet:"column4,3"` of the tagged Unmarshal test name columns 2 and 3. */
  lemma MoreTestTags(t3: string, t4: string)
    requires t3 == "column3,2" && t4 == "column4,3"
    ensures ParseDirective(t3) == Column(2) && ParseDirective(t4) == Column(3)
  {
    DigitTag("column3", '2', 2, t3);
    DigitTag("column4", '3', 3, t4);
  }

  /**
   * 3000000000 written as text is an int64 but not an int32: an int32 field
   * keeps its value, an int64 field takes it.
   */
  lemma ThreeBillion(n: int, current: Value, ext: Externals)
    requires n == 3000000000
    ensures Coerce(KInt(W32), Str(Strconv.FormatInt(n)), current, ext) == current
    ensures Coerce(KInt(W64), Str(Strconv.FormatInt(n)), current, ext) == Int(n)
  {
    CoerceOverflow(W32, n, current, ext);
    CoerceFormatted(W64, n, current, ext);
  }

  /** When the tag of the field at position p names column p, both directions register every field at its own position. */
  lemma {:induction false} ColumnsInOrder(schema: Schema)
    requires forall p :: 0 <= p < |schema| ==> ParseDirective(schema[p].tag) == Column(p)
    ensures ResolveLenient(schema) == map p | 0 <= p < |schema| :: schema[p]
    ensures ResolveStrict(schema) == Ok(ResolveLenient(schema))
  {
    if schema != [] {
      var n := |schema| - 1;
      var init := schema[..n];
      assert forall p :: 0 <= p < |init| ==> init[p] == schema[p];
      ColumnsInOrder(init);
      assert ParseDirective(schema[n].tag) == Column(n);
      assert ResolveLenient(schema) == ResolveLenient(init)[n := schema[n]];
      assert (map p | 0 <= p < |init| :: init[p])[n := schema[n]] == map p | 0 <= p < |schema| :: schema[p];
    }
  }

  /** A Go map with keys 0 and 1 is ranged over as 0 then 1, or 1 then 0. */
  lemma TwoColumns(o: seq<int>)
    requires IsEnumeration(o, {0, 1})
    ensures o == [0, 1] || o == [1, 0]
  {
    EnumerationSize(o, {0, 1});
    assert |{0, 1}| == 2;
    assert o[0] in {0, 1} && o[1] in {0, 1} && o[0] != o[1];
  }

  /** A row marshalled from two columns holds both fields' values, in one order or the other. */
  lemma TwoFieldRow(b: map<int, Field>, r: Record, row: Row, o: seq<int>)
    requires b.Keys == {0, 1}
    requires IsEnumeration(o, b.Keys) && |row| == |o|
    requires forall j :: 0 <= j < |o| ==> row[j] == Marshaling.FieldValue(r, b[o[j]].name)
    ensures var v0 := Marshaling.FieldValue(r, b[0].name);
            var v1 := Marshaling.FieldValue(r, b[1].name);
            row == [v0, v1] || row == [v1, v0]
  {
    TwoColumns(o);
  }

  /**
   * The tagged Marshal of the two test rows, for a struct of two fields named
   * Column1 and Column2 whose tags name columns 0 and 1 (as `TestTags` shows
   * the tests' tags do): it succeeds and every row holds both field values
   * once; which comes first is up to the map iteration.
   */
  method MarshalTestRows(schema: Schema) returns (rows: seq<Row>)
    requires |schema| == 2 && schema[0].name == "Column1" && schema[1].name == "Column2"
    requires forall p :: 0 <= p < |schema| ==> ParseDirective(schema[p].tag) == Column(p)
    ensures |rows| == 2
    ensures rows[0] == [Str("value1"), Int(1)] || rows[0] == [Int(1), Str("value1")]
    ensures rows[1] == [Str("value2"), Int(2)] || rows[1] == [Int(2), Str("value2")]
  {
    var r1 := map["Column1" := Str("value1"), "Column2" := Int(1)];
    var r2 := map["Column1" := Str("value2"), "Column2" := Int(2)];
    ColumnsInOrder(schema);
    var b := ResolveStrict(schema).value;
    assert b == map[0 := schema[0], 1 := schema[1]];
    var res, orders := Marshaling.Marshal(schema, [r1, r2]);
    TwoFieldRow(b, r1, res.value[0], orders[0]);
    TwoFieldRow(b, r2, res.value[1], orders[1]);
    rows := res.value;
  }

  /** The untagged struct of the tests, whose columns are registered by hand. */
  datatype TestRow = TestRow(column1: string, column2: int)

  /** A hand-written getter for Column1. */
  function GetColumn1(r: TestRow): Value
  {
    Str(r.column1)
  }

  /** A hand-written getter for Column2. */
  function GetColumn2(r: TestRow): Value
  {
    Int(r.column2)
  }

  /** A row marshalled by two getters at columns 0 and 1 holds both results, in one order or the other. */
  lemma TwoGetterRow<T>(getters: map<int, T -> Value>, x: T, row: Row, o: seq<int>)
    requires getters.Keys == {0, 1}
    requires IsEnumeration(o, getters.Keys) && |row| == |o|
    requires forall j :: 0 <= j < |o| ==> row[j] == getters[o[j]](x)
    ensures row == [getters[0](x), getters[1](x)] || row == [getters[1](x), getters[0](x)]
  {
    TwoColumns(o);
  }

  /**
   * MarshalerImpl with one getter per field (column 0 reads Column1, column 1
   * reads Column2): every row holds both values once, in either order.
   */
  method MarshalerImplTestRows() returns (rows: seq<Row>)
    ensures |rows| == 2
    ensures rows[0] == [Str("value1"), Int(1)] || rows[0] == [Int(1), Str("value1")]
    ensures rows[1] == [Str("value2"), Int(2)] || rows[1] == [Int(2), Str("value2")]
  {
    var m := new Marshaling.MarshalerImpl<TestRow>();
    m.AddFieldGetter("Column1", 0, GetColumn1);
    m.AddFieldGetter("Column2", 1, GetColumn2);
    var getters := Entries(m.mapper.Getters);
    assert getters == map[0 := GetColumn1, 1 := GetColumn2];
    var x1, x2 := TestRow("value1", 1), TestRow("value2", 2);
    var res, orders := m.Marshal([x1, x2]);
    TwoGetterRow(getters, x1, res.value[0], orders[0]);
    TwoGetterRow(getters, x2, res.value[1], orders[1]);
    rows := res.value;
  }

  /** A hand-written setter for Column1 that takes text cells and ignores the rest. */
  function SetColumn1(r: TestRow, v: Value): TestRow
  {
    if v.Str? then r.(column1 := v.s) else r
  }

  /** A hand-written setter for Column2 that takes integer cells and ignores the rest. */
  function SetColumn2(r: TestRow, v: Value): TestRow
  {
    if v.Int? then r.(column2 := v.i) else r
  }

  /** Both setter orders turn a text cell and an integer cell into the same struct. */
  lemma TestRowEitherOrder(setters: map<int, (TestRow, Value) -> TestRow>, row: Row, o: seq<int>)
    requires setters == map[0 := SetColumn1, 1 := SetColumn2]
    requires |row| == 2 && row[0].Str? && row[1].Int?
    requires o == [0, 1] || o == [1, 0]
    ensures Unmarshaling.ApplySetters(TestRow("", 0), row, setters, o) == TestRow(row[0].s, row[1].i)
  {
    assert o[..1][..0] == [];
    assert Unmarshaling.ApplySetters(TestRow("", 0), row, setters, o[..1])
        == setters[o[0]](TestRow("", 0), row[o[0]]);
  }

  /**
   * UnmarshalerImpl with one setter per field: each row becomes the struct
   * holding its two cells, whichever order the setters ran in, because the two
   * setters write different fields.
   */
  method UnmarshalerImplTestRows() returns (rows: seq<TestRow>)
    ensures rows == [TestRow("value1", 1), TestRow("value2", 2)]
  {
    var um := new Unmarshaling.UnmarshalerImpl<TestRow>(TestRow("", 0));
    um.AddFieldMapping("Column1", 0, SetColumn1);
    um.AddFieldMapping("Column2", 1, SetColumn2);
    var data := [[Str("value1"), Int(1)], [Str("value2"), Int(2)]];
    var res, orders := um.Unmarshal(data);
    var setters := Entries(um.mapper.Setters);
    assert setters == map[0 := SetColumn1, 1 := SetColumn2];
    assert Unmarshaling.InBounds(setters, 2) == {0, 1};
    TwoColumns(orders[0]);
    TwoColumns(orders[1]);
    TestRowEitherOrder(setters, data[0], orders[0]);
    TestRowEitherOrder(setters, data[1], orders[1]);
    rows := res.value;
  }

  /**
   * A struct whose p-th field is exported and tagged with column p, and a row
   * that reaches every column: each field ends up holding its own cell, coerced
   * to its kind from the zero value.
   */
  lemma PositionalField(schema: Schema, row: Row, ext: Externals, o: seq<int>, p: nat)
    requires DistinctNames(schema) && p < |schema| <= |row|
    requires forall q :: 0 <= q < |schema| ==> ParseDirective(schema[q].tag) == Column(q) && schema[q].exported
    requires forall idx :: idx in ResolveLenient(schema) ==> idx >= 0
    requires IsEnumeration(o, Unmarshaling.InBounds(ResolveLenient(schema), |row|))
    ensures var r := Unmarshaling.ApplySetters(ZeroRecord(schema), row, Unmarshaling.SettersOf(ResolveLenient(schema), ext), o);
            schema[p].name in r && r[schema[p].name] == Coerce(schema[p].kind, row[p], ZeroOf(schema[p].kind), ext)
  {
    ColumnsInOrder(schema);
    ZeroRecordAt(schema, p);
    Unmarshaling.TagRecordField(schema, row, ext, o, p);
  }

  /**
   * The four fields of the tagged Unmarshal test: string, int, float64 and
   * bool. Their tags, and the distinct names every Go struct has, are required
   * apart.
   */
  predicate IsUnmarshalTestStruct(schema: Schema)
  {
    && |schema| == 4
    && schema[0].name == "Column1" && schema[0].kind == KString
    && schema[1].name == "Column2" && schema[1].kind == KInt(W64)
    && schema[2].name == "Column3" && schema[2].kind == KFloat(F64)
    && schema[3].name == "Column4" && schema[3].kind == KBool
  }

  /** Its zero record has exactly the four field names. */
  lemma TestStructKeys(schema: Schema)
    requires IsUnmarshalTestStruct(schema)
    ensures ZeroRecord(schema).Keys == {"Column1", "Column2", "Column3", "Column4"}
  {
    var names := set p | 0 <= p < |schema| :: schema[p].name;
    assert schema[0].name in names && schema[1].name in names && schema[2].name in names && schema[3].name in names;
    forall n | n in names ensures n in {"Column1", "Column2", "Column3", "Column4"} {
      var p :| 0 <= p < |schema| && schema[p].name == n;
    }
  }

  /** A record is the map of its four fields. */
  lemma FourFields(r: Record, n1: string, n2: string, n3: string, n4: string, v1: Value, v2: Value, v3: Value, v4: Value)
    requires r.Keys == {n1, n2, n3, n4}
    requires r[n1] == v1 && r[n2] == v2 && r[n3] == v3 && r[n4] == v4
    ensures r == map[n1 := v1, n2 := v2, n3 := v3, n4 := v4]
  {
  }

  /** Unmarshalling one four-cell row into that struct fills every field from its own cell. */
  lemma UnmarshalTestRow(schema: Schema, row: Row, ext: Externals, o: seq<int>)
    requires IsUnmarshalTestStruct(schema) && |row| == 4
    requires DistinctNames(schema)
    requires forall q :: 0 <= q < |schema| ==> ParseDirective(schema[q].tag) == Column(q) && schema[q].exported
    requires IsEnumeration(o, Unmarshaling.InBounds(ResolveLenient(schema), |row|))
    ensures forall idx :: idx in ResolveLenient(schema) ==> idx >= 0
    ensures Unmarshaling.ApplySetters(ZeroRecord(schema), row, Unmarshaling.SettersOf(ResolveLenient(schema), ext), o)
         == map["Column1" := Coerce(KString, row[0], Str(""), ext),
                "Column2" := Coerce(KInt(W64), row[1], Int(0), ext),
                "Column3" := Coerce(KFloat(F64), row[2], Float(0.0), ext),
                "Column4" := Coerce(KBool, row[3], Bool(false), ext)]
  {
    ColumnsInOrder(schema);
    var r := Unmarshaling.ApplySetters(ZeroRecord(schema), row, Unmarshaling.SettersOf(ResolveLenient(schema), ext), o);
    forall p | 0 <= p < 4
      ensures schema[p].name in r && r[schema[p].name] == Coerce(schema[p].kind, row[p], ZeroOf(schema[p].kind), ext)
    {
      PositionalField(schema, row, ext, o, p);
    }
    Unmarshaling.TagRecordField(schema, row, ext, o, 0);
    TestStructKeys(schema);
    FourFields(r, "Column1", "Column2", "Column3", "Column4",
               Coerce(KString, row[0], Str(""), ext), Coerce(KInt(W64), row[1], Int(0), ext),
               Coerce(KFloat(F64), row[2], Float(0.0), ext), Coerce(KBool, row[3], Bool(false), ext));
  }

  /**
   * The tagged Unmarshal test feeds native cells (a string, an int, a float, a
   * bool). The coercer takes only text, so only the string field is filled and
   * the others keep their zero values, unlike what that test expects.
   */
  method UnmarshalNativeCells(schema: Schema, ext: Externals, s: string, n: int, x: real, b: bool) returns (rec: Record)
    requires IsUnmarshalTestStruct(schema)
    requires DistinctNames(schema)
    requires forall q :: 0 <= q < |schema| ==> ParseDirective(schema[q].tag) == Column(q) && schema[q].exported
    ensures rec == map["Column1" := Str(s), "Column2" := Int(0), "Column3" := Float(0.0), "Column4" := Bool(false)]
  {
    var row := [Str(s), Int(n), Float(x), Bool(b)];
    ColumnsInOrder(schema);
    var res, orders := Unmarshaling.Unmarshal(schema, [row], ext);
    UnmarshalTestRow(schema, row, ext, orders[0]);
    rec := res.value[0];
  }

  /**
   * The same struct fed text cells: the int field takes any formatted int64,
   * the bool field is true for the text "TRUE", and the float field holds
   * whatever the float parser gives (its zero value when that fails).
   */
  method UnmarshalTextCells(schema: Schema, ext: Externals, s: string, n: int, x: string) returns (rec: Record)
    requires IsUnmarshalTestStruct(schema) && Fits(n, W64)
    requires DistinctNames(schema)
    requires forall q :: 0 <= q < |schema| ==> ParseDirective(schema[q].tag) == Column(q) && schema[q].exported
    ensures rec == map["Column1" := Str(s), "Column2" := Int(n),
                       "Column3" := (match ext.parseFloat(x, F64) case Some(f) => Float(f) case None => Float(0.0)),
                       "Column4" := Bool(true)]
  {
    var row := [Str(s), Str(Strconv.FormatInt(n)), Str(x), Str("TRUE")];
    ColumnsInOrder(schema);
    var res, orders := Unmarshaling.Unmarshal(schema, [row], ext);
    UnmarshalTestRow(schema, row, ext, orders[0]);
    CoerceFormatted(W64, n, Int(0), ext);
    CoerceBool("TRUE", Bool(false), ext);
    rec := res.value[0];
  }

  /**
   * A row shorter than the struct: the columns it does not reach are skipped,
   * so those fields keep their zero values.
   */
  method UnmarshalShortRow(schema: Schema, ext: Externals, s: string) returns (rec: Record)
    requires IsUnmarshalTestStruct(schema)
    requires DistinctNames(schema)
    requires forall q :: 0 <= q < |schema| ==> ParseDirective(schema[q].tag) == Column(q) && schema[q].exported
    ensures rec == map["Column1" := Str(s), "Column2" := Int(0), "Column3" := Float(0.0), "Column4" := Bool(false)]
  {
    var row := [Str(s)];
    ColumnsInOrder(schema);
    var res, orders := Unmarshaling.Unmarshal(schema, [row], ext);
    var r := res.value[0];
    Unmarshaling.TagRecordField(schema, row, ext, orders[0], 0);
    Unmarshaling.TagRecordField(schema, row, ext, orders[0], 1);
    Unmarshaling.TagRecordField(schema, row, ext, orders[0], 2);
    Unmarshaling.TagRecordField(schema, row, ext, orders[0], 3);
    TestStructKeys(schema);
    FourFields(r, "Column1", "Column2", "Column3", "Column4", Str(s), Int(0), Float(0.0), Bool(false));
    rec := r;
  }
}
