/**
 * Marshalling: records to rows. `MarshalerImpl.Marshal` emits, per record, one
 * cell per registered getter, in the order Go's map iteration happens to visit
 * the getters; the generic `Marshal` first registers a getter per tagged field.
 */
module Marshaling {
  import opened Wrappers
  import opened Values
  import opened Registry
  import Strconv
  import Strings
  import opened Tags

  /**
   * The body of Marshal's record loop: one cell per getter, each getter visited
   * exactly once, in the order `order` the map iteration picks.
   */
  method RowOf<T>(getters: map<int, T -> Value>, instance: T) returns (row: Row, ghost order: seq<int>)
    ensures IsEnumeration(order, getters.Keys)
    ensures |row| == |order| == |getters|
    ensures forall j :: 0 <= j < |row| ==> row[j] == getters[order[j]](instance)
  {
    row := [];
    order := [];
    var remaining := getters.Keys;
    while remaining != {}
      invariant remaining <= getters.Keys
      invariant forall j :: 0 <= j < |order| ==> order[j] in getters && order[j] !in remaining
      invariant forall key :: key in getters ==> key in remaining || key in order
      invariant forall i, j :: 0 <= i < j < |order| ==> order[i] != order[j]
      invariant |order| + |remaining| == |getters|
      invariant |row| == |order|
      invariant forall j :: 0 <= j < |row| ==> row[j] == getters[order[j]](instance)
      decreases |remaining|
    {
      ghost var next := SomeKey(remaining);
      var index :| index in remaining;
      row := row + [getters[index](instance)];
      order := order + [index];
      remaining := remaining - {index};
    }
  }

  /** `v` is what some registered getter returns for `instance`. */
  ghost predicate GetterValue<T>(getters: map<int, T -> Value>, instance: T, v: Value)
  {
    exists key :: key in getters && v == getters[key](instance)
  }

  /**
   * Whatever order the map iteration picked, a row built as RowOf builds it
   * holds every getter's value and nothing else.
   */
  lemma RowContents<T>(getters: map<int, T -> Value>, instance: T, row: Row, order: seq<int>)
    requires IsEnumeration(order, getters.Keys) && |row| == |order|
    requires forall j :: 0 <= j < |row| ==> row[j] == getters[order[j]](instance)
    ensures forall key :: key in getters ==> getters[key](instance) in row
    ensures forall j :: 0 <= j < |row| ==> GetterValue(getters, instance, row[j])
  {
    forall key | key in getters ensures getters[key](instance) in row {
      var j :| 0 <= j < |order| && order[j] == key;
      assert row[j] == getters[key](instance);
    }
    forall j | 0 <= j < |row| ensures GetterValue(getters, instance, row[j]) {
      var key := order[j];
      assert key in getters && row[j] == getters[key](instance);
    }
  }

  class MarshalerImpl<T> {
    const mapper: Mapper<T>

    /** `NewMarshaler[T]()`: an empty registry. */
    constructor ()
      ensures fresh(mapper)
      ensures mapper.Getters == NilMap && mapper.Setters == NilMap && mapper.Fields == NilMap
    {
      mapper := new Mapper<T>();
    }

    method AddFieldGetter(field: string, index: int, getter: T -> Value)
      modifies mapper
      ensures mapper.Getters == Made(Entries(old(mapper.Getters))[index := getter])
      ensures mapper.Fields == Made(Entries(old(mapper.Fields))[field := index])
      ensures mapper.Setters == old(mapper.Setters)
    {
      mapper.AddFieldGetter(field, index, getter);
    }

    /**
     * One row per record, in input order, and never an error. Row `k` holds one
     * cell per registered getter: `orders[k]` is the order in which the map
     * iteration visited the getters for that row, and cell `j` is what the
     * `j`-th visited getter returns for record `k`.
     */
    method Marshal(data: seq<T>) returns (res: Result<seq<Row>, Strconv.NumError>, ghost orders: seq<seq<int>>)
      ensures res.Ok? && |res.value| == |data| && |orders| == |data|
      ensures forall k :: 0 <= k < |data| ==>
        && IsEnumeration(orders[k], Entries(mapper.Getters).Keys)
        && |res.value[k]| == |orders[k]| == |Entries(mapper.Getters)|
        && forall j :: 0 <= j < |orders[k]| ==> res.value[k][j] == Entries(mapper.Getters)[orders[k][j]](data[k])
    {
      var getters := Entries(mapper.Getters);
      var result: seq<Row> := [];
      orders := [];
      for k := 0 to |data|
        invariant |result| == k && |orders| == k
        invariant forall i :: 0 <= i < k ==>
          && IsEnumeration(orders[i], getters.Keys)
          && |result[i]| == |orders[i]| == |getters|
          && forall j :: 0 <= j < |orders[i]| ==> result[i][j] == getters[orders[i][j]](data[i])
      {
        var row;
        ghost var order;
        row, order := RowOf(getters, data[k]);
        result := result + [row];
        orders := orders + [order];
      }
      res := Ok(result);
    }
  }

  /** The value of the field named `name`, as reflection reads it. */
  function FieldValue(r: Record, name: string): Value
  {
    if name in r then r[name] else Nil
  }

  /** The getter the tag loop registers for field `f`. */
  function Getter(f: Field): Record -> Value
  {
    r => FieldValue(r, f.name)
  }

  /** The getters the tag loop leaves registered, one per registered column. */
  function GettersOf(b: map<int, Field>): (g: map<int, Record -> Value>)
    ensures g.Keys == b.Keys
    ensures forall k :: k in b ==> g[k] == Getter(b[k])
  {
    map k | k in b :: Getter(b[k])
  }

  /**
   * The getter registered at column `k` reads field `b[k].name` of the record
   * and nothing else; a record without that field reads as nil.
   */
  lemma GetterReadsOwnField(b: map<int, Field>, k: int, r1: Record, r2: Record)
    requires k in b
    ensures b[k].name in r1 ==> GettersOf(b)[k](r1) == r1[b[k].name]
    ensures b[k].name !in r1 ==> GettersOf(b)[k](r1) == Nil
    ensures FieldValue(r1, b[k].name) == FieldValue(r2, b[k].name) ==> GettersOf(b)[k](r1) == GettersOf(b)[k](r2)
  {
  }

  /** Registering a field's getter at a column updates the getter map at that column only. */
  lemma GettersOfStore(b: map<int, Field>, k: int, f: Field)
    ensures GettersOf(b[k := f]) == GettersOf(b)[k := Getter(f)]
  {
  }

  /**
   * The generic `Marshal[T]`: registers a getter for each field whose tag names
   * a column (a later field at the same column replaces an earlier one), then
   * marshals. A tag whose index is not an int aborts the whole call with that
   * error and no rows; untagged and malformed tags are skipped. Each row holds
   * the value of every registered field exactly once, in the order `orders[k]`
   * of their columns that the map iteration picked.
   */
  method Marshal(schema: Schema, data: seq<Record>) returns (res: Result<seq<Row>, Strconv.NumError>, ghost orders: seq<seq<int>>)
    ensures ResolveStrict(schema).Err? ==> res == Err(ResolveStrict(schema).error)
    ensures ResolveStrict(schema).Ok? ==>
      var b := ResolveStrict(schema).value;
      && res.Ok? && |res.value| == |data| && |orders| == |data|
      && forall k :: 0 <= k < |data| ==>
           && IsEnumeration(orders[k], b.Keys)
           && |res.value[k]| == |orders[k]| == |b|
           && forall j :: 0 <= j < |orders[k]| ==> res.value[k][j] == FieldValue(data[k], b[orders[k][j]].name)
  {
    var m := new MarshalerImpl<Record>();
    for i := 0 to |schema|
      invariant fresh(m.mapper)
      invariant ResolveStrict(schema[..i]).Ok?
      invariant Entries(m.mapper.Getters) == GettersOf(ResolveStrict(schema[..i]).value)
    {
      assert schema[..i + 1][..i] == schema[..i];
      var field := schema[i];
      var tag := field.tag;
      if tag != "" {
        var tagParts := Strings.Split(tag, SheetTagSeparator);
        if |tagParts| != 2 {
          continue;
        }
        var index := Strconv.Atoi(tagParts[1]);
        if index.Err? {
          assert ResolveStrict(schema[..i + 1]) == Err(index.error);
          StrictErrorSticks(schema, i + 1);
          return Err(index.error), [];
        }
        assert ParseDirective(tag) == Column(index.value);
        GettersOfStore(ResolveStrict(schema[..i]).value, index.value, field);
        m.AddFieldGetter(field.name, index.value, Getter(field));
      }
    }
    assert schema[..|schema|] == schema;
    var rows;
    rows, orders := m.Marshal(data);
    res := rows;
  }
}
