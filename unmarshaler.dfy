/**
 * Unmarshalling: rows to records. `UnmarshalerImpl.Unmarshal` starts every
 * record from the zero value and applies each registered setter whose column
 * lies inside the row, in the order Go's map iteration happens to visit them;
 * the generic `Unmarshal` first registers a coercing setter per tagged field.
 */
module Unmarshaling {
  import opened Wrappers
  import opened Values
  import opened Registry
  import Strconv
  import Strings
  import opened Tags
  import opened Coercion

  /** The registered columns that a row of `width` cells reaches (`idx < len(row)`). */
  function InBounds<V>(registered: map<int, V>, width: nat): (cols: set<int>)
    ensures forall idx :: idx in cols <==> idx in registered && idx < width
  {
    set idx | idx in registered && idx < width
  }

  /** The record that results from applying the setters at the columns `order`, in that order, to `start`. */
  function ApplySetters<T>(start: T, row: Row, setters: map<int, (T, Value) -> T>, order: seq<int>): T
    requires forall j :: 0 <= j < |order| ==> order[j] in setters && 0 <= order[j] < |row|
  {
    if order == [] then start
    else
      var last := order[|order| - 1];
      setters[last](ApplySetters(start, row, setters, order[..|order| - 1]), row[last])
  }

  /**
   * The body of Unmarshal's row loop: from `zero`, every setter whose column
   * lies inside `row` is applied exactly once, in the order `order` the map
   * iteration visits them; the others are skipped.
   */
  method Instance<T>(zero: T, row: Row, setters: map<int, (T, Value) -> T>) returns (instance: T, ghost order: seq<int>)
    requires forall idx :: idx in setters ==> idx >= 0
    ensures IsEnumeration(order, InBounds(setters, |row|))
    ensures instance == ApplySetters(zero, row, setters, order)
  {
    instance := zero;
    order := [];
    var remaining := setters.Keys;
    while remaining != {}
      invariant remaining <= setters.Keys
      invariant forall j :: 0 <= j < |order| ==>
        order[j] in setters && 0 <= order[j] < |row| && order[j] !in remaining
      invariant forall idx :: idx in setters && idx < |row| ==> idx in remaining || idx in order
      invariant forall i, j :: 0 <= i < j < |order| ==> order[i] != order[j]
      invariant instance == ApplySetters(zero, row, setters, order)
      decreases |remaining|
    {
      ghost var next := SomeKey(remaining);
      var idx :| idx in remaining;
      if idx < |row| {
        instance := setters[idx](instance, row[idx]);
        assert (order + [idx])[..|order|] == order;
        order := order + [idx];
      }
      remaining := remaining - {idx};
    }
  }

  class UnmarshalerImpl<T> {
    const mapper: Mapper<T>
    /** Go's zero value of T, which `var instance T` yields. */
    const zero: T

    /** `NewUnmarshaler[T]()`: an empty registry. */
    constructor (zero: T)
      ensures fresh(mapper) && this.zero == zero
      ensures mapper.Getters == NilMap && mapper.Setters == NilMap && mapper.Fields == NilMap
    {
      mapper := new Mapper<T>();
      this.zero := zero;
    }

    method AddFieldMapping(field: string, index: int, setter: (T, Value) -> T)
      modifies mapper
      ensures mapper.Setters == Made(Entries(old(mapper.Setters))[index := setter])
      ensures mapper.Fields == Made(Entries(old(mapper.Fields))[field := index])
      ensures mapper.Getters == old(mapper.Getters)
    {
      mapper.AddFieldMapping(field, index, setter);
    }

    /**
     * One record per row, in input order, and never an error. Record `k` is
     * the zero value with the setters applied whose column lies inside row `k`
     * (each once, in the map-iteration order `orders[k]`); setters past the end
     * of a short row are skipped. A negative column would index the row out of
     * range and panic, so there must be none once there is a row.
     */
    method Unmarshal(data: seq<Row>) returns (res: Result<seq<T>, Strconv.NumError>, ghost orders: seq<seq<int>>)
      requires data != [] ==> forall idx :: idx in Entries(mapper.Setters) ==> idx >= 0
      ensures res.Ok? && |res.value| == |data| && |orders| == |data|
      ensures forall k :: 0 <= k < |data| ==>
        && IsEnumeration(orders[k], InBounds(Entries(mapper.Setters), |data[k]|))
        && res.value[k] == ApplySetters(zero, data[k], Entries(mapper.Setters), orders[k])
    {
      var setters := Entries(mapper.Setters);
      var result: seq<T> := [];
      orders := [];
      for k := 0 to |data|
        invariant |result| == k && |orders| == k
        invariant forall i :: 0 <= i < k ==>
          && IsEnumeration(orders[i], InBounds(setters, |data[i]|))
          && result[i] == ApplySetters(zero, data[i], setters, orders[i])
      {
        var instance;
        ghost var order;
        instance, order := Instance(zero, data[k], setters);
        result := result + [instance];
        orders := orders + [order];
      }
      res := Ok(result);
    }
  }

  /** The setter the tag loop registers for field `f`: coerce the cell into that field. */
  function Setter(f: Field, ext: Externals): (Record, Value) -> Record
  {
    (r, v) => SetFieldValue(f, r, v, ext)
  }

  /** The setters the tag loop leaves registered, one per registered column. */
  function SettersOf(b: map<int, Field>, ext: Externals): (s: map<int, (Record, Value) -> Record>)
    ensures s.Keys == b.Keys
    ensures forall k :: k in b ==> s[k] == Setter(b[k], ext)
  {
    map k | k in b :: Setter(b[k], ext)
  }

  /**
   * The setter registered at column `k` keeps the record's field set and
   * writes no field but `b[k].name`; it writes that one, when exported, with
   * the cell coerced from the field's current value, and leaves the record
   * alone when the field is unexported.
   */
  lemma SetterWritesOwnField(b: map<int, Field>, ext: Externals, k: int, r: Record, v: Value)
    requires k in b
    ensures SettersOf(b, ext)[k](r, v).Keys == r.Keys
    ensures forall n :: n in r && n != b[k].name ==> SettersOf(b, ext)[k](r, v)[n] == r[n]
    ensures b[k].name in r && b[k].exported ==>
      SettersOf(b, ext)[k](r, v)[b[k].name] == Coerce(b[k].kind, v, r[b[k].name], ext)
    ensures !b[k].exported ==> SettersOf(b, ext)[k](r, v) == r
  {
  }

  /**
   * The generic `Unmarshal[T]`: registers a coercing setter for each field
   * whose tag names a column (a later field at the same column replaces an
   * earlier one; untagged, malformed and bad-index tags are skipped, never an
   * error), then unmarshals from the struct's zero value.
   */
  method Unmarshal(schema: Schema, data: seq<Row>, ext: Externals) returns (res: Result<seq<Record>, Strconv.NumError>, ghost orders: seq<seq<int>>)
    requires data != [] ==> forall idx :: idx in ResolveLenient(schema) ==> idx >= 0
    ensures res.Ok? && |res.value| == |data| && |orders| == |data|
    ensures forall k :: 0 <= k < |data| ==>
      && IsEnumeration(orders[k], InBounds(ResolveLenient(schema), |data[k]|))
      && res.value[k] == ApplySetters(ZeroRecord(schema), data[k], SettersOf(ResolveLenient(schema), ext), orders[k])
  {
    var um := new UnmarshalerImpl<Record>(ZeroRecord(schema));
    for i := 0 to |schema|
      invariant fresh(um.mapper) && um.zero == ZeroRecord(schema)
      invariant Entries(um.mapper.Setters) == SettersOf(ResolveLenient(schema[..i]), ext)
    {
      assert schema[..i + 1][..i] == schema[..i];
      ghost var b := ResolveLenient(schema[..i]);
      var field := schema[i];
      var tag := field.tag;
      if tag != "" {
        var tagParts := Strings.Split(tag, SheetTagSeparator);
        if |tagParts| != 2 {
          assert ResolveLenient(schema[..i + 1]) == b;
          continue;
        }
        var index := Strconv.Atoi(tagParts[1]);
        if index.Err? {
          assert ParseDirective(tag) == BadIndex(index.error);
          assert ResolveLenient(schema[..i + 1]) == b;
          continue;
        }
        assert ParseDirective(tag) == Column(index.value);
        assert ResolveLenient(schema[..i + 1]) == b[index.value := field];
        SettersOfStore(b, index.value, field, ext);
        um.mapper.AddFieldMapping(field.name, index.value, Setter(field, ext));
      } else {
        assert ResolveLenient(schema[..i + 1]) == b;
      }
    }
    assert schema[..|schema|] == schema;
    res, orders := um.Unmarshal(data);
  }

  /** Registering a field's setter at a column updates the setter map at that column only. */
  lemma SettersOfStore(b: map<int, Field>, k: int, f: Field, ext: Externals)
    ensures SettersOf(b[k := f], ext) == SettersOf(b, ext)[k := Setter(f, ext)]
  {
  }

  /** A row that reaches no registered column leaves the record at its zero value. */
  lemma ShortRowStaysZero<T>(zero: T, row: Row, setters: map<int, (T, Value) -> T>, order: seq<int>)
    requires forall idx :: idx in setters ==> idx >= |row|
    requires IsEnumeration(order, InBounds(setters, |row|))
    ensures order == [] && ApplySetters(zero, row, setters, order) == zero
  {
    assert InBounds(setters, |row|) == {};
    EnumerationSize(order, InBounds(setters, |row|));
  }

  /**
   * Setters of fields keep the record's field set, and field `n` is written
   * only by the setter of the one column `key` registered to a field named `n`,
   * if that column is among the ones applied.
   */
  lemma {:induction false} FieldAfterSetters(b: map<int, Field>, ext: Externals, z: Record, row: Row, o: seq<int>, n: string, key: int)
    requires forall j :: 0 <= j < |o| ==> o[j] in b && 0 <= o[j] < |row|
    requires forall i, j :: 0 <= i < j < |o| ==> o[i] != o[j]
    requires forall j :: 0 <= j < |o| && b[o[j]].name == n ==> o[j] == key
    requires n in z
    ensures ApplySetters(z, row, SettersOf(b, ext), o).Keys == z.Keys
    ensures ApplySetters(z, row, SettersOf(b, ext), o)[n] ==
      if key in b && key in o && b[key].name == n then SetFieldValue(b[key], z, row[key], ext)[n] else z[n]
    decreases |o|
  {
    if o != [] {
      var init := o[..|o| - 1];
      var last := o[|o| - 1];
      FieldAfterSetters(b, ext, z, row, init, n, key);
      var r := ApplySetters(z, row, SettersOf(b, ext), init);
      assert ApplySetters(z, row, SettersOf(b, ext), o) == SetFieldValue(b[last], r, row[last], ext);
      assert key in o <==> key in init || key == last;
      if b[last].name == n {
        assert key !in init;
      }
    }
  }

  /**
   * What field `f` holds after the tag path has unmarshalled `row`: the coerced
   * cell when `f` is the field registered at its tag's column, that column lies
   * in the row and `f` is exported; its zero value otherwise (untagged,
   * malformed or bad-index tag, a later field took its column, short row,
   * unexported field).
   */
  function Decoded(f: Field, b: map<int, Field>, row: Row, ext: Externals): Value
  {
    match ParseDirective(f.tag)
    case Column(k) =>
      if k in b && b[k] == f && 0 <= k < |row| && f.exported then Coerce(f.kind, row[k], ZeroOf(f.kind), ext)
      else ZeroOf(f.kind)
    case _ => ZeroOf(f.kind)
  }

  /** In the tag path every field ends up as `Decoded` says, whatever order the setters ran in. */
  lemma TagRecordField(schema: Schema, row: Row, ext: Externals, o: seq<int>, p: nat)
    requires DistinctNames(schema) && p < |schema|
    requires forall idx :: idx in ResolveLenient(schema) ==> idx >= 0
    requires IsEnumeration(o, InBounds(ResolveLenient(schema), |row|))
    ensures ApplySetters(ZeroRecord(schema), row, SettersOf(ResolveLenient(schema), ext), o).Keys == ZeroRecord(schema).Keys
    ensures ApplySetters(ZeroRecord(schema), row, SettersOf(ResolveLenient(schema), ext), o)[schema[p].name]
            == Decoded(schema[p], ResolveLenient(schema), row, ext)
  {
    var b := ResolveLenient(schema);
    var f := schema[p];
    var z := ZeroRecord(schema);
    ZeroRecordAt(schema, p);
    var key := if ParseDirective(f.tag).Column? then ParseDirective(f.tag).index else 0;
    // A column registered to a field named like `f` is registered to `f` itself, at its tag's column.
    forall k | k in b && b[k].name == f.name
      ensures b[k] == f && ParseDirective(f.tag) == Column(k) && k == key
    {
      var q := ResolveSound(schema, k);
      assert q == p;
    }
    FieldAfterSetters(b, ext, z, row, o, f.name, key);
  }

  /** Every field comes out the same from any two runs of the tag path over the same row. */
  lemma TagFieldOrderFree(schema: Schema, row: Row, ext: Externals, o1: seq<int>, o2: seq<int>, n: string)
    requires DistinctNames(schema) && n in ZeroRecord(schema)
    requires forall idx :: idx in ResolveLenient(schema) ==> idx >= 0
    requires IsEnumeration(o1, InBounds(ResolveLenient(schema), |row|))
    requires IsEnumeration(o2, InBounds(ResolveLenient(schema), |row|))
    ensures var setters := SettersOf(ResolveLenient(schema), ext);
            var r1 := ApplySetters(ZeroRecord(schema), row, setters, o1);
            var r2 := ApplySetters(ZeroRecord(schema), row, setters, o2);
            r1.Keys == r2.Keys == ZeroRecord(schema).Keys && r1[n] == r2[n]
  {
    var p :| 0 <= p < |schema| && schema[p].name == n;
    TagRecordField(schema, row, ext, o1, p);
    TagRecordField(schema, row, ext, o2, p);
  }

  /** Two records with the same fields holding the same values are the same record. */
  lemma SameRecord(r1: Record, r2: Record, names: set<string>)
    requires r1.Keys == names && r2.Keys == names
    requires forall n :: n in names ==> r1[n] == r2[n]
    ensures r1 == r2
  {
  }

  /** In the tag path the record does not depend on the order in which the map iteration ran the setters. */
  lemma TagUnmarshalOrderFree(schema: Schema, row: Row, ext: Externals, o1: seq<int>, o2: seq<int>)
    requires DistinctNames(schema)
    requires forall idx :: idx in ResolveLenient(schema) ==> idx >= 0
    requires IsEnumeration(o1, InBounds(ResolveLenient(schema), |row|))
    requires IsEnumeration(o2, InBounds(ResolveLenient(schema), |row|))
    ensures ApplySetters(ZeroRecord(schema), row, SettersOf(ResolveLenient(schema), ext), o1)
         == ApplySetters(ZeroRecord(schema), row, SettersOf(ResolveLenient(schema), ext), o2)
  {
    var setters := SettersOf(ResolveLenient(schema), ext);
    var r1 := ApplySetters(ZeroRecord(schema), row, setters, o1);
    var r2 := ApplySetters(ZeroRecord(schema), row, setters, o2);
    var names := ZeroRecord(schema).Keys;
    if schema == [] {
      assert InBounds(ResolveLenient(schema), |row|) == {};
      EnumerationSize(o1, InBounds(ResolveLenient(schema), |row|));
      EnumerationSize(o2, InBounds(ResolveLenient(schema), |row|));
    } else {
      TagFieldOrderFree(schema, row, ext, o1, o2, schema[0].name);
      forall n | n in names ensures r1[n] == r2[n] {
        TagFieldOrderFree(schema, row, ext, o1, o2, n);
      }
      SameRecord(r1, r2, names);
    }
  }
}
