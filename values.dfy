/**
 * Cells, field kinds and records: the untyped side (`any`) and the typed side
 * (a struct, seen through its fields) that the mapping engine converts between.
 */
module Values {

  /**
   * One cell of a row: Go's `any`, restricted to the dynamic types the engine
   * tells apart. `Nil` also stands for the zero value of the kinds the coercer
   * does not handle (slices, maps, unsigned integers, non-time structs, ...).
   */
  datatype Value =
    | Nil
    | Str(s: string)
    | Int(i: int)
    | Float(f: real)
    | Bool(b: bool)
    | Time(instant: int)   // a time.Time, opaque here

  /** A row: one cell per physical column, index 0 first; rows may differ in length. */
  type Row = seq<Value>

  /** The signed integer kinds; Go's `int` is 64 bits wide on the platforms modelled. */
  datatype IntWidth = W8 | W16 | W32 | W64

  /** Half the range of a signed integer of width `w`: it holds -Limit(w) .. Limit(w) - 1. */
  function Limit(w: IntWidth): nat
  {
    match w
    case W8 => 0x80
    case W16 => 0x8000
    case W32 => 0x8000_0000
    case W64 => 0x8000_0000_0000_0000
  }

  /** `!reflect.Value.OverflowInt(n)` for a destination of width `w`. */
  predicate Fits(n: int, w: IntWidth)
  {
    -(Limit(w) as int) <= n < Limit(w)
  }

  datatype FloatWidth = F32 | F64

  /** The kinds of struct field that the coercer distinguishes (reflect.Kind, plus time.Time). */
  datatype FieldKind =
    | KString
    | KInt(width: IntWidth)
    | KFloat(fwidth: FloatWidth)
    | KBool
    | KTime      // a struct field of type time.Time
    | KStruct    // any other struct type
    | KOther     // every kind the coercer has no case for

  /**
   * What reflection tells about one struct field: its name, its kind, whether it
   * is exported (only exported fields can be set through reflection), and the
   * value of its `sheet` tag key ("" when the field has no such key).
   */
  datatype Field = Field(name: string, kind: FieldKind, exported: bool, tag: string)

  /** A struct's field list, in declaration order. */
  type Schema = seq<Field>

  /** A struct value, seen as the value of each of its fields by name. */
  type Record = map<string, Value>

  /** Go's zero value for a field of kind `k`. */
  function ZeroOf(k: FieldKind): Value
  {
    match k
    case KString => Str("")
    case KInt(_) => Int(0)
    case KFloat(_) => Float(0.0)
    case KBool => Bool(false)
    case KTime => Time(0)
    case KStruct => Nil
    case KOther => Nil
  }

  /** Go's zero value of the struct: `var instance T`. */
  function ZeroRecord(schema: Schema): (z: Record)
    ensures z.Keys == set p | 0 <= p < |schema| :: schema[p].name
  {
    if schema == [] then map[]
    else
      var init := schema[..|schema| - 1];
      var f := schema[|schema| - 1];
      assert forall p :: 0 <= p < |init| ==> init[p] == schema[p];
      ZeroRecord(init)[f.name := ZeroOf(f.kind)]
  }

  /** Go forbids two fields of one struct to share a name. */
  predicate DistinctNames(schema: Schema)
  {
    forall p, q :: 0 <= p < q < |schema| ==> schema[p].name != schema[q].name
  }

  /** In a struct with distinct field names, every field starts at its kind's zero value. */
  lemma {:induction false} ZeroRecordAt(schema: Schema, p: nat)
    requires DistinctNames(schema) && p < |schema|
    ensures schema[p].name in ZeroRecord(schema)
    ensures ZeroRecord(schema)[schema[p].name] == ZeroOf(schema[p].kind)
  {
    var init := schema[..|schema| - 1];
    if p < |schema| - 1 {
      assert DistinctNames(init) by {
        forall a, b | 0 <= a < b < |init| ensures init[a].name != init[b].name {
          assert init[a] == schema[a] && init[b] == schema[b];
        }
      }
      ZeroRecordAt(init, p);
      assert init[p] == schema[p];
    }
  }
}
