# sheetutils: a Dafny model of the spreadsheet row mapper

sheetutils converts between Go structs and spreadsheet rows. A row is a slice of
untyped cells (`[][]any`).

A `Mapper` holds the registrations. Each one ties a column index to a field, through
a getter (struct to cell) or a setter (cell to struct). The registrations live in Go
maps, and those maps stay nil until the first registration.

- `MarshalerImpl.Marshal` turns each struct into a row. It calls every registered
  getter once.
- `UnmarshalerImpl.Unmarshal` turns each row into a struct. It starts from the zero
  struct and calls every setter whose column lies inside the row.
- The generic `Marshal[T]` and `Unmarshal[T]` register the fields themselves. They read
  each field's `sheet:"name,index"` tag, split it at its comma and read the index with
  `strconv.Atoi`.
  - Marshal stops at the first index that is not an int and returns its error.
  - Unmarshal skips such fields.
  - Both skip untagged fields and tags that do not split into exactly two pieces.
- `setFieldValue` converts one cell into one field. It accepts only text cells.
  - string fields copy the text.
  - int fields take the text when `ParseInt` accepts it and the value fits the field.
  - float fields take it when `ParseFloat` accepts it and the value fits.
  - bool fields become true exactly for `"TRUE"`.
  - `time.Time` fields take RFC 3339 text.
  - Every other case leaves the field as it was.

## How the model is built

Go's `range` over a map visits the keys in an unspecified order. The model makes
that choice with `:|`, so every method that ranges over a map may pick any order.
Each such method also returns the order it used as a ghost value (`orders`).
`Registry.IsEnumeration` says that this order visits every key exactly once.
The contracts tie each row, and each struct, to the order that was actually used.

| file | module | what it holds |
|---|---|---|
| `wrappers.dfy` | `Wrappers` | `Option` and `Result` |
| `values.dfy` | `Values` | cells (`Value`), field kinds, integer widths, a struct type as a `Schema` of fields, a struct value as a `Record`, zero values |
| `strconv.dfy` | `Strconv` | `ParseInt(s, 10, 64)` and `Atoi` (its fast path for short inputs and its slow path through ParseInt) as Go's scanner does them (cutoff, range and syntax errors), with an independent reading of decimal text and the proofs that the two agree |
| `strings.dfy` | `Strings` | `strings.Split` on a one-character separator, and `Join` |
| `registry.dfy` | `Registry` | Go maps that may be nil (`GoMap`), map enumerations, and the `Mapper` class |
| `tags.dfy` | `Tags` | what one tag says (`ParseDirective`), and which columns the two tag loops register (`ResolveLenient` for Unmarshal, `ResolveStrict` for Marshal) |
| `coercion.dfy` | `Coercion` | `setFieldValue` |
| `marshaler.dfy` | `Marshaling` | `MarshalerImpl` and the generic `Marshal` |
| `unmarshaler.dfy` | `Unmarshaling` | `UnmarshalerImpl`, the generic `Unmarshal`, and what the tag path puts in every field |
| `examples.dfy` | `Scenarios` | the repository's test scenarios and a few edge cases |

Reflection is replaced by data:

- A struct type is a `Schema`: a sequence of fields, each with a name, a kind, an
  exported flag and a tag.
- A struct value is a `Record`, a map from field name to cell.
- The zero struct (`var instance T`) is `ZeroRecord(schema)`.

## Model

| member | source | states |
|---|---|---|
| Registry.Store | mapper.go:17-24 | Assigning into a made map maps the key to the value and keeps every other entry. The map grows only for a new key. Assigning into a nil map is excluded (it panics in Go). |
| Registry.Mapper.constructor | marshaler.go:17-19 | A new Mapper has nil getter, setter and field maps. |
| Registry.Mapper.AddFieldMapping | mapper.go:16-25 | Makes the setter and field maps if they are nil. Then registers the setter at the index and the field name at the index. The size grows only for a new index, and the getters are untouched. |
| Registry.Mapper.AddFieldGetter | marshaler.go:21-23 | The same for getters: they are made if nil and then registered. The setters are untouched. |
| Registry.EnumerationSize | marshaler.go:30 | A `range` over a map makes exactly as many visits as the map has keys. |
| Marshaling.RowOf | marshaler.go:29-32 | One row holds exactly one cell per registered getter. Cell `j` is the result of the `j`-th getter visited. |
| Marshaling.RowContents | marshaler.go:29-32 | Whatever order the map iteration picked, the row holds every getter's value and nothing that no getter returned. |
| Marshaling.MarshalerImpl.constructor | marshaler.go:17-19 | A new marshaler owns a fresh, empty Mapper. |
| Marshaling.MarshalerImpl.AddFieldGetter | marshaler.go:21-23 | Delegates to the Mapper: the getter is registered at the index and nothing else changes. |
| Marshaling.MarshalerImpl.Marshal | marshaler.go:25-37 | Never fails. Gives one row per struct, in input order. Each row visits every getter once. |
| Marshaling.GetterReadsOwnField | marshaler.go:56-58 | The getter the tag loop registers at a column reads that column's field of the record and nothing else: two records that agree on the field give the same cell, and a missing field reads as nil. |
| Marshaling.Marshal | marshaler.go:39-63 | If some tag's index is not an int, the call fails with the error of the first such field. Otherwise each row holds the value of every registered field once. A later field at the same column replaces an earlier one. |
| Unmarshaling.Instance | unmarshaler.go:34-41 | Starting from the zero value, every setter whose column is inside the row is applied exactly once. The others are skipped. |
| Unmarshaling.UnmarshalerImpl.constructor | unmarshaler.go:21-23 | A new unmarshaler owns a fresh, empty Mapper. |
| Unmarshaling.UnmarshalerImpl.AddFieldMapping | unmarshaler.go:26-28 | Delegates to the Mapper: the setter is registered at the index. |
| Unmarshaling.UnmarshalerImpl.Unmarshal | unmarshaler.go:31-45 | Never fails. Gives one value per row, each built as `Instance` says. |
| Unmarshaling.SetterWritesOwnField | unmarshaler.go:66-70 | The setter the tag loop registers at a column keeps the record's fields, writes no field but that column's, writes it (when exported) with the cell coerced from its current value, and leaves the record alone when the field is unexported. |
| Unmarshaling.Unmarshal | unmarshaler.go:48-75 | The generic Unmarshal registers the same columns as `ResolveLenient` and never fails. Each record is the zero struct with those setters applied. |
| Unmarshaling.ShortRowStaysZero | unmarshaler.go:36-40 | When a row reaches none of the registered columns, no setter runs and the value stays zero. |
| Unmarshaling.FieldAfterSetters | unmarshaler.go:36-40 | A field is written only by the setter of the single column registered to it. The set of fields never changes. |
| Unmarshaling.TagRecordField | unmarshaler.go:48-75 | Every field ends up as `Decoded` says: its cell converted from the zero value when the field owns its tag's column, the row reaches that column and the field is exported. Otherwise the field keeps its zero value. |
| Unmarshaling.TagFieldOrderFree | unmarshaler.go:36-40 | One field comes out the same whichever order the map iteration ran the setters in. |
| Unmarshaling.TagUnmarshalOrderFree | unmarshaler.go:34-44 | The whole record produced by the tag path does not depend on the map iteration order. |
| Coercion.Coerce | unmarshaler.go:81-110 | Only text cells are taken. An int field changes only to the decimal value of the text, and only when that value fits the field's width. A string field takes the text. Any other struct kind is left alone. |
| Coercion.SetFieldValue | unmarshaler.go:79-111 | A missing field or an unexported field is left alone. No other field changes. The set of fields is kept. |
| Coercion.CoerceInt | unmarshaler.go:88-93 | An int field takes text exactly when it is decimal and its value fits the width, in both directions. |
| Coercion.CoerceFormatted | unmarshaler.go:88-93 | Round trip: the decimal text of any value that fits the field gives back that value. |
| Coercion.CoerceOverflow | unmarshaler.go:90 | An int64 that does not fit a narrower field is refused rather than wrapped. |
| Coercion.CoerceIntTooLong | unmarshaler.go:89-91 | Text with 20 or more significant digits is out of int64 range, so the field is left as it was. |
| Coercion.CoerceBool | unmarshaler.go:100-101 | A bool field becomes true exactly for `"TRUE"`, so `"true"` gives false. |
| Tags.DirectiveMalformed | unmarshaler.go:53-60 | Only the empty tag is skipped as untagged. Any other tag is skipped as malformed exactly when it does not hold exactly one comma. |
| Tags.DirectiveMeaning | unmarshaler.go:58-64 | A tag with exactly one comma names the column whose decimal text follows the comma, or it fails with that text as the error's input. |
| Tags.DirectiveRoundTrip | marshaler.go:46-52 | A comma-free name, a comma and the decimal text of an int64 name that int as the column. |
| Tags.ResolveSound | unmarshaler.go:53-72 | Every registered column comes from a field whose tag names it, and no later field names it. |
| Tags.ResolveComplete | unmarshaler.go:53-72 | Every field whose tag names a column gets that column registered. |
| Tags.NamesInjective | unmarshaler.go:66-70 | When field names are distinct, no two columns are registered to one field. |
| Tags.StrictVersusLenient | marshaler.go:44-60 | Marshal's loop fails exactly when some index is not an int, with the first such error. Otherwise it registers exactly what Unmarshal's loop registers. |
| Tags.StrictErrorSticks | marshaler.go:52-55 | Once an index fails to parse, the whole Marshal call fails with that error. |
| Strings.Split | marshaler.go:48 | Split always returns at least one piece. |
| Strings.SplitCount | marshaler.go:48-49 | Split returns one more piece than the text has separators. |
| Strings.SplitPiecesFree | marshaler.go:48 | No piece holds the separator. |
| Strings.JoinSplit | marshaler.go:48 | Joining the pieces of a split gives back the text. |
| Strings.SplitJoin | marshaler.go:48 | Splitting a join of separator-free pieces gives back the pieces. |
| Strings.TwoPieces | unmarshaler.go:57-61 | A text with exactly one separator splits into the text before it and the text after it. |
| Strconv.ScanDigits | unmarshaler.go:89 | The digit scan of `ParseInt` never leaves 64 bits. |
| Strconv.ParseInt | unmarshaler.go:89 | Every accepted value lies in int64 range. |
| Strconv.Atoi | marshaler.go:52 | Go's Atoi on a 64-bit platform: inputs of 1 to 18 bytes take the fast path (one sign, then digits with no overflow check), the rest go to ParseInt. Every error names `Atoi` and carries the whole input. |
| Strconv.AtoiFastPath | marshaler.go:52 | The fast path answers exactly as the slow path would: the same value, and a syntax error exactly where ParseInt reports one, because no input of at most 18 bytes overflows. |
| Strconv.ParseIntMeaning | unmarshaler.go:89-90 | ParseInt accepts exactly decimal text whose value is in int64 range, and returns that value. Decimal text out of range is a range error. |
| Strconv.AtoiMeaning | unmarshaler.go:61-64 | Atoi accepts exactly decimal text in int64 range, and returns its value. |
| Strconv.ParseIntFormatInt | unmarshaler.go:89 | Round trip: ParseInt reads back the decimal text of every int64. |
| Strconv.TwentyDigitsOverflow | unmarshaler.go:89-90 | Twenty or more significant digits never fit int64, so the result is a range error. |
| Values.ZeroRecord | unmarshaler.go:35 | The zero struct has exactly the schema's field names. |
| Values.ZeroRecordAt | unmarshaler.go:35 | In the zero struct, every field holds its kind's zero value. |
| Scenarios.TestTags | marshaler_test.go:65-66 | The tests' tags `column1,0` and `column2,1` name columns 0 and 1. |
| Scenarios.MoreTestTags | unmarshaler_test.go:67-68 | The tags `column3,2` and `column4,3` name columns 2 and 3. |
| Scenarios.ThreeBillion | unmarshaler.go:88-93 | The text of 3000000000 leaves an int32 field unchanged and sets an int64 field. |
| Scenarios.ColumnsInOrder | marshaler.go:44-60 | When the tag of field p names column p, both loops register every field at its own position. |
| Scenarios.TwoColumns | marshaler.go:30 | A map with keys 0 and 1 is visited as 0 then 1, or as 1 then 0. |
| Scenarios.MarshalTestRows | marshaler_test.go:61-80 | The tagged Marshal of the test rows succeeds. Each row holds both values once, in either order. |
| Scenarios.MarshalerImplTestRows | marshaler_test.go:9-59 | Marshal with hand-registered getters: each row holds both values once, in either order. |
| Scenarios.UnmarshalerImplTestRows | unmarshaler_test.go:9-59 | Unmarshal with hand-registered setters gives exactly the expected structs. |
| Scenarios.PositionalField | unmarshaler.go:48-75 | When field p is exported and tagged with column p, it receives its own cell, converted. |
| Scenarios.UnmarshalTestRow | unmarshaler_test.go:61-82 | The four-field test struct: each field is its own cell converted from the zero value. |
| Scenarios.UnmarshalNativeCells | unmarshaler_test.go:71-81 | Native int, float and bool cells leave their fields at zero. Only the string field is filled. |
| Scenarios.UnmarshalTextCells | unmarshaler.go:86-101 | Text cells fill the int field with the formatted value, the bool field from `"TRUE"`, and the float field with what the float parser gives. |
| Scenarios.UnmarshalShortRow | unmarshaler.go:37 | A one-cell row fills only the first field. The others stay zero. |

## Where the code and its documentation or tests part

The model follows the code in each of these cases.

- **Cells in the tests.** The tagged Unmarshal test feeds native cells (`1`, `1.1`,
  `true`) and expects the struct to hold them. `setFieldValue` returns at once for
  any cell that is not a string, so those fields stay zero
  (`Scenarios.UnmarshalNativeCells`).
- **Row order in the tests.** The tests expect every row in column order. Both
  Marshal entry points append cells in map iteration order, and Go randomises that
  order. So a row holds each value once, in any order (`Scenarios.MarshalTestRows`).
  The column index decides which getters exist, not where their cells go.
- **Where the fields live.** mapper.go declares a `Columns` map and only
  `AddFieldMapping`. The marshaler and unmarshaler use `Getters`, `Setters`,
  `AddFieldGetter` and `AddFieldSetter`, which are defined outside these files.
  - The model gives the Mapper `Getters`, `Setters` and `Fields`.
  - Setters are registered exactly as mapper.go's `AddFieldMapping` registers into
    `Columns`.
  - Getters are registered the same way.

## Left out

- Reflection is replaced by a `Schema` and `Record` maps. Struct fields nested
  inside other structs, embedded fields and pointer fields are not modelled.
- The tag key `sheet` and the separator `,` are defined outside these files. The
  model takes them from the tags in the tests.
- Marshaling.Getter: reads the field by name, where the code reads it by position
  (`Field(i)`). The two agree because Go field names are distinct.
- Marshaling.Marshal: calling `Interface()` on an unexported tagged field panics in
  Go. The model returns the value instead.
- Marshaling.Marshal: each getter closure captures the loop variable `i`. The model
  follows Go 1.22 and later, where every iteration has its own `i`. Before Go 1.22,
  every getter read past the last field and panicked.
- Coercion.Coerce: float and `time.Time` conversions are parameters (`Externals`).
  - `parseFloat` stands for `strconv.ParseFloat` followed by `OverflowFloat`.
  - `parseTime` stands for `time.Parse` with RFC 3339.
  - Floating point and time parsing are not modelled.
- Coercion.Coerce: a struct-kinded field other than `time.Time` is left alone, as
  the code does. No other reflect kind (uint, slices, maps, pointers) is converted.
- Unmarshaling.UnmarshalerImpl.Unmarshal: requires every registered index to be
  non-negative when there is data. `row[idx]` with a negative index panics in Go.
- Unmarshaling.Unmarshal: has the same requirement on the columns its tags register.
- Marshaling.MarshalerImpl.Marshal: getters are pure functions `T -> Value` in the
  model. Go passes each getter `&instance` (marshaler.go:31), so a getter may write
  to the loop's copy of the struct, and the getters visited after it in the same
  row would see that change, in map-iteration order. The model does not capture
  such writes.
- Unmarshaling.UnmarshalerImpl.constructor: takes the zero value as a parameter
  `zero`. `NewUnmarshaler` takes no argument, and `Unmarshal` relies on `var
  instance T` (unmarshaler.go:21-23, 35). The promise that each struct starts
  from the zero value holds for whatever value the caller passes. The generic
  `Unmarshal` passes `ZeroRecord(schema)`, which is the real zero struct.
- Setters and getters registered by hand are total functions in the model. A Go
  type assertion inside a user's setter can panic; that is user code.
- Strconv.Atoi: models a 64-bit platform only. On a 32-bit platform the fast path
  stops at 9 bytes and `int` is 32 bits wide.
- Strconv.ParseInt: the error records only its kind (syntax or range), not Go's
  clamped value for out-of-range input, which the code never reads.
- The `error` results of `MarshalerImpl.Marshal` and `UnmarshalerImpl.Unmarshal`
  are always nil in the code. The model's `Err` case therefore occurs only in the
  generic Marshal.
- Cells in the model do not distinguish `int` from `int64`, or `float32` from
  `float64`. Marshal returns whatever the field holds.
- Concurrency is not modelled. The Mapper is not safe for concurrent use.
