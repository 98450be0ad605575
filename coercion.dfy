/**
 * The value coercer (`setFieldValue`): writes one untyped cell into one field,
 * accepting only text cells and leaving the field as it was whenever the text
 * does not convert.
 */
module Coercion {
  import opened Wrappers
  import opened Values
  import Strconv

  /**
   * The library parsers this model does not open up. `parseFloat` stands for
   * `strconv.ParseFloat(v, 64)` followed by the destination's OverflowFloat
   * check, `parseTime` for `time.Parse` with the RFC 3339 layout; each gives
   * None where the code skips the field.
   */
  datatype Externals = Externals(
    parseFloat: (string, FloatWidth) -> Option<real>,
    parseTime: string -> Option<int>)

  /**
   * The new content of a field of kind `kind` that holds `current`, once the cell
   * `v` is written into it. Only text cells are accepted; an integer is taken
   * only when it is decimal text whose value fits the field, so nothing wraps.
   */
  function Coerce(kind: FieldKind, v: Value, current: Value, ext: Externals): (r: Value)
    ensures !v.Str? ==> r == current
    ensures kind.KInt? && r != current ==>
      v.Str? && Strconv.IsDecimal(v.s) && r == Int(Strconv.SignedValue(v.s)) && Fits(r.i, kind.width)
    ensures kind.KString? && v.Str? ==> r == v
    ensures (kind.KStruct? || kind.KOther?) ==> r == current
  {
    if !v.Str? then current
    else
      match kind
      case KString => v
      case KInt(w) =>
        Strconv.ParseIntMeaning(v.s);
        (match Strconv.ParseInt(v.s)
         case Ok(n) => if Fits(n, w) then Int(n) else current
         case Err(_) => current)
      case KFloat(fw) =>
        (match ext.parseFloat(v.s, fw)
         case Some(x) => Float(x)
         case None => current)
      case KBool => Bool(v.s == "TRUE")
      case KTime =>
        (match ext.parseTime(v.s)
         case Some(t) => Time(t)
         case None => current)
      case KStruct => current
      case KOther => current
  }

  /**
   * `setFieldValue(field, value, type)` on the field `f` of record `r`: a field
   * the record lacks (not valid) or an unexported one (not settable) is left
   * alone; no other field ever changes.
   */
  function SetFieldValue(f: Field, r: Record, v: Value, ext: Externals): (r': Record)
    ensures r'.Keys == r.Keys
    ensures forall n :: n in r && n != f.name ==> r'[n] == r[n]
    ensures f.name in r && f.exported ==> r'[f.name] == Coerce(f.kind, v, r[f.name], ext)
    ensures !f.exported ==> r' == r
  {
    if f.name in r && f.exported then r[f.name := Coerce(f.kind, v, r[f.name], ext)] else r
  }

  /**
   * An integer field takes a text cell exactly when the text is decimal (an
   * optional sign, then digits) and its value fits the field's width.
   */
  lemma CoerceInt(w: IntWidth, s: string, current: Value, ext: Externals)
    ensures Coerce(KInt(w), Str(s), current, ext) ==
      if Strconv.IsDecimal(s) && Fits(Strconv.SignedValue(s), w) then Int(Strconv.SignedValue(s)) else current
  {
    Strconv.ParseIntMeaning(s);
  }

  /**
   * An integer that fits the field survives the trip through its decimal text:
   * the cell `strconv.Itoa(n)` sets the field to `n`.
   */
  lemma CoerceFormatted(w: IntWidth, n: int, current: Value, ext: Externals)
    requires Fits(n, w)
    ensures Coerce(KInt(w), Str(Strconv.FormatInt(n)), current, ext) == Int(n)
  {
    assert Limit(w) <= Strconv.Int64Limit;
    Strconv.ParseIntFormatInt(n);
    Strconv.ParseIntMeaning(Strconv.FormatInt(n));
  }

  /**
   * An int64 that does not fit a narrower field is refused, not wrapped: the
   * field keeps what it held.
   */
  lemma CoerceOverflow(w: IntWidth, n: int, current: Value, ext: Externals)
    requires Fits(n, W64) && !Fits(n, w)
    ensures Coerce(KInt(w), Str(Strconv.FormatInt(n)), current, ext) == current
  {
    Strconv.ParseIntFormatInt(n);
    Strconv.ParseIntMeaning(Strconv.FormatInt(n));
  }

  /**
   * Text with twenty or more significant digits fails ParseInt's 64-bit range
   * check, so it leaves an integer field of any width as it was.
   */
  lemma CoerceIntTooLong(w: IntWidth, s: string, current: Value, ext: Externals)
    requires Strconv.IsDecimal(s) && |Strconv.Unsigned(s)| >= 20 && Strconv.Unsigned(s)[0] != '0'
    ensures Coerce(KInt(w), Str(s), current, ext) == current
  {
    Strconv.TwentyDigitsOverflow(s);
  }

  /** A bool field becomes true only for the exact text "TRUE", and any text overwrites it. */
  lemma CoerceBool(s: string, current: Value, ext: Externals)
    ensures Coerce(KBool, Str(s), current, ext) == Bool(s == "TRUE")
    ensures Coerce(KBool, Str("true"), current, ext) == Bool(false)
    ensures Coerce(KBool, Str("TRUE"), current, ext) == Bool(true)
  {
  }
}
