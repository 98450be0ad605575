/**
 * The tag resolver of the generic Marshal and Unmarshal: each field's `sheet`
 * tag, "<name>,<index>", decides whether and at which column the field is
 * registered. The two directions differ only in what a non-integer index does.
 */
module Tags {
  import opened Wrappers
  import opened Values
  import Strconv
  import Strings

  /** The separator between the display name and the column index. */
  const SheetTagSeparator: char := ','

  /** What one field's tag asks for. */
  datatype Directive =
    | Untagged                          // no `sheet` key, or an empty one
    | Malformed                         // not exactly two comma-separated parts
    | BadIndex(err: Strconv.NumError)   // the index part is not an int
    | Column(index: int)

  /** The tag handling shared by both loop bodies, up to the Atoi call. */
  function ParseDirective(tag: string): Directive
  {
    if tag == "" then Untagged
    else
      var parts := Strings.Split(tag, SheetTagSeparator);
      if |parts| != 2 then Malformed
      else
        match Strconv.Atoi(parts[1])
        case Err(e) => BadIndex(e)
        case Ok(n) => Column(n)
  }

  /**
   * Only the empty tag is untagged; any other tag is malformed exactly when it
   * does not hold exactly one comma.
   */
  lemma DirectiveMalformed(tag: string)
    ensures ParseDirective(tag).Untagged? <==> tag == ""
    ensures ParseDirective(tag).Malformed? <==> tag != "" && Strings.Count(tag, SheetTagSeparator) != 1
  {
    Strings.SplitCount(tag, SheetTagSeparator);
  }

  /**
   * A tag with exactly one comma, at `i`, maps the field to the column the text
   * after the comma denotes, or reports that text back as a bad index.
   */
  lemma DirectiveMeaning(tag: string, i: nat)
    requires i < |tag| && tag[i] == SheetTagSeparator
    ensures Strings.Count(tag, SheetTagSeparator) == 1 ==>
      var text := tag[i + 1..];
      if Strconv.IsDecimal(text) && Fits(Strconv.SignedValue(text), W64)
      then ParseDirective(tag) == Column(Strconv.SignedValue(text))
      else ParseDirective(tag).BadIndex? && ParseDirective(tag).err.num == text
  {
    if Strings.Count(tag, SheetTagSeparator) == 1 {
      Strings.SplitCount(tag, SheetTagSeparator);
      Strings.TwoPieces(tag, SheetTagSeparator, i);
      Strconv.AtoiMeaning(tag[i + 1..]);
    }
  }

  /** A tag written as "<name>,<index>" for a comma-free name and an int64 index is read back as that index. */
  lemma DirectiveRoundTrip(name: string, k: int)
    requires Strings.Count(name, SheetTagSeparator) == 0 && Fits(k, W64)
    ensures ParseDirective(name + [SheetTagSeparator] + Strconv.FormatInt(k)) == Column(k)
  {
    var text := Strconv.FormatInt(k);
    var tag := name + [SheetTagSeparator] + text;
    var parts := [name, text];
    assert Strings.Count(text, SheetTagSeparator) == 0 by {
      Strconv.ParseIntFormatInt(k);
      Strconv.ParseIntMeaning(text);
      NoSeparatorInDecimal(text);
    }
    assert Strings.Join(parts, SheetTagSeparator) == tag;
    Strings.SplitJoin(parts, SheetTagSeparator);
    Strconv.ParseIntFormatInt(k);
    Strconv.AtoiFastPath(text);
  }

  lemma {:induction false} NoSeparatorInDecimal(s: string)
    requires Strconv.IsDecimal(s)
    ensures Strings.Count(s, SheetTagSeparator) == 0
  {
    var u := Strconv.Unsigned(s);
    DigitsHaveNoSeparator(u);
    if u != s {
      assert s[1..] == u;
    }
  }

  lemma {:induction false} DigitsHaveNoSeparator(ds: string)
    requires Strconv.AllDigits(ds)
    ensures Strings.Count(ds, SheetTagSeparator) == 0
  {
    if ds != [] {
      DigitsHaveNoSeparator(ds[1..]);
    }
  }

  /**
   * The registrations the tag loop of Unmarshal makes: a column index maps to
   * the last field whose tag names it; untagged, malformed and bad-index fields
   * are skipped.
   */
  function ResolveLenient(schema: Schema): map<int, Field>
  {
    if schema == [] then map[]
    else
      var b := ResolveLenient(schema[..|schema| - 1]);
      var f := schema[|schema| - 1];
      match ParseDirective(f.tag)
      case Column(k) => b[k := f]
      case _ => b
  }

  /**
   * The registrations the tag loop of Marshal makes, or the error of the first
   * field whose index is not an int, which aborts the loop.
   */
  function ResolveStrict(schema: Schema): Result<map<int, Field>, Strconv.NumError>
  {
    if schema == [] then Ok(map[])
    else
      match ResolveStrict(schema[..|schema| - 1])
      case Err(e) => Err(e)
      case Ok(b) =>
        var f := schema[|schema| - 1];
        match ParseDirective(f.tag)
        case BadIndex(e) => Err(e)
        case Column(k) => Ok(b[k := f])
        case _ => Ok(b)
  }

  /**
   * Every registered index comes from a field of the schema whose tag names
   * it, and no later field's tag names the same index; `p` is that field.
   */
  lemma {:induction false} ResolveSound(schema: Schema, k: int) returns (p: nat)
    requires k in ResolveLenient(schema)
    ensures p < |schema| && ResolveLenient(schema)[k] == schema[p]
    ensures ParseDirective(schema[p].tag) == Column(k)
    ensures forall q :: p < q < |schema| ==> ParseDirective(schema[q].tag) != Column(k)
  {
    var init := schema[..|schema| - 1];
    var f := schema[|schema| - 1];
    if ParseDirective(f.tag) == Column(k) {
      p := |schema| - 1;
    } else {
      assert ResolveLenient(schema)[k] == ResolveLenient(init)[k];
      p := ResolveSound(init, k);
      assert schema[p] == init[p];
      forall q | p < q < |schema| ensures ParseDirective(schema[q].tag) != Column(k) {
        if q < |init| {
          assert schema[q] == init[q];
        }
      }
    }
  }

  /** Every field whose tag names a column gets that column registered (to it or to a later field). */
  lemma {:induction false} ResolveComplete(schema: Schema, p: nat)
    requires p < |schema| && ParseDirective(schema[p].tag).Column?
    ensures ParseDirective(schema[p].tag).index in ResolveLenient(schema)
  {
    var init := schema[..|schema| - 1];
    if p < |init| {
      assert init[p] == schema[p];
      ResolveComplete(init, p);
    }
  }

  /** With distinct field names, no two columns are registered to fields of the same name. */
  lemma NamesInjective(schema: Schema)
    requires DistinctNames(schema)
    ensures forall i, j :: (i in ResolveLenient(schema) && j in ResolveLenient(schema)
                            && ResolveLenient(schema)[i].name == ResolveLenient(schema)[j].name) ==> i == j
  {
    var b := ResolveLenient(schema);
    forall i, j | i in b && j in b && b[i].name == b[j].name ensures i == j {
      var p := ResolveSound(schema, i);
      var q := ResolveSound(schema, j);
    }
  }

  /**
   * The two directions agree except on bad indices: Marshal fails exactly when
   * some field's index is not an int, with the first such field's error, and
   * otherwise registers exactly the columns Unmarshal registers.
   */
  lemma {:induction false} StrictVersusLenient(schema: Schema)
    ensures ResolveStrict(schema).Ok? <==> forall p :: 0 <= p < |schema| ==> !ParseDirective(schema[p].tag).BadIndex?
    ensures ResolveStrict(schema).Ok? ==> ResolveStrict(schema).value == ResolveLenient(schema)
    ensures ResolveStrict(schema).Err? ==>
      exists p :: (0 <= p < |schema|
                   && ParseDirective(schema[p].tag) == BadIndex(ResolveStrict(schema).error)
                   && forall q :: 0 <= q < p ==> !ParseDirective(schema[q].tag).BadIndex?)
  {
    if schema != [] {
      var init := schema[..|schema| - 1];
      StrictVersusLenient(init);
      assert forall q :: 0 <= q < |init| ==> init[q] == schema[q];
      if ResolveStrict(init).Err? {
        var p :| 0 <= p < |init| && ParseDirective(init[p].tag) == BadIndex(ResolveStrict(init).error)
          && forall q :: 0 <= q < p ==> !ParseDirective(init[q].tag).BadIndex?;
        assert ParseDirective(schema[p].tag) == BadIndex(ResolveStrict(schema).error);
      }
    }
  }

  /** Once the loop has hit a bad index, the whole call fails with that error. */
  lemma {:induction false} StrictErrorSticks(schema: Schema, i: nat)
    requires i <= |schema| && ResolveStrict(schema[..i]).Err?
    ensures ResolveStrict(schema) == ResolveStrict(schema[..i])
    decreases |schema| - i
  {
    if i < |schema| {
      assert schema[..i + 1][..i] == schema[..i];
      StrictErrorSticks(schema, i + 1);
    } else {
      assert schema[..i] == schema;
    }
  }
}
