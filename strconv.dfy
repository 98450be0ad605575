/**
 * Base-10 integer parsing as Go's strconv does it for `ParseInt(s, 10, 64)` and
 * `Atoi(s)` on a 64-bit platform: an optional sign, then decimal digits, then a
 * range check. Neither accepts spaces, underscores or an empty digit string.
 */
module Strconv {
  import opened Wrappers
  import opened Values

  datatype ErrKind = ErrSyntax | ErrRange

  /** strconv.NumError: the function that failed, its input, and why. */
  datatype NumError = NumError(func: string, num: string, err: ErrKind)

  const MaxUint64: nat := 0xFFFF_FFFF_FFFF_FFFF
  /** ParseUint's cutoff for base 10: the first accumulator value whose tenfold leaves 64 bits. */
  const Cutoff: nat := MaxUint64 / 10 + 1
  /** 1 << 63: int64 holds -Int64Limit .. Int64Limit - 1. */
  const Int64Limit: nat := Limit(W64)

  predicate IsDigit(c: char)
  {
    '0' <= c <= '9'
  }

  function DigitValue(c: char): nat
    requires IsDigit(c)
  {
    c as int - '0' as int
  }

  predicate AllDigits(s: string)
  {
    forall i :: 0 <= i < |s| ==> IsDigit(s[i])
  }

  /**
   * ParseUint's loop for base 10 and bit size 64: digits are accumulated left to
   * right; the first non-digit is a syntax error, and the first step that would
   * leave 64 bits is a range error, whatever follows it.
   */
  function ScanDigits(s: string, n: nat): (r: Result<nat, ErrKind>)
    requires n <= MaxUint64
    ensures r.Ok? ==> n <= r.value <= MaxUint64
    decreases |s|
  {
    if s == [] then Ok(n)
    else if !IsDigit(s[0]) then Err(ErrSyntax)
    else if n >= Cutoff then Err(ErrRange)
    else
      var n1 := n * 10 + DigitValue(s[0]);
      if n1 > MaxUint64 then Err(ErrRange) else ScanDigits(s[1..], n1)
  }

  /** `strconv.ParseUint(s, 10, 64)`, error kind only. */
  function ParseUint(s: string): Result<nat, ErrKind>
  {
    if s == [] then Err(ErrSyntax) else ScanDigits(s, 0)
  }

  /** The text after an optional leading sign. */
  function Unsigned(s: string): string
  {
    if |s| > 0 && (s[0] == '+' || s[0] == '-') then s[1..] else s
  }

  /** `strconv.ParseInt(s, 10, 64)`, error kind only. */
  function ParseInt(s: string): (r: Result<int, ErrKind>)
    ensures r.Ok? ==> Fits(r.value, W64)
  {
    if s == [] then Err(ErrSyntax)
    else
      var neg := s[0] == '-';
      match ParseUint(Unsigned(s))
      case Err(kind) => Err(kind)
      case Ok(un) =>
        if !neg && un >= Int64Limit then Err(ErrRange)
        else if neg && un > Int64Limit then Err(ErrRange)
        else Ok(if neg then -(un as int) else un)
  }

  /**
   * Atoi's fast-path loop: the digits of `ds` accumulated onto `n`, with no
   * overflow check; `None` at the first byte that is not a digit.
   */
  function FastDigits(ds: string, n: nat): Option<nat>
    decreases |ds|
  {
    if ds == [] then Some(n)
    else if !IsDigit(ds[0]) then None
    else FastDigits(ds[1..], n * 10 + DigitValue(ds[0]))
  }

  /**
   * `strconv.Atoi(s)` on a 64-bit platform. Inputs of 1 to 18 bytes take the
   * fast path: strip one sign, then accumulate the digits with no overflow
   * check; a missing or non-digit byte is a syntax error. Longer or empty
   * inputs go to `ParseInt(s, 10, 0)`, whose error is renamed to Atoi's. Every
   * error carries the whole input.
   */
  function Atoi(s: string): (r: Result<int, NumError>)
    ensures r.Err? ==> r.error.func == "Atoi" && r.error.num == s
  {
    if 0 < |s| < 19 then
      var ds := if s[0] == '-' || s[0] == '+' then s[1..] else s;
      if ds == [] then Err(NumError("Atoi", s, ErrSyntax))
      else
        match FastDigits(ds, 0)
        case None => Err(NumError("Atoi", s, ErrSyntax))
        case Some(n) => Ok(if s[0] == '-' then -(n as int) else n)
    else
      match ParseInt(s)
      case Ok(n) => Ok(n)
      case Err(kind) => Err(NumError("Atoi", s, kind))
  }

  // ---------------------------------------------------------------------------
  // A reference reading of decimal text, independent of the scanner.

  /** The number a digit string denotes, most significant digit first. */
  function DecimalValue(ds: string): nat
    requires AllDigits(ds)
  {
    if ds == [] then 0 else DecimalValue(ds[..|ds| - 1]) * 10 + DigitValue(ds[|ds| - 1])
  }

  /** The decimal digits of `n`, most significant first, with no leading zero (strconv.Itoa on a natural). */
  function FormatDecimal(n: nat): (ds: string)
    ensures |ds| > 0 && AllDigits(ds)
  {
    var d := ['0' + (n % 10) as char];
    if n < 10 then d else FormatDecimal(n / 10) + d
  }

  /** `strconv.Itoa(n)`: a minus sign for negatives, then the digits of the magnitude. */
  function FormatInt(n: int): string
  {
    if n < 0 then "-" + FormatDecimal(-n) else FormatDecimal(n)
  }

  /** Reading back the digits of `n` gives `n`. */
  lemma {:induction false} DecimalValueFormat(n: nat)
    ensures DecimalValue(FormatDecimal(n)) == n
  {
    if n >= 10 {
      DecimalValueFormat(n / 10);
      var ds := FormatDecimal(n);
      assert ds[..|ds| - 1] == FormatDecimal(n / 10);
    }
  }

  function Pow10(k: nat): nat
  {
    if k == 0 then 1 else 10 * Pow10(k - 1)
  }

  /** Without a leading zero, `k` digits denote at least 10^(k-1): the bound behind every overflow. */
  lemma {:induction false} DecimalValueAtLeast(ds: string)
    requires AllDigits(ds) && |ds| > 0 && ds[0] != '0'
    ensures DecimalValue(ds) >= Pow10(|ds| - 1)
    decreases |ds|
  {
    if |ds| > 1 {
      DecimalValueAtLeast(ds[..|ds| - 1]);
    }
  }

  /** Text ParseInt can read: an optional sign followed by at least one digit. */
  predicate IsDecimal(s: string)
  {
    |Unsigned(s)| > 0 && AllDigits(Unsigned(s))
  }

  function SignedValue(s: string): int
    requires IsDecimal(s)
  {
    if s[0] == '-' then -(DecimalValue(Unsigned(s)) as int) else DecimalValue(Unsigned(s))
  }

  /** The scanner's accumulation with no bound: `n` followed by the digits of `s`. */
  function Accumulate(n: nat, s: string): nat
    requires AllDigits(s)
    decreases |s|
  {
    if s == [] then n else Accumulate(n * 10 + DigitValue(s[0]), s[1..])
  }

  lemma {:induction false} AccumulateGrows(n: nat, s: string)
    requires AllDigits(s)
    ensures Accumulate(n, s) >= n
    ensures s != [] ==> Accumulate(n, s) >= n * 10 + DigitValue(s[0])
    decreases |s|
  {
    if s != [] {
      AccumulateGrows(n * 10 + DigitValue(s[0]), s[1..]);
    }
  }

  lemma {:induction false} AccumulateSnoc(n: nat, s: string, c: char)
    requires AllDigits(s) && IsDigit(c)
    ensures AllDigits(s + [c])
    ensures Accumulate(n, s + [c]) == Accumulate(n, s) * 10 + DigitValue(c)
    decreases |s|
  {
    if s != [] {
      assert (s + [c])[1..] == s[1..] + [c];
      AccumulateSnoc(n * 10 + DigitValue(s[0]), s[1..], c);
    }
  }

  lemma {:induction false} DecimalValueIsAccumulate(ds: string)
    requires AllDigits(ds)
    ensures DecimalValue(ds) == Accumulate(0, ds)
    decreases |ds|
  {
    if ds != [] {
      var init := ds[..|ds| - 1];
      DecimalValueIsAccumulate(init);
      AccumulateSnoc(0, init, ds[|ds| - 1]);
      assert init + [ds[|ds| - 1]] == ds;
    }
  }

  /** On digits the scanner yields the accumulated value, or a range error once it passes 64 bits. */
  lemma {:induction false} ScanDigitsValue(s: string, n: nat)
    requires AllDigits(s) && n <= MaxUint64
    ensures ScanDigits(s, n) == if Accumulate(n, s) <= MaxUint64 then Ok(Accumulate(n, s)) else Err(ErrRange)
    decreases |s|
  {
    if s != [] {
      AccumulateGrows(n, s);
      var n1 := n * 10 + DigitValue(s[0]);
      if n < Cutoff && n1 <= MaxUint64 {
        ScanDigitsValue(s[1..], n1);
      }
    }
  }

  /** A non-digit anywhere makes the scan fail. */
  lemma {:induction false} ScanDigitsRejects(s: string, n: nat)
    requires !AllDigits(s) && n <= MaxUint64
    ensures ScanDigits(s, n).Err?
    decreases |s|
  {
    if IsDigit(s[0]) && n < Cutoff && n * 10 + DigitValue(s[0]) <= MaxUint64 {
      assert !AllDigits(s[1..]) by {
        var i :| 0 <= i < |s| && !IsDigit(s[i]);
        assert i > 0 && !IsDigit(s[1..][i - 1]);
      }
      ScanDigitsRejects(s[1..], n * 10 + DigitValue(s[0]));
    }
  }

  /**
   * ParseInt accepts exactly the decimal texts whose value fits 64 bits, and
   * returns that value; a decimal text out of range is a range error.
   */
  lemma ParseIntMeaning(s: string)
    ensures ParseInt(s).Ok? <==> IsDecimal(s) && Fits(SignedValue(s), W64)
    ensures ParseInt(s).Ok? ==> ParseInt(s).value == SignedValue(s)
    ensures IsDecimal(s) && !Fits(SignedValue(s), W64) ==> ParseInt(s) == Err(ErrRange)
  {
    var u := Unsigned(s);
    if s != [] && u != [] {
      if AllDigits(u) {
        ScanDigitsValue(u, 0);
        DecimalValueIsAccumulate(u);
      } else {
        ScanDigitsRejects(u, 0);
      }
    }
  }

  /** Atoi accepts exactly what ParseInt accepts, with the same reading. */
  lemma AtoiMeaning(s: string)
    ensures Atoi(s).Ok? <==> IsDecimal(s) && Fits(SignedValue(s), W64)
    ensures Atoi(s).Ok? ==> Atoi(s).value == SignedValue(s)
  {
    AtoiFastPath(s);
    ParseIntMeaning(s);
  }

  /**
   * Atoi's fast path answers as its slow path would: no input of at most 18
   * bytes overflows, so ParseInt gives the same value, and a syntax error
   * exactly where the fast path gives one.
   */
  lemma AtoiFastPath(s: string)
    ensures Atoi(s) == match ParseInt(s)
                       case Ok(n) => Ok(n)
                       case Err(kind) => Err(NumError("Atoi", s, kind))
  {
    if 0 < |s| < 19 {
      var u := Unsigned(s);
      Pow10Values();
      Pow10Monotone(18, |u|);
      if u != [] {
        if AllDigits(u) {
          FastDigitsValue(u, 0);
          DecimalValueIsAccumulate(u);
          DecimalValueBelow(u);
          assert Fits(SignedValue(s), W64);
          ParseIntMeaning(s);
          assert Atoi(s) == Ok(SignedValue(s));
        } else {
          FastDigitsRejects(u, 0);
          ScanDigitsRejects(u, 0);
          ScanDigitsNoRange(u, 0);
          assert ScanDigits(u, 0).error != ErrRange;
        }
      } else {
        assert ParseUint(u) == Err(ErrSyntax);
      }
    }
  }

  /** On digits the fast path yields the unbounded accumulation. */
  lemma {:induction false} FastDigitsValue(ds: string, n: nat)
    requires AllDigits(ds)
    ensures FastDigits(ds, n) == Some(Accumulate(n, ds))
    decreases |ds|
  {
    if ds != [] {
      FastDigitsValue(ds[1..], n * 10 + DigitValue(ds[0]));
    }
  }

  /** A non-digit anywhere stops the fast path. */
  lemma {:induction false} FastDigitsRejects(ds: string, n: nat)
    requires !AllDigits(ds)
    ensures FastDigits(ds, n) == None
    decreases |ds|
  {
    if IsDigit(ds[0]) {
      assert !AllDigits(ds[1..]) by {
        var i :| 0 <= i < |ds| && !IsDigit(ds[i]);
        assert i > 0 && !IsDigit(ds[1..][i - 1]);
      }
      FastDigitsRejects(ds[1..], n * 10 + DigitValue(ds[0]));
    }
  }

  /** `k` digits denote less than 10^k. */
  lemma {:induction false} DecimalValueBelow(ds: string)
    requires AllDigits(ds)
    ensures DecimalValue(ds) < Pow10(|ds|)
    decreases |ds|
  {
    if ds != [] {
      DecimalValueBelow(ds[..|ds| - 1]);
    }
  }

  /**
   * While the accumulator and the digits left cannot reach 10^19, no step of
   * the scanner overflows, so the only error it can report is a syntax error.
   */
  lemma {:induction false} ScanDigitsNoRange(s: string, n: nat)
    requires n <= MaxUint64 && (n + 1) * Pow10(|s|) <= Pow10(19)
    ensures ScanDigits(s, n) != Err(ErrRange)
    decreases |s|
  {
    Pow10Values();
    if s != [] && IsDigit(s[0]) {
      var p := Pow10(|s| - 1);
      assert Pow10(|s|) == 10 * p;
      Pow10Positive(|s| - 1);
      var n1 := n * 10 + DigitValue(s[0]);
      MulMonotone(1, p, (n + 1) * 10);
      assert (n + 1) * 10 <= Pow10(19);
      MulMonotone(n1 + 1, (n + 1) * 10, p);
      ScanDigitsNoRange(s[1..], n1);
    }
  }

  lemma MulMonotone(a: nat, b: nat, c: nat)
    requires a <= b
    ensures a * c <= b * c
  {
  }

  lemma Pow10Values()
    ensures Pow10(18) == 1_000_000_000_000_000_000 && Pow10(19) == 10_000_000_000_000_000_000
  {
    assert Pow10(5) == 100000;
    assert Pow10(10) == 100000 * 100000;
    assert Pow10(15) == 100000 * Pow10(10);
    assert Pow10(18) == 1000 * Pow10(15);
  }

  lemma {:induction false} Pow10Positive(k: nat)
    ensures Pow10(k) >= 1
  {
    if k > 0 {
      Pow10Positive(k - 1);
    }
  }

  /** ParseInt reads back every int64 that FormatInt writes. */
  lemma ParseIntFormatInt(n: int)
    requires Fits(n, W64)
    ensures ParseInt(FormatInt(n)) == Ok(n)
  {
    var s := FormatInt(n);
    var m: nat := if n < 0 then -n else n;
    DecimalValueFormat(m);
    assert Unsigned(s) == FormatDecimal(m);
    ParseIntMeaning(s);
  }

  /** Twenty or more significant digits never fit int64, so ParseInt rejects them. */
  lemma TwentyDigitsOverflow(s: string)
    requires IsDecimal(s) && |Unsigned(s)| >= 20 && Unsigned(s)[0] != '0'
    ensures !Fits(SignedValue(s), W64)
    ensures ParseInt(s) == Err(ErrRange)
  {
    var u := Unsigned(s);
    DecimalValueAtLeast(u);
    Pow10Monotone(|u| - 1, 19);
    Pow10Values();
    ParseIntMeaning(s);
  }

  lemma {:induction false} Pow10Monotone(a: nat, b: nat)
    requires a >= b
    ensures Pow10(a) >= Pow10(b)
    decreases a
  {
    if a > b {
      Pow10Monotone(a - 1, b);
    }
  }
}
