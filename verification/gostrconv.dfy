/** `strconv.ParseInt(s, 10, bitSize)` and its inverse `strconv.Itoa`, on byte strings. */
module GoStrconv {
  import opened Results

  /** The two integer widths the scrapers parse into: `ParseInt(_, 10, 32)` and the
      64-bit `int` that `Sscanf` fills. */
  datatype BitSize = Bits32 | Bits64

  const MinInt32: int := -0x8000_0000
  const MaxInt32: int := 0x7FFF_FFFF
  const MinInt64: int := -0x8000_0000_0000_0000
  const MaxInt64: int := 0x7FFF_FFFF_FFFF_FFFF

  /** `v` fits a signed two's-complement integer of the given width. */
  predicate InRange(v: int, bitSize: BitSize)
  {
    match bitSize
    case Bits32 => MinInt32 <= v <= MaxInt32
    case Bits64 => MinInt64 <= v <= MaxInt64
  }

  /** The byte is an ASCII decimal digit. */
  predicate IsDigit(c: char)
  {
    '0' <= c <= '9'
  }

  /** Every byte of `s` is a decimal digit (`s` may be empty). */
  predicate AllDigits(s: string)
  {
    forall i :: 0 <= i < |s| ==> IsDigit(s[i])
  }

  /** The value of one digit. */
  function DigitValue(c: char): nat
    requires IsDigit(c)
  {
    c as int - '0' as int
  }

  /** The digit byte of a value below ten. */
  function DigitChar(d: nat): (c: char)
    requires d < 10
    ensures IsDigit(c) && DigitValue(c) == d
  {
    ('0' as int + d) as char
  }

  /** The number a string of decimal digits denotes (leading zeros allowed). */
  function DecimalValue(s: string): nat
    requires AllDigits(s)
  {
    if s == [] then 0 else DecimalValue(s[..|s| - 1]) * 10 + DigitValue(s[|s| - 1])
  }

  /** `strconv.ParseInt(s, 10, bitSize)`: an optional `+` or `-`, then one or more
      decimal digits and nothing else, whose value fits `bitSize` bits; any other text,
      including the empty string, is an error. */
  function ParseInt(s: string, bitSize: BitSize): (r: Result<int>)
    ensures r.Ok? ==> InRange(r.value, bitSize)
  {
    if s == [] then Err
    else
      var digits := if s[0] == '+' || s[0] == '-' then s[1..] else s;
      if digits == [] || !AllDigits(digits) then Err
      else
        var v: int := if s[0] == '-' then -(DecimalValue(digits) as int) else DecimalValue(digits);
        if InRange(v, bitSize) then Ok(v) else Err
  }

  /** Only an optional sign followed by digits is ever accepted: any other byte
      anywhere makes the text an error. */
  lemma ParseIntAcceptsDigits(s: string, bitSize: BitSize)
    ensures ParseInt(s, bitSize).Ok? ==>
              s != [] && forall i :: 0 <= i < |s| ==> IsDigit(s[i]) || (i == 0 && (s[i] == '+' || s[i] == '-'))
  {
  }

  /** The decimal digits of `n`, without leading zeros. */
  function FormatDecimal(n: nat): (s: string)
    ensures s != [] && AllDigits(s)
    decreases n
  {
    if n < 10 then [DigitChar(n)] else FormatDecimal(n / 10) + [DigitChar(n % 10)]
  }

  /** `strconv.Itoa(n)`: a `-` for negative numbers, then the decimal digits. */
  function FormatInt(n: int): (s: string)
    ensures s != []
  {
    if n < 0 then "-" + FormatDecimal(-n) else FormatDecimal(n)
  }

  /** The digits of `n` denote `n`. */
  lemma {:induction false} DecimalValueOfFormat(n: nat)
    ensures DecimalValue(FormatDecimal(n)) == n
    decreases n
  {
    if n >= 10 {
      var s := FormatDecimal(n);
      DecimalValueOfFormat(n / 10);
      assert s[..|s| - 1] == FormatDecimal(n / 10);
    }
  }

  /** `Itoa` writes no space. */
  lemma FormatIntNoSpace(n: int)
    ensures ' ' !in FormatInt(n)
  {
    var f := FormatInt(n);
    if n < 0 {
      assert f[1..] == FormatDecimal(-n);
      assert forall i :: 1 <= i < |f| ==> f[i] == f[1..][i - 1];
    }
  }

  /** `Itoa` writes digits only, after a `-` for a negative number. */
  lemma FormatIntSignAndDigits(n: int)
    ensures forall i :: 0 <= i < |FormatInt(n)| ==> IsDigit(FormatInt(n)[i]) || (i == 0 && FormatInt(n)[i] == '-')
  {
    var f := FormatInt(n);
    if n < 0 {
      assert f[1..] == FormatDecimal(-n);
      assert forall i :: 1 <= i < |f| ==> f[i] == f[1..][i - 1];
    }
  }

  /** `ParseInt` inverts `Itoa` on every integer that fits the bit size. */
  lemma ParseFormat(n: int, bitSize: BitSize)
    requires InRange(n, bitSize)
    ensures ParseInt(FormatInt(n), bitSize) == Ok(n)
  {
    var s := FormatInt(n);
    if n < 0 {
      DecimalValueOfFormat(-n);
      assert s[1..] == FormatDecimal(-n);
    } else {
      DecimalValueOfFormat(n);
    }
  }

  /** Text with a space between digits is never a number, so `"12 345"` is an error. */
  lemma ParseIntRejectsInnerSpace(a: string, b: string, bitSize: BitSize)
    ensures ParseInt(a + " " + b, bitSize) == Err
  {
    var s := a + " " + b;
    assert s[|a|] == ' ';
    ParseIntAcceptsDigits(s, bitSize);
  }
}
