/** The pieces of Rust's string library that the circuit parser uses: `char::is_whitespace`,
    `str::trim`, `str::split_whitespace`, `str::parse` for `usize` and `i64` (with the
    `ParseIntError` messages) and the decimal formatting done by `format!`. */
module Text {
  import opened Wrappers
  import opened Ints

  /** `char::is_whitespace`: the characters with the Unicode White_Space property. */
  predicate IsWhitespace(c: char) {
    var n := c as int;
    (9 <= n <= 13) || n == 0x20 || n == 0x85 || n == 0xA0 || n == 0x1680 ||
    (0x2000 <= n <= 0x200A) || n == 0x2028 || n == 0x2029 || n == 0x202F ||
    n == 0x205F || n == 0x3000
  }

  /** A token of `split_whitespace`: non-empty and free of whitespace. */
  predicate IsToken(t: string) {
    |t| > 0 && forall i :: 0 <= i < |t| ==> !IsWhitespace(t[i])
  }

  function TrimStart(s: string): (r: string)
    ensures |r| <= |s| && r == s[|s| - |r|..]
    ensures r == [] || !IsWhitespace(r[0])
    ensures forall i :: 0 <= i < |s| - |r| ==> IsWhitespace(s[i])
  {
    if s != [] && IsWhitespace(s[0]) then TrimStart(s[1..]) else s
  }

  function TrimEnd(s: string): (r: string)
    ensures |r| <= |s| && r == s[..|r|]
    ensures r == [] || !IsWhitespace(r[|r| - 1])
    ensures forall i :: |r| <= i < |s| ==> IsWhitespace(s[i])
  {
    if s != [] && IsWhitespace(s[|s| - 1]) then TrimEnd(s[..|s| - 1]) else s
  }

  /** `str::trim`: `s` without its leading and trailing whitespace. */
  function Trim(s: string): (r: string)
    ensures r == [] || (!IsWhitespace(r[0]) && !IsWhitespace(r[|r| - 1]))
  {
    TrimEnd(TrimStart(s))
  }

  /** Length of the run of non-whitespace characters that starts `s`. */
  function TokenLength(s: string): (k: nat)
    ensures k <= |s|
    ensures forall i :: 0 <= i < k ==> !IsWhitespace(s[i])
    ensures k == |s| || IsWhitespace(s[k])
  {
    if s == [] || IsWhitespace(s[0]) then 0 else 1 + TokenLength(s[1..])
  }

  /** `str::split_whitespace`: the maximal runs of non-whitespace characters, in order. */
  function SplitWhitespace(s: string): (r: seq<string>)
    ensures forall i :: 0 <= i < |r| ==> IsToken(r[i])
    decreases |s|
  {
    if s == [] then []
    else if IsWhitespace(s[0]) then SplitWhitespace(s[1..])
    else
      var k := TokenLength(s);
      [s[..k]] + SplitWhitespace(s[k..])
  }

  /** The kinds of Rust's `ParseIntError`. */
  datatype IntErrorKind = Empty | InvalidDigit | PosOverflow | NegOverflow {
    /** The error's `Display` text. */
    function Message(): string {
      match this
      case Empty => "cannot parse integer from empty string"
      case InvalidDigit => "invalid digit found in string"
      case PosOverflow => "number too large to fit in target type"
      case NegOverflow => "number too small to fit in target type"
    }
  }

  predicate IsDigit(c: char) {
    '0' <= c <= '9'
  }

  function DigitValue(c: char): (d: nat)
    requires IsDigit(c)
    ensures d < 10
  {
    c as int - '0' as int
  }

  function DigitChar(d: nat): (c: char)
    requires d < 10
    ensures IsDigit(c) && DigitValue(c) == d
  {
    ('0' as int + d) as char
  }

  /** The digit loop of `from_str_radix` in base 10: left to right, each character is first
      checked to be a digit, then the running value is checked against the type's range. */
  function Accumulate(digits: string, acc: int, negative: bool, lo: int, hi: int): (r: Result<int, IntErrorKind>)
    requires lo <= acc <= hi
    ensures r.Ok? ==> lo <= r.value <= hi
    ensures r.Err? ==> r.error != Empty
    decreases |digits|
  {
    if digits == [] then Ok(acc)
    else if !IsDigit(digits[0]) then Err(InvalidDigit)
    else
      var d := DigitValue(digits[0]);
      var next := if negative then acc * 10 - d else acc * 10 + d;
      if next < lo then Err(NegOverflow)
      else if next > hi then Err(PosOverflow)
      else Accumulate(digits[1..], next, negative, lo, hi)
  }

  /** `str::parse` for an integer type with range `lo..=hi`: an optional sign (`-` only when
      the type is signed), then decimal digits. */
  function ParseInteger(s: string, signed: bool, lo: int, hi: int): (r: Result<int, IntErrorKind>)
    requires lo <= 0 <= hi
    ensures r.Ok? ==> lo <= r.value <= hi
    ensures r.Err? ==> (r.error == Empty <==> s == [])
  {
    if s == [] then Err(Empty)
    else if (s[0] == '+' || s[0] == '-') && |s| == 1 then Err(InvalidDigit)
    else if s[0] == '+' then Accumulate(s[1..], 0, false, lo, hi)
    else if s[0] == '-' && signed then Accumulate(s[1..], 0, true, lo, hi)
    else Accumulate(s, 0, false, lo, hi)
  }

  /** `s.parse::<usize>()`. */
  function ParseUsize(s: string): (r: Result<Usize, IntErrorKind>)
    ensures r.Err? ==> (r.error == Empty <==> s == [])
  {
    match ParseInteger(s, false, 0, USIZE_LIMIT - 1)
    case Ok(v) => Ok(v)
    case Err(e) => Err(e)
  }

  /** `s.parse::<i64>()`. */
  function ParseI64(s: string): (r: Result<I64, IntErrorKind>)
    ensures r.Err? ==> (r.error == Empty <==> s == [])
  {
    match ParseInteger(s, true, I64_MIN, I64_MAX)
    case Ok(v) => Ok(v)
    case Err(e) => Err(e)
  }

  /** `format!("{}", n)` for an unsigned integer: its decimal digits, most significant first. */
  function Decimal(n: nat): (s: string)
    ensures |s| >= 1 && forall i :: 0 <= i < |s| ==> IsDigit(s[i])
  {
    if n < 10 then [DigitChar(n)] else Decimal(n / 10) + [DigitChar(n % 10)]
  }

  lemma {:induction false} AccumulateAppend(s: string, t: string, acc: int, negative: bool, lo: int, hi: int)
    requires lo <= acc <= hi
    requires Accumulate(s, acc, negative, lo, hi).Ok?
    ensures Accumulate(s + t, acc, negative, lo, hi) == Accumulate(t, Accumulate(s, acc, negative, lo, hi).value, negative, lo, hi)
  {
    if s == [] {
      assert s + t == t;
    } else {
      assert (s + t)[1..] == s[1..] + t;
      var d := DigitValue(s[0]);
      var next := if negative then acc * 10 - d else acc * 10 + d;
      AccumulateAppend(s[1..], t, next, negative, lo, hi);
    }
  }

  /** Reading back what `Decimal` writes: the digit loop yields `n` again, for any `n` in range. */
  lemma {:induction false} AccumulateDecimal(n: nat, lo: int, hi: int)
    requires lo <= 0 && n <= hi
    ensures Accumulate(Decimal(n), 0, false, lo, hi) == Ok(n)
  {
    if n >= 10 {
      AccumulateDecimal(n / 10, lo, hi);
      AccumulateAppend(Decimal(n / 10), [DigitChar(n % 10)], 0, false, lo, hi);
    }
  }

  /** Formatting a `usize` and parsing it back is the identity. */
  lemma ParseUsizeDecimal(n: Usize)
    ensures ParseUsize(Decimal(n)) == Ok(n)
  {
    AccumulateDecimal(n, 0, USIZE_LIMIT - 1);
  }

  /** Formatting a non-negative `i64` and parsing it back is the identity. */
  lemma ParseI64Decimal(n: nat)
    requires n <= I64_MAX
    ensures ParseI64(Decimal(n)) == Ok(n)
  {
    AccumulateDecimal(n, I64_MIN, I64_MAX);
  }
}
