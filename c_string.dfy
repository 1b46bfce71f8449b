/** The C library conversions the C modules rely on: `isspace`, `strtol`
    and `atoi` (without the LONG range clamp), `strcasecmp`, the truncating
    `strncpy` into a zeroed buffer and the unsigned integer casts. */
module CString {
  import opened Wrappers
  import opened Text

  /** `isspace` in the "C" locale: space, \t, \n, \v, \f and \r. */
  predicate CIsSpace(c: char) { c == ' ' || '\t' <= c <= '\r' }

  /** The text after the leading white space. */
  function SkipSpace(s: string): (r: string)
    ensures IsSuffix(r, s) && (|r| == 0 || !CIsSpace(r[0]))
  {
    if |s| > 0 && CIsSpace(s[0]) then
      var r := SkipSpace(s[1..]);
      assert s[|s| - |r|..] == s[1..][|s| - 1 - |r|..];
      r
    else s
  }

  /** The value of `c` as a digit in `base` (2..36), letters in either case. */
  function DigitIn(c: char, base: nat): (d: Option<nat>)
    ensures d.Some? ==> d.value < base
  {
    var v: int :=
      if '0' <= c <= '9' then c as int - '0' as int
      else if 'a' <= c <= 'z' then c as int - 'a' as int + 10
      else if 'A' <= c <= 'Z' then c as int - 'A' as int + 10
      else base;
    if v < base then Some(v) else None
  }

  predicate AllIn(s: string, base: nat) {
    forall i :: 0 <= i < |s| ==> DigitIn(s[i], base).Some?
  }

  /** The longest prefix made of digits of `base`. */
  function DigitRun(s: string, base: nat): (r: string)
    ensures IsPrefix(r, s) && AllIn(r, base)
    ensures |r| < |s| ==> DigitIn(s[|r|], base).None?
  {
    if |s| > 0 && DigitIn(s[0], base).Some? then
      var rest := DigitRun(s[1..], base);
      assert s[..|rest| + 1] == [s[0]] + rest;
      [s[0]] + rest
    else ""
  }

  /** The number the digits spell, most significant first. */
  function RunValue(r: string, base: nat): nat
    requires AllIn(r, base)
  {
    if |r| == 0 then 0 else base * RunValue(r[..|r| - 1], base) + DigitIn(r[|r| - 1], base).value
  }

  /** `s` starts with "0x" or "0X" and a hex digit. */
  predicate HexPrefixed(u: string) {
    |u| >= 3 && u[0] == '0' && (u[1] == 'x' || u[1] == 'X') && DigitIn(u[2], 16).Some?
  }

  /** `strtol(s, NULL, base)`: white space, a sign, then for base 0 a "0x"
      prefix selecting hexadecimal or a leading '0' selecting octal, then
      the longest run of digits (none gives 0). */
  function Strtol(s: string, base: nat): int
    requires base == 0 || 2 <= base <= 36
  {
    var t := SkipSpace(s);
    var neg := |t| > 0 && t[0] == '-';
    var u := if |t| > 0 && (t[0] == '-' || t[0] == '+') then t[1..] else t;
    var b: nat := if base != 0 then base else if HexPrefixed(u) then 16 else if |u| > 0 && u[0] == '0' then 8 else 10;
    var body := if (base == 0 || base == 16) && HexPrefixed(u) then u[2..] else u;
    var v: int := RunValue(DigitRun(body, b), b);
    if neg then -v else v
  }

  /** `atoi(s)`, the same as `strtol(s, NULL, 10)`. */
  function Atoi(s: string): int {
    Strtol(s, 10)
  }

  lemma DecimalDigits(s: string)
    requires AllDigits(s)
    ensures AllIn(s, 10) && DigitRun(s, 10) == s && RunValue(s, 10) == DigitsValue(s)
  {
    assert AllIn(s, 10) by {
      forall i | 0 <= i < |s| ensures DigitIn(s[i], 10).Some? {
        assert IsDigit(s[i]);
      }
    }
    DigitRunAll(s, 10);
    RunValueDecimal(s);
  }

  lemma {:induction false} DigitRunAll(s: string, base: nat)
    requires AllIn(s, base)
    ensures DigitRun(s, base) == s
  {
    if |s| > 0 {
      DigitRunAll(s[1..], base);
    }
  }

  lemma {:induction false} RunValueDecimal(s: string)
    requires AllDigits(s) && AllIn(s, 10)
    ensures RunValue(s, 10) == DigitsValue(s)
  {
    if |s| > 0 {
      RunValueDecimal(s[..|s| - 1]);
    }
  }

  /** `atoi` of a non-empty run of decimal digits is their value. */
  lemma AtoiOfDigits(s: string)
    requires |s| > 0 && AllDigits(s)
    ensures Atoi(s) == DigitsValue(s)
  {
    assert IsDigit(s[0]);
    NoLeadingSpace(s);
    DecimalDigits(s);
  }

  lemma NoLeadingSpace(s: string)
    requires |s| > 0 && !CIsSpace(s[0])
    ensures SkipSpace(s) == s
  {
  }

  /** The same after a minus sign. */
  lemma AtoiOfNegative(s: string)
    requires |s| > 1 && s[0] == '-' && AllDigits(s[1..])
    ensures Atoi(s) == -(DigitsValue(s[1..]) as int)
  {
    NoLeadingSpace(s);
    DecimalDigits(s[1..]);
  }

  /** `atoi` reads back every integer `%d` prints. */
  lemma AtoiOfIntToString(i: int)
    ensures Atoi(IntToString(i)) == i
  {
    var n: nat := if i < 0 then -i else i;
    var digits := NatToString(n);
    DigitsValueOfNatToString(n);
    if i < 0 {
      assert ("-" + digits)[1..] == digits;
      AtoiOfNegative("-" + digits);
    } else {
      AtoiOfDigits(digits);
    }
  }

  /** `atoi` stops at the first character after the digits that is not a
      digit. */
  lemma AtoiStopsAtNonDigit(digits: string, rest: string)
    requires |digits| > 0 && AllDigits(digits) && (|rest| == 0 || !IsDigit(rest[0]))
    ensures Atoi(digits + rest) == Atoi(digits)
  {
    var s := digits + rest;
    DecimalDigits(digits);
    assert !CIsSpace(s[0]) && !CIsSpace(digits[0]);
    DigitRunPrefix(digits, rest);
  }

  /** A minus sign, digits, then a non-digit: `atoi` reads the negated
      digits. */
  lemma AtoiOfNegativeThen(digits: string, rest: string)
    requires |digits| > 0 && AllDigits(digits) && (|rest| == 0 || !IsDigit(rest[0]))
    ensures Atoi("-" + digits + rest) == -(DigitsValue(digits) as int)
  {
    var s := "-" + digits + rest;
    assert s[1..] == digits + rest;
    AtoiOfMinus(s);
    DecimalDigits(digits);
    DigitRunPrefix(digits, rest);
  }

  /** After a leading minus sign `atoi` negates the digit run. */
  lemma AtoiOfMinus(s: string)
    requires |s| > 0 && s[0] == '-'
    ensures Atoi(s) == -(RunValue(DigitRun(s[1..], 10), 10) as int)
  {
    NoLeadingSpace(s);
  }

  /** `atoi` reads back a `%d` rendering followed by anything that does
      not start with a digit. */
  lemma AtoiOfIntToStringThen(i: int, rest: string)
    requires |rest| == 0 || !IsDigit(rest[0])
    ensures Atoi(IntToString(i) + rest) == i
  {
    var n: nat := if i < 0 then -i else i;
    var digits := NatToString(n);
    DigitsValueOfNatToString(n);
    if i < 0 {
      AtoiOfNegativeThen(digits, rest);
    } else {
      AtoiStopsAtNonDigit(digits, rest);
      AtoiOfDigits(digits);
    }
  }

  lemma {:induction false} DigitRunPrefix(digits: string, rest: string)
    requires AllIn(digits, 10) && (|rest| == 0 || !IsDigit(rest[0]))
    ensures DigitRun(digits + rest, 10) == digits
  {
    if |digits| > 0 {
      assert (digits + rest)[1..] == digits[1..] + rest;
      DigitRunPrefix(digits[1..], rest);
    } else {
      assert digits + rest == rest;
    }
  }

  /** `strtoul(s, NULL, 10)` on a 64-bit `unsigned long`: a magnitude out
      of range gives ULONG_MAX, a minus sign negates modulo 2^64. */
  function Strtoul(s: string): (r: nat)
    ensures r < 0x1_0000_0000_0000_0000
  {
    var v := Strtol(s, 10);
    if v > 0xFFFF_FFFF_FFFF_FFFF || v < -(0xFFFF_FFFF_FFFF_FFFF) then 0xFFFF_FFFF_FFFF_FFFF else v % 0x1_0000_0000_0000_0000
  }

  lemma StrtoulInRange(s: string)
    requires 0 <= Strtol(s, 10) < 0x1_0000_0000_0000_0000
    ensures Strtoul(s) == Strtol(s, 10)
  {
  }

  /** `tolower` on ASCII. */
  function Lower(c: char): char {
    if 'A' <= c <= 'Z' then (c as int + 32) as char else c
  }

  /** `strcasecmp(a, b) == 0`. */
  predicate EqualsIgnoreCase(a: string, b: string) {
    |a| == |b| && forall i :: 0 <= i < |a| ==> Lower(a[i]) == Lower(b[i])
  }

  /** Texts whose first letters differ ignoring case are different to
      `strcasecmp`. */
  lemma FirstLetterDiffers(a: string, b: string)
    requires |a| > 0 && |b| > 0 && Lower(a[0]) != Lower(b[0])
    ensures !EqualsIgnoreCase(a, b)
  {
  }

  /** `strcasecmp` equality is transitive: texts equal ignoring case
      compare alike with any third text. */
  lemma IgnoreCaseSwap(s: string, t: string, k: string)
    requires EqualsIgnoreCase(s, t)
    ensures EqualsIgnoreCase(s, k) <==> EqualsIgnoreCase(t, k)
  {
  }

  /** `strncpy(dst, v, cap)` into a buffer of `cap + 1` zeroed bytes: the
      first `cap` characters of `v`. */
  function Bounded(v: string, cap: nat): (r: string)
    ensures |r| <= cap && IsPrefix(r, v)
    ensures |v| <= cap ==> r == v
  {
    if |v| <= cap then v else v[..cap]
  }

  /** The C conversions to `uint8_t`, `uint16_t` and `uint32_t`. */
  function CastU8(x: int): (r: nat)
    ensures r < 0x100 && (0 <= x < 0x100 ==> r == x)
  {
    x % 0x100
  }

  function CastU16(x: int): (r: nat)
    ensures r < 0x1_0000 && (0 <= x < 0x1_0000 ==> r == x)
  {
    x % 0x1_0000
  }

  function CastU32(x: int): (r: nat)
    ensures r < 0x1_0000_0000 && (0 <= x < 0x1_0000_0000 ==> r == x)
  {
    x % 0x1_0000_0000
  }

  /** The conversion to `int32_t`: the signed value of the low 32 bits,
      what an `int` receives from a wider or unsigned expression. */
  function CastI32(x: int): (r: int)
    ensures -0x8000_0000 <= r < 0x8000_0000
    ensures -0x8000_0000 <= x < 0x8000_0000 ==> r == x
  {
    (x + 0x8000_0000) % 0x1_0000_0000 - 0x8000_0000
  }

  /** The pieces of `parts` that are not empty, in order. */
  function NonEmpty(parts: seq<string>): (r: seq<string>)
    ensures |r| <= |parts|
    ensures forall i :: 0 <= i < |r| ==> |r[i]| > 0 && r[i] in parts
  {
    if |parts| == 0 then []
    else (if |parts[0]| > 0 then [parts[0]] else []) + NonEmpty(parts[1..])
  }

  lemma {:induction false} NonEmptyKeeps(parts: seq<string>)
    requires forall i :: 0 <= i < |parts| ==> |parts[i]| > 0
    ensures NonEmpty(parts) == parts
    decreases |parts|
  {
    if |parts| > 0 {
      NonEmptyKeeps(parts[1..]);
    }
  }

  /** The tokens successive `strtok` calls with delimiter `d` return: the
      non-empty pieces between delimiters. */
  function Strtok(s: string, d: char): (r: seq<string>)
    ensures forall i :: 0 <= i < |r| ==> |r[i]| > 0 && d !in r[i]
  {
    NonEmpty(Split(s, d))
  }

  /** `strtok` gives back the non-empty, delimiter-free pieces joined
      with the delimiter. */
  lemma StrtokJoin(parts: seq<string>, d: char)
    requires |parts| > 0
    requires forall i :: 0 <= i < |parts| ==> |parts[i]| > 0 && d !in parts[i]
    ensures Strtok(JoinWith(parts, d), d) == parts
  {
    SplitJoin(parts, d);
    NonEmptyKeeps(parts);
  }
}
