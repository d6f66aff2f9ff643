/** SkSL string utilities: the integer-literal validator stoi over strtoull with base 0, the
    ".0" suffix to_string(double) adds to a formatted number, and SkSL::String's
    concatenation operators. */
module SkSLString {
  import opened Wrappers

  // ---------------------------------------------------------------------------------------
  // strtoull with base 0 (section 7.22.1.4 of ISO C11)

  const ULLongMax: nat := 0xFFFF_FFFF_FFFF_FFFF

  /** isspace in the "C" locale. */
  predicate IsSpace(c: char) {
    c == ' ' || c == '\t' || c == '\n' || c == '\U{B}' || c == '\U{C}' || c == '\r'
  }

  /** The value of c as a digit in bases up to 36; 36 for a character that is no digit. */
  function DigitValue(c: char): nat {
    if '0' <= c <= '9' then c as int - '0' as int
    else if 'a' <= c <= 'z' then c as int - 'a' as int + 10
    else if 'A' <= c <= 'Z' then c as int - 'A' as int + 10
    else 36
  }

  /** The index of the first character at or after i that is not white space. */
  function SkipSpace(s: string, i: nat): (r: nat)
    requires i <= |s|
    ensures i <= r <= |s| && (r < |s| ==> !IsSpace(s[r]))
    decreases |s| - i
  {
    if i < |s| && IsSpace(s[i]) then SkipSpace(s, i + 1) else i
  }

  /** The length of the longest run of base-`base` digits starting at k. */
  function DigitRun(s: string, k: nat, base: nat): (n: nat)
    requires k <= |s|
    ensures k + n <= |s| && forall i | k <= i < k + n :: DigitValue(s[i]) < base
    decreases |s| - k
  {
    if k < |s| && DigitValue(s[k]) < base then 1 + DigitRun(s, k + 1, base) else 0
  }

  /** The value of a digit string, most significant digit first. */
  function DigitsValue(ds: string, base: nat): nat {
    if ds == [] then 0 else DigitsValue(ds[..|ds| - 1], base) * base + DigitValue(ds[|ds| - 1])
  }

  /** What strtoull reports: the value, the index where parsing stopped (0 when nothing was
      converted) and whether errno was set to ERANGE. */
  datatype Parsed = Parsed(value: nat, end: nat, rangeError: bool)

  /** A hexadecimal prefix "0x" or "0X" followed by a hexadecimal digit starts at j. */
  predicate HexPrefixAt(s: string, j: nat) {
    j + 2 < |s| && s[j] == '0' && (s[j + 1] == 'x' || s[j + 1] == 'X') && DigitValue(s[j + 2]) < 16
  }

  /** strtoull(s, &end, 0): white space, an optional sign, then a hexadecimal ("0x"), octal
      (leading 0) or decimal digit run. A value past ULLONG_MAX gives ULLONG_MAX and
      ERANGE; a minus sign negates the value modulo 2^64. */
  function Strtoull(s: string): (r: Parsed)
    ensures r.value <= ULLongMax && r.end <= |s|
  {
    var i := SkipSpace(s, 0);
    var negative := i < |s| && s[i] == '-';
    var j := if i < |s| && (s[i] == '+' || s[i] == '-') then i + 1 else i;
    var base := if HexPrefixAt(s, j) then 16 else if j < |s| && s[j] == '0' then 8 else 10;
    var k := if base == 16 then j + 2 else j;
    var n := DigitRun(s, k, base);
    if n == 0 then Parsed(0, 0, false)
    else
      var v := DigitsValue(s[k..k + n], base);
      if v > ULLongMax then Parsed(ULLongMax, k + n, true)
      else Parsed(if negative && v > 0 then ULLongMax + 1 - v else v, k + n, false)
  }

  /** The conversion of an unsigned 64-bit value to SKSL_INT, a 64-bit two's complement
      integer. */
  function ToInt64(u: nat): (r: int)
    requires u <= ULLongMax
    ensures -0x8000_0000_0000_0000 <= r < 0x8000_0000_0000_0000
    ensures r % 0x1_0000_0000_0000_0000 == u
  {
    if u < 0x8000_0000_0000_0000 then u else u - 0x1_0000_0000_0000_0000
  }

  // ---------------------------------------------------------------------------------------
  // stoi

  /** Whether stoi accepted the text, and the value it stored through its out-parameter,
      if it stored one. */
  datatype StoiResult = StoiResult(ok: bool, written: Option<int>)

  /** The text without one trailing 'u' or 'U'. */
  function StripSuffix(s: string): (r: string)
    requires s != []
    ensures r == s || (r + [s[|s| - 1]] == s && (s[|s| - 1] == 'u' || s[|s| - 1] == 'U'))
  {
    if s[|s| - 1] == 'u' || s[|s| - 1] == 'U' then s[..|s| - 1] else s
  }

  /** stoi as written: the empty text is refused without storing a value; otherwise the
      value is stored, and the text is accepted when strtoull consumed all of it without a
      range error and the value fits in 32 bits. */
  function Stoi(s: string): (r: StoiResult)
    ensures s == [] <==> r.written.None?
    ensures r.ok ==> r.written.Some? && 0 <= r.written.value <= 0xFFFF_FFFF
    ensures s == [] ==> !r.ok
  {
    if s == [] then StoiResult(false, None)
    else
      var str := StripSuffix(s);
      var parsed := Strtoull(str);
      StoiResult(parsed.end == |str| && !parsed.rangeError && parsed.value <= 0xFFFF_FFFF,
                 Some(ToInt64(parsed.value)))
  }

  /** With nothing left after the suffix, strtoull converts nothing and stops at the end of
      the empty text, so a lone "u" is accepted as 0. */
  lemma StoiAcceptsLoneSuffix()
    ensures Stoi("u") == StoiResult(true, Some(0))
    ensures Stoi("U") == StoiResult(true, Some(0))
  {
    assert StripSuffix("u") == [];
    assert StripSuffix("U") == [];
  }

  /** stoi with the emptiness check repeated after the suffix is removed. */
  function StoiChecked(s: string): (r: StoiResult)
    ensures r.ok ==> s != [] && StripSuffix(s) != []
                     && 0 < Strtoull(StripSuffix(s)).end == |StripSuffix(s)|
    ensures s != [] && StripSuffix(s) != [] ==> r == Stoi(s)
  {
    if s == [] || StripSuffix(s) == [] then StoiResult(false, None) else Stoi(s)
  }

  // ---------------------------------------------------------------------------------------
  // What stoi accepts: the round trip through digit strings

  /** The digit for d, lower-case beyond 9. */
  function DigitChar(d: nat): (c: char)
    requires d < 16
    ensures DigitValue(c) == d && c != 'u' && c != 'U' && !IsSpace(c) && c != '+' && c != '-'
  {
    if d < 10 then (48 + d) as char else (87 + d) as char
  }

  /** n in base `base`, most significant digit first, without leading zeros. */
  function DigitsOf(n: nat, base: nat): (ds: string)
    requires 2 <= base <= 16
    ensures ds != [] && forall i | 0 <= i < |ds| :: DigitValue(ds[i]) < base
    ensures ds[|ds| - 1] != 'u' && ds[|ds| - 1] != 'U'
    decreases n
  {
    if n < base then [DigitChar(n)]
    else
      DivisionShrinks(n, base);
      DigitsOf(n / base, base) + [DigitChar(n % base)]
  }

  lemma DivisionShrinks(n: nat, base: nat)
    requires 2 <= base <= n
    ensures n / base < n
  {
    assert (n / base) * base <= n;
    assert (n / base) * 2 <= (n / base) * base;
  }

  /** The digit string of n has value n. */
  lemma {:induction false} DigitsOfValue(n: nat, base: nat)
    requires 2 <= base <= 16
    ensures DigitsValue(DigitsOf(n, base), base) == n
    decreases n
  {
    if n >= base {
      var ds := DigitsOf(n, base);
      DivisionShrinks(n, base);
      DigitsOfValue(n / base, base);
      assert ds[..|ds| - 1] == DigitsOf(n / base, base);
      assert DigitValue(ds[|ds| - 1]) == n % base;
      QuotientAndRemainder(n, base);
    }
  }

  lemma QuotientAndRemainder(n: nat, base: nat)
    requires 0 < base
    ensures n == (n / base) * base + n % base
  {
  }

  /** The digit string of n starts with a digit, which is zero only when n is 0. */
  lemma {:induction false} DigitsOfFirst(n: nat, base: nat)
    requires 2 <= base <= 16
    ensures var c := DigitsOf(n, base)[0];
            && (DigitValue(c) == 0 ==> n == 0) && DigitValue(c) < base
            && !IsSpace(c) && c != '+' && c != '-'
    decreases n
  {
    if n >= base {
      DivisionShrinks(n, base);
      DigitsOfFirst(n / base, base);
      assert DigitsOf(n, base)[0] == DigitsOf(n / base, base)[0];
    }
  }

  /** A text that is digits from k to its end is one digit run. */
  lemma {:induction false} RunToEnd(s: string, k: nat, base: nat)
    requires k <= |s| && forall i | k <= i < |s| :: DigitValue(s[i]) < base
    ensures DigitRun(s, k, base) == |s| - k
    decreases |s| - k
  {
    if k < |s| {
      RunToEnd(s, k + 1, base);
    }
  }

  /** strtoull on a text with no white space or sign before its digits, which run from k
      (after the "0x" of a hexadecimal text) to its end and have value n. */
  lemma StrtoullReads(s: string, base: nat, k: nat, n: nat)
    requires s != [] && !IsSpace(s[0]) && s[0] != '+' && s[0] != '-'
    requires base == if HexPrefixAt(s, 0) then 16 else if s[0] == '0' then 8 else 10
    requires k == (if base == 16 then 2 else 0) && k < |s|
    requires forall i | k <= i < |s| :: DigitValue(s[i]) < base
    requires DigitsValue(s[k..], base) == n
    ensures Strtoull(s) == if n > ULLongMax then Parsed(ULLongMax, |s|, true) else Parsed(n, |s|, false)
  {
    assert SkipSpace(s, 0) == 0;
    RunToEnd(s, k, base);
    assert s[k..k + (|s| - k)] == s[k..];
  }

  /** What stoi makes of a text without suffix that strtoull reads as the digit run of n
      from k to its end. */
  lemma StoiOfParse(s: string, k: nat, base: nat, n: nat)
    requires s != [] && StripSuffix(s) == s
    requires Strtoull(s) == if n > ULLongMax then Parsed(ULLongMax, |s|, true) else Parsed(n, |s|, false)
    ensures Stoi(s).ok <==> n <= 0xFFFF_FFFF
    ensures n <= ULLongMax ==> Stoi(s).written == Some(ToInt64(n))
  {
  }

  /** strtoull reads the decimal text of n as n, or overflows. */
  lemma StrtoullDecimal(n: nat)
    ensures var ds := DigitsOf(n, 10);
            Strtoull(ds) == if n > ULLongMax then Parsed(ULLongMax, |ds|, true) else Parsed(n, |ds|, false)
  {
    var ds := DigitsOf(n, 10);
    DigitsOfValue(n, 10);
    DigitsOfFirst(n, 10);
    assert ds[0..] == ds;
    if ds[0] == '0' {
      assert ds == [DigitChar(0)];
      StrtoullReads(ds, 8, 0, n);
    } else {
      StrtoullReads(ds, 10, 0, n);
    }
  }

  /** stoi accepts the decimal text of n, with or without a 'u' suffix, exactly when n fits
      in 32 bits, and stores n whenever strtoull can represent it. */
  lemma StoiDecimal(n: nat)
    ensures var ds := DigitsOf(n, 10);
            && Stoi(ds) == Stoi(ds + "u") == Stoi(ds + "U")
            && (Stoi(ds).ok <==> n <= 0xFFFF_FFFF)
            && (n <= ULLongMax ==> Stoi(ds).written == Some(ToInt64(n)))
  {
    var ds := DigitsOf(n, 10);
    assert StripSuffix(ds + "u") == ds;
    assert StripSuffix(ds + "U") == ds;
    StrtoullDecimal(n);
    StoiOfParse(ds, 0, 10, n);
  }

  /** stoi accepts "0x" followed by the hexadecimal text of n exactly when n fits in 32
      bits, and stores n whenever strtoull can represent it. */
  lemma StoiHexadecimal(n: nat)
    ensures var s := "0x" + DigitsOf(n, 16);
            && Stoi(s) == Stoi(s + "u")
            && (Stoi(s).ok <==> n <= 0xFFFF_FFFF)
            && (n <= ULLongMax ==> Stoi(s).written == Some(ToInt64(n)))
  {
    var ds := DigitsOf(n, 16);
    var s := "0x" + ds;
    assert StripSuffix(s + "u") == s;
    StrtoullHexadecimal(n);
    StoiOfParse(s, 2, 16, n);
  }

  /** strtoull reads "0x" and the hexadecimal text of n as n, or overflows. */
  lemma StrtoullHexadecimal(n: nat)
    ensures var s := "0x" + DigitsOf(n, 16);
            Strtoull(s) == if n > ULLongMax then Parsed(ULLongMax, |s|, true) else Parsed(n, |s|, false)
  {
    var ds := DigitsOf(n, 16);
    var s := "0x" + ds;
    DigitsOfValue(n, 16);
    DigitsOfFirst(n, 16);
    assert HexPrefixAt(s, 0);
    assert s[2..] == ds;
    StrtoullReads(s, 16, 2, n);
  }

  // ---------------------------------------------------------------------------------------
  // to_string(double)

  /** Whether the formatted number has no '.' and no 'e', so that it would read back as an
      integer. */
  predicate NeedsDotZero(str: string) {
    forall i | 0 <= i < |str| :: str[i] != '.' && str[i] != 'e'
  }

  /** The tail of to_string(double): scan the formatted number backwards for '.' or 'e',
      and append ".0" when there is neither. The formatting itself is outside this model. */
  method AppendDotZero(str: string) returns (r: string)
    ensures r == if NeedsDotZero(str) then str + ".0" else str
  {
    var needsDotZero := true;
    var i := |str| - 1;
    while i >= 0
      invariant -1 <= i < |str|
      invariant needsDotZero
      invariant forall k | i < k < |str| :: str[k] != '.' && str[k] != 'e'
    {
      var c := str[i];
      if c == '.' || c == 'e' {
        needsDotZero := false;
        break;
      }
      i := i - 1;
    }
    r := str;
    if needsDotZero {
      r := r + ".0";
    }
  }

  /** The text to_string produces never needs another ".0". */
  lemma DotZeroOnce(str: string)
    ensures !NeedsDotZero(if NeedsDotZero(str) then str + ".0" else str)
  {
    if NeedsDotZero(str) {
      assert (str + ".0")[|str|] == '.';
    }
  }

  // ---------------------------------------------------------------------------------------
  // Concatenation

  /** The characters a `const char*` argument contributes: those before its first NUL. */
  function CString(s: string): (r: string)
    ensures |r| <= |s| && r == s[..|r|] && '\0' !in r
    ensures |r| < |s| ==> s[|r|] == '\0'
  {
    if s == [] || s[0] == '\0' then [] else [s[0]] + CString(s[1..])
  }

  /** SkSL::String, whose characters the `+=` operators extend in place. */
  class SkString {
    var chars: string

    constructor(s: string)
      ensures chars == s
    {
      chars := s;
    }

    /** operator+=(char) */
    method AppendChar(c: char)
      modifies this
      ensures chars == old(chars) + [c]
    {
      chars := chars + [c];
    }

    /** operator+=(const String&) and operator+=(std::string_view): all of s. */
    method Append(s: string)
      modifies this
      ensures chars == old(chars) + s
    {
      chars := chars + s;
    }

    /** operator+=(const char*): s up to its terminating NUL. */
    method AppendCString(s: string)
      modifies this
      ensures chars == old(chars) + CString(s)
    {
      chars := chars + CString(s);
    }

    /** operator+(const String&): a copy of this string followed by s; this string is
        unchanged. */
    method Concat(s: string) returns (result: string)
      ensures result == chars + s
    {
      var copy := new SkString(chars);
      copy.Append(s);
      result := copy.chars;
    }

    /** operator+(const char*) */
    method ConcatCString(s: string) returns (result: string)
      ensures result == chars + CString(s)
      ensures '\0' !in s ==> result == chars + s
    {
      var copy := new SkString(chars);
      copy.AppendCString(s);
      result := copy.chars;
    }
  }

  /** operator+(const char*, const String&): s1 up to its NUL, then all of s2. */
  method PrependCString(s1: string, s2: SkString) returns (result: string)
    ensures result == CString(s1) + s2.chars
  {
    var copy := new SkString(CString(s1));
    copy.Append(s2.chars);
    result := copy.chars;
  }

  /** A C string without NUL contributes all its characters. */
  lemma {:induction false} CStringWhole(s: string)
    requires '\0' !in s
    ensures CString(s) == s
  {
    if s != [] {
      assert s == [s[0]] + s[1..];
      CStringWhole(s[1..]);
    }
  }
}
