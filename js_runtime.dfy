/** The few JavaScript built-ins whose exact behaviour the service's decisions
    depend on: truthiness of request values, String.prototype.split with a
    one-character separator, parseInt without a radix, toLowerCase, the
    UTF-16 length of a string, and the white-space class of regular
    expressions. */
module JsRuntime {

  datatype Option<T> = None | Some(value: T) {
    function GetOr(default: T): T {
      match this
      case Some(v) => v
      case None => default
    }
  }

  /** A value of a parsed JSON request body; Undefined stands for a member
      that is absent. JSON has no NaN, so a number is a plain real. */
  datatype Json =
    | Undefined
    | Null
    | Bool(b: bool)
    | Num(n: real)
    | Str(s: string)
    | Arr(elems: seq<Json>)
    | Obj(members: seq<(string, Json)>)

  /** ToBoolean: the JSON values that `!v` treats as false. */
  predicate Truthy(v: Json) {
    match v
    case Undefined => false
    case Null => false
    case Bool(b) => b
    case Num(n) => n != 0.0
    case Str(s) => s != ""
    case Arr(_) => true
    case Obj(_) => true
  }

  /** Truthiness of a string-or-absent value (absent covers undefined and null). */
  predicate Present(s: Option<string>) {
    s.Some? && s.value != ""
  }

  /** `s || null` for a string-or-absent value. */
  function OrNull(s: Option<string>): (r: Option<string>)
    ensures r.Some? <==> Present(s)
    ensures r.Some? ==> r == s
  {
    if Present(s) then s else None
  }

  /** The characters of the regular-expression class \s, which is also the set
      parseInt skips at the start: WhiteSpace and LineTerminator of ECMA-262. */
  predicate IsJsSpace(c: char) {
    var n := c as int;
    n == 0x09 || n == 0x0A || n == 0x0B || n == 0x0C || n == 0x0D || n == 0x20
    || n == 0xA0 || n == 0x1680 || (0x2000 <= n <= 0x200A) || n == 0x2028
    || n == 0x2029 || n == 0x202F || n == 0x205F || n == 0x3000 || n == 0xFEFF
  }

  // ---------------------------------------------------------------------------
  // String.prototype.split(sep) for a one-character separator

  /** `s.split(sep)`: the pieces between occurrences of `sep`; never empty,
      `"".split(sep)` is `[""]`. */
  function Split(s: string, sep: char): (r: seq<string>)
    ensures |r| >= 1
    ensures forall i :: 0 <= i < |r| ==> sep !in r[i]
  {
    if s == [] then [[]]
    else if s[0] == sep then [[]] + Split(s[1..], sep)
    else
      var rest := Split(s[1..], sep);
      [[s[0]] + rest[0]] + rest[1..]
  }

  /** A prefix free of the separator is glued onto the first piece. */
  lemma {:induction false} SplitPrefix(t: string, rest: string, sep: char)
    requires sep !in t
    ensures Split(t + rest, sep) == [t + Split(rest, sep)[0]] + Split(rest, sep)[1..]
  {
    if t != [] {
      assert (t + rest)[0] == t[0];
      assert (t + rest)[1..] == t[1..] + rest;
      SplitPrefix(t[1..], rest, sep);
      assert [t[0]] + (t[1..] + Split(rest, sep)[0]) == t + Split(rest, sep)[0];
    } else {
      var r := Split(rest, sep);
      assert t + rest == rest;
      assert t + r[0] == r[0];
      assert [r[0]] + r[1..] == r;
    }
  }

  /** Splitting a string that does not contain the separator gives the string itself. */
  lemma SplitNoSeparator(s: string, sep: char)
    requires sep !in s
    ensures Split(s, sep) == [s]
  {
    SplitPrefix(s, [], sep);
    assert s + [] == s;
  }

  // ---------------------------------------------------------------------------
  // parseInt(s) with no radix argument

  /** The value of `c` as a digit in base `radix` (10 or 16), if it is one. */
  function DigitOf(c: char, radix: nat): (r: Option<nat>)
    requires radix == 10 || radix == 16
    ensures r.Some? ==> r.value < radix
  {
    if '0' <= c <= '9' then Some(c as int - '0' as int)
    else if radix == 16 && 'a' <= c <= 'f' then Some(c as int - 'a' as int + 10)
    else if radix == 16 && 'A' <= c <= 'F' then Some(c as int - 'A' as int + 10)
    else None
  }

  predicate AllDigits(d: string, radix: nat)
    requires radix == 10 || radix == 16
  {
    forall i :: 0 <= i < |d| ==> DigitOf(d[i], radix).Some?
  }

  /** The longest prefix of `s` made of digits of `radix`. */
  function DigitPrefix(s: string, radix: nat): (r: string)
    requires radix == 10 || radix == 16
    ensures r <= s && AllDigits(r, radix)
    ensures |r| < |s| ==> DigitOf(s[|r|], radix).None?
  {
    if s != [] && DigitOf(s[0], radix).Some? then [s[0]] + DigitPrefix(s[1..], radix) else []
  }

  /** The number a digit string denotes, most significant digit first. */
  function DigitsValue(d: string, radix: nat): nat
    requires radix == 10 || radix == 16
    requires AllDigits(d, radix)
  {
    if d == [] then 0 else DigitsValue(d[..|d| - 1], radix) * radix + DigitOf(d[|d| - 1], radix).value
  }

  /** Leading white space removed. */
  function TrimStart(s: string): (r: string)
    ensures |r| <= |s| && r == s[|s| - |r|..]
    ensures r == [] || !IsJsSpace(r[0])
    ensures forall i :: 0 <= i < |s| - |r| ==> IsJsSpace(s[i])
  {
    if s != [] && IsJsSpace(s[0]) then TrimStart(s[1..]) else s
  }

  /** `parseInt(s)`: skip leading white space, take an optional sign, switch to
      base 16 after a `0x`/`0X` prefix, and read the longest run of digits;
      `None` stands for NaN (no digit at all). Trailing characters are ignored. */
  function ParseInt(s: string): (r: Option<int>)
    ensures r.None? <==> DigitPrefix(ParseIntBody(s), ParseIntRadix(s)) == []
  {
    var digits := DigitPrefix(ParseIntBody(s), ParseIntRadix(s));
    if digits == [] then None
    else
      var m: int := DigitsValue(digits, ParseIntRadix(s));
      Some(if ParseIntNegative(s) then -m else m)
  }

  /** The text after white space and sign. */
  function ParseIntUnsigned(s: string): string {
    var t := TrimStart(s);
    if t != [] && (t[0] == '-' || t[0] == '+') then t[1..] else t
  }

  predicate ParseIntNegative(s: string) {
    var t := TrimStart(s);
    t != [] && t[0] == '-'
  }

  predicate HasHexPrefix(u: string) {
    |u| >= 2 && u[0] == '0' && (u[1] == 'x' || u[1] == 'X')
  }

  function ParseIntRadix(s: string): (r: nat)
    ensures r == 10 || r == 16
  {
    if HasHexPrefix(ParseIntUnsigned(s)) then 16 else 10
  }

  /** The text where the digits are read from. */
  function ParseIntBody(s: string): string {
    var u := ParseIntUnsigned(s);
    if HasHexPrefix(u) then u[2..] else u
  }

  /** `parseOptionalInt(v)`: parseInt of a possibly undefined string;
      parseInt(undefined) reads the text "undefined" and gives NaN. */
  function ParseOptionalInt(s: Option<string>): (r: Option<int>)
    ensures s.None? ==> r.None?
  {
    match s
    case None => None
    case Some(t) => ParseInt(t)
  }

  // ---------------------------------------------------------------------------
  // String(n) for an integer n, and the round trip through parseInt

  function DigitChar(d: nat): (c: char)
    requires d < 10
    ensures DigitOf(c, 10) == Some(d)
  {
    ['0', '1', '2', '3', '4', '5', '6', '7', '8', '9'][d]
  }

  /** The decimal digits of a natural number, without leading zeros. */
  function Digits(n: nat): (r: string)
    ensures |r| >= 1 && AllDigits(r, 10)
    decreases n
  {
    if n < 10 then [DigitChar(n)] else Digits(n / 10) + [DigitChar(n % 10)]
  }

  /** `String(n)` for an integer n. */
  function Decimal(n: int): string {
    if n < 0 then ['-'] + Digits(-n) else Digits(n)
  }

  lemma {:induction false} DigitsValueOfDigits(n: nat)
    ensures DigitsValue(Digits(n), 10) == n
    decreases n
  {
    if n >= 10 {
      var d := Digits(n);
      assert d[..|d| - 1] == Digits(n / 10);
      DigitsValueOfDigits(n / 10);
    }
  }

  lemma {:induction false} DigitsNoLeadingZero(n: nat)
    requires n > 0
    ensures Digits(n)[0] != '0'
    decreases n
  {
    if n >= 10 {
      DigitsNoLeadingZero(n / 10);
    }
  }

  lemma {:induction false} DigitPrefixOfDigits(d: string, radix: nat)
    requires radix == 10 || radix == 16
    requires AllDigits(d, radix)
    ensures DigitPrefix(d, radix) == d
  {
    if d != [] {
      DigitPrefixOfDigits(d[1..], radix);
    }
  }

  /** A string that does not start with white space is its own TrimStart. */
  lemma TrimStartOfNonSpace(s: string)
    requires s != [] && !IsJsSpace(s[0])
    ensures TrimStart(s) == s
  {
  }

  /** The decimal rendering reads as its sign followed by the digits. */
  lemma {:induction false} DecimalUnsigned(n: int)
    ensures ParseIntUnsigned(Decimal(n)) == Digits(if n < 0 then -n else n)
    ensures ParseIntNegative(Decimal(n)) <==> n < 0
  {
    var d := Digits(if n < 0 then -n else n);
    assert DigitOf(d[0], 10).Some?;
    if n < 0 {
      TrimStartOfNonSpace(Decimal(n));
      assert Decimal(n)[1..] == d;
    } else {
      TrimStartOfNonSpace(d);
    }
  }

  /** parseInt reads back every integer rendered in decimal. */
  lemma ParseIntDecimal(n: int)
    ensures ParseInt(Decimal(n)) == Some(n)
  {
    var m := if n < 0 then -n else n;
    var d := Digits(m);
    DecimalUnsigned(n);
    if m > 0 {
      DigitsNoLeadingZero(m);
    }
    assert !HasHexPrefix(d);
    assert ParseIntRadix(Decimal(n)) == 10 && ParseIntBody(Decimal(n)) == d;
    DigitPrefixOfDigits(d, 10);
    DigitsValueOfDigits(m);
  }

  /** parseInt stops at the first character that is not a digit: `"1_5"` reads as 1. */
  lemma ParseIntStopsAtUnderscore()
    ensures ParseInt("1_5") == Some(1)
  {
    TrimStartOfNonSpace("1_5");
    assert ParseIntUnsigned("1_5") == "1_5" && !HasHexPrefix("1_5");
    assert DigitOf('_', 10).None?;
    assert DigitPrefix("_5", 10) == [];
    assert DigitPrefix("1_5", 10) == "1";
    assert "1"[..0] == [];
  }

  // ---------------------------------------------------------------------------
  // String.prototype.indexOf(c)

  /** `s.indexOf(c)`, with |s| standing for -1: the position of the first `c`. */
  function IndexOf(s: string, c: char): (i: nat)
    ensures i <= |s| && c !in s[..i]
    ensures i < |s| ==> s[i] == c
  {
    if s == [] then 0 else if s[0] == c then 0 else 1 + IndexOf(s[1..], c)
  }

  /** A `c` with no `c` before it is the first one. */
  lemma IndexOfFirst(s: string, c: char, i: nat)
    requires i < |s| && s[i] == c && c !in s[..i]
    ensures IndexOf(s, c) == i
  {
  }

  // ---------------------------------------------------------------------------
  // String.prototype.toLowerCase

  predicate IsUpper(c: char) {
    var n := c as int;
    ('A' <= c <= 'Z') || (0xC0 <= n <= 0xDE && n != 0xD7) || (0x400 <= n <= 0x42F)
  }

  /** Lower-case mapping of one character: ASCII, the Latin-1 letters and the
      basic Cyrillic alphabet. */
  function LowerChar(c: char): (r: char)
    ensures !IsUpper(r)
    ensures !IsUpper(c) ==> r == c
    ensures IsUpper(c) ==> r != c && UpperChar(r) == c
    ensures 'A' <= c <= 'Z' ==> r as int == c as int + 32
  {
    var n := c as int;
    if 'A' <= c <= 'Z' || (0xC0 <= n <= 0xDE && n != 0xD7) || (0x410 <= n <= 0x42F) then (n + 0x20) as char
    else if 0x400 <= n <= 0x40F then (n + 0x50) as char
    else c
  }

  /** The capital a lower-case letter of LowerChar's range comes from; any
      other character is kept. */
  function UpperChar(c: char): (r: char)
    ensures r != c ==> IsUpper(r)
  {
    var n := c as int;
    if 'a' <= c <= 'z' || (0xE0 <= n <= 0xFE && n != 0xF7) || (0x430 <= n <= 0x44F) then (n - 0x20) as char
    else if 0x450 <= n <= 0x45F then (n - 0x50) as char
    else c
  }

  /** Two different capitals never lower to the same letter, so lower-casing
      e-mails merges only case variants. */
  lemma LowerCharInjective(a: char, b: char)
    requires LowerChar(a) == LowerChar(b)
    ensures a == b || (IsUpper(a) != IsUpper(b))
  {
  }

  /** `s.toLowerCase()` for the characters LowerChar maps. */
  function ToLowerCase(s: string): (r: string)
    ensures |r| == |s|
    ensures forall i :: 0 <= i < |s| ==> r[i] == LowerChar(s[i])
  {
    if s == [] then [] else [LowerChar(s[0])] + ToLowerCase(s[1..])
  }

  /** Lower-casing twice is lower-casing once. */
  lemma ToLowerCaseIdempotent(s: string)
    ensures ToLowerCase(ToLowerCase(s)) == ToLowerCase(s)
  {
    var once := ToLowerCase(s);
    var twice := ToLowerCase(once);
    assert forall i :: 0 <= i < |s| ==> twice[i] == once[i];
  }

  // ---------------------------------------------------------------------------
  // String.prototype.length

  /** `s.length`: the number of UTF-16 code units, two for a character outside
      the Basic Multilingual Plane. */
  function Utf16Length(s: string): (r: nat)
    ensures |s| <= r <= 2 * |s|
    ensures |s| == 1 ==> r == if s[0] as int > 0xFFFF then 2 else 1
  {
    if s == [] then 0 else (if s[0] as int > 0xFFFF then 2 else 1) + Utf16Length(s[1..])
  }

  /** The length of a concatenation is the sum of the lengths; with the
      one-character case this fixes the length of every string. */
  lemma {:induction false} Utf16LengthAppend(a: string, b: string)
    ensures Utf16Length(a + b) == Utf16Length(a) + Utf16Length(b)
    decreases |a|
  {
    if a == [] {
      assert a + b == b;
    } else {
      assert (a + b)[1..] == a[1..] + b;
      Utf16LengthAppend(a[1..], b);
    }
  }

  /** A string inside the Basic Multilingual Plane has one code unit per
      character. */
  lemma {:induction false} Utf16LengthBmp(s: string)
    requires forall i :: 0 <= i < |s| ==> s[i] as int <= 0xFFFF
    ensures Utf16Length(s) == |s|
    decreases |s|
  {
    if s != [] {
      Utf16LengthBmp(s[1..]);
    }
  }
}
