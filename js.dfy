/** The slice of JavaScript value semantics that the grid and the field-array
    adapter rely on: truthiness, `||` defaulting, property reads on rows,
    `parseFloat`, `toLowerCase` and the relational `>` on strings. */
module Js {

  /** A scalar JavaScript value as it can appear in a grid row or a form entry.
      Numbers are modelled as integers (floating point is not modelled). */
  datatype Value = Undefined | Null | Bool(b: bool) | Num(n: int) | Text(s: string)

  /** JavaScript truthiness: `!v` holds exactly for these values. */
  predicate Falsy(v: Value)
  {
    match v
    case Undefined => true
    case Null => true
    case Bool(b) => !b
    case Num(n) => n == 0
    case Text(s) => s == []
  }

  datatype Option<T> = None | Some(value: T)

  /** What a handler can throw; it is modelled as a returned outcome. */
  datatype Thrown =
    | TypeError            // a method called on `undefined`, `null` or a non-string
    | IncorrectFieldsProp  // `Error("Incorrect fields prop passed to FieldArray renderer component")`

  datatype Outcome = Pass | Fail(error: Thrown)

  /** A row of the grid: an open mapping from column key to value. */
  type Row = map<string, Value>

  /** `row[key]`: a missing key reads as `undefined`. */
  function Get(row: Row, key: string): Value
  {
    if key in row then row[key] else Undefined
  }

  /** `v || w` */
  function Or(v: Value, w: Value): Value
  {
    if Falsy(v) then w else v
  }

  /** A numeric result that may be `NaN` (of `parseFloat`, or of subtracting dates). */
  datatype Number = NaN | Int(i: int)

  /** `x - y`, with `NaN` absorbing. */
  function Minus(x: Number, y: Number): (r: Number)
    ensures r.Int? <==> x.Int? && y.Int?
    ensures r.Int? ==> r.i + y.i == x.i
  {
    if x.Int? && y.Int? then Int(x.i - y.i) else NaN
  }

  /** Whether a comparator result makes `Array.prototype.sort` put its first
      argument strictly before its second: ECMAScript's SortCompare reads a
      `NaN` result as `+0`. */
  predicate Negative(r: Number)
  {
    r.Int? && r.i < 0
  }

  // ---------------------------------------------------------------------------
  // Decimal text and parseFloat

  predicate IsDigit(c: char)
  {
    '0' <= c <= '9'
  }

  predicate AllDigits(s: string)
  {
    forall i :: 0 <= i < |s| ==> IsDigit(s[i])
  }

  function DigitChar(d: nat): (c: char)
    requires d < 10
    ensures IsDigit(c) && c as int - '0' as int == d
  {
    ('0' as int + d) as char
  }

  /** The value of a string of decimal digits, most significant digit first. */
  function DigitsValue(s: string): nat
    requires AllDigits(s)
  {
    if s == [] then 0 else DigitsValue(s[..|s| - 1]) * 10 + (s[|s| - 1] as int - '0' as int)
  }

  /** The decimal notation of a natural number, without leading zeros. */
  function Decimal(n: nat): (s: string)
    ensures s != [] && AllDigits(s)
    ensures |s| > 1 ==> s[0] != '0'
  {
    if n < 10 then [DigitChar(n)] else Decimal(n / 10) + [DigitChar(n % 10)]
  }

  /** `String(v)`, the conversion `parseFloat` applies to its argument first. */
  function ToString(v: Value): string
  {
    match v
    case Undefined => "undefined"
    case Null => "null"
    case Bool(b) => if b then "true" else "false"
    case Num(n) => if n < 0 then "-" + Decimal(-n) else Decimal(n)
    case Text(s) => s
  }

  /** ECMAScript's StrWhiteSpaceChar: the WhiteSpace code points (tab,
      vertical tab, form feed, the byte order mark and every space separator
      of Unicode category Zs) and the LineTerminator code points. */
  predicate IsWhitespace(c: char)
  {
    || c == '\t' || c == '\U{000B}' || c == '\U{000C}' || c == '\U{FEFF}'
    || c == ' ' || c == '\U{00A0}' || c == '\U{1680}' || '\U{2000}' <= c <= '\U{200A}'
    || c == '\U{202F}' || c == '\U{205F}' || c == '\U{3000}'
    || c == '\n' || c == '\r' || c == '\U{2028}' || c == '\U{2029}'
  }

  /** The string with its leading white space removed. */
  function TrimStart(s: string): (t: string)
    ensures |t| <= |s| && t == s[|s| - |t|..]
    ensures forall i :: 0 <= i < |s| - |t| ==> IsWhitespace(s[i])
    ensures t != [] ==> !IsWhitespace(t[0])
  {
    if s != [] && IsWhitespace(s[0]) then TrimStart(s[1..]) else s
  }

  /** The longest prefix of `s` made of decimal digits. */
  function LeadingDigits(s: string): (d: string)
    ensures d <= s && AllDigits(d)
    ensures |d| < |s| ==> !IsDigit(s[|d|])
  {
    if s != [] && IsDigit(s[0]) then [s[0]] + LeadingDigits(s[1..]) else []
  }

  /** The digits after an optional sign, as parseFloat reads them. */
  function SignedDigits(t: string): (r: Number)
  {
    var negative := t != [] && t[0] == '-';
    var body := if t != [] && (t[0] == '-' || t[0] == '+') then t[1..] else t;
    var d := LeadingDigits(body);
    if d == [] then NaN
    else if negative then Int(0 - DigitsValue(d))
    else Int(DigitsValue(d))
  }

  /** `parseFloat(v)`: convert to a string, skip leading white space, read an
      optional sign and the longest run of decimal digits; `NaN` when there is
      none. Fractions, exponents and `Infinity` are not modelled. */
  function ParseFloat(v: Value): Number
  {
    SignedDigits(TrimStart(ToString(v)))
  }

  lemma {:induction false} LeadingDigitsOfDigits(s: string)
    requires AllDigits(s)
    ensures LeadingDigits(s) == s
  {
    if s != [] {
      LeadingDigitsOfDigits(s[1..]);
    }
  }

  lemma {:induction false} DecimalValue(n: nat)
    ensures DigitsValue(Decimal(n)) == n
  {
    if n >= 10 {
      var s := Decimal(n);
      assert s[..|s| - 1] == Decimal(n / 10);
      DecimalValue(n / 10);
    }
  }

  lemma TrimStartNoop(s: string)
    requires s != [] && !IsWhitespace(s[0])
    ensures TrimStart(s) == s
  {
  }

  /** Text that starts with neither a sign nor a digit parses to `NaN`. */
  lemma SignedDigitsNaN(t: string)
    requires t != [] && t[0] != '-' && t[0] != '+' && !IsDigit(t[0])
    ensures SignedDigits(t) == NaN
  {
    assert LeadingDigits(t) == [];
  }

  lemma SignedDigitsOfDecimal(m: nat, negative: bool)
    ensures SignedDigits(if negative then "-" + Decimal(m) else Decimal(m))
         == Int(if negative then 0 - m else m)
  {
    var d := Decimal(m);
    LeadingDigitsOfDigits(d);
    DecimalValue(m);
    if negative {
      var t := "-" + d;
      assert t[0] == '-' && t[1..] == d;
    } else {
      assert d[0] != '-' && d[0] != '+';
    }
  }

  /** A number survives `parseFloat`, and so does its decimal text: a number
      column may hold either and still sort by value. */
  lemma ParseFloatOfNumber(n: int)
    ensures ParseFloat(Num(n)) == Int(n)
    ensures ParseFloat(Text(ToString(Num(n)))) == Int(n)
  {
    var m: nat := if n < 0 then -n else n;
    var t := ToString(Num(n));
    assert t == if n < 0 then "-" + Decimal(m) else Decimal(m);
    assert t[0] == '-' || IsDigit(t[0]);
    TrimStartNoop(t);
    SignedDigitsOfDecimal(m, n < 0);
  }

  /** Values with no digits in their text form parse to `NaN`; `v || 0` therefore
      never yields `NaN` for the falsy ones. */
  lemma ParseFloatNaN(v: Value)
    requires v == Undefined || v == Null || v.Bool?
    ensures ParseFloat(v) == NaN
  {
    var s := ToString(v);
    assert s[0] in "untf";
    TrimStartNoop(s);
    SignedDigitsNaN(s);
  }

  // ---------------------------------------------------------------------------
  // Strings

  function LowerChar(c: char): char
  {
    if 'A' <= c <= 'Z' then (c as int + 32) as char else c
  }

  /** `s.toLowerCase()` over ASCII letters. */
  function ToLowerCase(s: string): (t: string)
    ensures |t| == |s|
    ensures forall i :: 0 <= i < |s| ==> t[i] == LowerChar(s[i])
  {
    if s == [] then [] else [LowerChar(s[0])] + ToLowerCase(s[1..])
  }

  /** `a < b` on JavaScript strings: lexicographic order on code units, a proper
      prefix coming first. */
  predicate StrLess(a: string, b: string)
  {
    if b == [] then false
    else if a == [] then true
    else if a[0] != b[0] then a[0] < b[0]
    else StrLess(a[1..], b[1..])
  }

  lemma {:induction false} StrLessIrreflexive(a: string)
    ensures !StrLess(a, a)
  {
    if a != [] {
      StrLessIrreflexive(a[1..]);
    }
  }

  lemma {:induction false} StrLessTransitive(a: string, b: string, c: string)
    requires StrLess(a, b) && StrLess(b, c)
    ensures StrLess(a, c)
  {
    if a != [] && a[0] == b[0] && b[0] == c[0] {
      StrLessTransitive(a[1..], b[1..], c[1..]);
    }
  }

  /** Two different strings are always ordered one way or the other. */
  lemma {:induction false} StrLessTotal(a: string, b: string)
    requires a != b
    ensures StrLess(a, b) || StrLess(b, a)
  {
    if a != [] && b != [] && a[0] == b[0] {
      assert a == [a[0]] + a[1..] && b == [b[0]] + b[1..];
      StrLessTotal(a[1..], b[1..]);
    }
  }

  lemma StrLessAsymmetric(a: string, b: string)
    requires StrLess(a, b)
    ensures !StrLess(b, a)
  {
    if StrLess(b, a) {
      StrLessTransitive(a, b, a);
      StrLessIrreflexive(a);
    }
  }

  /** `!(a < b) && !(b < c)` implies `!(a < c)`: the negation of `<` is
      transitive, which is what makes `<` a usable sort order. */
  lemma StrNotLessTransitive(a: string, b: string, c: string)
    requires !StrLess(a, b) && !StrLess(b, c)
    ensures !StrLess(a, c)
  {
    if StrLess(a, c) {
      if a == b {
      } else {
        StrLessTotal(a, b);
        StrLessTransitive(b, a, c);
      }
    }
  }
}
