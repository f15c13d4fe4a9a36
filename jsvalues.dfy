/** The two JavaScript conventions the controllers lean on: `parseInt` on a
    path parameter, and the truthiness of optional string fields of a JSON
    body (`!Titulo`, `imagen || null`). */
module JsValues {
  import opened Common

  predicate IsDigit(c: char) { '0' <= c <= '9' }

  /** The white-space characters `parseInt` skips before the number. */
  predicate IsSpace(c: char) { c == ' ' || c == '\t' || c == '\n' || c == '\r' }

  predicate AllDigits(d: string) { forall i :: 0 <= i < |d| ==> IsDigit(d[i]) }

  function DigitValue(c: char): (v: int)
    requires IsDigit(c)
    ensures 0 <= v < 10
  {
    c as int - '0' as int
  }

  function DigitChar(v: int): (c: char)
    requires 0 <= v < 10
    ensures IsDigit(c) && DigitValue(c) == v
  {
    ('0' as int + v) as char
  }

  /** Length of the run of decimal digits at the front of `s`. */
  function DigitRun(s: string): (n: nat)
    ensures n <= |s|
    ensures forall i :: 0 <= i < n ==> IsDigit(s[i])
    ensures n < |s| ==> !IsDigit(s[n])
  {
    if s == [] || !IsDigit(s[0]) then 0 else 1 + DigitRun(s[1..])
  }

  /** `s` without its leading white space. */
  function SkipSpaces(s: string): (t: string)
    ensures |t| <= |s| && t == s[|s| - |t|..]
    ensures t == [] || !IsSpace(t[0])
  {
    if s != [] && IsSpace(s[0]) then SkipSpaces(s[1..]) else s
  }

  /** The value of a string of decimal digits, most significant first. */
  function DigitsValue(d: string): nat
    requires AllDigits(d)
  {
    if d == [] then 0 else 10 * DigitsValue(d[..|d| - 1]) + DigitValue(d[|d| - 1])
  }

  /** The value of the digit run at the front of `body`, `None` when there
      is none. */
  function LeadingNumber(body: string): Option<nat>
  {
    var n := DigitRun(body);
    if n == 0 then None else Some(DigitsValue(body[..n]))
  }

  /** JavaScript `parseInt(s)` restricted to decimal input: leading white
      space, an optional sign, then the longest run of digits; whatever
      follows the digits is ignored. `None` stands for `NaN`. */
  function ParseInt(s: string): Option<int>
  {
    var t := SkipSpaces(s);
    if |t| > 0 && t[0] == '-' then
      match LeadingNumber(t[1..])
      case None => None
      case Some(v) => Some(-(v as int))
    else if |t| > 0 && t[0] == '+' then
      match LeadingNumber(t[1..])
      case None => None
      case Some(v) => Some(v as int)
    else
      match LeadingNumber(t)
      case None => None
      case Some(v) => Some(v as int)
  }

  /** The decimal spelling of a natural number, without leading zeros. */
  function Decimal(n: nat): (s: string)
    ensures |s| >= 1 && AllDigits(s)
    ensures s[0] != '0' || n == 0
  {
    if n < 10 then [DigitChar(n)] else Decimal(n / 10) + [DigitChar(n % 10)]
  }

  /** The spelling of an integer as it appears in a request path, e.g. `-12`. */
  function IntToString(n: int): (s: string)
    ensures |s| >= 1
  {
    if n < 0 then "-" + Decimal(-n) else Decimal(n)
  }

  lemma {:induction false} DecimalValue(n: nat)
    ensures DigitsValue(Decimal(n)) == n
  {
    if n >= 10 {
      DecimalValue(n / 10);
      var s := Decimal(n);
      assert s[..|s| - 1] == Decimal(n / 10);
    }
  }

  lemma {:induction false} DigitRunOfDigits(d: string, rest: string)
    requires AllDigits(d)
    requires rest == [] || !IsDigit(rest[0])
    ensures DigitRun(d + rest) == |d|
  {
    if d != [] {
      assert (d + rest)[1..] == d[1..] + rest;
      DigitRunOfDigits(d[1..], rest);
    } else {
      assert d + rest == rest;
    }
  }

  /** A digit string followed by non-digit text reads as its value. */
  lemma LeadingNumberOfDigits(d: string, rest: string)
    requires |d| >= 1 && AllDigits(d)
    requires rest == [] || !IsDigit(rest[0])
    ensures LeadingNumber(d + rest) == Some(DigitsValue(d))
  {
    DigitRunOfDigits(d, rest);
    assert (d + rest)[..|d|] == d;
  }

  /** Text starting with a digit is parsed from its leading number. */
  lemma ParseIntUnsigned(body: string)
    requires body != [] && IsDigit(body[0])
    ensures ParseInt(body) == match LeadingNumber(body) case None => None case Some(v) => Some(v as int)
  {
    assert SkipSpaces(body) == body;
  }

  /** Text starting with a minus sign is parsed as the negated leading number
      of the rest. */
  lemma ParseIntNegative(s: string)
    requires s != [] && s[0] == '-'
    ensures ParseInt(s) == match LeadingNumber(s[1..]) case None => None case Some(v) => Some(-(v as int))
  {
    assert SkipSpaces(s) == s;
  }

  lemma ParseIntOfDecimal(m: nat, rest: string)
    requires rest == [] || !IsDigit(rest[0])
    ensures LeadingNumber(Decimal(m) + rest) == Some(m)
  {
    DecimalValue(m);
    LeadingNumberOfDigits(Decimal(m), rest);
  }

  /** `parseInt` reads back the integer written in a path segment, whatever
      non-digit text follows it. */
  lemma ParseIntOfIntToString(n: int, rest: string)
    requires rest == [] || !IsDigit(rest[0])
    ensures ParseInt(IntToString(n) + rest) == Some(n)
  {
    if n < 0 {
      ParseIntOfNegative(n, rest);
    } else {
      ParseIntOfNonNegative(n, rest);
    }
  }

  lemma ParseIntOfNonNegative(n: int, rest: string)
    requires n >= 0
    requires rest == [] || !IsDigit(rest[0])
    ensures ParseInt(IntToString(n) + rest) == Some(n)
  {
    ParseIntOfDecimal(n, rest);
    assert IntToString(n) + rest == Decimal(n) + rest;
    ParseIntUnsigned(Decimal(n) + rest);
  }

  lemma ParseIntOfNegative(n: int, rest: string)
    requires n < 0
    requires rest == [] || !IsDigit(rest[0])
    ensures ParseInt(IntToString(n) + rest) == Some(n)
  {
    var m: nat := -n;
    var body := Decimal(m) + rest;
    ParseIntOfDecimal(m, rest);
    var s := IntToString(n) + rest;
    assert s == ['-'] + body && s[1..] == body;
    ParseIntNegative(s);
  }

  /** A path segment that does not start with white space, a sign or a digit
      reads as `NaN`. */
  lemma ParseIntRejectsNonNumeric(s: string)
    requires s != [] && !IsDigit(s[0]) && !IsSpace(s[0]) && s[0] != '-' && s[0] != '+'
    ensures ParseInt(s) == None
  {
  }

  /** JavaScript truthiness of an optional string field of a request body:
      a missing field (undefined or null) and the empty string are falsy. */
  predicate Truthy(f: Option<string>) { f.Some? && f.value != "" }

  /** The JavaScript expression `f || null` on an optional string field:
      an empty string is never kept, a truthy field is kept as given. */
  function OrNull(f: Option<string>): (r: Option<string>)
    ensures r != Some("")
    ensures Truthy(f) ==> r == f
  {
    if Truthy(f) then f else None
  }

  /** Applying `|| null` to a stored value changes nothing: what `OrNull`
      stores is already null or truthy. */
  lemma OrNullIdempotent(f: Option<string>)
    ensures OrNull(OrNull(f)) == OrNull(f)
    ensures OrNull(f) == None || Truthy(OrNull(f))
  {
  }
}
