/**
  The two ECMAScript number conversions the configuration code uses:
  `Number.parseInt(s, 10)` (NaN modelled as `None`) and the conversion of an
  integer Number to its decimal string, as a template literal performs it.
 */
module JsNumber {
  import opened Wrappers
  import opened JsString

  predicate IsDigit(c: char) {
    '0' <= c <= '9'
  }

  predicate AllDigits(s: string) {
    forall k :: 0 <= k < |s| ==> IsDigit(s[k])
  }

  function DigitValue(c: char): (d: nat)
    requires IsDigit(c)
    ensures d < 10
  {
    c as int - '0' as int
  }

  function DigitChar(d: nat): (c: char)
    requires d < 10
    ensures IsDigit(c) && DigitValue(c) == d
  {
    ('0' as int + d) as char
  }

  /** Length of the longest prefix of decimal digits. */
  function LeadingDigits(s: string): (n: nat)
    ensures n <= |s|
    ensures AllDigits(s[..n])
    ensures n < |s| ==> !IsDigit(s[n])
  {
    if |s| == 0 || !IsDigit(s[0]) then 0
    else
      var m := LeadingDigits(s[1..]);
      assert s[1..][..m] == s[1..m + 1];
      1 + m
  }

  /** The number a string of decimal digits denotes (most significant digit first). */
  function DecimalValue(d: string): nat
    requires AllDigits(d)
  {
    if |d| == 0 then 0
    else DecimalValue(d[..|d| - 1]) * 10 + DigitValue(d[|d| - 1])
  }

  /**
    `Number.parseInt(s, 10)`: skip leading white space, take an optional sign,
    then the longest run of decimal digits; NaN (`None`) when that run is empty.
    Whatever follows the run is ignored.
   */
  function ParseInt(s: string): Option<int>
  {
    ParseSigned(TrimStart(s))
  }

  /** The sign step of `parseInt`, on text that no longer starts with white space. */
  function ParseSigned(t: string): Option<int>
  {
    if |t| > 0 && t[0] == '-' then
      match ParseDigits(t[1..])
      case Some(m) => Some(-(m as int))
      case None => None
    else
      var u := if |t| > 0 && t[0] == '+' then t[1..] else t;
      match ParseDigits(u)
      case Some(m) => Some(m as int)
      case None => None
  }

  /** The digit step of `parseInt`: the value of the leading digit run, `None` when it is empty. */
  function ParseDigits(u: string): Option<nat>
  {
    var n := LeadingDigits(u);
    if n == 0 then None else Some(DecimalValue(u[..n]))
  }

  /** Decimal digits of a natural number, no leading zero. */
  function NatToDecimal(n: nat): (s: string)
    ensures |s| >= 1 && AllDigits(s)
    ensures |s| > 1 ==> s[0] != '0'
  {
    if n < 10 then [DigitChar(n)]
    else NatToDecimal(n / 10) + [DigitChar(n % 10)]
  }

  /** `${n}` for an integer-valued Number: an optional minus sign, then the digits. */
  function IntToDecimal(n: int): (s: string)
    ensures |s| >= 1 && (s[0] == '-' <==> n < 0)
    ensures AllDigits(if n < 0 then s[1..] else s)
    ensures var digits := if n < 0 then s[1..] else s; |digits| >= 1 && (|digits| > 1 ==> digits[0] != '0')
  {
    if n < 0 then "-" + NatToDecimal(-n) else NatToDecimal(n)
  }

  /** Reading back the digits of `n` gives `n`. */
  lemma {:induction false} DecimalValueOfNatToDecimal(n: nat)
    ensures DecimalValue(NatToDecimal(n)) == n
  {
    if n >= 10 {
      DecimalValueOfNatToDecimal(n / 10);
      var s := NatToDecimal(n);
      assert s[..|s| - 1] == NatToDecimal(n / 10);
    }
  }

  /**
    `parseInt` accepts a leading, optionally signed run of digits after white
    space and ignores whatever follows it (`"3000abc"` is 3000). `value` names
    the number the digits denote.
   */
  lemma ParseIntAccepts(ws: string, sign: string, digits: string, tail: string, value: nat)
    requires AllWhiteSpace(ws)
    requires sign == "" || sign == "+" || sign == "-"
    requires |digits| > 0 && AllDigits(digits) && value == DecimalValue(digits)
    requires |tail| == 0 || !IsDigit(tail[0])
    ensures ParseInt(ws + sign + (digits + tail)) == Some(if sign == "-" then -(value as int) else value)
  {
    var u := digits + tail;
    DigitRun(digits, tail);
    assert u[0] == digits[0];
    SignedDigitRun(ws, sign, u, value);
  }

  /** The digit step reads exactly the run `digits`. */
  lemma DigitRun(digits: string, tail: string)
    requires |digits| > 0 && AllDigits(digits)
    requires |tail| == 0 || !IsDigit(tail[0])
    ensures ParseDigits(digits + tail) == Some(DecimalValue(digits))
  {
    LeadingDigitsOf(digits, tail);
  }

  /** A digit run of value `x` after white space and a sign parses to `x` or `-x`. */
  lemma SignedDigitRun(ws: string, sign: string, u: string, x: nat)
    requires AllWhiteSpace(ws)
    requires sign == "" || sign == "+" || sign == "-"
    requires ParseDigits(u) == Some(x)
    requires |u| > 0 && IsDigit(u[0])
    ensures ParseInt(ws + sign + u) == Some(if sign == "-" then -(x as int) else x)
  {
    DigitIsNotWhiteSpace(u[0]);
    SignThenDigits(ws, sign, u);
  }

  /**
    `parseInt` is NaN when, after the white space and an optional sign, no
    digit follows.
   */
  lemma ParseIntRejects(ws: string, sign: string, tail: string)
    requires AllWhiteSpace(ws)
    requires sign == "+" || sign == "-"
             || (sign == "" && (|tail| == 0 || (!IsWhiteSpace(tail[0]) && tail[0] != '+' && tail[0] != '-')))
    requires |tail| == 0 || !IsDigit(tail[0])
    ensures ParseInt(ws + sign + tail) == None
  {
    assert ParseDigits(tail) == None;
    SignThenDigits(ws, sign, tail);
  }

  /** After white space and an explicit or absent sign, `parseInt` reads the digits of `u`. */
  lemma SignThenDigits(ws: string, sign: string, u: string)
    requires AllWhiteSpace(ws)
    requires sign == "" || sign == "+" || sign == "-"
    requires sign == "" ==> |u| == 0 || (!IsWhiteSpace(u[0]) && u[0] != '+' && u[0] != '-')
    ensures ParseDigits(u).None? ==> ParseInt(ws + sign + u) == None
    ensures ParseDigits(u).Some? ==>
              ParseInt(ws + sign + u)
              == Some(if sign == "-" then -(ParseDigits(u).value as int) else ParseDigits(u).value)
  {
    assert ws + sign + u == ws + (sign + u);
    if sign == "" {
      assert sign + u == u;
      TrimStartSkips(ws, u);
      UnsignedDigits(u);
    } else {
      ExplicitSign(sign, u);
      TrimStartSkips(ws, sign + u);
    }
  }

  /** Without a sign, the sign step reads the digits as they are. */
  lemma UnsignedDigits(u: string)
    requires |u| == 0 || (u[0] != '+' && u[0] != '-')
    ensures ParseSigned(u) == match ParseDigits(u) case Some(m) => Some(m as int) case None => None
  {
  }

  /** After an explicit sign, the sign step reads the digits that follow it. */
  lemma ExplicitSign(sign: string, u: string)
    requires sign == "+" || sign == "-"
    ensures (sign + u)[0] == sign[0] && !IsWhiteSpace(sign[0])
    ensures ParseSigned(sign + u)
            == match ParseDigits(u)
               case Some(m) => Some(if sign == "-" then -(m as int) else m as int)
               case None => None
  {
    assert (sign + u)[1..] == u;
  }

  lemma DigitIsNotWhiteSpace(c: char)
    requires IsDigit(c)
    ensures !IsWhiteSpace(c) && c != '+' && c != '-'
  {
  }

  /** `TrimStart` removes exactly a white-space prefix followed by a non-white-space character. */
  lemma TrimStartSkips(ws: string, rest: string)
    requires AllWhiteSpace(ws)
    requires |rest| == 0 || !IsWhiteSpace(rest[0])
    ensures TrimStart(ws + rest) == rest
  {
    var s := ws + rest;
    if |rest| > 0 {
      assert s[|ws|] == rest[0];
    }
    assert LeadingWhiteSpace(s) == |ws|;
    assert s[|ws|..] == rest;
  }

  /** The digit run of `digits + tail` is `digits` when `tail` does not start with a digit. */
  lemma LeadingDigitsOf(digits: string, tail: string)
    requires AllDigits(digits)
    requires |tail| == 0 || !IsDigit(tail[0])
    ensures LeadingDigits(digits + tail) == |digits|
    ensures (digits + tail)[..|digits|] == digits
  {
    var u := digits + tail;
    if |tail| > 0 {
      assert u[|digits|] == tail[0];
    }
    assert u[..|digits|] == digits;
  }

  /** The digit step reads back the decimal string of `m`. */
  lemma ParseDigitsOfDecimal(m: nat)
    ensures ParseDigits(NatToDecimal(m)) == Some(m)
  {
    var digits := NatToDecimal(m);
    LeadingDigitsOf(digits, "");
    assert digits + "" == digits;
    DecimalValueOfNatToDecimal(m);
  }

  /** The decimal string of any integer parses back to it. */
  lemma ParseIntOfIntToDecimal(n: int)
    ensures ParseInt(IntToDecimal(n)) == Some(n)
  {
    if n < 0 {
      ParseIntOfNegative(n);
    } else {
      ParseIntOfNatural(n);
    }
  }

  /** A natural number printed in decimal parses back to itself. */
  lemma ParseIntOfNatural(n: nat)
    ensures ParseInt(NatToDecimal(n)) == Some(n)
  {
    var digits := NatToDecimal(n);
    DigitIsNotWhiteSpace(digits[0]);
    TrimStartSkips("", digits);
    assert "" + digits == digits;
    ParseDigitsOfDecimal(n);
    UnsignedDigits(digits);
  }

  /** A negative number printed as a minus sign and its digits parses back to itself. */
  lemma ParseIntOfNegative(n: int)
    requires n < 0
    ensures ParseInt("-" + NatToDecimal(-n)) == Some(n)
  {
    var digits := NatToDecimal(-n);
    ExplicitSign("-", digits);
    TrimStartSkips("", "-" + digits);
    assert "" + ("-" + digits) == "-" + digits;
    ParseDigitsOfDecimal(-n);
  }
}
