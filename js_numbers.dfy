/** The ECMAScript global `parseInt(string)` called without a radix, as
    `getPageFromRequest` uses it, over exact integers, and the decimal text
    `${n}` that a template literal makes of an integer. */
module JsNumbers {
  import opened Wrappers

  /** The characters parseInt skips before the number: white space (TAB, VT,
      FF, ZWNBSP and the space separators of category Zs) and line terminators. */
  predicate IsStrWhiteSpace(c: char) {
    var u := c as int;
    u == 0x09 || u == 0x0B || u == 0x0C || u == 0xFEFF
    || u == 0x0A || u == 0x0D || u == 0x2028 || u == 0x2029
    || u == 0x20 || u == 0xA0 || u == 0x1680 || (0x2000 <= u <= 0x200A)
    || u == 0x202F || u == 0x205F || u == 0x3000
  }

  predicate IsDecimalDigit(c: char) {
    '0' <= c <= '9'
  }

  /** A digit of radix 10 or 16 (letters of either case for 16). */
  predicate IsDigit(c: char, radix: nat) {
    if radix == 16 then IsDecimalDigit(c) || 'a' <= c <= 'f' || 'A' <= c <= 'F'
    else IsDecimalDigit(c)
  }

  function DigitValue(c: char): nat {
    if IsDecimalDigit(c) then c as nat - '0' as nat
    else if 'a' <= c <= 'f' then c as nat - 'a' as nat + 10
    else if 'A' <= c <= 'F' then c as nat - 'A' as nat + 10
    else 0
  }

  /** The text left after the leading white space. */
  function TrimStart(s: string): (r: string)
    ensures |r| <= |s| && r == s[|s| - |r|..]
    ensures r == [] || !IsStrWhiteSpace(r[0])
  {
    if |s| > 0 && IsStrWhiteSpace(s[0]) then TrimStart(s[1..]) else s
  }

  /** The longest prefix of `s` made of digits of the radix. */
  function DigitPrefix(s: string, radix: nat): (r: string)
    ensures |r| <= |s| && r == s[..|r|]
    ensures forall k :: 0 <= k < |r| ==> IsDigit(r[k], radix)
    ensures |r| < |s| ==> !IsDigit(s[|r|], radix)
  {
    if |s| > 0 && IsDigit(s[0], radix) then [s[0]] + DigitPrefix(s[1..], radix) else []
  }

  /** The mathematical value of a digit string, most significant digit first. */
  function ValueOf(ds: string, radix: nat): nat {
    if |ds| == 0 then 0 else ValueOf(ds[..|ds| - 1], radix) * radix + DigitValue(ds[|ds| - 1])
  }

  /** The value of the digit run at the start of `u`; None (NaN) when there is none. */
  function DigitsValue(u: string, radix: nat): Option<nat> {
    var z := DigitPrefix(u, radix);
    if z == [] then None else Some(ValueOf(z, radix))
  }

  predicate HasHexPrefix(u: string) {
    |u| >= 2 && u[0] == '0' && (u[1] == 'x' || u[1] == 'X')
  }

  /** The number after the sign: "0x"/"0X" switches to radix 16. */
  function ParseUnsigned(u: string): Option<nat> {
    if HasHexPrefix(u) then DigitsValue(u[2..], 16) else DigitsValue(u, 10)
  }

  /** A leading "-" negates, a leading "+" is dropped. */
  function ParseSigned(t: string): Option<int> {
    if |t| > 0 && t[0] == '-' then
      match ParseUnsigned(t[1..])
      case None => None
      case Some(n) => Some(-(n as int))
    else if |t| > 0 && t[0] == '+' then
      match ParseUnsigned(t[1..])
      case None => None
      case Some(n) => Some(n)
    else
      match ParseUnsigned(t)
      case None => None
      case Some(n) => Some(n)
  }

  /** parseInt(s): None stands for NaN. Leading white space is skipped and the
      number ends at the first character that is not a digit of its radix. */
  function ParseInt(s: string): Option<int> {
    ParseSigned(TrimStart(s))
  }

  function DigitChar(d: nat): (c: char)
    requires d < 10
    ensures IsDecimalDigit(c) && DigitValue(c) == d
  {
    ('0' as nat + d) as char
  }

  /** The shortest decimal text of a natural number. */
  function NatToDecimal(n: nat): (r: string)
    ensures |r| > 0 && IsDecimalDigit(r[0])
  {
    if n < 10 then [DigitChar(n)] else NatToDecimal(n / 10) + [DigitChar(n % 10)]
  }

  /** The text a template literal makes of an integer: `${n}`. */
  function IntToString(i: int): (r: string)
    ensures |r| > 0 && (r[0] == '-' <==> i < 0)
  {
    if i < 0 then "-" + NatToDecimal(-i) else NatToDecimal(i)
  }

  lemma {:induction false} NatToDecimalDigits(n: nat)
    ensures forall k :: 0 <= k < |NatToDecimal(n)| ==> IsDecimalDigit(NatToDecimal(n)[k])
    ensures ValueOf(NatToDecimal(n), 10) == n
  {
    if n >= 10 {
      NatToDecimalDigits(n / 10);
      var r := NatToDecimal(n);
      assert r[..|r| - 1] == NatToDecimal(n / 10);
    }
  }

  /** Scanning digits stops at the end of a digit run. */
  lemma {:induction false} DigitPrefixOfDigitsThen(ds: string, rest: string, radix: nat)
    requires forall k :: 0 <= k < |ds| ==> IsDigit(ds[k], radix)
    requires rest == [] || !IsDigit(rest[0], radix)
    ensures DigitPrefix(ds + rest, radix) == ds
  {
    if |ds| > 0 {
      assert (ds + rest)[1..] == ds[1..] + rest;
      DigitPrefixOfDigitsThen(ds[1..], rest, radix);
    }
  }

  /** A text that starts with a digit or a sign is parsed as it stands. */
  lemma ParseIntUntrimmed(s: string)
    requires |s| > 0 && (IsDecimalDigit(s[0]) || s[0] == '-' || s[0] == '+')
    ensures ParseInt(s) == ParseSigned(s)
  {
    assert !IsStrWhiteSpace(s[0]);
  }

  /** Only zero is written with a leading "0". */
  lemma {:induction false} NatToDecimalLeadingZero(n: nat)
    ensures NatToDecimal(n)[0] == '0' ==> n == 0
  {
    if n >= 10 {
      NatToDecimalLeadingZero(n / 10);
      assert NatToDecimal(n)[0] == NatToDecimal(n / 10)[0];
    }
  }

  /** What may follow a number's decimal text without changing what parseInt
      reads: anything but a digit, and after a lone "0" also anything but an "x". */
  predicate EndsNumber(n: nat, rest: string) {
    rest == [] || (!IsDecimalDigit(rest[0]) && (n > 0 || (rest[0] != 'x' && rest[0] != 'X')))
  }

  lemma ParseUnsignedDecimal(n: nat, rest: string)
    requires EndsNumber(n, rest)
    ensures ParseUnsigned(NatToDecimal(n) + rest) == Some(n)
  {
    var d := NatToDecimal(n);
    NatToDecimalDigits(n);
    NatToDecimalLeadingZero(n);
    var s := d + rest;
    assert !HasHexPrefix(s) by {
      if |d| >= 2 {
        assert IsDecimalDigit(s[1]);
      } else if |s| >= 2 {
        assert s[0] == d[0] && s[1] == rest[0];
      }
    }
    DigitPrefixOfDigitsThen(d, rest, 10);
  }

  /** The decimal text of a natural number, followed by anything that does not
      continue it, parses back to that number. */
  lemma NatToDecimalThenParse(n: nat, rest: string)
    requires EndsNumber(n, rest)
    ensures ParseInt(NatToDecimal(n) + rest) == Some(n)
  {
    var s := NatToDecimal(n) + rest;
    NatToDecimalDigits(n);
    assert IsDecimalDigit(s[0]);
    ParseIntUntrimmed(s);
    ParseUnsignedDecimal(n, rest);
  }

  /** A minus sign in front negates what follows it. */
  lemma MinusThenParse(u: string, m: nat)
    requires ParseUnsigned(u) == Some(m)
    ensures ParseInt("-" + u) == Some(-(m as int))
  {
    var s := "-" + u;
    assert s[0] == '-' && s[1..] == u;
    ParseIntUntrimmed(s);
    assert ParseSigned(s) == Some(-(m as int));
  }

  /** The same text after a minus sign parses to the negated number. */
  lemma NegatedDecimalThenParse(n: nat, rest: string)
    requires EndsNumber(n, rest)
    ensures ParseInt("-" + (NatToDecimal(n) + rest)) == Some(-(n as int))
  {
    ParseUnsignedDecimal(n, rest);
    MinusThenParse(NatToDecimal(n) + rest, n);
  }

  /** Round trip: parseInt reads back every integer a template literal writes. */
  lemma IntToStringThenParse(i: int)
    ensures ParseInt(IntToString(i)) == Some(i)
  {
    if i < 0 {
      NegativeThenParse(i);
    } else {
      NonNegativeThenParse(i);
    }
  }

  lemma NegativeThenParse(i: int)
    requires i < 0
    ensures ParseInt(IntToString(i)) == Some(i)
  {
    var d := NatToDecimal(-i);
    ParseUnsignedDecimal(-i, []);
    assert d + [] == d;
    MinusThenParse(d, -i);
  }

  lemma NonNegativeThenParse(n: nat)
    ensures ParseInt(IntToString(n)) == Some(n)
  {
    NatToDecimalThenParse(n, []);
    assert NatToDecimal(n) + [] == NatToDecimal(n);
  }

  /** A text that does not start with white space, a sign or a digit is NaN. */
  lemma NonNumericIsNaN(s: string)
    requires s == [] || !(IsStrWhiteSpace(s[0]) || s[0] == '-' || s[0] == '+' || IsDecimalDigit(s[0]))
    ensures ParseInt(s) == None
  {
    assert TrimStart(s) == s;
    assert !HasHexPrefix(s);
    assert DigitPrefix(s, 10) == [];
  }

  /** The text of an integer is made of digits and at most a leading minus. */
  lemma IntToStringChars(i: int)
    ensures forall k :: 0 <= k < |IntToString(i)| ==> IsDecimalDigit(IntToString(i)[k]) || IntToString(i)[k] == '-'
  {
    NatToDecimalDigits(if i < 0 then -i else i);
  }
  /** Leading white space does not change what parseInt reads. */
  lemma {:induction false} LeadingWhiteSpaceIgnored(ws: string, s: string)
    requires forall k :: 0 <= k < |ws| ==> IsStrWhiteSpace(ws[k])
    ensures ParseInt(ws + s) == ParseInt(s)
  {
    if |ws| > 0 {
      assert (ws + s)[1..] == ws[1..] + s;
      LeadingWhiteSpaceIgnored(ws[1..], s);
    } else {
      assert ws + s == s;
    }
  }
}
