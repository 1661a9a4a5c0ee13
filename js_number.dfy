/** `parseInt(s)` with no radix argument, as the title reads the district number,
    and the text a template literal makes of what it returns. */
module JsNumber {
  import opened Text
  import opened Whitespace

  /** What `parseInt` returns: NaN, or an integer with its sign kept apart so that
      `-0` exists. */
  datatype Parsed = NaN | Int(negative: bool, magnitude: nat)

  predicate IsHexDigit(c: char) {
    IsDigit(c) || ('a' <= c <= 'f') || ('A' <= c <= 'F')
  }

  /** A digit of radix 16 (`hex`) or 10. */
  predicate IsRadixDigit(c: char, hex: bool) {
    if hex then IsHexDigit(c) else IsDigit(c)
  }

  function RadixDigitValue(c: char, hex: bool): (d: nat)
    requires IsRadixDigit(c, hex)
    ensures d < (if hex then 16 else 10)
  {
    if IsDigit(c) then DigitValue(c)
    else if 'a' <= c <= 'f' then c as int - 'a' as int + 10
    else c as int - 'A' as int + 10
  }

  predicate AllRadixDigits(s: string, hex: bool) {
    forall i :: 0 <= i < |s| ==> IsRadixDigit(s[i], hex)
  }

  /** The longest prefix of `s` made of digits of the radix. */
  function DigitRun(s: string, hex: bool): (r: string)
    ensures |r| <= |s|
  {
    if s != [] && IsRadixDigit(s[0], hex) then [s[0]] + DigitRun(s[1..], hex) else []
  }

  /** The value of a string of digits in the radix, most significant first. */
  function RadixValue(s: string, hex: bool): nat
    requires AllRadixDigits(s, hex)
  {
    if s == [] then 0
    else (if hex then 16 else 10) * RadixValue(s[..|s| - 1], hex) + RadixDigitValue(s[|s| - 1], hex)
  }

  /** `parseInt(s)`: leading white space is skipped, then one optional sign, then a
      `0x` or `0X` prefix switches to radix 16; the digits of the radix that follow
      are read, and anything after them is ignored. No digit at all gives NaN. */
  function ParseInt(s: string): Parsed {
    var t := SkipSpaces(s);
    var negative := t != [] && t[0] == '-';
    var u := if t != [] && (t[0] == '-' || t[0] == '+') then t[1..] else t;
    var hex := |u| >= 2 && u[0] == '0' && (u[1] == 'x' || u[1] == 'X');
    var body := if hex then u[2..] else u;
    var digits := DigitRun(body, hex);
    assert AllRadixDigits(digits, hex) by {
      DigitRunFacts(body, hex);
    }
    if digits == [] then NaN else Int(negative, RadixValue(digits, hex))
  }

  /** `${n}` for the result of `parseInt`: "NaN", or the decimal digits with a minus
      sign for a negative value (`-0` is written "0"). */
  function NumberText(p: Parsed): string {
    match p
    case NaN => "NaN"
    case Int(negative, m) => if negative && m > 0 then "-" + DecimalString(m) else DecimalString(m)
  }

  // ---------------------------------------------------------------------------
  // Properties

  /** The digit run is a prefix of digits of the radix, ended by a character that is
      not one or by the end. */
  lemma {:induction false} DigitRunFacts(s: string, hex: bool)
    ensures DigitRun(s, hex) == s[..|DigitRun(s, hex)|]
    ensures AllRadixDigits(DigitRun(s, hex), hex)
    ensures |DigitRun(s, hex)| < |s| ==> !IsRadixDigit(s[|DigitRun(s, hex)|], hex)
  {
    if s != [] && IsRadixDigit(s[0], hex) {
      DigitRunFacts(s[1..], hex);
      var r := DigitRun(s[1..], hex);
      forall i | 0 <= i < |r| + 1 ensures IsRadixDigit(DigitRun(s, hex)[i], hex) {
        if i > 0 {
          assert DigitRun(s, hex)[i] == r[i - 1];
        }
      }
      assert |r| < |s[1..]| ==> s[|r| + 1] == s[1..][|r|];
    }
  }

  /** The digit run of a string that starts with digits and continues with something
      else is those digits. */
  lemma {:induction false} DigitRunOfPrefix(d: string, rest: string, hex: bool)
    requires AllRadixDigits(d, hex)
    requires rest == [] || !IsRadixDigit(rest[0], hex)
    ensures DigitRun(d + rest, hex) == d
  {
    if d == [] {
      assert d + rest == rest;
    } else {
      assert (d + rest)[1..] == d[1..] + rest;
      DigitRunOfPrefix(d[1..], rest, hex);
    }
  }

  /** In radix 10 the value is the one the decimal reading gives. */
  lemma {:induction false} RadixValueDecimal(s: string)
    requires AllDigits(s)
    ensures AllRadixDigits(s, false) && RadixValue(s, false) == ParseDecimal(s)
  {
    if s != [] {
      RadixValueDecimal(s[..|s| - 1]);
    }
  }

  /** Decimal digits followed by anything that does not start with a digit read as
      their value: the rest is ignored, unless the digits are a lone `0` and the
      rest starts with `x`, which makes a hexadecimal prefix. */
  lemma DecimalThenRest(d: string, rest: string)
    requires d != [] && AllDigits(d)
    requires rest == [] || !IsDigit(rest[0])
    requires d == "0" && rest != [] ==> rest[0] != 'x' && rest[0] != 'X'
    ensures ParseInt(d + rest) == Int(false, ParseDecimal(d))
  {
    var s := d + rest;
    assert s[0] == d[0] && !IsSpace(s[0]);
    SkipSpacesNoLead(s);
    if |d| >= 2 {
      assert s[1] == d[1] && IsDigit(s[1]);
    } else if rest != [] {
      assert s[1] == rest[0];
      assert d[0] != '0' || d == "0";
    }
    RadixValueDecimal(d);
    DigitRunOfPrefix(d, rest, false);
  }

  /** A string of decimal digits, leading zeros allowed, reads as its value. */
  lemma DecimalDigits(d: string)
    requires d != [] && AllDigits(d)
    ensures ParseInt(d) == Int(false, ParseDecimal(d))
  {
    DecimalThenRest(d, "");
    assert d + "" == d;
  }

  /** The decimal text of a number reads back as that number, and is written again
      the same way. */
  lemma ReadDecimalText(n: nat)
    ensures ParseInt(DecimalString(n)) == Int(false, n)
    ensures NumberText(ParseInt(DecimalString(n))) == DecimalString(n)
  {
    DecimalDigits(DecimalString(n));
    ParseDecimalString(n);
  }

  /** A minus sign before decimal digits gives the negated value; `-0` is written "0". */
  lemma NegativeDecimal(d: string)
    requires d != [] && AllDigits(d)
    ensures ParseInt("-" + d) == Int(true, ParseDecimal(d))
    ensures NumberText(ParseInt("-" + d)) == if ParseDecimal(d) == 0 then "0" else "-" + DecimalString(ParseDecimal(d))
  {
    var s := "-" + d;
    SkipSpacesNoLead(s);
    assert s[1..] == d;
    assert d[0] != '0' || |d| < 2 || IsDigit(d[1]);
    RadixValueDecimal(d);
    DigitRunOfPrefix(d, "", false);
    assert d + "" == d;
  }

  /** The `0x` prefix reads the hexadecimal digits after it. */
  lemma HexDigits(h: string)
    requires h != [] && AllRadixDigits(h, true)
    ensures ParseInt("0x" + h) == Int(false, RadixValue(h, true))
  {
    var s := "0x" + h;
    SkipSpacesNoLead(s);
    assert s[2..] == h;
    DigitRunOfPrefix(h, "", true);
    assert h + "" == h;
  }

  /** A string without any decimal digit is NaN (even `0x` needs its `0`). */
  lemma NoDigitIsNaN(s: string)
    requires forall i :: 0 <= i < |s| ==> !IsDigit(s[i])
    ensures ParseInt(s) == NaN
    ensures NumberText(ParseInt(s)) == "NaN"
  {
    var t := SkipSpaces(s);
    SkipSpacesSuffix(s);
    assert forall i :: 0 <= i < |t| ==> t[i] == s[|s| - |t| + i];
    if t != [] && (t[0] == '-' || t[0] == '+') {
      assert forall i :: 0 <= i < |t| - 1 ==> t[1..][i] == t[i + 1];
    }
  }

  /** Any run of leading white space (spaces, tabs, line terminators, no-break
      spaces and the rest of the set) is skipped. */
  lemma {:induction false} LeadingSpace(w: string, s: string)
    requires forall i :: 0 <= i < |w| ==> IsSpace(w[i])
    ensures ParseInt(w + s) == ParseInt(s)
  {
    if w != [] {
      assert (w + s)[1..] == w[1..] + s;
      LeadingSpace(w[1..], s);
    } else {
      assert w + s == s;
    }
  }
}
