/**
  The JavaScript string built-ins the board relies on: `String.prototype.trim`
  (the blank-title guard), `String.prototype.includes` (classifying a load
  error), `parseInt` with no radix (reading a dragged card's id back) and the
  conversion of an integral Number to its decimal string (what
  `dataTransfer.setData` stores).  Characters are Unicode scalar values; every
  character these functions test for lies in the Basic Multilingual Plane, so
  they agree with JavaScript's UTF-16 code units on them.
 */
module JsText {
  import opened Optional

  /** ECMAScript WhiteSpace or LineTerminator: what `trim` removes and `parseInt` skips. */
  predicate IsSpace(c: char) {
    || c == '\t' || c == '\n' || c == '\U{000B}' || c == '\U{000C}' || c == '\r'
    || c == ' ' || c == '\U{00A0}' || c == '\U{1680}'
    || ('\U{2000}' <= c <= '\U{200A}')
    || c == '\U{2028}' || c == '\U{2029}' || c == '\U{202F}' || c == '\U{205F}'
    || c == '\U{3000}' || c == '\U{FEFF}'
  }

  /** `s.trimStart()` */
  function TrimStart(s: string): string {
    if s != [] && IsSpace(s[0]) then TrimStart(s[1..]) else s
  }

  /** `s.trimEnd()` */
  function TrimEnd(s: string): string {
    if s != [] && IsSpace(s[|s| - 1]) then TrimEnd(s[..|s| - 1]) else s
  }

  /** `trimStart` leaves the suffix that follows the leading spaces, and that suffix does not start with a space. */
  lemma {:induction false} TrimStartStrips(s: string)
    ensures |TrimStart(s)| <= |s| && TrimStart(s) == s[|s| - |TrimStart(s)|..]
    ensures forall i :: 0 <= i < |s| - |TrimStart(s)| ==> IsSpace(s[i])
    ensures TrimStart(s) != [] ==> !IsSpace(TrimStart(s)[0])
  {
    if s != [] && IsSpace(s[0]) {
      TrimStartStrips(s[1..]);
      assert forall i :: 1 <= i < |s| ==> s[i] == s[1..][i - 1];
    }
  }

  /** `trimEnd` leaves the prefix that precedes the trailing spaces, and that prefix does not end with a space. */
  lemma {:induction false} TrimEndStrips(s: string)
    ensures |TrimEnd(s)| <= |s| && TrimEnd(s) == s[..|TrimEnd(s)|]
    ensures forall i :: |TrimEnd(s)| <= i < |s| ==> IsSpace(s[i])
    ensures TrimEnd(s) != [] ==> !IsSpace(TrimEnd(s)[|TrimEnd(s)| - 1])
  {
    if s != [] && IsSpace(s[|s| - 1]) {
      TrimEndStrips(s[..|s| - 1]);
    }
  }

  /** `s.trim()`: never longer than `s`, and neither starts nor ends with a space. */
  function Trim(s: string): (r: string)
    ensures |r| <= |s|
    ensures r != [] ==> !IsSpace(r[0]) && !IsSpace(r[|r| - 1])
  {
    var t := TrimStart(s);
    TrimStartStrips(s);
    TrimEndStrips(t);
    TrimEnd(t)
  }

  /** `!s.trim()`: the trimmed string is the empty (falsy) string. */
  predicate IsBlank(s: string) {
    Trim(s) == []
  }

  /** A string is blank exactly when every character is a space; the empty string is blank. */
  lemma BlankIffAllSpace(s: string)
    ensures IsBlank(s) <==> forall i :: 0 <= i < |s| ==> IsSpace(s[i])
  {
    var t := TrimStart(s);
    TrimStartStrips(s);
    TrimEndStrips(t);
    if t != [] {
      assert !IsSpace(s[|s| - |t|]);
    }
  }

  /** `s.includes(sub)`: a prefix is always found, and nothing longer than `s` ever is. */
  function Includes(s: string, sub: string): (b: bool)
    ensures sub <= s ==> b
    ensures b ==> |sub| <= |s|
  {
    if sub <= s then true
    else if s == [] then false
    else Includes(s[1..], sub)
  }

  /** `sub` occurs in `s` starting at position `i`. */
  predicate OccursAt(s: string, sub: string, i: int) {
    0 <= i <= |s| - |sub| && s[i..i + |sub|] == sub
  }

  /** `includes` holds exactly when `sub` occurs at some position of `s`. */
  lemma {:induction false} IncludesIffOccurs(s: string, sub: string)
    ensures Includes(s, sub) <==> exists i :: OccursAt(s, sub, i)
  {
    OccursAtStart(s, sub);
    if sub <= s {
      assert OccursAt(s, sub, 0);
    } else if s != [] {
      IncludesIffOccurs(s[1..], sub);
      if Includes(s[1..], sub) {
        var i :| OccursAt(s[1..], sub, i);
        OccursShift(s, sub, i + 1);
      } else {
        forall i | 0 < i
          ensures !OccursAt(s, sub, i)
        {
          OccursShift(s, sub, i);
        }
      }
    }
  }

  /** An occurrence at position 0 is a prefix. */
  lemma OccursAtStart(s: string, sub: string)
    ensures OccursAt(s, sub, 0) <==> sub <= s
  {
  }

  /** An occurrence after position 0 is an occurrence in the tail, one position earlier. */
  lemma OccursShift(s: string, sub: string, i: int)
    requires s != [] && 0 < i
    ensures OccursAt(s, sub, i) <==> OccursAt(s[1..], sub, i - 1)
  {
    if 0 <= i <= |s| - |sub| {
      var a, b := s[i..i + |sub|], s[1..][i - 1..i - 1 + |sub|];
      forall k | 0 <= k < |sub| ensures a[k] == b[k] {
        assert b[k] == s[1..][i - 1 + k];
      }
      assert a == b;
    }
  }

  /** The value of a digit character in radix 36 (`0`-`9`, then `a`/`A` = 10 … `z`/`Z` = 35); 36 for any other character. */
  function DigitValue(c: char): (v: nat)
    ensures v < 10 <==> '0' <= c <= '9'
    ensures v < 36 <==> ('0' <= c <= '9' || 'a' <= c <= 'z' || 'A' <= c <= 'Z')
  {
    if '0' <= c <= '9' then c as int - '0' as int
    else if 'a' <= c <= 'z' then c as int - 'a' as int + 10
    else if 'A' <= c <= 'Z' then c as int - 'A' as int + 10
    else 36
  }

  /** The longest prefix of `s` made of digits of `radix`. */
  function LeadingDigits(s: string, radix: nat): (r: string)
    ensures |r| <= |s| && r == s[..|r|]
    ensures forall i :: 0 <= i < |r| ==> DigitValue(r[i]) < radix
    ensures |r| < |s| ==> DigitValue(s[|r|]) >= radix
  {
    if s != [] && DigitValue(s[0]) < radix then [s[0]] + LeadingDigits(s[1..], radix) else []
  }

  /** The number a string of digits denotes in `radix`, most significant digit first. */
  function DigitsValue(d: string, radix: nat): nat {
    if d == [] then 0 else DigitsValue(d[..|d| - 1], radix) * radix + DigitValue(d[|d| - 1])
  }

  /**
    `parseInt(s)` with no radix argument; `None` is `NaN`.  Leading spaces are
    skipped, then one sign is read, then the digits.
   */
  function ParseInt(s: string): (r: Option<int>)
    ensures var t := TrimStart(s);
      var u := if t != [] && (t[0] == '-' || t[0] == '+') then t[1..] else t;
      u == [] || !('0' <= u[0] <= '9') ==> r == None
  {
    var t := TrimStart(s);
    if t != [] && t[0] == '-' then
      match ParseUnsigned(t[1..])
      case Some(v) => Some(-v)
      case None => None
    else if t != [] && t[0] == '+' then ParseUnsigned(t[1..])
    else ParseUnsigned(t)
  }

  /**
    The unsigned part of `parseInt`: a `0x`/`0X` prefix switches to radix 16,
    and the longest run of digits that follows is the value; no digits at all is `NaN`.
   */
  function ParseUnsigned(u: string): (r: Option<int>)
    ensures u == [] || !('0' <= u[0] <= '9') ==> r == None
  {
    var hex := |u| >= 2 && u[0] == '0' && (u[1] == 'x' || u[1] == 'X');
    var radix := if hex then 16 else 10;
    var z := LeadingDigits(if hex then u[2..] else u, radix);
    if z == [] then None else Some(DigitsValue(z, radix))
  }

  /** The decimal digits of `n`, with no leading zero. */
  function NatDigits(n: nat): (r: string)
    ensures r != []
    ensures forall i :: 0 <= i < |r| ==> '0' <= r[i] <= '9'
    ensures r[0] == '0' ==> n == 0 && |r| == 1
  {
    var last := ['0' + ((n % 10) as char)];
    if n < 10 then last else NatDigits(n / 10) + last
  }

  /** `String(n)` for an integral Number: a minus sign exactly when `n` is negative, then the decimal digits. */
  function Decimal(n: int): (r: string)
    ensures r != [] && (r[0] == '-' <==> n < 0)
    ensures n >= 0 ==> '0' <= r[0] <= '9'
    ensures n < 0 ==> |r| >= 2 && '0' <= r[1] <= '9'
  {
    if n < 0 then "-" + NatDigits(-n) else NatDigits(n)
  }

  /** The digits `NatDigits` writes denote `n` again. */
  lemma {:induction false} NatDigitsValue(n: nat)
    ensures DigitsValue(NatDigits(n), 10) == n
  {
    var d := NatDigits(n);
    if n >= 10 {
      NatDigitsValue(n / 10);
      assert d[..|d| - 1] == NatDigits(n / 10);
    }
  }

  /** A string made only of digits of `radix` is its own longest digit prefix. */
  lemma AllDigitsLead(s: string, radix: nat)
    requires forall i :: 0 <= i < |s| ==> DigitValue(s[i]) < radix
    ensures LeadingDigits(s, radix) == s
  {
  }

  /** The digits of `n` parse back, unsigned, to `n`. */
  lemma UnsignedDigits(m: nat)
    ensures ParseUnsigned(NatDigits(m)) == Some(m)
  {
    var d := NatDigits(m);
    assert !(|d| >= 2 && d[0] == '0');
    NatDigitsValue(m);
    AllDigitsLead(d, 10);
  }

  /** Reading back the decimal string of any integer yields that integer: `parseInt(String(n)) === n`. */
  lemma ParseDecimal(n: int)
    ensures ParseInt(Decimal(n)) == Some(n)
  {
    if n < 0 {
      ParseNegative(-n);
    } else {
      ParseNonNegative(n);
    }
  }

  lemma ParseNonNegative(m: nat)
    ensures ParseInt(NatDigits(m)) == Some(m)
  {
    var d := NatDigits(m);
    UnsignedDigits(m);
    NotSpaceStart(d);
    assert d[0] != '-' && d[0] != '+';
  }

  lemma ParseNegative(m: int)
    requires m > 0
    ensures ParseInt("-" + NatDigits(m)) == Some(-m)
  {
    var d := NatDigits(m);
    var t := "-" + d;
    UnsignedDigits(m);
    NotSpaceStart(t);
    assert t[0] == '-' && t[1..] == d;
  }

  /** Nothing is trimmed from a string that starts with a sign or a digit. */
  lemma NotSpaceStart(t: string)
    requires t != [] && (t[0] == '-' || '0' <= t[0] <= '9')
    ensures TrimStart(t) == t
  {
    assert !IsSpace(t[0]);
  }
}
