/** JavaScript's `parseInt` on the strings the views read from number
    inputs: leading white space is skipped, one sign is read, and the longest
    run of digits that follows is converted; no digits gives NaN (`None`).
    Without an explicit radix a `0x`/`0X` prefix selects base 16. */
module JsParse {
  import opened Wrappers

  /** The white-space and line-terminator characters `parseInt` skips: tab,
      vertical tab, form feed, the byte-order mark, the line terminators and
      every space separator of Unicode's category Zs. */
  predicate IsSpace(c: char) {
    c == ' ' || c == '\t' || c == '\n' || c == '\r' || c == '\U{000B}' || c == '\U{000C}'
    || c == '\U{00A0}' || c == '\U{FEFF}' || c == '\U{2028}' || c == '\U{2029}'
    || c == '\U{1680}' || '\U{2000}' <= c <= '\U{200A}' || c == '\U{202F}' || c == '\U{205F}'
    || c == '\U{3000}'
  }

  /** The value of `c` as a digit of the radix, if it is one. */
  function DigitValue(c: char, radix: nat): (r: Option<nat>)
    requires radix == 10 || radix == 16
    ensures r.Some? ==> r.value < radix
    ensures radix == 10 ==> (r.Some? <==> '0' <= c <= '9')
  {
    if '0' <= c <= '9' then Some(c as nat - '0' as nat)
    else if radix == 16 && 'a' <= c <= 'f' then Some(c as nat - 'a' as nat + 10)
    else if radix == 16 && 'A' <= c <= 'F' then Some(c as nat - 'A' as nat + 10)
    else None
  }

  predicate IsDigit(c: char, radix: nat)
    requires radix == 10 || radix == 16
  {
    DigitValue(c, radix).Some?
  }

  /** `s` without its leading white space. */
  function TrimStart(s: string): (r: string)
    ensures |r| <= |s|
    ensures |r| > 0 ==> !IsSpace(r[0])
  {
    if |s| > 0 && IsSpace(s[0]) then TrimStart(s[1..]) else s
  }

  /** The longest prefix of `s` made of digits of the radix. */
  function DigitRun(s: string, radix: nat): (r: string)
    requires radix == 10 || radix == 16
    ensures |r| <= |s| && r == s[..|r|]
    ensures forall i :: 0 <= i < |r| ==> IsDigit(r[i], radix)
    ensures |r| < |s| ==> !IsDigit(s[|r|], radix)
  {
    if |s| > 0 && IsDigit(s[0], radix) then [s[0]] + DigitRun(s[1..], radix) else []
  }

  /** The number a run of digits denotes, most significant digit first. */
  function DigitsValue(s: string, radix: nat): (r: nat)
    requires radix == 10 || radix == 16
    requires forall i :: 0 <= i < |s| ==> IsDigit(s[i], radix)
  {
    if |s| == 0 then 0
    else
      assert IsDigit(s[|s| - 1], radix);
      DigitsValue(s[..|s| - 1], radix) * radix + DigitValue(s[|s| - 1], radix).value
  }

  /** The digits at the front of `u`, read in the radix; `None` when there
      are none. */
  function ParseDigits(u: string, radix: nat): (r: Option<nat>)
    requires radix == 10 || radix == 16
  {
    var run := DigitRun(u, radix);
    if |run| == 0 then None else Some(DigitsValue(run, radix))
  }

  /** The unsigned part: hexadecimal after a `0x`/`0X` prefix when
      `detectHex` is set, decimal otherwise. */
  function ParseUnsigned(u: string, detectHex: bool): (r: Option<nat>)
  {
    if detectHex && |u| >= 2 && u[0] == '0' && (u[1] == 'x' || u[1] == 'X') then ParseDigits(u[2..], 16)
    else ParseDigits(u, 10)
  }

  /** One optional sign, then the unsigned part. */
  function ParseSigned(t: string, detectHex: bool): (r: Option<int>)
  {
    if |t| > 0 && t[0] == '-' then
      match ParseUnsigned(t[1..], detectHex)
      case None => None
      case Some(v) => Some(-(v as int))
    else if |t| > 0 && t[0] == '+' then
      match ParseUnsigned(t[1..], detectHex)
      case None => None
      case Some(v) => Some(v as int)
    else
      match ParseUnsigned(t, detectHex)
      case None => None
      case Some(v) => Some(v as int)
  }

  /** `parseInt(s, 10)` when `detectHex` is false, `parseInt(s)` when it is
      true. A result of `-0` is represented as 0. */
  function ParseInt(s: string, detectHex: bool): (r: Option<int>)
  {
    ParseSigned(TrimStart(s), detectHex)
  }

  /** The decimal numeral of a natural number, without leading zeros. */
  function NatToString(n: nat): (r: string)
    ensures |r| > 0
    ensures forall i :: 0 <= i < |r| ==> '0' <= r[i] <= '9'
    ensures r[0] == '0' ==> n == 0 && |r| == 1
  {
    if n < 10 then [('0' as nat + n) as char]
    else NatToString(n / 10) + [('0' as nat + n % 10) as char]
  }

  /** The decimal numeral of an integer, as `String(n)` writes it. */
  function IntToString(n: int): (r: string)
    ensures |r| > 0
    ensures n >= 0 ==> r == NatToString(n)
    ensures n < 0 ==> r == "-" + NatToString(-n)
  {
    if n < 0 then "-" + NatToString(-n) else NatToString(n)
  }

  lemma {:induction false} NatToStringValue(n: nat)
    ensures forall i :: 0 <= i < |NatToString(n)| ==> IsDigit(NatToString(n)[i], 10)
    ensures DigitsValue(NatToString(n), 10) == n
  {
    var r := NatToString(n);
    if n >= 10 {
      NatToStringValue(n / 10);
      assert r[..|r| - 1] == NatToString(n / 10);
    }
  }

  lemma {:induction false} DigitRunOfDigits(s: string, rest: string, radix: nat)
    requires radix == 10 || radix == 16
    requires forall i :: 0 <= i < |s| ==> IsDigit(s[i], radix)
    requires |rest| == 0 || !IsDigit(rest[0], radix)
    ensures DigitRun(s + rest, radix) == s
    decreases |s|
  {
    if |s| > 0 {
      assert (s + rest)[0] == s[0] && IsDigit(s[0], radix);
      assert (s + rest)[1..] == s[1..] + rest;
      DigitRunOfDigits(s[1..], rest, radix);
    }
  }

  lemma TrimStartOfNonSpace(s: string)
    requires |s| > 0 && !IsSpace(s[0])
    ensures TrimStart(s) == s
  {
  }

  /** The decimal digits of a numeral followed by a non-digit read as the
      numeral's value, in either mode. */
  lemma ParseUnsignedNumeral(m: nat, rest: string, detectHex: bool)
    requires |rest| == 0 || !('0' <= rest[0] <= '9')
    requires detectHex ==> m != 0 || |rest| == 0 || (rest[0] != 'x' && rest[0] != 'X')
    ensures ParseUnsigned(NatToString(m) + rest, detectHex) == Some(m)
  {
    var digits := NatToString(m);
    NatToStringValue(m);
    var u := digits + rest;
    if detectHex && |u| >= 2 && u[0] == '0' && (u[1] == 'x' || u[1] == 'X') {
      assert |digits| == 1 && m == 0;
      assert u[1] == rest[0];
    }
    DigitRunOfDigits(digits, rest, 10);
  }

  /** `parseInt` reads back every decimal numeral `String` writes, and stops
      at the first character that is not a digit: `parseInt("12abc", 10)` is
      12. */
  lemma ParseIntReadsNumeral(n: int, rest: string, detectHex: bool)
    requires |rest| == 0 || !('0' <= rest[0] <= '9')
    requires detectHex ==> n != 0 || |rest| == 0 || (rest[0] != 'x' && rest[0] != 'X')
    ensures ParseInt(IntToString(n) + rest, detectHex) == Some(n)
  {
    if n < 0 {
      ParseNegativeNumeral(n, rest, detectHex);
    } else {
      ParseNonNegativeNumeral(n, rest, detectHex);
    }
  }

  lemma ParseNonNegativeNumeral(n: int, rest: string, detectHex: bool)
    requires n >= 0
    requires |rest| == 0 || !('0' <= rest[0] <= '9')
    requires detectHex ==> n != 0 || |rest| == 0 || (rest[0] != 'x' && rest[0] != 'X')
    ensures ParseInt(IntToString(n) + rest, detectHex) == Some(n)
  {
    var u := NatToString(n) + rest;
    assert IntToString(n) + rest == u;
    ParseUnsignedNumeral(n, rest, detectHex);
    assert u[0] == NatToString(n)[0];
    TrimStartOfNonSpace(u);
    assert ParseSigned(u, detectHex) == Some(n);
  }

  lemma ParseNegativeNumeral(n: int, rest: string, detectHex: bool)
    requires n < 0
    requires |rest| == 0 || !('0' <= rest[0] <= '9')
    ensures ParseInt(IntToString(n) + rest, detectHex) == Some(n)
  {
    var u := NatToString(-n) + rest;
    assert IntToString(n) + rest == "-" + u;
    ParseUnsignedNumeral(-n, rest, detectHex);
    ParseMinus(u, detectHex, -n);
  }

  /** A minus sign in front of an unsigned numeral negates it. */
  lemma ParseMinus(u: string, detectHex: bool, v: nat)
    requires ParseUnsigned(u, detectHex) == Some(v)
    ensures ParseInt("-" + u, detectHex) == Some(-(v as int))
  {
    var s := "-" + u;
    assert s[0] == '-' && s[1..] == u;
    TrimStartOfNonSpace(s);
  }

  lemma {:induction false} TrimStartOfSpaces(ws: string, s: string)
    requires forall i :: 0 <= i < |ws| ==> IsSpace(ws[i])
    ensures TrimStart(ws + s) == TrimStart(s)
    decreases |ws|
  {
    if |ws| > 0 {
      assert (ws + s)[0] == ws[0];
      assert TrimStart(ws + s) == TrimStart((ws + s)[1..]);
      assert (ws + s)[1..] == ws[1..] + s;
      TrimStartOfSpaces(ws[1..], s);
    } else {
      assert ws + s == s;
    }
  }

  /** Leading white space does not change what `parseInt` reads. */
  lemma ParseIntSkipsSpace(ws: string, s: string, detectHex: bool)
    requires forall i :: 0 <= i < |ws| ==> IsSpace(ws[i])
    ensures ParseInt(ws + s, detectHex) == ParseInt(s, detectHex)
  {
    TrimStartOfSpaces(ws, s);
  }

  /** A string that starts with anything but white space, a sign or a digit
      reads as NaN: `parseInt("abc", 10)` is NaN. */
  lemma ParseIntRejectsNonNumeral(s: string, detectHex: bool)
    requires |s| > 0 && !IsSpace(s[0]) && s[0] != '-' && s[0] != '+' && !('0' <= s[0] <= '9')
    ensures ParseInt(s, detectHex) == None
  {
    TrimStartOfNonSpace(s);
  }

  /** Without a radix, `0x` selects hexadecimal: `parseInt("0x1A")` is 26. */
  lemma ParseIntHex()
    ensures ParseInt("0x1A", true) == Some(26)
    ensures ParseInt("0x1A", false) == Some(0)
  {
    TrimStartOfNonSpace("0x1A");
    assert "0x1A"[2..] == "1A";
    assert DigitRun("1A", 16) == "1A";
    assert DigitsValue("1A", 16) == 26 by {
      assert "1A"[..1] == "1";
      assert "1"[..0] == "";
    }
    assert DigitRun("0x1A", 10) == "0";
    assert DigitsValue("0", 10) == 0 by { assert "0"[..0] == ""; }
  }
}
