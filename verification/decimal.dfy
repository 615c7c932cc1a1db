/** Decimal text for integers, in both directions.

    `ParseInt` is the global `parseInt(s, 10)` of ECMAScript (section 19.2.5 of
    ECMA-262) restricted to radix 10: leading white space and line terminators
    are skipped, one optional sign is taken, then the longest run of decimal
    digits; with no digit the answer is NaN (here `None`).

    `ToDecimal` is how a JavaScript integer-valued Number is turned into text
    (`textContent = n`, template literals): an optional minus sign followed by
    the digits without leading zeros. */
module Decimal {
  import opened Wrappers

  /** ECMAScript WhiteSpace (TAB, VT, FF, ZWNBSP and the Zs category) and
      LineTerminator (LF, CR, LS, PS): what `TrimString(s, start)` removes. */
  predicate IsWhite(c: char) {
    || c == '\U{0009}' || c == '\U{000B}' || c == '\U{000C}' || c == '\U{FEFF}'
    || c == ' ' || c == '\U{00A0}' || c == '\U{1680}' || ('\U{2000}' <= c <= '\U{200A}')
    || c == '\U{202F}' || c == '\U{205F}' || c == '\U{3000}'
    || c == '\n' || c == '\r' || c == '\U{2028}' || c == '\U{2029}'
  }

  /** A radix-10 digit: only the ASCII digits count. */
  predicate IsDigit(c: char) {
    '0' <= c <= '9'
  }

  predicate AllWhite(s: string) {
    forall i :: 0 <= i < |s| ==> IsWhite(s[i])
  }

  predicate AllDigits(s: string) {
    forall i :: 0 <= i < |s| ==> IsDigit(s[i])
  }

  function DigitValue(c: char): (d: nat)
    requires IsDigit(c)
    ensures d < 10
  {
    c as int - '0' as int
  }

  function DigitChar(d: nat): (c: char)
    requires d < 10
    ensures IsDigit(c) && DigitValue(c) == d
  {
    ('0' as int + d) as char
  }

  /** Length of the longest prefix made of white space only. */
  function WhiteRun(s: string): (n: nat)
    ensures n <= |s|
    ensures AllWhite(s[..n])
    ensures n == |s| || !IsWhite(s[n])
  {
    if |s| > 0 && IsWhite(s[0]) then
      var m := WhiteRun(s[1..]);
      assert s[..m + 1] == [s[0]] + s[1..][..m];
      1 + m
    else 0
  }

  /** The input with its leading white space removed. */
  function TrimStart(s: string): string
  {
    s[WhiteRun(s)..]
  }

  /** Length of the longest prefix made of digits only. */
  function DigitRun(s: string): (n: nat)
    ensures n <= |s|
    ensures AllDigits(s[..n])
    ensures n == |s| || !IsDigit(s[n])
  {
    if |s| > 0 && IsDigit(s[0]) then
      var m := DigitRun(s[1..]);
      assert s[..m + 1] == [s[0]] + s[1..][..m];
      1 + m
    else 0
  }

  /** The integer a run of digits denotes, most significant digit first. */
  function Value(ds: string): nat
    requires AllDigits(ds)
  {
    if ds == [] then 0 else 10 * Value(ds[..|ds| - 1]) + DigitValue(ds[|ds| - 1])
  }

  /** `parseInt(s, 10)`; `None` is NaN. A `-0` result is reported as 0. */
  function ParseInt(s: string): (r: Option<int>)
    ensures r.None? <==> DigitRun(Unsigned(TrimStart(s))) == 0
  {
    ParseTrimmed(TrimStart(s))
  }

  /** The sign and digit steps of `parseInt`, once white space is gone. */
  function ParseTrimmed(t: string): (r: Option<int>)
    ensures r.None? <==> DigitRun(Unsigned(t)) == 0
  {
    var sign := if |t| > 0 && t[0] == '-' then -1 else 1;
    var u := Unsigned(t);
    var n := DigitRun(u);
    if n == 0 then None else Some(sign * Value(u[..n]))
  }

  /** The text after one leading sign character, if there is one. */
  function Unsigned(t: string): (u: string)
    ensures |u| <= |t|
  {
    if |t| > 0 && (t[0] == '+' || t[0] == '-') then t[1..] else t
  }

  /** The digits of `n`, most significant first, without leading zeros. */
  function Digits(n: nat): (s: string)
    ensures |s| > 0 && AllDigits(s)
    ensures Value(s) == n
    ensures s[0] == '0' ==> n == 0
  {
    if n < 10 then [DigitChar(n)]
    else
      var s := Digits(n / 10) + [DigitChar(n % 10)];
      assert s[..|s| - 1] == Digits(n / 10);
      s
  }

  /** The text JavaScript gives an integer-valued Number. */
  function ToDecimal(n: int): (s: string)
    ensures |s| > 0
    ensures n < 0 <==> s[0] == '-'
    ensures s[if n < 0 then 1 else 0..] == Digits(if n < 0 then -n else n)
  {
    if n < 0 then "-" + Digits(-n) else Digits(n)
  }

  /** Skipping white space: any white prefix leaves the parse unchanged. */
  lemma {:induction false} ParseIntSkipsWhite(ws: string, s: string)
    requires AllWhite(ws)
    ensures ParseInt(ws + s) == ParseInt(s)
  {
    TrimWhitePrefix(ws, s);
  }

  lemma {:induction false} TrimWhitePrefix(ws: string, s: string)
    requires AllWhite(ws)
    ensures TrimStart(ws + s) == TrimStart(s)
  {
    WhiteRunOfPrefix(ws, s);
    assert (ws + s)[|ws| + WhiteRun(s)..] == s[WhiteRun(s)..];
  }

  lemma {:induction false} WhiteRunOfPrefix(ws: string, s: string)
    requires AllWhite(ws)
    ensures WhiteRun(ws + s) == |ws| + WhiteRun(s)
    decreases |ws|
  {
    if ws != [] {
      assert (ws + s)[1..] == ws[1..] + s;
      WhiteRunOfPrefix(ws[1..], s);
    } else {
      assert ws + s == s;
    }
  }

  /** The digit run of a string that is digits followed by a non-digit (or
      nothing) is exactly those digits. */
  lemma {:induction false} DigitRunOf(ds: string, rest: string)
    requires AllDigits(ds)
    requires rest == [] || !IsDigit(rest[0])
    ensures DigitRun(ds + rest) == |ds|
    decreases |ds|
  {
    if ds == [] {
      assert ds + rest == rest;
    } else {
      assert (ds + rest)[1..] == ds[1..] + rest;
      DigitRunOf(ds[1..], rest);
    }
  }

  /** A string that does not start with white space trims to itself. */
  lemma TrimNothing(s: string)
    requires s == [] || !IsWhite(s[0])
    ensures TrimStart(s) == s
  {
  }

  /** Text that starts with an optional sign and then neither white space nor
      a second sign is read as that sign applied to the leading digits. */
  lemma ParseSigned(sign: string, body: string)
    requires sign == "" || sign == "+" || sign == "-"
    requires body != [] ==> !IsWhite(body[0]) && body[0] != '+' && body[0] != '-'
    ensures var n := DigitRun(body);
      ParseInt(sign + body) == if n == 0 then None else Some((if sign == "-" then -1 else 1) * Value(body[..n]))
  {
    var s := sign + body;
    assert s == [] || s[0] == (if sign == "" then body[0] else sign[0]);
    TrimNothing(s);
    assert Unsigned(s) == body by {
      assert sign == "" || s[1..] == body;
    }
    assert s != [] ==> ((s[0] == '-') == (sign == "-"));
  }

  /** The maximal run: after an optional sign, the digits up to the first
      non-digit are read and everything from that character on is ignored. */
  lemma ParseIntStopsAtNonDigit(sign: string, ds: string, rest: string)
    requires sign == "" || sign == "+" || sign == "-"
    requires |ds| > 0 && AllDigits(ds)
    requires rest == [] || !IsDigit(rest[0])
    ensures ParseInt(sign + ds + rest) == Some((if sign == "-" then -1 else 1) * Value(ds))
  {
    var body := ds + rest;
    assert sign + ds + rest == sign + body;
    assert body[0] == ds[0];
    ParseSigned(sign, body);
    DigitRunOf(ds, rest);
    assert body[..|ds|] == ds;
  }

  /** NaN exactly when no digit follows the white space and the optional sign. */
  lemma ParseIntNaN(ws: string, sign: string, rest: string)
    requires AllWhite(ws)
    requires sign == "" || sign == "+" || sign == "-"
    requires rest == [] || !IsDigit(rest[0])
    requires sign == "" && rest != [] ==> !IsWhite(rest[0]) && rest[0] != '+' && rest[0] != '-'
    ensures ParseInt(ws + sign + rest) == None
  {
    assert ws + sign + rest == ws + (sign + rest);
    ParseIntSkipsWhite(ws, sign + rest);
    NoDigitAfterSign(sign, rest);
  }

  lemma NoDigitAfterSign(sign: string, rest: string)
    requires sign == "" || sign == "+" || sign == "-"
    requires rest == [] || !IsDigit(rest[0])
    requires sign == "" && rest != [] ==> !IsWhite(rest[0]) && rest[0] != '+' && rest[0] != '-'
    ensures ParseInt(sign + rest) == None
  {
    if sign == "" || rest == [] || (!IsWhite(rest[0]) && rest[0] != '+' && rest[0] != '-') {
      ParseSigned(sign, rest);
    } else {
      // a sign followed by anything that is not a digit
      var t := sign + rest;
      TrimNothing(t);
      assert Unsigned(t) == rest by {
        assert t[1..] == rest;
      }
    }
  }

  /** Round trip: parsing the text of an integer gives that integer back,
      also when the text is followed by something that is not a digit. */
  lemma ParseIntOfDecimal(n: int, rest: string)
    requires rest == [] || !IsDigit(rest[0])
    ensures ParseInt(ToDecimal(n) + rest) == Some(n)
  {
    var ds := Digits(if n < 0 then -n else n);
    var sign := if n < 0 then "-" else "";
    assert ToDecimal(n) == sign + ds;
    ParseIntStopsAtNonDigit(sign, ds, rest);
    assert (if sign == "-" then -1 else 1) * Value(ds) == n;
  }

  /** Different integers have different texts. */
  lemma ToDecimalInjective(m: int, n: int)
    requires ToDecimal(m) == ToDecimal(n)
    ensures m == n
  {
    ParseIntOfDecimal(m, "");
    ParseIntOfDecimal(n, "");
    assert ToDecimal(m) + "" == ToDecimal(m) && ToDecimal(n) + "" == ToDecimal(n);
  }
}
