/** The JavaScript string built-ins the sale forms rely on: `String.prototype.trim`,
    `parseInt` with no radix, and the digits-only `replace(/[^0-9]/g, '')`. Strings are
    sequences of UTF-16 code units in the source and sequences of characters here. */
module JsText {
  import opened Wrappers

  /** The ECMAScript WhiteSpace and LineTerminator characters, which `trim` removes and
      `parseInt` skips. */
  predicate IsSpace(c: char) {
    c == ' ' || c == '\t' || c == '\n' || c == '\r' || c == '\U{B}' || c == '\U{C}'
    || c == '\U{A0}' || c == '\U{FEFF}' || c == '\U{1680}' || ('\U{2000}' <= c <= '\U{200A}')
    || c == '\U{2028}' || c == '\U{2029}' || c == '\U{202F}' || c == '\U{205F}' || c == '\U{3000}'
  }

  /** `s` without its leading white space. */
  function TrimStart(s: string): (r: string)
    ensures |r| <= |s|
  {
    if |s| > 0 && IsSpace(s[0]) then TrimStart(s[1..]) else s
  }

  /** What TrimStart drops is white space, and what it keeps is the rest of `s`, which
      does not start with white space. */
  lemma {:induction false} TrimStartDrops(s: string)
    ensures var r := TrimStart(s);
            && |r| <= |s| && r == s[|s| - |r|..]
            && (forall i :: 0 <= i < |s| - |r| ==> IsSpace(s[i]))
            && (r == [] || !IsSpace(r[0]))
  {
    if |s| > 0 && IsSpace(s[0]) {
      TrimStartDrops(s[1..]);
      var r := TrimStart(s[1..]);
      assert s[1..][|s| - 1 - |r|..] == s[|s| - |r|..];
      forall i | 0 <= i < |s| - |r|
        ensures IsSpace(s[i])
      {
        if i > 0 {
          assert s[i] == s[1..][i - 1];
        }
      }
    }
  }

  /** `s` without its trailing white space. */
  function TrimEnd(s: string): string {
    if |s| > 0 && IsSpace(s[|s| - 1]) then TrimEnd(s[..|s| - 1]) else s
  }

  /** What TrimEnd drops is white space, and what it keeps is the front of `s`, which
      does not end with white space. */
  lemma {:induction false} TrimEndDrops(s: string)
    ensures var r := TrimEnd(s);
            && |r| <= |s| && r == s[..|r|]
            && (forall i :: |r| <= i < |s| ==> IsSpace(s[i]))
            && (r == [] || !IsSpace(r[|r| - 1]))
  {
    if |s| > 0 && IsSpace(s[|s| - 1]) {
      TrimEndDrops(s[..|s| - 1]);
      var r := TrimEnd(s[..|s| - 1]);
      assert s[..|s| - 1][..|r|] == s[..|r|];
      forall i | |r| <= i < |s|
        ensures IsSpace(s[i])
      {
        if i < |s| - 1 {
          assert s[i] == s[..|s| - 1][i];
        }
      }
    }
  }

  /** `s.trim()`. */
  function Trim(s: string): string {
    TrimEnd(TrimStart(s))
  }

  /** `!s.trim()`: the string is empty once trimmed. */
  predicate IsBlank(s: string) {
    Trim(s) == ""
  }

  /** A string is blank exactly when it consists of white space only. */
  lemma {:induction false} BlankIffAllSpace(s: string)
    ensures IsBlank(s) <==> forall i :: 0 <= i < |s| ==> IsSpace(s[i])
  {
    var t := TrimStart(s);
    TrimStartDrops(s);
    TrimEndDrops(t);
    if t != [] {
      assert t[0] == s[|s| - |t|];
      assert !IsSpace(s[|s| - |t|]);
    }
  }

  /** The trimmed string is a slice of the original that neither starts nor ends with
      white space. */
  lemma {:induction false} TrimIsInnerSlice(s: string)
    ensures var t := Trim(s);
            var k := |s| - |TrimStart(s)|;
            && k + |t| <= |s| && t == s[k..k + |t|]
            && (t == [] || (!IsSpace(t[0]) && !IsSpace(t[|t| - 1])))
  {
    var u := TrimStart(s);
    var t := TrimEnd(u);
    TrimStartDrops(s);
    TrimEndDrops(u);
    var k := |s| - |u|;
    assert t == u[..|t|];
    assert u[..|t|] == s[k..k + |t|];
    if t != [] {
      assert t[0] == u[0];
    }
  }

  // ---------------------------------------------------------------------------
  // parseInt

  /** The value of `c` as a digit in bases up to 36 (`0`-`9`, then `a`-`z` in either
      case), or 36 for a character that is no digit. */
  function DigitOf(c: char): (d: nat)
    ensures d <= 36
  {
    if '0' <= c <= '9' then c as int - '0' as int
    else if 'a' <= c <= 'z' then c as int - 'a' as int + 10
    else if 'A' <= c <= 'Z' then c as int - 'A' as int + 10
    else 36
  }

  /** The longest prefix of `s` made of digits of base `base`. */
  function LeadingDigits(s: string, base: nat): string {
    if |s| > 0 && DigitOf(s[0]) < base then [s[0]] + LeadingDigits(s[1..], base) else []
  }

  /** The value of a string of digits of base `base`, most significant first. */
  function DigitsValue(ds: string, base: nat): nat {
    if ds == [] then 0 else DigitsValue(ds[..|ds| - 1], base) * base + DigitOf(ds[|ds| - 1])
  }

  /** The value of the longest run of base-`base` digits at the start of `s`; None when
      there is none. */
  function ReadDigits(s: string, base: nat): Option<nat> {
    var ds := LeadingDigits(s, base);
    if ds == [] then None else Some(DigitsValue(ds, base))
  }

  /** An unsigned number: hexadecimal digits after `0x`/`0X`, decimal digits otherwise. */
  function ReadUnsigned(u: string): Option<nat> {
    if |u| >= 2 && u[0] == '0' && (u[1] == 'x' || u[1] == 'X') then ReadDigits(u[2..], 16)
    else ReadDigits(u, 10)
  }

  /** `parseInt(s)`: skip leading white space, read an optional sign, then an unsigned
      number; None stands for NaN, the result when no digit follows. */
  function ParseInt(s: string): (r: Option<int>) {
    var t := TrimStart(s);
    var sign := if |t| > 0 && t[0] == '-' then -1 else 1;
    match ReadUnsigned(if |t| > 0 && (t[0] == '-' || t[0] == '+') then t[1..] else t)
    case None => None
    case Some(v) => Some(sign * v)
  }

  /** `String(n)` for a natural number: its decimal digits, most significant first. */
  function Decimal(n: nat): string {
    if n < 10 then ['0' + n as char] else Decimal(n / 10) + ['0' + (n % 10) as char]
  }

  /** `String(n)` is a non-empty string of decimal digits. */
  lemma {:induction false} DecimalDigits(n: nat)
    ensures var r := Decimal(n); r != [] && forall i :: 0 <= i < |r| ==> '0' <= r[i] <= '9'
  {
    if n >= 10 {
      DecimalDigits(n / 10);
    }
  }

  /** Reading back the decimal digits of `n` gives `n`. */
  lemma {:induction false} DecimalValue(n: nat)
    ensures DigitsValue(Decimal(n), 10) == n
  {
    var r := Decimal(n);
    if n >= 10 {
      DecimalValue(n / 10);
      assert r[..|r| - 1] == Decimal(n / 10);
    }
  }

  /** A string of decimal digits is its own longest run of decimal digits. */
  lemma {:induction false} AllDigitsLead(ds: string)
    requires forall i :: 0 <= i < |ds| ==> '0' <= ds[i] <= '9'
    ensures LeadingDigits(ds, 10) == ds
  {
    if ds != [] {
      AllDigitsLead(ds[1..]);
    }
  }

  /** A decimal digit and the minus sign are not white space. */
  lemma {:induction false} DigitNotSpace(c: char)
    requires '0' <= c <= '9' || c == '-'
    ensures !IsSpace(c)
  {
  }

  /** parseInt reads a string of decimal digits as its decimal value. */
  lemma {:induction false} ParseDigits(ds: string)
    requires ds != [] && forall i :: 0 <= i < |ds| ==> '0' <= ds[i] <= '9'
    ensures ParseInt(ds) == Some(DigitsValue(ds, 10) as int)
  {
    AllDigitsLead(ds);
    DigitNotSpace(ds[0]);
    assert TrimStart(ds) == ds;
    assert !(ds[0] == '-' || ds[0] == '+');
    assert !(|ds| >= 2 && ds[0] == '0' && (ds[1] == 'x' || ds[1] == 'X'));
    assert ReadUnsigned(ds) == Some(DigitsValue(ds, 10));
  }

  /** parseInt reads a minus sign followed by decimal digits as the negated value. */
  lemma {:induction false} ParseNegatedDigits(ds: string)
    requires ds != [] && forall i :: 0 <= i < |ds| ==> '0' <= ds[i] <= '9'
    ensures ParseInt("-" + ds) == Some(-(DigitsValue(ds, 10) as int))
  {
    AllDigitsLead(ds);
    var m := "-" + ds;
    DigitNotSpace(m[0]);
    assert TrimStart(m) == m;
    assert m[1..] == ds;
    assert !(|ds| >= 2 && ds[0] == '0' && (ds[1] == 'x' || ds[1] == 'X'));
    assert ReadUnsigned(ds) == Some(DigitsValue(ds, 10));
  }

  /** parseInt reads `String(n)` back as `n`. */
  lemma {:induction false} ParseDecimal(n: nat)
    ensures ParseInt(Decimal(n)) == Some(n as int)
  {
    var d := Decimal(n);
    DecimalDigits(n);
    DecimalValue(n);
    ParseDigits(d);
  }

  /** parseInt reads `'-' + String(n)` back as `-n`. */
  lemma {:induction false} ParseNegatedDecimal(n: nat)
    ensures ParseInt("-" + Decimal(n)) == Some(-(n as int))
  {
    var d := Decimal(n);
    DecimalDigits(n);
    DecimalValue(n);
    ParseNegatedDigits(d);
  }

  // ---------------------------------------------------------------------------
  // replace(/[^0-9]/g, '')

  /** The decimal digits of `s`, in order. */
  function DigitsOnly(s: string): string {
    if s == [] then []
    else if '0' <= s[0] <= '9' then [s[0]] + DigitsOnly(s[1..])
    else DigitsOnly(s[1..])
  }

  /** Only decimal digits survive, and no more characters than `s` has. */
  lemma {:induction false} DigitsOnlyAreDigits(s: string)
    ensures var r := DigitsOnly(s); |r| <= |s| && forall i :: 0 <= i < |r| ==> '0' <= r[i] <= '9'
  {
    if s != [] {
      DigitsOnlyAreDigits(s[1..]);
    }
  }

  /** Keeping the digits of a string that is all digits leaves it as it is, so the
      replacement is idempotent. */
  lemma {:induction false} DigitsOnlyKeepsDigits(s: string)
    requires forall i :: 0 <= i < |s| ==> '0' <= s[i] <= '9'
    ensures DigitsOnly(s) == s
  {
    if s != [] {
      DigitsOnlyKeepsDigits(s[1..]);
    }
  }

  /** Every character that survives is one of the digits of `s`, and every digit of `s`
      survives. */
  lemma {:induction false} DigitsOnlyKeepsEveryDigit(s: string, c: char)
    ensures c in DigitsOnly(s) <==> c in s && '0' <= c <= '9'
  {
    if s != [] {
      DigitsOnlyKeepsEveryDigit(s[1..], c);
      assert s == [s[0]] + s[1..];
    }
  }
}
