/**
 * The Python string built-ins the bot relies on: `str.isspace`, `str.lower`,
 * `str.lstrip`, `str.startswith`, substring `in`, `str(n)` for integers and
 * `int(s)` for decimal strings.
 */
module Text {
  import opened Wrappers

  /** Python's `str.isspace()`: the characters `str.split()` and `str.lstrip()` treat as whitespace. */
  predicate IsSpace(c: char) {
    || c == ' '
    || '\t' <= c <= '\r'
    || '\U{1C}' <= c <= '\U{1F}'
    || c == '\U{85}' || c == '\U{A0}' || c == '\U{1680}'
    || '\U{2000}' <= c <= '\U{200A}'
    || c == '\U{2028}' || c == '\U{2029}' || c == '\U{202F}' || c == '\U{205F}' || c == '\U{3000}'
  }

  /**
   * The padding `int()` skips around a number: the ASCII blanks `\t \n \v \f \r`
   * and space, and every non-ASCII character `str.isspace()` accepts. The
   * ASCII separators U+001C..U+001F are whitespace to `str.isspace()` but not
   * to `int()`, which rejects them.
   */
  predicate IsIntPadding(c: char) {
    IsSpace(c) && !('\U{1C}' <= c <= '\U{1F}')
  }

  predicate IsDigit(c: char) {
    '0' <= c <= '9'
  }

  /**
   * One character of `str.lower()`: the capitals of Basic Latin, of Latin-1
   * and of the Cyrillic block (U+0400..U+042F) map to their small letters,
   * every other character is left as it is.
   */
  function LowerChar(c: char): (d: char) {
    if 'A' <= c <= 'Z' || ('\U{C0}' <= c <= '\U{DE}' && c != '\U{D7}') || '\U{410}' <= c <= '\U{42F}' then
      (c as int + 32) as char
    else if '\U{400}' <= c <= '\U{40F}' then
      (c as int + 80) as char
    else
      c
  }

  function Lower(s: string): (r: string) {
    seq(|s|, i requires 0 <= i < |s| => LowerChar(s[i]))
  }

  /** The only characters that lower-case to a small Cyrillic letter а..я are that letter and its capital. */
  lemma LowerChar_CyrillicPreimage(c: char, d: char)
    requires '\U{430}' <= d <= '\U{44F}'
    ensures LowerChar(c) == d <==> c == d || c as int == d as int - 32
  {
  }

  predicate StartsWith(s: string, prefix: string) {
    |prefix| <= |s| && s[..|prefix|] == prefix
  }

  /** Python's `sub in s`. */
  predicate Contains(s: string, sub: string)
    decreases |s|
  {
    StartsWith(s, sub) || (|s| > 0 && Contains(s[1..], sub))
  }

  /** Text in front of a string does not hide what it contains. */
  lemma {:induction false} Contains_Prefixed(prefix: string, s: string, sub: string)
    requires Contains(s, sub)
    ensures Contains(prefix + s, sub)
  {
    if |prefix| > 0 {
      assert (prefix + s)[1..] == prefix[1..] + s;
      Contains_Prefixed(prefix[1..], s, sub);
    } else {
      assert prefix + s == s;
    }
  }

  /** A string shorter than `sub` does not contain it. */
  lemma {:induction false} Contains_Short(s: string, sub: string)
    requires |s| < |sub|
    ensures !Contains(s, sub)
  {
    if |s| > 0 {
      Contains_Short(s[1..], sub);
    }
  }

  lemma Lower_Append(a: string, b: string)
    ensures Lower(a + b) == Lower(a) + Lower(b)
  {
  }

  /** `s.lstrip()`. */
  function StripLeft(s: string): (r: string)
    decreases |s|
  {
    if |s| > 0 && IsSpace(s[0]) then StripLeft(s[1..]) else s
  }

  /** `int()`'s skipping of leading padding. */
  function TrimLeft(s: string): (r: string)
    decreases |s|
  {
    if |s| > 0 && IsIntPadding(s[0]) then TrimLeft(s[1..]) else s
  }

  /** `int()`'s skipping of trailing padding. */
  function TrimRight(s: string): (r: string)
    decreases |s|
  {
    if |s| > 0 && IsIntPadding(s[|s| - 1]) then TrimRight(s[..|s| - 1]) else s
  }

  /** The number text `int()` reads, its padding on both sides removed. */
  function Trim(s: string): (r: string) {
    TrimRight(TrimLeft(s))
  }

  /** The first whitespace-free run of `s` and what follows it (the separator included). */
  function SplitFirst(s: string): (r: (string, string))
    decreases |s|
  {
    if |s| == 0 || IsSpace(s[0]) then ("", s)
    else
      var (token, rest) := SplitFirst(s[1..]);
      ([s[0]] + token, rest)
  }

  /** `s.partition(sep)` without the separator: what precedes the first `sep`, and what follows it. */
  function Partition(s: string, sep: char): (r: (string, string))
    ensures forall i :: 0 <= i < |r.0| ==> r.0[i] != sep
    ensures (r.0 == s && r.1 == "") || s == r.0 + [sep] + r.1
    decreases |s|
  {
    if |s| == 0 then ("", "")
    else if s[0] == sep then ("", s[1..])
    else
      var (before, after) := Partition(s[1..], sep);
      ([s[0]] + before, after)
  }

  /** `s.split(sep, 1)[1]`: what follows the first `sep`, or None when `sep` does not occur. */
  function AfterFirst(s: string, sep: char): (r: Option<string>)
    decreases |s|
  {
    if |s| == 0 then None
    else if s[0] == sep then Some(s[1..])
    else AfterFirst(s[1..], sep)
  }

  lemma {:induction false} AfterFirst_Prefix(prefix: string, sep: char, rest: string)
    requires forall i :: 0 <= i < |prefix| ==> prefix[i] != sep
    ensures AfterFirst(prefix + [sep] + rest, sep) == Some(rest)
  {
    if |prefix| > 0 {
      assert (prefix + [sep] + rest)[1..] == prefix[1..] + [sep] + rest;
      AfterFirst_Prefix(prefix[1..], sep, rest);
    } else {
      assert prefix + [sep] + rest == [sep] + rest;
    }
  }

  // ---------------------------------------------------------------------------
  // Decimal numbers: `str(n)` and `int(s)`

  function DigitChar(d: nat): (c: char)
    requires d < 10
    ensures IsDigit(c) && c as int - '0' as int == d
  {
    ('0' as int + d) as char
  }

  /** `str(n)` for a natural number. */
  function NatString(n: nat): (s: string)
    ensures |s| > 0 && forall i :: 0 <= i < |s| ==> IsDigit(s[i])
    decreases n
  {
    if n < 10 then [DigitChar(n)] else NatString(n / 10) + [DigitChar(n % 10)]
  }

  /** `str(n)` for any integer. */
  function IntString(n: int): (s: string) {
    if n < 0 then "-" + NatString(-n) else NatString(n)
  }

  /** The number a string of decimal digits denotes. */
  function DigitsValue(s: string): (n: nat)
    requires forall i :: 0 <= i < |s| ==> IsDigit(s[i])
  {
    if |s| == 0 then 0
    else
      assert IsDigit(s[|s| - 1]);
      DigitsValue(s[..|s| - 1]) * 10 + (s[|s| - 1] as int - '0' as int)
  }

  lemma {:induction false} DigitsValue_NatString(n: nat)
    ensures DigitsValue(NatString(n)) == n
    decreases n
  {
    if n >= 10 {
      var s := NatString(n);
      assert s[..|s| - 1] == NatString(n / 10);
      DigitsValue_NatString(n / 10);
    }
  }

  /** Different numbers are written differently. */
  lemma NatString_Injective(m: nat, n: nat)
    ensures NatString(m) == NatString(n) ==> m == n
  {
    DigitsValue_NatString(m);
    DigitsValue_NatString(n);
  }

  /** A decimal literal as `int()` accepts it (PEP 515): digits, single underscores between digits. */
  predicate IsDigitGroups(s: string) {
    && |s| > 0 && IsDigit(s[0]) && IsDigit(s[|s| - 1])
    && (forall i :: 0 <= i < |s| ==> IsDigit(s[i]) || s[i] == '_')
    && forall i, j :: 0 <= i < |s| && 0 <= j < |s| && j == i + 1 ==> !(s[i] == '_' && s[j] == '_')
  }

  function DropUnderscores(s: string): (r: string)
    ensures (forall i :: 0 <= i < |s| ==> IsDigit(s[i]) || s[i] == '_') ==> forall i :: 0 <= i < |r| ==> IsDigit(r[i])
  {
    if |s| == 0 then "" else (if s[0] == '_' then "" else [s[0]]) + DropUnderscores(s[1..])
  }

  lemma {:induction false} DropUnderscores_Digits(s: string)
    requires forall i :: 0 <= i < |s| ==> IsDigit(s[i])
    ensures DropUnderscores(s) == s
  {
    if |s| > 0 {
      DropUnderscores_Digits(s[1..]);
    }
  }

  function ParseDigits(s: string): (r: Option<nat>) {
    if IsDigitGroups(s) then
      Some(DigitsValue(DropUnderscores(s)))
    else None
  }

  /**
   * Python's `int(s)` in base 10, or None where it raises ValueError: padding
   * (`IsIntPadding`) on both sides, an optional sign, then digit groups.
   */
  function ParseInt(s: string): (r: Option<int>) {
    var t := Trim(s);
    if |t| > 0 && (t[0] == '+' || t[0] == '-') then
      match ParseDigits(t[1..])
      case None => None
      case Some(v) =>
        var n: int := if t[0] == '-' then -(v as int) else v;
        Some(n)
    else
      match ParseDigits(t)
      case None => None
      case Some(v) => Some(v)
  }

  lemma StripLeft_NoSpace(s: string)
    requires |s| > 0 && !IsSpace(s[0])
    ensures StripLeft(s) == s
  {
  }

  lemma TrimLeft_NoPadding(s: string)
    requires |s| > 0 && !IsIntPadding(s[0])
    ensures TrimLeft(s) == s
  {
  }

  lemma TrimRight_NoPadding(s: string)
    requires |s| > 0 && !IsIntPadding(s[|s| - 1])
    ensures TrimRight(s) == s
  {
  }

  lemma ParseDigits_NatString(m: nat)
    ensures ParseDigits(NatString(m)) == Some(m)
  {
    var digits := NatString(m);
    assert IsDigitGroups(digits);
    DropUnderscores_Digits(digits);
    DigitsValue_NatString(m);
  }

  /** `int(str(n)) == n`: every integer the bot prints reads back as itself. */
  lemma ParseInt_IntString(n: int)
    ensures ParseInt(IntString(n)) == Some(n)
  {
    var m: nat := if n < 0 then -n else n;
    var s := IntString(n);
    TrimLeft_NoPadding(s);
    TrimRight_NoPadding(s);
    assert Trim(s) == s;
    ParseDigits_NatString(m);
    if n < 0 {
      assert s[1..] == NatString(m);
    }
  }

  lemma ParseInt_Five()
    ensures ParseInt("5") == Some(5)
  {
    TrimLeft_NoPadding("5");
    TrimRight_NoPadding("5");
    assert DropUnderscores("5") == "5";
  }

  lemma ParseInt_PaddedNegative()
    ensures ParseInt(" -12\n") == Some(-12)
  {
    assert TrimLeft(" -12\n") == "-12\n" by {
      assert " -12\n"[1..] == "-12\n";
      TrimLeft_NoPadding("-12\n");
    }
    assert TrimRight("-12\n") == "-12" by {
      assert "-12\n"[..3] == "-12";
      TrimRight_NoPadding("-12");
    }
    assert "-12"[1..] == "12";
    DropUnderscores_Digits("12");
    assert DigitsValue("12") == 12 by { assert "12"[..1] == "1"; }
  }

  lemma {:induction false} DropUnderscores_Append(a: string, b: string)
    ensures DropUnderscores(a + b) == DropUnderscores(a) + DropUnderscores(b)
  {
    if |a| > 0 {
      assert (a + b)[1..] == a[1..] + b;
      DropUnderscores_Append(a[1..], b);
    } else {
      assert a + b == b;
    }
  }

  lemma DropUnderscores_Thousand()
    ensures DropUnderscores("1_000") == "1000"
  {
    var lead, zeros := "1_", "000";
    DropUnderscores_Digits(zeros);
    DropUnderscores_Append(lead, zeros);
    assert DropUnderscores(lead) == "1" by { assert lead[1..] == "_"; }
    assert lead + zeros == "1_000";
  }

  lemma DigitsValue_Thousand()
    ensures DigitsValue("1000") == 1000
  {
    assert "1000"[..3] == "100";
    assert "100"[..2] == "10";
    assert "10"[..1] == "1";
  }

  lemma ParseInt_Underscores()
    ensures ParseInt("1_000") == Some(1000)
  {
    TrimLeft_NoPadding("1_000");
    TrimRight_NoPadding("1_000");
    assert IsDigitGroups("1_000");
    DropUnderscores_Thousand();
    DigitsValue_Thousand();
  }

  lemma ParseInt_DoubleUnderscore()
    ensures ParseInt("1__0") == None
  {
    TrimLeft_NoPadding("1__0");
    TrimRight_NoPadding("1__0");
    assert !IsDigitGroups("1__0") by { assert "1__0"[1] == '_' && "1__0"[2] == '_'; }
  }

  lemma ParseInt_NotNumbers()
    ensures ParseInt("") == None
    ensures ParseInt("five") == None
  {
    TrimLeft_NoPadding("five");
    TrimRight_NoPadding("five");
  }

  /**
   * A trailing U+001F is not padding to `int()`, so "5\x1f" is rejected,
   * while a trailing no-break space U+00A0 is skipped.
   */
  lemma ParseInt_Separators()
    ensures ParseInt("5\U{1F}") == None
    ensures ParseInt("5\U{A0}") == Some(5)
  {
    TrimLeft_NoPadding("5\U{1F}");
    TrimRight_NoPadding("5\U{1F}");
    assert !IsDigitGroups("5\U{1F}") by { assert !IsDigit("5\U{1F}"[1]); }
    TrimLeft_NoPadding("5\U{A0}");
    assert TrimRight("5\U{A0}") == "5" by {
      assert "5\U{A0}"[..1] == "5";
      TrimRight_NoPadding("5");
    }
    ParseInt_Five();
  }
}
