/** Python's `int(text)` on a string in base 10, and `str(n)` of an integer,
    which it inverts. */
module PyInt {
  import opened Wrappers

  predicate IsDigit(c: char)
  {
    '0' <= c <= '9'
  }

  /** The characters `int()` skips around a number: among ASCII, only TAB
      to CR and SPACE (the separators FS to US are not skipped); beyond
      ASCII, the Unicode space characters, which `int()` first turns into
      SPACE. */
  predicate IsSpace(c: char)
  {
    var n := c as int;
    (9 <= n <= 13) || n == 32 || n == 0x85 || n == 0xA0 || n == 0x1680
    || (0x2000 <= n <= 0x200A) || n == 0x2028 || n == 0x2029 || n == 0x202F
    || n == 0x205F || n == 0x3000
  }

  /** `s` without its leading whitespace. */
  function StripLeft(s: string): string
  {
    if |s| > 0 && IsSpace(s[0]) then StripLeft(s[1..]) else s
  }

  /** `s` without its trailing whitespace. */
  function StripRight(s: string): string
  {
    if |s| > 0 && IsSpace(s[|s| - 1]) then StripRight(s[..|s| - 1]) else s
  }

  /** A run of decimal digits in which a single `_` may stand between two
      digits: a digit, then digits each optionally preceded by `_`. */
  predicate IsDigitRun(t: string)
  {
    && |t| > 0
    && IsDigit(t[0])
    && (|t| == 1 || if t[1] == '_' then IsDigitRun(t[2..]) else IsDigitRun(t[1..]))
  }

  /** The value of a digit run, read left to right; `_` separators carry no
      value. */
  function Value(t: string): nat
  {
    if t == [] then 0
    else if IsDigit(t[|t| - 1]) then Value(t[..|t| - 1]) * 10 + (t[|t| - 1] as int - '0' as int)
    else Value(t[..|t| - 1])
  }

  /** `int(text)`: surrounding whitespace, then an optional sign, then a
      digit run. Anything else raises `ValueError`, modelled as `None`. */
  function ParseInt(text: string): Option<int>
  {
    var t := StripRight(StripLeft(text));
    if |t| > 0 && (t[0] == '+' || t[0] == '-') then
      if IsDigitRun(t[1..]) then
        var v: int := Value(t[1..]);
        Some(if t[0] == '-' then -v else v)
      else None
    else if IsDigitRun(t) then Some(Value(t))
    else None
  }

  function Digit(d: nat): char
    requires d < 10
  {
    ('0' as int + d) as char
  }

  function ShowNat(n: nat): string
  {
    if n < 10 then [Digit(n)] else ShowNat(n / 10) + [Digit(n % 10)]
  }

  /** `str(n)` for an integer `n`. */
  function Show(n: int): string
  {
    if n < 0 then "-" + ShowNat(-n) else ShowNat(n)
  }

  lemma {:induction false} ShowNatDigits(n: nat)
    ensures |ShowNat(n)| > 0
    ensures forall i :: 0 <= i < |ShowNat(n)| ==> IsDigit(ShowNat(n)[i])
    ensures Value(ShowNat(n)) == n
  {
    if n >= 10 {
      ShowNatDigits(n / 10);
      var t := ShowNat(n);
      assert t[..|t| - 1] == ShowNat(n / 10);
    }
  }

  /** Digits alone, without `_`, always form a digit run. */
  lemma {:induction false} DigitsAreDigitRun(t: string)
    requires |t| > 0
    requires forall i :: 0 <= i < |t| ==> IsDigit(t[i])
    ensures IsDigitRun(t)
  {
    if |t| > 1 {
      DigitsAreDigitRun(t[1..]);
    }
  }

  /** Text that starts and ends with a non-space is left as it is. */
  lemma NothingToStrip(s: string)
    requires |s| > 0 && !IsSpace(s[0]) && !IsSpace(s[|s| - 1])
    ensures StripRight(StripLeft(s)) == s
  {
    assert StripLeft(s) == s;
  }

  lemma ShowNatIsDigitRun(n: nat)
    ensures IsDigitRun(ShowNat(n))
    ensures StripRight(StripLeft(ShowNat(n))) == ShowNat(n)
    ensures Value(ShowNat(n)) == n
  {
    ShowNatDigits(n);
    DigitsAreDigitRun(ShowNat(n));
    NothingToStrip(ShowNat(n));
  }

  /** `int(str(n)) == n` for every integer: the text of a number parses back
      to that number. */
  lemma ParseShow(n: int)
    ensures ParseInt(Show(n)) == Some(n)
  {
    if n < 0 {
      var t := Show(n);
      ShowNatIsDigitRun(-n);
      assert t[1..] == ShowNat(-n);
      assert t[|t| - 1] == ShowNat(-n)[|ShowNat(-n)| - 1];
      NothingToStrip(t);
    } else {
      ShowNatIsDigitRun(n);
    }
  }

  /** `int()` skips whitespace around the number. */
  lemma ParseIntSpaces()
    ensures ParseInt(" 7\n") == Some(7)
  {
    assert " 7\n"[1..] == "7\n";
    assert StripLeft("7\n") == "7\n";
    assert "7\n"[..1] == "7";
    assert StripRight("7") == "7";
  }

  /** `int()` reads a `+` sign and ignores a `_` between digits. */
  lemma ParseIntSignUnderscore()
    ensures ParseInt("+1_0") == Some(10)
  {
    NothingToStrip("+1_0");
    assert "+1_0"[1..] == "1_0";
    assert "1_0"[2..] == "0";
    assert "1_0"[..2] == "1_" && "1_"[..1] == "1" && "1"[..0] == "";
  }

  /** `int()` accepts leading zeros and a negative zero. */
  lemma ParseIntZeros()
    ensures ParseInt("007") == Some(7)
    ensures ParseInt("-0") == Some(0)
  {
    NothingToStrip("007");
    assert "007"[..2] == "00" && "00"[..1] == "0" && "0"[..0] == "";
    NothingToStrip("-0");
    assert "-0"[1..] == "0";
  }

  /** What `int()` refuses: misplaced `_`, a space after the sign, an ASCII
      separator such as FS around the number, and empty text. */
  lemma ParseIntRejects()
    ensures ParseInt("1__0") == None
    ensures ParseInt("_1") == None
    ensures ParseInt("1_") == None
    ensures ParseInt("- 1") == None
    ensures ParseInt("\U{1C}5") == None
    ensures ParseInt("") == None
  {
    NothingToStrip("1__0");
    NothingToStrip("_1");
    NothingToStrip("1_");
    NothingToStrip("- 1");
    NothingToStrip("\U{1C}5");
  }
}
