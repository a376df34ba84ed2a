/** Text helpers the shopping list relies on: Kotlin's `isBlank`, the decimal
    integer parser behind `String.toInt` / `String.toIntOrNull`, and
    `Int.toString`, which the inline editor uses to prefill the quantity. */
module Text {

  /** Kotlin's nullable result: `null` is `None`. */
  datatype Option<T> = None | Some(value: T)

  /** Bounds of Kotlin's 32-bit `Int`. */
  const IntMin: int := -0x8000_0000
  const IntMax: int := 0x7FFF_FFFF

  predicate InIntRange(n: int) {
    IntMin <= n <= IntMax
  }

  /** Kotlin's `Int`, for values the source stores with that type. */
  newtype Int32 = n: int | InIntRange(n)

  /** `Char.isWhitespace`: the characters Java calls whitespace or space
      separators (tab to carriage return, the four information separators,
      and the Unicode space, line and paragraph separators). */
  predicate IsWhitespace(c: char) {
    c == ' ' || '\t' <= c <= '\r' || '\U{1C}' <= c <= '\U{1F}'
    || c == '\U{A0}' || c == '\U{1680}' || '\U{2000}' <= c <= '\U{200A}'
    || c == '\U{2028}' || c == '\U{2029}' || c == '\U{202F}'
    || c == '\U{205F}' || c == '\U{3000}'
  }

  /** `CharSequence.isBlank`: empty, or whitespace only. */
  predicate IsBlank(s: string) {
    forall i :: 0 <= i < |s| ==> IsWhitespace(s[i])
  }

  predicate IsDigit(c: char) {
    '0' <= c <= '9'
  }

  predicate IsSign(c: char) {
    c == '-' || c == '+'
  }

  predicate AllDigits(s: string) {
    forall i :: 0 <= i < |s| ==> IsDigit(s[i])
  }

  function DigitValue(c: char): nat
    requires IsDigit(c)
  {
    (c as int) - ('0' as int)
  }

  function DigitChar(d: nat): char
    requires d < 10
  {
    (('0' as int) + d) as char
  }

  /** The number a run of decimal digits denotes, read left to right. */
  function DigitsValue(s: string): nat
    requires AllDigits(s)
  {
    if s == [] then 0 else DigitsValue(s[..|s| - 1]) * 10 + DigitValue(s[|s| - 1])
  }

  /** `String.toIntOrNull()` in radix 10 (and `String.toInt()`, which throws
      where this gives `None`): an optional leading `-` or `+`, then at least
      one digit and nothing else; a value outside the `Int` range is
      rejected rather than wrapped. */
  function ParseInt(s: string): (r: Option<int>)
    ensures r.Some? ==> InIntRange(r.value)
    ensures r.Some? ==> |s| > 0 && (IsDigit(s[0]) || (IsSign(s[0]) && |s| >= 2))
    ensures r.Some? ==> forall i :: 0 < i < |s| ==> IsDigit(s[i])
    ensures r.Some? && IsDigit(s[0]) ==> r.value >= 0
    ensures r.Some? && s[0] == '-' ==> r.value <= 0
    ensures r.Some? && s[0] == '+' ==> r.value >= 0
  {
    if |s| == 0 then None
    else
      var digits := if IsSign(s[0]) then s[1..] else s;
      if |digits| == 0 || !AllDigits(digits) then None
      else
        var magnitude: int := DigitsValue(digits);
        var v: int := if s[0] == '-' then -magnitude else magnitude;
        if InIntRange(v) then Some(v) else None
  }

  /** The decimal digits of a natural number, most significant first, with no
      leading zero. */
  function NatDigits(n: nat): (s: string)
    ensures |s| > 0 && AllDigits(s)
    ensures s[0] == '0' ==> n == 0 && s == "0"
  {
    if n < 10 then [DigitChar(n)] else NatDigits(n / 10) + [DigitChar(n % 10)]
  }

  /** `Int.toString()`: a minus sign for negative numbers, then the digits. */
  function ToDecimalString(n: int): (s: string)
    ensures |s| > 0 && (s[0] == '-' <==> n < 0)
    ensures n >= 0 ==> IsDigit(s[0])
    ensures forall i :: 0 < i < |s| ==> IsDigit(s[i])
    ensures |s| >= 2 ==> s[if n < 0 then 1 else 0] != '0'
  {
    if n < 0 then "-" + NatDigits(-n) else NatDigits(n)
  }

  lemma {:induction false} NatDigitsValue(n: nat)
    ensures DigitsValue(NatDigits(n)) == n
  {
    if n >= 10 {
      var s := NatDigits(n);
      assert s[..|s| - 1] == NatDigits(n / 10);
      NatDigitsValue(n / 10);
    }
  }

  /** Parsing what `toString` printed gives the number back, for every `Int`. */
  lemma ParseToDecimalString(n: int)
    requires InIntRange(n)
    ensures ParseInt(ToDecimalString(n)) == Some(n)
  {
    var s := ToDecimalString(n);
    if n < 0 {
      assert s[1..] == NatDigits(-n);
      NatDigitsValue(-n);
    } else {
      NatDigitsValue(n);
    }
  }

  /** The parser's success cases: a sign or none, then a non-empty run of
      digits (leading zeros allowed), gives the signed value of the digits
      when it fits in an `Int` and fails otherwise. With `ParseIntRejects`
      this covers every text. */
  lemma ParseIntAccepts(sign: string, d: string)
    requires sign == "" || sign == "+" || sign == "-"
    requires |d| > 0 && AllDigits(d)
    ensures var v := if sign == "-" then -(DigitsValue(d) as int) else DigitsValue(d) as int;
            ParseInt(sign + d) == if InIntRange(v) then Some(v) else None
  {
    if sign == "" {
      assert sign + d == d;
      ParseUnsigned(d);
    } else if sign == "-" {
      ParseMinus(d);
    } else {
      ParsePlus(d);
    }
  }

  /** The unsigned case of `ParseIntAccepts`. */
  lemma ParseUnsigned(d: string)
    requires |d| > 0 && AllDigits(d)
    ensures ParseInt(d) == if InIntRange(DigitsValue(d) as int) then Some(DigitsValue(d) as int) else None
  {
    assert !IsSign(d[0]);
  }

  /** The case of `ParseIntAccepts` with a leading minus sign. */
  lemma ParseMinus(d: string)
    requires |d| > 0 && AllDigits(d)
    ensures ParseInt("-" + d) ==
      if InIntRange(-(DigitsValue(d) as int)) then Some(-(DigitsValue(d) as int)) else None
  {
    var s := "-" + d;
    assert s[0] == '-';
    assert s[1..] == d;
  }

  /** The case of `ParseIntAccepts` with a leading plus sign. */
  lemma ParsePlus(d: string)
    requires |d| > 0 && AllDigits(d)
    ensures ParseInt("+" + d) == if InIntRange(DigitsValue(d) as int) then Some(DigitsValue(d) as int) else None
  {
    var s := "+" + d;
    assert s[0] == '+';
    assert s[1..] == d;
  }

  /** A few texts the quantity fields may hold, and what `toInt` makes of
      them: a plus sign and leading zeros are accepted, and so is `-0`. */
  lemma ParseIntExamples()
    ensures ParseInt("+5") == Some(5)
    ensures ParseInt("007") == Some(7)
    ensures ParseInt("-0") == Some(0)
    ensures ParseInt("-5") == Some(-5)
  {
    ParseIntAccepts("+", "5");
    ParseIntAccepts("", "007");
    ParseIntAccepts("-", "0");
    ParseIntAccepts("-", "5");
  }

  /** The digits of 2^31, the magnitude of `Int.MIN_VALUE`. */
  lemma DigitsOfIntMinMagnitude()
    ensures AllDigits("2147483648") && DigitsValue("2147483648") == 0x8000_0000
  {
    assert "21"[..1] == "2";
    assert DigitsValue("21") == 21;
    assert "214"[..2] == "21";
    assert DigitsValue("214") == 214;
    assert "2147"[..3] == "214";
    assert DigitsValue("2147") == 2147;
    assert "21474"[..4] == "2147";
    assert DigitsValue("21474") == 21474;
    assert "214748"[..5] == "21474";
    assert DigitsValue("214748") == 214748;
    assert "2147483"[..6] == "214748";
    assert DigitsValue("2147483") == 2147483;
    assert "21474836"[..7] == "2147483";
    assert DigitsValue("21474836") == 21474836;
    assert "214748364"[..8] == "21474836";
    assert DigitsValue("214748364") == 214748364;
    assert "2147483648"[..9] == "214748364";
    assert DigitsValue("2147483648") == 2147483648;
  }

  /** The edges of the `Int` range: the digits of 2^31 are rejected without
      a sign (one past `Int.MAX_VALUE`) and accepted after a minus sign
      (`Int.MIN_VALUE`). */
  lemma ParseIntRangeEdges()
    ensures ParseInt("2147483648") == None
    ensures ParseInt("-2147483648") == Some(-2147483648)
  {
    DigitsOfIntMinMagnitude();
    ParseIntAccepts("", "2147483648");
    ParseIntAccepts("-", "2147483648");
  }

  /** Texts `isNotBlank` turns away: the empty text, the single space the
      dialog is reset to, tabs and line breaks, and the no-break and
      ideographic spaces; a name with a letter between spaces gets through. */
  lemma BlankExamples()
    ensures IsBlank("") && IsBlank(" ") && IsBlank("\t \n")
    ensures IsBlank("\U{A0}\U{3000}")
    ensures !IsBlank(" a ")
  {
    assert !IsWhitespace(" a "[1]);
  }

  /** Any text holding an ASCII letter or digit is a name `isNotBlank` lets
      through. */
  lemma BlankText(s: string)
    ensures (exists i :: 0 <= i < |s| && (IsDigit(s[i]) || 'A' <= s[i] <= 'Z' || 'a' <= s[i] <= 'z'))
            ==> !IsBlank(s)
  {
  }

  /** The parser's error cases: no text, a sign alone, or a character that is
      neither a digit nor a leading sign. */
  lemma ParseIntRejects(s: string)
    requires s == [] || (|s| == 1 && IsSign(s[0]))
             || exists i :: 0 <= i < |s| && !IsDigit(s[i]) && !(i == 0 && IsSign(s[i]))
    ensures ParseInt(s) == None
  {
  }
}
