/** Numbers and formats on the console. */
module Printing {

  const INT_MIN := -0x8000_0000
  const INT_MAX := 0x7FFF_FFFF
  const UINT_MAX := 0xFFFF_FFFF

  // ---------------------------------------------------------------- numerals

  datatype Style = Dec | HexLower | HexUpper {
    function Radix(): nat {
      if this == Dec then 10 else 16
    }

    function Quotient(n: nat): nat {
      if this == Dec then n / 10 else n / 16
    }

    function Remainder(n: nat): (v: nat)
      ensures v < Radix()
    {
      if this == Dec then n % 10 else n % 16
    }

    /** `w` followed by the digit `v`. */
    function Shift(w: nat, v: nat): nat {
      if this == Dec then w * 10 + v else w * 16 + v
    }

    /** The character for a digit. */
    function Char(v: nat): char
      requires v < 16
    {
      if v < 10 then ('0' as int + v) as char
        else (if this == HexUpper then 'A' as int else 'a' as int) as char + (v - 10) as char
    }
  }

  /** The value of a digit character, 16 for any other. */
  function DigitValue(c: char): nat {
    if '0' <= c <= '9' then c as int - '0' as int
    else if 'a' <= c <= 'f' then 10 + (c as int - 'a' as int)
    else if 'A' <= c <= 'F' then 10 + (c as int - 'A' as int)
    else 16
  }

  /** The digits of `n`, most significant first; none for zero. */
  function Digits(n: nat, style: Style): string {
    if n == 0 then "" else Digits(style.Quotient(n), style) + [style.Char(style.Remainder(n))]
  }

  function Numeral(n: nat, style: Style): string {
    if n == 0 then "0" else Digits(n, style)
  }

  function Decimal(d: int): string {
    if d < 0 then "-" + Numeral(-d, Dec) else Numeral(d, Dec)
  }

  function Hex(d: nat, style: Style): string {
    ['0', if style == HexUpper then 'X' else 'x'] + Numeral(d, style)
  }

  // ---------------------------------------------------------------- reading them back

  /** The number a string of digits stands for. */
  function Value(s: string, style: Style): nat {
    if s == "" then 0 else style.Shift(Value(s[..|s| - 1], style), DigitValue(s[|s| - 1]))
  }

  function ReadDecimal(s: string): int {
    if s != "" && s[0] == '-' then -(Value(s[1..], Dec) as int) else Value(s, Dec)
  }

  predicate IsDigit(c: char, style: Style) {
    DigitValue(c) < style.Radix() && style.Char(DigitValue(c)) == c
  }

  ghost predicate AllDigits(s: string, style: Style) {
    forall i :: 0 <= i < |s| ==> IsDigit(s[i], style)
  }

  /** A string of digits without leading zeros. */
  ghost predicate IsNumeral(s: string, style: Style) {
    s != "" && (s[0] == '0' ==> s == "0") && AllDigits(s, style)
  }

  lemma CharIsDigit(v: nat, style: Style)
    requires v < style.Radix()
    ensures IsDigit(style.Char(v), style) && DigitValue(style.Char(v)) == v && (v > 0 ==> style.Char(v) != '0')
  {
  }

  lemma SplitJoin(n: nat, style: Style)
    ensures style.Shift(style.Quotient(n), style.Remainder(n)) == n
    ensures n > 0 ==> style.Quotient(n) < n && (style.Quotient(n) == 0 ==> style.Remainder(n) == n)
  {
  }

  lemma JoinSplit(w: nat, v: nat, style: Style)
    requires v < style.Radix()
    ensures style.Quotient(style.Shift(w, v)) == w && style.Remainder(style.Shift(w, v)) == v
    ensures w > 0 || v > 0 ==> style.Shift(w, v) > 0
  {
  }

  lemma {:induction false} DigitsRead(n: nat, style: Style)
    ensures Value(Digits(n, style), style) == n && AllDigits(Digits(n, style), style)
    ensures n > 0 ==> |Digits(n, style)| > 0 && Digits(n, style)[0] != '0'
  {
    if n > 0 {
      var q, v := style.Quotient(n), style.Remainder(n);
      var s, c := Digits(q, style), style.Char(v);
      SplitJoin(n, style);
      DigitsRead(q, style);
      CharIsDigit(v, style);
      assert (s + [c])[..|s|] == s;
    }
  }

  /** What is printed is a numeral, and reads back as the number. */
  lemma NumeralReads(n: nat, style: Style)
    ensures IsNumeral(Numeral(n, style), style) && Value(Numeral(n, style), style) == n
  {
    if n == 0 {
      assert "0"[..0] == "" && DigitValue('0') == 0;
      CharIsDigit(0, style);
    } else {
      DigitsRead(n, style);
    }
  }

  /** A digit string without leading zero is the digits of its value. */
  lemma {:induction false} DigitsUnique(s: string, style: Style)
    requires (s != "" ==> s[0] != '0') && AllDigits(s, style)
    ensures Digits(Value(s, style), style) == s && (s != "" ==> Value(s, style) > 0)
  {
    if s != "" {
      var front, c := s[..|s| - 1], s[|s| - 1];
      assert IsDigit(c, style) && (front == "" ==> c == s[0]);
      DigitsUnique(front, style);
      JoinSplit(Value(front, style), DigitValue(c), style);
      ZeroIsZero(c);
      assert s == front + [c];
    }
  }

  lemma ZeroIsZero(c: char)
    ensures DigitValue(c) == 0 <==> c == '0'
  {
  }

  /** There is only one numeral for a number, so reading back determines the text. */
  lemma NumeralUnique(s: string, style: Style)
    requires IsNumeral(s, style)
    ensures s == Numeral(Value(s, style), style)
  {
    if s == "0" {
      assert s[..0] == "" && Value(s, style) == 0;
    } else {
      DigitsUnique(s, style);
    }
  }

  /** Every signed number reads back. */
  lemma DecimalReads(d: int)
    ensures ReadDecimal(Decimal(d)) == d
  {
    hide Numeral, Value;
    if d < 0 {
      NumeralReads(-d, Dec);
      assert Decimal(d)[1..] == Numeral(-d, Dec);
    } else {
      NumeralReads(d, Dec);
      NoSign(Numeral(d, Dec));
    }
  }

  lemma NoSign(s: string)
    requires IsNumeral(s, Dec)
    ensures s != "" && s[0] != '-'
  {
    assert IsDigit(s[0], Dec);
  }

  lemma HexReads(d: nat, style: Style)
    ensures Value(Hex(d, style)[2..], style) == d && IsNumeral(Hex(d, style)[2..], style)
  {
    NumeralReads(d, style);
    assert Hex(d, style)[2..] == Numeral(d, style);
  }

  // ---------------------------------------------------------------- the form of the texts

  predicate AllDecimal(s: string) {
    forall i :: 0 <= i < |s| ==> '0' <= s[i] <= '9'
  }

  /** Decimal digits without leading zeros, and a minus sign only before a number that is not zero. */
  predicate IsSigned(s: string) {
    var digits := if s != "" && s[0] == '-' then s[1..] else s;
    digits != "" && AllDecimal(digits) && (digits[0] == '0' ==> s == "0")
  }

  /** A signed number is printed as a numeral, behind a minus sign if it is negative. */
  lemma DecimalForm(d: int)
    ensures IsSigned(Decimal(d)) && (Decimal(d)[0] == '-' <==> d < 0)
    ensures d >= 0 ==> IsNumeral(Decimal(d), Dec)
    ensures d < 0 ==> IsNumeral(Decimal(d)[1..], Dec) && Decimal(d)[1] != '0'
  {
    hide Numeral, Value, IsNumeral;
    var n := if d < 0 then -d else d;
    var s := Numeral(n, Dec);
    NumeralReads(n, Dec);
    DecimalCharacters(s);
    NoSign(s);
    if d < 0 {
      assert Decimal(d)[1..] == s && Decimal(d)[1] == s[0];
      if s[0] == '0' { ReadsZero(s); }
    }
  }

  lemma DecimalCharacters(s: string)
    requires IsNumeral(s, Dec)
    ensures s != "" && (s[0] == '0' ==> s == "0") && AllDecimal(s)
  {
    forall i | 0 <= i < |s| ensures '0' <= s[i] <= '9' { assert IsDigit(s[i], Dec); }
  }

  lemma ReadsZero(s: string)
    requires IsNumeral(s, Dec) && s[0] == '0'
    ensures Value(s, Dec) == 0
  {
    assert "0"[..0] == "";
  }

  /** No other such text reads as the number. */
  lemma DecimalUnique(s: string)
    requires IsSigned(s)
    ensures s == Decimal(ReadDecimal(s))
  {
    hide Numeral, Value;
    var digits := if s[0] == '-' then s[1..] else s;
    AreDigits(digits);
    NumeralUnique(digits, Dec);
    if s[0] == '-' {
      DigitsPositive(digits);
      assert s == "-" + digits;
    }
  }

  lemma AreDigits(s: string)
    requires AllDecimal(s)
    ensures AllDigits(s, Dec)
  {
  }

  lemma DigitsPositive(s: string)
    requires s != "" && s[0] != '0' && AllDigits(s, Dec)
    ensures Value(s, Dec) > 0
  {
    DigitsUnique(s, Dec);
  }

  /** Digit by digit: the text of `10 * n + v` is that of `n` followed by that of `v`, and a negative number has a
      minus sign before. */
  lemma DecimalWritten(n: nat, v: nat)
    requires v < 10
    ensures Decimal(v) == [('0' as int + v) as char]
    ensures n > 0 ==> Decimal(10 * n + v) == Decimal(n) + Decimal(v)
    ensures n > 0 ==> Decimal(-(n as int)) == "-" + Decimal(n)
  {
    hide Digits;
    DigitsJoined(0, v, Dec);
    DigitsJoined(n, v, Dec);
  }

  /** A hexadecimal digit, by style. */
  predicate IsHexDigit(c: char, style: Style) {
    '0' <= c <= '9' || if style == HexUpper then 'A' <= c <= 'F' else 'a' <= c <= 'f'
  }

  /** A prefix and hexadecimal digits without leading zeros, both in the letter case of the style. */
  ghost predicate IsHex(s: string, style: Style) {
    && |s| > 2 && s[..2] == (if style == HexUpper then "0X" else "0x")
    && (forall i :: 2 <= i < |s| ==> IsHexDigit(s[i], style))
    && (s[2] == '0' ==> |s| == 3)
  }

  lemma HexForm(d: nat, style: Style)
    requires style != Dec
    ensures IsHex(Hex(d, style), style)
  {
    hide Numeral, Value;
    var s, digits := Hex(d, style), Numeral(d, style);
    NumeralReads(d, style);
    assert s[..2] == if style == HexUpper then "0X" else "0x";
    forall i | 2 <= i < |s| ensures IsHexDigit(s[i], style) {
      assert s[i] == digits[i - 2] && IsDigit(digits[i - 2], style);
    }
  }

  /** No other such text reads as the number. */
  lemma HexUnique(s: string, style: Style)
    requires style != Dec && IsHex(s, style)
    ensures s == Hex(Value(s[2..], style), style)
  {
    hide Numeral, Value;
    var digits := s[2..];
    forall i | 0 <= i < |digits| ensures IsDigit(digits[i], style) {
      assert digits[i] == s[i + 2] && IsHexDigit(s[i + 2], style);
    }
    if digits[0] == '0' { assert digits == "0"; }
    NumeralUnique(digits, style);
    assert s == s[..2] + digits;
  }

  /** Digit by digit: the text of `16 * n + v` is that of `n` followed by a digit. */
  lemma HexWritten(n: nat, v: nat, style: Style)
    requires style != Dec && v < 16
    ensures Hex(0, style) == (if style == HexUpper then "0X0" else "0x0")
    ensures v > 0 ==> Hex(v, style) == Hex(0, style)[..2] + [HexDigit(v, style)]
    ensures n > 0 ==> Hex(16 * n + v, style) == Hex(n, style) + [HexDigit(v, style)]
  {
    hide Digits, Style.Char, HexDigit;
    DigitsJoined(0, v, style);
    DigitsJoined(n, v, style);
    SameDigit(v, style);
    if n > 0 { assert Hex(16 * n + v, style) == Hex(n, style)[..2] + (Digits(n, style) + [HexDigit(v, style)]); }
  }

  lemma DigitsJoined(n: nat, v: nat, style: Style)
    requires v < style.Radix()
    ensures Digits(0, style) == ""
    ensures n > 0 || v > 0 ==> Digits(style.Radix() * n + v, style) == Digits(n, style) + [style.Char(v)]
  {
    JoinSplit(n, v, style);
  }

  /** The sixteen digits in turn. */
  function HexDigit(v: nat, style: Style): char
    requires v < 16
  {
    if style == HexUpper then "0123456789ABCDEF"[v] else "0123456789abcdef"[v]
  }

  lemma SameDigit(v: nat, style: Style)
    requires style != Dec && v < 16
    ensures style.Char(v) == HexDigit(v, style)
  {
  }

  // ---------------------------------------------------------------- the digit buffer

  function Backwards(s: string): string {
    if s == "" then "" else Backwards(s[1..]) + [s[0]]
  }

  lemma {:induction false} BackwardsSnoc(s: string, c: char)
    ensures Backwards(s + [c]) == [c] + Backwards(s)
  {
    if s != "" {
      assert (s + [c])[1..] == s[1..] + [c];
      BackwardsSnoc(s[1..], c);
    }
  }

  /** What is left of `n` after `m` digits are taken off. */
  function Left(n: nat, m: nat, style: Style): nat {
    if m == 0 then n else style.Quotient(Left(n, m - 1, style))
  }

  /** The buffer holds the last digits of `n0`, lowest first, and `n` has the others. */
  ghost predicate Filled(buffer: string, n0: nat, n: nat, style: Style) {
    Digits(n0, style) == Digits(n, style) + Backwards(buffer) && n == Left(n0, |buffer|, style)
  }

  lemma FillNone(n: nat, style: Style)
    ensures Filled("", n, n, style)
  {
    assert Digits(n, style) + "" == Digits(n, style);
  }

  lemma FillOne(buffer: string, n0: nat, n: nat, style: Style)
    requires n > 0 && Filled(buffer, n0, n, style)
    ensures Filled(buffer + [style.Char(style.Remainder(n))], n0, style.Quotient(n), style)
    ensures style.Quotient(n) < n
  {
    var q, c := style.Quotient(n), style.Char(style.Remainder(n));
    SplitJoin(n, style);
    BackwardsSnoc(buffer, c);
    assert Digits(n, style) == Digits(q, style) + [c];
    assert (Digits(q, style) + [c]) + Backwards(buffer) == Digits(q, style) + ([c] + Backwards(buffer));
  }

  /** A full buffer means nothing is left: the digit loop never stops for lack of room. */
  lemma RoomEnough(buffer: string, n0: nat, n: nat, style: Style)
    requires Filled(buffer, n0, n, style) && n0 <= UINT_MAX && |buffer| == if style == Dec then 10 else 8
    ensures n == 0
  {
    if style == Dec { TenDigits(n0); } else { EightNibbles(n0, style); }
  }

  lemma TenDigits(n: nat)
    requires n <= UINT_MAX
    ensures Left(n, 10, Dec) == 0
  {
    assert Left(n, 1, Dec) <= 429_496_729;
    assert Left(n, 2, Dec) <= 42_949_672;
    assert Left(n, 3, Dec) <= 4_294_967;
    assert Left(n, 4, Dec) <= 429_496;
    assert Left(n, 5, Dec) <= 42_949;
    assert Left(n, 6, Dec) <= 4_294;
    assert Left(n, 7, Dec) <= 429;
    assert Left(n, 8, Dec) <= 42;
    assert Left(n, 9, Dec) <= 4;
  }

  lemma EightNibbles(n: nat, style: Style)
    requires n <= UINT_MAX && style != Dec
    ensures Left(n, 8, style) == 0
  {
    assert Left(n, 1, style) < 0x1000_0000;
    assert Left(n, 2, style) < 0x100_0000;
    assert Left(n, 3, style) < 0x10_0000;
    assert Left(n, 4, style) < 0x1_0000;
    assert Left(n, 5, style) < 0x1000;
    assert Left(n, 6, style) < 0x100;
    assert Left(n, 7, style) < 0x10;
  }

  /** Division and remainder of C, which truncate towards zero. */
  function CDiv(a: int, b: int): int
    requires b > 0
  {
    if a >= 0 then a / b else -((-a) / b)
  }

  function CMod(a: int, b: int): int
    requires b > 0
  {
    if a >= 0 then a % b else -((-a) % b)
  }

  // ---------------------------------------------------------------- the console

  /** The output callback: characters go to a log. */
  class Console {
    var text: string

    constructor ()
      ensures text == ""
    {
      text := "";
    }

    method Put(c: char)
      modifies this
      ensures text == old(text) + [c]
    {
      text := text + [c];
    }
  }

  /** Put the first `n` characters of the buffer, last first. */
  method PutBackwards(con: Console, digits: array<char>, n: nat)
    requires n <= digits.Length
    modifies con
    ensures con.text == old(con.text) + Backwards(digits[..n])
  {
    var i := n;
    while i != 0
      invariant 0 <= i <= n && con.text == old(con.text) + Backwards(digits[i..n])
    {
      con.Put(digits[i - 1]);
      assert digits[i - 1..n] == [digits[i - 1]] + digits[i..n];
      i := i - 1;
    }
    assert digits[0..n] == digits[..n];
  }

  /** Every 32-bit integer, the least one included. */
  method WriteInt(con: Console, d: int)
    requires INT_MIN <= d <= INT_MAX
    modifies con
    ensures con.text == old(con.text) + Decimal(d)
  {
    hide Digits, Backwards, Filled;
    if d == 0 {
      con.Put('0');
      return;
    }
    var digits := new char[10];
    var msnz;
    if d > 0 {
      msnz := PositiveDigits(digits, d);
    } else {
      msnz := NegativeDigits(digits, d);
      con.Put('-');
    }
    AllFilled(digits[..msnz], if d > 0 then d else -d, Dec);
    PutBackwards(con, digits, msnz);
  }

  method PositiveDigits(digits: array<char>, d: int) returns (msnz: nat)
    requires digits.Length == 10 && 0 < d <= INT_MAX
    modifies digits
    ensures msnz <= 10 && Filled(digits[..msnz], d, 0, Dec)
  {
    hide Digits, Backwards, Filled;
    msnz := 0;
    var rest := d;
    FillNone(d, Dec);
    assert digits[..0] == "";
    while msnz < 10 && rest != 0
      invariant msnz <= 10 && 0 <= rest && Filled(digits[..msnz], d, rest, Dec)
      decreases rest
    {
      FillOne(digits[..msnz], d, rest, Dec);
      digits[msnz] := ('0' as int + CMod(rest, 10)) as char;
      assert digits[..msnz + 1] == digits[..msnz] + [digits[msnz]];
      rest := CDiv(rest, 10);
      msnz := msnz + 1;
    }
    if msnz == 10 { RoomEnough(digits[..msnz], d, rest, Dec); }
    assert rest == 0;                              // the loop ended because nothing was left
  }

  /** The quotients stay negative, so that the least number needs no positive counterpart. */
  method NegativeDigits(digits: array<char>, d: int) returns (msnz: nat)
    requires digits.Length == 10 && INT_MIN <= d < 0
    modifies digits
    ensures msnz <= 10 && Filled(digits[..msnz], -d, 0, Dec)
  {
    hide Digits, Backwards, Filled;
    msnz := 0;
    var rest := d;
    FillNone(-d, Dec);
    assert digits[..0] == "";
    while msnz < 10 && rest != 0
      invariant msnz <= 10 && rest <= 0 && Filled(digits[..msnz], -d, -rest, Dec)
      decreases -rest
    {
      FillOne(digits[..msnz], -d, -rest, Dec);
      digits[msnz] := ('0' as int + -CMod(rest, 10)) as char;
      assert digits[..msnz + 1] == digits[..msnz] + [digits[msnz]];
      rest := CDiv(rest, 10);
      msnz := msnz + 1;
    }
    if msnz == 10 { RoomEnough(digits[..msnz], -d, -rest, Dec); }
    assert rest == 0;
  }

  lemma AllFilled(buffer: string, n: nat, style: Style)
    requires Filled(buffer, n, 0, style) && n > 0
    ensures Backwards(buffer) == Numeral(n, style)
  {
    assert "" + Backwards(buffer) == Backwards(buffer);
  }

  method WriteUint(con: Console, d: nat)
    requires d <= UINT_MAX
    modifies con
    ensures con.text == old(con.text) + Decimal(d)
  {
    hide Digits, Backwards, Filled;
    if d == 0 {
      con.Put('0');
      return;
    }
    var digits := new char[10];
    var msnz, rest := 0, d;
    FillNone(d, Dec);
    assert digits[..0] == "";
    while msnz < 10 && rest != 0
      invariant 0 <= msnz <= 10 && 0 <= rest && Filled(digits[..msnz], d, rest, Dec) && con.text == old(con.text)
      decreases rest
    {
      FillOne(digits[..msnz], d, rest, Dec);
      digits[msnz] := ('0' as int + rest % 10) as char;
      assert digits[..msnz + 1] == digits[..msnz] + [digits[msnz]];
      rest := rest / 10;
      msnz := msnz + 1;
    }
    if msnz == 10 { RoomEnough(digits[..msnz], d, rest, Dec); }
    assert rest == 0;
    AllFilled(digits[..msnz], d, Dec);
    PutBackwards(con, digits, msnz);
  }

  method WriteHex(con: Console, d: nat, letter: char)
    requires d <= UINT_MAX && letter in {'a', 'A'}
    modifies con
    ensures con.text == old(con.text) + Hex(d, if letter == 'a' then HexLower else HexUpper)
  {
    hide Digits, Backwards, Filled;
    ghost var style := if letter == 'a' then HexLower else HexUpper;
    con.Put('0');
    con.Put(('x' as int - 'a' as int + letter as int) as char);
    ghost var start := con.text;
    if d == 0 {
      con.Put('0');
      return;
    }
    var digits := new char[8];
    var msnz, rest := 0, d;
    FillNone(d, style);
    assert digits[..0] == "";
    while msnz < 8 && rest != 0
      invariant 0 <= msnz <= 8 && 0 <= rest && Filled(digits[..msnz], d, rest, style) && con.text == start
      decreases rest
    {
      FillOne(digits[..msnz], d, rest, style);
      var nib := rest % 16;
      rest := rest / 16;
      if nib < 10 {
        digits[msnz] := ('0' as int + nib) as char;
      } else {
        digits[msnz] := (letter as int + (nib - 10)) as char;
      }
      assert digits[..msnz + 1] == digits[..msnz] + [digits[msnz]];
      msnz := msnz + 1;
    }
    if msnz == 8 { RoomEnough(digits[..msnz], d, rest, style); }
    assert rest == 0;
    AllFilled(digits[..msnz], d, style);
    PutBackwards(con, digits, msnz);
  }
}
