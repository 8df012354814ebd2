/** The `quantity` request parameter and Ruby's `to_i` on it, which the
    controller applies before its `quantity <= 0` check. */
module Params {

  /** What `cart_params[:quantity]` can hold: nothing (`nil`), a JSON
      integer, or a string. */
  datatype Param = Absent | Number(n: int) | Text(s: string)

  /** `quantity.to_i`: `nil.to_i` is 0, `Integer#to_i` is the integer itself,
      `String#to_i` parses a leading decimal number. */
  function ToI(q: Param): int
  {
    match q
    case Absent => 0
    case Number(n) => n
    case Text(s) => StringToI(s)
  }

  /** The characters `String#to_i` skips before the number: space, tab,
      line feed, vertical tab, form feed, carriage return. */
  predicate IsSpace(c: char)
  {
    c == ' ' || ('\t' <= c <= '\r')
  }

  predicate IsDigit(c: char)
  {
    '0' <= c <= '9'
  }

  predicate AllDigits(s: string)
  {
    forall i :: 0 <= i < |s| ==> IsDigit(s[i])
  }

  function SkipSpaces(s: string): string
  {
    if |s| > 0 && IsSpace(s[0]) then SkipSpaces(s[1..]) else s
  }

  /** The digits of the decimal number at the head of `s`, in order. A single
      underscore between two digits is allowed and dropped; anything else
      ends the number. */
  function DigitRun(s: string): (r: string)
    ensures AllDigits(r)
    ensures |r| <= |s|
    ensures |s| == 0 || !IsDigit(s[0]) ==> r == []
  {
    if |s| == 0 || !IsDigit(s[0]) then []
    else if |s| >= 3 && s[1] == '_' && IsDigit(s[2]) then [s[0]] + DigitRun(s[2..])
    else [s[0]] + DigitRun(s[1..])
  }

  /** The value of a string of decimal digits, most significant first. */
  function DigitsValue(d: string): nat
    requires AllDigits(d)
  {
    if |d| == 0 then 0 else DigitsValue(d[..|d| - 1]) * 10 + ((d[|d| - 1] as int) - ('0' as int))
  }

  /** `String#to_i`: skip leading white space, read an optional sign, then
      the decimal number; a string with no number there gives 0. */
  function StringToI(s: string): int
  {
    var t := SkipSpaces(s);
    var signed := |t| > 0 && (t[0] == '-' || t[0] == '+');
    var magnitude: int := DigitsValue(DigitRun(if signed then t[1..] else t));
    if signed && t[0] == '-' then -magnitude else magnitude
  }

  function DigitChar(d: nat): (c: char)
    requires d < 10
    ensures IsDigit(c) && (c as int) - ('0' as int) == d
  {
    (('0' as int) + d) as char
  }

  /** `Integer#to_s` for a natural number. */
  function NatToString(n: nat): (s: string)
    ensures |s| > 0 && AllDigits(s)
  {
    if n < 10 then [DigitChar(n)] else NatToString(n / 10) + [DigitChar(n % 10)]
  }

  /** `Integer#to_s`: a minus sign before a negative number's digits. */
  function IntToString(n: int): string
  {
    if n < 0 then "-" + NatToString(-n) else NatToString(n)
  }

  /** A string of plain digits is read whole. */
  lemma {:induction false} DigitRunOfDigits(s: string)
    requires AllDigits(s)
    ensures DigitRun(s) == s
  {
    if |s| > 0 {
      assert AllDigits(s[1..]);
      DigitRunOfDigits(s[1..]);
    }
  }

  lemma {:induction false} DigitsValueOfNat(n: nat)
    ensures DigitsValue(NatToString(n)) == n
  {
    if n >= 10 {
      var s := NatToString(n);
      assert s[..|s| - 1] == NatToString(n / 10);
      DigitsValueOfNat(n / 10);
    }
  }

  /** `to_i` reads back every integer that `to_s` writes, so a quantity
      sent as the text of a number counts as that number. */
  lemma ToIRoundTrip(n: int)
    ensures ToI(Text(IntToString(n))) == n
  {
    var digits := NatToString(if n < 0 then -n else n);
    DigitRunOfDigits(digits);
    DigitsValueOfNat(if n < 0 then -n else n);
    if n < 0 {
      var t := "-" + digits;
      assert SkipSpaces(t) == t;
      assert t[1..] == digits;
    } else {
      assert SkipSpaces(digits) == digits;
    }
  }

  /** A missing quantity, or text whose first character after the white
      space is neither a sign nor a digit, reads as 0; so does a sign not
      followed by a digit. */
  lemma ToINonNumeric(q: Param)
    ensures q == Absent ==> ToI(q) == 0
    ensures (q.Text? && |SkipSpaces(q.s)| > 0 && !IsDigit(SkipSpaces(q.s)[0])
             && SkipSpaces(q.s)[0] != '-' && SkipSpaces(q.s)[0] != '+') ==> ToI(q) == 0
    ensures (q.Text? && |SkipSpaces(q.s)| > 1 && SkipSpaces(q.s)[0] in "+-"
             && !IsDigit(SkipSpaces(q.s)[1])) ==> ToI(q) == 0
    ensures q.Text? && SkipSpaces(q.s) == [] ==> ToI(q) == 0
  {
  }
}
